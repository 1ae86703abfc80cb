/** The account directory: keyed by username, addressed by the identity provider's external id. */
module ScimDirectory {
  import opened Wrappers

  type Username = string
  type UserId = string
  type ExternalId = string

  datatype Source = LocalPassword | Scim | Sso

  datatype Account = Account(username: Username, displayName: string, email: string, userId: UserId,
                             tenantId: string, externalId: Option<ExternalId>, active: bool, source: Source)

  type Users = map<Username, Account>

  datatype Changes = Changes(userName: Option<Username>, displayName: Option<string>, email: Option<string>,
                             active: Option<bool>)

  /** What a writer of the directory asks for. */
  datatype Op =
    | Upsert(account: Account)
    | Patch(externalId: ExternalId, changes: Changes)
    | Disable(externalId: ExternalId)
    | Remove(externalId: ExternalId)

  predicate Has(users: Users, username: Username, id: ExternalId) {
    username in users && users[username].externalId == Some(id)
  }

  /** Some account with the external id: the order of the scan is not fixed. */
  ghost function Find(users: Users, id: ExternalId): (found: Option<Username>)
    ensures found.Some? ==> Has(users, found.value, id)
    ensures found.None? ==> forall username :: !Has(users, username, id)
  {
    if exists username :: Has(users, username, id) then
      var username :| Has(users, username, id);
      Some(username)
    else None
  }

  function Changed(account: Account, changes: Changes): Account {
    account.(username := OrElse(changes.userName, account.username),
             displayName := OrElse(changes.displayName, account.displayName),
             email := OrElse(changes.email, account.email),
             active := OrElse(changes.active, account.active))
  }

  // ----- The two critical sections of an upsert -----

  /** First the account with the same external id is taken out, if there is one, and its user id
      is carried over to the new account. */
  ghost function Detach(users: Users, account: Account): (Users, Account) {
    if account.externalId.None? then (users, account)
    else
      match Find(users, account.externalId.value)
      case None => (users, account)
      case Some(username) => (users - {username}, account.(userId := users[username].userId))
  }

  /** Then the new account is filed under its username, whoever was there. */
  function Attach(users: Users, account: Account): Users {
    users[account.username := account]
  }

  /** The directory after the operation, and the account the reply is about. */
  ghost function Apply(users: Users, op: Op): (Users, Option<Account>) {
    match op
    case Upsert(account) =>
      var (rest, stored) := Detach(users, account);
      (Attach(rest, stored), Some(stored))
    case Patch(id, changes) =>
      (match Find(users, id)
       case None => (users, None)
       case Some(username) =>
         var account := Changed(users[username], changes);
         (Attach(users - {username}, account), Some(account)))
    case Disable(id) =>
      (match Find(users, id)
       case None => (users, None)
       case Some(username) =>
         var account := users[username].(active := false);
         (users[username := account], Some(account)))
    case Remove(id) =>
      (match Find(users, id)
       case None => (users, None)
       case Some(username) => (users - {username}, Some(users[username])))
  }

  /** Whether the handler revokes the sessions of the account it answers with. */
  predicate Revokes(op: Op, reply: Option<Account>) {
    reply.Some? && (op.Disable? || op.Remove? || !reply.value.active)
  }

  // ----- Invariants -----

  ghost predicate Keyed(users: Users) {
    forall username | username in users :: users[username].username == username
  }

  ghost predicate UniqueIds(users: Users) {
    forall a, b, id | Has(users, a, id) && Has(users, b, id) :: a == b
  }

  ghost predicate Inv(users: Users) {
    Keyed(users) && UniqueIds(users)
  }

  /** The user id bound to an external id. */
  ghost function Bound(users: Users, id: ExternalId): Option<UserId> {
    match Find(users, id)
    case None => None
    case Some(username) => Some(users[username].userId)
  }

  lemma FoundIs(users: Users, username: Username, id: ExternalId)
    requires UniqueIds(users) && Has(users, username, id)
    ensures Find(users, id) == Some(username)
  {
  }

  lemma NotFound(users: Users, id: ExternalId)
    requires forall username :: !Has(users, username, id)
    ensures Find(users, id) == None
  {
  }

  /** Which external id an operation is about. */
  function About(op: Op): Option<ExternalId> {
    match op
    case Upsert(account) => account.externalId
    case _ => Some(op.externalId)
  }

  /** The username under which an operation files an account, if it files one. */
  ghost function FiledUnder(users: Users, op: Op): Option<Username> {
    match op
    case Upsert(account) => Some(account.username)
    case Patch(id, changes) =>
      (match Find(users, id)
       case None => None
       case Some(username) => Some(OrElse(changes.userName, users[username].username)))
    case _ => None
  }

  /** Taking an account out leaves no account with its external id. */
  lemma WithoutAccount(users: Users, username: Username)
    requires Inv(users) && username in users
    ensures var rest := users - {username};
            && Inv(rest)
            && (forall other, id :: Has(rest, other, id) <==> Has(users, other, id) && other != username)
            && (users[username].externalId.Some? ==>
                  forall other :: !Has(rest, other, users[username].externalId.value))
  {
    var rest := users - {username};
    forall other, id ensures Has(rest, other, id) <==> Has(users, other, id) && other != username {
    }
    if users[username].externalId.Some? {
      assert Has(users, username, users[username].externalId.value);
    }
  }

  lemma DetachedHasNoId(users: Users, account: Account)
    requires Inv(users)
    ensures var (rest, stored) := Detach(users, account);
            && Inv(rest) && stored == account.(userId := stored.userId)
            && (account.externalId.Some? ==> forall username :: !Has(rest, username, account.externalId.value))
            && (forall username, id | Has(rest, username, id) :: Has(users, username, id))
            && (forall username, id | Has(users, username, id) && account.externalId != Some(id) :: Has(rest, username, id))
            && (forall username | username in rest :: username in users && rest[username] == users[username])
  {
    if account.externalId.Some? && Find(users, account.externalId.value).Some? {
      WithoutAccount(users, Find(users, account.externalId.value).value);
    }
  }

  lemma AttachKeepsInv(users: Users, account: Account)
    requires Inv(users)
    requires account.externalId.Some? ==> forall username :: !Has(users, username, account.externalId.value)
    ensures Inv(Attach(users, account))
  {
    var users' := Attach(users, account);
    forall a, b, id | Has(users', a, id) && Has(users', b, id) ensures a == b {
      if a != account.username { assert Has(users, a, id); }
      if b != account.username { assert Has(users, b, id); }
    }
  }

  /** Every writer, run without another in between, keeps accounts filed under their own usernames
      and external ids unique. */
  lemma ApplyKeepsInv(users: Users, op: Op)
    requires Inv(users)
    ensures Inv(Apply(users, op).0)
  {
    match op
    case Upsert(account) =>
      DetachedHasNoId(users, account);
      var (rest, stored) := Detach(users, account);
      hide Detach, Inv;
      AttachKeepsInv(rest, stored);
    case Patch(id, changes) =>
      var found := Find(users, id);
      if found.Some? {
        var rest := users - {found.value};
        WithoutAccount(users, found.value);
        hide Keyed, UniqueIds;
        AttachKeepsInv(rest, Changed(users[found.value], changes));
      }
    case Disable(id) =>
      var found := Find(users, id);
      if found.Some? {
        var users' := users[found.value := users[found.value].(active := false)];
        assert forall username, any :: Has(users', username, any) <==> Has(users, username, any);
      }
    case Remove(id) =>
      var found := Find(users, id);
      if found.Some? {
        WithoutAccount(users, found.value);
      }
  }

  // ----- What each write does -----

  /** The account with exactly the given details replaced. */
  predicate IsPatched(account: Account, was: Account, changes: Changes) {
    && account.username == (if changes.userName.Some? then changes.userName.value else was.username)
    && account.displayName == (if changes.displayName.Some? then changes.displayName.value else was.displayName)
    && account.email == (if changes.email.Some? then changes.email.value else was.email)
    && account.active == (if changes.active.Some? then changes.active.value else was.active)
    && account.userId == was.userId && account.tenantId == was.tenantId
    && account.externalId == was.externalId && account.source == was.source
  }

  /** An upsert always answers: the account takes the place of the one with its external id and keeps that
      one's user id, and is filed as it came if there is none. The other writes answer only for an external
      id in the directory, and otherwise change nothing: a patch replaces the details it gives and files the
      account under the username it then has, disabling clears the active flag alone, and removing takes the
      account out. Nothing happens to other accounts, except to one filed under the same username. */
  lemma WriteOutcome(users: Users, op: Op)
    requires Inv(users)
    ensures var (users', reply) := Apply(users, op);
            var known := About(op).Some? && exists username :: Has(users, username, About(op).value);
            && (!known && op.Upsert? ==>
                  reply == Some(op.account) && users' == users[op.account.username := op.account])
            && (!known && !op.Upsert? ==> reply == None && users' == users)
            && (known ==> forall username | Has(users, username, About(op).value) ::
                  && reply.Some? && var was, rest := users[username], users - {username};
                  match op
                  case Upsert(account) =>
                    && reply.value == account.(userId := was.userId)
                    && users' == rest[account.username := reply.value]
                  case Patch(_, changes) =>
                    IsPatched(reply.value, was, changes) && users' == rest[reply.value.username := reply.value]
                  case Disable(_) => reply.value == was.(active := false) && users' == users[username := reply.value]
                  case Remove(_) => reply.value == was && users' == rest)
  {
    if About(op).Some? {
      forall username | Has(users, username, About(op).value)
        ensures Find(users, About(op).value) == Some(username)
      {
        FoundIs(users, username, About(op).value);
      }
    }
    hide Inv;
  }

  // ----- What happens to one external id -----

  lemma OwnEffect(users: Users, op: Op, id: ExternalId)
    requires Inv(users) && About(op) == Some(id)
    ensures var (users', reply) := Apply(users, op);
            && (Bound(users, id).Some? && reply.Some? ==> reply.value.userId == Bound(users, id).value)
            && (if op.Remove? then Bound(users', id) == None
                else if op.Upsert? then Bound(users', id) == Some(reply.value.userId)
                else Bound(users', id) == Bound(users, id))
            && (reply.Some? <==> op.Upsert? || Bound(users, id).Some?)
  {
    var (users', reply) := Apply(users, op);
    ApplyKeepsInv(users, op);
    var found := Find(users, id);
    if found.None? {
      if op.Upsert? { FoundIs(users', op.account.username, id); }
    } else if op.Remove? {
      WithoutAccount(users, found.value);
      NotFound(users', id);
    } else {
      FoundIs(users', reply.value.username, id);
    }
  }

  /** An account that the operation is not about stays as it is, unless the operation files another
      account under its username. */
  lemma OtherEffect(users: Users, op: Op, id: ExternalId)
    requires Inv(users) && About(op) != Some(id) && Bound(users, id).Some?
    ensures var users', username := Apply(users, op).0, Find(users, id).value;
            if FiledUnder(users, op) == Some(username) then Bound(users', id) == None
            else Find(users', id) == Some(username) && users'[username] == users[username]
                 && Bound(users', id) == Bound(users, id)
  {
    var users', username := Apply(users, op).0, Find(users, id).value;
    ApplyKeepsInv(users, op);
    if FiledUnder(users, op) == Some(username) {
      forall other ensures !Has(users', other, id) {
        if other != username && Has(users', other, id) {
          assert Has(users, other, id);
          assert false;
        }
      }
      NotFound(users', id);
    } else {
      assert Has(users', username, id);
      FoundIs(users', username, id);
    }
  }

  /** The user id of an external id stays the same while the id is in the directory. */
  lemma UserIdIsStable(users: Users, op: Op, id: ExternalId)
    requires Inv(users) && Bound(users, id).Some? && Bound(Apply(users, op).0, id).Some?
    ensures Bound(Apply(users, op).0, id) == Bound(users, id)
  {
    hide Inv, Apply, Bound;
    if About(op) == Some(id) {
      OwnEffect(users, op, id);
    } else {
      OtherEffect(users, op, id);
    }
  }

  /** An external id leaves the directory exactly when it is removed or when another account is filed
      under its username. */
  lemma LeavesExactly(users: Users, op: Op, id: ExternalId)
    requires Inv(users) && Bound(users, id).Some?
    ensures Bound(Apply(users, op).0, id) == None
       <==> if About(op) == Some(id) then op.Remove? else FiledUnder(users, op) == Find(users, id)
  {
    hide Inv, Apply, Bound, FiledUnder;
    if About(op) == Some(id) {
      OwnEffect(users, op, id);
    } else {
      assert Bound(users, id).Some? ==> Find(users, id).Some? by { BoundIsFound(users, id); }
      OtherEffect(users, op, id);
    }
  }

  lemma BoundIsFound(users: Users, id: ExternalId)
    ensures Bound(users, id).Some? <==> Find(users, id).Some?
  {
  }

  /** A reply that leads to revocation names the user id that was bound to the external id, and
      afterwards the id is gone or its account is inactive. */
  lemma RevocationNamesTheUser(users: Users, op: Op, id: ExternalId)
    requires Inv(users) && About(op) == Some(id) && Bound(users, id).Some?
    ensures var (users', reply) := Apply(users, op);
            && reply.Some? && reply.value.userId == Bound(users, id).value
            && (Revokes(op, reply) <==> Bound(users', id) == None || !users'[Find(users', id).value].active)
  {
    var (users', reply) := Apply(users, op);
    OwnEffect(users, op, id);
    ApplyKeepsInv(users, op);
    if !op.Remove? { FoundIs(users', reply.value.username, id); }
  }

  /** Whether the account an operation is about is inactive afterwards, or gone. */
  ghost predicate Deactivates(users: Users, op: Op) {
    match op
    case Upsert(account) => !account.active
    case Patch(id, changes) =>
      Find(users, id).Some? && !OrElse(changes.active, users[Find(users, id).value].active)
    case _ => true
  }

  /** Whose sessions a write ends: those of the user bound to the external id it is about, if it
      deactivates or removes that account; when the id is not in the directory only an upsert answers,
      and ends the sessions of the user id it brings if it is inactive. */
  lemma WriteEndsExactly(users: Users, op: Op, id: ExternalId, user: UserId)
    requires Inv(users) && About(op) == Some(id)
    ensures var reply := Apply(users, op).1;
            Revokes(op, reply) && reply.value.userId == user <==>
              if Bound(users, id).Some? then Deactivates(users, op) && Bound(users, id) == Some(user)
              else op.Upsert? && !op.account.active && op.account.userId == user
  {
    OwnEffect(users, op, id);
    BoundIsFound(users, id);
  }

  lemma FoundUnder(users: Users, id: ExternalId)
    ensures Find(users, id).Some? ==> Find(users, id).value in users
  {
  }

  /** Only an upsert brings in an external id that is not in the directory. */
  lemma ComesBy(users: Users, op: Op, id: ExternalId)
    requires Inv(users) && Bound(users, id) == None
    ensures Bound(Apply(users, op).0, id)
         == if op.Upsert? && op.account.externalId == Some(id) then Some(op.account.userId) else None
  {
    var users' := Apply(users, op).0;
    WriteOutcome(users, op);
    BoundIsFound(users, id);
    hide Apply;
    if op.Upsert? && op.account.externalId == Some(id) {
      ApplyKeepsInv(users, op);
      assert Has(users', op.account.username, id);
      FoundIs(users', op.account.username, id);
    } else {
      ComesNowhereElse(users, op, id);
      NotFound(users', id);
    }
  }

  lemma ComesNowhereElse(users: Users, op: Op, id: ExternalId)
    requires Inv(users) && Bound(users, id) == None && !(op.Upsert? && op.account.externalId == Some(id))
    ensures forall username :: !Has(Apply(users, op).0, username, id)
  {
    var (users', reply) := Apply(users, op);
    assert forall username :: !Has(users, username, id);
    forall username ensures !Has(users', username, id) {
      if username in users' && !(username in users && users'[username] == users[username]) {
        assert reply.Some? && users'[username] == reply.value;
        assert !op.Upsert? ==> reply.value.externalId == Some(op.externalId);
        assert op.Upsert? ==> reply.value.externalId == op.account.externalId;
      } else {
        assert !Has(users, username, id);
      }
    }
  }

  // ----- What interleaving breaks -----

  /** The second critical section of an upsert keeps external ids unique exactly when no other account
      has got the id since the first one. */
  lemma AttachKeepsUniqueExactly(users: Users, account: Account)
    requires Inv(users)
    ensures Inv(Attach(users, account)) <==>
              account.externalId.Some? ==> forall username | Has(users, username, account.externalId.value) ::
                username == account.username
  {
    var users' := Attach(users, account);
    forall username, id | username != account.username ensures Has(users', username, id) <==> Has(users, username, id) {
    }
    if account.externalId.Some? {
      assert Has(users', account.username, account.externalId.value);
    }
  }

  /** Two upserts of one new external id under different usernames, each run between the critical
      sections of the other, leave two accounts with the id. */
  lemma InterleavedUpsertsDuplicate(users: Users, a: Account, b: Account)
    requires Inv(users) && a.externalId.Some? && a.externalId == b.externalId && a.username != b.username
    requires Find(users, a.externalId.value).None?
    ensures var (users1, a1) := Detach(users, a);
            var (users2, b1) := Detach(users1, b);
            !Inv(Attach(Attach(users2, a1), b1))
  {
    var users' := Attach(Attach(users, a), b);
    assert Has(users', a.username, a.externalId.value) && Has(users', b.username, a.externalId.value);
  }

  // ----- The single sign-on callback -----

  /** The account a single sign-on callback opens a login for: the one under the username, or else the
      one it has just upserted, as it was before the upsert. */
  ghost function SsoLogin(users: Users, claimed: Account): (Users, Account) {
    if claimed.username in users then (users, users[claimed.username])
    else (Apply(users, Upsert(claimed)).0, claimed)
  }

  /** The login has the user id of the directory, except when a subject known under another username
      comes back with a username that is not in the directory and a different user id. */
  lemma SsoLoginUserId(users: Users, claimed: Account)
    requires Inv(users) && claimed.externalId.Some?
    ensures var (users', account) := SsoLogin(users, claimed);
            var id := claimed.externalId.value;
            && Inv(users')
            && account.username in users'
            && account == (if claimed.username in users then users[claimed.username] else claimed)
            && (claimed.username in users ==> users' == users)
            && (account.userId == users'[account.username].userId
                <==> claimed.username in users || Bound(users, id) in {None, Some(claimed.userId)})
  {
    ApplyKeepsInv(users, Upsert(claimed));
  }
}
