/** Runs of the account directory together with the session machine: whose sessions a directory write
    ends. Requests of both interleave; a directory write and the revocation it asks for are two steps. */
module DirectorySystem {
  import opened Wrappers
  import opened ScimDirectory
  import M = SessionModel
  import S = SessionSystem
  import Mit = Mitigation

  /** The account a pending login was opened for. */
  datatype Owner = Owner(user: UserId, id: Option<ExternalId>)

  type Owners = map<M.PendingId, Owner>

  datatype System = System(users: Users, world: S.World, owners: Owners)

  datatype Event =
    | Write(op: Op)
    | PasswordLogin(login: M.PendingId, username: Username, binding: M.Binding, challenge: M.Challenge)
    | SsoCallback(login: M.PendingId, claimed: Account, binding: M.Binding, challenge: M.Challenge)
    | Session(event: S.Event)

  ghost predicate Possible(s: System, event: Event) {
    match event
    case Write(op) => true
    case PasswordLogin(login, username, _, _) =>
      login !in s.world.fates && username in s.users && s.users[username].active
    case SsoCallback(login, claimed, _, _) => login !in s.world.fates && claimed.externalId.Some?
    case Session(e) => !e.Login? && S.Possible(s.world, e)
  }

  function LoginFor(account: Account, binding: M.Binding, challenge: M.Challenge): M.PendingLogin {
    M.PendingLogin(account.userId, account.tenantId, binding, challenge)
  }

  ghost function LoggedIn(s: System, login: M.PendingId, account: Account, binding: M.Binding, challenge: M.Challenge)
    : System
    requires login !in s.world.fates && s.world.registry.chain.Keys == s.world.registry.active.Keys
  {
    s.(world := S.Step(s.world, S.Login(login, LoginFor(account, binding, challenge))),
       owners := s.owners[login := Owner(account.userId, account.externalId)])
  }

  /** A disabled account gets no login. */
  ghost function Step(s: System, event: Event): System
    requires Possible(s, event) && s.world.registry.chain.Keys == s.world.registry.active.Keys
  {
    match event
    case Write(op) => s.(users := Apply(s.users, op).0)
    case PasswordLogin(login, username, binding, challenge) =>
      LoggedIn(s, login, s.users[username], binding, challenge)
    case SsoCallback(login, claimed, binding, challenge) =>
      var (users', account) := SsoLogin(s.users, claimed);
      var s' := s.(users := users');
      if account.active then LoggedIn(s', login, account, binding, challenge) else s'
    case Session(e) => s.(world := S.Step(s.world, e))
  }

  // ----- The invariant -----

  /** Pending logins, logins being issued and the sessions opened from them carry the user of their
      owner. */
  ghost predicate OwnersOk(w: S.World, owners: Owners) {
    && owners.Keys <= w.fates.Keys
    && (forall id | id in w.registry.pending :: id in owners && w.registry.pending[id].userId == owners[id].user)
    && (forall request | request in w.requests && w.requests[request].Issuing? ::
          w.requests[request].id in owners && w.requests[request].login.userId == owners[w.requests[request].id].user)
    && (forall id | id in w.fates && w.fates[id].Opened? ::
          && id in owners && w.fates[id].session in w.registry.active
          && w.registry.active[w.fates[id].session].claims.userId == owners[id].user)
  }

  ghost predicate SystemInv(s: System) {
    Inv(s.users) && S.WorldInv(s.world) && OwnersOk(s.world, s.owners)
  }

  /** A change to the sessions alone. */
  lemma SessionsKeepOwners(w: S.World, r': M.Registry, owners: Owners)
    requires OwnersOk(w, owners) && M.SameUsers(w.registry, r') && r'.pending == w.registry.pending
    ensures OwnersOk(w.(registry := r'), owners)
  {
  }

  /** A change to requests that are not issuing a session. */
  lemma RequestsKeepOwners(w: S.World, requests': map<S.RequestId, S.Stage>, owners: Owners)
    requires OwnersOk(w, owners)
    requires forall request | request in requests' && requests'[request].Issuing? ::
               request in w.requests && requests'[request] == w.requests[request]
    ensures OwnersOk(w.(requests := requests'), owners)
  {
  }

  lemma ScanKeepsOwners(w: S.World, e: S.Event, owners: Owners)
    requires OwnersOk(w, owners) && S.Possible(w, e) && e.Scan?
    requires w.registry.chain.Keys == w.registry.active.Keys
    ensures OwnersOk(S.Step(w, e), owners)
  {
    hide M.ReplayScan, M.SameUsers, OwnersOk;
    M.ScanKeepsUsers(w.registry, e.token);
    SessionsKeepOwners(w, M.ReplayScan(w.registry, e.token).0, owners);
    RequestsKeepOwners(w, w.requests[e.request := S.Refreshing(e.token)], owners);
  }

  lemma RotateKeepsOwners(w: S.World, e: S.Event, owners: Owners)
    requires OwnersOk(w, owners) && S.Possible(w, e) && e.Rotate?
    requires w.registry.chain.Keys == w.registry.active.Keys
    ensures OwnersOk(S.Step(w, e), owners)
  {
    hide M.RefreshRotate, M.SameUsers, OwnersOk;
    var token := w.requests[e.request].token;
    M.RefreshKeepsUsers(w.registry, token, e.newToken, e.now, e.signed);
    var w1 := w.(registry := M.RefreshRotate(w.registry, token, e.newToken, e.now, e.signed).0);
    SessionsKeepOwners(w, w1.registry, owners);
    RequestsKeepOwners(w1, w1.requests - {e.request}, owners);
  }

  lemma StepUpKeepsOwners(w: S.World, e: S.Event, owners: Owners)
    requires OwnersOk(w, owners) && S.Possible(w, e) && e.StepUp?
    requires w.registry.chain.Keys == w.registry.active.Keys
    ensures OwnersOk(S.Step(w, e), owners)
  {
    hide M.StepUpVerify, M.SameUsers, OwnersOk;
    M.StepUpKeepsUsers(w.registry, e.token, e.account, e.proofOk, e.newToken, e.now, e.signed);
    SessionsKeepOwners(w, M.StepUpVerify(w.registry, e.token, e.account, e.proofOk, e.newToken, e.now, e.signed).0, owners);
  }

  lemma PostureKeepsOwners(w: S.World, e: S.Event, owners: Owners)
    requires OwnersOk(w, owners) && S.Possible(w, e) && e.ReportPosture?
    requires w.registry.chain.Keys == w.registry.active.Keys
    ensures OwnersOk(S.Step(w, e), owners)
  {
    hide M.AssessPosture, M.SameUsers, OwnersOk;
    M.PostureKeepsUsers(w.registry, e.token, e.report, e.score, e.response, e.challenge);
    SessionsKeepOwners(w, M.AssessPosture(w.registry, e.token, e.report, e.score, e.response, e.challenge).0, owners);
  }

  /** Logout, revocation and mitigation. */
  lemma EndingKeepsOwners(w: S.World, e: S.Event, owners: Owners)
    requires OwnersOk(w, owners) && S.Possible(w, e) && (e.LogOut? || e.RevokeSessions? || e.Mitigate?)
    requires w.registry.chain.Keys == w.registry.active.Keys
    ensures OwnersOk(S.Step(w, e), owners)
  {
    hide M.Logout, M.RevokedFor, Mit.TreatedAll, M.SameUsers, OwnersOk;
    var r := w.registry;
    if e.LogOut? {
      M.LogoutKeepsUsers(r, e.token);
      SessionsKeepOwners(w, M.Logout(r, e.token).0, owners);
    } else if e.RevokeSessions? {
      M.RevokeKeepsUsers(r, e.user);
      SessionsKeepOwners(w, M.RevokeUser(r, e.user), owners);
    } else {
      Mit.MitigationKeepsUsers(r, e.actions, e.persistent);
      SessionsKeepOwners(w, r.(active := Mit.TreatedAll(r.active, e.actions, e.persistent)), owners);
    }
  }

  lemma BeginVerifyKeepsOwners(w: S.World, e: S.Event, owners: Owners)
    requires OwnersOk(w, owners) && S.Possible(w, e) && e.BeginVerify?
    requires w.registry.chain.Keys == w.registry.active.Keys
    ensures OwnersOk(S.Step(w, e), owners)
  {
    hide OwnersOk;
    if e.id in w.registry.pending {
      RequestsKeepOwners(w, w.requests[e.request := S.Verifying(e.id, w.registry.pending[e.id])], owners);
    }
  }

  /** Every event of the session machine but a login. */
  lemma SessionStepKeepsOwners(w: S.World, e: S.Event, owners: Owners)
    requires S.WorldInv(w) && OwnersOk(w, owners) && S.Possible(w, e) && !e.Login?
    requires w.registry.chain.Keys == w.registry.active.Keys
    ensures OwnersOk(S.Step(w, e), owners)
  {
    hide S.WorldInv, S.Step, S.Possible, OwnersOk;
    if e.Scan? {
      ScanKeepsOwners(w, e, owners);
    } else if e.Rotate? {
      RotateKeepsOwners(w, e, owners);
    } else if e.StepUp? {
      StepUpKeepsOwners(w, e, owners);
    } else if e.ReportPosture? {
      PostureKeepsOwners(w, e, owners);
    } else if e.BeginVerify? {
      BeginVerifyKeepsOwners(w, e, owners);
    } else if e.Consume? || e.IssueSession? || e.Abandon? {
      LoginStepKeepsOwners(w, e, owners);
    } else {
      EndingKeepsOwners(w, e, owners);
    }
  }

  lemma LoginStepKeepsOwners(w: S.World, e: S.Event, owners: Owners)
    requires S.WorldInv(w) && OwnersOk(w, owners) && S.Possible(w, e)
    requires e.Consume? || e.IssueSession? || e.Abandon?
    requires w.registry.chain.Keys == w.registry.active.Keys
    ensures OwnersOk(S.Step(w, e), owners)
  {
    hide M.Inv, S.LoginsInv;
  }

  lemma LoginKeepsOwners(w: S.World, owners: Owners, id: M.PendingId, login: M.PendingLogin, owner: Owner)
    requires S.WorldInv(w) && OwnersOk(w, owners) && id !in w.fates && login.userId == owner.user
    requires w.registry.chain.Keys == w.registry.active.Keys
    ensures OwnersOk(S.Step(w, S.Login(id, login)), owners[id := owner])
  {
    hide M.Inv;
  }

  lemma StepKeepsInv(s: System, event: Event)
    requires SystemInv(s) && Possible(s, event) && s.world.registry.chain.Keys == s.world.registry.active.Keys
    ensures SystemInv(Step(s, event))
  {
    hide Inv, S.WorldInv, OwnersOk, S.Step, S.Possible, Apply, SsoLogin;
    match event
    case Write(op) => ApplyKeepsInv(s.users, op);
    case PasswordLogin(login, username, binding, challenge) =>
      LoggedInKeepsInv(s, login, s.users[username], binding, challenge);
    case SsoCallback(login, claimed, binding, challenge) =>
      SsoLoginUserId(s.users, claimed);
      var (users', account) := SsoLogin(s.users, claimed);
      if account.active { LoggedInKeepsInv(s.(users := users'), login, account, binding, challenge); }
    case Session(e) =>
      S.StepKeepsInv(s.world, e);
      SessionStepKeepsOwners(s.world, e, s.owners);
  }

  lemma LoggedInKeepsInv(s: System, login: M.PendingId, account: Account, binding: M.Binding, challenge: M.Challenge)
    requires SystemInv(s) && login !in s.world.fates
    requires s.world.registry.chain.Keys == s.world.registry.active.Keys
    ensures SystemInv(LoggedIn(s, login, account, binding, challenge))
  {
    var pending := LoginFor(account, binding, challenge);
    assert S.Possible(s.world, S.Login(login, pending));
    hide Inv, S.WorldInv, OwnersOk, S.Step, S.Possible;
    S.StepKeepsInv(s.world, S.Login(login, pending));
    LoginKeepsOwners(s.world, s.owners, login, pending, Owner(account.userId, account.externalId));
  }

  // ----- Runs -----

  ghost predicate IsRun(systems: seq<System>, events: seq<Event>) {
    && |systems| == |events| + 1
    && SystemInv(systems[0])
    && forall i | 0 <= i < |events| ::
         && Possible(systems[i], events[i])
         && systems[i].world.registry.chain.Keys == systems[i].world.registry.active.Keys
         && systems[i + 1] == Step(systems[i], events[i])
  }

  lemma {:induction false} RunKeepsInv(systems: seq<System>, events: seq<Event>, i: nat)
    requires IsRun(systems, events) && i < |systems|
    ensures SystemInv(systems[i])
  {
    if i > 0 {
      RunKeepsInv(systems, events, i - 1);
      hide SystemInv, Step, Possible;
      StepKeepsInv(systems[i - 1], events[i - 1]);
    }
  }

  lemma OwnerKept(s: System, event: Event, login: M.PendingId)
    requires SystemInv(s) && Possible(s, event) && login in s.owners
    requires s.world.registry.chain.Keys == s.world.registry.active.Keys
    ensures login in Step(s, event).owners && Step(s, event).owners[login] == s.owners[login]
  {
    assert login in s.world.fates;
    hide Inv, S.WorldInv, S.Step, S.Possible, Apply, SsoLogin;
  }

  lemma {:induction false} OwnerStays(systems: seq<System>, events: seq<Event>, i: nat, j: nat, login: M.PendingId)
    requires IsRun(systems, events) && i <= j < |systems| && login in systems[i].owners
    ensures login in systems[j].owners && systems[j].owners[login] == systems[i].owners[login]
    decreases j - i
  {
    if i < j {
      RunKeepsInv(systems, events, i);
      hide SystemInv, Step, Possible;
      OwnerKept(systems[i], events[i], login);
      OwnerStays(systems, events, i + 1, j, login);
    }
  }

  lemma BoundIsStable(s: System, event: Event, id: ExternalId)
    requires SystemInv(s) && Possible(s, event) && s.world.registry.chain.Keys == s.world.registry.active.Keys
    requires Bound(s.users, id).Some? && Bound(Step(s, event).users, id).Some?
    ensures Bound(Step(s, event).users, id) == Bound(s.users, id)
  {
    hide Inv, S.WorldInv, OwnersOk, S.Step, S.Possible, Apply, Bound;
    if event.Write? {
      UserIdIsStable(s.users, event.op, id);
    } else if event.SsoCallback? && event.claimed.username !in s.users {
      assert Step(s, event).users == Apply(s.users, Upsert(event.claimed)).0;
      UserIdIsStable(s.users, Upsert(event.claimed), id);
    }
  }

  /** While an external id is in the directory its user id does not change. */
  lemma {:induction false} UserIdStays(systems: seq<System>, events: seq<Event>, i: nat, j: nat, id: ExternalId)
    requires IsRun(systems, events) && i <= j < |systems|
    requires forall m | i <= m <= j :: Bound(systems[m].users, id).Some?
    ensures Bound(systems[j].users, id) == Bound(systems[i].users, id)
    decreases j - i
  {
    if i < j {
      RunKeepsInv(systems, events, i);
      hide SystemInv, Step, Possible, Bound;
      assert Bound(systems[i].users, id).Some? && Bound(systems[i + 1].users, id).Some?;
      BoundIsStable(systems[i], events[i], id);
      UserIdStays(systems, events, i + 1, j, id);
    }
  }

  /** The login recorded for `id` at `i` belongs to the user id that the directory binds to it. */
  ghost predicate OwnedBy(s: System, login: M.PendingId, id: ExternalId) {
    login in s.owners && s.owners[login].id == Some(id) && Bound(s.users, id) == Some(s.owners[login].user)
  }

  /** A password login for an account with an external id is owned by the user the directory binds. */
  lemma PasswordLoginIsOwned(s: System, event: Event)
    requires SystemInv(s) && Possible(s, event) && event.PasswordLogin?
    requires s.world.registry.chain.Keys == s.world.registry.active.Keys
    requires s.users[event.username].externalId.Some?
    ensures OwnedBy(Step(s, event), event.login, s.users[event.username].externalId.value)
  {
    var id := s.users[event.username].externalId.value;
    assert Has(s.users, event.username, id);
    FoundIs(s.users, event.username, id);
    hide S.WorldInv, OwnersOk, S.Step, S.Possible;
  }

  /** What a callback or a password login leaves pending, and that it changes nothing else of the sessions:
      the login of the account's user and tenant, bound to where it came from. */
  lemma LoginOutcome(s: System, event: Event)
    requires SystemInv(s) && Possible(s, event) && (event.PasswordLogin? || event.SsoCallback?)
    requires s.world.registry.chain.Keys == s.world.registry.active.Keys
    ensures var account := if event.PasswordLogin? then s.users[event.username]
                           else SsoLogin(s.users, event.claimed).1;
            var w, w' := s.world, Step(s, event).world;
            if !account.active then w' == w
            else
              && w'.requests == w.requests
              && w'.registry == w.registry.(pending := w.registry.pending[
                   event.login := M.PendingLogin(account.userId, account.tenantId, event.binding, event.challenge)])
  {
    hide SystemInv, SsoLogin;
  }

  /** A login opened through single sign-on is owned so exactly when the account found under the
      username has the subject's external id, or, if there is none, when the subject was not known or
      was known with the same user id. */
  lemma SsoLoginIsOwnedExactly(s: System, event: Event)
    requires SystemInv(s) && Possible(s, event) && event.SsoCallback?
    requires SsoLogin(s.users, event.claimed).1.active
    requires s.world.registry.chain.Keys == s.world.registry.active.Keys
    ensures OwnedBy(Step(s, event), event.login, event.claimed.externalId.value) <==>
              if event.claimed.username in s.users
              then s.users[event.claimed.username].externalId == event.claimed.externalId
              else Bound(s.users, event.claimed.externalId.value) in {None, Some(event.claimed.userId)}
  {
    var id, username := event.claimed.externalId.value, event.claimed.username;
    hide S.WorldInv, OwnersOk, S.Step, S.Possible;
    if username in s.users {
      if s.users[username].externalId == Some(id) {
        assert Has(s.users, username, id);
        FoundIs(s.users, username, id);
      }
    } else {
      ApplyKeepsInv(s.users, Upsert(event.claimed));
      OwnEffect(s.users, Upsert(event.claimed), id);
    }
  }

  // ----- Who comes and goes -----

  /** An external id leaves the directory exactly by a write that removes it or files another account under
      its username. One that is not there comes in exactly by an upsert, or by a callback whose username is
      not in the directory either, with the user id that the account brings. */
  lemma ComesAndGoesExactlyBy(s: System, event: Event, id: ExternalId)
    requires SystemInv(s) && Possible(s, event) && s.world.registry.chain.Keys == s.world.registry.active.Keys
    ensures var was, now := Bound(s.users, id), Bound(Step(s, event).users, id);
            && (was.Some? ==>
                  (now == None <==>
                     event.Write? && if About(event.op) == Some(id) then event.op.Remove?
                                     else FiledUnder(s.users, event.op) == Find(s.users, id)))
            && (was == None ==>
                  now == if event.Write? && event.op.Upsert? && event.op.account.externalId == Some(id) then
                           Some(event.op.account.userId)
                         else if event.SsoCallback? && event.claimed.username !in s.users
                                 && event.claimed.externalId == Some(id) then
                           Some(event.claimed.userId)
                         else None)
  {
    if event.Write? || (event.SsoCallback? && event.claimed.username !in s.users) {
      var op := if event.Write? then event.op else Upsert(event.claimed);
      assert Step(s, event).users == Apply(s.users, op).0 by { hide S.Step, S.Possible, SystemInv, Apply; }
      hide S.WorldInv, S.Step, S.Possible, OwnersOk, Step;
      if Bound(s.users, id).Some? {
        LeavesExactly(s.users, op, id);
        FoundUnder(s.users, id);
      } else {
        ComesBy(s.users, op, id);
      }
    } else {
      hide S.Step, S.Possible, SystemInv;
    }
  }

  // ----- Whose sessions are ended -----

  lemma RevokedIfOwned(w: S.World, owners: Owners, login: M.PendingId, user: UserId)
    requires OwnersOk(w, owners) && login in w.fates && w.fates[login].Opened?
    ensures var r', sid := M.RevokeUser(w.registry, user), w.fates[login].session;
            && login in owners && sid in w.registry.active && sid in r'.active
            && (r'.active[sid].revoked <==> w.registry.active[sid].revoked || owners[login].user == user)
            && forall other | other in w.registry.active && w.registry.active[other].claims.userId != user ::
                 r'.active[other] == w.registry.active[other]
  {
  }

  lemma RevokeStep(systems: seq<System>, events: seq<Event>, k: nat, user: UserId)
    requires IsRun(systems, events) && k < |events| && events[k] == Session(S.RevokeSessions(user))
    ensures systems[k + 1].world.registry == M.RevokeUser(systems[k].world.registry, user)
    ensures OwnersOk(systems[k].world, systems[k].owners)
  {
    RunKeepsInv(systems, events, k);
    hide Inv, S.WorldInv, OwnersOk, M.RevokeUser;
  }

  /** After the sessions of a user have been revoked, the session opened from a login is revoked exactly if
      it was before or the login was that user's; no session of another user id changes. */
  lemma RevocationEndsExactly(systems: seq<System>, events: seq<Event>, k: nat, user: UserId, login: M.PendingId)
    requires IsRun(systems, events) && k < |events| && events[k] == Session(S.RevokeSessions(user))
    requires login in systems[k].world.fates && systems[k].world.fates[login].Opened?
    ensures var before, after, sid := systems[k].world.registry.active, systems[k + 1].world.registry.active,
                                      systems[k].world.fates[login].session;
            && login in systems[k].owners && sid in before && sid in after
            && (after[sid].revoked <==> before[sid].revoked || systems[k].owners[login].user == user)
            && forall other | other in before && before[other].claims.userId != user ::
                 other in after && after[other] == before[other]
  {
    assert |systems| == |events| + 1;
    hide IsRun, OwnersOk;
    RevokeStep(systems, events, k, user);
    RevokedIfOwned(systems[k].world, systems[k].owners, login, user);
  }

  /** A directory write that deactivates or deletes the account of an external id ends, by the revocation
      it asks for, the session of a login opened by then exactly if the login is owned by the user bound
      to the id at the write, or by the user the write brings if the id was not in the directory;
      whether the id had left the directory in between does not matter. */
  lemma DeactivationEndsExactly(systems: seq<System>, events: seq<Event>, j: nat, k: nat,
                                login: M.PendingId, id: ExternalId)
    requires IsRun(systems, events) && j < k < |events|
    requires events[j].Write? && About(events[j].op) == Some(id)
    requires Revokes(events[j].op, Apply(systems[j].users, events[j].op).1)
    requires events[k] == Session(S.RevokeSessions(Apply(systems[j].users, events[j].op).1.value.userId))
    requires login in systems[k].world.fates && systems[k].world.fates[login].Opened?
    ensures var before, after, sid := systems[k].world.registry.active, systems[k + 1].world.registry.active,
                                      systems[k].world.fates[login].session;
            && login in systems[k].owners && sid in before && sid in after
            && (after[sid].revoked <==>
                  || before[sid].revoked
                  || (if Bound(systems[j].users, id).Some?
                      then Bound(systems[j].users, id) == Some(systems[k].owners[login].user)
                      else events[j].op.Upsert? && events[j].op.account.userId == systems[k].owners[login].user))
  {
    var user := Apply(systems[j].users, events[j].op).1.value.userId;
    RunKeepsInv(systems, events, j);
    assert Inv(systems[j].users);
    hide IsRun, SystemInv, OwnersOk, Inv, Bound, Apply, Deactivates;
    RevocationEndsExactly(systems, events, k, user, login);
    WriteEndsExactly(systems[j].users, events[j].op, id, user);
    WriteEndsExactly(systems[j].users, events[j].op, id, systems[k].owners[login].user);
  }

  /** In particular it ends every session opened before the revocation from a login of that id, under
      whichever username, if the id stayed in the directory in between; no session of another user id
      changes. */
  lemma DeactivationEndsSessions(systems: seq<System>, events: seq<Event>, i: nat, j: nat, k: nat,
                                 login: M.PendingId, id: ExternalId)
    requires IsRun(systems, events) && i <= j < k < |events| && OwnedBy(systems[i], login, id)
    requires forall m | i <= m <= j :: Bound(systems[m].users, id).Some?
    requires events[j].Write? && About(events[j].op) == Some(id)
    requires Revokes(events[j].op, Apply(systems[j].users, events[j].op).1)
    requires events[k] == Session(S.RevokeSessions(Apply(systems[j].users, events[j].op).1.value.userId))
    requires login in systems[k].world.fates && systems[k].world.fates[login].Opened?
    ensures var before, after, sid := systems[k].world.registry.active, systems[k + 1].world.registry.active,
                                      systems[k].world.fates[login].session;
            && sid in after && after[sid].revoked
            && forall other | other in before && before[other].claims.userId != systems[i].owners[login].user ::
                 other in after && after[other] == before[other]
  {
    UserIdStays(systems, events, i, j, id);
    OwnerStays(systems, events, i, k, login);
    RunKeepsInv(systems, events, j);
    assert Inv(systems[j].users);
    hide IsRun, SystemInv, OwnersOk, Inv, Bound, Apply;
    RevocationNamesTheUser(systems[j].users, events[j].op, id);
    RevocationEndsExactly(systems, events, k, systems[i].owners[login].user, login);
  }

  // ----- Sessions opened later -----

  /** A session is live when it is opened, whatever was revoked before, and carries its login's user. */
  lemma OpenedIsLive(systems: seq<System>, events: seq<Event>, m: nat, login: M.PendingId)
    requires IsRun(systems, events) && m < |events| && events[m].Session?
    requires S.OpenedLogin(systems[m].world, events[m].event) == Some(login)
    ensures var w', sid := systems[m + 1].world, events[m].event.sid;
            && login in w'.fates && w'.fates[login] == S.Opened(sid)
            && sid in w'.registry.active && !w'.registry.active[sid].revoked
            && login in systems[m].owners
            && w'.registry.active[sid].claims.userId == systems[m].owners[login].user
  {
    RunKeepsInv(systems, events, m);
    assert OwnersOk(systems[m].world, systems[m].owners);
    assert systems[m + 1].world == S.Step(systems[m].world, events[m].event);
    hide IsRun, SystemInv, S.WorldInv, Inv;
  }

  lemma LoggedInKeepsFate(s: System, login: M.PendingId, account: Account, binding: M.Binding, challenge: M.Challenge,
                          id: M.PendingId)
    requires S.WorldInv(s.world) && login !in s.world.fates && S.IsOpened(s.world, id)
    requires s.world.registry.chain.Keys == s.world.registry.active.Keys
    ensures var w' := LoggedIn(s, login, account, binding, challenge).world;
            S.IsOpened(w', id) && w'.fates[id] == s.world.fates[id]
  {
    var pending := LoginFor(account, binding, challenge);
    assert S.Possible(s.world, S.Login(login, pending));
    hide S.WorldInv, S.Step, S.Possible;
    S.OpenedStays(s.world, S.Login(login, pending), id);
  }

  lemma StepKeepsFate(s: System, event: Event, id: M.PendingId)
    requires SystemInv(s) && Possible(s, event) && S.IsOpened(s.world, id)
    requires s.world.registry.chain.Keys == s.world.registry.active.Keys
    ensures var w' := Step(s, event).world;
            S.IsOpened(w', id) && w'.fates[id] == s.world.fates[id]
  {
    hide Inv, S.WorldInv, OwnersOk, SsoLogin, Apply, LoggedIn, S.Step, S.Possible, S.IsOpened;
    match event
    case Write(op) =>
    case PasswordLogin(login, username, binding, challenge) =>
      LoggedInKeepsFate(s, login, s.users[username], binding, challenge, id);
    case SsoCallback(login, claimed, binding, challenge) =>
      var (users', account) := SsoLogin(s.users, claimed);
      LoggedInKeepsFate(s.(users := users'), login, account, binding, challenge, id);
    case Session(e) =>
      S.OpenedStays(s.world, e, id);
  }

  lemma WorldStep(systems: seq<System>, events: seq<Event>, i: nat, login: M.PendingId)
    requires IsRun(systems, events) && i < |events| && S.IsOpened(systems[i].world, login)
    ensures S.IsOpened(systems[i + 1].world, login)
    ensures systems[i + 1].world.fates[login] == systems[i].world.fates[login]
  {
    RunKeepsInv(systems, events, i);
    hide SystemInv, Step, Possible;
    StepKeepsFate(systems[i], events[i], login);
  }

  lemma {:induction false} OpenedSessionStays(systems: seq<System>, events: seq<Event>, i: nat, j: nat, login: M.PendingId)
    requires IsRun(systems, events) && i <= j < |systems| && S.IsOpened(systems[i].world, login)
    ensures S.IsOpened(systems[j].world, login)
    ensures systems[j].world.fates[login] == systems[i].world.fates[login]
    decreases j - i
  {
    if i < j {
      assert |systems| == |events| + 1;
      hide IsRun;
      WorldStep(systems, events, i, login);
      OpenedSessionStays(systems, events, i + 1, j, login);
    }
  }

  /** Revoking the sessions of a user ends exactly those already opened: of a login of that user whose
      session is opened at `m`, the session is revoked once both have happened exactly if it was opened
      before the revocation, even when the login was begun before it. */
  lemma RevocationSparesLater(systems: seq<System>, events: seq<Event>, k: nat, m: nat, login: M.PendingId)
    requires IsRun(systems, events) && k < |events| && m < |events| && k != m
    requires events[m].Session? && S.OpenedLogin(systems[m].world, events[m].event) == Some(login)
    requires login in systems[m].owners && events[k] == Session(S.RevokeSessions(systems[m].owners[login].user))
    ensures var after, sid := systems[(if k < m then m else k) + 1].world.registry.active, events[m].event.sid;
            sid in after && (after[sid].revoked <==> m < k)
  {
    assert |systems| == |events| + 1;
    hide IsRun;
    OpenedIsLive(systems, events, m, login);
    if m < k {
      OpenedSessionStays(systems, events, m + 1, k, login);
      OwnerStays(systems, events, m, k, login);
      RevocationEndsExactly(systems, events, k, systems[m].owners[login].user, login);
    }
  }

  // ----- What eviction loses -----

  /** Filing another account under the username of an external id takes the id out of the directory and
      answers for the other account: the sessions of the evicted user stay as they were. Afterwards
      patching, disabling or removing the id finds nothing, and a write about the id ends those sessions
      exactly if it is an inactive upsert that brings the old user id. */
  lemma EvictionKeepsSessions(s: System, op: Op, id: ExternalId, r: M.Registry)
    requires SystemInv(s) && Bound(s.users, id).Some? && About(op) != Some(id)
    requires FiledUnder(s.users, op) == Find(s.users, id)
    requires Apply(s.users, op).1.value.userId != Bound(s.users, id).value
    ensures var (users', reply) := Apply(s.users, op);
            && Bound(users', id) == None
            && Apply(users', Disable(id)).1 == None && Apply(users', Remove(id)).1 == None
            && (forall sid | sid in r.active && r.active[sid].claims.userId == Bound(s.users, id).value ::
                  M.RevokeUser(r, reply.value.userId).active[sid] == r.active[sid])
            && forall later: Op | About(later) == Some(id) ::
                 && (Apply(users', later).1 == None <==> !later.Upsert?)
                 && (Revokes(later, Apply(users', later).1)
                       && Apply(users', later).1.value.userId == Bound(s.users, id).value
                     <==> later.Upsert? && !later.account.active && later.account.userId == Bound(s.users, id).value)
  {
    var users' := Apply(s.users, op).0;
    LeavesExactly(s.users, op, id);
    BoundIsFound(users', id);
    ApplyKeepsInv(s.users, op);
    assert Apply(users', Disable(id)).1 == None && Apply(users', Remove(id)).1 == None;
    hide SystemInv, Inv, Bound, Apply, Find, FiledUnder, Deactivates;
    forall later: Op | About(later) == Some(id)
      ensures Apply(users', later).1 == None <==> !later.Upsert?
      ensures Revokes(later, Apply(users', later).1)
                && Apply(users', later).1.value.userId == Bound(s.users, id).value
              <==> later.Upsert? && !later.account.active && later.account.userId == Bound(s.users, id).value
    {
      OwnEffect(users', later, id);
      WriteEndsExactly(users', later, id, Bound(s.users, id).value);
    }
  }

  // ----- An empty start -----

  /** A run may start with no account, no session and no login. */
  lemma EmptySystem()
    ensures SystemInv(System(map[], S.World(M.Registry(map[], map[], map[], map[]), map[], map[]), map[]))
  {
    S.EmptyWorld();
    hide S.WorldInv;
  }
}
