/** The directory object and its writers. A writer that deactivates or deletes an account revokes the
    sessions of its user id. */
module IdentityServiceObject {
  import opened Wrappers
  import opened ScimDirectory
  import Model = SessionModel
  import opened SessionRegistryObject

  class IdentityService {
    var users: Users
    const sessions: SessionRegistry

    ghost predicate Valid()
      reads this, sessions
    {
      Inv(users) && sessions.Valid()
    }

    constructor (sessions: SessionRegistry)
      requires sessions.Valid()
      ensures Valid() && users == map[] && this.sessions == sessions
    {
      users := map[];
      this.sessions := sessions;
    }

    method FindByExternalId(id: ExternalId) returns (found: Option<Username>)
      requires Inv(users)
      ensures found == Find(users, id)
    {
      var rest := users.Keys;
      while rest != {}
        invariant rest <= users.Keys
        invariant forall username | username in users && username !in rest :: !Has(users, username, id)
        decreases |rest|
      {
        var username :| username in rest;
        rest := rest - {username};
        if users[username].externalId == Some(id) {
          FoundIs(users, username, id);
          return Some(username);
        }
      }
      found := None;
    }

    method RevokeSessionsForUser(user: UserId)
      requires Valid()
      modifies sessions`active
      ensures Valid() && sessions.State() == Model.RevokeUser(old(sessions.State()), user)
    {
      sessions.RevokeSessionsForUser(user);
    }

    /** The first critical section of an upsert. */
    method TakeOut(account: Account) returns (stored: Account)
      requires Valid()
      modifies this`users
      ensures (users, stored) == Detach(old(users), account) && Inv(users)
      ensures account.externalId.Some? ==> forall username :: !Has(users, username, account.externalId.value)
    {
      DetachedHasNoId(users, account);
      stored := account;
      if account.externalId.Some? {
        var previous := FindByExternalId(account.externalId.value);
        if previous.Some? {
          stored := stored.(userId := users[previous.value].userId);
          users := users - {previous.value};
        }
      }
    }

    /** An upsert with nothing between its critical sections. */
    method UpsertUserAccount(account: Account) returns (reply: Option<Account>)
      requires Valid()
      modifies this`users, sessions`active
      ensures Valid() && (users, reply) == Apply(old(users), Upsert(account))
      ensures sessions.State() == if Revokes(Upsert(account), reply)
                                  then Model.RevokeUser(old(sessions.State()), reply.value.userId)
                                  else old(sessions.State())
    {
      hide Inv, Model.RevokeUser, Detach;
      DetachedHasNoId(users, account);
      var stored := TakeOut(account);
      AttachKeepsInv(users, stored);
      users := users[stored.username := stored];
      if !stored.active {
        RevokeSessionsForUser(stored.userId);
      }
      reply := Some(stored);
    }

    method PatchUserByExternalId(id: ExternalId, changes: Changes) returns (reply: Option<Account>)
      requires Valid()
      modifies this`users, sessions`active
      ensures Valid() && (users, reply) == Apply(old(users), Patch(id, changes))
      ensures sessions.State() == if Revokes(Patch(id, changes), reply)
                                  then Model.RevokeUser(old(sessions.State()), reply.value.userId)
                                  else old(sessions.State())
    {
      ApplyKeepsInv(users, Patch(id, changes));
      hide Inv, Model.RevokeUser;
      var found := FindByExternalId(id);
      if found.None? {
        return None;
      }
      var account := users[found.value];
      users := users - {found.value};
      if changes.userName.Some? { account := account.(username := changes.userName.value); }
      if changes.displayName.Some? { account := account.(displayName := changes.displayName.value); }
      if changes.email.Some? { account := account.(email := changes.email.value); }
      if changes.active.Some? { account := account.(active := changes.active.value); }
      users := users[account.username := account];
      if !account.active {
        RevokeSessionsForUser(account.userId);
      }
      reply := Some(account);
    }

    method DisableUserByExternalId(id: ExternalId) returns (reply: Option<Account>)
      requires Valid()
      modifies this`users, sessions`active
      ensures Valid() && (users, reply) == Apply(old(users), Disable(id))
      ensures sessions.State() == if Revokes(Disable(id), reply)
                                  then Model.RevokeUser(old(sessions.State()), reply.value.userId)
                                  else old(sessions.State())
    {
      ApplyKeepsInv(users, Disable(id));
      hide Inv, Model.RevokeUser;
      var found := FindByExternalId(id);
      if found.None? {
        return None;
      }
      var account := users[found.value].(active := false);
      users := users[found.value := account];
      RevokeSessionsForUser(account.userId);
      reply := Some(account);
    }

    method RemoveUserByExternalId(id: ExternalId) returns (reply: Option<Account>)
      requires Valid()
      modifies this`users, sessions`active
      ensures Valid() && (users, reply) == Apply(old(users), Remove(id))
      ensures sessions.State() == if Revokes(Remove(id), reply)
                                  then Model.RevokeUser(old(sessions.State()), reply.value.userId)
                                  else old(sessions.State())
    {
      ApplyKeepsInv(users, Remove(id));
      hide Inv, Model.RevokeUser;
      var found := FindByExternalId(id);
      if found.None? {
        return None;
      }
      var account := users[found.value];
      users := users - {found.value};
      RevokeSessionsForUser(account.userId);
      reply := Some(account);
    }

    /** The account for which a single sign-on callback opens a login. */
    method SsoAccount(claimed: Account) returns (account: Account)
      requires Valid() && claimed.active
      modifies this`users, sessions`active
      ensures Valid() && (users, account) == SsoLogin(old(users), claimed)
      ensures sessions.State() == old(sessions.State())
    {
      hide Inv;
      if claimed.username in users {
        return users[claimed.username];
      }
      ActiveUpsertRevokesNothing(users, claimed);
      var upserted := UpsertUserAccount(claimed);
      account := claimed;
    }
  }

  lemma ActiveUpsertRevokesNothing(users: Users, account: Account)
    requires account.active
    ensures !Revokes(Upsert(account), Apply(users, Upsert(account)).1)
  {
  }
}
