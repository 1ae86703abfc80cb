/** The registry object behind the session lock. Each method is one critical section. */
module SessionRegistryObject {
  import opened Wrappers
  import opened SessionModel
  import opened Mitigation
  import Alerts = UebaAlerts

  class SessionRegistry {
    var pending: map<PendingId, PendingLogin>
    var active: map<SessionId, ActiveSession>
    ghost var chain: map<SessionId, seq<Token>>
    ghost var issued: map<Token, Issue>

    ghost function State(): Registry
      reads this
    {
      Registry(pending, active, chain, issued)
    }

    ghost predicate Valid()
      reads this
    {
      Inv(State())
    }

    constructor ()
      ensures Valid() && State() == Registry(map[], map[], map[], map[])
    {
      pending, active := map[], map[];
      chain, issued := map[], map[];
    }

    // ----- Login -----

    method InsertPending(id: PendingId, login: PendingLogin)
      requires Valid()
      modifies this`pending
      ensures Valid() && State() == old(State()).(pending := old(pending)[id := login])
    {
      pending := pending[id := login];
      assert State() == old(State()).(pending := pending);
    }

    method ClonePending(id: PendingId) returns (login: Option<PendingLogin>)
      ensures login == if id in pending then Some(pending[id]) else None
    {
      if id in pending { login := Some(pending[id]); } else { login := None; }
    }

    method TakePending(id: PendingId) returns (login: Option<PendingLogin>)
      requires Valid()
      modifies this`pending
      ensures Valid() && State() == old(State()).(pending := old(pending) - {id})
      ensures login == if id in old(pending) then Some(old(pending)[id]) else None
    {
      if id in pending { login := Some(pending[id]); } else { login := None; }
      pending := pending - {id};
      assert State() == old(State()).(pending := pending);
    }

    method InsertActive(sid: SessionId, token: Token, login: PendingLogin, now: int)
      requires Valid() && sid !in active && token !in issued
      modifies this`active, this`issued, this`chain
      ensures Valid() && State() == OpenSession(old(State()), sid, token, login, now)
    {
      OpenSessionKeepsInv(State(), sid, token, login, now);
      active := active[sid := NewSession(sid, token, login, now)];
      chain := chain[sid := [token]];
      issued := issued[token := Issue(sid, 0)];
    }

    // ----- Scans -----

    method FindByToken(token: Token) returns (found: Option<SessionId>)
      requires Valid()
      ensures found == Holder(State(), token)
    {
      var rest := active.Keys;
      while rest != {}
        invariant rest <= active.Keys
        invariant forall sid | sid in active && sid !in rest :: !Holds(State(), sid, token)
        decreases rest
      {
        var sid :| sid in rest;
        if active[sid].refreshToken == token && !active[sid].revoked {
          HolderIsUnique(State(), sid, token);
          return Some(sid);
        }
        rest := rest - {sid};
      }
      found := None;
    }

    method FindReplayed(token: Token) returns (found: Option<SessionId>)
      requires Valid()
      ensures found == ReplayVictim(State(), token)
    {
      var rest := active.Keys;
      while rest != {}
        invariant rest <= active.Keys
        invariant forall sid | sid in active && sid !in rest :: !Replays(State(), sid, token)
        decreases rest
      {
        var sid :| sid in rest;
        if active[sid].previous == Some(Fingerprint(token)) && !active[sid].revoked {
          ReplayVictimIsUnique(State(), sid, token);
          return Some(sid);
        }
        rest := rest - {sid};
      }
      found := None;
    }

    // ----- Refresh, step-up and logout -----

    method ScanForReplay(token: Token) returns (replayed: bool)
      requires Valid()
      modifies this`active
      ensures Valid() && (State(), replayed) == ReplayScan(old(State()), token)
    {
      hide Inv;
      ReplayScanKeepsInv(State(), token);
      var found := FindReplayed(token);
      if found.Some? {
        active := active[found.value := active[found.value].(revoked := true)];
      }
      replayed := found.Some?;
      assert State() == ReplayScan(old(State()), token).0;
    }

    /** Stores the session under its new token. */
    method Rotate(sid: SessionId, session: ActiveSession)
      requires sid in active && sid in chain
      modifies this`active, this`issued, this`chain
      ensures State() == Rotated(old(State()), sid, session)
    {
      active := active[sid := session];
      issued := issued[session.refreshToken := Issue(sid, |chain[sid]|)];
      chain := chain[sid := chain[sid] + [session.refreshToken]];
    }

    method RotateForRefresh(token: Token, newToken: Token, now: int, signed: bool)
      returns (reply: Result<TokenPair, Denial>)
      requires Valid() && newToken !in issued
      modifies this`active, this`issued, this`chain
      ensures Valid() && (State(), reply) == RefreshRotate(old(State()), token, newToken, now, signed)
    {
      hide Inv;
      SameDomains(State());
      RefreshRotateKeepsInv(State(), token, newToken, now, signed);
      var found := FindByToken(token);
      if found.None? { return Err(SessionNotFound); }
      var session := active[found.value];
      if session.stepUpRequired { return Err(StepUpRequired(session.challenge)); }
      var previous := Some(Fingerprint(session.refreshToken));
      session := session.(previous := previous,
                          claims := session.claims.(issuedAt := now, expiresAt := now + SESSION_TTL_MINUTES));
      session := session.(refreshToken := newToken);
      Rotate(found.value, session);
      if signed {
        reply := Ok(TokenPair(found.value, session.claims, newToken));
      } else {
        reply := Err(SigningFailed);
      }
    }

    method VerifyStepUp(token: Token, account: AccountCheck, proofOk: bool, newToken: Token, now: int, signed: bool)
      returns (reply: Result<TokenPair, Denial>)
      requires Valid() && newToken !in issued
      modifies this`active, this`issued, this`chain
      ensures Valid()
      ensures (State(), reply) == StepUpVerify(old(State()), token, account, proofOk, newToken, now, signed)
    {
      hide Inv;
      SameDomains(State());
      StepUpVerifyKeepsInv(State(), token, account, proofOk, newToken, now, signed);
      var found := FindByToken(token);
      if found.None? { return Err(SessionNotFound); }
      var session := active[found.value];
      if !session.stepUpRequired { return Err(StepUpNotRequired); }
      if session.challenge.None? { return Err(ChallengeNotFound); }
      if account.NoAccount? { return Err(AccountNotFound); }
      if account.NoRegistration? { return Err(MissingRegistration); }
      if !proofOk { return Err(InvalidProof); }
      var previous := Some(Fingerprint(session.refreshToken));
      session := session.(previous := previous, refreshToken := newToken,
                          claims := session.claims.(issuedAt := now, expiresAt := now + SESSION_TTL_MINUTES));
      session := session.(stepUpRequired := false, challenge := None);
      if session.riskScore > STEP_UP_RISK_CEILING {
        session := session.(riskScore := STEP_UP_RISK_CEILING);
      }
      Rotate(found.value, session);
      if signed {
        reply := Ok(TokenPair(found.value, session.claims, newToken));
      } else {
        reply := Err(SigningFailed);
      }
    }

    method RevokeByToken(token: Token) returns (reply: Result<(), Denial>)
      requires Valid()
      modifies this`active
      ensures Valid() && (State(), reply) == Logout(old(State()), token)
    {
      hide Inv;
      LogoutKeepsInv(State(), token);
      var found := FindByToken(token);
      if found.None? { return Err(SessionNotFound); }
      active := active[found.value := active[found.value].(revoked := true)];
      reply := Ok(());
      assert State() == Logout(old(State()), token).0;
    }

    // ----- Risk -----

    method ApplyPosture(token: Token, report: Posture, score: nat, response: AdaptiveResponse,
                        challenge: Option<Challenge>)
      returns (assessed: Option<ActiveSession>)
      requires Valid()
      modifies this`active
      ensures Valid()
      ensures (State(), assessed) == AssessPosture(old(State()), token, report, score, response, challenge)
    {
      hide Inv;
      AssessPostureKeepsInv(State(), token, report, score, response, challenge);
      var found := FindByToken(token);
      if found.None? { return None; }
      var sid := found.value;
      active := active[sid := active[sid].(posture := Some(report), riskScore := score)];
      match response {
        case Allow =>
          active := active[sid := active[sid].(stepUpRequired := false, challenge := None)];
        case StepUpAuth =>
          if challenge.None? {
            assert State() == AssessPosture(old(State()), token, report, score, response, challenge).0;
            return None;
          }
          active := active[sid := active[sid].(stepUpRequired := true, challenge := challenge)];
        case TerminateSession =>
          active := active[sid := active[sid].(revoked := true, stepUpRequired := false, challenge := None)];
      }
      assessed := Some(active[sid]);
      assert State() == AssessPosture(old(State()), token, report, score, response, challenge).0;
    }

    method RevokeSessionsForUser(user: UserId)
      requires Valid()
      modifies this`active
      ensures Valid() && State() == RevokeUser(old(State()), user)
    {
      hide Inv;
      RevokeUserKeepsInv(State(), user);
      var rest := active.Keys;
      while rest != {}
        invariant rest <= active.Keys == old(active).Keys
        invariant forall sid | sid in active ::
                    active[sid] == (if sid in rest then old(active)[sid] else RevokedFor(old(active), user)[sid])
        decreases rest
      {
        var sid :| sid in rest;
        if active[sid].claims.userId == user {
          active := active[sid := active[sid].(revoked := true)];
        }
        rest := rest - {sid};
      }
      assert active == RevokedFor(old(active), user);
    }

    /** One session of an alerted user; `changed` tells whether it is to be counted and saved. */
    method TreatOne(sid: SessionId, actions: Actions, persistent: bool) returns (changed: bool)
      requires sid in active && active[sid].claims.userId in actions
      modifies this`active
      ensures active == old(active)[sid := Treated(old(active)[sid], actions, persistent)]
      ensures changed <==> StepsUp(old(active)[sid], actions) || Terminates(old(active)[sid], actions)
      ensures StepsUp(old(active)[sid], actions) ==> actions[old(active)[sid].claims.userId] == Alerts.StepUpAuth
      ensures Terminates(old(active)[sid], actions) ==> actions[old(active)[sid].claims.userId] != Alerts.StepUpAuth
    {
      changed := false;
      match actions[active[sid].claims.userId] {
        case StepUpAuth =>
          if !active[sid].revoked && !active[sid].stepUpRequired {
            active := active[sid := active[sid].(stepUpRequired := true)];
            changed := true;
          }
        case TerminateSession =>
          if !active[sid].revoked {
            active := active[sid := active[sid].(revoked := true)];
            if persistent { active := active[sid := active[sid].(stepUpRequired := false)]; }
            changed := true;
          }
        case _ =>
      }
      assert active == old(active)[sid := Treated(old(active)[sid], actions, persistent)];
    }

    /** The session part of applying UEBA mitigations: how many sessions were stepped up and
        terminated, and the changed sessions in the order in which they are to be saved. */
    method ApplyMitigations(actions: Actions, persistent: bool)
      returns (stepUps: nat, terminations: nat, toSave: seq<ActiveSession>)
      requires Valid()
      modifies this`active
      ensures Valid()
      ensures State() == old(State()).(active := TreatedAll(old(active), actions, persistent))
      ensures stepUps == |SteppedUp(old(active), actions)|
      ensures terminations == |Terminated(old(active), actions)|
      ensures |toSave| == stepUps + terminations
      ensures forall sid | sid in old(active) ::
                StepsUp(old(active)[sid], actions) || Terminates(old(active)[sid], actions) ==> active[sid] in toSave
    {
      hide Inv, PassProgress, Treated, StepsUp, Terminates;
      PassKeepsInv(State(), actions, persistent);
      NothingDone(active, actions, persistent);
      stepUps, terminations, toSave := 0, 0, [];
      var users := actions.Keys;
      ghost var done: set<SessionId> := {};
      while users != {}
        invariant users <= actions.Keys
        invariant active.Keys == old(active).Keys
        invariant done == set sid | sid in old(active) && Settled(old(active)[sid], actions, users)
        invariant PassProgress(old(active), actions, persistent, done, active, stepUps, terminations, toSave)
        decreases users
      {
        var user :| user in users;
        var rest := active.Keys;
        while rest != {}
          invariant rest <= active.Keys == old(active).Keys
          invariant done == set sid | sid in old(active) &&
                              (Settled(old(active)[sid], actions, users)
                               || (old(active)[sid].claims.userId == user && sid !in rest))
          invariant PassProgress(old(active), actions, persistent, done, active, stepUps, terminations, toSave)
          decreases rest
        {
          var sid :| sid in rest;
          SameOwner(old(active), actions, persistent, done, active, stepUps, terminations, toSave, sid);
          if active[sid].claims.userId == user {
            StillUntreated(old(active), actions, persistent, done, active, stepUps, terminations, toSave, sid);
            OneMoreSession(old(active), actions, persistent, done, active, stepUps, terminations, toSave, sid);
            var action := actions[user];
            var changed := TreatOne(sid, actions, persistent);
            if changed {
              if action == Alerts.StepUpAuth { stepUps := stepUps + 1; } else { terminations := terminations + 1; }
              toSave := toSave + [active[sid]];
            }
            done := done + {sid};
          }
          rest := rest - {sid};
        }
        users := users - {user};
      }
      AllDone(old(active), actions, persistent, done, active, stepUps, terminations, toSave);
    }

    method CheckAccess(claims: Claims, now: int, ipAddress: Option<string>, device: Option<string>)
      returns (reply: Result<Claims, Denial>)
      ensures reply == Authenticate(active, claims, now, ipAddress, device)
      ensures reply.Ok? ==> IsOpen(active, claims.sessionId) && now < claims.expiresAt
    {
      if now >= claims.expiresAt { return Err(TokenExpired); }
      if claims.sessionId !in active { return Err(SessionNotFound); }
      var session := active[claims.sessionId];
      if session.revoked { return Err(Revoked); }
      if session.stepUpRequired { return Err(StepUpRequired(session.challenge)); }
      var requestIp := if ipAddress.Some? then ipAddress.value else LOCALHOST;
      var requestDevice := if device.Some? then device.value else claims.binding.deviceFingerprint;
      if claims.binding.ipAddress != requestIp || claims.binding.deviceFingerprint != requestDevice {
        return Err(BindingMismatch);
      }
      reply := Ok(claims);
    }

    // ----- Whole requests, with nothing in between -----

    /** A verification of a pending login that nothing disturbs. */
    method VerifyLogin(id: PendingId, proofOk: bool, sid: SessionId, token: Token, now: int, signed: bool)
      returns (accepted: bool)
      requires Valid() && sid !in active && token !in issued
      modifies this
      ensures Valid() && accepted == (id in old(pending) && proofOk && signed)
      ensures var taken := old(State()).(pending := old(pending) - {id});
              State() == if accepted then OpenSession(taken, sid, token, old(pending)[id], now)
                         else if proofOk then taken else old(State())
    {
      hide Inv;
      var login := ClonePending(id);
      if login.None? || !proofOk {
        assert id !in pending ==> pending - {id} == pending;
        return false;
      }
      login := TakePending(id);
      if !signed {
        return false;
      }
      InsertActive(sid, token, login.value, now);
      accepted := true;
    }

    /** A refresh that nothing disturbs between its critical sections. */
    method RefreshToken(token: Token, newToken: Token, now: int, signed: bool)
      returns (reply: Result<TokenPair, Denial>)
      requires Valid() && newToken !in issued
      modifies this`active, this`issued, this`chain
      ensures Valid() && old(State()).chain.Keys == old(State()).active.Keys
      ensures (State(), reply) == Refresh(old(State()), token, newToken, now, signed)
    {
      hide Inv;
      SameDomains(State());
      var replayed := ScanForReplay(token);
      if replayed {
        return Err(ReplayDetected);
      }
      reply := RotateForRefresh(token, newToken, now, signed);
    }
  }

  lemma SameDomains(r: Registry)
    requires Inv(r)
    ensures r.chain.Keys == r.active.Keys
  {
  }

  // ----- Progress of the mitigation loops -----

  /** The session's owner was alerted and has been dealt with. */
  predicate Settled(session: ActiveSession, actions: Actions, users: set<UserId>) {
    session.claims.userId in actions && session.claims.userId !in users
  }

  function StepUpsIn(was: map<SessionId, ActiveSession>, actions: Actions, done: set<SessionId>): set<SessionId> {
    set sid | sid in done && sid in was && StepsUp(was[sid], actions)
  }

  function TerminationsIn(was: map<SessionId, ActiveSession>, actions: Actions, done: set<SessionId>)
    : set<SessionId>
  {
    set sid | sid in done && sid in was && Terminates(was[sid], actions)
  }

  ghost predicate PassProgress(was: map<SessionId, ActiveSession>, actions: Actions, persistent: bool,
                               done: set<SessionId>, active: map<SessionId, ActiveSession>,
                               stepUps: nat, terminations: nat, toSave: seq<ActiveSession>)
  {
    && active.Keys == was.Keys
    && (forall sid | sid in was ::
          active[sid] == if sid in done then Treated(was[sid], actions, persistent) else was[sid])
    && stepUps == |StepUpsIn(was, actions, done)|
    && terminations == |TerminationsIn(was, actions, done)|
    && |toSave| == stepUps + terminations
    && (forall sid | sid in was && sid in done ::
          StepsUp(was[sid], actions) || Terminates(was[sid], actions) ==> active[sid] in toSave)
  }

  lemma NothingDone(was: map<SessionId, ActiveSession>, actions: Actions, persistent: bool)
    ensures PassProgress(was, actions, persistent, {}, was, 0, 0, [])
  {
  }

  lemma SameOwner(was: map<SessionId, ActiveSession>, actions: Actions, persistent: bool,
                  done: set<SessionId>, active: map<SessionId, ActiveSession>,
                  stepUps: nat, terminations: nat, toSave: seq<ActiveSession>, sid: SessionId)
    requires sid in was
    requires PassProgress(was, actions, persistent, done, active, stepUps, terminations, toSave)
    ensures active.Keys == was.Keys && active[sid].claims == was[sid].claims
  {
  }

  lemma StillUntreated(was: map<SessionId, ActiveSession>, actions: Actions, persistent: bool,
                       done: set<SessionId>, active: map<SessionId, ActiveSession>,
                       stepUps: nat, terminations: nat, toSave: seq<ActiveSession>, sid: SessionId)
    requires sid in was && sid !in done
    requires PassProgress(was, actions, persistent, done, active, stepUps, terminations, toSave)
    ensures active[sid] == was[sid]
  {
  }

  lemma AllDone(was: map<SessionId, ActiveSession>, actions: Actions, persistent: bool,
                done: set<SessionId>, active: map<SessionId, ActiveSession>,
                stepUps: nat, terminations: nat, toSave: seq<ActiveSession>)
    requires done == set sid | sid in was && Settled(was[sid], actions, {})
    requires PassProgress(was, actions, persistent, done, active, stepUps, terminations, toSave)
    ensures active == TreatedAll(was, actions, persistent)
    ensures stepUps == |SteppedUp(was, actions)| && terminations == |Terminated(was, actions)|
    ensures |toSave| == stepUps + terminations
    ensures forall sid | sid in was ::
              StepsUp(was[sid], actions) || Terminates(was[sid], actions) ==> active[sid] in toSave
  {
    assert SteppedUp(was, actions) == StepUpsIn(was, actions, done);
    assert Terminated(was, actions) == TerminationsIn(was, actions, done);
  }

  /** Treating one more session of an alerted user and counting it keeps the tally exact. */
  lemma OneMoreSession(was: map<SessionId, ActiveSession>, actions: Actions, persistent: bool,
                       done: set<SessionId>, active: map<SessionId, ActiveSession>,
                       stepUps: nat, terminations: nat, toSave: seq<ActiveSession>, sid: SessionId)
    requires sid in was && sid !in done
    requires PassProgress(was, actions, persistent, done, active, stepUps, terminations, toSave)
    ensures var after := active[sid := Treated(was[sid], actions, persistent)];
            var steps, ends := StepsUp(was[sid], actions), Terminates(was[sid], actions);
            PassProgress(was, actions, persistent, done + {sid}, after,
                         if steps then stepUps + 1 else stepUps,
                         if ends then terminations + 1 else terminations,
                         if steps || ends then toSave + [after[sid]] else toSave)
  {
    assert !(StepsUp(was[sid], actions) && Terminates(was[sid], actions));
    CountOneMore(was, actions, done, sid);
    hide StepsUp, Terminates, Treated, StepUpsIn, TerminationsIn;
    var after := active[sid := Treated(was[sid], actions, persistent)];
    var queue := if StepsUp(was[sid], actions) || Terminates(was[sid], actions) then toSave + [after[sid]] else toSave;
    forall other | other in was && other in done + {sid}
      ensures StepsUp(was[other], actions) || Terminates(was[other], actions) ==> after[other] in queue
    {
      if other != sid { assert after[other] == active[other]; }
    }
  }

  lemma CountOneMore(was: map<SessionId, ActiveSession>, actions: Actions, done: set<SessionId>, sid: SessionId)
    requires sid in was && sid !in done
    ensures |StepUpsIn(was, actions, done + {sid})|
         == |StepUpsIn(was, actions, done)| + if StepsUp(was[sid], actions) then 1 else 0
    ensures |TerminationsIn(was, actions, done + {sid})|
         == |TerminationsIn(was, actions, done)| + if Terminates(was[sid], actions) then 1 else 0
  {
    GrowsBy(StepUpsIn(was, actions, done), StepUpsIn(was, actions, done + {sid}), sid, StepsUp(was[sid], actions));
    GrowsBy(TerminationsIn(was, actions, done), TerminationsIn(was, actions, done + {sid}), sid,
            Terminates(was[sid], actions));
  }

  lemma GrowsBy(before: set<SessionId>, after: set<SessionId>, sid: SessionId, grows: bool)
    requires sid !in before
    requires forall other :: other in after <==> other in before || (grows && other == sid)
    ensures |after| == |before| + if grows then 1 else 0
  {
    assert after == before + if grows then {sid} else {};
  }
}
