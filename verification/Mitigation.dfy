/** What a batch of UEBA alerts does to the sessions of the users it names. */
module Mitigation {
  import opened SessionModel
  import Alerts = UebaAlerts

  type Actions = map<UserId, Alerts.MitigationAction>

  /** `actions` names exactly the alerted users, each with an action of one of its alerts that no
      other alert of that user exceeds. */
  ghost predicate IsHighest(alerts: seq<Alerts.UebaAlert>, actions: Actions) {
    && actions.Keys == (set a | a in alerts :: a.userId)
    && (forall user | user in actions ::
          exists a :: a in alerts && a.userId == user && a.action == actions[user])
    && (forall a | a in alerts :: Alerts.Severity(a.action) <= Alerts.Severity(actions[a.userId]))
  }

  /** Every (user, action) pair of `alerts` also occurs in `others`. */
  ghost predicate Covers(others: seq<Alerts.UebaAlert>, alerts: seq<Alerts.UebaAlert>) {
    forall a | a in alerts :: exists b :: b in others && b.userId == a.userId && b.action == a.action
  }

  /** Alert batches with the same users and actions, in whatever order and multiplicity, have the
      same highest actions. */
  lemma HighestIsOrderFree(alerts: seq<Alerts.UebaAlert>, others: seq<Alerts.UebaAlert>, x: Actions, y: Actions)
    requires IsHighest(alerts, x) && IsHighest(others, y)
    requires Covers(others, alerts) && Covers(alerts, others)
    ensures x == y
  {
    hide IsHighest, Covers;
    forall user | user in x ensures user in y && x[user] == y[user] {
      AtMost(alerts, others, x, y, user);
      AtMost(others, alerts, y, x, user);
      assert Alerts.Severity(x[user]) == Alerts.Severity(y[user]);
    }
    forall user | user in y ensures user in x {
      AtMost(others, alerts, y, x, user);
    }
  }

  lemma AtMost(alerts: seq<Alerts.UebaAlert>, others: seq<Alerts.UebaAlert>, x: Actions, y: Actions, user: UserId)
    requires IsHighest(alerts, x) && IsHighest(others, y) && user in x
    requires Covers(others, alerts)
    ensures user in y && Alerts.Severity(x[user]) <= Alerts.Severity(y[user])
  {
    var a :| a in alerts && a.userId == user && a.action == x[user];
    var b :| b in others && b.userId == a.userId && b.action == a.action;
  }

  ghost predicate Calls(alerts: seq<Alerts.UebaAlert>, user: UserId, action: Alerts.MitigationAction) {
    exists a :: a in alerts && a.userId == user && a.action == action
  }

  /** The action taken against an alerted user is termination if one of its alerts calls for it, else
      suspension if one calls for that, else step-up if one calls for that, else observation. */
  lemma HighestIsStrictest(alerts: seq<Alerts.UebaAlert>, actions: Actions, user: UserId)
    requires IsHighest(alerts, actions) && user in actions
    ensures actions[user] == if Calls(alerts, user, Alerts.TerminateSession) then Alerts.TerminateSession
                             else if Calls(alerts, user, Alerts.SuspendPermissions) then Alerts.SuspendPermissions
                             else if Calls(alerts, user, Alerts.StepUpAuth) then Alerts.StepUpAuth
                             else Alerts.Observe
  {
    assert Calls(alerts, user, actions[user]);
    forall action | Calls(alerts, user, action) ensures Alerts.Severity(action) <= Alerts.Severity(actions[user]) {
      var a :| a in alerts && a.userId == user && a.action == action;
    }
    assert forall action | Calls(alerts, user, action) :: Alerts.Severity(action) <= Alerts.Severity(actions[user]);
  }

  method HighestActionByUser(alerts: seq<Alerts.UebaAlert>) returns (actions: Actions)
    ensures IsHighest(alerts, actions)
  {
    actions := map[];
    assert IsHighest(alerts[..0], actions);
    hide IsHighest;
    for i := 0 to |alerts|
      invariant IsHighest(alerts[..i], actions)
    {
      var alert := alerts[i];
      OneMoreAlert(alerts[..i], actions, alert);
      assert alerts[..i + 1] == alerts[..i] + [alert];
      if alert.userId in actions {
        if Alerts.Severity(alert.action) > Alerts.Severity(actions[alert.userId]) {
          actions := actions[alert.userId := alert.action];
        }
      } else {
        actions := actions[alert.userId := alert.action];
      }
    }
    assert alerts[..|alerts|] == alerts;
  }

  lemma OneMoreAlert(alerts: seq<Alerts.UebaAlert>, actions: Actions, alert: Alerts.UebaAlert)
    requires IsHighest(alerts, actions)
    ensures var keep := alert.userId in actions
                        && Alerts.Severity(alert.action) <= Alerts.Severity(actions[alert.userId]);
            IsHighest(alerts + [alert], if keep then actions else actions[alert.userId := alert.action])
  {
    hide Alerts.Severity;
    var longer := alerts + [alert];
    var keep := alert.userId in actions
                && Alerts.Severity(alert.action) <= Alerts.Severity(actions[alert.userId]);
    var after := if keep then actions else actions[alert.userId := alert.action];
    assert (set a | a in longer :: a.userId) == (set a | a in alerts :: a.userId) + {alert.userId};
    forall user | user in after
      ensures exists a :: a in longer && a.userId == user && a.action == after[user]
    {
      if user == alert.userId && !keep {
        assert alert in longer;
      } else {
        var a :| a in alerts && a.userId == user && a.action == actions[user];
        assert a in longer;
      }
    }
    forall a | a in longer ensures Alerts.Severity(a.action) <= Alerts.Severity(after[a.userId]) {
      assert a in alerts || a == alert;
    }
  }

  // ----- The session pass -----

  predicate StepsUp(session: ActiveSession, actions: Actions) {
    && session.claims.userId in actions
    && actions[session.claims.userId] == Alerts.StepUpAuth
    && !session.revoked && !session.stepUpRequired
  }

  predicate Terminates(session: ActiveSession, actions: Actions) {
    && session.claims.userId in actions
    && actions[session.claims.userId] == Alerts.TerminateSession
    && !session.revoked
  }

  /** The persistent pass also lowers the step-up flag of a session it terminates; the one without
      persistence leaves it. */
  function Treated(session: ActiveSession, actions: Actions, persistent: bool): ActiveSession {
    if StepsUp(session, actions) then session.(stepUpRequired := true)
    else if Terminates(session, actions) then
      session.(revoked := true, stepUpRequired := if persistent then false else session.stepUpRequired)
    else session
  }

  function TreatedAll(active: map<SessionId, ActiveSession>, actions: Actions, persistent: bool)
    : map<SessionId, ActiveSession>
  {
    map sid | sid in active :: Treated(active[sid], actions, persistent)
  }

  function SteppedUp(active: map<SessionId, ActiveSession>, actions: Actions): set<SessionId> {
    set sid | sid in active && StepsUp(active[sid], actions)
  }

  function Terminated(active: map<SessionId, ActiveSession>, actions: Actions): set<SessionId> {
    set sid | sid in active && Terminates(active[sid], actions)
  }

  /** What the pass makes of each session and what it counts. A session whose user is to step up is held
      back, unless it is revoked; nothing else of it changes, and it is counted unless it was held back
      already. A session whose user is to be terminated is revoked and counted, unless it was revoked; with
      persistence it is then no longer held back. Every other session, such as one whose user is observed
      or loses permissions, stays as it was. */
  lemma PassOutcome(active: map<SessionId, ActiveSession>, actions: Actions, persistent: bool)
    ensures var after := TreatedAll(active, actions, persistent);
            && after.Keys == active.Keys
            && forall sid | sid in active ::
                 var was, session, user := active[sid], after[sid], active[sid].claims.userId;
                 if was.revoked || user !in actions then session == was
                 else match actions[user]
                      case StepUpAuth => session.stepUpRequired && session == was.(stepUpRequired := true)
                      case TerminateSession =>
                        && session.revoked && (persistent ==> !session.stepUpRequired)
                        && (!persistent ==> session.stepUpRequired == was.stepUpRequired)
                        && session == was.(revoked := true, stepUpRequired := session.stepUpRequired)
                      case Observe => session == was
                      case SuspendPermissions => session == was
    ensures |SteppedUp(active, actions)|
         == |set sid | sid in active && !active[sid].revoked && !active[sid].stepUpRequired
                       && active[sid].claims.userId in actions
                       && actions[active[sid].claims.userId] == Alerts.StepUpAuth|
    ensures |Terminated(active, actions)|
         == |set sid | sid in active && !active[sid].revoked
                       && active[sid].claims.userId in actions
                       && actions[active[sid].claims.userId] == Alerts.TerminateSession|
  {
    assert SteppedUp(active, actions)
        == set sid | sid in active && !active[sid].revoked && !active[sid].stepUpRequired
                     && active[sid].claims.userId in actions
                     && actions[active[sid].claims.userId] == Alerts.StepUpAuth;
    assert Terminated(active, actions)
        == set sid | sid in active && !active[sid].revoked
                     && active[sid].claims.userId in actions
                     && actions[active[sid].claims.userId] == Alerts.TerminateSession;
  }

  /** The pass changes exactly the sessions it counts, once each, and a second pass of the same
      actions finds nothing to do. */
  lemma PassIsExactAndIdempotent(active: map<SessionId, ActiveSession>, actions: Actions, persistent: bool)
    ensures var after := TreatedAll(active, actions, persistent);
            && SteppedUp(active, actions) !! Terminated(active, actions)
            && (forall sid | sid in active ::
                  after[sid] != active[sid] <==> sid in SteppedUp(active, actions) + Terminated(active, actions))
            && TreatedAll(after, actions, persistent) == after
            && SteppedUp(after, actions) == {} && Terminated(after, actions) == {}
  {
    var after := TreatedAll(active, actions, persistent);
    forall sid | sid in active
      ensures !StepsUp(after[sid], actions) && !Terminates(after[sid], actions)
    {
    }
    assert TreatedAll(after, actions, persistent) == after;
  }

  lemma PassKeepsInv(r: Registry, actions: Actions, persistent: bool)
    requires Inv(r)
    ensures Inv(r.(active := TreatedAll(r.active, actions, persistent)))
    ensures Extends(r, r.(active := TreatedAll(r.active, actions, persistent)))
  {
    hide Inv, Extends;
    var after := TreatedAll(r.active, actions, persistent);
    forall sid | sid in after
      ensures after[sid].challenge.Some? && !after[sid].revoked ==> after[sid].stepUpRequired
    {
      NamedByKey(r, sid);
    }
    RewriteKeepsInv(r, after);
  }

  lemma MitigationKeepsUsers(r: Registry, actions: Actions, persistent: bool)
    ensures SameUsers(r, r.(active := TreatedAll(r.active, actions, persistent)))
  {
  }
}
