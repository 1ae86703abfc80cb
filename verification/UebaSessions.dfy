/** The stream consumer and the sessions together: an alert that terminates is stored only when every
    session its user had at the mitigation pass is gone. */
module UebaSessions {
  import opened UebaStream
  import Safety = UebaStreamSafety
  import Alerts = UebaAlerts
  import M = SessionModel
  import S = SessionSystem
  import Mit = Mitigation

  datatype System = System(stream: Stream, world: S.World)

  /** A step of the consumer other than its mitigation pass, that pass, or any step of a session request.
      A pass that fails halfway is a pass over some of the users followed by a crash. */
  datatype Event =
    | Consume(event: UebaStream.Event)
    | Pass(actions: Mit.Actions)
    | Session(request: S.Event)

  ghost predicate Possible(s: System, event: Event) {
    match event
    case Consume(e) => !e.Mitigate? && InRange(s.stream) && UebaStream.Possible(s.stream, e)
    case Pass(actions) =>
      InRange(s.stream) && UebaStream.Possible(s.stream, Mitigate)
      && Mit.IsHighest(s.stream.phase.work.pending, actions)
    case Session(e) => S.Possible(s.world, e)
  }

  ghost function Step(s: System, event: Event): System
    requires Possible(s, event) && s.world.registry.chain.Keys == s.world.registry.active.Keys
  {
    match event
    case Consume(e) => s.(stream := UebaStream.Step(s.stream, e))
    case Pass(actions) =>
      System(UebaStream.Step(s.stream, Mitigate), S.Step(s.world, S.Mitigate(actions, true)))
    case Session(e) => s.(world := S.Step(s.world, e))
  }

  ghost predicate IsRun(systems: seq<System>, events: seq<Event>) {
    && |systems| == |events| + 1
    && Safety.IsStart(systems[0].stream) && S.WorldInv(systems[0].world)
    && forall i | 0 <= i < |events| ::
         && Possible(systems[i], events[i])
         && systems[i].world.registry.chain.Keys == systems[i].world.registry.active.Keys
         && systems[i + 1] == Step(systems[i], events[i])
  }

  /** The pass at `m` covered the alert of the row. */
  ghost predicate CoveredAt(systems: seq<System>, events: seq<Event>, m: nat, row: AlertRow)
    requires |events| < |systems|
  {
    m < |events| && events[m].Pass? && systems[m].stream.phase.Working? && systems[m].stream.phase.work.Selected?
    && exists alert :: alert in systems[m].stream.phase.work.pending && RowFor(alert) == row
  }

  ghost predicate CoveredBefore(systems: seq<System>, events: seq<Event>, i: nat, row: AlertRow)
    requires |events| < |systems|
  {
    exists m: nat :: m < i && CoveredAt(systems, events, m, row)
  }

  ghost predicate IsPending(s: Stream, alert: Alert) {
    s.phase.Working? && s.phase.work.Saving? && alert in s.phase.work.pending
  }

  lemma RunStep(systems: seq<System>, events: seq<Event>, i: nat)
    requires IsRun(systems, events) && i < |events|
    ensures |systems| == |events| + 1 && Possible(systems[i], events[i])
    ensures systems[i].world.registry.chain.Keys == systems[i].world.registry.active.Keys
    ensures systems[i + 1] == Step(systems[i], events[i])
  {
    hide Possible, Step, S.WorldInv;
  }

  // ----- Rows are covered by a pass -----

  /** An alert waiting to be stored was so before the step, or the step is the pass that selected it. */
  lemma PendingSince(s: System, event: Event, alert: Alert)
    requires Possible(s, event) && s.world.registry.chain.Keys == s.world.registry.active.Keys
    requires IsPending(Step(s, event).stream, alert) && !IsPending(s.stream, alert)
    ensures event.Pass? && s.stream.phase.Working? && s.stream.phase.work.Selected?
            && alert in s.stream.phase.work.pending
  {
    hide AlertKey, RowFor, NewAlerts, S.Step, S.Possible, Mit.IsHighest, MergedWith, TrailOf;
  }

  lemma SavedFrom(s: System, event: Event, row: AlertRow) returns (alert: Alert)
    requires Possible(s, event) && s.world.registry.chain.Keys == s.world.registry.active.Keys
    requires row in Step(s, event).stream.rows && row !in s.stream.rows
    ensures IsPending(s.stream, alert) && RowFor(alert) == row
  {
    hide AlertKey, RowFor, NewAlerts, S.Step, S.Possible, Mit.IsHighest, MergedWith, TrailOf;
    assert event.Consume? && event.event.SaveAlert?;
    alert := Current(s.stream.phase);
  }

  lemma CoveredLater(systems: seq<System>, events: seq<Event>, i: nat, j: nat, row: AlertRow)
    requires |events| < |systems| && i <= j && CoveredBefore(systems, events, i, row)
    ensures CoveredBefore(systems, events, j, row)
  {
    hide CoveredAt;
    var m: nat :| m < i && CoveredAt(systems, events, m, row);
  }

  lemma {:induction false} PendingIsCovered(systems: seq<System>, events: seq<Event>, i: nat, alert: Alert)
    requires IsRun(systems, events) && |events| < |systems| && i < |systems| && IsPending(systems[i].stream, alert)
    ensures CoveredBefore(systems, events, i, RowFor(alert))
  {
    StartsIdle(systems, events);
    hide IsRun, Step, Possible, RowFor, CoveredBefore;
    RunStep(systems, events, i - 1);
    if IsPending(systems[i - 1].stream, alert) {
      PendingIsCovered(systems, events, i - 1, alert);
      CoveredLater(systems, events, i - 1, i, RowFor(alert));
    } else {
      PendingSince(systems[i - 1], events[i - 1], alert);
      PassCovers(systems, events, i - 1, alert);
    }
  }

  lemma PassCovers(systems: seq<System>, events: seq<Event>, m: nat, alert: Alert)
    requires |events| < |systems| && m < |events| && events[m].Pass?
    requires systems[m].stream.phase.Working? && systems[m].stream.phase.work.Selected?
    requires alert in systems[m].stream.phase.work.pending
    ensures CoveredBefore(systems, events, m + 1, RowFor(alert))
  {
    hide RowFor;
    assert CoveredAt(systems, events, m, RowFor(alert));
  }

  lemma StartsIdle(systems: seq<System>, events: seq<Event>)
    requires IsRun(systems, events)
    ensures |systems| == |events| + 1 && systems[0].stream.phase == Idle && systems[0].stream.rows == []
  {
    hide Possible, Step, S.WorldInv;
  }

  /** Every stored alert was covered by an earlier pass. */
  lemma {:induction false} RowIsCovered(systems: seq<System>, events: seq<Event>, i: nat, row: AlertRow)
    requires IsRun(systems, events) && |events| < |systems| && i < |systems| && row in systems[i].stream.rows
    ensures CoveredBefore(systems, events, i, row)
  {
    hide IsRun, Step, Possible, RowFor, CoveredBefore, IsPending;
    StartsIdle(systems, events);
    RunStep(systems, events, i - 1);
    if row in systems[i - 1].stream.rows {
      RowIsCovered(systems, events, i - 1, row);
    } else {
      var alert := SavedFrom(systems[i - 1], events[i - 1], row);
      PendingIsCovered(systems, events, i - 1, alert);
    }
    CoveredLater(systems, events, i - 1, i, row);
  }

  // ----- Covered users lose their sessions -----

  ghost predicate Revoked(w: S.World, sid: M.SessionId) {
    sid in w.registry.active && w.registry.active[sid].revoked
  }

  /** A batch with a terminating alert terminates the live sessions of its user, whatever else is in it. */
  lemma PassTerminates(alerts: seq<Alert>, actions: Mit.Actions, alert: Alert, active: map<M.SessionId, M.ActiveSession>,
                       sid: M.SessionId)
    requires Mit.IsHighest(alerts, actions) && alert in alerts && alert.action == Alerts.TerminateSession
    requires sid in active && active[sid].claims.userId == alert.userId
    ensures Mit.TreatedAll(active, actions, true)[sid].revoked
  {
    assert alert.userId in actions;
    assert Alerts.Severity(actions[alert.userId]) >= 3;
  }

  lemma PassRevokes(systems: seq<System>, events: seq<Event>, m: nat, row: AlertRow, sid: M.SessionId)
    requires IsRun(systems, events) && |events| < |systems| && CoveredAt(systems, events, m, row)
    requires row.action == Alerts.TerminateSession && sid in systems[m].world.registry.active
    requires systems[m].world.registry.active[sid].claims.userId == row.user
    ensures Revoked(systems[m + 1].world, sid)
  {
    RunStep(systems, events, m);
    var alert :| alert in systems[m].stream.phase.work.pending && RowFor(alert) == row;
    RowParts(alert);
    hide IsRun, Mit.IsHighest, Mit.TreatedAll, Step, Possible, CoveredAt, RowFor;
    PassStep(systems[m], events[m]);
    PassTerminates(systems[m].stream.phase.work.pending, events[m].actions, alert, systems[m].world.registry.active, sid);
  }

  lemma RowParts(alert: Alert)
    ensures RowFor(alert).user == alert.userId && RowFor(alert).action == alert.action
  {
  }

  lemma PassStep(s: System, event: Event)
    requires Possible(s, event) && event.Pass? && s.world.registry.chain.Keys == s.world.registry.active.Keys
    ensures s.stream.phase.Working? && s.stream.phase.work.Selected?
    ensures Mit.IsHighest(s.stream.phase.work.pending, event.actions)
    ensures Step(s, event).world.registry.active == Mit.TreatedAll(s.world.registry.active, event.actions, true)
    ensures Step(s, event).world.registry.active.Keys == s.world.registry.active.Keys
  {
    hide Mit.IsHighest, UebaStream.Step;
  }

  lemma {:induction false} WorldsInOrder(systems: seq<System>, events: seq<Event>, i: nat)
    requires IsRun(systems, events) && i < |systems|
    ensures S.WorldInv(systems[i].world)
  {
    if i > 0 {
      WorldsInOrder(systems, events, i - 1);
      RunStep(systems, events, i - 1);
      hide IsRun, S.WorldInv, S.Step, UebaStream.Step, UebaStream.Possible, Mit.IsHighest;
      var w := systems[i - 1].world;
      if events[i - 1].Session? {
        S.StepKeepsInv(w, events[i - 1].request);
      } else if events[i - 1].Pass? {
        S.StepKeepsInv(w, S.Mitigate(events[i - 1].actions, true));
      }
    }
  }

  lemma StepKeepsRevoked(s: System, event: Event, sid: M.SessionId)
    requires S.WorldInv(s.world) && Possible(s, event)
    requires s.world.registry.chain.Keys == s.world.registry.active.Keys && Revoked(s.world, sid)
    ensures Revoked(Step(s, event).world, sid)
  {
    hide S.Step, M.Inv, M.Extends, S.LoginsInv, UebaStream.Step, UebaStream.Possible, Mit.IsHighest;
    if event.Session? {
      S.StepKeepsRegistryInv(s.world, event.request);
      S.RevokedStays(s.world.registry, S.Step(s.world, event.request).registry, sid);
    } else if event.Pass? {
      S.StepKeepsRegistryInv(s.world, S.Mitigate(event.actions, true));
      S.RevokedStays(s.world.registry, S.Step(s.world, S.Mitigate(event.actions, true)).registry, sid);
    }
  }

  lemma {:induction false} RevokedForGood(systems: seq<System>, events: seq<Event>, i: nat, j: nat, sid: M.SessionId)
    requires IsRun(systems, events) && i <= j < |systems| && Revoked(systems[i].world, sid)
    ensures Revoked(systems[j].world, sid)
    decreases j - i
  {
    if i < j {
      WorldsInOrder(systems, events, i);
      RunStep(systems, events, i);
      hide IsRun, S.WorldInv, Step, Possible, Revoked;
      StepKeepsRevoked(systems[i], events[i], sid);
      RevokedForGood(systems, events, i + 1, j, sid);
    }
  }

  /** Wherever ticks fail and however requests interleave, for every stored alert whose action terminates
      there was an earlier mitigation pass that covered it, and every session its user had at that pass
      is revoked. */
  lemma StoredMeansTerminated(systems: seq<System>, events: seq<Event>, j: nat, row: AlertRow)
    requires IsRun(systems, events) && j < |systems| && row in systems[j].stream.rows
    requires row.action == Alerts.TerminateSession
    ensures |events| < |systems|
    ensures exists m: nat ::
              && m < j && CoveredAt(systems, events, m, row)
              && forall sid | sid in systems[m].world.registry.active
                              && systems[m].world.registry.active[sid].claims.userId == row.user ::
                   Revoked(systems[j].world, sid)
  {
    assert |systems| == |events| + 1;
    RowIsCovered(systems, events, j, row);
    hide IsRun, CoveredAt, Revoked;
    var m: nat :| m < j && CoveredAt(systems, events, m, row);
    forall sid | sid in systems[m].world.registry.active
                 && systems[m].world.registry.active[sid].claims.userId == row.user
      ensures Revoked(systems[j].world, sid)
    {
      PassRevokes(systems, events, m, row, sid);
      RevokedForGood(systems, events, m + 1, j, sid);
    }
  }
}
