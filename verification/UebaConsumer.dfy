/** The code of the stream consumer. A call fails when the budget of successful calls is used up, so an
    error may end a tick at any point; a failing save or commit may nevertheless have taken effect, if
    `late`. Every tick is a run of the machine. */
module UebaConsumerObject {
  import opened UebaStream
  import opened UebaStreamSafety
  import opened Subsequences
  import Alerts = UebaAlerts

  method LoadTenantTrail(trail: seq<AuditEvent>, tenant: Tenant) returns (events: seq<AuditEvent>)
    ensures events == TrailOf(trail, tenant)
    ensures Picks(trail, (set k: nat | k < |trail| && trail[k].tenant == tenant), events)
  {
    events := [];
    for i := 0 to |trail|
      invariant events == TrailOf(trail[..i], tenant)
    {
      assert trail[..i + 1][..i] == trail[..i];
      if trail[i].tenant == tenant {
        events := events + [trail[i]];
      }
    }
    assert trail[..|trail|] == trail;
    TrailInOrder(trail, tenant);
  }

  method MergeTrail(stored: seq<AuditEvent>, staged: seq<AuditEvent>) returns (merged: seq<AuditEvent>)
    ensures merged == MergedWith(stored, staged)
    ensures HashesOf(merged) == HashesOf(stored) + HashesOf(staged)
    ensures stored <= merged && DistinctHashes(merged[|stored|..])
    ensures Picks(staged, (set k: nat | k < |staged| && IsNews(HashesOf(stored), staged, k)), merged[|stored|..])
  {
    merged := stored;
    var known := set event | event in stored :: event.hash;
    for i := 0 to |staged|
      invariant merged == MergedWith(stored, staged[..i])
      invariant known == HashesOf(stored) + HashesOf(staged[..i])
    {
      assert staged[..i + 1][..i] == staged[..i];
      HashesOfNext(staged, i);
      if staged[i].hash !in known {
        known := known + {staged[i].hash};
        merged := merged + [staged[i]];
      }
    }
    assert staged[..|staged|] == staged;
    MergedIsExact(stored, staged);
    UnseenInOrder(HashesOf(stored), staged);
    assert merged[|stored|..] == Unseen(HashesOf(stored), staged);
  }

  lemma HashesOfNext(staged: seq<AuditEvent>, i: nat)
    requires i < |staged|
    ensures HashesOf(staged[..i + 1]) == HashesOf(staged[..i]) + {staged[i].hash}
  {
    assert staged[..i + 1] == staged[..i] + [staged[i]];
    HashesOfOneMore(staged[..i], staged[i]);
  }

  method LoadSignatures(rows: seq<AlertRow>, tenant: Tenant) returns (signatures: set<string>)
    ensures forall text :: text in signatures <==> (tenant, text) in StoredKeys(rows)
  {
    signatures := {};
    for i := 0 to |rows|
      invariant forall text :: text in signatures <==> (tenant, text) in StoredKeys(rows[..i])
    {
      assert rows[..i + 1] == rows[..i] + [rows[i]];
      StoredKeysMore(rows[..i], rows[i]);
      if rows[i].tenant == tenant {
        signatures := signatures + {Alerts.StoredSignature(rows[i].user, rows[i].reason)};
      }
    }
    assert rows[..|rows|] == rows;
  }

  method SelectNew(alerts: seq<Alert>, signatures: set<string>, tenant: Tenant, ghost stored: set<Key>)
    returns (pending: seq<Alert>)
    requires forall text :: text in signatures <==> (tenant, text) in stored
    requires forall alert | alert in alerts :: alert.tenantId == tenant
    ensures pending == NewAlerts(alerts, stored)
    ensures Picks(alerts, (set k: nat | k < |alerts| && AlertKey(alerts[k]) !in stored), pending)
  {
    hide AlertKey;
    pending := [];
    for i := 0 to |alerts|
      invariant pending == NewAlerts(alerts[..i], stored)
    {
      assert alerts[..i + 1][..i] == alerts[..i];
      KeyIsSignature(alerts[i]);
      if Alerts.AlertSignature(alerts[i]) !in signatures {
        pending := pending + [alerts[i]];
      } else {
        assert NewAlerts(alerts[..i + 1], stored) == pending;
      }
    }
    assert alerts[..|alerts|] == alerts;
    NewAlertsInOrder(alerts, stored);
  }

  lemma KeyIsSignature(alert: Alert)
    ensures AlertKey(alert) == (alert.tenantId, Alerts.AlertSignature(alert))
  {
  }

  class UebaConsumer {
    var log: seq<Record>
    var trail: seq<AuditEvent>
    var offset: nat
    var rows: seq<AlertRow>
    var hits: seq<Alert>
    var notes: seq<Alert>
    ghost var mitigated: set<Key>
    ghost var completed: seq<Completion>
    ghost var phase: Phase
    ghost var states: seq<Stream>
    ghost var events: seq<Event>

    ghost function State(): Stream
      reads this
    {
      Stream(log, trail, offset, rows, hits, notes, mitigated, completed, phase)
    }

    /** The consumer stands at the end of a run of the machine. */
    ghost predicate Valid()
      reads this
    {
      IsRun(states, events) && states[|states| - 1] == State() && Inv(State())
    }

    constructor (log: seq<Record>, trail: seq<AuditEvent>)
      ensures Valid() && phase == Idle && offset == 0 && this.log == log && this.trail == trail
      ensures rows == [] && hits == [] && notes == []
    {
      this.log, this.trail, offset, rows, hits, notes := log, trail, 0, [], [], [];
      mitigated, completed, phase := {}, [], Idle;
      states, events := [Stream(log, trail, 0, [], [], [], {}, [], Idle)], [];
      new;
      StartIsOk(State());
    }

    /** Takes the event just carried out into the run. */
    ghost method Took(event: Event)
      requires IsRun(states, events) && Inv(states[|states| - 1]) && Possible(states[|states| - 1], event)
      requires State() == Step(states[|states| - 1], event)
      modifies this`states, this`events
      ensures Valid() && State() == old(State()) && states == old(states) + [State()]
    {
      hide Step, Possible, LogInv, AlertInv, IsStart;
      StepKeepsInv(states[|states| - 1], event);
      states, events := states + [State()], events + [event];
    }

    method Fail()
      requires Valid()
      modifies this
      ensures phase == Idle && log == old(log) && trail == old(trail) && offset == old(offset)
      ensures Valid() && State() == Step(old(State()), Crash) && states == old(states) + [State()]
    {
      phase := Idle;
      Took(Crash);
    }

    /** Stages the fetched records by tenant; a record that does not decode ends the tick. */
    method Stage(upTo: nat) returns (ok: bool, staged: Staged)
      requires Valid() && phase.Idle? && offset < upTo <= |log|
      modifies this`phase, this`states, this`events
      ensures Valid() && old(states) <= states
      ensures ok <==> forall k | offset <= k < upTo :: !log[k].Garbage?
      ensures phase == if ok then Staging(upTo, upTo, staged) else Idle
      ensures ok ==> forall tenant | tenant in staged :: staged[tenant] == EventsOf(log[offset..upTo], tenant)
    {
      hide LogInv, AlertInv, IsRun, EventsOf, Appended;
      var highest := offset;
      staged := map[];
      phase := Staging(upTo, highest, staged);
      Took(Fetch(upTo));
      while highest < upTo
        invariant offset <= highest <= upTo && Valid() && old(states) <= states
        invariant phase == Staging(upTo, highest, staged)
        invariant forall k | offset <= k < highest :: !log[k].Garbage?
      {
        var record := log[highest];
        highest := highest + 1;
        if record.Garbage? {
          phase := Idle;
          Took(StageOne);
          return false, staged;
        }
        if record.Decoded? {
          staged := Appended(staged, record.event);
        }
        phase := Staging(upTo, highest, staged);
        Took(StageOne);
      }
      ok := true;
      StagedInOrder(State());
    }

    /** Loads, merges, evaluates and selects; fails where the budget runs out. */
    method Select(upTo: nat, staged: Staged, tenant: Tenant, evaluate: seq<AuditEvent> -> seq<Alert>)
      returns (pending: seq<Alert>)
      requires Valid() && phase == Staging(upTo, upTo, staged) && tenant in staged
      requires forall merged :: IsEvaluation(evaluate(merged), tenant)
      modifies this`phase, this`states, this`events
      ensures Valid() && old(states) <= states
      ensures phase.Working? && phase.upTo == upTo && phase.staged == staged && phase.tenant == tenant
      ensures phase.work.Selected? && phase.work.pending == pending
      ensures IsMergeOf(trail, tenant, staged[tenant], phase.merged)
      ensures phase.work.evaluated == evaluate(phase.merged)
      ensures var alerts := phase.work.evaluated;
              Picks(alerts, (set k: nat | k < |alerts| && AlertKey(alerts[k]) !in StoredKeys(rows)), pending)
    {
      hide LogInv, AlertInv, IsRun, IsEvaluation, AlertKey, RowKey, NewAlerts, StoredKeys, TrailOf, MergedWith,
        Picks, IsMergeOf;
      var stored := LoadTenantTrail(trail, tenant);
      var merged := MergeTrail(stored, staged[tenant]);
      MergedInOrder(trail, tenant, staged[tenant]);
      phase := Working(upTo, staged, tenant, merged, Merged);
      Took(StartTenant(tenant));
      var alerts := evaluate(merged);
      EvaluationParts(alerts, tenant);
      var signatures := LoadSignatures(rows, tenant);
      pending := SelectNew(alerts, signatures, tenant, StoredKeys(rows));
      phase := phase.(work := Selected(alerts, pending));
      Took(Evaluate(alerts));
    }

    /** Runs the mitigation pass over the selected alerts; see `Mitigation` for what it does to sessions. */
    method MitigateAll(pending: seq<Alert>)
      requires Valid() && Possible(State(), Mitigate) && pending == phase.work.pending
      modifies this`mitigated, this`phase, this`states, this`events
      ensures Valid() && State() == Step(old(State()), Mitigate) && states == old(states) + [State()]
      ensures phase == old(phase).(work := Saving(old(phase).work.evaluated, pending, 0, SavingAlert))
    {
      hide LogInv, AlertInv, IsRun, KeysOf;
      mitigated := mitigated + KeysOf(pending);
      phase := phase.(work := Saving(phase.work.evaluated, pending, 0, SavingAlert));
      Took(Mitigate);
    }

    method SaveUebaAlert(alert: Alert)
      requires Valid() && Possible(State(), SaveAlert) && alert == Current(phase)
      modifies this`rows, this`phase, this`states, this`events
      ensures Valid() && State() == Step(old(State()), SaveAlert) && states == old(states) + [State()]
      ensures rows == old(rows) + [RowFor(alert)]
      ensures phase == old(phase).(work := old(phase).work.(part := SavingHit))
    {
      hide LogInv, AlertInv, IsRun;
      rows := rows + [AlertRow(alert.alertId, alert.tenantId, alert.userId, alert.action, Alerts.EncodeReason(alert))];
      phase := phase.(work := phase.work.(part := SavingHit));
      Took(SaveAlert);
    }

    method SaveUebaRuleHit(alert: Alert)
      requires Valid() && Possible(State(), SaveHit) && alert == Current(phase)
      modifies this`hits, this`phase, this`states, this`events
      ensures Valid() && State() == Step(old(State()), SaveHit) && states == old(states) + [State()]
      ensures hits == old(hits) + [alert]
      ensures phase == old(phase).(work := old(phase).work.(part := Notifying))
    {
      hide LogInv, AlertInv, IsRun;
      hits := hits + [alert];
      phase := phase.(work := phase.work.(part := Notifying));
      Took(SaveHit);
    }

    method QueueNotification(alert: Alert)
      requires Valid() && Possible(State(), Notify) && alert == Current(phase)
      modifies this`notes, this`phase, this`states, this`events
      ensures Valid() && State() == Step(old(State()), Notify) && states == old(states) + [State()]
      ensures notes == old(notes) + [alert]
      ensures phase == old(phase).(work := old(phase).work.(next := old(phase).work.next + 1, part := SavingAlert))
    {
      hide LogInv, AlertInv, IsRun;
      notes := notes + [alert];
      phase := phase.(work := phase.work.(next := phase.work.next + 1, part := SavingAlert));
      Took(Notify);
    }

    ghost method Finish()
      requires Valid() && Possible(State(), FinishTenant)
      modifies this`completed, this`phase, this`states, this`events
      ensures Valid() && State() == Step(old(State()), FinishTenant) && states == old(states) + [State()]
      ensures phase == Staging(old(phase).upTo, old(phase).upTo, old(phase).staged - {old(phase).tenant})
    {
      hide LogInv, AlertInv, IsRun;
      var next := Step(State(), FinishTenant);
      completed, phase := next.completed, next.phase;
      Took(FinishTenant);
    }

    method CommitOffset(upTo: nat)
      requires Valid() && Possible(State(), Commit) && upTo == phase.upTo
      modifies this`offset, this`phase, this`states, this`events
      ensures Valid() && State() == Step(old(State()), Commit) && states == old(states) + [State()]
      ensures offset == upTo && phase == Idle
    {
      hide LogInv, AlertInv, IsRun;
      offset := upTo;
      phase := Idle;
      Took(Commit);
    }

    method TryAlert(alert: Alert, budget: nat, late: bool) returns (ok: bool, left: nat)
      requires Valid() && AtPart(phase, SavingAlert) && alert == Current(phase)
      modifies this
      ensures Valid() && old(states) <= states && left <= budget
      ensures log == old(log) && trail == old(trail) && offset == old(offset)
      ensures ok ==> rows == old(rows) + [RowFor(alert)] && hits == old(hits) && notes == old(notes)
      ensures ok ==> phase == old(phase).(work := old(phase).work.(part := SavingHit))
      ensures !ok ==> phase == Idle && left == 0
    {
      hide Valid, RowFor, Step;
      left := budget;
      if left == 0 {
        if late { SaveUebaAlert(alert); }
        Fail();
        return false, left;
      }
      SaveUebaAlert(alert);
      ok, left := true, left - 1;
    }

    method TryHit(alert: Alert, budget: nat, late: bool) returns (ok: bool, left: nat)
      requires Valid() && AtPart(phase, SavingHit) && alert == Current(phase)
      modifies this
      ensures Valid() && old(states) <= states && left <= budget
      ensures log == old(log) && trail == old(trail) && offset == old(offset)
      ensures ok ==> rows == old(rows) && hits == old(hits) + [alert] && notes == old(notes)
      ensures ok ==> phase == old(phase).(work := old(phase).work.(part := Notifying))
      ensures !ok ==> phase == Idle && left == 0
    {
      hide Valid, RowFor, Step;
      left := budget;
      if left == 0 {
        if late { SaveUebaRuleHit(alert); }
        Fail();
        return false, left;
      }
      SaveUebaRuleHit(alert);
      ok, left := true, left - 1;
    }

    method TryNotice(alert: Alert, budget: nat, late: bool) returns (ok: bool, left: nat)
      requires Valid() && AtPart(phase, Notifying) && alert == Current(phase)
      modifies this
      ensures Valid() && old(states) <= states && left <= budget
      ensures log == old(log) && trail == old(trail) && offset == old(offset)
      ensures ok ==> rows == old(rows) && hits == old(hits) && notes == old(notes) + [alert]
      ensures ok ==> phase == old(phase).(work := old(phase).work.(next := old(phase).work.next + 1, part := SavingAlert))
      ensures !ok ==> phase == Idle && left == 0
    {
      hide Valid, RowFor, Step;
      left := budget;
      if left == 0 {
        if late { QueueNotification(alert); }
        Fail();
        return false, left;
      }
      QueueNotification(alert);
      ok, left := true, left - 1;
    }

    /** Stores the current alert, its hit and its notice, in that order. */
    method StoreCurrent(alert: Alert, budget: nat, late: bool) returns (ok: bool, left: nat)
      requires Valid() && AtPart(phase, SavingAlert) && alert == Current(phase)
      modifies this
      ensures Valid() && old(states) <= states && left <= budget
      ensures log == old(log) && trail == old(trail) && offset == old(offset)
      ensures ok ==>
                && rows == old(rows) + [RowFor(alert)] && hits == old(hits) + [alert] && notes == old(notes) + [alert]
                && phase == old(phase).(work := old(phase).work.(next := old(phase).work.next + 1))
      ensures !ok ==> phase == Idle && left == 0
    {
      hide Valid, RowFor;
      ok, left := TryAlert(alert, budget, late);
      if ok {
        ok, left := TryHit(alert, left, late);
      }
      if ok {
        ok, left := TryNotice(alert, left, late);
      }
    }

    /** Stores every pending alert with its hit and its notice. */
    method StorePending(pending: seq<Alert>, budget: nat, late: bool) returns (ok: bool, left: nat)
      requires Valid() && phase.Working? && phase.work.Saving? && phase.work.pending == pending
      requires phase.work.next == 0 && phase.work.part.SavingAlert?
      modifies this
      ensures Valid() && old(states) <= states
      ensures log == old(log) && trail == old(trail) && offset == old(offset)
      ensures ok ==> phase == old(phase).(work := old(phase).work.(next := |pending|))
      ensures !ok ==> phase == Idle && left == 0
    {
      hide Valid, RowFor, Step;
      left := budget;
      for i := 0 to |pending|
        invariant Valid() && old(states) <= states
        invariant log == old(log) && trail == old(trail) && offset == old(offset)
        invariant phase == old(phase).(work := old(phase).work.(next := i))
      {
        ok, left := StoreCurrent(pending[i], left, late);
        if !ok {
          return false, left;
        }
      }
      ok := true;
    }

    method ProcessTenant(upTo: nat, staged: Staged, tenant: Tenant, evaluate: seq<AuditEvent> -> seq<Alert>,
                         budget: nat, late: bool)
      returns (ok: bool, left: nat)
      requires Valid() && phase == Staging(upTo, upTo, staged) && tenant in staged
      requires forall merged :: IsEvaluation(evaluate(merged), tenant)
      modifies this
      ensures Valid() && old(states) <= states
      ensures log == old(log) && trail == old(trail) && offset == old(offset)
      ensures phase == if ok then Staging(upTo, upTo, staged - {tenant}) else Idle
      ensures !ok ==> left == 0
    {
      hide Valid, IsEvaluation, KeysOf, Step;
      left := budget;
      if left == 0 {
        Fail();
        return false, left;
      }
      var pending := Select(upTo, staged, tenant, evaluate);
      left := left - 1;
      if left == 0 {
        Fail();
        return false, left;
      }
      MitigateAll(pending);
      left := left - 1;
      ok, left := StorePending(pending, left, late);
      if ok {
        Finish();
      }
    }

    /** Processes the staged tenants, in any order. */
    method ProcessAll(upTo: nat, staged: Staged, evaluate: (Tenant, seq<AuditEvent>) -> seq<Alert>, budget: nat,
                      late: bool)
      returns (ok: bool, left: nat)
      requires Valid() && phase == Staging(upTo, upTo, staged)
      requires forall tenant, merged :: IsEvaluation(evaluate(tenant, merged), tenant)
      modifies this
      ensures Valid() && old(states) <= states
      ensures log == old(log) && trail == old(trail) && offset == old(offset)
      ensures phase == if ok then Staging(upTo, upTo, map[]) else Idle
      ensures !ok ==> left == 0
    {
      hide Valid, IsEvaluation, Step;
      left := budget;
      var rest, tenants := staged, staged.Keys;
      while tenants != {}
        invariant Valid() && old(states) <= states
        invariant log == old(log) && trail == old(trail) && offset == old(offset)
        invariant phase == Staging(upTo, upTo, rest) && rest.Keys == tenants
        decreases |tenants|
      {
        var tenant :| tenant in tenants;
        ok, left := ProcessTenant(upTo, rest, tenant, merged => evaluate(tenant, merged), left, late);
        if !ok {
          return false, left;
        }
        rest, tenants := rest - {tenant}, tenants - {tenant};
      }
      ok := true;
    }

    /** One tick over the records fetched up to `upTo`. The offset moves to `upTo` when the tick ends
        without error, and otherwise stays, unless the commit itself took effect and was still reported
        as failed. A tick ends in error only when a call fails or a record does not decode. */
    method Tick(upTo: nat, evaluate: (Tenant, seq<AuditEvent>) -> seq<Alert>, budget: nat,
                      late: bool)
      returns (ok: bool, left: nat)
      requires Valid() && phase.Idle? && offset <= upTo <= |log|
      requires forall tenant, merged :: IsEvaluation(evaluate(tenant, merged), tenant)
      modifies this
      ensures Valid() && phase.Idle? && old(states) <= states
      ensures log == old(log) && trail == old(trail)
      ensures if ok then offset == upTo else offset == old(offset) || (late && offset == upTo)
      ensures offset != old(offset) ==> forall k | old(offset) <= k < upTo :: !log[k].Garbage?
      ensures !ok ==> left == 0 || exists k :: old(offset) <= k < upTo && log[k].Garbage?
    {
      hide Valid, IsEvaluation, EventsOf, Step;
      left := budget;
      if left == 0 {
        return false, left;
      }
      left := left - 1;
      if offset == upTo {
        return true, left;
      }
      var staged: Staged := map[];
      ok, staged := Stage(upTo);
      if !ok {
        return false, left;
      }
      ok, left := ProcessAll(upTo, staged, evaluate, left, late);
      if !ok {
        return false, left;
      }
      if left == 0 {
        if late { CommitOffset(upTo); }
        Fail();
        return false, left;
      }
      CommitOffset(upTo);
      ok := true;
    }
  }

  lemma EvaluationParts(alerts: seq<Alert>, tenant: Tenant)
    requires IsEvaluation(alerts, tenant)
    ensures forall alert | alert in alerts :: alert.tenantId == tenant
  {
  }

  lemma StagedInOrder(s: Stream)
    requires LogInv(s) && s.phase.Staging?
    ensures s.offset <= s.phase.next <= |s.log|
    ensures forall tenant | tenant in s.phase.staged ::
              s.phase.staged[tenant] == EventsOf(s.log[s.offset..s.phase.next], tenant)
  {
  }
}
