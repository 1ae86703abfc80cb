/** What every run of the stream consumer keeps, wherever it crashes. */
module UebaStreamSafety {
  import opened UebaStream
  import opened Subsequences
  import Alerts = UebaAlerts

  // ----- Offsets and coverage -----

  ghost predicate NoGarbage(records: seq<Record>) {
    forall i | 0 <= i < |records| :: !records[i].Garbage?
  }

  ghost predicate Completed(completed: seq<Completion>, tenant: Tenant, start: nat, end: nat) {
    exists i :: 0 <= i < |completed| && completed[i].tenant == tenant
                && completed[i].start == start && completed[i].end == end
  }

  /** A completion worked on its tenant's events of its stretch of the log, in their order, and every
      one of them was, by its hash, in the list it evaluated. */
  ghost predicate Faithful(log: seq<Record>, p: Completion) {
    && p.start < p.end <= |log|
    && p.input == EventsOf(log[p.start..p.end], p.tenant)
    && HashesOf(p.input) <= HashesOf(p.merged)
  }

  ghost predicate AllFaithful(log: seq<Record>, completed: seq<Completion>) {
    forall i | 0 <= i < |completed| :: Faithful(log, completed[i])
  }

  /** The record at `k` was part of a completed processing of the tenant it names. */
  ghost predicate Consumed(log: seq<Record>, completed: seq<Completion>, k: nat)
    requires k < |log|
  {
    log[k].Decoded? ==>
      exists i :: 0 <= i < |completed| && completed[i].tenant == log[k].event.tenant
                  && completed[i].start <= k < completed[i].end
  }

  ghost predicate CommittedOk(log: seq<Record>, offset: nat, completed: seq<Completion>) {
    && offset <= |log| && NoGarbage(log[..offset])
    && forall k | 0 <= k < offset :: Consumed(log, completed, k)
  }

  /** Of the records staged so far, each tenant's events are waiting in order, or there are none, or
      the tenant's processing for this fetch is complete. */
  ghost predicate StagedOk(log: seq<Record>, offset: nat, upTo: nat, next: nat, staged: Staged,
                           completed: seq<Completion>)
  {
    && offset < upTo <= |log| && offset <= next <= upTo && NoGarbage(log[offset..next])
    && forall tenant: Tenant ::
         if tenant in staged then staged[tenant] == EventsOf(log[offset..next], tenant)
         else EventsOf(log[offset..next], tenant) == [] || (next == upTo && Completed(completed, tenant, offset, upTo))
  }

  ghost predicate PhaseOk(log: seq<Record>, offset: nat, completed: seq<Completion>, phase: Phase) {
    match phase
    case Idle => true
    case Staging(upTo, next, staged) => StagedOk(log, offset, upTo, next, staged, completed)
    case Working(upTo, staged, tenant, merged, work) =>
      && StagedOk(log, offset, upTo, upTo, staged, completed)
      && tenant in staged && HashesOf(staged[tenant]) <= HashesOf(merged)
  }

  // ----- Alerts -----

  ghost predicate DistinctRows(rows: seq<AlertRow>) {
    forall i, j | 0 <= i < j < |rows| :: RowKey(rows[i]) != RowKey(rows[j])
  }

  /** Alerts are stored once, after mitigation; hits and notices follow a stored alert, once. */
  ghost predicate StoreOk(rows: seq<AlertRow>, hits: seq<Alert>, notes: seq<Alert>, mitigated: set<Key>) {
    && DistinctRows(rows) && StoredKeys(rows) <= mitigated
    && DistinctKeys(hits) && KeysOf(hits) <= StoredKeys(rows)
    && DistinctKeys(notes) && KeysOf(notes) <= KeysOf(hits)
  }

  ghost predicate AlertsStored(rows: seq<AlertRow>, completed: seq<Completion>) {
    forall i | 0 <= i < |completed| :: KeysOf(completed[i].evaluated) <= StoredKeys(rows)
  }

  /** Exactly the first `count` of the pending alerts are among the keys present. */
  ghost predicate DoneTo(pending: seq<Alert>, count: nat, present: set<Key>) {
    forall i | 0 <= i < |pending| :: AlertKey(pending[i]) in present <==> i < count
  }

  /** Where the saving of the pending alerts stands. */
  ghost predicate WorkOk(rows: seq<AlertRow>, hits: seq<Alert>, notes: seq<Alert>, mitigated: set<Key>,
                         tenant: Tenant, work: Work)
  {
    match work
    case Merged => true
    case Selected(evaluated, pending) =>
      && DistinctKeys(pending) && DoneTo(pending, 0, StoredKeys(rows))
      && KeysOf(evaluated) <= StoredKeys(rows) + KeysOf(pending)
    case Saving(evaluated, pending, next, part) =>
      && next <= |pending| && (next == |pending| ==> part.SavingAlert?)
      && DistinctKeys(pending) && KeysOf(pending) <= mitigated
      && DoneTo(pending, if part.SavingAlert? then next else next + 1, StoredKeys(rows))
      && DoneTo(pending, if part.Notifying? then next + 1 else next, KeysOf(hits))
      && DoneTo(pending, next, KeysOf(notes))
      && KeysOf(evaluated) <= StoredKeys(rows) + KeysOf(pending)
  }

  ghost predicate LogInv(s: Stream) {
    && CommittedOk(s.log, s.offset, s.completed)
    && PhaseOk(s.log, s.offset, s.completed, s.phase)
    && AllFaithful(s.log, s.completed)
  }

  ghost predicate AlertInv(s: Stream) {
    && StoreOk(s.rows, s.hits, s.notes, s.mitigated)
    && AlertsStored(s.rows, s.completed)
    && (s.phase.Working? ==> WorkOk(s.rows, s.hits, s.notes, s.mitigated, s.phase.tenant, s.phase.work))
  }

  ghost predicate Inv(s: Stream) {
    InRange(s) && LogInv(s) && AlertInv(s)
  }

  // ----- Facts about staging and merging -----

  lemma EventsOfNext(log: seq<Record>, a: nat, b: nat, tenant: Tenant)
    requires a <= b < |log|
    ensures EventsOf(log[a..b + 1], tenant)
         == EventsOf(log[a..b], tenant)
            + (if log[b].Decoded? && log[b].event.tenant == tenant then [log[b].event] else [])
  {
    assert log[a..b + 1][..b - a] == log[a..b];
  }

  /** Every decodable record of a tenant is among its events. */
  lemma {:induction false} EventIsListed(records: seq<Record>, k: nat)
    requires k < |records| && records[k].Decoded?
    ensures records[k].event in EventsOf(records, records[k].event.tenant)
    decreases |records|
  {
    if k < |records| - 1 {
      assert records[..|records| - 1][k] == records[k];
      EventIsListed(records[..|records| - 1], k);
    }
  }

  lemma HashesOfMore(events: seq<AuditEvent>, more: seq<AuditEvent>)
    ensures HashesOf(events + more) == HashesOf(events) + HashesOf(more)
  {
    forall event | event in events ensures event in events + more {
      var i :| 0 <= i < |events| && events[i] == event;
      assert (events + more)[i] == event;
    }
    forall event | event in more ensures event in events + more {
      var i :| 0 <= i < |more| && more[i] == event;
      assert (events + more)[|events| + i] == event;
    }
  }

  predicate DistinctHashes(events: seq<AuditEvent>) {
    forall i, j | 0 <= i < j < |events| :: events[i].hash != events[j].hash
  }

  /** The events taken over from the staged ones: no hash twice, none that was known, and every
      staged hash is then known or taken over. */
  lemma {:induction false} UnseenIsExact(known: set<Hash>, events: seq<AuditEvent>)
    ensures var unseen := Unseen(known, events);
            && DistinctHashes(unseen)
            && HashesOf(unseen) == HashesOf(events) - known
            && forall event | event in unseen :: event in events
  {
    hide HashesOf;
    if events == [] {
      assert HashesOf(events) == {} by { NoHashes(); }
    } else {
      var before, last := events[..|events| - 1], events[|events| - 1];
      UnseenIsExact(known, before);
      assert events == before + [last];
      HashesOfOneMore(before, last);
      HashesOfOneMore(Unseen(known, before), last);
      if last.hash !in known && last.hash !in HashesOf(before) {
        OneMoreHash(Unseen(known, before), last);
      } else {
        assert Unseen(known, events) == Unseen(known, before);
      }
      assert forall event | event in before :: event in events;
    }
  }

  lemma NoHashes()
    ensures HashesOf([]) == {}
  {
  }

  lemma HashesOfOneMore(events: seq<AuditEvent>, event: AuditEvent)
    ensures HashesOf(events + [event]) == HashesOf(events) + {event.hash}
  {
    HashesOfMore(events, [event]);
    assert event in [event];
  }

  lemma OneMoreHash(events: seq<AuditEvent>, event: AuditEvent)
    requires DistinctHashes(events) && event.hash !in HashesOf(events)
    ensures DistinctHashes(events + [event])
  {
    forall i | 0 <= i < |events| ensures events[i].hash != event.hash {
      assert events[i] in events;
    }
  }

  /** The list that is evaluated has exactly the stored and the staged hashes. It starts with the
      stored events, and the staged ones it adds are those with a new hash, each hash once. */
  lemma MergedIsExact(stored: seq<AuditEvent>, staged: seq<AuditEvent>)
    ensures var merged := MergedWith(stored, staged);
            && HashesOf(merged) == HashesOf(stored) + HashesOf(staged)
            && merged[..|stored|] == stored
            && DistinctHashes(merged[|stored|..])
            && HashesOf(merged[|stored|..]) == HashesOf(staged) - HashesOf(stored)
  {
    var unseen := Unseen(HashesOf(stored), staged);
    UnseenIsExact(HashesOf(stored), staged);
    HashesOfMore(stored, unseen);
    assert MergedWith(stored, staged)[|stored|..] == unseen;
  }

  // ----- What is kept, in which order -----

  /** The stored trail of a tenant: the tenant's events, all of them, in their order. */
  lemma {:induction false} TrailInOrder(trail: seq<AuditEvent>, tenant: Tenant)
    ensures Picks(trail, (set k: nat | k < |trail| && trail[k].tenant == tenant), TrailOf(trail, tenant))
  {
    hide Picks;
    var all := set k: nat | k < |trail| && trail[k].tenant == tenant;
    if trail == [] {
      PicksNothing<AuditEvent>();
      assert all == {};
    } else {
      var before, last := trail[..|trail| - 1], trail[|trail| - 1];
      var kept := set k: nat | k < |before| && before[k].tenant == tenant;
      TrailInOrder(before, tenant);
      PicksNext(before, kept, TrailOf(before, tenant), last, last.tenant == tenant);
      assert trail == before + [last];
      assert all == if last.tenant == tenant then kept + {|before|} else kept;
      assert last.tenant != tenant ==> TrailOf(trail, tenant) == TrailOf(before, tenant);
    }
  }

  function Recorded(events: seq<AuditEvent>): seq<Record> {
    seq(|events|, i requires 0 <= i < |events| => Decoded(events[i]))
  }

  predicate IsOf(record: Record, tenant: Tenant) {
    record.Decoded? && record.event.tenant == tenant
  }

  /** What is staged for a tenant: the records that decode to an event of the tenant, all of them, in their
      order. */
  lemma {:induction false} EventsInOrder(records: seq<Record>, tenant: Tenant)
    ensures Picks(records, (set k: nat | k < |records| && IsOf(records[k], tenant)), Recorded(EventsOf(records, tenant)))
  {
    hide Picks;
    var all := set k: nat | k < |records| && IsOf(records[k], tenant);
    if records == [] {
      PicksNothing<Record>();
      assert all == {};
      assert Recorded(EventsOf(records, tenant)) == [];
    } else {
      var before, last := records[..|records| - 1], records[|records| - 1];
      var kept := set k: nat | k < |before| && IsOf(before[k], tenant);
      EventsInOrder(before, tenant);
      PicksNext(before, kept, Recorded(EventsOf(before, tenant)), last, IsOf(last, tenant));
      assert records == before + [last];
      assert all == if IsOf(last, tenant) then kept + {|before|} else kept;
      assert Recorded(EventsOf(records, tenant))
          == if IsOf(last, tenant) then Recorded(EventsOf(before, tenant)) + [last] else Recorded(EventsOf(before, tenant));
    }
  }

  /** The first event to carry a hash that is not known. */
  predicate IsNews(known: set<Hash>, events: seq<AuditEvent>, k: nat)
    requires k < |events|
  {
    events[k].hash !in known && forall j | 0 <= j < k :: events[j].hash != events[k].hash
  }

  function NewsAt(known: set<Hash>, events: seq<AuditEvent>): set<nat> {
    set k: nat | k < |events| && IsNews(known, events, k)
  }

  lemma NewsNext(known: set<Hash>, before: seq<AuditEvent>, last: AuditEvent)
    ensures var taken := last.hash !in known && last.hash !in HashesOf(before);
            NewsAt(known, before + [last]) == if taken then NewsAt(known, before) + {|before|} else NewsAt(known, before)
  {
    var events := before + [last];
    assert forall k: nat | k < |before| :: events[k] == before[k];
    assert forall k: nat | k < |before| :: IsNews(known, events, k) <==> IsNews(known, before, k);
    assert last.hash in HashesOf(before) <==> exists j :: 0 <= j < |before| && before[j].hash == last.hash;
  }

  /** The staged events taken over: of each unknown hash the first event that carries it, in their order. */
  lemma {:induction false} UnseenInOrder(known: set<Hash>, events: seq<AuditEvent>)
    ensures Picks(events, (set k: nat | k < |events| && IsNews(known, events, k)), Unseen(known, events))
  {
    hide Picks, IsNews, HashesOf;
    if events == [] {
      PicksNothing<AuditEvent>();
      assert NewsAt(known, events) == {};
    } else {
      var before, last := events[..|events| - 1], events[|events| - 1];
      var taken := last.hash !in known && last.hash !in HashesOf(before);
      UnseenInOrder(known, before);
      PicksNext(before, NewsAt(known, before), Unseen(known, before), last, taken);
      NewsNext(known, before, last);
      assert events == before + [last];
      assert !taken ==> Unseen(known, events) == Unseen(known, before);
    }
    assert NewsAt(known, events) == set k: nat | k < |events| && IsNews(known, events, k);
  }

  /** The new alerts: those whose signature is not stored, all of them, in their order. */
  lemma {:induction false} NewAlertsInOrder(alerts: seq<Alert>, stored: set<Key>)
    ensures Picks(alerts, (set k: nat | k < |alerts| && AlertKey(alerts[k]) !in stored), NewAlerts(alerts, stored))
  {
    hide Picks, AlertKey;
    var all := set k: nat | k < |alerts| && AlertKey(alerts[k]) !in stored;
    if alerts == [] {
      PicksNothing<Alert>();
      assert all == {};
    } else {
      var before, last := alerts[..|alerts| - 1], alerts[|alerts| - 1];
      var kept := set k: nat | k < |before| && AlertKey(before[k]) !in stored;
      NewAlertsInOrder(before, stored);
      PicksNext(before, kept, NewAlerts(before, stored), last, AlertKey(last) !in stored);
      assert alerts == before + [last];
      assert all == if AlertKey(last) !in stored then kept + {|before|} else kept;
      assert AlertKey(last) in stored ==> NewAlerts(alerts, stored) == NewAlerts(before, stored);
    }
  }

  /** What is evaluated for a tenant: first its stored trail in order, then of each hash not in that trail the
      first staged event that carries it, in order. */
  ghost predicate IsMergeOf(trail: seq<AuditEvent>, tenant: Tenant, staged: seq<AuditEvent>, merged: seq<AuditEvent>) {
    exists n: nat | n <= |merged| ::
      && Picks(trail, (set k: nat | k < |trail| && trail[k].tenant == tenant), merged[..n])
      && Picks(staged, (set k: nat | k < |staged| && IsNews(HashesOf(merged[..n]), staged, k)), merged[n..])
  }

  lemma MergedInOrder(trail: seq<AuditEvent>, tenant: Tenant, staged: seq<AuditEvent>)
    ensures IsMergeOf(trail, tenant, staged, MergedWith(TrailOf(trail, tenant), staged))
  {
    hide Picks, IsNews, TrailOf, Unseen;
    var stored := TrailOf(trail, tenant);
    var merged := MergedWith(stored, staged);
    TrailInOrder(trail, tenant);
    UnseenInOrder(HashesOf(stored), staged);
    assert merged[..|stored|] == stored && merged[|stored|..] == Unseen(HashesOf(stored), staged);
  }

  // ----- Facts about keys -----

  lemma KeysOfMore(alerts: seq<Alert>, alert: Alert)
    ensures KeysOf(alerts + [alert]) == KeysOf(alerts) + {AlertKey(alert)}
  {
    hide AlertKey;
    var more := alerts + [alert];
    assert more[|alerts|] == alert;
    forall other | other in alerts ensures other in more {
      var i :| 0 <= i < |alerts| && alerts[i] == other;
      assert more[i] == other;
    }
  }

  lemma StoredKeysMore(rows: seq<AlertRow>, row: AlertRow)
    ensures StoredKeys(rows + [row]) == StoredKeys(rows) + {RowKey(row)}
  {
    hide RowKey;
    var more := rows + [row];
    assert more[|rows|] == row;
    forall other | other in rows ensures other in more {
      var i :| 0 <= i < |rows| && rows[i] == other;
      assert more[i] == other;
    }
  }

  lemma OneMoreAlert(alerts: seq<Alert>, alert: Alert)
    requires DistinctKeys(alerts) && AlertKey(alert) !in KeysOf(alerts)
    ensures DistinctKeys(alerts + [alert])
  {
    hide AlertKey;
    forall i | 0 <= i < |alerts| ensures AlertKey(alerts[i]) != AlertKey(alert) {
      assert alerts[i] in alerts;
    }
  }

  lemma OneMoreRow(rows: seq<AlertRow>, row: AlertRow)
    requires DistinctRows(rows) && RowKey(row) !in StoredKeys(rows)
    ensures DistinctRows(rows + [row])
  {
    hide RowKey;
    forall i | 0 <= i < |rows| ensures RowKey(rows[i]) != RowKey(row) {
      assert rows[i] in rows;
    }
  }

  lemma OneMoreDone(pending: seq<Alert>, count: nat, present: set<Key>)
    requires DistinctKeys(pending) && DoneTo(pending, count, present) && count < |pending|
    ensures DoneTo(pending, count + 1, present + {AlertKey(pending[count])})
  {
    hide AlertKey;
  }

  /** The new alerts are the evaluated ones that are not stored. */
  lemma {:induction false} NewAlertsAreExact(alerts: seq<Alert>, stored: set<Key>)
    requires DistinctKeys(alerts)
    ensures var unstored := NewAlerts(alerts, stored);
            && KeysOf(unstored) == KeysOf(alerts) - stored
            && DistinctKeys(unstored)
            && forall alert | alert in unstored :: alert in alerts
  {
    hide AlertKey;
    if alerts != [] {
      var before, last := alerts[..|alerts| - 1], alerts[|alerts| - 1];
      NewAlertsAreExact(before, stored);
      assert alerts == before + [last];
      KeysOfMore(before, last);
      KeysOfMore(NewAlerts(before, stored), last);
      assert AlertKey(last) !in KeysOf(before);
      if AlertKey(last) !in stored {
        OneMoreAlert(NewAlerts(before, stored), last);
      }
    }
  }

  lemma NoneDone(pending: seq<Alert>, present: set<Key>)
    requires KeysOf(pending) !! present
    ensures DoneTo(pending, 0, present)
  {
    hide AlertKey;
    forall i | 0 <= i < |pending| ensures AlertKey(pending[i]) !in present {
      assert pending[i] in pending && AlertKey(pending[i]) in KeysOf(pending);
    }
  }

  lemma AllDone(pending: seq<Alert>, present: set<Key>)
    requires DoneTo(pending, |pending|, present)
    ensures KeysOf(pending) <= present
  {
    hide AlertKey;
  }

  // ----- Every step keeps the log's side -----

  lemma PublishKeepsLogInv(s: Stream, record: Record)
    requires InRange(s) && LogInv(s)
    ensures InRange(s.(log := s.log + [record])) && LogInv(s.(log := s.log + [record]))
  {
    var log' := s.log + [record];
    assert forall a: nat, b: nat | a <= b <= |s.log| :: log'[a..b] == s.log[a..b];
    assert forall b: nat | b <= |s.log| :: log'[..b] == s.log[..b];
    hide EventsOf, NoGarbage, HashesOf;
    forall i | 0 <= i < |s.completed| ensures Faithful(log', s.completed[i]) {
      assert Faithful(s.log, s.completed[i]);
    }
    forall k | 0 <= k < s.offset ensures Consumed(log', s.completed, k) {
      assert Consumed(s.log, s.completed, k);
    }
    assert CommittedOk(log', s.offset, s.completed);
    hide CommittedOk, AllFaithful, Completed;
    if s.phase.Staging? {
      assert StagedOk(log', s.offset, s.phase.upTo, s.phase.next, s.phase.staged, s.completed);
    } else if s.phase.Working? {
      assert StagedOk(log', s.offset, s.phase.upTo, s.phase.upTo, s.phase.staged, s.completed);
    }
  }

  lemma FetchKeepsLogInv(s: Stream, upTo: nat)
    requires LogInv(s) && s.offset < upTo <= |s.log|
    ensures LogInv(s.(phase := Staging(upTo, s.offset, map[])))
  {
    assert s.log[s.offset..s.offset] == [];
    hide CommittedOk, AllFaithful;
  }

  lemma StageOneKeepsStaged(log: seq<Record>, offset: nat, upTo: nat, next: nat, staged: Staged,
                            completed: seq<Completion>)
    requires StagedOk(log, offset, upTo, next, staged, completed) && next < upTo && !log[next].Garbage?
    ensures var staged' := if log[next].Decoded? then Appended(staged, log[next].event) else staged;
            StagedOk(log, offset, upTo, next + 1, staged', completed)
  {
    var staged' := if log[next].Decoded? then Appended(staged, log[next].event) else staged;
    assert log[offset..next + 1] == log[offset..next] + [log[next]];
    assert NoGarbage(log[offset..next + 1]);
    hide EventsOf, NoGarbage, Completed;
    forall tenant: Tenant
      ensures if tenant in staged' then staged'[tenant] == EventsOf(log[offset..next + 1], tenant)
              else EventsOf(log[offset..next + 1], tenant) == []
    {
      EventsOfNext(log, offset, next, tenant);
      var event := if log[next].Decoded? && log[next].event.tenant == tenant then [log[next].event] else [];
      assert EventsOf(log[offset..next], tenant) + [] == EventsOf(log[offset..next], tenant);
    }
  }

  lemma StageOneKeepsLogInv(s: Stream)
    requires LogInv(s) && InRange(s) && Possible(s, StageOne)
    ensures LogInv(Step(s, StageOne))
  {
    hide CommittedOk, AllFaithful, StagedOk, Appended;
    if !s.log[s.phase.next].Garbage? {
      StageOneKeepsStaged(s.log, s.offset, s.phase.upTo, s.phase.next, s.phase.staged, s.completed);
    }
  }

  lemma StartKeepsLogInv(s: Stream, tenant: Tenant)
    requires LogInv(s) && InRange(s) && Possible(s, StartTenant(tenant))
    ensures LogInv(Step(s, StartTenant(tenant)))
  {
    hide CommittedOk, AllFaithful, StagedOk, MergedWith, HashesOf;
    MergedIsExact(TrailOf(s.trail, tenant), s.phase.staged[tenant]);
  }

  lemma OneMoreCompleted(log: seq<Record>, offset: nat, upTo: nat, staged: Staged, completed: seq<Completion>,
                         p: Completion)
    requires StagedOk(log, offset, upTo, upTo, staged, completed)
    requires p.tenant in staged && p.start == offset && p.end == upTo
    ensures StagedOk(log, offset, upTo, upTo, staged - {p.tenant}, completed + [p])
  {
    var completed' := completed + [p];
    assert completed'[|completed|] == p;
    assert Completed(completed', p.tenant, offset, upTo);
    hide EventsOf, NoGarbage;
    forall tenant | Completed(completed, tenant, offset, upTo) ensures Completed(completed', tenant, offset, upTo) {
      var i :| 0 <= i < |completed| && completed[i].tenant == tenant
               && completed[i].start == offset && completed[i].end == upTo;
      assert completed'[i] == completed[i];
    }
    hide Completed;
  }

  lemma MoreCompletedKeepsCommitted(log: seq<Record>, offset: nat, completed: seq<Completion>, p: Completion)
    requires CommittedOk(log, offset, completed)
    ensures CommittedOk(log, offset, completed + [p])
  {
    hide NoGarbage;
    forall k | 0 <= k < offset ensures Consumed(log, completed + [p], k) {
      assert Consumed(log, completed, k);
      if log[k].Decoded? {
        var i :| 0 <= i < |completed| && completed[i].tenant == log[k].event.tenant
                 && completed[i].start <= k < completed[i].end;
        assert (completed + [p])[i] == completed[i];
      }
    }
  }

  lemma FinishKeepsLogInv(s: Stream)
    requires LogInv(s) && InRange(s) && Possible(s, FinishTenant)
    ensures LogInv(Step(s, FinishTenant))
  {
    var tenant := s.phase.tenant;
    assert s.phase.staged[tenant] == EventsOf(s.log[s.offset..s.phase.upTo], tenant);
    assert s.offset < s.phase.upTo <= |s.log|;
    hide CommittedOk, StagedOk, EventsOf, HashesOf;
    var p := Completion(tenant, s.offset, s.phase.upTo, s.phase.staged[tenant], s.phase.merged, s.phase.work.evaluated);
    OneMoreCompleted(s.log, s.offset, s.phase.upTo, s.phase.staged, s.completed, p);
    MoreCompletedKeepsCommitted(s.log, s.offset, s.completed, p);
    assert Faithful(s.log, p);
  }

  /** All tenants processed: everything fetched has been consumed. */
  lemma CommitIsOk(log: seq<Record>, offset: nat, upTo: nat, completed: seq<Completion>)
    requires CommittedOk(log, offset, completed) && StagedOk(log, offset, upTo, upTo, map[], completed)
    ensures CommittedOk(log, upTo, completed)
  {
    forall k | 0 <= k < upTo ensures !log[k].Garbage? && Consumed(log, completed, k) {
      if k < offset {
        assert Consumed(log, completed, k) && log[..offset][k] == log[k];
      } else {
        assert log[offset..upTo][k - offset] == log[k];
        if log[k].Decoded? {
          EventIsListed(log[offset..upTo], k - offset);
          assert Completed(completed, log[k].event.tenant, offset, upTo);
        }
      }
    }
  }

  lemma StepKeepsLogInv(s: Stream, event: Event)
    requires InRange(s) && LogInv(s) && Possible(s, event)
    ensures InRange(Step(s, event)) && LogInv(Step(s, event))
    ensures s.offset <= Step(s, event).offset
  {
    if event.Publish? {
      PublishKeepsLogInv(s, event.record);
    } else if event.Fetch? {
      FetchKeepsLogInv(s, event.upTo);
    } else if event.StageOne? {
      StageOneKeepsLogInv(s);
      NextInRange(s);
    } else if event.StartTenant? {
      StartKeepsLogInv(s, event.tenant);
    } else if event.FinishTenant? {
      FinishKeepsLogInv(s);
      UpToInRange(s);
    } else if event.Commit? {
      hide EventsOf, NoGarbage, Consumed, AllFaithful;
      CommitIsOk(s.log, s.offset, s.phase.upTo, s.completed);
    } else {
      hide CommittedOk, AllFaithful, StagedOk;
    }
  }

  lemma NextInRange(s: Stream)
    requires InRange(s) && Possible(s, StageOne)
    ensures InRange(Step(s, StageOne))
  {
  }

  lemma UpToInRange(s: Stream)
    requires InRange(s) && LogInv(s) && Possible(s, FinishTenant)
    ensures InRange(Step(s, FinishTenant))
  {
    hide EventsOf, NoGarbage, Consumed, AllFaithful, CommittedOk;
  }

  // ----- Every step keeps the alerts' side -----

  lemma EvaluateKeepsAlertInv(s: Stream, alerts: seq<Alert>)
    requires InRange(s) && AlertInv(s) && Possible(s, Evaluate(alerts))
    ensures AlertInv(Step(s, Evaluate(alerts)))
  {
    hide StoreOk, AlertsStored, AlertKey, RowKey, StoredKeys, KeysOf, NewAlerts;
    var pending := NewAlerts(alerts, StoredKeys(s.rows));
    NewAlertsAreExact(alerts, StoredKeys(s.rows));
    NoneDone(pending, StoredKeys(s.rows));
  }

  lemma MitigateKeepsAlertInv(s: Stream)
    requires InRange(s) && AlertInv(s) && Possible(s, Mitigate)
    ensures AlertInv(Step(s, Mitigate))
  {
    hide AlertKey, RowKey, StoredKeys, KeysOf, DistinctRows, DistinctKeys;
    var pending := s.phase.work.pending;
    if pending == [] { assert DoneTo(pending, 0, KeysOf(s.hits)) && DoneTo(pending, 0, KeysOf(s.notes)); }
  }

  lemma StoredMore(rows: seq<AlertRow>, row: AlertRow, completed: seq<Completion>)
    requires AlertsStored(rows, completed)
    ensures AlertsStored(rows + [row], completed)
  {
    hide KeysOf, RowKey;
    StoredKeysMore(rows, row);
  }

  lemma SaveAlertKeepsAlertInv(s: Stream)
    requires InRange(s) && AlertInv(s) && Possible(s, SaveAlert)
    ensures AlertInv(Step(s, SaveAlert))
  {
    var alert, next := Current(s.phase), s.phase.work.next;
    assert AlertKey(alert) in KeysOf(s.phase.work.pending) by { assert alert in s.phase.work.pending; }
    assert AlertKey(alert) !in StoredKeys(s.rows);
    hide AlertKey, RowKey, KeysOf, StoredKeys, DistinctRows, DistinctKeys, AlertsStored, RowFor, DoneTo;
    RowKeyOfAlert(alert);
    StoredKeysMore(s.rows, RowFor(alert));
    OneMoreRow(s.rows, RowFor(alert));
    OneMoreDone(s.phase.work.pending, next, StoredKeys(s.rows));
    StoredMore(s.rows, RowFor(alert), s.completed);
  }

  lemma SaveHitKeepsAlertInv(s: Stream)
    requires InRange(s) && AlertInv(s) && Possible(s, SaveHit)
    ensures AlertInv(Step(s, SaveHit))
  {
    var alert, next := Current(s.phase), s.phase.work.next;
    assert AlertKey(alert) in StoredKeys(s.rows) && AlertKey(alert) !in KeysOf(s.hits);
    hide AlertKey, RowKey, KeysOf, StoredKeys, DistinctRows, DistinctKeys, AlertsStored, DoneTo;
    KeysOfMore(s.hits, alert);
    OneMoreAlert(s.hits, alert);
    OneMoreDone(s.phase.work.pending, next, KeysOf(s.hits));
  }

  lemma NotifyKeepsAlertInv(s: Stream)
    requires InRange(s) && AlertInv(s) && Possible(s, Notify)
    ensures AlertInv(Step(s, Notify))
  {
    var alert, next := Current(s.phase), s.phase.work.next;
    assert AlertKey(alert) in KeysOf(s.hits) && AlertKey(alert) !in KeysOf(s.notes);
    hide AlertKey, RowKey, KeysOf, StoredKeys, DistinctRows, DistinctKeys, AlertsStored, DoneTo;
    KeysOfMore(s.notes, alert);
    OneMoreAlert(s.notes, alert);
    OneMoreDone(s.phase.work.pending, next, KeysOf(s.notes));
  }

  lemma FinishKeepsAlertInv(s: Stream)
    requires InRange(s) && AlertInv(s) && Possible(s, FinishTenant)
    ensures AlertInv(Step(s, FinishTenant))
  {
    AllDone(s.phase.work.pending, StoredKeys(s.rows));
    hide StoreOk, AlertKey, RowKey, StoredKeys, KeysOf;
    assert KeysOf(s.phase.work.evaluated) <= StoredKeys(s.rows);
  }

  lemma StepKeepsAlertInv(s: Stream, event: Event)
    requires InRange(s) && AlertInv(s) && Possible(s, event)
    ensures AlertInv(Step(s, event))
  {
    if event.Evaluate? {
      EvaluateKeepsAlertInv(s, event.alerts);
    } else if event.Mitigate? {
      MitigateKeepsAlertInv(s);
    } else if event.SaveAlert? {
      SaveAlertKeepsAlertInv(s);
    } else if event.SaveHit? {
      SaveHitKeepsAlertInv(s);
    } else if event.Notify? {
      NotifyKeepsAlertInv(s);
    } else if event.FinishTenant? {
      FinishKeepsAlertInv(s);
    } else {
      hide StoreOk, AlertsStored, WorkOk;
    }
  }

  // ----- Runs -----

  /** Nothing consumed and nothing stored; the stream and the audit trail may already hold anything. */
  ghost predicate IsStart(s: Stream) {
    s == Stream(s.log, s.trail, 0, [], [], [], {}, [], Idle)
  }

  ghost predicate IsRun(states: seq<Stream>, events: seq<Event>) {
    && |states| == |events| + 1
    && IsStart(states[0])
    && forall i | 0 <= i < |events| ::
         InRange(states[i]) && Possible(states[i], events[i]) && states[i + 1] == Step(states[i], events[i])
  }

  lemma StartIsOk(s: Stream)
    requires IsStart(s)
    ensures Inv(s)
  {
  }

  lemma StepKeepsInv(s: Stream, event: Event)
    requires Inv(s) && Possible(s, event)
    ensures Inv(Step(s, event)) && s.offset <= Step(s, event).offset
  {
    hide LogInv, AlertInv, Step, Possible, InRange;
    StepKeepsLogInv(s, event);
    StepKeepsAlertInv(s, event);
  }

  lemma {:induction false} RunKeepsInv(states: seq<Stream>, events: seq<Event>, i: nat)
    requires IsRun(states, events) && i < |states|
    ensures Inv(states[i])
  {
    if i == 0 {
      StartIsOk(states[0]);
    } else {
      RunKeepsInv(states, events, i - 1);
      hide Inv, Step, Possible, IsStart;
      StepKeepsInv(states[i - 1], events[i - 1]);
    }
  }

  // ----- Theorems -----

  /** Records are never lost from what precedes them, and history is never rewritten. */
  ghost predicate Extends(s: Stream, s': Stream) {
    s.log <= s'.log && s.offset <= s'.offset && s.rows <= s'.rows && s.completed <= s'.completed
  }

  lemma StepExtends(s: Stream, event: Event)
    requires Inv(s) && Possible(s, event)
    ensures Extends(s, Step(s, event))
  {
    StepKeepsInv(s, event);
    hide LogInv, AlertInv;
  }

  lemma {:induction false} RunExtends(states: seq<Stream>, events: seq<Event>, i: nat, j: nat)
    requires IsRun(states, events) && i <= j < |states|
    ensures Extends(states[i], states[j])
    decreases j - i
  {
    if i < j {
      RunKeepsInv(states, events, i);
      RunExtends(states, events, i + 1, j);
      hide IsRun, Inv, Step, Possible;
      assert Extends(states[i], states[i + 1]) by { RunStepExtends(states, events, i); }
    }
  }

  lemma RunStepExtends(states: seq<Stream>, events: seq<Event>, i: nat)
    requires IsRun(states, events) && i < |events|
    ensures Extends(states[i], states[i + 1])
  {
    RunKeepsInv(states, events, i);
    hide Inv, Step, Possible, Extends;
    StepExtends(states[i], events[i]);
  }

  /** The record at `k` was in the input of a completed processing of its tenant; that input is the
      tenant's events of one stretch of the stream, in order, and all its hashes were in the list
      evaluated. */
  ghost predicate Processed(s: Stream, k: nat)
    requires k < |s.log| && s.log[k].Decoded?
  {
    exists c ::
      && 0 <= c < |s.completed|
      && var p := s.completed[c];
      && p.tenant == s.log[k].event.tenant
      && p.start <= k < p.end <= |s.log|
      && p.input == EventsOf(s.log[p.start..p.end], p.tenant)
      && s.log[k].event in p.input
      && HashesOf(p.input) <= HashesOf(p.merged)
  }

  lemma InputHasEvent(log: seq<Record>, p: Completion, k: nat)
    requires Faithful(log, p) && p.start <= k < p.end && log[k].Decoded? && log[k].event.tenant == p.tenant
    ensures log[k].event in p.input
  {
    hide HashesOf;
    assert log[p.start..p.end][k - p.start] == log[k];
    EventIsListed(log[p.start..p.end], k - p.start);
  }

  lemma CommittedRecord(s: Stream, k: nat)
    requires LogInv(s) && k < s.offset
    ensures s.offset <= |s.log| && !s.log[k].Garbage? && Consumed(s.log, s.completed, k)
    ensures AllFaithful(s.log, s.completed)
  {
    assert s.log[..s.offset][k] == s.log[k];
    hide Consumed, AllFaithful, PhaseOk;
  }

  lemma CommittedIsProcessed(s: Stream, k: nat)
    requires LogInv(s) && k < s.offset
    ensures s.offset <= |s.log| && !s.log[k].Garbage?
    ensures s.log[k].Decoded? ==> Processed(s, k)
  {
    hide LogInv, HashesOf, NoGarbage, EventsOf;
    CommittedRecord(s, k);
    if s.log[k].Decoded? {
      var c :| 0 <= c < |s.completed| && s.completed[c].tenant == s.log[k].event.tenant
               && s.completed[c].start <= k < s.completed[c].end;
      InputHasEvent(s.log, s.completed[c], k);
    }
  }

  /** Wherever ticks fail, the committed offset never goes back, never passes a record that does not
      decode, and every decodable record below it has been processed. */
  lemma CommittedRecordsWereProcessed(states: seq<Stream>, events: seq<Event>, i: nat, j: nat, k: nat)
    requires IsRun(states, events) && i <= j < |states| && k < states[j].offset
    ensures states[i].offset <= states[j].offset <= |states[j].log|
    ensures !states[j].log[k].Garbage?
    ensures states[j].log[k].Decoded? ==> Processed(states[j], k)
  {
    RunKeepsInv(states, events, j);
    RunExtends(states, events, i, j);
    hide IsRun, LogInv, AlertInv, Processed;
    CommittedIsProcessed(states[j], k);
  }

  /** A record that does not decode stops the stream: the offset never passes it. */
  lemma GarbageBlocks(states: seq<Stream>, events: seq<Event>, i: nat, j: nat, k: nat)
    requires IsRun(states, events) && i <= j < |states| && k < |states[i].log| && states[i].log[k].Garbage?
    ensures states[j].offset <= k
  {
    RunExtends(states, events, i, j);
    assert states[j].log[k] == states[i].log[k];
    if k < states[j].offset {
      CommittedRecordsWereProcessed(states, events, i, j, k);
    }
  }

  ghost predicate IsStored(rows: seq<AlertRow>, alert: Alert) {
    exists a :: 0 <= a < |rows| && RowKey(rows[a]) == AlertKey(alert)
  }

  lemma FoundIsStored(s: Stream, c: nat, alert: Alert)
    requires AlertInv(s) && c < |s.completed| && alert in s.completed[c].evaluated
    ensures IsStored(s.rows, alert)
  {
    hide AlertKey, RowKey, StoreOk, WorkOk;
    assert AlertKey(alert) in KeysOf(s.completed[c].evaluated);
    assert AlertKey(alert) in StoredKeys(s.rows);
    var row :| row in s.rows && RowKey(row) == AlertKey(alert);
    var a :| 0 <= a < |s.rows| && s.rows[a] == row;
  }

  lemma StoredOnce(s: Stream)
    requires AlertInv(s)
    ensures forall a, b | 0 <= a < b < |s.rows| :: RowKey(s.rows[a]) != RowKey(s.rows[b])
    ensures forall a | 0 <= a < |s.rows| :: RowKey(s.rows[a]) in s.mitigated
  {
    hide AlertKey, RowKey, WorkOk;
    forall a | 0 <= a < |s.rows| ensures RowKey(s.rows[a]) in s.mitigated {
      assert s.rows[a] in s.rows && RowKey(s.rows[a]) in StoredKeys(s.rows);
    }
  }

  /** Wherever ticks fail, no tenant's alert signature is stored twice; every stored alert was covered
      by a mitigation pass that had returned; and once a processing is complete the signature of every
      alert it found is stored, for good. */
  lemma AlertsStoredOnceAfterMitigation(states: seq<Stream>, events: seq<Event>, i: nat, j: nat)
    requires IsRun(states, events) && i <= j < |states|
    ensures forall a, b | 0 <= a < b < |states[j].rows| :: RowKey(states[j].rows[a]) != RowKey(states[j].rows[b])
    ensures forall a | 0 <= a < |states[j].rows| :: RowKey(states[j].rows[a]) in states[j].mitigated
    ensures forall c: nat, alert | c < |states[i].completed| && alert in states[i].completed[c].evaluated ::
              IsStored(states[j].rows, alert)
  {
    RunKeepsInv(states, events, j);
    RunExtends(states, events, i, j);
    hide IsRun, LogInv, AlertInv, AlertKey, RowKey, IsStored;
    StoredOnce(states[j]);
    forall c: nat, alert | c < |states[i].completed| && alert in states[i].completed[c].evaluated
      ensures IsStored(states[j].rows, alert)
    {
      assert states[j].completed[c] == states[i].completed[c];
      FoundIsStored(states[j], c, alert);
    }
  }

  // ----- What a crash loses -----

  /** A processing is about to do its `part` for the alert. */
  ghost predicate About(s: Stream, part: Part, key: Key) {
    AtPart(s.phase, part) && AlertKey(Current(s.phase)) == key
  }

  /** The alert is stored, its hit is not, and no processing is about to store it. */
  ghost predicate HitLost(s: Stream, key: Key) {
    key in StoredKeys(s.rows) && key !in KeysOf(s.hits) && !About(s, SavingHit, key)
  }

  /** The hit is stored, its notice has not been sent, and no processing is about to send it. */
  ghost predicate NoticeLost(s: Stream, key: Key) {
    key in KeysOf(s.hits) && key !in KeysOf(s.notes) && !About(s, Notifying, key)
  }

  /** What has been done for the alert whose turn it is. */
  lemma PartFacts(s: Stream, part: Part, key: Key)
    requires AlertInv(s) && About(s, part, key)
    ensures part.SavingAlert? ==> key !in StoredKeys(s.rows)
    ensures part.SavingHit? ==> key in StoredKeys(s.rows) && key !in KeysOf(s.hits)
    ensures part.Notifying? ==> key in KeysOf(s.hits) && key !in KeysOf(s.notes)
  {
    hide AlertKey, RowKey, StoreOk, AlertsStored, StoredKeys, KeysOf;
  }

  lemma HitIsStored(s: Stream, key: Key)
    requires AlertInv(s)
    ensures key in KeysOf(s.notes) ==> key in KeysOf(s.hits)
    ensures key in KeysOf(s.hits) ==> key in StoredKeys(s.rows)
  {
    hide AlertKey, RowKey, StoredKeys, KeysOf, AlertsStored, WorkOk;
  }

  /** Only saving, notifying and crashing change what is stored or what is about to be. */
  lemma QuietStep(s: Stream, event: Event, part: Part, key: Key)
    requires InRange(s) && Possible(s, event) && !part.SavingAlert?
    requires !(event.SaveAlert? || event.SaveHit? || event.Notify? || event.Crash?)
    ensures var s' := Step(s, event);
            s'.rows == s.rows && s'.hits == s.hits && s'.notes == s.notes && (About(s', part, key) <==> About(s, part, key))
  {
    hide AlertKey, RowFor, KeysOf, StoredKeys, IsEvaluation;
  }

  /** One step loses the hit of an alert, or leaves it lost, exactly if it was lost or the step is a crash
      when the hit was about to be stored. */
  lemma StepLosesHit(s: Stream, event: Event, key: Key)
    requires Inv(s) && Possible(s, event)
    ensures HitLost(Step(s, event), key) <==> HitLost(s, key) || (event.Crash? && About(s, SavingHit, key))
  {
    hide LogInv, AlertInv, AlertKey, RowKey, KeysOf, StoredKeys, RowFor;
    HitIsStored(s, key);
    if About(s, SavingHit, key) { PartFacts(s, SavingHit, key); }
    if event.SaveAlert? {
      if About(s, SavingAlert, key) { PartFacts(s, SavingAlert, key); }
      RowKeyOfAlert(Current(s.phase));
      StoredKeysMore(s.rows, RowFor(Current(s.phase)));
    } else if event.SaveHit? {
      KeysOfMore(s.hits, Current(s.phase));
    } else if !event.Notify? && !event.Crash? {
      QuietStep(s, event, SavingHit, key);
      hide Step, About;
    }
  }

  lemma StepLosesNotice(s: Stream, event: Event, key: Key)
    requires Inv(s) && Possible(s, event)
    ensures NoticeLost(Step(s, event), key) <==> NoticeLost(s, key) || (event.Crash? && About(s, Notifying, key))
  {
    hide LogInv, AlertInv, AlertKey, RowKey, KeysOf, StoredKeys, RowFor;
    HitIsStored(s, key);
    if About(s, Notifying, key) { PartFacts(s, Notifying, key); }
    if event.SaveHit? {
      if About(s, SavingHit, key) { PartFacts(s, SavingHit, key); }
      KeysOfMore(s.hits, Current(s.phase));
    } else if event.Notify? {
      KeysOfMore(s.notes, Current(s.phase));
    } else if !event.SaveAlert? && !event.Crash? {
      QuietStep(s, event, Notifying, key);
      hide Step, About;
    }
  }

  /** A tick crashed at `m` when its next step was this part for the alert. */
  ghost predicate CrashedAt(states: seq<Stream>, events: seq<Event>, m: nat, part: Part, key: Key)
    requires m < |events| && m < |states|
  {
    events[m].Crash? && About(states[m], part, key)
  }

  ghost predicate CrashedBefore(states: seq<Stream>, events: seq<Event>, j: nat, part: Part, key: Key)
    requires j <= |events| && |events| < |states|
  {
    exists m: nat :: m < j && CrashedAt(states, events, m, part, key)
  }

  lemma CrashedBeforeNext(states: seq<Stream>, events: seq<Event>, j: nat, part: Part, key: Key)
    requires j < |events| && |events| < |states|
    ensures CrashedBefore(states, events, j + 1, part, key)
       <==> CrashedBefore(states, events, j, part, key) || CrashedAt(states, events, j, part, key)
  {
    hide CrashedAt;
    if CrashedAt(states, events, j, part, key) {
      assert exists m: nat :: m < j + 1 && CrashedAt(states, events, m, part, key);
    }
  }

  lemma RunStepLoses(states: seq<Stream>, events: seq<Event>, i: nat, key: Key)
    requires IsRun(states, events) && i < |events|
    ensures HitLost(states[i + 1], key) <==> HitLost(states[i], key) || CrashedAt(states, events, i, SavingHit, key)
    ensures NoticeLost(states[i + 1], key) <==>
              NoticeLost(states[i], key) || CrashedAt(states, events, i, Notifying, key)
  {
    RunKeepsInv(states, events, i);
    assert states[i + 1] == Step(states[i], events[i]) && Possible(states[i], events[i]);
    hide IsRun, Inv, Step, Possible, HitLost, NoticeLost, About;
    StepLosesHit(states[i], events[i], key);
    StepLosesNotice(states[i], events[i], key);
  }

  lemma NothingLostYet(states: seq<Stream>, events: seq<Event>, key: Key)
    requires IsRun(states, events)
    ensures |events| < |states| && !HitLost(states[0], key) && !NoticeLost(states[0], key)
    ensures forall part :: !CrashedBefore(states, events, 0, part, key)
  {
  }

  /** In every run the hits that are lost are exactly those whose alert had been stored when a tick
      crashed before storing the hit. */
  lemma {:induction false} HitLostExactly(states: seq<Stream>, events: seq<Event>, j: nat, key: Key)
    requires IsRun(states, events) && j < |states|
    ensures HitLost(states[j], key) <==> CrashedBefore(states, events, j, SavingHit, key)
  {
    assert |states| == |events| + 1;
    hide IsRun, HitLost, NoticeLost, CrashedAt, CrashedBefore;
    if j == 0 {
      NothingLostYet(states, events, key);
    } else {
      HitLostExactly(states, events, j - 1, key);
      RunStepLoses(states, events, j - 1, key);
      CrashedBeforeNext(states, events, j - 1, SavingHit, key);
    }
  }

  /** A crash between storing a hit and sending its notice loses the notice alone, and nothing else does. */
  lemma {:induction false} NoticeLostExactly(states: seq<Stream>, events: seq<Event>, j: nat, key: Key)
    requires IsRun(states, events) && j < |states|
    ensures NoticeLost(states[j], key) <==> CrashedBefore(states, events, j, Notifying, key)
  {
    assert |states| == |events| + 1;
    hide IsRun, HitLost, NoticeLost, CrashedAt, CrashedBefore;
    if j == 0 {
      NothingLostYet(states, events, key);
    } else {
      NoticeLostExactly(states, events, j - 1, key);
      RunStepLoses(states, events, j - 1, key);
      CrashedBeforeNext(states, events, j - 1, Notifying, key);
    }
  }

  /** A lost hit stays lost, and its notice is never sent: the alert now counts as known. */
  lemma {:induction false} LostHitIsNeverStored(states: seq<Stream>, events: seq<Event>, i: nat, j: nat, key: Key)
    requires IsRun(states, events) && i <= j < |states| && HitLost(states[i], key)
    ensures key !in KeysOf(states[j].hits) && key !in KeysOf(states[j].notes)
  {
    HitLostExactly(states, events, i, key);
    HitLostExactly(states, events, j, key);
    RunKeepsInv(states, events, j);
    HitIsStored(states[j], key);
    hide IsRun, Inv, CrashedAt, KeysOf, StoredKeys;
  }

  /** Crashing right after an alert is stored is such a loss. */
  lemma CrashLosesHit(states: seq<Stream>, events: seq<Event>, i: nat)
    requires IsRun(states, events) && i + 1 < |events| && events[i].SaveAlert? && events[i + 1].Crash?
    ensures AtPart(states[i].phase, SavingAlert) && HitLost(states[i + 2], AlertKey(Current(states[i].phase)))
  {
    assert Possible(states[i], events[i]) && InRange(states[i]) && states[i + 1] == Step(states[i], SaveAlert);
    assert |states| == |events| + 1;
    hide IsRun, Step, Possible, InRange, HitLost, About, AlertKey;
    var key := AlertKey(Current(states[i].phase));
    SavedAlertAwaitsHit(states[i]);
    assert CrashedAt(states, events, i + 1, SavingHit, key);
    HitLostExactly(states, events, i + 2, key);
  }

  lemma SavedAlertAwaitsHit(s: Stream)
    requires InRange(s) && Possible(s, SaveAlert)
    ensures About(Step(s, SaveAlert), SavingHit, AlertKey(Current(s.phase)))
  {
    hide AlertKey, RowFor;
  }
}
