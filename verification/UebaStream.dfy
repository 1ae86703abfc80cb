/** The consumer of the audit stream as a machine. A tick fetches records after the committed offset,
    stages them by tenant, processes each tenant and commits; an error or a crash may end it between
    any two steps, and the next tick starts again from what has been stored. */
module UebaStream {
  import Alerts = UebaAlerts

  type Tenant = string
  type Hash = string
  type Alert = Alerts.UebaAlert

  /** A tenant and the signature of one of its alerts. */
  type Key = (Tenant, string)

  datatype AuditEvent = AuditEvent(hash: Hash, tenant: Tenant, body: string)

  /** A record of the stream has no payload, or one that does not decode, or an event. */
  datatype Record = Tombstone | Garbage | Decoded(event: AuditEvent)

  type Staged = map<Tenant, seq<AuditEvent>>

  datatype AlertRow = AlertRow(alertId: string, tenant: Tenant, user: string, action: Alerts.MitigationAction,
                               reason: string)

  /** What is done for an alert once the mitigation pass has returned. */
  datatype Part = SavingAlert | SavingHit | Notifying

  /** How far the processing of a tenant has come. */
  datatype Work =
    | Merged
    | Selected(evaluated: seq<Alert>, pending: seq<Alert>)
    | Saving(evaluated: seq<Alert>, pending: seq<Alert>, next: nat, part: Part)

  datatype Phase =
    | Idle
    | Staging(upTo: nat, next: nat, staged: Staged)
    | Working(upTo: nat, staged: Staged, tenant: Tenant, merged: seq<AuditEvent>, work: Work)

  /** A processing of a tenant that ran to its end: the events staged for it, the list it evaluated
      and the alerts found. It was run for the records from `start` up to `end`. */
  datatype Completion = Completion(tenant: Tenant, start: nat, end: nat, input: seq<AuditEvent>,
                                   merged: seq<AuditEvent>, evaluated: seq<Alert>)

  /** `mitigated` and `completed` record what has happened; nothing reads them. */
  datatype Stream = Stream(
    log: seq<Record>,
    trail: seq<AuditEvent>,
    offset: nat,
    rows: seq<AlertRow>,
    hits: seq<Alert>,
    notes: seq<Alert>,
    mitigated: set<Key>,
    completed: seq<Completion>,
    phase: Phase)

  datatype Event =
    | Publish(record: Record)
    | Audit(event: AuditEvent)
    | Fetch(upTo: nat)
    | StageOne
    | StartTenant(tenant: Tenant)
    | Evaluate(alerts: seq<Alert>)
    | Mitigate
    | SaveAlert
    | SaveHit
    | Notify
    | FinishTenant
    | Commit
    | Crash

  // ----- Keys -----

  function AlertKey(alert: Alert): Key {
    (alert.tenantId, Alerts.AlertSignature(alert))
  }

  function RowKey(row: AlertRow): Key {
    (row.tenant, Alerts.StoredSignature(row.user, row.reason))
  }

  function RowFor(alert: Alert): AlertRow {
    AlertRow(alert.alertId, alert.tenantId, alert.userId, alert.action, Alerts.EncodeReason(alert))
  }

  /** The signature rebuilt from a stored row is that of the alert it was stored for. */
  lemma RowKeyOfAlert(alert: Alert)
    ensures RowKey(RowFor(alert)) == AlertKey(alert)
  {
    Alerts.SignaturesAgree(alert);
  }

  /** An alert can be had back from its row: the row keeps its ids, tenant, user and action, and the rest
      is what its reason decodes to. */
  lemma RowKeepsAlert(alert: Alert)
    ensures var row, decoded := RowFor(alert), Alerts.DecodeReason(RowFor(alert).reason);
            && decoded.Ok?
            && alert == Alerts.UebaAlert(row.alertId, row.user, row.tenant, decoded.value.0, decoded.value.1, row.action,
                                         decoded.value.2)
  {
    Alerts.DecodeAfterEncode(alert);
    hide Alerts.DecodeReason, Alerts.EncodeReason;
  }

  function StoredKeys(rows: seq<AlertRow>): set<Key> {
    set row | row in rows :: RowKey(row)
  }

  function KeysOf(alerts: seq<Alert>): set<Key> {
    set alert | alert in alerts :: AlertKey(alert)
  }

  predicate DistinctKeys(alerts: seq<Alert>) {
    forall i, j | 0 <= i < j < |alerts| :: AlertKey(alerts[i]) != AlertKey(alerts[j])
  }

  // ----- Staging and merging -----

  /** The events of a tenant among the records, in their order. */
  function EventsOf(records: seq<Record>, tenant: Tenant): seq<AuditEvent> {
    if records == [] then []
    else
      var last := records[|records| - 1];
      EventsOf(records[..|records| - 1], tenant)
      + (if last.Decoded? && last.event.tenant == tenant then [last.event] else [])
  }

  function Appended(staged: Staged, event: AuditEvent): Staged {
    staged[event.tenant := (if event.tenant in staged then staged[event.tenant] else []) + [event]]
  }

  function HashesOf(events: seq<AuditEvent>): set<Hash> {
    set event | event in events :: event.hash
  }

  /** The events whose hash is neither known nor carried by an earlier one. */
  function Unseen(known: set<Hash>, events: seq<AuditEvent>): seq<AuditEvent> {
    if events == [] then []
    else
      var before, last := events[..|events| - 1], events[|events| - 1];
      Unseen(known, before) + (if last.hash in known || last.hash in HashesOf(before) then [] else [last])
  }

  function TrailOf(trail: seq<AuditEvent>, tenant: Tenant): seq<AuditEvent> {
    if trail == [] then []
    else TrailOf(trail[..|trail| - 1], tenant)
         + (if trail[|trail| - 1].tenant == tenant then [trail[|trail| - 1]] else [])
  }

  function MergedWith(stored: seq<AuditEvent>, staged: seq<AuditEvent>): seq<AuditEvent> {
    stored + Unseen(HashesOf(stored), staged)
  }

  /** The alerts whose signature is not stored yet, in their order. */
  function NewAlerts(alerts: seq<Alert>, stored: set<Key>): seq<Alert> {
    if alerts == [] then []
    else NewAlerts(alerts[..|alerts| - 1], stored)
         + (if AlertKey(alerts[|alerts| - 1]) in stored then [] else [alerts[|alerts| - 1]])
  }

  // ----- Steps -----

  /** What is taken from evaluation: it blames its tenant, each signature once. */
  ghost predicate IsEvaluation(alerts: seq<Alert>, tenant: Tenant) {
    DistinctKeys(alerts) && forall alert | alert in alerts :: alert.tenantId == tenant
  }

  ghost predicate Possible(s: Stream, event: Event) {
    match event
    case Publish(record) => true
    case Audit(audited) => true
    case Fetch(upTo) => s.phase.Idle? && s.offset < upTo <= |s.log|
    case StageOne => s.phase.Staging? && s.phase.next < s.phase.upTo
    case StartTenant(tenant) => s.phase.Staging? && s.phase.next == s.phase.upTo && tenant in s.phase.staged
    case Evaluate(alerts) => s.phase.Working? && s.phase.work.Merged? && IsEvaluation(alerts, s.phase.tenant)
    case Mitigate => s.phase.Working? && s.phase.work.Selected?
    case SaveAlert => AtPart(s.phase, SavingAlert)
    case SaveHit => AtPart(s.phase, SavingHit)
    case Notify => AtPart(s.phase, Notifying)
    case FinishTenant =>
      s.phase.Working? && s.phase.work.Saving? && s.phase.work.next == |s.phase.work.pending|
    case Commit => s.phase.Staging? && s.phase.next == s.phase.upTo && s.phase.staged == map[]
    case Crash => true
  }

  predicate AtPart(phase: Phase, part: Part) {
    && phase.Working? && phase.work.Saving? && phase.work.part == part
    && phase.work.next < |phase.work.pending|
  }

  function Current(phase: Phase): Alert
    requires phase.Working? && phase.work.Saving? && phase.work.next < |phase.work.pending|
  {
    phase.work.pending[phase.work.next]
  }

  ghost predicate InRange(s: Stream) {
    s.phase.Staging? ==> s.phase.next <= s.phase.upTo <= |s.log|
  }

  ghost function Step(s: Stream, event: Event): Stream
    requires InRange(s) && Possible(s, event)
  {
    match event
    case Publish(record) => s.(log := s.log + [record])
    case Audit(audited) => s.(trail := s.trail + [audited])
    case Fetch(upTo) => s.(phase := Staging(upTo, s.offset, map[]))
    case StageOne =>
      var record := s.log[s.phase.next];
      s.(phase := if record.Garbage? then Idle
                  else s.phase.(next := s.phase.next + 1,
                                staged := if record.Decoded? then Appended(s.phase.staged, record.event)
                                          else s.phase.staged))
    case StartTenant(tenant) =>
      s.(phase := Working(s.phase.upTo, s.phase.staged, tenant,
                          MergedWith(TrailOf(s.trail, tenant), s.phase.staged[tenant]), Merged))
    case Evaluate(alerts) =>
      s.(phase := s.phase.(work := Selected(alerts, NewAlerts(alerts, StoredKeys(s.rows)))))
    case Mitigate =>
      s.(phase := s.phase.(work := Saving(s.phase.work.evaluated, s.phase.work.pending, 0, SavingAlert)),
         mitigated := s.mitigated + KeysOf(s.phase.work.pending))
    case SaveAlert =>
      s.(rows := s.rows + [RowFor(Current(s.phase))],
         phase := s.phase.(work := s.phase.work.(part := SavingHit)))
    case SaveHit =>
      s.(hits := s.hits + [Current(s.phase)],
         phase := s.phase.(work := s.phase.work.(part := Notifying)))
    case Notify =>
      s.(notes := s.notes + [Current(s.phase)],
         phase := s.phase.(work := s.phase.work.(next := s.phase.work.next + 1, part := SavingAlert)))
    case FinishTenant =>
      var tenant := s.phase.tenant;
      s.(completed := s.completed + [Completion(tenant, s.offset, s.phase.upTo,
                                                if tenant in s.phase.staged then s.phase.staged[tenant] else [],
                                                s.phase.merged, s.phase.work.evaluated)],
         phase := Staging(s.phase.upTo, s.phase.upTo, s.phase.staged - {tenant}))
    case Commit => s.(offset := s.phase.upTo, phase := Idle)
    case Crash => s.(phase := Idle)
  }
}
