/** Versions of classification rules. Each statement of the store is atomic, and so is the
    transaction that activates; creating reads the next number and inserts in two statements, between
    which other requests may run. */
module ClassificationRules {
  import opened Wrappers

  type Time = int
  type RowId = string
  type RequestId = nat

  /** A project and one of its data sources. */
  datatype Scope = Scope(project: string, dataSource: string)

  datatype Status = Draft | Active | Retired

  datatype Row = Row(scope: Scope, number: nat, status: Status, activatedAt: Option<Time>, retiredAt: Option<Time>)

  type Rows = map<RowId, Row>

  /** The store, and the creations that have read their number and not yet inserted. */
  datatype Catalog = Catalog(rows: Rows, creating: map<RequestId, (Scope, nat)>)

  datatype Event =
    | ReadNumber(request: RequestId, scope: Scope, number: nat)
    | Insert(request: RequestId, id: RowId)
    | Activate(scope: Scope, id: RowId, now: Time)
    | Retire(scope: Scope, id: RowId, now: Time)

  /** One past the largest number in use, starting at one. */
  ghost predicate IsNext(rows: Rows, scope: Scope, number: nat) {
    && number >= 1
    && (forall id | id in rows && rows[id].scope == scope :: rows[id].number < number)
    && (number == 1 || exists id :: id in rows && rows[id].scope == scope && rows[id].number + 1 == number)
  }

  /** The insert the store accepts: a new id, and a number not in use. */
  ghost predicate Insertable(rows: Rows, id: RowId, scope: Scope, number: nat) {
    id !in rows && forall other | other in rows && rows[other].scope == scope :: rows[other].number != number
  }

  function RetireOthers(rows: Rows, scope: Scope, id: RowId, now: Time): Rows {
    map other | other in rows ::
      if rows[other].scope == scope && rows[other].status == Active && other != id
      then rows[other].(status := Retired, retiredAt := Some(now))
      else rows[other]
  }

  predicate CanActivate(rows: Rows, scope: Scope, id: RowId) {
    id in rows && rows[id].scope == scope && rows[id].status != Retired
  }

  function Activated(rows: Rows, scope: Scope, id: RowId, now: Time): Rows {
    var rest := RetireOthers(rows, scope, id, now);
    if CanActivate(rest, scope, id)
    then rest[id := rest[id].(status := Active, activatedAt := Some(now), retiredAt := None)]
    else rest
  }

  function RetiredRow(rows: Rows, scope: Scope, id: RowId, now: Time): Rows {
    if id in rows && rows[id].scope == scope
    then rows[id := rows[id].(status := Retired, retiredAt := Some(now))]
    else rows
  }

  ghost predicate Possible(c: Catalog, event: Event) {
    match event
    case ReadNumber(request, scope, number) => request !in c.creating && IsNext(c.rows, scope, number)
    case Insert(request, id) => request in c.creating && id !in c.rows
    case Activate(scope, id, now) => true
    case Retire(scope, id, now) => true
  }

  /** A refused insert is an error of its request and changes no row. */
  ghost function Step(c: Catalog, event: Event): Catalog
    requires Possible(c, event)
  {
    match event
    case ReadNumber(request, scope, number) => c.(creating := c.creating[request := (scope, number)])
    case Insert(request, id) =>
      var (scope, number) := c.creating[request];
      Catalog(if Insertable(c.rows, id, scope, number) then c.rows[id := Row(scope, number, Draft, None, None)]
              else c.rows,
              c.creating - {request})
    case Activate(scope, id, now) => c.(rows := Activated(c.rows, scope, id, now))
    case Retire(scope, id, now) => c.(rows := RetiredRow(c.rows, scope, id, now))
  }

  // ----- Invariants -----

  function ActiveOf(rows: Rows, scope: Scope): set<RowId> {
    set id | id in rows && rows[id].scope == scope && rows[id].status == Active
  }

  ghost predicate OneActive(rows: Rows) {
    forall a, b | a in rows && b in rows && rows[a].status == Active && rows[b].status == Active
                  && rows[a].scope == rows[b].scope :: a == b
  }

  ghost predicate Numbered(rows: Rows) {
    forall a, b | a in rows && b in rows && rows[a].scope == rows[b].scope && rows[a].number == rows[b].number ::
      a == b
  }

  ghost predicate Stamped(rows: Rows) {
    forall id | id in rows :: rows[id].status == Retired <==> rows[id].retiredAt.Some?
  }

  predicate Taken(rows: Rows, scope: Scope, number: nat) {
    exists id :: id in rows && rows[id].scope == scope && rows[id].number == number
  }

  /** A number read for a creation is still the next one, unless someone has taken it since. */
  ghost predicate Readings(c: Catalog) {
    forall request | request in c.creating ::
      var (scope, number) := c.creating[request];
      number >= 1 && (IsNext(c.rows, scope, number) || Taken(c.rows, scope, number))
  }

  ghost predicate Inv(c: Catalog) {
    OneActive(c.rows) && Numbered(c.rows) && Stamped(c.rows) && Readings(c)
  }

  /** No row is lost, none changes its scope or number, and a retired one stays retired. */
  ghost predicate Ages(rows: Rows, rows': Rows) {
    forall id | id in rows ::
      && id in rows'
      && rows'[id].scope == rows[id].scope && rows'[id].number == rows[id].number
      && (rows[id].status == Retired ==> rows'[id].status == Retired)
  }

  // ----- Activation -----

  /** Afterwards exactly the target is active in its scope, if it exists there and is not retired,
      and nothing is otherwise; other scopes do not change. */
  lemma ActivationIsExact(rows: Rows, scope: Scope, id: RowId, now: Time)
    ensures var rows' := Activated(rows, scope, id, now);
            && rows'.Keys == rows.Keys
            && ActiveOf(rows', scope) == (if CanActivate(rows, scope, id) then {id} else {})
            && forall other | other in rows && rows[other].scope != scope :: rows'[other] == rows[other]
  {
    var rows' := Activated(rows, scope, id, now);
    assert forall other | other in rows && other != id :: rows'[other] == RetireOthers(rows, scope, id, now)[other];
  }

  /** What an activation leaves of every version: the target, if it is in the scope and not retired, is
      active from now on; another version that was active in the scope is retired from now on; the rest is
      unchanged. */
  lemma ActivationOutcome(rows: Rows, scope: Scope, id: RowId, now: Time)
    ensures var rows' := Activated(rows, scope, id, now);
            && rows'.Keys == rows.Keys
            && forall other | other in rows ::
                 var was, row := rows[other], rows'[other];
                 && row.scope == was.scope && row.number == was.number
                 && if other == id && was.scope == scope && was.status != Retired then
                      row.status == Active && row.activatedAt == Some(now) && row.retiredAt == None
                    else if other != id && was.scope == scope && was.status == Active then
                      row.status == Retired && row.activatedAt == was.activatedAt && row.retiredAt == Some(now)
                    else row == was
  {
  }

  /** Retiring a version of the scope retires it from now on, whatever it was; any other id, and every other
      version, stays as it is. */
  lemma RetirementOutcome(rows: Rows, scope: Scope, id: RowId, now: Time)
    ensures var rows' := RetiredRow(rows, scope, id, now);
            && rows'.Keys == rows.Keys
            && forall other | other in rows ::
                 var was, row := rows[other], rows'[other];
                 if other == id && was.scope == scope then
                   && row.scope == scope && row.number == was.number
                   && row.status == Retired && row.activatedAt == was.activatedAt && row.retiredAt == Some(now)
                 else row == was
    ensures id in rows && rows[id].scope == scope ==>
              ActiveOf(RetiredRow(rows, scope, id, now), scope) == ActiveOf(rows, scope) - {id}
  {
  }

  /** A creation with nothing in between is accepted and files a draft under the number it has read. */
  lemma UndisturbedCreation(c: Catalog, request: RequestId, scope: Scope, number: nat, id: RowId)
    requires request !in c.creating && IsNext(c.rows, scope, number) && id !in c.rows
    ensures var read := Step(c, ReadNumber(request, scope, number));
            && Possible(read, Insert(request, id))
            && Step(read, Insert(request, id)) == c.(rows := c.rows[id := Row(scope, number, Draft, None, None)])
  {
    assert c.creating[request := (scope, number)] - {request} == c.creating;
  }

  /** Activating a missing or retired version is answered as not found. Such an answer means that
      nothing has changed exactly when no other version of the scope was active. */
  lemma NotFoundMayStillRetire(rows: Rows, scope: Scope, id: RowId, now: Time)
    requires !CanActivate(rows, scope, id)
    ensures Activated(rows, scope, id, now) == rows <==> ActiveOf(rows, scope) == {}
  {
    var rows' := Activated(rows, scope, id, now);
    if ActiveOf(rows, scope) == {} {
      forall other | other in rows ensures rows'[other] == rows[other] {
        assert other !in ActiveOf(rows, scope);
      }
    } else {
      var other :| other in ActiveOf(rows, scope);
      assert rows'[other].status == Retired;
    }
  }

  // ----- Every step -----

  lemma AgingKeepsReadings(c: Catalog, rows': Rows)
    requires Readings(c) && Ages(c.rows, rows') && rows'.Keys == c.rows.Keys
    ensures Readings(c.(rows := rows'))
  {
    forall request | request in c.creating
      ensures var (scope, number) := c.creating[request];
              number >= 1 && (IsNext(rows', scope, number) || Taken(rows', scope, number))
    {
      var (scope, number) := c.creating[request];
      if Taken(c.rows, scope, number) {
        var id :| id in c.rows && c.rows[id].scope == scope && c.rows[id].number == number;
        assert id in rows' && rows'[id].scope == scope;
      } else if number > 1 {
        var id :| id in c.rows && c.rows[id].scope == scope && c.rows[id].number + 1 == number;
        assert id in rows' && rows'[id].scope == scope;
      }
    }
  }

  lemma ActivateKeepsInv(c: Catalog, scope: Scope, id: RowId, now: Time)
    requires Inv(c)
    ensures var rows' := Activated(c.rows, scope, id, now);
            Inv(c.(rows := rows')) && Ages(c.rows, rows')
  {
    var rows, rows' := c.rows, Activated(c.rows, scope, id, now);
    ActivationIsExact(rows, scope, id, now);
    assert Ages(rows, rows');
    assert Stamped(rows');
    forall a, b | a in rows' && b in rows' && rows'[a].status == Active && rows'[b].status == Active
                  && rows'[a].scope == rows'[b].scope
      ensures a == b
    {
      if rows'[a].scope == scope { assert a in ActiveOf(rows', scope) && b in ActiveOf(rows', scope); }
    }
    hide Readings, Activated, OneActive;
    AgingKeepsReadings(c, rows');
  }

  lemma RetireKeepsInv(c: Catalog, scope: Scope, id: RowId, now: Time)
    requires Inv(c)
    ensures var rows' := RetiredRow(c.rows, scope, id, now);
            Inv(c.(rows := rows')) && Ages(c.rows, rows')
  {
    hide Readings;
    AgingKeepsReadings(c, RetiredRow(c.rows, scope, id, now));
  }

  /** The insert is accepted exactly when the number read is still the next one. */
  lemma InsertAccepted(c: Catalog, request: RequestId, id: RowId)
    requires Readings(c) && request in c.creating && id !in c.rows
    ensures var (scope, number) := c.creating[request];
            Insertable(c.rows, id, scope, number) <==> IsNext(c.rows, scope, number)
  {
  }

  lemma InsertKeepsReadings(c: Catalog, id: RowId, scope: Scope, number: nat)
    requires Readings(c) && id !in c.rows && IsNext(c.rows, scope, number)
    ensures Readings(c.(rows := c.rows[id := Row(scope, number, Draft, None, None)]))
  {
    var rows' := c.rows[id := Row(scope, number, Draft, None, None)];
    assert Taken(rows', scope, number) by { assert rows'[id].number == number; }
    forall request | request in c.creating
      ensures var (s, n) := c.creating[request];
              n >= 1 && (IsNext(rows', s, n) || Taken(rows', s, n))
    {
      var (s, n) := c.creating[request];
      if Taken(c.rows, s, n) {
        var other :| other in c.rows && c.rows[other].scope == s && c.rows[other].number == n;
        assert rows'[other].number == n;
      } else if s == scope {
        NextIsOne(c.rows, s, n, number);
      } else if n > 1 {
        var other :| other in c.rows && c.rows[other].scope == s && c.rows[other].number + 1 == n;
        assert rows'[other].number + 1 == n;
      }
    }
  }

  lemma NextIsOne(rows: Rows, scope: Scope, a: nat, b: nat)
    requires IsNext(rows, scope, a) && IsNext(rows, scope, b)
    ensures a == b
  {
  }

  lemma ReadKeepsInv(c: Catalog, request: RequestId, scope: Scope, number: nat)
    requires Inv(c) && request !in c.creating && IsNext(c.rows, scope, number)
    ensures Inv(c.(creating := c.creating[request := (scope, number)]))
  {
    hide Taken, OneActive, Numbered, Stamped;
  }

  lemma EndKeepsInv(c: Catalog, request: RequestId)
    requires Inv(c)
    ensures Inv(c.(creating := c.creating - {request}))
  {
    hide IsNext, Taken, OneActive, Numbered, Stamped;
  }

  lemma InsertKeepsInv(c: Catalog, id: RowId, scope: Scope, number: nat)
    requires Inv(c) && Insertable(c.rows, id, scope, number) && IsNext(c.rows, scope, number)
    ensures var rows' := c.rows[id := Row(scope, number, Draft, None, None)];
            Inv(c.(rows := rows')) && Ages(c.rows, rows')
  {
    hide Readings, IsNext, Taken;
    InsertKeepsReadings(c, id, scope, number);
  }

  lemma StepKeepsInv(c: Catalog, event: Event)
    requires Inv(c) && Possible(c, event)
    ensures Inv(Step(c, event)) && Ages(c.rows, Step(c, event).rows)
  {
    assert Readings(c);
    hide Inv, Readings, IsNext, Taken, OneActive, Numbered, Stamped, Insertable, Activated, RetiredRow;
    if event.ReadNumber? {
      ReadKeepsInv(c, event.request, event.scope, event.number);
    } else if event.Insert? {
      var (scope, number) := c.creating[event.request];
      InsertAccepted(c, event.request, event.id);
      if Insertable(c.rows, event.id, scope, number) {
        InsertKeepsInv(c, event.id, scope, number);
        EndKeepsInv(c.(rows := c.rows[event.id := Row(scope, number, Draft, None, None)]), event.request);
      } else {
        EndKeepsInv(c, event.request);
      }
    } else if event.Activate? {
      ActivateKeepsInv(c, event.scope, event.id, event.now);
    } else {
      RetireKeepsInv(c, event.scope, event.id, event.now);
    }
  }

  // ----- Runs -----

  /** A run from any catalog in order, such as an empty one. */
  ghost predicate IsRun(catalogs: seq<Catalog>, events: seq<Event>) {
    && |catalogs| == |events| + 1
    && Inv(catalogs[0])
    && forall i | 0 <= i < |events| ::
         Possible(catalogs[i], events[i]) && catalogs[i + 1] == Step(catalogs[i], events[i])
  }

  lemma {:induction false} RunKeepsInv(catalogs: seq<Catalog>, events: seq<Event>, i: nat)
    requires IsRun(catalogs, events) && i < |catalogs|
    ensures Inv(catalogs[i])
  {
    if i > 0 {
      RunKeepsInv(catalogs, events, i - 1);
      hide Inv, Step, Possible;
      StepKeepsInv(catalogs[i - 1], events[i - 1]);
    }
  }

  lemma {:induction false} RunAges(catalogs: seq<Catalog>, events: seq<Event>, i: nat, j: nat)
    requires IsRun(catalogs, events) && i <= j < |catalogs|
    ensures Ages(catalogs[i].rows, catalogs[j].rows)
    decreases j - i
  {
    if i < j {
      RunKeepsInv(catalogs, events, i);
      StepKeepsInv(catalogs[i], events[i]);
      RunAges(catalogs, events, i + 1, j);
      hide IsRun, Inv, Step, Possible;
    }
  }

  /** After any sequence of creations, activations and retirements, each scope has at most one active
      version, version numbers are unique within it, and retired means retirement time set. */
  lemma AlwaysOneActive(catalogs: seq<Catalog>, events: seq<Event>, i: nat, scope: Scope)
    requires IsRun(catalogs, events) && i < |catalogs|
    ensures |ActiveOf(catalogs[i].rows, scope)| <= 1
    ensures Numbered(catalogs[i].rows) && Stamped(catalogs[i].rows)
  {
    RunKeepsInv(catalogs, events, i);
    hide IsRun, Readings;
    var active := ActiveOf(catalogs[i].rows, scope);
    if active != {} {
      var only :| only in active;
      assert active == {only};
    }
  }

  /** A retired version never becomes active again. */
  lemma RetiredForGood(catalogs: seq<Catalog>, events: seq<Event>, i: nat, j: nat, id: RowId)
    requires IsRun(catalogs, events) && i <= j < |catalogs|
    requires id in catalogs[i].rows && catalogs[i].rows[id].status == Retired
    ensures id in catalogs[j].rows && catalogs[j].rows[id].status == Retired
    ensures id !in ActiveOf(catalogs[j].rows, catalogs[i].rows[id].scope)
  {
    RunAges(catalogs, events, i, j);
  }

  ghost predicate InsertedInto(before: Catalog, after: Catalog, scope: Scope) {
    exists id :: id in after.rows && id !in before.rows && after.rows[id].scope == scope
  }

  /** A creation that read its number at `i` and inserts at `j` is refused exactly when another
      version of its scope was inserted in between. */
  lemma CreationRefused(catalogs: seq<Catalog>, events: seq<Event>, i: nat, j: nat)
    requires IsRun(catalogs, events) && i < j < |events| && events[i].ReadNumber? && events[j].Insert?
    requires events[j].request in catalogs[j].creating
             && catalogs[j].creating[events[j].request] == (events[i].scope, events[i].number)
    ensures Insertable(catalogs[j].rows, events[j].id, events[i].scope, events[i].number)
       <==> !InsertedInto(catalogs[i], catalogs[j], events[i].scope)
  {
    var scope, number, before, after := events[i].scope, events[i].number, catalogs[i].rows, catalogs[j].rows;
    RunKeepsInv(catalogs, events, j);
    RunAges(catalogs, events, i, j);
    InsertAccepted(catalogs[j], events[j].request, events[j].id);
    assert IsNext(before, scope, number);
    hide IsRun, Inv, Readings;
    if !InsertedInto(catalogs[i], catalogs[j], scope) {
      assert forall id | id in after && after[id].scope == scope :: id in before && after[id].number == before[id].number;
    } else if IsNext(after, scope, number) {
      InsertedRaises(catalogs, events, i, j);
    }
  }

  /** Every number that `after` has and `before` does not is at least what was next in `before`. */
  ghost predicate Raised(before: Rows, after: Rows) {
    forall id, number | id in after && id !in before && IsNext(before, after[id].scope, number) ::
      after[id].number >= number
  }

  /** Every number inserted after a moment is at least what was next then. */
  lemma {:induction false} InsertedRaises(catalogs: seq<Catalog>, events: seq<Event>, i: nat, j: nat)
    requires IsRun(catalogs, events) && i <= j < |catalogs|
    ensures Raised(catalogs[i].rows, catalogs[j].rows)
    decreases j - i
  {
    assert |catalogs| == |events| + 1;
    hide IsRun, Raised;
    if i == j {
      RaisedItself(catalogs[i].rows);
    } else {
      InsertedRaises(catalogs, events, i, j - 1);
      RunStepRaises(catalogs, events, i, j - 1);
    }
  }

  lemma RaisedItself(rows: Rows)
    ensures Raised(rows, rows)
  {
  }

  lemma RunStepRaises(catalogs: seq<Catalog>, events: seq<Event>, i: nat, k: nat)
    requires IsRun(catalogs, events) && i <= k < |events| && Raised(catalogs[i].rows, catalogs[k].rows)
    ensures Raised(catalogs[i].rows, catalogs[k + 1].rows)
  {
    hide Inv, Step, Possible, Raised, Ages, Readings;
    RunKeepsInv(catalogs, events, k);
    RunAges(catalogs, events, i, k);
    ReadingsHold(catalogs[k]);
    StepKeepsRaised(catalogs[i].rows, catalogs[k], events[k]);
  }

  lemma ReadingsHold(c: Catalog)
    requires Inv(c)
    ensures Readings(c)
  {
  }

  lemma StepKeepsRaised(before: Rows, c: Catalog, event: Event)
    requires Ages(before, c.rows) && Readings(c) && Possible(c, event) && Raised(before, c.rows)
    ensures Raised(before, Step(c, event).rows)
  {
    StepRaises(before, c, event);
    hide IsNext, Step, Possible, Readings, Ages;
  }

  lemma StepRaises(before: Rows, c: Catalog, event: Event)
    requires Ages(before, c.rows) && Readings(c) && Possible(c, event)
    ensures var c' := Step(c, event);
            && (forall id | id in c.rows :: id in c'.rows && c'.rows[id].scope == c.rows[id].scope
                                            && c'.rows[id].number == c.rows[id].number)
            && forall id, number | id in c'.rows && id !in c.rows && IsNext(before, c'.rows[id].scope, number) ::
                 c'.rows[id].number >= number
  {
    if event.Insert? {
      var (scope, latest) := c.creating[event.request];
      InsertAccepted(c, event.request, event.id);
      hide IsNext, Insertable, Readings, Ages;
      if Insertable(c.rows, event.id, scope, latest) {
        forall number | IsNext(before, scope, number) ensures latest >= number {
          NextGrows(before, c.rows, scope, number, latest);
        }
      }
    }
  }

  lemma NextGrows(rows: Rows, rows': Rows, scope: Scope, number: nat, number': nat)
    requires Ages(rows, rows') && IsNext(rows, scope, number) && IsNext(rows', scope, number')
    ensures number <= number'
  {
    if number > 1 {
      var id :| id in rows && rows[id].scope == scope && rows[id].number + 1 == number;
      assert id in rows';
    }
  }

  // ----- The store -----

  class ClassificationStore {
    var rows: Rows

    constructor ()
      ensures rows == map[]
    {
      rows := map[];
    }

    method NextNumber(scope: Scope) returns (number: nat)
      ensures IsNext(rows, scope, number)
    {
      var ids, largest := rows.Keys, 0;
      while ids != {}
        invariant ids <= rows.Keys
        invariant forall id | id in rows && id !in ids && rows[id].scope == scope :: rows[id].number <= largest
        invariant largest == 0 || exists id :: id in rows && rows[id].scope == scope && rows[id].number == largest
        decreases |ids|
      {
        var id :| id in ids;
        ids := ids - {id};
        if rows[id].scope == scope && rows[id].number > largest {
          largest := rows[id].number;
        }
      }
      number := largest + 1;
    }

    method Insert(id: RowId, scope: Scope, number: nat) returns (inserted: bool)
      modifies this
      ensures inserted <==> Insertable(old(rows), id, scope, number)
      ensures rows == if inserted then old(rows)[id := Row(scope, number, Draft, None, None)] else old(rows)
    {
      if id in rows || exists other :: other in rows && rows[other].scope == scope && rows[other].number == number {
        return false;
      }
      rows := rows[id := Row(scope, number, Draft, None, None)];
      return true;
    }

    /** Creating with nothing in between always succeeds. */
    method Create(scope: Scope, id: RowId) returns (created: Row)
      requires id !in rows
      modifies this
      ensures IsNext(old(rows), scope, created.number)
      ensures created == Row(scope, created.number, Draft, None, None) && rows == old(rows)[id := created]
    {
      var number := NextNumber(scope);
      var inserted := Insert(id, scope, number);
      created := rows[id];
    }

    method Activate(scope: Scope, id: RowId, now: Time) returns (reply: Option<Row>)
      modifies this
      ensures rows == Activated(old(rows), scope, id, now)
      ensures reply == if CanActivate(old(rows), scope, id) then Some(rows[id]) else None
    {
      rows := map other | other in rows ::
        if rows[other].scope == scope && rows[other].status == Active && other != id
        then rows[other].(status := Retired, retiredAt := Some(now))
        else rows[other];
      if id in rows && rows[id].scope == scope && rows[id].status != Retired {
        rows := rows[id := rows[id].(status := Active, activatedAt := Some(now), retiredAt := None)];
        reply := Some(rows[id]);
      } else {
        reply := None;
      }
    }

    method Retire(scope: Scope, id: RowId, now: Time) returns (reply: Option<Row>)
      modifies this
      ensures rows == RetiredRow(old(rows), scope, id, now)
      ensures reply == if id in old(rows) && old(rows)[id].scope == scope then Some(rows[id]) else None
    {
      if id in rows && rows[id].scope == scope {
        rows := rows[id := rows[id].(status := Retired, retiredAt := Some(now))];
        reply := Some(rows[id]);
      } else {
        reply := None;
      }
    }
  }
}
