/** The in-memory home under concurrent requests. The lock is dropped between reading the versions,
    pushing a new one and activating it, so other requests can run in between. */
module RuleInterleaving {
  import opened Wrappers
  import opened RuleVersions
  import opened RuleGovernance

  /** Where a creating request stands: it has built its version from what it read, or it has pushed
      the version and still has to activate it. */
  datatype Stage =
    | Built(rule: RuleVersion)
    | Pushed(tenant: Tenant, id: VersionId)

  type RequestId = nat
  type InFlight = map<RequestId, Stage>

  datatype Governance = Governance(m: Memory, inFlight: InFlight)

  /** One critical section. */
  datatype Event =
    | Read(call: Call)
    | Begin(request: RequestId, call: Call)
    | Push(request: RequestId)
    | Finish(request: RequestId, now: Time)
    | Alter(tenant: Tenant, id: VersionId, change: StateChange, now: Time)

  predicate UnusedId(g: Governance, id: VersionId) {
    && (forall tenant, i | tenant in g.m && 0 <= i < |g.m[tenant]| :: g.m[tenant][i].id != id)
    && (forall request | request in g.inFlight && g.inFlight[request].Built? :: g.inFlight[request].rule.id != id)
  }

  predicate Possible(g: Governance, event: Event) {
    match event
    case Read(call) => true
    case Begin(request, call) =>
      request !in g.inFlight && (call.op.Create? || call.op.Tune?) && UnusedId(g, Generated(call.op.ulid))
    case Push(request) => request in g.inFlight && g.inFlight[request].Built?
    case Finish(request, now) => request in g.inFlight && g.inFlight[request].Pushed?
    case Alter(tenant, id, change, now) => true
  }

  function PushedMemory(m: Memory, rule: RuleVersion): Memory {
    m[rule.tenant := (if rule.tenant in m then m[rule.tenant] else []) + [rule]]
  }

  function Step(settings: Settings, g: Governance, event: Event): Governance
    requires Possible(g, event)
  {
    match event
    case Read(call) => g.(m := SeededMemory(settings, g.m, call))
    case Begin(request, call) =>
      var m := SeededMemory(settings, g.m, call);
      var built := Build(settings, call, MemorySource(m, call), m[call.tenant]);
      Governance(m, if built.Err? then g.inFlight else g.inFlight[request := Built(built.value)])
    case Push(request) =>
      var rule := g.inFlight[request].rule;
      Governance(PushedMemory(g.m, rule),
                 if rule.status == Active then g.inFlight[request := Pushed(rule.tenant, rule.id)]
                 else g.inFlight - {request})
    case Finish(request, now) =>
      var stage := g.inFlight[request];
      Governance(MemoryChange(g.m, stage.tenant, stage.id, Activate, now).0, g.inFlight - {request})
    case Alter(tenant, id, change, now) => g.(m := MemoryChange(g.m, tenant, id, change, now).0)
  }

  // ----- The book of a vector -----

  ghost function BookOf(rules: seq<RuleVersion>): Book {
    map id | id in (set i | 0 <= i < |rules| :: rules[i].id) && IndexOf(rules, id).Some? ::
      rules[IndexOf(rules, id).value]
  }

  lemma BookIsListed(rules: seq<RuleVersion>)
    requires DistinctIds(rules)
    ensures Lists(rules, BookOf(rules))
  {
  }

  lemma InVector(rules: seq<RuleVersion>, id: VersionId)
    ensures id in BookOf(rules) <==> IndexOf(rules, id).Some?
    ensures id in BookOf(rules) ==> BookOf(rules)[id] == rules[IndexOf(rules, id).value]
  {
  }

  lemma ListedBook(rules: seq<RuleVersion>, book: Book)
    requires Lists(rules, book)
    ensures BookOf(rules) == book
  {
    hide BookOf, Lists, IndexOf;
    forall id
      ensures id in BookOf(rules) <==> id in book
      ensures id in book ==> BookOf(rules)[id] == book[id]
    {
      InVector(rules, id);
      ListedSomewhere(rules, book, id);
    }
  }

  // ----- The invariant -----

  /** The versions of a tenant pushed as active but not yet activated. */
  ghost function Pending(inFlight: InFlight, tenant: Tenant): set<VersionId> {
    set request | request in inFlight && inFlight[request].Pushed? && inFlight[request].tenant == tenant ::
      inFlight[request].id
  }

  ghost predicate TenantOk(rules: seq<RuleVersion>, tenant: Tenant, pending: set<VersionId>) {
    && rules != [] && DistinctIds(rules)
    && (forall i | 0 <= i < |rules| :: rules[i].tenant == tenant)
    && Sound(BookOf(rules)) && OneActive(BookOf(rules), pending)
  }

  ghost predicate StageOk(m: Memory, stage: Stage) {
    match stage
    case Built(rule) => rule.tenant in m && Addable(BookOf(m[rule.tenant]), rule)
    case Pushed(tenant, id) => tenant in m && id in BookOf(m[tenant])
  }

  ghost predicate TenantsOk(m: Memory, inFlight: InFlight) {
    forall tenant | tenant in m :: TenantOk(m[tenant], tenant, Pending(inFlight, tenant))
  }

  ghost predicate StagesOk(m: Memory, inFlight: InFlight) {
    forall request | request in inFlight :: StageOk(m, inFlight[request])
  }

  ghost predicate DistinctBuilt(inFlight: InFlight) {
    forall a, b | a in inFlight && b in inFlight && inFlight[a].Built? && inFlight[b].Built? && a != b ::
      inFlight[a].rule.id != inFlight[b].rule.id
  }

  ghost predicate Inv(g: Governance) {
    TenantsOk(g.m, g.inFlight) && StagesOk(g.m, g.inFlight) && DistinctBuilt(g.inFlight)
  }

  /** A request with nothing between its critical sections does what the whole request does. */
  lemma UndisturbedCall(settings: Settings, g: Governance, request: RequestId, call: Call)
    requires Inv(g) && request !in g.inFlight
    requires (call.op.Create? || call.op.Tune?) ==> UnusedId(g, Generated(call.op.ulid))
    ensures var whole := MemoryStep(settings, g.m, call).0;
            match call.op
            case Load => Step(settings, g, Read(call)) == g.(m := whole)
            case Change(id, change) => Step(settings, g, Alter(call.tenant, id, change, call.now)) == g.(m := whole)
            case _ =>
              var begun := Step(settings, g, Begin(request, call));
              if request !in begun.inFlight then begun == g.(m := whole) && MemoryStep(settings, g.m, call).1.Failed?
              else
                && Possible(begun, Push(request))
                && var pushed := Step(settings, begun, Push(request));
                if request !in pushed.inFlight then pushed == g.(m := whole)
                else
                  && Possible(pushed, Finish(request, call.op.later))
                  && Step(settings, pushed, Finish(request, call.op.later)) == g.(m := whole)
  {
    if call.op.Create? || call.op.Tune? {
      var seeded := SeededMemory(settings, g.m, call);
      var built := Build(settings, call, MemorySource(seeded, call), seeded[call.tenant]);
      var begun := Step(settings, g, Begin(request, call));
      assert begun == Governance(seeded, if built.Err? then g.inFlight else g.inFlight[request := Built(built.value)]);
      if built.Ok? {
        BuiltHere(settings, g, call);
        UndisturbedPush(settings, seeded, g.inFlight, request, built.value, call.op.later);
      }
      hide Inv, Step, Build, MemorySource, SeededMemory, MemoryChange, UnusedId;
    }
  }

  /** Pushing a version and, if it is to be active, activating it. */
  lemma UndisturbedPush(settings: Settings, m: Memory, inFlight: InFlight, request: RequestId, rule: RuleVersion,
                        later: Time)
    requires request !in inFlight && rule.tenant in m
    ensures var begun := Governance(m, inFlight[request := Built(rule)]);
            var pushed := m[rule.tenant := m[rule.tenant] + [rule]];
            && Possible(begun, Push(request))
            && var next := Step(settings, begun, Push(request));
            if rule.status != Active then next == Governance(pushed, inFlight)
            else
              && request in next.inFlight && Possible(next, Finish(request, later))
              && Step(settings, next, Finish(request, later))
                 == Governance(MemoryChange(pushed, rule.tenant, rule.id, Activate, later).0, inFlight)
  {
    hide MemoryChange;
    var begun := inFlight[request := Built(rule)];
    assert begun - {request} == inFlight;
    assert begun[request := Pushed(rule.tenant, rule.id)] - {request} == inFlight;
  }

  lemma BuiltHere(settings: Settings, g: Governance, call: Call)
    requires Inv(g) && (call.op.Create? || call.op.Tune?)
    ensures var m := SeededMemory(settings, g.m, call);
            var built := Build(settings, call, MemorySource(m, call), m[call.tenant]);
            built.Ok? ==> built.value.tenant == call.tenant
  {
    var m: Memory := SeededMemory(settings, g.m, call);
    DefaultRulesAreSeeded(settings, call);
    var rules: seq<RuleVersion> := m[call.tenant];
    assert forall i | 0 <= i < |rules| :: rules[i].tenant == call.tenant by {
      if call.tenant in g.m { assert TenantOk(g.m[call.tenant], call.tenant, Pending(g.inFlight, call.tenant)); }
    }
    hide Inv, SeededMemory, IndexOf, MaxVersion, DefaultRules;
  }

  // ----- What the pieces keep -----

  lemma PendingOnlyShrinks(book: Book, pending: set<VersionId>, more: set<VersionId>)
    requires OneActive(book, pending) && pending <= more
    ensures OneActive(book, more)
  {
  }

  lemma SettledTenant(rules: seq<RuleVersion>, tenant: Tenant, pending: set<VersionId>, more: set<VersionId>)
    requires TenantOk(rules, tenant, pending) && pending <= more
    ensures TenantOk(rules, tenant, more)
  {
    PendingOnlyShrinks(BookOf(rules), pending, more);
    hide BookOf, OneActive, Sound, DistinctIds;
  }

  lemma PendingAfterPush(inFlight: InFlight, request: RequestId, tenant: Tenant, id: VersionId, any: Tenant)
    requires request in inFlight ==> inFlight[request].Built?
    ensures Pending(inFlight[request := Pushed(tenant, id)], any)
         == Pending(inFlight, any) + (if any == tenant then {id} else {})
  {
    var inFlight' := inFlight[request := Pushed(tenant, id)];
    forall other | other in Pending(inFlight, any) ensures other in Pending(inFlight', any) {
      var r :| r in inFlight && inFlight[r].Pushed? && inFlight[r].tenant == any && inFlight[r].id == other;
      assert inFlight'[r] == inFlight[r];
    }
    if any == tenant { assert inFlight'[request].id == id; }
  }

  lemma PendingAfterBegin(inFlight: InFlight, request: RequestId, rule: RuleVersion, any: Tenant)
    requires request !in inFlight
    ensures Pending(inFlight[request := Built(rule)], any) == Pending(inFlight, any)
  {
    var inFlight' := inFlight[request := Built(rule)];
    forall other | other in Pending(inFlight, any) ensures other in Pending(inFlight', any) {
      var r :| r in inFlight && inFlight[r].Pushed? && inFlight[r].tenant == any && inFlight[r].id == other;
      assert inFlight'[r] == inFlight[r];
    }
  }

  /** Ending a request takes at most its own version off the pending ones. */
  lemma PendingAfterEnd(inFlight: InFlight, request: RequestId, any: Tenant)
    requires request in inFlight
    ensures var stage := inFlight[request];
            Pending(inFlight, any) - (if stage.Pushed? && stage.tenant == any then {stage.id} else {})
              <= Pending(inFlight - {request}, any)
  {
    var inFlight' := inFlight - {request};
    forall other | other in Pending(inFlight, any) && !(inFlight[request].Pushed? && inFlight[request].id == other
                                                        && inFlight[request].tenant == any)
      ensures other in Pending(inFlight', any)
    {
      var r :| r in inFlight && inFlight[r].Pushed? && inFlight[r].tenant == any && inFlight[r].id == other;
      assert r != request && r in inFlight' && inFlight'[r] == inFlight[r];
    }
  }

  /** A book in which no version changed its identity, none was lost and only `added` came in. */
  ghost predicate Grows(book: Book, book': Book, added: set<VersionId>) {
    && (forall id | id in book :: id in book' && book'[id].name == book[id].name && book'[id].version == book[id].version)
    && (forall id | id in book' :: id in book || id in added)
  }

  lemma AddableSurvives(book: Book, book': Book, added: set<VersionId>, rule: RuleVersion)
    requires Addable(book, rule) && Grows(book, book', added) && rule.id !in added
    ensures Addable(book', rule)
  {
  }

  /** One tenant's vector changes: requests in flight stay as ready as they were. */
  lemma StagesSurvive(m: Memory, inFlight: InFlight, tenant: Tenant, rules': seq<RuleVersion>, added: set<VersionId>)
    requires StagesOk(m, inFlight) && tenant in m && Grows(BookOf(m[tenant]), BookOf(rules'), added)
    requires forall request | request in inFlight && inFlight[request].Built? :: inFlight[request].rule.id !in added
    ensures StagesOk(m[tenant := rules'], inFlight)
  {
    var m' := m[tenant := rules'];
    forall request | request in inFlight ensures StageOk(m', inFlight[request]) {
      var stage := inFlight[request];
      assert StageOk(m, stage);
      hide BookOf, Addable, StagesOk;
      if stage.Built? && stage.rule.tenant == tenant {
        AddableSurvives(BookOf(m[tenant]), BookOf(rules'), added, stage.rule);
      }
    }
  }

  lemma TenantsSurvive(m: Memory, inFlight: InFlight, tenant: Tenant, rules': seq<RuleVersion>, inFlight': InFlight)
    requires TenantsOk(m, inFlight) && TenantOk(rules', tenant, Pending(inFlight', tenant))
    requires forall any | any != tenant :: Pending(inFlight, any) <= Pending(inFlight', any)
    ensures TenantsOk(m[tenant := rules'], inFlight')
  {
    hide TenantOk, Pending;
    var m' := m[tenant := rules'];
    forall any | any in m' ensures TenantOk(m'[any], any, Pending(inFlight', any)) {
      if any != tenant { SettledTenant(m[any], any, Pending(inFlight, any), Pending(inFlight', any)); }
    }
  }

  lemma ChangeGrows(book: Book, id: VersionId, change: StateChange, now: Time)
    requires Sound(book) && id in book
    ensures Grows(book, Changed(book, id, change, now), {})
  {
    var book' := Changed(book, id, change, now);
    forall other | other in book ensures book'[other].name == book[other].name && book'[other].version == book[other].version {
      assert Shaped(book[other]);
      EffectKeeps(book[other], book[id], change, now);
    }
  }

  lemma VectorKeepsTenants(rules: seq<RuleVersion>, index: nat, change: StateChange, now: Time)
    requires index < |rules|
    ensures var rules' := VectorChanged(rules, index, change, now);
            |rules'| == |rules| && forall i | 0 <= i < |rules| :: rules'[i].tenant == rules[i].tenant
  {
  }

  lemma ChangedVector(rules: seq<RuleVersion>, tenant: Tenant, id: VersionId, change: StateChange, now: Time)
    requires DistinctIds(rules) && Sound(BookOf(rules)) && id in BookOf(rules)
    requires forall i | 0 <= i < |rules| :: rules[i].tenant == tenant
    ensures var index := IndexOf(rules, id);
            && index.Some?
            && var rules' := VectorChanged(rules, index.value, change, now);
            && |rules'| == |rules| && DistinctIds(rules')
            && BookOf(rules') == Changed(BookOf(rules), id, change, now)
            && (forall i | 0 <= i < |rules'| :: rules'[i].tenant == tenant)
            && rules'[index.value] == Effect(BookOf(rules)[id], BookOf(rules)[id], change, now)
  {
    hide BookOf, Sound, DistinctIds, Lists, Effect, VectorChanged;
    BookIsListed(rules);
    VectorFollowsBook(rules, BookOf(rules), id, change, now);
    VectorKeepsTenants(rules, IndexOf(rules, id).value, change, now);
    var rules' := VectorChanged(rules, IndexOf(rules, id).value, change, now);
    ListedBook(rules', Changed(BookOf(rules), id, change, now));
    ListsDistinct(rules', Changed(BookOf(rules), id, change, now));
  }

  lemma ListsDistinct(rules: seq<RuleVersion>, book: Book)
    requires Lists(rules, book)
    ensures DistinctIds(rules)
  {
  }

  /** Changing a version keeps its tenant in order; activating a pending one settles it. */
  lemma ChangedTenant(rules: seq<RuleVersion>, tenant: Tenant, pending: set<VersionId>, id: VersionId,
                      change: StateChange, now: Time)
    requires TenantOk(rules, tenant, pending) && id in BookOf(rules)
    ensures var index := IndexOf(rules, id);
            && index.Some?
            && var rules' := VectorChanged(rules, index.value, change, now);
            && TenantOk(rules', tenant, if change.Activate? then pending - {id} else pending)
            && Grows(BookOf(rules), BookOf(rules'), {})
            && (change.Activate? ==> rules'[index.value].status == Active)
  {
    ChangedVector(rules, tenant, id, change, now);
    hide BookOf, Sound, DistinctIds, OneActive, VectorChanged, Changed, Grows;
    ChangeKeepsSound(BookOf(rules), id, change, now);
    ChangeKeepsOneActive(BookOf(rules), pending, id, change, now);
    ChangeGrows(BookOf(rules), id, change, now);
  }

  lemma PushedVector(rules: seq<RuleVersion>, rule: RuleVersion)
    requires DistinctIds(rules) && rule.id !in BookOf(rules)
    ensures DistinctIds(rules + [rule]) && BookOf(rules + [rule]) == BookOf(rules)[rule.id := rule]
  {
    BookIsListed(rules);
    hide BookOf, DistinctIds, Lists;
    PushListed(rules, BookOf(rules), rule);
    ListedBook(rules + [rule], BookOf(rules)[rule.id := rule]);
    ListsDistinct(rules + [rule], BookOf(rules)[rule.id := rule]);
  }

  lemma AddedOneActive(book: Book, pending: set<VersionId>, rule: RuleVersion)
    requires OneActive(book, pending) && rule.id !in book
    ensures OneActive(book[rule.id := rule], pending + {rule.id})
    ensures rule.status != Active ==> OneActive(book[rule.id := rule], pending)
  {
  }

  lemma PushedTenant(rules: seq<RuleVersion>, tenant: Tenant, pending: set<VersionId>, rule: RuleVersion)
    requires TenantOk(rules, tenant, pending) && rule.tenant == tenant && Addable(BookOf(rules), rule)
    ensures TenantOk(rules + [rule], tenant, pending + {rule.id})
    ensures rule.status != Active ==> TenantOk(rules + [rule], tenant, pending)
    ensures BookOf(rules + [rule]) == BookOf(rules)[rule.id := rule]
    ensures Grows(BookOf(rules), BookOf(rules)[rule.id := rule], {rule.id})
  {
    hide BookOf, Sound, DistinctIds, OneActive;
    PushedVector(rules, rule);
    AddKeepsSound(BookOf(rules), rule);
    AddedOneActive(BookOf(rules), pending, rule);
  }

  lemma SeededTenant(settings: Settings, call: Call)
    ensures TenantOk(DefaultRules(settings, call.tenant, call.actor, call.now), call.tenant, {})
    ensures forall id | id in BookOf(DefaultRules(settings, call.tenant, call.actor, call.now)) :: id.Seeded?
  {
    var rules := DefaultRules(settings, call.tenant, call.actor, call.now);
    DefaultRulesAreSeeded(settings, call);
    hide DefaultRules;
    BookIsListed(rules);
    DefaultsAreGood(settings, call, BookOf(rules));
  }

  // ----- Every step keeps the invariant -----

  lemma NothingPendingYet(m: Memory, inFlight: InFlight, tenant: Tenant)
    requires StagesOk(m, inFlight) && tenant !in m
    ensures Pending(inFlight, tenant) == {}
  {
    assert forall request | request in inFlight :: StageOk(m, inFlight[request]);
  }

  lemma StagesSurviveSeeding(m: Memory, inFlight: InFlight, tenant: Tenant, rules: seq<RuleVersion>)
    requires StagesOk(m, inFlight) && tenant !in m
    ensures StagesOk(m[tenant := rules], inFlight)
  {
    hide BookOf, Addable;
    forall request | request in inFlight ensures StageOk(m[tenant := rules], inFlight[request]) {
      assert StageOk(m, inFlight[request]);
    }
  }

  /** Seeding keeps the invariant. */
  lemma ReadKeepsInv(settings: Settings, g: Governance, call: Call)
    requires Inv(g)
    ensures Inv(g.(m := SeededMemory(settings, g.m, call)))
  {
    if call.tenant !in g.m {
      var rules := DefaultRules(settings, call.tenant, call.actor, call.now);
      hide DefaultRules, TenantOk, TenantsOk, StagesOk, Pending;
      SeededTenant(settings, call);
      NothingPendingYet(g.m, g.inFlight, call.tenant);
      TenantsSurvive(g.m, g.inFlight, call.tenant, rules, g.inFlight);
      StagesSurviveSeeding(g.m, g.inFlight, call.tenant, rules);
    }
  }

  lemma UnusedAfterSeeding(settings: Settings, g: Governance, call: Call, id: VersionId)
    requires UnusedId(g, id) && id.Generated?
    ensures var m' := SeededMemory(settings, g.m, call);
            call.tenant in m' && id !in BookOf(m'[call.tenant])
  {
    SeededTenant(settings, call);
    hide DefaultRules, TenantOk;
  }

  lemma BuiltIsReady(settings: Settings, m: Memory, call: Call)
    requires call.tenant in m && (call.op.Create? || call.op.Tune?)
    requires DistinctIds(m[call.tenant]) && (forall i | 0 <= i < |m[call.tenant]| :: m[call.tenant][i].tenant == call.tenant)
    requires Generated(call.op.ulid) !in BookOf(m[call.tenant])
    ensures var built := Build(settings, call, MemorySource(m, call), m[call.tenant]);
            built.Ok? ==>
              && StageOk(m, Built(built.value))
              && built.value.id == Generated(call.op.ulid)
              && built.value.tenant == call.tenant
  {
    var rules, source := m[call.tenant], MemorySource(m, call);
    var book := BookOf(rules);
    BookIsListed(rules);
    assert source.Some? ==> source.value.tenant == call.tenant;
    assert source.Some? ==> source.value.id in book && book[source.value.id] == source.value;
    hide Lists, MaxVersion, BookOf, Addable, MemorySource;
    if call.op.Create? {
      CreatedIsAddable(settings, call.tenant, call.actor, call.op.request, call.op.ulid, call.now, rules, book);
    } else if source.Some? {
      TunedIsAddable(source.value, call.actor, call.op.tuning, call.op.ulid, call.now, rules, book);
    }
  }

  lemma DistinctAfterBegin(g: Governance, request: RequestId, rule: RuleVersion)
    requires DistinctBuilt(g.inFlight) && UnusedId(g, rule.id) && request !in g.inFlight
    ensures DistinctBuilt(g.inFlight[request := Built(rule)])
  {
  }

  lemma TenantParts(m: Memory, inFlight: InFlight, tenant: Tenant)
    requires TenantsOk(m, inFlight) && tenant in m
    ensures DistinctIds(m[tenant]) && forall i | 0 <= i < |m[tenant]| :: m[tenant][i].tenant == tenant
  {
    assert TenantOk(m[tenant], tenant, Pending(inFlight, tenant));
  }

  lemma SamePending(m: Memory, inFlight: InFlight, inFlight': InFlight)
    requires TenantsOk(m, inFlight)
    requires forall any :: Pending(inFlight', any) == Pending(inFlight, any)
    ensures TenantsOk(m, inFlight')
  {
    hide Pending, TenantOk;
  }

  lemma StagesWith(m: Memory, inFlight: InFlight, request: RequestId, stage: Stage)
    requires StagesOk(m, inFlight) && StageOk(m, stage)
    ensures StagesOk(m, inFlight[request := stage])
  {
    hide StageOk;
  }

  lemma BeginKeepsInv(settings: Settings, g: Governance, event: Event)
    requires Inv(g) && event.Begin? && Possible(g, event)
    ensures Inv(Step(settings, g, event))
  {
    var call := event.call;
    ReadKeepsInv(settings, g, call);
    hide TenantsOk, StageOk, SeededMemory, Build, MemorySource, BookOf, Pending, DistinctBuilt, UnusedId, DistinctIds;
    UnusedAfterSeeding(settings, g, call, Generated(call.op.ulid));
    var m := SeededMemory(settings, g.m, call);
    TenantParts(m, g.inFlight, call.tenant);
    BuiltIsReady(settings, m, call);
    var built := Build(settings, call, MemorySource(m, call), m[call.tenant]);
    assert Step(settings, g, event)
        == Governance(m, if built.Err? then g.inFlight else g.inFlight[event.request := Built(built.value)]);
    hide Step, StagesOk;
    if built.Ok? {
      StagesWith(m, g.inFlight, event.request, Built(built.value));
      DistinctAfterBegin(g, event.request, built.value);
      forall any ensures Pending(g.inFlight[event.request := Built(built.value)], any) == Pending(g.inFlight, any) {
        PendingAfterBegin(g.inFlight, event.request, built.value, any);
      }
      SamePending(m, g.inFlight, g.inFlight[event.request := Built(built.value)]);
    }
  }

  lemma WithoutRequest(m: Memory, inFlight: InFlight, request: RequestId)
    requires StagesOk(m, inFlight) && DistinctBuilt(inFlight) && request in inFlight
    ensures StagesOk(m, inFlight - {request}) && DistinctBuilt(inFlight - {request})
    ensures inFlight[request].Built? ==>
              forall other | other in inFlight - {request} && inFlight[other].Built? ::
                inFlight[other].rule.id != inFlight[request].rule.id
  {
    hide StageOk;
  }

  lemma InvParts(g: Governance, request: RequestId)
    requires Inv(g) && request in g.inFlight
    ensures TenantsOk(g.m, g.inFlight) && StagesOk(g.m, g.inFlight) && DistinctBuilt(g.inFlight)
    ensures var stage := g.inFlight[request];
            var tenant := if stage.Built? then stage.rule.tenant else stage.tenant;
            && tenant in g.m && TenantOk(g.m[tenant], tenant, Pending(g.inFlight, tenant))
            && if stage.Built? then Addable(BookOf(g.m[tenant]), stage.rule) else stage.id in BookOf(g.m[tenant])
  {
    assert StageOk(g.m, g.inFlight[request]);
    hide Addable, BookOf, Pending, TenantOk;
  }

  lemma InvFrom(g: Governance)
    requires TenantsOk(g.m, g.inFlight) && StagesOk(g.m, g.inFlight) && DistinctBuilt(g.inFlight)
    ensures Inv(g)
  {
  }

  lemma PushKeepsInv(settings: Settings, g: Governance, event: Event)
    requires Inv(g) && event.Push? && Possible(g, event)
    ensures Inv(Step(settings, g, event))
  {
    hide Inv, TenantOk, TenantsOk, BookOf, Addable, Pending, StagesOk, StageOk, DistinctBuilt, Grows;
    InvParts(g, event.request);
    var rule, rest := g.inFlight[event.request].rule, g.inFlight - {event.request};
    var tenant, rules' := rule.tenant, g.m[rule.tenant] + [rule];
    assert rest.Keys == g.inFlight.Keys - {event.request};
    PushedTenant(g.m[tenant], tenant, Pending(g.inFlight, tenant), rule);
    WithoutRequest(g.m, g.inFlight, event.request);
    StagesSurvive(g.m, rest, tenant, rules', {rule.id});
    if rule.status == Active {
      PushActiveKeepsInv(g, event.request, rules');
    } else {
      forall any ensures Pending(g.inFlight, any) <= Pending(rest, any) {
        PendingAfterEnd(g.inFlight, event.request, any);
      }
      SettledTenant(rules', tenant, Pending(g.inFlight, tenant), Pending(rest, tenant));
      TenantsSurvive(g.m, g.inFlight, tenant, rules', rest);
      InvFrom(Governance(g.m[tenant := rules'], rest));
    }
  }

  lemma PushActiveKeepsInv(g: Governance, request: RequestId, rules': seq<RuleVersion>)
    requires request in g.inFlight && g.inFlight[request].Built? && TenantsOk(g.m, g.inFlight)
    requires var rule, rest := g.inFlight[request].rule, g.inFlight - {request};
             && StagesOk(g.m[rule.tenant := rules'], rest) && DistinctBuilt(rest)
             && TenantOk(rules', rule.tenant, Pending(g.inFlight, rule.tenant) + {rule.id})
             && rule.id in BookOf(rules')
    ensures var rule := g.inFlight[request].rule;
            Inv(Governance(g.m[rule.tenant := rules'], g.inFlight[request := Pushed(rule.tenant, rule.id)]))
  {
    hide Inv, TenantOk, TenantsOk, BookOf, Pending, StagesOk, DistinctBuilt;
    var rule, rest := g.inFlight[request].rule, g.inFlight - {request};
    var m', inFlight' := g.m[rule.tenant := rules'], g.inFlight[request := Pushed(rule.tenant, rule.id)];
    assert inFlight' == rest[request := Pushed(rule.tenant, rule.id)];
    WithPushed(m', rest, request, rule.tenant, rule.id);
    forall any ensures Pending(inFlight', any) == Pending(g.inFlight, any) + (if any == rule.tenant then {rule.id} else {}) {
      PendingAfterPush(g.inFlight, request, rule.tenant, rule.id, any);
    }
    TenantsSurvive(g.m, g.inFlight, rule.tenant, rules', inFlight');
    InvFrom(Governance(m', inFlight'));
  }

  lemma WithPushed(m: Memory, inFlight: InFlight, request: RequestId, tenant: Tenant, id: VersionId)
    requires StagesOk(m, inFlight) && DistinctBuilt(inFlight) && tenant in m && id in BookOf(m[tenant])
    ensures var inFlight' := inFlight[request := Pushed(tenant, id)];
            StagesOk(m, inFlight') && DistinctBuilt(inFlight')
  {
    hide BookOf, Addable;
    var inFlight' := inFlight[request := Pushed(tenant, id)];
    forall other | other in inFlight' ensures StageOk(m, inFlight'[other]) {
      if other != request { assert StageOk(m, inFlight[other]); }
    }
  }

  /** Changing the state of a version keeps the invariant; activating it settles it. */
  lemma AlterKeepsInv(g: Governance, tenant: Tenant, id: VersionId, change: StateChange, now: Time)
    requires Inv(g)
    ensures var (m', reply) := MemoryChange(g.m, tenant, id, change, now);
            && Inv(g.(m := m'))
            && (tenant in g.m && id in BookOf(g.m[tenant]) ==>
                  && reply.Done?
                  && tenant in m'
                  && (change.Activate? ==> reply.rule.status == Active
                                           && TenantOk(m'[tenant], tenant, Pending(g.inFlight, tenant) - {id})))
  {
    if tenant in g.m {
      InVector(g.m[tenant], id);
      if id in BookOf(g.m[tenant]) {
        var pending := Pending(g.inFlight, tenant);
        assert TenantOk(g.m[tenant], tenant, pending);
        ChangedTenant(g.m[tenant], tenant, pending, id, change, now);
        hide BookOf, Pending, VectorChanged, TenantOk, TenantsOk, StagesOk, Grows;
        var rules' := VectorChanged(g.m[tenant], IndexOf(g.m[tenant], id).value, change, now);
        if change.Activate? { SettledTenant(rules', tenant, pending - {id}, pending); }
        TenantsSurvive(g.m, g.inFlight, tenant, rules', g.inFlight);
        StagesSurvive(g.m, g.inFlight, tenant, rules', {});
      }
    }
  }

  lemma FinishKeepsInv(settings: Settings, g: Governance, event: Event)
    requires Inv(g) && event.Finish? && Possible(g, event)
    ensures Inv(Step(settings, g, event))
  {
    hide Inv, BookOf, TenantOk, TenantsOk, StagesOk, StageOk, DistinctBuilt, Pending, MemoryChange;
    InvParts(g, event.request);
    var stage, rest := g.inFlight[event.request], g.inFlight - {event.request};
    AlterKeepsInv(g, stage.tenant, stage.id, Activate, event.now);
    var m' := MemoryChange(g.m, stage.tenant, stage.id, Activate, event.now).0;
    SettledKeepsInv(m', g.inFlight, event.request);
  }

  /** The request whose version has just been activated ends. */
  lemma SettledKeepsInv(m: Memory, inFlight: InFlight, request: RequestId)
    requires Inv(Governance(m, inFlight)) && request in inFlight && inFlight[request].Pushed?
    requires var stage := inFlight[request];
             stage.tenant in m && TenantOk(m[stage.tenant], stage.tenant, Pending(inFlight, stage.tenant) - {stage.id})
    ensures Inv(Governance(m, inFlight - {request}))
  {
    hide Inv, BookOf, TenantOk, TenantsOk, StagesOk, StageOk, DistinctBuilt, Pending;
    InvParts(Governance(m, inFlight), request);
    WithoutRequest(m, inFlight, request);
    var stage, rest := inFlight[request], inFlight - {request};
    forall any ensures Pending(inFlight, any) - (if any == stage.tenant then {stage.id} else {}) <= Pending(rest, any) {
      PendingAfterEnd(inFlight, request, any);
    }
    SettledTenant(m[stage.tenant], stage.tenant, Pending(inFlight, stage.tenant) - {stage.id}, Pending(rest, stage.tenant));
    forall any | any != stage.tenant ensures Pending(inFlight, any) <= Pending(rest, any) {
      assert Pending(inFlight, any) - {} == Pending(inFlight, any);
    }
    TenantsSurvive(m, inFlight, stage.tenant, m[stage.tenant], rest);
    assert m[stage.tenant := m[stage.tenant]] == m;
    InvFrom(Governance(m, rest));
  }

  lemma StepKeepsInv(settings: Settings, g: Governance, event: Event)
    requires Inv(g) && Possible(g, event)
    ensures Inv(Step(settings, g, event))
  {
    hide Inv, SeededMemory, MemoryChange, BookOf, TenantOk, Pending;
    if event.Read? {
      ReadKeepsInv(settings, g, event.call);
    } else if event.Begin? {
      BeginKeepsInv(settings, g, event);
    } else if event.Push? {
      PushKeepsInv(settings, g, event);
    } else if event.Finish? {
      FinishKeepsInv(settings, g, event);
    } else {
      AlterKeepsInv(g, event.tenant, event.id, event.change, event.now);
    }
  }

  // ----- Runs -----

  ghost predicate IsRun(settings: Settings, states: seq<Governance>, events: seq<Event>) {
    && |states| == |events| + 1
    && states[0] == Governance(map[], map[])
    && forall i | 0 <= i < |events| ::
         Possible(states[i], events[i]) && states[i + 1] == Step(settings, states[i], events[i])
  }

  lemma {:induction false} RunKeepsInv(settings: Settings, states: seq<Governance>, events: seq<Event>, i: nat)
    requires IsRun(settings, states, events) && i < |states|
    ensures Inv(states[i])
  {
    if i > 0 {
      RunKeepsInv(settings, states, events, i - 1);
      hide Inv, Step;
      StepKeepsInv(settings, states[i - 1], events[i - 1]);
    }
  }

  /** However pushes and activations interleave with other requests, of two active versions of one rule at
      least one still awaits its activation; so whenever none of a rule's versions does, the rule has at
      most one active version. A version is always retired exactly when its retirement time is set, and
      every version's lineage goes down. */
  lemma OneActiveWhenSettled(settings: Settings, states: seq<Governance>, events: seq<Event>, i: nat, tenant: Tenant)
    requires IsRun(settings, states, events) && i < |states| && tenant in states[i].m
    ensures var rules, pending := states[i].m[tenant], Pending(states[i].inFlight, tenant);
            && (forall j | 0 <= j < |rules| :: rules[j].status == Retired <==> rules[j].retiredAt.Some?)
            && (forall j, k | 0 <= j < |rules| && 0 <= k < |rules| && SameActiveName(rules[j], rules[k]) ::
                  j == k || rules[j].id in pending || rules[k].id in pending)
            && Sound(BookOf(rules)) && Lists(rules, BookOf(rules))
  {
    RunKeepsInv(settings, states, events, i);
    var rules, book, pending := states[i].m[tenant], BookOf(states[i].m[tenant]), Pending(states[i].inFlight, tenant);
    assert TenantOk(rules, tenant, pending);
    BookIsListed(rules);
    hide IsRun, Inv, BookOf, Pending;
    forall j | 0 <= j < |rules| ensures Shaped(rules[j]) && book[rules[j].id] == rules[j] && rules[j].id in book {
    }
    forall j, k | 0 <= j < |rules| && 0 <= k < |rules| && SameActiveName(rules[j], rules[k])
      ensures j == k || rules[j].id in pending || rules[k].id in pending
    {
      assert book[rules[j].id] == rules[j] && book[rules[k].id] == rules[k];
    }
  }

  /** The activation that follows a push always finds the version it pushed. */
  lemma FinishFinds(settings: Settings, states: seq<Governance>, events: seq<Event>, i: nat)
    requires IsRun(settings, states, events) && i < |events| && events[i].Finish?
    ensures var stage := states[i].inFlight[events[i].request];
            && MemoryChange(states[i].m, stage.tenant, stage.id, Activate, events[i].now).1.Done?
            && MemoryChange(states[i].m, stage.tenant, stage.id, Activate, events[i].now).1.rule.status == Active
  {
    RunKeepsInv(settings, states, events, i);
    var g, stage := states[i], states[i].inFlight[events[i].request];
    assert StageOk(g.m, stage);
    hide IsRun, Inv, MemoryChange, BookOf, TenantOk;
    AlterKeepsInv(g, stage.tenant, stage.id, Activate, events[i].now);
  }

  // ----- What interleaving breaks -----

  ghost predicate Steps(settings: Settings, g: Governance, event: Event, g': Governance) {
    Possible(g, event) && g' == Step(settings, g, event)
  }

  /** What a request that could build its version leaves in flight. */
  lemma BeginBuilds(settings: Settings, g: Governance, event: Event, g': Governance)
    requires event.Begin? && Steps(settings, g, event, g') && event.request in g'.inFlight
    ensures g'.m == SeededMemory(settings, g.m, event.call) && event.call.tenant in g'.m
    ensures forall other | other in g.inFlight :: other in g'.inFlight && g'.inFlight[other] == g.inFlight[other]
    ensures event.request !in g.inFlight && g'.inFlight[event.request].Built?
    ensures var rule := g'.inFlight[event.request].rule;
            rule.version == MaxVersion(g'.m[event.call.tenant], rule.name) + 1
  {
    hide DefaultRules;
  }

  lemma PushSteps(settings: Settings, g: Governance, request: RequestId, g': Governance)
    requires Steps(settings, g, Push(request), g')
    ensures request in g.inFlight && g.inFlight[request].Built? && g'.m == PushedMemory(g.m, g.inFlight[request].rule)
    ensures forall other | other in g.inFlight && other != request ::
              other in g'.inFlight && g'.inFlight[other] == g.inFlight[other]
    ensures var rule := g.inFlight[request].rule;
            rule.status == Active ==> g'.inFlight == g.inFlight[request := Pushed(rule.tenant, rule.id)]
  {
  }

  /** Two built versions of one tenant are both in its book once pushed. */
  lemma BothPushed(settings: Settings, g: Governance, a: RequestId, g1: Governance, b: RequestId, g2: Governance)
    requires Inv(g) && a != b && b in g.inFlight && g.inFlight[b].Built?
    requires Steps(settings, g, Push(a), g1) && Steps(settings, g1, Push(b), g2)
    requires g.inFlight[a].rule.tenant == g.inFlight[b].rule.tenant
    ensures var one, two := g.inFlight[a].rule, g.inFlight[b].rule;
            && one.tenant in g2.m
            && var book := BookOf(g2.m[one.tenant]);
            one.id != two.id && one.id in book && two.id in book && book[one.id] == one && book[two.id] == two
  {
    var one, two := g.inFlight[a].rule, g.inFlight[b].rule;
    assert one.id != two.id;
    hide Inv, BookOf, Addable, TenantOk, TenantsOk, StagesOk, StageOk, Pending, DistinctBuilt;
    PushKeepsInv(settings, g, Push(a));
    PushSteps(settings, g, a, g1);
    PushSteps(settings, g1, b, g2);
    hide Step, Possible, Steps;
    InvParts(g, a);
    PushedTenant(g.m[one.tenant], one.tenant, Pending(g.inFlight, one.tenant), one);
    InvParts(g1, b);
    PushedTenant(g1.m[two.tenant], two.tenant, Pending(g1.inFlight, two.tenant), two);
  }

  /** Between the push of a version meant to be active and its activation the rule has two active
      versions if it had one before. */
  lemma PushOverlapsActive(settings: Settings, g: Governance, request: RequestId, g': Governance, other: VersionId)
    requires Inv(g) && Steps(settings, g, Push(request), g') && g.inFlight[request].rule.status == Active
    requires var rule := g.inFlight[request].rule;
             rule.tenant in g.m && other in BookOf(g.m[rule.tenant])
             && SameActiveName(BookOf(g.m[rule.tenant])[other], rule)
    ensures var rule := g.inFlight[request].rule;
            && rule.tenant in g'.m
            && !OneActive(BookOf(g'.m[rule.tenant]), {})
            && rule.id in Pending(g'.inFlight, rule.tenant)
  {
    hide Inv, TenantOk, TenantsOk, StagesOk, StageOk, DistinctBuilt, BookOf, Pending, Step, Steps, Possible, Descends, Shaped,
      Grows;
    PushSteps(settings, g, request, g');
    var rule := g.inFlight[request].rule;
    InvParts(g, request);
    PushedTenant(g.m[rule.tenant], rule.tenant, Pending(g.inFlight, rule.tenant), rule);
    PendingAfterPush(g.inFlight, request, rule.tenant, rule.id, rule.tenant);
    var book' := BookOf(g'.m[rule.tenant]);
    assert other != rule.id && other in book' && rule.id in book' && SameActiveName(book'[other], book'[rule.id]);
  }

  /** Two creations of a rule that begin one after the other and then push give their versions the same
      number. `RuleNumbering` says exactly when numbers repeat. */
  lemma OverlappingCreatesShareANumber(settings: Settings, g: Governance, first: Event, g1: Governance,
                                       second: Event, g2: Governance, g3: Governance, g4: Governance)
    requires Inv(g) && first.Begin? && second.Begin? && first.call.tenant == second.call.tenant
    requires Steps(settings, g, first, g1) && Steps(settings, g1, second, g2)
    requires first.request in g1.inFlight && second.request in g2.inFlight
    requires g2.inFlight[first.request].Built? && g2.inFlight[second.request].Built?
    requires g2.inFlight[first.request].rule.name == g2.inFlight[second.request].rule.name
    requires g2.inFlight[first.request].rule.tenant == g2.inFlight[second.request].rule.tenant
    requires Steps(settings, g2, Push(first.request), g3) && Steps(settings, g3, Push(second.request), g4)
    ensures first.request in g2.inFlight
    ensures g2.inFlight[first.request].rule.tenant in g4.m
    ensures !UniqueVersions(BookOf(g4.m[g2.inFlight[first.request].rule.tenant]))
  {
    hide Inv, SeededMemory, MemorySource, TenantOk, TenantsOk, StagesOk, MaxVersion, Build, BookOf, Step;
    StepKeepsInv(settings, g, first);
    StepKeepsInv(settings, g1, second);
    BeginBuilds(settings, g, first, g1);
    BeginBuilds(settings, g1, second, g2);
    SeededOnce(settings, g.m, first.call, second.call);
    BothPushed(settings, g2, first.request, g3, second.request, g4);
  }

  lemma SeededOnce(settings: Settings, m: Memory, call: Call, other: Call)
    requires call.tenant == other.tenant
    ensures SeededMemory(settings, SeededMemory(settings, m, call), other) == SeededMemory(settings, m, call)
  {
  }
}
