/** The two homes of UEBA rule versions, a vector per tenant in memory and a table of rows keyed by
    version id, each with its own code for every operation, and the proof that they always agree. */
module RuleGovernance {
  import opened Wrappers
  import opened RuleVersions
  import Alerts = UebaAlerts

  type Memory = map<Tenant, seq<RuleVersion>>
  type Rows = map<VersionId, RuleVersion>

  // ----- State changes in each home -----

  /** The position of the first version with the id. */
  function IndexOf(rules: seq<RuleVersion>, id: VersionId): (index: Option<nat>)
    ensures index.Some? ==> index.value < |rules| && rules[index.value].id == id
    ensures index.Some? ==> forall i | 0 <= i < index.value :: rules[i].id != id
    ensures index.None? ==> forall i | 0 <= i < |rules| :: rules[i].id != id
    decreases |rules|
  {
    if rules == [] then None
    else if rules[0].id == id then Some(0)
    else
      var rest := IndexOf(rules[1..], id);
      if rest.None? then None else Some(rest.value + 1)
  }

  function VectorChanged(rules: seq<RuleVersion>, index: nat, change: StateChange, now: Time): seq<RuleVersion>
    requires index < |rules|
  {
    seq(|rules|, i requires 0 <= i < |rules| => MemoryEffect(rules[i], rules[index], change, now))
  }

  function RowsOf(rows: Rows, tenant: Tenant): Book {
    map id | id in rows && rows[id].tenant == tenant :: rows[id]
  }

  function RowsChanged(rows: Rows, tenant: Tenant, id: VersionId, change: StateChange, now: Time): Rows
    requires id in rows
  {
    map other | other in rows ::
      if rows[other].tenant == tenant then Effect(rows[other], rows[id], change, now) else rows[other]
  }

  // ----- The operations of each home -----

  /** One request to the governance endpoints. `now` is its time and `later` the time of the
      activation that may follow a creation. */
  datatype Op =
    | Load
    | Create(request: CreateRequest, ulid: string, later: Time)
    | Tune(source: VersionId, tuning: TuneRequest, ulid: string, later: Time)
    | Change(id: VersionId, change: StateChange)

  datatype Call = Call(tenant: Tenant, actor: string, now: Time, op: Op)

  /** A listing is answered in the home's own order, which is not part of what is compared. */
  datatype Reply = Listed(versions: set<RuleVersion>) | Done(rule: RuleVersion) | Failed(error: GovernanceError)

  function AnswerWith(rules: seq<RuleVersion>): Reply {
    Listed(set rule | rule in rules)
  }

  /** The version a creating call builds from the listing it has read. */
  function Build(settings: Settings, call: Call, source: Option<RuleVersion>, existing: seq<RuleVersion>)
    : Result<RuleVersion, GovernanceError>
    requires call.op.Create? || call.op.Tune?
  {
    if call.op.Create? then
      BuildCreated(settings, call.tenant, call.actor, call.op.request, call.op.ulid, call.now, existing)
    else if source.None? then Err(VersionNotFound)
    else Ok(BuildTuned(source.value, call.actor, call.op.tuning, call.op.ulid, call.now, existing))
  }

  function SeededMemory(settings: Settings, m: Memory, call: Call): Memory {
    if call.tenant in m then m
    else m[call.tenant := DefaultRules(settings, call.tenant, call.actor, call.now)]
  }

  function MemoryChange(m: Memory, tenant: Tenant, id: VersionId, change: StateChange, now: Time)
    : (Memory, Reply)
  {
    if tenant !in m then (m, Failed(VersionNotFound))
    else
      var index := IndexOf(m[tenant], id);
      if index.None? then (m, Failed(VersionNotFound))
      else
        var rules := VectorChanged(m[tenant], index.value, change, now);
        (m[tenant := rules], Done(rules[index.value]))
  }

  function MemorySource(m: Memory, call: Call): Option<RuleVersion>
    requires call.tenant in m
  {
    if !call.op.Tune? then None
    else
      var index := IndexOf(m[call.tenant], call.op.source);
      if index.None? then None else Some(m[call.tenant][index.value])
  }

  function MemoryStep(settings: Settings, m: Memory, call: Call): (Memory, Reply) {
    match call.op
    case Change(id, change) => MemoryChange(m, call.tenant, id, change, call.now)
    case Load => (SeededMemory(settings, m, call), AnswerWith(SeededMemory(settings, m, call)[call.tenant]))
    case _ =>
      var seeded := SeededMemory(settings, m, call);
      var built := Build(settings, call, MemorySource(seeded, call), seeded[call.tenant]);
      if built.Err? then (seeded, Failed(built.error))
      else
        var pushed := seeded[call.tenant := seeded[call.tenant] + [built.value]];
        if built.value.status == Active
        then MemoryChange(pushed, call.tenant, built.value.id, Activate, call.op.later)
        else (pushed, Done(built.value))
  }

  function SaveAll(rows: Rows, rules: seq<RuleVersion>): Rows
    decreases |rules|
  {
    if rules == [] then rows else SaveAll(rows[rules[0].id := rules[0]], rules[1..])
  }

  function SeededRows(settings: Settings, rows: Rows, call: Call): Rows {
    if RowsOf(rows, call.tenant) != map[] then rows
    else SaveAll(rows, DefaultRules(settings, call.tenant, call.actor, call.now))
  }

  function RowsChange(rows: Rows, tenant: Tenant, id: VersionId, change: StateChange, now: Time)
    : (Rows, Reply)
  {
    if id !in rows || rows[id].tenant != tenant then (rows, Failed(VersionNotFound))
    else (RowsChanged(rows, tenant, id, change, now), Done(Effect(rows[id], rows[id], change, now)))
  }

  function RowsSource(rows: Rows, call: Call): Option<RuleVersion> {
    if call.op.Tune? && call.op.source in rows && rows[call.op.source].tenant == call.tenant
    then Some(rows[call.op.source])
    else None
  }

  /** `listing` is the order in which the store happens to return the tenant's rows. */
  function RowsStep(settings: Settings, rows: Rows, call: Call, listing: seq<RuleVersion>): (Rows, Reply) {
    match call.op
    case Change(id, change) => RowsChange(rows, call.tenant, id, change, call.now)
    case Load => (SeededRows(settings, rows, call), AnswerWith(listing))
    case _ =>
      var seeded := SeededRows(settings, rows, call);
      var built := Build(settings, call, RowsSource(seeded, call), listing);
      if built.Err? then (seeded, Failed(built.error))
      else
        var saved := seeded[built.value.id := built.value];
        if built.value.status == Active
        then RowsChange(saved, call.tenant, built.value.id, Activate, call.op.later)
        else (saved, Done(built.value))
  }

  // ----- Agreement -----

  /** Rows are filed under their own id, and seeded ids belong to their tenant. */
  ghost predicate Filed(rows: Rows) {
    forall id | id in rows :: rows[id].id == id && (id.Seeded? ==> id.tenant == rows[id].tenant)
  }

  /** What a tenant's versions satisfy after any history of calls that run one at a time. */
  ghost predicate Good(book: Book) {
    Sound(book) && OneActive(book, {}) && UniqueVersions(book)
  }

  ghost predicate AgreeOn(m: Memory, rows: Rows, tenant: Tenant) {
    var book := RowsOf(rows, tenant);
    && Good(book)
    && if tenant in m then m[tenant] != [] && Lists(m[tenant], book) else book == map[]
  }

  /** Both homes hold the same versions of every tenant. */
  ghost predicate Agree(m: Memory, rows: Rows) {
    Filed(rows) && forall tenant :: AgreeOn(m, rows, tenant)
  }

  lemma EmptyHomesAgree()
    ensures Agree(map[], map[])
  {
    forall tenant ensures AgreeOn(map[], map[], tenant) {
      assert RowsOf(map[], tenant) == map[];
    }
  }

  /** An operation on one tenant leaves the others in agreement. */
  lemma OthersStillAgree(m: Memory, rows: Rows, m': Memory, rows': Rows, tenant: Tenant)
    requires Agree(m, rows) && Filed(rows') && AgreeOn(m', rows', tenant)
    requires m'.Keys == m.Keys + {tenant}
    requires forall any | any in m && any != tenant :: m'[any] == m[any]
    requires forall any | any != tenant :: RowsOf(rows', any) == RowsOf(rows, any)
    ensures Agree(m', rows')
  {
    hide Good, Lists, Filed, RowsOf;
    forall any ensures AgreeOn(m', rows', any) {
      assert AgreeOn(m, rows, any);
    }
  }

  // ----- A state change -----

  lemma ListedSomewhere(rules: seq<RuleVersion>, book: Book, id: VersionId)
    requires Lists(rules, book)
    ensures IndexOf(rules, id).Some? <==> id in book
    ensures id in book ==> rules[IndexOf(rules, id).value] == book[id]
  {
  }

  /** The vector loop and the row-by-row update have the same effect, because no retired version
      is ever enabled. */
  lemma VectorFollowsBook(rules: seq<RuleVersion>, book: Book, id: VersionId, change: StateChange, now: Time)
    requires Lists(rules, book) && Sound(book) && id in book
    ensures var index := IndexOf(rules, id);
            && index.Some?
            && var rules' := VectorChanged(rules, index.value, change, now);
            && Lists(rules', Changed(book, id, change, now))
            && rules'[index.value] == Changed(book, id, change, now)[id]
  {
    ListedSomewhere(rules, book, id);
    var index := IndexOf(rules, id).value;
    var rules', book' := VectorChanged(rules, index, change, now), Changed(book, id, change, now);
    forall i | 0 <= i < |rules|
      ensures rules'[i].id == rules[i].id && rules'[i].id in book' && book'[rules'[i].id] == rules'[i]
    {
      assert Shaped(book[rules[i].id]);
      EffectsAgree(rules[i], rules[index], change, now);
      EffectKeeps(rules[i], rules[index], change, now);
    }
    forall other | other in book' ensures exists i :: 0 <= i < |rules'| && rules'[i].id == other {
      var i :| 0 <= i < |rules| && rules[i].id == other;
      assert rules'[i].id == other;
    }
  }

  /** Changing a row changes the book of its tenant and no other. */
  lemma RowsChangedByTenant(rows: Rows, tenant: Tenant, id: VersionId, change: StateChange, now: Time, any: Tenant)
    requires Filed(rows) && id in rows && rows[id].tenant == tenant
    ensures var rows' := RowsChanged(rows, tenant, id, change, now);
            && Filed(rows')
            && RowsOf(rows', any) == (if any == tenant then Changed(RowsOf(rows, tenant), id, change, now)
                                      else RowsOf(rows, any))
  {
    var rows' := RowsChanged(rows, tenant, id, change, now);
    forall other | other in rows ensures rows'[other].id == other && rows'[other].tenant == rows[other].tenant {
    }
  }

  /** A change has the same effect in both homes, leaves other tenants alone and, when it activates the
      one version that may have upset its rule, repairs the rule. */
  lemma ChangingAgrees(rules: seq<RuleVersion>, rows: Rows, tenant: Tenant, id: VersionId, change: StateChange,
                       now: Time, pending: set<VersionId>)
    requires Filed(rows) && id in rows && rows[id].tenant == tenant && Lists(rules, RowsOf(rows, tenant))
    requires Sound(RowsOf(rows, tenant)) && UniqueVersions(RowsOf(rows, tenant))
    requires OneActive(RowsOf(rows, tenant), pending)
    requires pending == {} || (change.Activate? && pending == {id})
    ensures var index, rows' := IndexOf(rules, id), RowsChanged(rows, tenant, id, change, now);
            && index.Some?
            && var rules' := VectorChanged(rules, index.value, change, now);
            && Filed(rows') && Lists(rules', RowsOf(rows', tenant)) && Good(RowsOf(rows', tenant))
            && rules'[index.value] == Effect(rows[id], rows[id], change, now)
            && forall any | any != tenant :: RowsOf(rows', any) == RowsOf(rows, any)
  {
    var book := RowsOf(rows, tenant);
    VectorFollowsBook(rules, book, id, change, now);
    ChangeKeepsOneActive(book, pending, id, change, now);
    ChangeKeepsSound(book, id, change, now);
    ChangeKeepsUniqueVersions(book, id, change, now);
    assert (if change.Activate? then pending - {id} else pending) == {};
    RowsChangedByTenant(rows, tenant, id, change, now, tenant);
    var rows' := RowsChanged(rows, tenant, id, change, now);
    hide Filed, Lists, Sound, UniqueVersions, OneActive, Effect, VectorChanged;
    forall any | any != tenant ensures RowsOf(rows', any) == RowsOf(rows, any) {
      RowsChangedByTenant(rows, tenant, id, change, now, any);
    }
  }

  lemma GoodParts(book: Book)
    requires Good(book)
    ensures Sound(book) && OneActive(book, {}) && UniqueVersions(book)
  {
  }

  lemma Found(m: Memory, rows: Rows, tenant: Tenant, id: VersionId)
    requires Agree(m, rows)
    ensures tenant in m && IndexOf(m[tenant], id).Some? <==> id in rows && rows[id].tenant == tenant
  {
    AgreedOn(m, rows, tenant);
    if tenant in m {
      ListedSomewhere(m[tenant], RowsOf(rows, tenant), id);
    } else {
      assert id !in RowsOf(rows, tenant);
    }
  }

  lemma ChangeAgrees(m: Memory, rows: Rows, tenant: Tenant, id: VersionId, change: StateChange, now: Time)
    requires Agree(m, rows)
    ensures var (m', reply) := MemoryChange(m, tenant, id, change, now);
            var (rows', answer) := RowsChange(rows, tenant, id, change, now);
            Agree(m', rows') && reply == answer
  {
    hide Agree, Filed, Lists, Good, Sound, UniqueVersions, OneActive, RowsOf, Effect, RowsChanged;
    Found(m, rows, tenant, id);
    if id in rows && rows[id].tenant == tenant {
      AgreedOn(m, rows, tenant);
      GoodParts(RowsOf(rows, tenant));
      ChangingAgrees(m[tenant], rows, tenant, id, change, now, {});
      OthersStillAgree(m, rows, MemoryChange(m, tenant, id, change, now).0,
                       RowsChanged(rows, tenant, id, change, now), tenant);
    }
  }

  // ----- Creating and tuning -----

  /** Filing a version of `tenant` under its id adds it to that tenant's book only. */
  lemma SavedByTenant(rows: Rows, rule: RuleVersion, any: Tenant)
    requires rule.id !in rows
    ensures RowsOf(rows[rule.id := rule], any)
         == if any == rule.tenant then RowsOf(rows, any)[rule.id := rule] else RowsOf(rows, any)
  {
  }

  lemma PushListed(rules: seq<RuleVersion>, book: Book, rule: RuleVersion)
    requires Lists(rules, book) && rule.id !in book
    ensures Lists(rules + [rule], book[rule.id := rule])
  {
    var longer, book' := rules + [rule], book[rule.id := rule];
    forall id | id in book' ensures exists i :: 0 <= i < |longer| && longer[i].id == id {
      if id == rule.id {
        assert longer[|rules|].id == id;
      } else {
        var i :| 0 <= i < |rules| && rules[i].id == id;
        assert longer[i].id == id;
      }
    }
  }

  /** Filing one more version of `tenant` appends it to a listing of that tenant's book. */
  lemma SaveAppends(rows: Rows, rule: RuleVersion, before: seq<RuleVersion>)
    requires Filed(rows) && Lists(before, RowsOf(rows, rule.tenant)) && rule.id !in rows
    requires rule.id.Seeded? ==> rule.id.tenant == rule.tenant
    ensures var rows' := rows[rule.id := rule];
            && Filed(rows') && Lists(before + [rule], RowsOf(rows', rule.tenant))
            && forall any | any != rule.tenant :: RowsOf(rows', any) == RowsOf(rows, any)
  {
    SavedByTenant(rows, rule, rule.tenant);
    PushListed(before, RowsOf(rows, rule.tenant), rule);
    assert Filed(rows[rule.id := rule]);
    hide Filed, Lists, RowsOf;
    forall any | any != rule.tenant ensures RowsOf(rows[rule.id := rule], any) == RowsOf(rows, any) {
      SavedByTenant(rows, rule, any);
    }
  }

  /** Saving versions one after the other appends them to a listing of the tenant's book. */
  lemma {:induction false} SaveAllAppends(rows: Rows, rules: seq<RuleVersion>, before: seq<RuleVersion>, tenant: Tenant)
    requires Filed(rows) && Lists(before, RowsOf(rows, tenant)) && DistinctIds(rules)
    requires forall i | 0 <= i < |rules| ::
               rules[i].tenant == tenant && rules[i].id !in rows && (rules[i].id.Seeded? ==> rules[i].id.tenant == tenant)
    ensures var rows' := SaveAll(rows, rules);
            && Filed(rows') && Lists(before + rules, RowsOf(rows', tenant))
            && forall any | any != tenant :: RowsOf(rows', any) == RowsOf(rows, any)
    decreases |rules|
  {
    hide Filed, Lists, RowsOf;
    if rules == [] {
      assert before + rules == before;
    } else {
      SaveAppends(rows, rules[0], before);
      SaveAllAppends(rows[rules[0].id := rules[0]], rules[1..], before + [rules[0]], tenant);
      assert before + [rules[0]] + rules[1..] == before + rules;
    }
  }

  lemma DefaultsAreGood(settings: Settings, call: Call, book: Book)
    requires Lists(DefaultRules(settings, call.tenant, call.actor, call.now), book)
    ensures Good(book)
  {
    var rules := DefaultRules(settings, call.tenant, call.actor, call.now);
    forall id | id in book
      ensures id == Seeded(call.tenant, book[id].name) && book[id].id == id
      ensures Shaped(book[id]) && Descends(book, book[id])
    {
      var i :| 0 <= i < |rules| && rules[i].id == id;
    }
  }

  lemma DefaultRulesAreSeeded(settings: Settings, call: Call)
    ensures var rules := DefaultRules(settings, call.tenant, call.actor, call.now);
            && rules != [] && DistinctIds(rules)
            && forall i | 0 <= i < |rules| ::
                 rules[i].tenant == call.tenant && rules[i].id == Seeded(call.tenant, rules[i].name)
  {
  }

  lemma NothingSeededYet(rows: Rows, tenant: Tenant)
    requires Filed(rows) && RowsOf(rows, tenant) == map[]
    ensures Lists([], RowsOf(rows, tenant))
    ensures forall id: VersionId | id.Seeded? && id.tenant == tenant :: id !in rows
  {
    forall id: VersionId | id.Seeded? && id.tenant == tenant ensures id !in rows {
      assert id !in RowsOf(rows, tenant);
    }
  }

  lemma SeedingRows(settings: Settings, rows: Rows, call: Call)
    requires Filed(rows) && RowsOf(rows, call.tenant) == map[]
    ensures var rules, rows' := DefaultRules(settings, call.tenant, call.actor, call.now), SeededRows(settings, rows, call);
            && Filed(rows') && Lists(rules, RowsOf(rows', call.tenant))
            && (forall any | any != call.tenant :: RowsOf(rows', any) == RowsOf(rows, any))
            && (forall id | id in rows' && id !in rows :: id.Seeded?)
  {
    var rules := DefaultRules(settings, call.tenant, call.actor, call.now);
    DefaultRulesAreSeeded(settings, call);
    hide DefaultRules, Filed, Lists, RowsOf, SaveAll, DistinctIds;
    NothingSeededYet(rows, call.tenant);
    SaveAllAppends(rows, rules, [], call.tenant);
    SaveAllKeys(rows, rules);
    assert [] + rules == rules;
  }

  /** Seeding an empty tenant fills both homes with the same six versions. */
  lemma SeedingAgrees(settings: Settings, m: Memory, rows: Rows, call: Call)
    requires Agree(m, rows)
    ensures call.tenant in SeededMemory(settings, m, call)
    ensures Agree(SeededMemory(settings, m, call), SeededRows(settings, rows, call))
    ensures forall id | id in SeededRows(settings, rows, call) && id !in rows :: id.Seeded?
  {
    AgreedOn(m, rows, call.tenant);
    if call.tenant !in m {
      SeedingRows(settings, rows, call);
      DefaultRulesAreSeeded(settings, call);
      var m', rows' := SeededMemory(settings, m, call), SeededRows(settings, rows, call);
      DefaultsAreGood(settings, call, RowsOf(rows', call.tenant));
      hide Good, DefaultRules, Lists, SeededRows, SaveAll, DistinctIds, RowsOf, Agree, Filed;
      OthersStillAgree(m, rows, m', rows', call.tenant);
    }
  }

  lemma AgreedOn(m: Memory, rows: Rows, tenant: Tenant)
    requires Agree(m, rows)
    ensures Filed(rows) && Good(RowsOf(rows, tenant))
    ensures tenant in m ==> Lists(m[tenant], RowsOf(rows, tenant)) && RowsOf(rows, tenant) != map[]
    ensures tenant !in m ==> RowsOf(rows, tenant) == map[]
  {
    assert AgreeOn(m, rows, tenant);
    if tenant in m {
      var rule := m[tenant][0];
      assert rule.id in RowsOf(rows, tenant);
    }
  }

  lemma {:induction false} SaveAllKeys(rows: Rows, rules: seq<RuleVersion>)
    ensures forall id :: id in SaveAll(rows, rules) <==> id in rows || exists i :: 0 <= i < |rules| && rules[i].id == id
    decreases |rules|
  {
    if rules != [] {
      SaveAllKeys(rows[rules[0].id := rules[0]], rules[1..]);
      forall id ensures id in SaveAll(rows, rules) <==> id in rows || exists i :: 0 <= i < |rules| && rules[i].id == id {
        if i :| 0 <= i < |rules| && rules[i].id == id {
          if i > 0 { assert rules[1..][i - 1].id == id; }
        }
      }
    }
  }

  lemma SourceIsFiled(rows: Rows, call: Call)
    requires Filed(rows) && RowsSource(rows, call).Some?
    ensures var source := RowsSource(rows, call).value;
            source.id in RowsOf(rows, call.tenant) && RowsOf(rows, call.tenant)[source.id] == source
            && source.tenant == call.tenant
  {
  }

  lemma SameSource(m: Memory, rows: Rows, call: Call)
    requires Agree(m, rows) && call.tenant in m
    ensures MemorySource(m, call) == RowsSource(rows, call)
  {
    assert AgreeOn(m, rows, call.tenant);
    if call.op.Tune? { ListedSomewhere(m[call.tenant], RowsOf(rows, call.tenant), call.op.source); }
  }

  lemma SameNumbers(rules: seq<RuleVersion>, listing: seq<RuleVersion>, book: Book)
    requires Lists(rules, book) && Lists(listing, book)
    ensures forall name :: MaxVersion(rules, name) == MaxVersion(listing, name)
  {
    forall name ensures MaxVersion(rules, name) == MaxVersion(listing, name) {
      MaxVersionOrderFree(rules, listing, book, name);
    }
  }

  lemma BuiltIsAddable(settings: Settings, rows: Rows, call: Call, listing: seq<RuleVersion>)
    requires Filed(rows) && (call.op.Create? || call.op.Tune?)
    requires Lists(listing, RowsOf(rows, call.tenant)) && Generated(call.op.ulid) !in rows
    ensures var built := Build(settings, call, RowsSource(rows, call), listing);
            built.Ok? ==>
              && built.value.id == Generated(call.op.ulid)
              && built.value.tenant == call.tenant
              && Addable(RowsOf(rows, call.tenant), built.value)
              && built.value.version == MaxVersion(listing, built.value.name) + 1
  {
    var book, source := RowsOf(rows, call.tenant), RowsSource(rows, call);
    assert Generated(call.op.ulid) !in book;
    if source.Some? { SourceIsFiled(rows, call); }
    hide Filed, Lists, MaxVersion, RowsOf, RowsSource, Addable;
    if call.op.Create? {
      CreatedIsAddable(settings, call.tenant, call.actor, call.op.request, call.op.ulid, call.now, listing, book);
    } else if source.Some? {
      TunedIsAddable(source.value, call.actor, call.op.tuning, call.op.ulid, call.now, listing, book);
    }
  }

  /** Whatever order the rows come back in, both homes build the same version, numbered above
      every other version of its rule and descending from what it was tuned from. */
  lemma BuildsAgree(settings: Settings, m: Memory, rows: Rows, call: Call, listing: seq<RuleVersion>)
    requires Agree(m, rows) && call.tenant in m && (call.op.Create? || call.op.Tune?)
    requires Lists(listing, RowsOf(rows, call.tenant)) && Generated(call.op.ulid) !in rows
    ensures var built := Build(settings, call, MemorySource(m, call), m[call.tenant]);
            && built == Build(settings, call, RowsSource(rows, call), listing)
            && (built.Ok? ==>
                  && built.value.id == Generated(call.op.ulid)
                  && built.value.tenant == call.tenant
                  && Addable(RowsOf(rows, call.tenant), built.value)
                  && built.value.version == MaxVersion(listing, built.value.name) + 1)
  {
    hide Agree, Good, Lists, MemorySource, RowsSource, MaxVersion, Addable;
    SameSource(m, rows, call);
    AgreedOn(m, rows, call.tenant);
    SameNumbers(m[call.tenant], listing, RowsOf(rows, call.tenant));
    BuiltIsAddable(settings, rows, call, listing);
  }

  // ----- Every call, every run -----

  /** A generated id is one that is not in use. */
  ghost predicate FreshFor(rows: Rows, call: Call) {
    call.op.Create? || call.op.Tune? ==> Generated(call.op.ulid) !in rows
  }

  lemma AddKeepsGood(book: Book, rule: RuleVersion, listing: seq<RuleVersion>)
    requires Good(book) && Addable(book, rule) && Lists(listing, book)
    requires rule.version == MaxVersion(listing, rule.name) + 1
    ensures var book' := book[rule.id := rule];
            && Sound(book') && UniqueVersions(book') && OneActive(book', {rule.id})
            && (rule.status != Active ==> OneActive(book', {}))
  {
    AddKeepsSound(book, rule);
    NumberedFromBookIsUnique(book, rule, listing);
    hide Sound, UniqueVersions, Lists, Addable;
  }

  /** What pushing the version in memory and saving its row leaves behind. */
  lemma PushingAgrees(m: Memory, rows: Rows, rule: RuleVersion, listing: seq<RuleVersion>)
    requires Agree(m, rows) && rule.tenant in m && rule.id !in rows && rule.id.Generated?
    requires Lists(listing, RowsOf(rows, rule.tenant)) && Addable(RowsOf(rows, rule.tenant), rule)
    requires rule.version == MaxVersion(listing, rule.name) + 1
    ensures var saved := rows[rule.id := rule];
            var book' := RowsOf(saved, rule.tenant);
            && Filed(saved) && Lists(m[rule.tenant] + [rule], book')
            && rule.id in book' && saved[rule.id] == rule
            && Sound(book') && UniqueVersions(book') && OneActive(book', {rule.id})
            && (rule.status != Active ==> OneActive(book', {}))
            && forall any | any != rule.tenant :: RowsOf(saved, any) == RowsOf(rows, any)
  {
    hide Agree, Filed, Lists, Sound, UniqueVersions, OneActive, Addable, MaxVersion, RowsOf;
    AgreedOn(m, rows, rule.tenant);
    SaveAppends(rows, rule, m[rule.tenant]);
    SavedByTenant(rows, rule, rule.tenant);
    AddKeepsGood(RowsOf(rows, rule.tenant), rule, listing);
  }

  /** Pushing the new version in memory and saving its row, each followed by an activation when the
      version was asked to be active. */
  lemma SavingAgrees(m: Memory, rows: Rows, rule: RuleVersion, listing: seq<RuleVersion>, later: Time)
    requires Agree(m, rows) && rule.tenant in m && rule.id !in rows && rule.id.Generated?
    requires Lists(listing, RowsOf(rows, rule.tenant)) && Addable(RowsOf(rows, rule.tenant), rule)
    requires rule.version == MaxVersion(listing, rule.name) + 1
    ensures var pushed, saved := m[rule.tenant := m[rule.tenant] + [rule]], rows[rule.id := rule];
            if rule.status == Active then
              var (m', reply) := MemoryChange(pushed, rule.tenant, rule.id, Activate, later);
              var (rows', answer) := RowsChange(saved, rule.tenant, rule.id, Activate, later);
              Agree(m', rows') && reply == answer
            else Agree(pushed, saved)
  {
    var tenant := rule.tenant;
    var rules := m[tenant] + [rule];
    var pushed, saved := m[tenant := rules], rows[rule.id := rule];
    PushingAgrees(m, rows, rule, listing);
    hide Agree, Filed, Lists, Sound, UniqueVersions, OneActive, Addable, MaxVersion, RowsOf, Effect, VectorChanged,
      RowsChanged;
    if rule.status == Active {
      ChangingAgrees(rules, saved, tenant, rule.id, Activate, later, {rule.id});
      OthersStillAgree(m, rows, MemoryChange(pushed, tenant, rule.id, Activate, later).0,
                       RowsChanged(saved, tenant, rule.id, Activate, later), tenant);
    } else {
      OthersStillAgree(m, rows, pushed, saved, tenant);
    }
  }

  lemma SameAnswer(rules: seq<RuleVersion>, listing: seq<RuleVersion>, book: Book)
    requires Lists(rules, book) && Lists(listing, book)
    ensures AnswerWith(rules) == AnswerWith(listing)
  {
    ListedRules(rules, book);
    ListedRules(listing, book);
    hide Lists;
    forall rule ensures rule in rules <==> rule in listing {
    }
  }

  lemma ListedRules(rules: seq<RuleVersion>, book: Book)
    requires Lists(rules, book)
    ensures forall rule :: rule in rules <==> rule.id in book && book[rule.id] == rule
  {
    forall rule ensures rule in rules <==> rule.id in book && book[rule.id] == rule {
      if rule.id in book && book[rule.id] == rule {
        var i :| 0 <= i < |rules| && rules[i].id == rule.id;
        assert rules[i] == rule;
      }
    }
  }

  /** One call, in any order of the returned rows: the homes still agree and the replies are equal. */
  lemma CallAgrees(settings: Settings, m: Memory, rows: Rows, call: Call, listing: seq<RuleVersion>)
    requires Agree(m, rows) && FreshFor(rows, call)
    requires Lists(listing, RowsOf(SeededRows(settings, rows, call), call.tenant))
    ensures var (m', reply) := MemoryStep(settings, m, call);
            var (rows', answer) := RowsStep(settings, rows, call, listing);
            Agree(m', rows') && reply == answer
  {
    hide Agree, Good, Lists, RowsChange, MemoryChange, Build, Addable, MaxVersion, SeededRows, SeededMemory;
    if call.op.Change? {
      ChangeAgrees(m, rows, call.tenant, call.op.id, call.op.change, call.now);
    } else {
      SeedingAgrees(settings, m, rows, call);
      var m1, rows1 := SeededMemory(settings, m, call), SeededRows(settings, rows, call);
      if call.op.Load? {
        AgreedOn(m1, rows1, call.tenant);
        SameAnswer(m1[call.tenant], listing, RowsOf(rows1, call.tenant));
      } else {
        BuildsAgree(settings, m1, rows1, call, listing);
        var built := Build(settings, call, RowsSource(rows1, call), listing);
        if built.Ok? { SavingAgrees(m1, rows1, built.value, listing, call.op.later); }
      }
    }
  }

  /** A history of calls from empty homes, with the listing the store returned in each. */
  ghost predicate IsHistory(settings: Settings, ms: seq<Memory>, rs: seq<Rows>, calls: seq<Call>,
                            listings: seq<seq<RuleVersion>>)
  {
    && |ms| == |rs| == |calls| + 1 && |listings| == |calls|
    && ms[0] == map[] && rs[0] == map[]
    && (forall i | 0 <= i < |calls| ::
          && FreshFor(rs[i], calls[i])
          && Lists(listings[i], RowsOf(SeededRows(settings, rs[i], calls[i]), calls[i].tenant))
          && ms[i + 1] == MemoryStep(settings, ms[i], calls[i]).0
          && rs[i + 1] == RowsStep(settings, rs[i], calls[i], listings[i]).0)
  }

  /** After every history of create, tune, activate, enable, disable and retire the two homes hold
      the same versions and have given the same answers. */
  lemma {:induction false} HomesAlwaysAgree(settings: Settings, ms: seq<Memory>, rs: seq<Rows>, calls: seq<Call>,
                                            listings: seq<seq<RuleVersion>>, i: nat)
    requires IsHistory(settings, ms, rs, calls, listings) && i < |ms|
    ensures Agree(ms[i], rs[i])
    ensures i < |calls| ==>
              MemoryStep(settings, ms[i], calls[i]).1 == RowsStep(settings, rs[i], calls[i], listings[i]).1
  {
    hide Agree, Lists, MemoryStep, RowsStep, FreshFor, SeededRows, RowsOf;
    if i == 0 {
      EmptyHomesAgree();
    } else {
      HomesAlwaysAgree(settings, ms, rs, calls, listings, i - 1);
      CallAgrees(settings, ms[i - 1], rs[i - 1], calls[i - 1], listings[i - 1]);
    }
    if i < |calls| {
      CallAgrees(settings, ms[i], rs[i], calls[i], listings[i]);
    }
  }

  /** In particular, at every moment between calls a rule has at most one active version, version
      numbers are unique, and a version is retired exactly when its retirement time is set. */
  lemma HistoryIsGood(settings: Settings, ms: seq<Memory>, rs: seq<Rows>, calls: seq<Call>,
                      listings: seq<seq<RuleVersion>>, i: nat, tenant: Tenant)
    requires IsHistory(settings, ms, rs, calls, listings) && i < |ms|
    ensures Good(RowsOf(rs[i], tenant))
    ensures tenant in ms[i] ==> Lists(ms[i][tenant], RowsOf(rs[i], tenant))
  {
    HomesAlwaysAgree(settings, ms, rs, calls, listings, i);
    AgreedOn(ms[i], rs[i], tenant);
  }
}
