/** UEBA rule versions of one tenant: how they are built, what a state change does to each, and the
    rules every history of changes obeys. */
module RuleVersions {
  import opened Wrappers
  import Alerts = UebaAlerts

  type Tenant = string
  type Time = int

  /** A seeded version is identified by what it is, any other by a unique random text. */
  datatype VersionId =
    | Seeded(tenant: Tenant, name: Alerts.UebaRule)
    | Generated(ulid: string)

  datatype Status = Draft | Active | Retired

  datatype RuleVersion = RuleVersion(
    id: VersionId,
    tenant: Tenant,
    name: Alerts.UebaRule,
    version: nat,
    status: Status,
    enabled: bool,
    threshold: nat,
    riskScore: Alerts.u8,
    action: Alerts.MitigationAction,
    base: Option<VersionId>,
    createdBy: string,
    createdAt: Time,
    activatedAt: Option<Time>,
    retiredAt: Option<Time>)

  datatype StateChange = Activate | Enable | Disable | Retire

  datatype GovernanceError = UnknownRuleName | UnknownAction | VersionNotFound

  datatype Settings = Settings(queryBurst: nat, exportSpike: nat, deniedQuery: nat,
                               highRisk: Alerts.u8, criticalRisk: Alerts.u8)

  /** A creation request whose rule name and action have been parsed: `rule` is `None` for an
      unknown name, `action` is `None` when not given and `Some(None)` when unknown. */
  datatype CreateRequest = CreateRequest(
    rule: Option<Alerts.UebaRule>,
    threshold: Option<nat>,
    riskScore: Option<Alerts.u8>,
    action: Option<Option<Alerts.MitigationAction>>,
    activate: bool,
    enabled: bool)

  datatype TuneRequest = TuneRequest(
    threshold: Option<nat>,
    riskScore: Option<Alerts.u8>,
    action: Option<Option<Alerts.MitigationAction>>,
    activate: bool)

  /** The versions of one tenant, by id. */
  type Book = map<VersionId, RuleVersion>

  // ----- Building versions -----

  function DefaultThreshold(settings: Settings, name: Alerts.UebaRule): nat {
    match name
    case HighFrequencyQuery => settings.queryBurst
    case ExportSpike => settings.exportSpike
    case UnauthorizedQueryBurst => settings.deniedQuery
    case _ => 1
  }

  function AtLeast(score: Alerts.u8, floor: Alerts.u8): Alerts.u8 {
    if score < floor then floor else score
  }

  function DefaultRiskScore(settings: Settings, name: Alerts.UebaRule): Alerts.u8 {
    match name
    case HighFrequencyQuery => 58
    case AfterHoursAccess => 44
    case UnauthorizedQueryBurst => AtLeast(settings.highRisk, 70)
    case _ => AtLeast(settings.criticalRisk, 90)
  }

  function DefaultAction(name: Alerts.UebaRule): Alerts.MitigationAction {
    match name
    case HighFrequencyQuery => Alerts.StepUpAuth
    case AfterHoursAccess => Alerts.Observe
    case UnauthorizedQueryBurst => Alerts.SuspendPermissions
    case _ => Alerts.TerminateSession
  }

  function DefaultRule(settings: Settings, tenant: Tenant, actor: string, now: Time, name: Alerts.UebaRule)
    : RuleVersion
  {
    RuleVersion(Seeded(tenant, name), tenant, name, 1, Active, true,
                DefaultThreshold(settings, name), DefaultRiskScore(settings, name), DefaultAction(name),
                None, actor, now, Some(now), None)
  }

  /** The six versions a tenant starts with. */
  function DefaultRules(settings: Settings, tenant: Tenant, actor: string, now: Time): seq<RuleVersion> {
    [DefaultRule(settings, tenant, actor, now, Alerts.HighFrequencyQuery),
     DefaultRule(settings, tenant, actor, now, Alerts.ExportSpike),
     DefaultRule(settings, tenant, actor, now, Alerts.UnauthorizedQueryBurst),
     DefaultRule(settings, tenant, actor, now, Alerts.AfterHoursAccess),
     DefaultRule(settings, tenant, actor, now, Alerts.HiddenChannelDns),
     DefaultRule(settings, tenant, actor, now, Alerts.HiddenChannelHttp)]
  }

  /** The largest version number used for `name`, or zero. */
  function MaxVersion(existing: seq<RuleVersion>, name: Alerts.UebaRule): nat {
    if existing == [] then 0
    else
      var rest := MaxVersion(existing[1..], name);
      if existing[0].name == name && existing[0].version > rest then existing[0].version else rest
  }

  function BuildCreated(settings: Settings, tenant: Tenant, actor: string, request: CreateRequest,
                        ulid: string, now: Time, existing: seq<RuleVersion>)
    : Result<RuleVersion, GovernanceError>
  {
    if request.rule.None? then Err(UnknownRuleName)
    else
      var name := request.rule.value;
      if request.action.Some? && request.action.value.None? then Err(UnknownAction)
      else
        Ok(RuleVersion(Generated(ulid), tenant, name, MaxVersion(existing, name) + 1,
                       if request.activate then Active else Draft, request.enabled,
                       OrElse(request.threshold, DefaultThreshold(settings, name)),
                       OrElse(request.riskScore, DefaultRiskScore(settings, name)),
                       if request.action.Some? then request.action.value.value else DefaultAction(name),
                       None, actor, now, if request.activate then Some(now) else None, None))
  }

  /** Tuning keeps what is not asked to change; an unknown action is ignored. */
  function BuildTuned(source: RuleVersion, actor: string, request: TuneRequest, ulid: string, now: Time,
                      existing: seq<RuleVersion>): RuleVersion
  {
    RuleVersion(Generated(ulid), source.tenant, source.name, MaxVersion(existing, source.name) + 1,
                if request.activate then Active else Draft, true,
                OrElse(request.threshold, source.threshold),
                OrElse(request.riskScore, source.riskScore),
                OrElse(OrElse(request.action, None), source.action),
                Some(source.id), actor, now, if request.activate then Some(now) else None, None)
  }

  // ----- State changes -----

  function Superseded(rule: RuleVersion, target: RuleVersion, now: Time): RuleVersion {
    if rule.name == target.name && rule.status == Active
    then rule.(status := Retired, enabled := false, retiredAt := Some(now))
    else rule
  }

  /** What changing `target` does to `rule` in the persistent store, which skips a retired target
      for both enabling and disabling. */
  function Effect(rule: RuleVersion, target: RuleVersion, change: StateChange, now: Time): RuleVersion {
    if rule.id != target.id then
      if change.Activate? then Superseded(rule, target, now) else rule
    else
      match change
      case Activate => rule.(status := Active, enabled := true, activatedAt := Some(now), retiredAt := None)
      case Enable => if rule.status != Retired then rule.(enabled := true) else rule
      case Disable => if rule.status != Retired then rule.(enabled := false) else rule
      case Retire => rule.(status := Retired, enabled := false, retiredAt := Some(now))
  }

  /** The same in memory, where disabling is unconditional. */
  function MemoryEffect(rule: RuleVersion, target: RuleVersion, change: StateChange, now: Time): RuleVersion {
    if rule.id == target.id && change.Disable? then rule.(enabled := false)
    else Effect(rule, target, change, now)
  }

  function Changed(book: Book, id: VersionId, change: StateChange, now: Time): Book
    requires id in book
  {
    map other | other in book :: Effect(book[other], book[id], change, now)
  }

  // ----- What every history keeps -----

  /** Retired exactly when a retirement time is set, and never enabled while retired. */
  predicate Shaped(rule: RuleVersion) {
    && (rule.status == Retired <==> rule.retiredAt.Some?)
    && (rule.status == Retired ==> !rule.enabled)
    && (rule.status == Active ==> rule.activatedAt.Some?)
  }

  /** The version was tuned from an earlier version of the same rule, if from any. */
  ghost predicate Descends(book: Book, rule: RuleVersion) {
    rule.base.Some? ==>
      && rule.base.value in book
      && book[rule.base.value].name == rule.name
      && book[rule.base.value].version < rule.version
  }

  /** What no interleaving of requests can break. */
  ghost predicate Sound(book: Book) {
    forall id | id in book :: book[id].id == id && Shaped(book[id]) && Descends(book, book[id])
  }

  predicate SameActiveName(a: RuleVersion, b: RuleVersion) {
    a.status == Active && b.status == Active && a.name == b.name
  }

  /** Among the versions outside `pending`, each rule has at most one active version. */
  ghost predicate OneActive(book: Book, pending: set<VersionId>) {
    forall a, b | a in book && b in book && a !in pending && b !in pending && SameActiveName(book[a], book[b]) ::
      a == b
  }

  ghost predicate UniqueVersions(book: Book) {
    forall a, b | a in book && b in book && book[a].name == book[b].name && book[a].version == book[b].version ::
      a == b
  }

  /** The two disagree exactly on disabling a target that is retired and still enabled. */
  lemma EffectsAgree(rule: RuleVersion, target: RuleVersion, change: StateChange, now: Time)
    ensures MemoryEffect(rule, target, change, now) == Effect(rule, target, change, now)
       <==> !(rule.id == target.id && change.Disable? && rule.status == Retired && rule.enabled)
  {
  }

  lemma EffectKeeps(rule: RuleVersion, target: RuleVersion, change: StateChange, now: Time)
    requires Shaped(rule)
    ensures var rule' := Effect(rule, target, change, now);
            && Shaped(rule')
            && rule'.id == rule.id && rule'.tenant == rule.tenant && rule'.name == rule.name
            && rule'.version == rule.version && rule'.base == rule.base
            && (rule'.status == Active ==> rule.status == Active || (rule.id == target.id && change.Activate?))
            && (change.Activate? && rule.id != target.id && rule.name == target.name ==> rule'.status != Active)
  {
  }

  lemma ChangeKeepsSound(book: Book, id: VersionId, change: StateChange, now: Time)
    requires Sound(book) && id in book
    ensures Sound(Changed(book, id, change, now))
  {
    var book' := Changed(book, id, change, now);
    forall other | other in book'
      ensures book'[other].id == other && Shaped(book'[other]) && Descends(book', book'[other])
    {
      EffectKeeps(book[other], book[id], change, now);
      if book[other].base.Some? {
        EffectKeeps(book[book[other].base.value], book[id], change, now);
      }
    }
  }

  /** Activating a version leaves it the only active one of its rule, pending or not; no other
      change makes a version active. */
  lemma ChangeKeepsOneActive(book: Book, pending: set<VersionId>, id: VersionId, change: StateChange, now: Time)
    requires Sound(book) && OneActive(book, pending) && id in book
    ensures OneActive(Changed(book, id, change, now), if change.Activate? then pending - {id} else pending)
    ensures change.Activate? ==>
              && Changed(book, id, change, now)[id].status == Active
              && forall other | other in book && other != id && book[other].name == book[id].name ::
                   Changed(book, id, change, now)[other].status != Active
  {
    var book' := Changed(book, id, change, now);
    forall other | other in book
      ensures book'[other].name == book[other].name
      ensures book'[other].status == Active ==> book[other].status == Active || (other == id && change.Activate?)
      ensures change.Activate? && other != id && book[other].name == book[id].name ==> book'[other].status != Active
    {
      assert Shaped(book[other]) && book[other].id == other;
      EffectKeeps(book[other], book[id], change, now);
    }
    assert book'[id].name == book[id].name;
    hide Effect, Sound;
  }

  lemma ChangeKeepsUniqueVersions(book: Book, id: VersionId, change: StateChange, now: Time)
    requires Sound(book) && UniqueVersions(book) && id in book
    ensures UniqueVersions(Changed(book, id, change, now))
  {
    var book' := Changed(book, id, change, now);
    forall other | other in book
      ensures book'[other].name == book[other].name && book'[other].version == book[other].version
    {
      assert Shaped(book[other]);
      EffectKeeps(book[other], book[id], change, now);
    }
    hide Effect, Sound;
  }

  // ----- Listings -----

  predicate DistinctIds(rules: seq<RuleVersion>) {
    forall i, j | 0 <= i < j < |rules| :: rules[i].id != rules[j].id
  }

  /** `rules` holds each version of `book` once, in some order. */
  ghost predicate Lists(rules: seq<RuleVersion>, book: Book) {
    && DistinctIds(rules)
    && (forall i | 0 <= i < |rules| :: rules[i].id in book && book[rules[i].id] == rules[i])
    && (forall id | id in book :: exists i :: 0 <= i < |rules| && rules[i].id == id)
  }

  lemma {:induction false} MaxVersionBounds(existing: seq<RuleVersion>, name: Alerts.UebaRule)
    ensures forall i | 0 <= i < |existing| && existing[i].name == name :: existing[i].version <= MaxVersion(existing, name)
    ensures MaxVersion(existing, name) > 0 ==>
              exists i :: 0 <= i < |existing| && existing[i].name == name
                          && existing[i].version == MaxVersion(existing, name)
  {
    if existing != [] {
      MaxVersionBounds(existing[1..], name);
      if MaxVersion(existing, name) > 0 {
        if existing[0].name == name && existing[0].version > MaxVersion(existing[1..], name) {
          assert existing[0].version == MaxVersion(existing, name);
        } else {
          var i :| 0 <= i < |existing[1..]| && existing[1..][i].name == name
                   && existing[1..][i].version == MaxVersion(existing[1..], name);
          assert existing[i + 1] == existing[1..][i];
        }
      }
      forall i | 0 <= i < |existing| && existing[i].name == name
        ensures existing[i].version <= MaxVersion(existing, name)
      {
        if i > 0 { assert existing[i] == existing[1..][i - 1]; }
      }
    }
  }

  /** The next number is larger than that of every version of the rule. */
  lemma ListedBelowMax(existing: seq<RuleVersion>, book: Book, id: VersionId)
    requires Lists(existing, book) && id in book
    ensures book[id].version <= MaxVersion(existing, book[id].name)
  {
    MaxVersionBounds(existing, book[id].name);
    var i :| 0 <= i < |existing| && existing[i].id == id;
  }

  /** The next number does not depend on the order in which the versions are listed. */
  lemma MaxVersionOrderFree(rules: seq<RuleVersion>, others: seq<RuleVersion>, book: Book, name: Alerts.UebaRule)
    requires Lists(rules, book) && Lists(others, book)
    ensures MaxVersion(rules, name) == MaxVersion(others, name)
  {
    MaxVersionAtMost(rules, others, book, name);
    MaxVersionAtMost(others, rules, book, name);
  }

  lemma MaxVersionAtMost(rules: seq<RuleVersion>, others: seq<RuleVersion>, book: Book, name: Alerts.UebaRule)
    requires Lists(rules, book) && Lists(others, book)
    ensures MaxVersion(rules, name) <= MaxVersion(others, name)
  {
    MaxVersionBounds(rules, name);
    if MaxVersion(rules, name) > 0 {
      var i :| 0 <= i < |rules| && rules[i].name == name && rules[i].version == MaxVersion(rules, name);
      ListedBelowMax(others, book, rules[i].id);
    }
  }

  // ----- Adding versions -----

  /** A version built from a listing of the book, not yet in it. */
  ghost predicate Addable(book: Book, rule: RuleVersion) {
    rule.id !in book && Shaped(rule) && Descends(book, rule)
  }

  lemma AddKeepsSound(book: Book, rule: RuleVersion)
    requires Sound(book) && Addable(book, rule)
    ensures Sound(book[rule.id := rule])
  {
    var book' := book[rule.id := rule];
    forall id | id in book' ensures book'[id].id == id && Shaped(book'[id]) && Descends(book', book'[id]) {
      if id != rule.id { assert Descends(book, book[id]); }
    }
  }

  lemma CreatedIsAddable(settings: Settings, tenant: Tenant, actor: string, request: CreateRequest,
                         ulid: string, now: Time, existing: seq<RuleVersion>, book: Book)
    requires Generated(ulid) !in book
    ensures var built := BuildCreated(settings, tenant, actor, request, ulid, now, existing);
            built.Ok? ==> Addable(book, built.value)
  {
  }

  lemma TunedIsAddable(source: RuleVersion, actor: string, request: TuneRequest, ulid: string, now: Time,
                       existing: seq<RuleVersion>, book: Book)
    requires Generated(ulid) !in book && Lists(existing, book)
    requires source.id in book && book[source.id] == source
    ensures Addable(book, BuildTuned(source, actor, request, ulid, now, existing))
  {
    ListedBelowMax(existing, book, source.id);
  }

  /** A version numbered from the book as it is keeps the numbers unique. */
  lemma NumberedFromBookIsUnique(book: Book, rule: RuleVersion, existing: seq<RuleVersion>)
    requires Sound(book) && UniqueVersions(book) && rule.id !in book && Lists(existing, book)
    requires rule.version == MaxVersion(existing, rule.name) + 1
    ensures UniqueVersions(book[rule.id := rule])
  {
    forall id | id in book && book[id].name == rule.name ensures book[id].version < rule.version {
      ListedBelowMax(existing, book, id);
    }
    hide Lists, Sound;
  }

  /** A creation fails exactly for an unknown rule or action. Otherwise it has the settings of the
      version the tenant is seeded with, except for those the request gives. */
  lemma CreatedDiffersFromSeedAsAsked(settings: Settings, tenant: Tenant, actor: string, request: CreateRequest,
                                      ulid: string, now: Time, existing: seq<RuleVersion>)
    ensures var built := BuildCreated(settings, tenant, actor, request, ulid, now, existing);
            && (built.Err? <==> request.rule.None? || request.action == Some(None))
            && (built.Ok? ==>
                  var created, seed := built.value, DefaultRule(settings, tenant, actor, now, request.rule.value);
                  && created.name == seed.name && created.tenant == seed.tenant && created.createdBy == actor
                  && (if request.threshold.Some? then request.threshold == Some(created.threshold)
                      else created.threshold == seed.threshold)
                  && (if request.riskScore.Some? then request.riskScore == Some(created.riskScore)
                      else created.riskScore == seed.riskScore)
                  && (if request.action.Some? then request.action == Some(Some(created.action))
                      else created.action == seed.action)
                  && (request.activate && request.enabled ==>
                        created.status == seed.status && created.enabled == seed.enabled
                        && created.activatedAt == seed.activatedAt)
                  && (!request.activate ==> created.status == Draft && created.activatedAt == None)
                  && created.enabled == request.enabled)
  {
  }

  /** Tuning never fails: a setting that is not given, or an action that is not known, stays as it was,
      and the tuned version is enabled whatever its source. */
  lemma TunedDiffersFromSourceAsAsked(source: RuleVersion, actor: string, request: TuneRequest, ulid: string,
                                      now: Time, existing: seq<RuleVersion>)
    ensures var tuned := BuildTuned(source, actor, request, ulid, now, existing);
            && tuned.name == source.name && tuned.tenant == source.tenant && tuned.base == Some(source.id)
            && tuned.enabled && tuned.createdBy == actor
            && (if request.threshold.Some? then request.threshold == Some(tuned.threshold)
                else tuned.threshold == source.threshold)
            && (if request.riskScore.Some? then request.riskScore == Some(tuned.riskScore)
                else tuned.riskScore == source.riskScore)
            && (if request.action.Some? && request.action.value.Some? then request.action == Some(Some(tuned.action))
                else tuned.action == source.action)
            && tuned.status == (if request.activate then Active else Draft)
            && (tuned.activatedAt.Some? <==> request.activate)
  {
  }

  // ----- Lineage -----

  /** The ids from a version back to the one it all started from. */
  ghost function Lineage(book: Book, id: VersionId): (path: seq<VersionId>)
    requires Sound(book) && id in book
    ensures |path| >= 1 && path[0] == id
    decreases book[id].version
  {
    assert Descends(book, book[id]);
    if book[id].base.None? then [id] else [id] + Lineage(book, book[id].base.value)
  }

  /** Walking back to base versions stays within one rule, strictly lowers the version number and
      ends, after at most `version` steps, at a version with no base. */
  lemma {:induction false} LineageDescends(book: Book, id: VersionId)
    requires Sound(book) && id in book
    ensures var path := Lineage(book, id);
            && (forall i | 0 <= i < |path| :: path[i] in book && book[path[i]].name == book[id].name)
            && (forall i | 0 <= i < |path| - 1 ::
                  && book[path[i]].base == Some(path[i + 1])
                  && book[path[i + 1]].version < book[path[i]].version)
            && book[path[|path| - 1]].base.None?
            && |path| <= book[id].version + 1
    decreases book[id].version
  {
    assert Descends(book, book[id]);
    if book[id].base.Some? {
      var rest := Lineage(book, book[id].base.value);
      LineageDescends(book, book[id].base.value);
      var path := Lineage(book, id);
      assert path == [id] + rest;
      forall i | 0 <= i < |path| - 1
        ensures book[path[i]].base == Some(path[i + 1]) && book[path[i + 1]].version < book[path[i]].version
      {
        if i > 0 { assert path[i] == rest[i - 1] && path[i + 1] == rest[i]; }
      }
    }
  }
}
