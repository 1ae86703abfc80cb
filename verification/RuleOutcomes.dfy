/** What each request to the governance endpoints does, in terms of the versions before and after it. The
    statements are about the rows of the store; `RuleGovernance.CallAgrees` carries them over to memory. */
module RuleOutcomes {
  import opened Wrappers
  import opened RuleVersions
  import opened RuleGovernance
  import Alerts = UebaAlerts

  predicate SameSettings(a: RuleVersion, b: RuleVersion) {
    && a.id == b.id && a.tenant == b.tenant && a.name == b.name && a.version == b.version
    && a.threshold == b.threshold && a.riskScore == b.riskScore && a.action == b.action
    && a.base == b.base && a.createdBy == b.createdBy && a.createdAt == b.createdAt
  }

  predicate IsRetired(rule: RuleVersion, was: RuleVersion, now: Time) {
    && SameSettings(rule, was) && rule.status == Retired && !rule.enabled
    && rule.activatedAt == was.activatedAt && rule.retiredAt == Some(now)
  }

  predicate IsActivated(rule: RuleVersion, was: RuleVersion, now: Time) {
    && SameSettings(rule, was) && rule.status == Active && rule.enabled
    && rule.activatedAt == Some(now) && rule.retiredAt == None
  }

  /** Of the versions other than the target, the active ones of its rule are retired and the rest unchanged. */
  ghost predicate Supersedes(rows: Rows, rows': Rows, target: RuleVersion, now: Time) {
    forall other | other in rows && other != target.id ::
      && other in rows'
      && if rows[other].tenant == target.tenant && rows[other].name == target.name && rows[other].status == Active
         then IsRetired(rows'[other], rows[other], now)
         else rows'[other] == rows[other]
  }

  ghost predicate OthersSame(rows: Rows, rows': Rows, id: VersionId) {
    forall other | other in rows && other != id :: other in rows' && rows'[other] == rows[other]
  }

  /** A change of a version the tenant does not have is answered so and changes nothing. Activating gives an
      active, enabled version and retires the active ones of its rule; enabling enables unless it is
      retired; disabling disables; retiring retires and disables. Nothing else changes, and the answer is
      the version as it then is. */
  lemma ChangeOutcome(rows: Rows, tenant: Tenant, id: VersionId, change: StateChange, now: Time)
    requires Filed(rows) && Sound(RowsOf(rows, tenant))
    ensures var (rows', reply) := RowsChange(rows, tenant, id, change, now);
            if id !in rows || rows[id].tenant != tenant then rows' == rows && reply == Failed(VersionNotFound)
            else
              && rows'.Keys == rows.Keys && reply == Done(rows'[id])
              && match change
                 case Activate => IsActivated(rows'[id], rows[id], now) && Supersedes(rows, rows', rows[id], now)
                 case Enable => rows'[id] == rows[id].(enabled := rows[id].status != Retired) && OthersSame(rows, rows', id)
                 case Disable => rows'[id] == rows[id].(enabled := false) && OthersSame(rows, rows', id)
                 case Retire => IsRetired(rows'[id], rows[id], now) && OthersSame(rows, rows', id)
    ensures forall settings, call: Call, listing | call.op == Change(id, change) && call.tenant == tenant && call.now == now ::
              RowsStep(settings, rows, call, listing) == RowsChange(rows, tenant, id, change, now)
  {
    if id in rows && rows[id].tenant == tenant {
      assert Shaped(RowsOf(rows, tenant)[id]);
      hide Sound;
    }
  }

  // ----- Seeding and listing -----

  /** The version a rule starts with. */
  predicate IsSeed(rule: RuleVersion, settings: Settings, call: Call) {
    && rule.tenant == call.tenant && rule.version == 1 && rule.base == None
    && rule.status == Active && rule.enabled && rule.activatedAt == Some(call.now) && rule.retiredAt == None
    && rule.createdBy == call.actor && rule.createdAt == call.now
    && match rule.name
       case HighFrequencyQuery =>
         rule.threshold == settings.queryBurst && rule.riskScore == 58 && rule.action == Alerts.StepUpAuth
       case ExportSpike =>
         && rule.threshold == settings.exportSpike && rule.action == Alerts.TerminateSession
         && rule.riskScore == if settings.criticalRisk > 90 then settings.criticalRisk else 90
       case UnauthorizedQueryBurst =>
         && rule.threshold == settings.deniedQuery && rule.action == Alerts.SuspendPermissions
         && rule.riskScore == if settings.highRisk > 70 then settings.highRisk else 70
       case AfterHoursAccess =>
         rule.threshold == 1 && rule.riskScore == 44 && rule.action == Alerts.Observe
       case HiddenChannelDns =>
         && rule.threshold == 1 && rule.action == Alerts.TerminateSession
         && rule.riskScore == if settings.criticalRisk > 90 then settings.criticalRisk else 90
       case HiddenChannelHttp =>
         && rule.threshold == 1 && rule.action == Alerts.TerminateSession
         && rule.riskScore == if settings.criticalRisk > 90 then settings.criticalRisk else 90
  }

  predicate HasRule(rules: seq<RuleVersion>, name: Alerts.UebaRule) {
    exists i :: 0 <= i < |rules| && rules[i].name == name
  }

  lemma DefaultsAreSeeds(settings: Settings, call: Call)
    ensures var rules := DefaultRules(settings, call.tenant, call.actor, call.now);
            && (forall i | 0 <= i < |rules| :: IsSeed(rules[i], settings, call))
            && forall name :: HasRule(rules, name)
  {
    var rules := DefaultRules(settings, call.tenant, call.actor, call.now);
    forall name ensures HasRule(rules, name) {
      var i := match name
        case HighFrequencyQuery => 0
        case ExportSpike => 1
        case UnauthorizedQueryBurst => 2
        case AfterHoursAccess => 3
        case HiddenChannelDns => 4
        case HiddenChannelHttp => 5;
      assert rules[i].name == name;
    }
  }

  /** A tenant that has versions is left alone; one that has none gets exactly one version of each rule, the
      seed. Other tenants are left alone in any case. */
  lemma SeedingOutcome(settings: Settings, rows: Rows, call: Call)
    requires Filed(rows)
    ensures var rows' := SeededRows(settings, rows, call);
            && Filed(rows')
            && (forall any | any != call.tenant :: RowsOf(rows', any) == RowsOf(rows, any))
            && if RowsOf(rows, call.tenant) != map[] then rows' == rows
               else
                 var book := RowsOf(rows', call.tenant);
                 && (forall id | id in book :: id == Seeded(call.tenant, book[id].name) && IsSeed(book[id], settings, call))
                 && forall name :: Seeded(call.tenant, name) in book
  {
    if RowsOf(rows, call.tenant) == map[] {
      var rules := DefaultRules(settings, call.tenant, call.actor, call.now);
      SeedingRows(settings, rows, call);
      DefaultsAreSeeds(settings, call);
      DefaultRulesAreSeeded(settings, call);
      hide DefaultRules, SeededRows, Filed, RowsOf, IsSeed;
      var book := RowsOf(SeededRows(settings, rows, call), call.tenant);
      forall id | id in book ensures id == Seeded(call.tenant, book[id].name) && IsSeed(book[id], settings, call) {
        var i :| 0 <= i < |rules| && rules[i].id == id;
      }
      forall name ensures Seeded(call.tenant, name) in book {
        assert HasRule(rules, name);
      }
    }
  }

  /** A load is answered with exactly the tenant's versions, seeded first if there were none. */
  lemma LoadOutcome(settings: Settings, rows: Rows, call: Call, listing: seq<RuleVersion>)
    requires Filed(rows) && call.op.Load? && Lists(listing, RowsOf(SeededRows(settings, rows, call), call.tenant))
    ensures var (rows', reply) := RowsStep(settings, rows, call, listing);
            && rows' == SeededRows(settings, rows, call) && reply.Listed?
            && forall rule :: rule in reply.versions <==>
                 rule.id in rows' && rows'[rule.id] == rule && rule.tenant == call.tenant
  {
    ListedRules(listing, RowsOf(SeededRows(settings, rows, call), call.tenant));
    hide SeededRows, Lists;
  }

  // ----- Creating and tuning -----

  /** One past the largest number the rule has among the tenant's versions. */
  ghost predicate IsNextNumber(book: Book, name: Alerts.UebaRule, version: nat) {
    && version >= 1
    && (forall id | id in book && book[id].name == name :: book[id].version < version)
    && (version == 1 || exists id :: id in book && book[id].name == name && book[id].version + 1 == version)
  }

  /** The version is new, belongs to the caller's tenant and has the next number. It is a draft, or active
      and enabled from `later` on. */
  ghost predicate IsNew(rule: RuleVersion, rows: Rows, call: Call, activate: bool, later: Time) {
    && rule.id !in rows && rule.tenant == call.tenant
    && IsNextNumber(RowsOf(rows, call.tenant), rule.name, rule.version)
    && rule.createdBy == call.actor && rule.createdAt == call.now && rule.retiredAt == None
    && (if activate then rule.status == Active && rule.enabled && rule.activatedAt == Some(later)
        else rule.status == Draft && rule.activatedAt == None)
  }

  /** Filing the version is all that happens to the tenant's versions, except that an active one retires
      those of its rule that were. */
  ghost predicate IsFiled(rows: Rows, rows': Rows, rule: RuleVersion, activate: bool, later: Time) {
    && rows'.Keys == rows.Keys + {rule.id} && rows'[rule.id] == rule
    && if activate then Supersedes(rows, rows', rule, later) else OthersSame(rows, rows', rule.id)
  }

  lemma NextNumber(listing: seq<RuleVersion>, book: Book, name: Alerts.UebaRule)
    requires Lists(listing, book)
    ensures IsNextNumber(book, name, MaxVersion(listing, name) + 1)
  {
    MaxVersionBounds(listing, name);
    forall id | id in book && book[id].name == name ensures book[id].version < MaxVersion(listing, name) + 1 {
      ListedBelowMax(listing, book, id);
    }
    if MaxVersion(listing, name) > 0 {
      var i :| 0 <= i < |listing| && listing[i].name == name && listing[i].version == MaxVersion(listing, name);
      assert book[listing[i].id].version + 1 == MaxVersion(listing, name) + 1;
    }
  }

  /** Filing a version and activating it if asked. */
  function Filing(rows: Rows, rule: RuleVersion, later: Time): (Rows, Reply) {
    var saved := rows[rule.id := rule];
    if rule.status == Active then RowsChange(saved, rule.tenant, rule.id, Activate, later) else (saved, Done(rule))
  }

  lemma FilingOutcome(rows: Rows, rule: RuleVersion, later: Time)
    requires Filed(rows) && rule.id !in rows && rule.id.Generated?
    ensures var (rows', reply) := Filing(rows, rule, later);
            && reply.Done?
            && IsFiled(rows, rows', reply.rule, rule.status == Active, later)
            && (if rule.status == Active then IsActivated(reply.rule, rule, later) else reply.rule == rule)
  {
  }

  /** The version has the settings that the request gives, and otherwise those of its rule's seed. */
  predicate IsAsked(rule: RuleVersion, request: CreateRequest, seed: RuleVersion) {
    && rule.name == seed.name
    && (if request.threshold.Some? then request.threshold == Some(rule.threshold) else rule.threshold == seed.threshold)
    && (if request.riskScore.Some? then request.riskScore == Some(rule.riskScore) else rule.riskScore == seed.riskScore)
    && (if request.action.Some? then request.action == Some(Some(rule.action)) else rule.action == seed.action)
  }

  lemma BuiltIsAsked(settings: Settings, call: Call, listing: seq<RuleVersion>, rule: RuleVersion, filed: RuleVersion)
    requires call.op.Create? && Build(settings, call, None, listing) == Ok(rule) && SameSettings(filed, rule)
    ensures exists seed :: IsSeed(seed, settings, call) && IsAsked(filed, call.op.request, seed)
  {
    var seed := DefaultRule(settings, call.tenant, call.actor, call.now, rule.name);
    SeedIsSeed(settings, call, rule.name);
    assert IsAsked(filed, call.op.request, seed);
  }

  /** A creating request files what it has built. */
  lemma StepFiles(settings: Settings, rows: Rows, call: Call, listing: seq<RuleVersion>)
    requires Filed(rows) && (call.op.Create? || call.op.Tune?)
    ensures var seeded := SeededRows(settings, rows, call);
            var built := Build(settings, call, RowsSource(seeded, call), listing);
            RowsStep(settings, rows, call, listing)
            == if built.Err? then (seeded, Failed(built.error)) else Filing(seeded, built.value, call.op.later)
  {
    hide SeededRows, RowsChange, Filed, MaxVersion, DefaultThreshold, DefaultRiskScore, DefaultAction;
  }

  /** A version built from the tenant's listing, once filed. */
  lemma FilingIsNew(seeded: Rows, call: Call, listing: seq<RuleVersion>, rule: RuleVersion, activate: bool, later: Time)
    requires Filed(seeded) && Lists(listing, RowsOf(seeded, call.tenant))
    requires rule.id !in seeded && rule.id.Generated? && rule.tenant == call.tenant
    requires rule.version == MaxVersion(listing, rule.name) + 1
    requires rule.createdBy == call.actor && rule.createdAt == call.now && rule.retiredAt == None
    requires rule.status == (if activate then Active else Draft) && (!activate ==> rule.activatedAt == None)
    ensures var (rows', reply) := Filing(seeded, rule, later);
            && reply.Done?
            && IsNew(reply.rule, seeded, call, activate, later)
            && IsFiled(seeded, rows', reply.rule, activate, later)
            && (activate ==> reply.rule.enabled) && (!activate ==> reply.rule.enabled == rule.enabled)
            && SameSettings(reply.rule, rule)
  {
    NextNumber(listing, RowsOf(seeded, call.tenant), rule.name);
    FilingOutcome(seeded, rule, later);
    hide Filed, Lists, RowsOf, MaxVersion, IsNextNumber, IsFiled, Filing;
  }

  /** A creation is refused exactly for an unknown rule or, if the rule is known, an unknown action. Otherwise
      it files one new version of the rule, which has no base, is enabled as asked unless it is activated,
      and has the settings given or else those of the rule's seed. */
  lemma CreateOutcome(settings: Settings, rows: Rows, call: Call, listing: seq<RuleVersion>)
    requires Filed(rows) && FreshFor(rows, call) && call.op.Create?
    requires Lists(listing, RowsOf(SeededRows(settings, rows, call), call.tenant))
    ensures var seeded := SeededRows(settings, rows, call);
            var (rows', reply) := RowsStep(settings, rows, call, listing);
            var request := call.op.request;
            if request.rule.None? then rows' == seeded && reply == Failed(UnknownRuleName)
            else if request.action == Some(None) then rows' == seeded && reply == Failed(UnknownAction)
            else
              && reply.Done? && var rule := reply.rule;
              && IsNew(rule, seeded, call, request.activate, call.op.later)
              && IsFiled(seeded, rows', rule, request.activate, call.op.later)
              && rule.name == request.rule.value && rule.base == None
              && (!request.activate ==> rule.enabled == request.enabled)
              && exists seed :: IsSeed(seed, settings, call) && IsAsked(rule, request, seed)
  {
    var seeded, request := SeededRows(settings, rows, call), call.op.request;
    SeedingOutcome(settings, rows, call);
    SeededKeys(settings, rows, call);
    StepFiles(settings, rows, call, listing);
    var built := Build(settings, call, RowsSource(seeded, call), listing);
    hide SeededRows, RowsStep, Filing, Filed, Lists, MaxVersion, RowsOf, DefaultThreshold, DefaultRiskScore,
      DefaultAction, IsNew, IsFiled, IsSeed, IsAsked;
    if built.Ok? {
      FilingIsNew(seeded, call, listing, built.value, request.activate, call.op.later);
      BuiltIsAsked(settings, call, listing, built.value, Filing(seeded, built.value, call.op.later).1.rule);
    }
  }

  lemma SeedIsSeed(settings: Settings, call: Call, name: Alerts.UebaRule)
    ensures IsSeed(DefaultRule(settings, call.tenant, call.actor, call.now, name), settings, call)
  {
  }

  lemma SeededKeys(settings: Settings, rows: Rows, call: Call)
    requires FreshFor(rows, call) && (call.op.Create? || call.op.Tune?)
    ensures Generated(call.op.ulid) !in SeededRows(settings, rows, call)
  {
    var rules := DefaultRules(settings, call.tenant, call.actor, call.now);
    DefaultRulesAreSeeded(settings, call);
    hide DefaultRules, SaveAll;
    SaveAllKeys(rows, rules);
  }

  /** Tuning is refused exactly for a version the tenant does not have. Otherwise it files one new version of
      the source's rule, based on the source and enabled, with the settings given or else the source's;
      an unknown action counts as not given. */
  lemma TuneOutcome(settings: Settings, rows: Rows, call: Call, listing: seq<RuleVersion>)
    requires Filed(rows) && FreshFor(rows, call) && call.op.Tune?
    requires Lists(listing, RowsOf(SeededRows(settings, rows, call), call.tenant))
    ensures var seeded := SeededRows(settings, rows, call);
            var (rows', reply) := RowsStep(settings, rows, call, listing);
            var tuning := call.op.tuning;
            if call.op.source !in seeded || seeded[call.op.source].tenant != call.tenant then
              rows' == seeded && reply == Failed(VersionNotFound)
            else
              && reply.Done? && var rule, source := reply.rule, seeded[call.op.source];
              && IsNew(rule, seeded, call, tuning.activate, call.op.later)
              && IsFiled(seeded, rows', rule, tuning.activate, call.op.later)
              && rule.name == source.name && rule.base == Some(call.op.source) && rule.enabled
              && (if tuning.threshold.Some? then tuning.threshold == Some(rule.threshold)
                  else rule.threshold == source.threshold)
              && (if tuning.riskScore.Some? then tuning.riskScore == Some(rule.riskScore)
                  else rule.riskScore == source.riskScore)
              && (if tuning.action.Some? && tuning.action.value.Some? then tuning.action == Some(Some(rule.action))
                  else rule.action == source.action)
  {
    var seeded := SeededRows(settings, rows, call);
    SeedingOutcome(settings, rows, call);
    SeededKeys(settings, rows, call);
    StepFiles(settings, rows, call, listing);
    assert call.op.source in seeded ==> seeded[call.op.source].id == call.op.source;
    var built := Build(settings, call, RowsSource(seeded, call), listing);
    hide SeededRows, RowsStep, Filing, Filed, Lists, MaxVersion, RowsOf, IsNew, IsFiled;
    if built.Ok? {
      FilingIsNew(seeded, call, listing, built.value, call.op.tuning.activate, call.op.later);
    }
  }
}
