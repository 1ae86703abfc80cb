/** The code of the two homes of rule versions, updating its vectors and rows in place, against the
    functions that `RuleGovernance` reasons about. */
module GovernanceHomes {
  import opened Wrappers
  import opened RuleVersions
  import opened RuleGovernance
  import Alerts = UebaAlerts

  method NextRuleVersion(existing: seq<RuleVersion>, name: Alerts.UebaRule) returns (next: nat)
    ensures forall i | 0 <= i < |existing| && existing[i].name == name :: existing[i].version < next
    ensures next == 1 || exists i :: 0 <= i < |existing| && existing[i].name == name && existing[i].version + 1 == next
    ensures next == MaxVersion(existing, name) + 1
  {
    var largest := 0;
    for i := 0 to |existing|
      invariant forall j | 0 <= j < i && existing[j].name == name :: existing[j].version <= largest
      invariant largest == 0 || exists j :: 0 <= j < i && existing[j].name == name && existing[j].version == largest
    {
      if existing[i].name == name && existing[i].version > largest {
        largest := existing[i].version;
      }
    }
    MaxVersionBounds(existing, name);
    next := largest + 1;
  }

  function RetiredOther(rule: RuleVersion, target: RuleVersion, now: Time): RuleVersion {
    if rule.id == target.id then rule else Superseded(rule, target, now)
  }

  /** Every vector holds versions of its own tenant, each once. */
  ghost predicate Kept(m: Memory) {
    forall tenant | tenant in m ::
      DistinctIds(m[tenant]) && forall i | 0 <= i < |m[tenant]| :: m[tenant][i].tenant == tenant
  }

  ghost predicate Unused(m: Memory, call: Call) {
    (call.op.Create? || call.op.Tune?) && call.tenant in m ==>
      forall i | 0 <= i < |m[call.tenant]| :: m[call.tenant][i].id != Generated(call.op.ulid)
  }

  /** What `Handle` asks of the memory holds after every history of calls. */
  lemma AgreeingMemoryIsKept(m: Memory, rows: Rows, call: Call)
    requires Agree(m, rows) && FreshFor(rows, call)
    ensures Kept(m) && Unused(m, call)
  {
    forall tenant | tenant in m
      ensures DistinctIds(m[tenant])
      ensures forall i | 0 <= i < |m[tenant]| :: m[tenant][i].tenant == tenant && m[tenant][i].id in rows
    {
      AgreedOn(m, rows, tenant);
    }
  }

  lemma BuiltFor(settings: Settings, call: Call, source: Option<RuleVersion>, existing: seq<RuleVersion>)
    requires call.op.Create? || call.op.Tune?
    requires source.Some? ==> source.value.tenant == call.tenant
    ensures var built := Build(settings, call, source, existing);
            built.Ok? ==> built.value.id == Generated(call.op.ulid) && built.value.tenant == call.tenant
  {
  }

  /** Rule versions in memory, one vector per tenant. */
  class GovernanceRuntime {
    var rulesByTenant: Memory

    constructor ()
      ensures rulesByTenant == map[]
    {
      rulesByTenant := map[];
    }

    method LoadOrSeed(settings: Settings, call: Call) returns (rules: seq<RuleVersion>)
      modifies this
      ensures rulesByTenant == SeededMemory(settings, old(rulesByTenant), call)
      ensures call.tenant in rulesByTenant && rules == rulesByTenant[call.tenant]
    {
      if call.tenant !in rulesByTenant {
        var defaults := DefaultRules(settings, call.tenant, call.actor, call.now);
        rulesByTenant := rulesByTenant[call.tenant := defaults];
      }
      rules := rulesByTenant[call.tenant];
    }

    method Position(rules: seq<RuleVersion>, id: VersionId) returns (index: Option<nat>)
      ensures index == IndexOf(rules, id)
    {
      for i := 0 to |rules|
        invariant forall j | 0 <= j < i :: rules[j].id != id
      {
        if rules[i].id == id {
          return Some(i);
        }
      }
      return None;
    }

    /** Retires the active versions of the target's rule, other than the target, in place. */
    method RetireOthers(rules: seq<RuleVersion>, index: nat, now: Time) returns (updated: seq<RuleVersion>)
      requires index < |rules|
      ensures |updated| == |rules|
      ensures forall i | 0 <= i < |rules| :: updated[i] == RetiredOther(rules[i], rules[index], now)
    {
      updated := rules;
      for i := 0 to |rules|
        invariant |updated| == |rules|
        invariant forall j | i <= j < |rules| :: updated[j] == rules[j]
        invariant forall j | 0 <= j < i :: updated[j] == RetiredOther(rules[j], rules[index], now)
      {
        var rule := updated[i];
        if rule.name == rules[index].name && rule.id != rules[index].id && rule.status == Active {
          updated := updated[i := rule.(status := Retired, enabled := false, retiredAt := Some(now))];
        }
      }
    }

    method ChangeState(tenant: Tenant, id: VersionId, change: StateChange, now: Time) returns (reply: Reply)
      requires tenant in rulesByTenant ==> DistinctIds(rulesByTenant[tenant])
      modifies this
      ensures (rulesByTenant, reply) == MemoryChange(old(rulesByTenant), tenant, id, change, now)
    {
      if tenant !in rulesByTenant {
        return Failed(VersionNotFound);
      }
      var rules := rulesByTenant[tenant];
      var position := Position(rules, id);
      if position.None? {
        return Failed(VersionNotFound);
      }
      var index := position.value;
      ghost var before := rules;
      match change {
        case Activate =>
          rules := RetireOthers(rules, index, now);
          rules := rules[index := rules[index].(status := Active, enabled := true,
                                                activatedAt := Some(now), retiredAt := None)];
        case Enable =>
          if rules[index].status != Retired {
            rules := rules[index := rules[index].(enabled := true)];
          }
        case Disable =>
          rules := rules[index := rules[index].(enabled := false)];
        case Retire =>
          rules := rules[index := rules[index].(status := Retired, enabled := false, retiredAt := Some(now))];
      }
      rulesByTenant := rulesByTenant[tenant := rules];
      assert forall i | 0 <= i < |before| && i != index :: before[i].id != before[index].id;
      assert rules == VectorChanged(before, index, change, now);
      reply := Done(rules[index]);
    }

    /** Pushes the version and, when asked to, activates it in a second critical section; the
        activation cannot miss the version just pushed. */
    method SaveRuleVersion(rule: RuleVersion, activate: bool, later: Time) returns (saved: RuleVersion)
      requires rule.tenant in rulesByTenant ==>
                 DistinctIds(rulesByTenant[rule.tenant])
                 && forall i | 0 <= i < |rulesByTenant[rule.tenant]| :: rulesByTenant[rule.tenant][i].id != rule.id
      modifies this
      ensures var m := old(rulesByTenant);
              var rules := if rule.tenant in m then m[rule.tenant] else [];
              var pushed := m[rule.tenant := rules + [rule]];
              (rulesByTenant, Done(saved)) == if activate then MemoryChange(pushed, rule.tenant, rule.id, Activate, later)
                                              else (pushed, Done(rule))
    {
      var rules := if rule.tenant in rulesByTenant then rulesByTenant[rule.tenant] else [];
      rules := rules + [rule];
      rulesByTenant := rulesByTenant[rule.tenant := rules];
      saved := rule;
      if activate {
        assert rules[|rules| - 1].id == rule.id;
        var reply := ChangeState(rule.tenant, rule.id, Activate, later);
        saved := reply.rule;
      }
    }

    /** One request, as its handler runs it. */
    method Handle(settings: Settings, call: Call) returns (reply: Reply)
      requires Kept(rulesByTenant) && Unused(rulesByTenant, call)
      modifies this
      ensures (rulesByTenant, reply) == MemoryStep(settings, old(rulesByTenant), call)
    {
      if call.op.Change? {
        reply := ChangeState(call.tenant, call.op.id, call.op.change, call.now);
        return;
      }
      var rules := LoadOrSeed(settings, call);
      if call.op.Load? {
        return AnswerWith(rules);
      }
      DefaultRulesAreSeeded(settings, call);
      hide DefaultRules, VectorChanged;
      var source: Option<RuleVersion> := None;
      if call.op.Tune? {
        var position := Position(rules, call.op.source);
        source := if position.Some? then Some(rules[position.value]) else None;
      }
      var built := Build(settings, call, source, rules);
      if built.Err? {
        return Failed(built.error);
      }
      BuiltFor(settings, call, source, rules);
      var saved := SaveRuleVersion(built.value, built.value.status == Active, call.op.later);
      reply := Done(saved);
    }
  }

  /** Rule versions in the store, one row per version. */
  class GovernanceStore {
    var rows: Rows

    constructor ()
      ensures rows == map[]
    {
      rows := map[];
    }

    /** Inserts the row, or replaces the one with the same id. */
    method Save(rule: RuleVersion)
      modifies this
      ensures rows == old(rows)[rule.id := rule]
    {
      rows := rows[rule.id := rule];
    }

    method Load(tenant: Tenant, id: VersionId) returns (rule: Option<RuleVersion>)
      ensures rule == if id in rows && rows[id].tenant == tenant then Some(rows[id]) else None
    {
      rule := if id in rows && rows[id].tenant == tenant then Some(rows[id]) else None;
    }

    /** The rows of a tenant; the order is the store's business. */
    method LoadAll(tenant: Tenant) returns (rules: seq<RuleVersion>)
      requires Filed(rows)
      ensures Lists(rules, RowsOf(rows, tenant))
    {
      var ids := rows.Keys;
      rules := [];
      while ids != {}
        invariant ids <= rows.Keys
        invariant Lists(rules, map id | id in rows && id !in ids && rows[id].tenant == tenant :: rows[id])
        decreases |ids|
      {
        var id :| id in ids;
        ghost var seen := map other | other in rows && other !in ids && rows[other].tenant == tenant :: rows[other];
        ids := ids - {id};
        ghost var now := map other | other in rows && other !in ids && rows[other].tenant == tenant :: rows[other];
        if rows[id].tenant == tenant {
          PushListed(rules, seen, rows[id]);
          assert now == seen[id := rows[id]];
          rules := rules + [rows[id]];
        } else {
          assert now == seen;
        }
      }
      assert RowsOf(rows, tenant) == map id | id in rows && id !in ids && rows[id].tenant == tenant :: rows[id];
    }

    method LoadOrSeed(settings: Settings, call: Call) returns (rules: seq<RuleVersion>)
      requires Filed(rows)
      modifies this
      ensures rows == SeededRows(settings, old(rows), call)
      ensures Filed(rows) && Lists(rules, RowsOf(rows, call.tenant))
    {
      rules := LoadAll(call.tenant);
      if rules == [] {
        assert RowsOf(rows, call.tenant) == map[];
        var defaults := DefaultRules(settings, call.tenant, call.actor, call.now);
        ghost var before := rows;
        for i := 0 to |defaults|
          invariant SaveAll(rows, defaults[i..]) == SaveAll(before, defaults)
        {
          assert defaults[i..][0] == defaults[i] && defaults[i..][1..] == defaults[i + 1..];
          Save(defaults[i]);
        }
        SeedingRows(settings, before, call);
        rules := LoadAll(call.tenant);
      } else {
        assert rules[0].id in RowsOf(rows, call.tenant);
      }
    }

    /** Retires the active versions of the target's rule, other than the target, row by row. */
    method RetireOthers(target: RuleVersion, now: Time)
      requires Filed(rows)
      modifies this
      ensures rows.Keys == old(rows).Keys
      ensures forall other | other in rows ::
                rows[other] == if old(rows)[other].tenant == target.tenant
                               then RetiredOther(old(rows)[other], target, now) else old(rows)[other]
    {
      ghost var before := rows;
      var existing := LoadAll(target.tenant);
      ghost var book := RowsOf(before, target.tenant);
      hide Filed;
      for i := 0 to |existing|
        invariant rows.Keys == before.Keys
        invariant forall other | other in before && other !in book :: rows[other] == before[other]
        invariant forall j | i <= j < |existing| :: rows[existing[j].id] == existing[j]
        invariant forall j | 0 <= j < i :: rows[existing[j].id] == RetiredOther(existing[j], target, now)
      {
        RetireOther(existing[i], target, now);
      }
      hide RetiredOther;
      forall other | other in book ensures rows[other] == RetiredOther(before[other], target, now) {
        var j :| 0 <= j < |existing| && existing[j].id == other;
      }
    }

    method RetireOther(current: RuleVersion, target: RuleVersion, now: Time)
      requires current.id in rows && rows[current.id] == current
      modifies this
      ensures rows == old(rows)[current.id := RetiredOther(current, target, now)]
    {
      if current.name == target.name && current.id != target.id && current.status == Active {
        Save(current.(status := Retired, enabled := false, retiredAt := Some(now)));
      }
    }

    method Activate(tenant: Tenant, id: VersionId, now: Time) returns (reply: Reply)
      requires Filed(rows)
      modifies this
      ensures (rows, reply) == RowsChange(old(rows), tenant, id, StateChange.Activate, now)
    {
      var loaded := Load(tenant, id);
      if loaded.None? {
        return Failed(VersionNotFound);
      }
      var rule := loaded.value;
      RetireOthers(rule, now);
      rule := rule.(status := Active, enabled := true, activatedAt := Some(now), retiredAt := None);
      Save(rule);
      assert rows == RowsChanged(old(rows), tenant, id, StateChange.Activate, now);
      reply := Done(rule);
    }

    method SetEnabled(tenant: Tenant, id: VersionId, enabled: bool, ghost now: Time) returns (reply: Reply)
      requires Filed(rows)
      modifies this
      ensures (rows, reply) == RowsChange(old(rows), tenant, id, if enabled then Enable else Disable, now)
    {
      var loaded := Load(tenant, id);
      if loaded.None? {
        return Failed(VersionNotFound);
      }
      var rule := loaded.value;
      if rule.status != Retired {
        rule := rule.(enabled := enabled);
        Save(rule);
      }
      assert rows == RowsChanged(old(rows), tenant, id, if enabled then Enable else Disable, now);
      reply := Done(rule);
    }

    method Retire(tenant: Tenant, id: VersionId, now: Time) returns (reply: Reply)
      requires Filed(rows)
      modifies this
      ensures (rows, reply) == RowsChange(old(rows), tenant, id, StateChange.Retire, now)
    {
      var loaded := Load(tenant, id);
      if loaded.None? {
        return Failed(VersionNotFound);
      }
      var rule := loaded.value.(status := Retired, enabled := false, retiredAt := Some(now));
      Save(rule);
      assert rows == RowsChanged(old(rows), tenant, id, StateChange.Retire, now);
      reply := Done(rule);
    }

    method ChangeState(call: Call) returns (reply: Reply)
      requires Filed(rows) && call.op.Change?
      modifies this
      ensures (rows, reply) == RowsChange(old(rows), call.tenant, call.op.id, call.op.change, call.now)
    {
      match call.op.change
      case Activate => reply := Activate(call.tenant, call.op.id, call.now);
      case Enable => reply := SetEnabled(call.tenant, call.op.id, true, call.now);
      case Disable => reply := SetEnabled(call.tenant, call.op.id, false, call.now);
      case Retire => reply := Retire(call.tenant, call.op.id, call.now);
    }

    /** The version with the id among those just loaded. */
    method FindLoaded(rules: seq<RuleVersion>, tenant: Tenant, id: VersionId) returns (found: Option<RuleVersion>)
      requires Filed(rows) && Lists(rules, RowsOf(rows, tenant))
      ensures found == if id in rows && rows[id].tenant == tenant then Some(rows[id]) else None
    {
      for i := 0 to |rules|
        invariant forall j | 0 <= j < i :: rules[j].id != id
      {
        if rules[i].id == id {
          return Some(rules[i]);
        }
      }
      assert id !in RowsOf(rows, tenant);
      return None;
    }

    /** One request, as its handler runs it; `listing` is the order the store returned the rows in. */
    method Handle(settings: Settings, call: Call) returns (reply: Reply, ghost listing: seq<RuleVersion>)
      requires Filed(rows) && FreshFor(rows, call)
      modifies this
      ensures !call.op.Change? ==> Lists(listing, RowsOf(SeededRows(settings, old(rows), call), call.tenant))
      ensures (rows, reply) == RowsStep(settings, old(rows), call, listing)
    {
      hide DefaultRules, SaveAll, SeededRows, Lists, RowsChanged, Effect;
      listing := [];
      if call.op.Change? {
        reply := ChangeState(call);
        return;
      }
      var rules := LoadOrSeed(settings, call);
      listing := rules;
      if call.op.Load? {
        return AnswerWith(rules), listing;
      }
      var source: Option<RuleVersion> := None;
      if call.op.Tune? {
        source := FindLoaded(rules, call.tenant, call.op.source);
      }
      var built := Build(settings, call, source, rules);
      if built.Err? {
        return Failed(built.error), listing;
      }
      BuiltFor(settings, call, source, rules);
      Save(built.value);
      reply := Done(built.value);
      if built.value.status == Status.Active {
        reply := Activate(call.tenant, built.value.id, call.op.later);
      }
    }
  }
}
