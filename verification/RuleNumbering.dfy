/** Version numbers under concurrent requests: exactly when the versions of a rule have different
    numbers. A version takes its number when its creation reads, and enters the vector when it pushes. */
module RuleNumbering {
  import opened Wrappers
  import opened RuleVersions
  import opened RuleGovernance
  import opened RuleInterleaving
  import Alerts = UebaAlerts

  type Name = Alerts.UebaRule

  // ----- Vectors -----

  ghost predicate UniqueNumbers(rules: seq<RuleVersion>, name: Name) {
    forall i, j | 0 <= i < j < |rules| && rules[i].name == name && rules[j].name == name ::
      rules[i].version != rules[j].version
  }

  /** `rules'` begins with the same names and numbers. */
  ghost predicate Kept(rules: seq<RuleVersion>, rules': seq<RuleVersion>) {
    |rules| <= |rules'|
    && forall i | 0 <= i < |rules| :: rules'[i].name == rules[i].name && rules'[i].version == rules[i].version
  }

  lemma {:induction false} SameMax(rules: seq<RuleVersion>, rules': seq<RuleVersion>, name: Name)
    requires Kept(rules, rules') && |rules| == |rules'|
    ensures MaxVersion(rules', name) == MaxVersion(rules, name)
  {
    if rules != [] {
      assert Kept(rules[1..], rules'[1..]);
      SameMax(rules[1..], rules'[1..], name);
    }
  }

  lemma {:induction false} MaxWithOneMore(rules: seq<RuleVersion>, rule: RuleVersion, name: Name)
    ensures MaxVersion(rules + [rule], name)
         == if rule.name == name && rule.version > MaxVersion(rules, name) then rule.version else MaxVersion(rules, name)
  {
    if rules == [] {
      assert rules + [rule] == [rule] && [rule][1..] == [];
    } else {
      assert (rules + [rule])[1..] == rules[1..] + [rule];
      MaxWithOneMore(rules[1..], rule, name);
    }
  }

  lemma SameUnique(rules: seq<RuleVersion>, rules': seq<RuleVersion>, name: Name)
    requires Kept(rules, rules') && |rules| == |rules'|
    ensures UniqueNumbers(rules', name) <==> UniqueNumbers(rules, name)
  {
  }

  lemma DuplicatesStay(rules: seq<RuleVersion>, rules': seq<RuleVersion>, name: Name)
    requires Kept(rules, rules') && !UniqueNumbers(rules, name)
    ensures !UniqueNumbers(rules', name)
  {
  }

  lemma KeptTwice(a: seq<RuleVersion>, b: seq<RuleVersion>, c: seq<RuleVersion>)
    requires Kept(a, b) && Kept(b, c)
    ensures Kept(a, c)
  {
  }

  /** Pushing a version with a number above all others of its rule, or of another rule. */
  lemma PushKeepsUnique(rules: seq<RuleVersion>, rule: RuleVersion, name: Name)
    requires UniqueNumbers(rules, name) && (rule.name == name ==> rule.version > MaxVersion(rules, name))
    ensures UniqueNumbers(rules + [rule], name)
  {
    MaxVersionBounds(rules, name);
    hide MaxVersion;
  }

  // ----- Steps -----

  ghost predicate PushesRule(g: Governance, event: Event, tenant: Tenant, name: Name) {
    && event.Push? && event.request in g.inFlight && g.inFlight[event.request].Built?
    && g.inFlight[event.request].rule.tenant == tenant && g.inFlight[event.request].rule.name == name
  }

  lemma ChangeKeepsNumbers(rules: seq<RuleVersion>, index: nat, change: StateChange, now: Time)
    requires index < |rules|
    ensures var rules' := VectorChanged(rules, index, change, now);
            |rules'| == |rules| && Kept(rules, rules')
  {
  }

  /** A step pushes one version of the tenant or leaves its names and numbers alone. */
  lemma StepVector(settings: Settings, g: Governance, event: Event, tenant: Tenant)
    requires Possible(g, event) && tenant in g.m
    ensures var g' := Step(settings, g, event);
            && tenant in g'.m
            && if event.Push? && g.inFlight[event.request].rule.tenant == tenant
               then g'.m[tenant] == g.m[tenant] + [g.inFlight[event.request].rule]
               else |g'.m[tenant]| == |g.m[tenant]| && Kept(g.m[tenant], g'.m[tenant])
  {
    hide VectorChanged, DefaultRules, Build, MemorySource;
    if event.Finish? || event.Alter? {
      var id := if event.Alter? then event.id else g.inFlight[event.request].id;
      var changed := if event.Alter? then event.tenant else g.inFlight[event.request].tenant;
      var change := if event.Alter? then event.change else Activate;
      if changed in g.m && IndexOf(g.m[changed], id).Some? {
        ChangeKeepsNumbers(g.m[changed], IndexOf(g.m[changed], id).value, change, event.now);
      }
    }
  }

  lemma StepNumbers(settings: Settings, g: Governance, event: Event, tenant: Tenant, name: Name)
    requires Possible(g, event) && tenant in g.m
    ensures var g' := Step(settings, g, event);
            && tenant in g'.m && Kept(g.m[tenant], g'.m[tenant])
            && (!PushesRule(g, event, tenant, name) ==>
                  && MaxVersion(g'.m[tenant], name) == MaxVersion(g.m[tenant], name)
                  && (UniqueNumbers(g.m[tenant], name) ==> UniqueNumbers(g'.m[tenant], name)))
            && (PushesRule(g, event, tenant, name) ==>
                  g'.m[tenant] == g.m[tenant] + [g.inFlight[event.request].rule])
  {
    StepVector(settings, g, event, tenant);
    var rules, rules' := g.m[tenant], Step(settings, g, event).m[tenant];
    hide Step, MaxVersion;
    if event.Push? && g.inFlight[event.request].rule.tenant == tenant {
      var rule := g.inFlight[event.request].rule;
      MaxWithOneMore(rules, rule, name);
      if rule.name != name && UniqueNumbers(rules, name) { PushKeepsUnique(rules, rule, name); }
    } else {
      SameMax(rules, rules', name);
      SameUnique(rules, rules', name);
    }
  }

  lemma {:induction false} SeededNumbers(settings: Settings, call: Call, name: Name)
    ensures UniqueNumbers(DefaultRules(settings, call.tenant, call.actor, call.now), name)
  {
  }

  /** A tenant comes in with the versions it is seeded with. */
  lemma NewTenant(settings: Settings, g: Governance, event: Event, tenant: Tenant, name: Name)
    requires Inv(g) && Possible(g, event) && tenant !in g.m && tenant in Step(settings, g, event).m
    ensures UniqueNumbers(Step(settings, g, event).m[tenant], name)
  {
    if event.Push? {
      InvParts(g, event.request);
    }
    assert event.Read? || event.Begin?;
    hide Inv, DefaultRules, Build, MemorySource, UniqueNumbers;
    SeededNumbers(settings, event.call, name);
  }

  // ----- Runs -----

  /** The request has built this version and not yet pushed it. */
  ghost predicate Waits(g: Governance, request: RequestId, rule: RuleVersion) {
    request in g.inFlight && g.inFlight[request] == Built(rule)
  }

  /** The creation that begins at `b` pushes at `p`. */
  ghost predicate Creates(states: seq<Governance>, events: seq<Event>, b: nat, p: nat)
    requires |events| < |states|
  {
    && b < p < |events| && events[b].Begin? && events[p].Push? && events[b].request == events[p].request
    && events[p].request in states[p].inFlight && states[p].inFlight[events[p].request].Built?
    && forall m | b < m <= p :: Waits(states[m], events[p].request, states[p].inFlight[events[p].request].rule)
  }

  ghost predicate PushesAt(states: seq<Governance>, events: seq<Event>, p: nat, tenant: Tenant, name: Name)
    requires |events| < |states|
  {
    p < |events| && PushesRule(states[p], events[p], tenant, name)
  }

  /** The creation of the rule that pushes at `p` had another push of the rule between its beginning and
      its push. */
  ghost predicate Overlapped(states: seq<Governance>, events: seq<Event>, p: nat, tenant: Tenant, name: Name)
    requires |events| < |states|
  {
    PushesAt(states, events, p, tenant, name)
    && exists b: nat, q: nat :: Creates(states, events, b, p) && b < q < p && PushesAt(states, events, q, tenant, name)
  }

  lemma RunStep(settings: Settings, states: seq<Governance>, events: seq<Event>, i: nat)
    requires IsRun(settings, states, events) && i < |events|
    ensures |states| == |events| + 1 && Inv(states[i]) && Steps(settings, states[i], events[i], states[i + 1])
  {
    RunKeepsInv(settings, states, events, i);
  }

  lemma RunStarts(settings: Settings, states: seq<Governance>, events: seq<Event>)
    requires IsRun(settings, states, events)
    ensures |states| == |events| + 1 && states[0] == Governance(map[], map[])
  {
    hide Step, Possible;
  }

  lemma WaitsBefore(settings: Settings, g: Governance, event: Event, g': Governance, request: RequestId, rule: RuleVersion)
    requires Steps(settings, g, event, g') && Waits(g', request, rule)
    requires !(event.Begin? && event.request == request)
    ensures Waits(g, request, rule)
  {
    hide SeededMemory, MemoryChange, PushedMemory, Build, MemorySource;
  }

  lemma NothingWaitsYet(settings: Settings, states: seq<Governance>, events: seq<Event>, request: RequestId, rule: RuleVersion)
    requires IsRun(settings, states, events)
    ensures |states| == |events| + 1 && !Waits(states[0], request, rule)
  {
    RunStarts(settings, states, events);
    hide IsRun;
  }

  lemma {:induction false} WaitingHasBegun(settings: Settings, states: seq<Governance>, events: seq<Event>, i: nat,
                                           request: RequestId, rule: RuleVersion)
    returns (b: nat)
    requires IsRun(settings, states, events) && i < |states| && Waits(states[i], request, rule)
    ensures |states| == |events| + 1
    ensures b < i && events[b].Begin? && events[b].request == request
    ensures forall m | b < m <= i :: Waits(states[m], request, rule)
  {
    hide IsRun, Inv, Steps, Waits;
    NothingWaitsYet(settings, states, events, request, rule);
    RunStep(settings, states, events, i - 1);
    if events[i - 1].Begin? && events[i - 1].request == request {
      b := i - 1;
    } else {
      WaitsBefore(settings, states[i - 1], events[i - 1], states[i], request, rule);
      b := WaitingHasBegun(settings, states, events, i - 1, request, rule);
    }
  }

  /** Every push ends a creation that has begun. */
  lemma PushHasBegin(settings: Settings, states: seq<Governance>, events: seq<Event>, p: nat) returns (b: nat)
    requires IsRun(settings, states, events) && p < |events| && events[p].Push?
    ensures |events| < |states| && Creates(states, events, b, p)
  {
    RunStep(settings, states, events, p);
    assert Possible(states[p], events[p]);
    hide IsRun, Inv, Steps, Step;
    b := WaitingHasBegun(settings, states, events, p, events[p].request, states[p].inFlight[events[p].request].rule);
  }

  lemma BeginTenant(settings: Settings, g: Governance, event: Event, g': Governance)
    requires Inv(g) && event.Begin? && Steps(settings, g, event, g') && event.request in g'.inFlight
    ensures g'.inFlight[event.request].Built? && g'.inFlight[event.request].rule.tenant == event.call.tenant
  {
    var call, m := event.call, SeededMemory(settings, g.m, event.call);
    ReadKeepsInv(settings, g, call);
    hide TenantsOk, StageOk, SeededMemory, Build, MemorySource, BookOf, Pending, DistinctBuilt, UnusedId, DistinctIds;
    UnusedAfterSeeding(settings, g, call, Generated(call.op.ulid));
    TenantParts(m, g.inFlight, call.tenant);
    BuiltIsReady(settings, m, call);
  }

  /** A creation's number is one past the largest when it began. */
  lemma CreatedNumber(settings: Settings, states: seq<Governance>, events: seq<Event>, b: nat, p: nat)
    requires IsRun(settings, states, events) && |events| < |states| && Creates(states, events, b, p)
    ensures var rule := states[p].inFlight[events[p].request].rule;
            rule.tenant in states[b + 1].m && rule.version == MaxVersion(states[b + 1].m[rule.tenant], rule.name) + 1
  {
    RunStep(settings, states, events, b);
    hide IsRun, Inv, Steps, MaxVersion;
    assert Waits(states[b + 1], events[p].request, states[p].inFlight[events[p].request].rule);
    BeginBuilds(settings, states[b], events[b], states[b + 1]);
    BeginTenant(settings, states[b], events[b], states[b + 1]);
  }

  lemma RunStepNumbers(settings: Settings, states: seq<Governance>, events: seq<Event>, i: nat, tenant: Tenant,
                       name: Name)
    requires IsRun(settings, states, events) && i < |events| && tenant in states[i].m
    ensures |states| == |events| + 1 && tenant in states[i + 1].m
    ensures Kept(states[i].m[tenant], states[i + 1].m[tenant])
    ensures !PushesAt(states, events, i, tenant, name) ==>
              && MaxVersion(states[i + 1].m[tenant], name) == MaxVersion(states[i].m[tenant], name)
              && (UniqueNumbers(states[i].m[tenant], name) ==> UniqueNumbers(states[i + 1].m[tenant], name))
    ensures PushesAt(states, events, i, tenant, name) ==>
              states[i + 1].m[tenant] == states[i].m[tenant] + [states[i].inFlight[events[i].request].rule]
  {
    RunStep(settings, states, events, i);
    hide IsRun, Inv, Step, Possible, Kept, UniqueNumbers, MaxVersion;
    StepNumbers(settings, states[i], events[i], tenant, name);
  }

  lemma {:induction false} NumbersKept(settings: Settings, states: seq<Governance>, events: seq<Event>, i: nat, j: nat,
                                       tenant: Tenant)
    requires IsRun(settings, states, events) && i <= j < |states| && tenant in states[i].m
    ensures tenant in states[j].m && Kept(states[i].m[tenant], states[j].m[tenant])
    decreases j - i
  {
    assert |states| == |events| + 1;
    hide IsRun;
    if i < j {
      RunStepNumbers(settings, states, events, i, tenant, Alerts.ExportSpike);
      NumbersKept(settings, states, events, i + 1, j, tenant);
      KeptTwice(states[i].m[tenant], states[i + 1].m[tenant], states[j].m[tenant]);
    }
  }

  /** The largest number of a rule stays while nothing of it is pushed. */
  lemma {:induction false} MaxStays(settings: Settings, states: seq<Governance>, events: seq<Event>, i: nat, j: nat,
                                    tenant: Tenant, name: Name)
    requires IsRun(settings, states, events) && |events| < |states| && i <= j < |states| && tenant in states[i].m
    requires forall q: nat | i <= q < j :: !PushesAt(states, events, q, tenant, name)
    ensures tenant in states[j].m && MaxVersion(states[j].m[tenant], name) == MaxVersion(states[i].m[tenant], name)
    decreases j - i
  {
    assert |states| == |events| + 1;
    hide IsRun, MaxVersion, PushesAt;
    if i < j {
      RunStepNumbers(settings, states, events, i, tenant, name);
      MaxStays(settings, states, events, i + 1, j, tenant, name);
    }
  }

  // ----- Without overlap the numbers are unique -----

  lemma UndisturbedPush(settings: Settings, states: seq<Governance>, events: seq<Event>, p: nat, tenant: Tenant, name: Name)
    requires IsRun(settings, states, events) && |events| < |states| && p < |states| && tenant in states[p].m
    requires PushesAt(states, events, p, tenant, name) && !Overlapped(states, events, p, tenant, name)
    ensures states[p].inFlight[events[p].request].rule.version == MaxVersion(states[p].m[tenant], name) + 1
  {
    var b := PushHasBegin(settings, states, events, p);
    CreatedNumber(settings, states, events, b, p);
    hide IsRun, MaxVersion, Creates;
    forall q: nat | b + 1 <= q < p ensures !PushesAt(states, events, q, tenant, name) {
      assert b < q < p;
    }
    MaxStays(settings, states, events, b + 1, p, tenant, name);
  }

  lemma TenantComesIn(settings: Settings, states: seq<Governance>, events: seq<Event>, i: nat, tenant: Tenant, name: Name)
    requires IsRun(settings, states, events) && |events| < |states| && i < |events|
    requires tenant !in states[i].m && tenant in states[i + 1].m
    ensures UniqueNumbers(states[i + 1].m[tenant], name)
  {
    RunStep(settings, states, events, i);
    hide IsRun, Inv, Step, Possible, UniqueNumbers;
    NewTenant(settings, states[i], events[i], tenant, name);
  }

  lemma {:induction false} UniqueWithoutOverlap(settings: Settings, states: seq<Governance>, events: seq<Event>, n: nat,
                                                tenant: Tenant, name: Name)
    requires IsRun(settings, states, events) && |events| < |states| && n < |states| && tenant in states[n].m
    requires forall p: nat | p < n :: !Overlapped(states, events, p, tenant, name)
    ensures UniqueNumbers(states[n].m[tenant], name)
  {
    RunStarts(settings, states, events);
    hide IsRun, Inv, Step, Possible, Steps, UniqueNumbers, Overlapped, PushesAt, MaxVersion;
    if tenant !in states[n - 1].m {
      TenantComesIn(settings, states, events, n - 1, tenant, name);
    } else {
      UniqueWithoutOverlap(settings, states, events, n - 1, tenant, name);
      RunStepNumbers(settings, states, events, n - 1, tenant, name);
      if PushesAt(states, events, n - 1, tenant, name) {
        UndisturbedPush(settings, states, events, n - 1, tenant, name);
        PushKeepsUnique(states[n - 1].m[tenant], states[n - 1].inFlight[events[n - 1].request].rule, name);
      }
    }
  }

  // ----- Overlap repeats a number -----

  lemma {:induction false} FirstOverlap(states: seq<Governance>, events: seq<Event>, p: nat, tenant: Tenant, name: Name)
    returns (first: nat)
    requires |events| < |states| && Overlapped(states, events, p, tenant, name)
    ensures first <= p && Overlapped(states, events, first, tenant, name)
    ensures forall q: nat | q < first :: !Overlapped(states, events, q, tenant, name)
  {
    hide Overlapped;
    if q: nat :| q < p && Overlapped(states, events, q, tenant, name) {
      first := FirstOverlap(states, events, q, tenant, name);
    } else {
      first := p;
    }
  }

  lemma {:induction false} FirstPush(states: seq<Governance>, events: seq<Event>, b: nat, q: nat, tenant: Tenant, name: Name)
    returns (first: nat)
    requires |events| < |states| && b < q && PushesAt(states, events, q, tenant, name)
    ensures b < first <= q && PushesAt(states, events, first, tenant, name)
    ensures forall k: nat | b < k < first :: !PushesAt(states, events, k, tenant, name)
    decreases q
  {
    hide PushesAt;
    if k: nat :| b < k < q && PushesAt(states, events, k, tenant, name) {
      first := FirstPush(states, events, b, k, tenant, name);
    } else {
      first := q;
    }
  }

  /** Two creations with no push of the rule between their beginnings read the same largest number. */
  lemma SameReading(settings: Settings, states: seq<Governance>, events: seq<Event>, b: nat, c: nat, q: nat,
                    tenant: Tenant, name: Name)
    requires IsRun(settings, states, events) && |events| < |states| && b < q < |events| && c < q
    requires events[b].Begin? && events[c].Begin?
    requires tenant in states[b + 1].m && tenant in states[c + 1].m
    requires forall k: nat | b < k < q :: !PushesAt(states, events, k, tenant, name)
    requires forall k: nat | c < k < q :: !PushesAt(states, events, k, tenant, name)
    ensures MaxVersion(states[b + 1].m[tenant], name) == MaxVersion(states[c + 1].m[tenant], name)
  {
    hide IsRun, MaxVersion;
    if b <= c {
      MaxStays(settings, states, events, b + 1, c + 1, tenant, name);
    } else {
      MaxStays(settings, states, events, c + 1, b + 1, tenant, name);
    }
  }

  /** The first creation that is overlapped has the number of the first push it is overlapped by. */
  lemma OverlapRepeats(settings: Settings, states: seq<Governance>, events: seq<Event>, p: nat, tenant: Tenant, name: Name)
    returns (q: nat)
    requires IsRun(settings, states, events) && |events| < |states| && Overlapped(states, events, p, tenant, name)
    requires forall k: nat | k < p :: !Overlapped(states, events, k, tenant, name)
    ensures q < p && PushesAt(states, events, q, tenant, name) && PushesAt(states, events, p, tenant, name)
    ensures states[q].inFlight[events[q].request].rule.version == states[p].inFlight[events[p].request].rule.version
  {
    var b: nat, some: nat :| Creates(states, events, b, p) && b < some < p && PushesAt(states, events, some, tenant, name);
    q := FirstPush(states, events, b, some, tenant, name);
    var c := PushHasBegin(settings, states, events, q);
    CreatedNumber(settings, states, events, b, p);
    CreatedNumber(settings, states, events, c, q);
    assert !Overlapped(states, events, q, tenant, name);
    assert events[b].Begin? && events[c].Begin? && c < q;
    forall k: nat | c < k < q ensures !PushesAt(states, events, k, tenant, name) {
    }
    hide IsRun, MaxVersion, Creates, Overlapped;
    SameReading(settings, states, events, b, c, q, tenant, name);
  }

  lemma PushedTwice(rules: seq<RuleVersion>, rules': seq<RuleVersion>, first: RuleVersion, second: RuleVersion, name: Name)
    requires Kept(rules + [first], rules') && first.name == name && second.name == name
    requires first.version == second.version
    ensures !UniqueNumbers(rules' + [second], name)
  {
    var all := rules' + [second];
    assert (rules + [first])[|rules|] == first;
    assert all[|rules|].name == name && all[|rules|].version == first.version && all[|rules'|] == second;
  }

  lemma OverlapMeansDuplicates(settings: Settings, states: seq<Governance>, events: seq<Event>, n: nat, p: nat,
                               tenant: Tenant, name: Name)
    requires IsRun(settings, states, events) && |events| < |states| && p < n < |states| && tenant in states[n].m
    requires Overlapped(states, events, p, tenant, name)
    ensures !UniqueNumbers(states[n].m[tenant], name)
  {
    var first := FirstOverlap(states, events, p, tenant, name);
    var q := OverlapRepeats(settings, states, events, first, tenant, name);
    hide IsRun, Overlapped, UniqueNumbers, Kept;
    PushedInTenant(settings, states, events, q, tenant, name);
    RunStepNumbers(settings, states, events, q, tenant, name);
    NumbersKept(settings, states, events, q + 1, first, tenant);
    RunStepNumbers(settings, states, events, first, tenant, name);
    PushedTwice(states[q].m[tenant], states[first].m[tenant], states[q].inFlight[events[q].request].rule,
                states[first].inFlight[events[first].request].rule, name);
    NumbersKept(settings, states, events, first + 1, n, tenant);
    DuplicatesStay(states[first + 1].m[tenant], states[n].m[tenant], name);
  }

  lemma PushedInTenant(settings: Settings, states: seq<Governance>, events: seq<Event>, q: nat, tenant: Tenant, name: Name)
    requires IsRun(settings, states, events) && |events| < |states| && PushesAt(states, events, q, tenant, name)
    ensures tenant in states[q].m
  {
    RunStep(settings, states, events, q);
    hide IsRun, Inv;
    InvParts(states[q], events[q].request);
  }

  /** In every interleaving the versions of a tenant's rule have different numbers exactly as long as no
      creation of the rule that has pushed had another push of the rule between its reading and its own
      push. */
  lemma NumbersUniqueExactly(settings: Settings, states: seq<Governance>, events: seq<Event>, n: nat,
                             tenant: Tenant, name: Name)
    requires IsRun(settings, states, events) && n < |states| && tenant in states[n].m
    ensures |events| < |states|
    ensures UniqueNumbers(states[n].m[tenant], name)
       <==> forall p: nat | p < n :: !Overlapped(states, events, p, tenant, name)
  {
    assert |states| == |events| + 1;
    hide IsRun, UniqueNumbers, Overlapped;
    if p: nat :| p < n && Overlapped(states, events, p, tenant, name) {
      OverlapMeansDuplicates(settings, states, events, n, p, tenant, name);
    } else {
      UniqueWithoutOverlap(settings, states, events, n, tenant, name);
    }
  }
}
