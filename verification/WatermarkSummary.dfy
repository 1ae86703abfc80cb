/** Summaries of watermark scans: one per document, one over a batch, and the disposition read off
    either. Counters are 32-bit and wrap around, as they do in a build without overflow checks. */
module WatermarkSummary {
  import opened Wrappers

  newtype u32 = x: int | 0 <= x < 0x1_0000_0000

  datatype Tier = Algorithm | Carrier | Legacy

  datatype Match = Match(token: string, tier: Tier, verified: bool)

  datatype Summary = Summary(
    present: bool,
    verified: bool,
    algorithmVerified: bool,
    matchCount: u32,
    algorithmCount: u32,
    carrierCount: u32,
    legacyCount: u32,
    expectedTokenMatched: bool)

  datatype Disposition = NoWatermark | ExpectedTokenMismatch | WatermarkVerified | WatermarkUnverified

  /** What was found in one document; `expected` is whether an expected token was among it. */
  datatype Scan = Scan(matches: seq<Match>, algorithmVerified: bool, expected: Option<bool>)

  /** The four counters of a summary. */
  datatype Counter = Matches | OfTier(tier: Tier)

  function Counted(s: Summary, counter: Counter): u32 {
    match counter
    case Matches => s.matchCount
    case OfTier(Algorithm) => s.algorithmCount
    case OfTier(Carrier) => s.carrierCount
    case OfTier(Legacy) => s.legacyCount
  }

  function Truncated(n: nat): u32 {
    (n % 0x1_0000_0000) as u32
  }

  function WrappingAdd(a: u32, b: u32): u32 {
    Truncated(a as nat + b as nat)
  }

  /** How many of the matches a counter should count. */
  function Number(matches: seq<Match>, counter: Counter): nat {
    if matches == [] then 0
    else
      var last := matches[|matches| - 1];
      Number(matches[..|matches| - 1], counter) + (if counter.Matches? || last.tier == counter.tier then 1 else 0)
  }

  predicate AllVerified(matches: seq<Match>) {
    forall i | 0 <= i < |matches| :: matches[i].verified
  }

  predicate AsExpected(scan: Scan) {
    scan.expected.Some? ==> scan.expected.value
  }

  /** The summary that a scan deserves. */
  ghost predicate Summarizes(scan: Scan, s: Summary) {
    && (s.present <==> scan.matches != [])
    && (s.verified <==> scan.matches != [] && AllVerified(scan.matches) && AsExpected(scan))
    && s.algorithmVerified == scan.algorithmVerified
    && (forall counter :: Counted(s, counter) == Truncated(Number(scan.matches, counter)))
    && s.expectedTokenMatched == AsExpected(scan)
  }

  method SummarizeMatches(matches: seq<Match>, algorithmVerified: bool, expected: Option<bool>)
    returns (s: Summary)
    ensures Summarizes(Scan(matches, algorithmVerified, expected), s)
  {
    hide Number, Truncated, WrappingAdd;
    var algorithm: u32, carrier: u32, legacy: u32, allVerified := 0, 0, 0, true;
    NoMatches();
    for i := 0 to |matches|
      invariant algorithm == Truncated(Number(matches[..i], OfTier(Algorithm)))
      invariant carrier == Truncated(Number(matches[..i], OfTier(Carrier)))
      invariant legacy == Truncated(Number(matches[..i], OfTier(Legacy)))
      invariant allVerified <==> AllVerified(matches[..i])
    {
      assert matches[..i + 1] == matches[..i] + [matches[i]];
      OneMoreMatch(matches[..i], matches[i]);
      match matches[i].tier {
        case Algorithm => algorithm := WrappingAdd(algorithm, 1);
        case Carrier => carrier := WrappingAdd(carrier, 1);
        case Legacy => legacy := WrappingAdd(legacy, 1);
      }
      allVerified := allVerified && matches[i].verified;
    }
    assert matches[..|matches|] == matches;
    NumberOfMatches(matches);
    var asExpected := if expected.Some? then expected.value else true;
    s := Summary(matches != [], matches != [] && allVerified && asExpected, algorithmVerified,
                 Truncated(|matches|), algorithm, carrier, legacy, asExpected);
    forall counter ensures Counted(s, counter) == Truncated(Number(matches, counter)) {
    }
  }

  lemma NoMatches()
    ensures forall counter :: Truncated(Number([], counter)) == 0
  {
  }

  lemma OneMoreMatch(matches: seq<Match>, last: Match)
    ensures forall counter: Counter ::
              Truncated(Number(matches + [last], counter))
              == if counter.Matches? || last.tier == counter.tier then WrappingAdd(Truncated(Number(matches, counter)), 1)
                 else Truncated(Number(matches, counter))
  {
    assert (matches + [last])[..|matches|] == matches;
    assert Truncated(1) == 1;
    hide Truncated, WrappingAdd;
    forall counter: Counter | counter.Matches? || last.tier == counter.tier
      ensures Truncated(Number(matches + [last], counter)) == WrappingAdd(Truncated(Number(matches, counter)), 1)
    {
      SumWraps(Number(matches, counter), 1);
    }
  }

  function DispositionForSummary(s: Summary): Disposition {
    if !s.present then NoWatermark
    else if !s.expectedTokenMatched then ExpectedTokenMismatch
    else if s.verified then WatermarkVerified
    else WatermarkUnverified
  }

  /** The disposition of a scan: nothing found; something found but not the expected token; everything found
      verified and as expected; or as expected with something unverified. */
  lemma DispositionOutcome(scan: Scan, s: Summary)
    requires Summarizes(scan, s)
    ensures var disposition, matches := DispositionForSummary(s), scan.matches;
            && (disposition == NoWatermark <==> matches == [])
            && (disposition == ExpectedTokenMismatch <==> matches != [] && scan.expected == Some(false))
            && (disposition == WatermarkVerified <==>
                  matches != [] && scan.expected != Some(false) && forall i | 0 <= i < |matches| :: matches[i].verified)
            && (disposition == WatermarkUnverified <==>
                  matches != [] && scan.expected != Some(false) && exists i :: 0 <= i < |matches| && !matches[i].verified)
  {
    hide Number, Truncated, Counted;
  }

  /** What each counter counts, up to wrapping. */
  lemma CountersOutcome(scan: Scan, s: Summary)
    requires Summarizes(scan, s)
    ensures var matches := scan.matches;
            && s.matchCount as nat == |matches| % 0x1_0000_0000
            && s.algorithmCount as nat == |set i | 0 <= i < |matches| && matches[i].tier == Algorithm| % 0x1_0000_0000
            && s.carrierCount as nat == |set i | 0 <= i < |matches| && matches[i].tier == Carrier| % 0x1_0000_0000
            && s.legacyCount as nat == |set i | 0 <= i < |matches| && matches[i].tier == Legacy| % 0x1_0000_0000
  {
    NumberOfMatches(scan.matches);
    NumberOfTier(scan.matches, Algorithm);
    NumberOfTier(scan.matches, Carrier);
    NumberOfTier(scan.matches, Legacy);
    hide Number;
    assert forall tier :: OfTierAt(scan.matches, tier)
                       == set i | 0 <= i < |scan.matches| && scan.matches[i].tier == tier;
    assert Counted(s, Matches) == s.matchCount && Counted(s, OfTier(Algorithm)) == s.algorithmCount
        && Counted(s, OfTier(Carrier)) == s.carrierCount && Counted(s, OfTier(Legacy)) == s.legacyCount;
  }

  function OfTierAt(matches: seq<Match>, tier: Tier): set<int> {
    set i | 0 <= i < |matches| && matches[i].tier == tier
  }

  lemma OfTierNext(matches: seq<Match>, last: Match, tier: Tier)
    ensures OfTierAt(matches + [last], tier)
         == if last.tier == tier then OfTierAt(matches, tier) + {|matches|} else OfTierAt(matches, tier)
  {
  }

  lemma {:induction false} NumberOfTier(matches: seq<Match>, tier: Tier)
    ensures Number(matches, OfTier(tier)) == |OfTierAt(matches, tier)|
  {
    if matches != [] {
      var n := |matches| - 1;
      NumberOfTier(matches[..n], tier);
      OfTierNext(matches[..n], matches[n], tier);
      assert matches == matches[..n] + [matches[n]];
    }
  }

  // ----- The aggregate -----

  /** A report without a summary counts nothing and prevents the batch from being verified. */
  type Reports = seq<Option<Summary>>

  function Total(reports: Reports, counter: Counter): nat {
    if reports == [] then 0
    else
      var last := reports[|reports| - 1];
      Total(reports[..|reports| - 1], counter) + (if last.Some? then Counted(last.value, counter) as nat else 0)
  }

  ghost predicate Aggregates(reports: Reports, s: Summary) {
    && (s.present <==> exists i :: 0 <= i < |reports| && reports[i].Some? && reports[i].value.present)
    && (s.algorithmVerified <==> exists i :: 0 <= i < |reports| && reports[i].Some? && reports[i].value.algorithmVerified)
    && (s.expectedTokenMatched <==>
          forall i | 0 <= i < |reports| && reports[i].Some? :: reports[i].value.expectedTokenMatched)
    && (s.verified <==> s.present && forall i | 0 <= i < |reports| ::
          reports[i].Some? && (reports[i].value.present ==> reports[i].value.verified))
    && (forall counter :: Counted(s, counter) == Truncated(Total(reports, counter)))
  }

  /** The aggregate before its verified flag is decided. */
  ghost predicate AggregatesSoFar(reports: Reports, s: Summary) {
    Aggregates(reports, s.(verified := s.present && forall i | 0 <= i < |reports| ::
                             reports[i].Some? && (reports[i].value.present ==> reports[i].value.verified)))
  }

  function Added(total: Summary, s: Summary): Summary {
    total.(present := total.present || s.present,
           algorithmVerified := total.algorithmVerified || s.algorithmVerified,
           matchCount := WrappingAdd(total.matchCount, s.matchCount),
           algorithmCount := WrappingAdd(total.algorithmCount, s.algorithmCount),
           carrierCount := WrappingAdd(total.carrierCount, s.carrierCount),
           legacyCount := WrappingAdd(total.legacyCount, s.legacyCount),
           expectedTokenMatched := total.expectedTokenMatched && s.expectedTokenMatched)
  }

  lemma AddedCount(total: Summary, s: Summary, counter: Counter)
    ensures Counted(Added(total, s), counter) == WrappingAdd(Counted(total, counter), Counted(s, counter))
  {
    hide WrappingAdd;
  }

  lemma TotalNext(reports: Reports, report: Option<Summary>, counter: Counter)
    ensures Total(reports + [report], counter)
         == Total(reports, counter) + (if report.Some? then Counted(report.value, counter) as nat else 0)
  {
    hide Counted;
    assert (reports + [report])[..|reports|] == reports;
  }

  lemma OneMoreTotal(reports: Reports, report: Option<Summary>, total: Summary, counter: Counter)
    requires Counted(total, counter) == Truncated(Total(reports, counter))
    ensures Counted(if report.Some? then Added(total, report.value) else total, counter)
         == Truncated(Total(reports + [report], counter))
  {
    TotalNext(reports, report, counter);
    hide Total, Counted, Added, Truncated, WrappingAdd;
    if report.Some? {
      AddedCount(total, report.value, counter);
      AddWraps(Total(reports, counter), Counted(report.value, counter));
    }
  }

  /** The verified flag is decided last: it takes no part in the totals. */
  lemma FlagCountsNothing(s: Summary, verified: bool, counter: Counter)
    ensures Counted(s.(verified := verified), counter) == Counted(s, counter)
  {
  }

  lemma TotalsSoFar(reports: Reports, s: Summary, counter: Counter)
    requires AggregatesSoFar(reports, s)
    ensures Counted(s, counter) == Truncated(Total(reports, counter))
  {
    var verified := s.present && forall i | 0 <= i < |reports| ::
                      reports[i].Some? && (reports[i].value.present ==> reports[i].value.verified);
    hide Total, Counted, Truncated;
    assert Aggregates(reports, s.(verified := verified));
    assert Counted(s.(verified := verified), counter) == Truncated(Total(reports, counter));
    FlagCountsNothing(s, verified, counter);
  }

  lemma OneMoreReport(reports: Reports, report: Option<Summary>, total: Summary)
    requires AggregatesSoFar(reports, total)
    ensures AggregatesSoFar(reports + [report], if report.Some? then Added(total, report.value) else total)
  {
    var more, total' := reports + [report], if report.Some? then Added(total, report.value) else total;
    hide Total, Counted, Truncated, WrappingAdd;
    forall counter, verified
      ensures Counted(total'.(verified := verified), counter) == Truncated(Total(more, counter))
    {
      TotalsSoFar(reports, total, counter);
      OneMoreTotal(reports, report, total, counter);
      FlagCountsNothing(total', verified, counter);
    }
    FlagsSoFar(reports, report, total);
  }

  /** The flags of the aggregate after one more report. */
  lemma FlagsSoFar(reports: Reports, report: Option<Summary>, total: Summary)
    requires AggregatesSoFar(reports, total)
    ensures var more, total' := reports + [report], if report.Some? then Added(total, report.value) else total;
            && (total'.present <==> exists i :: 0 <= i < |more| && more[i].Some? && more[i].value.present)
            && (total'.algorithmVerified <==>
                  exists i :: 0 <= i < |more| && more[i].Some? && more[i].value.algorithmVerified)
            && (total'.expectedTokenMatched <==>
                  forall i | 0 <= i < |more| && more[i].Some? :: more[i].value.expectedTokenMatched)
  {
    hide Total, Counted, Truncated, WrappingAdd;
    var more := reports + [report];
    assert more[|reports|] == report && forall i | 0 <= i < |reports| :: more[i] == reports[i];
  }

  method AggregateReportSummaries(reports: Reports) returns (s: Summary)
    ensures Aggregates(reports, s)
  {
    s := Summary(false, false, false, 0, 0, 0, 0, true);
    hide Aggregates, Added;
    assert AggregatesSoFar([], s) by { NothingReported(s); }
    for i := 0 to |reports|
      invariant AggregatesSoFar(reports[..i], s)
    {
      OneMoreReport(reports[..i], reports[i], s);
      assert reports[..i + 1] == reports[..i] + [reports[i]];
      if reports[i].Some? {
        s := Added(s, reports[i].value);
      }
    }
    assert reports[..|reports|] == reports;
    var verified := s.present;
    for i := 0 to |reports|
      invariant verified <==> s.present && forall j | 0 <= j < i ::
                                reports[j].Some? && (reports[j].value.present ==> reports[j].value.verified)
    {
      verified := verified && reports[i].Some? && (!reports[i].value.present || reports[i].value.verified);
    }
    s := s.(verified := verified);
  }

  lemma NothingReported(s: Summary)
    requires s == Summary(false, false, false, 0, 0, 0, 0, true)
    ensures AggregatesSoFar([], s)
  {
  }

  // ----- One summary of a whole batch -----

  /** The batch as if it were one document. */
  function WholeMatches(scans: seq<Scan>): seq<Match> {
    if scans == [] then [] else WholeMatches(scans[..|scans| - 1]) + scans[|scans| - 1].matches
  }

  function Whole(scans: seq<Scan>): Scan {
    Scan(WholeMatches(scans), exists i :: 0 <= i < |scans| && scans[i].algorithmVerified,
         Some(forall i | 0 <= i < |scans| :: AsExpected(scans[i])))
  }

  ghost predicate SummarizeEach(scans: seq<Scan>, reports: Reports) {
    |reports| == |scans| && forall i | 0 <= i < |scans| :: reports[i].Some? && Summarizes(scans[i], reports[i].value)
  }

  /** A document without a watermark in which the expected token was missed. */
  predicate MissedInVain(scan: Scan) {
    scan.matches == [] && !AsExpected(scan)
  }

  /** The aggregate of the summaries of the documents is the summary of the whole batch, except that
      it is also verified when everything found is verified and as expected and an expected token was
      missed only in documents without a watermark. The disposition is the same even then. */
  lemma AggregateIsWhole(scans: seq<Scan>, reports: Reports, total: Summary, whole: Summary)
    requires SummarizeEach(scans, reports) && Aggregates(reports, total) && Summarizes(Whole(scans), whole)
    ensures total == whole.(verified := total.verified)
    ensures total.verified != whole.verified <==>
              && whole.present && AllVerified(WholeMatches(scans))
              && (forall i | 0 <= i < |scans| && scans[i].matches != [] :: AsExpected(scans[i]))
              && (exists i :: 0 <= i < |scans| && MissedInVain(scans[i]))
    ensures DispositionForSummary(total) == DispositionForSummary(whole)
  {
    WholeIsEvery(scans);
    forall counter ensures Counted(total, counter) == Counted(whole, counter) {
      TotalIsNumber(scans, reports, counter);
    }
    assert total.matchCount == whole.matchCount by { assert Counted(total, Matches) == Counted(whole, Matches); }
    assert forall tier :: Counted(total, OfTier(tier)) == Counted(whole, OfTier(tier));
    assert total.algorithmCount == whole.algorithmCount by { assert Counted(total, OfTier(Algorithm)) == total.algorithmCount; }
    assert total.carrierCount == whole.carrierCount by { assert Counted(total, OfTier(Carrier)) == total.carrierCount; }
    assert total.legacyCount == whole.legacyCount by { assert Counted(total, OfTier(Legacy)) == total.legacyCount; }
    hide Number, Total, Counted, Truncated, WholeMatches, AllVerified, AsExpected;
    FlagsAgree(scans, reports, total, whole);
  }

  lemma FlagsAgree(scans: seq<Scan>, reports: Reports, total: Summary, whole: Summary)
    requires SummarizeEach(scans, reports) && Aggregates(reports, total) && Summarizes(Whole(scans), whole)
    requires WholeMatches(scans) != [] <==> exists i :: 0 <= i < |scans| && scans[i].matches != []
    requires AllVerified(WholeMatches(scans)) <==> forall i | 0 <= i < |scans| :: AllVerified(scans[i].matches)
    ensures total.present == whole.present && total.algorithmVerified == whole.algorithmVerified
    ensures total.expectedTokenMatched == whole.expectedTokenMatched
    ensures total.verified <==> whole.present && AllVerified(WholeMatches(scans))
                                && forall i | 0 <= i < |scans| && scans[i].matches != [] :: AsExpected(scans[i])
    ensures whole.verified <==> whole.present && AllVerified(WholeMatches(scans))
                                && forall i | 0 <= i < |scans| :: AsExpected(scans[i])
  {
    hide Number, Total, Counted, Truncated, WholeMatches;
    assert forall i | 0 <= i < |scans| :: Summarizes(scans[i], reports[i].value);
    assert forall i | 0 <= i < |scans| && scans[i].matches == [] :: AllVerified(scans[i].matches);
  }

  /** The disposition of the aggregate, read off the documents: nothing found in any; something found, and an
      expected token missed in one, even in one without a watermark; everything found in any of them
      verified and no expected token missed; or none missed and something unverified. */
  lemma AggregateDisposition(scans: seq<Scan>, reports: Reports, total: Summary)
    requires SummarizeEach(scans, reports) && Aggregates(reports, total)
    ensures var disposition := DispositionForSummary(total);
            var found := exists i :: 0 <= i < |scans| && scans[i].matches != [];
            var missed := exists i :: 0 <= i < |scans| && scans[i].expected == Some(false);
            var unverified := exists i, k :: 0 <= i < |scans| && 0 <= k < |scans[i].matches|
                                             && !scans[i].matches[k].verified;
            && (disposition == NoWatermark <==> !found)
            && (disposition == ExpectedTokenMismatch <==> found && missed)
            && (disposition == WatermarkVerified <==> found && !missed && !unverified)
            && (disposition == WatermarkUnverified <==> found && !missed && unverified)
  {
    assert forall i | 0 <= i < |scans| :: Summarizes(scans[i], reports[i].value);
    hide Number, Total, Truncated, Counted;
  }

  /** The batch endpoint expects no token: there the two are equal. */
  lemma BatchAggregateIsWhole(scans: seq<Scan>, reports: Reports, total: Summary, whole: Summary)
    requires SummarizeEach(scans, reports) && Aggregates(reports, total) && Summarizes(Whole(scans), whole)
    requires forall i | 0 <= i < |scans| :: scans[i].expected.None?
    ensures total == whole
  {
    AggregateIsWhole(scans, reports, total, whole);
    assert forall i | 0 <= i < |scans| :: !MissedInVain(scans[i]);
  }

  method BatchScan(scans: seq<Scan>) returns (reports: Reports, total: Summary)
    requires forall i | 0 <= i < |scans| :: scans[i].expected.None?
    ensures SummarizeEach(scans, reports)
    ensures Summarizes(Whole(scans), total)
  {
    reports := [];
    hide Summarizes;
    for i := 0 to |scans|
      invariant SummarizeEach(scans[..i], reports)
    {
      var s := SummarizeMatches(scans[i].matches, scans[i].algorithmVerified, None);
      assert Scan(scans[i].matches, scans[i].algorithmVerified, None) == scans[i];
      reports := reports + [Some(s)];
    }
    assert scans[..|scans|] == scans;
    total := AggregateReportSummaries(reports);
    SummaryExists(Whole(scans));
    BatchAggregateIsWhole(scans, reports, total, SummaryOf(Whole(scans)));
  }

  ghost function SummaryOf(scan: Scan): Summary {
    Summary(scan.matches != [], scan.matches != [] && AllVerified(scan.matches) && AsExpected(scan),
            scan.algorithmVerified, Truncated(Number(scan.matches, Matches)),
            Truncated(Number(scan.matches, OfTier(Algorithm))), Truncated(Number(scan.matches, OfTier(Carrier))),
            Truncated(Number(scan.matches, OfTier(Legacy))), AsExpected(scan))
  }

  /** A scan has exactly one summary. */
  lemma SummaryExists(scan: Scan)
    ensures Summarizes(scan, SummaryOf(scan))
    ensures forall s :: Summarizes(scan, s) ==> s == SummaryOf(scan)
  {
    hide Number, Truncated, AllVerified, AsExpected;
    forall s | Summarizes(scan, s) ensures s == SummaryOf(scan) {
      assert Counted(s, Matches) == s.matchCount && Counted(s, OfTier(Algorithm)) == s.algorithmCount
          && Counted(s, OfTier(Carrier)) == s.carrierCount && Counted(s, OfTier(Legacy)) == s.legacyCount;
    }
  }

  /** The three tiers add up to the number of matches, up to wrapping, and exactly when it fits. */
  lemma TiersAddUp(scan: Scan, s: Summary)
    requires Summarizes(scan, s)
    ensures s.matchCount == WrappingAdd(WrappingAdd(s.algorithmCount, s.carrierCount), s.legacyCount)
    ensures s.matchCount as nat == s.algorithmCount as nat + s.carrierCount as nat + s.legacyCount as nat
            <== |scan.matches| < 0x1_0000_0000
  {
    NumberOfMatches(scan.matches);
    hide Number, Truncated, WrappingAdd;
    assert Counted(s, Matches) == s.matchCount && Counted(s, OfTier(Algorithm)) == s.algorithmCount
        && Counted(s, OfTier(Carrier)) == s.carrierCount && Counted(s, OfTier(Legacy)) == s.legacyCount;
    ThreeAddUp(Number(scan.matches, OfTier(Algorithm)), Number(scan.matches, OfTier(Carrier)),
               Number(scan.matches, OfTier(Legacy)));
  }

  lemma Fits(n: nat)
    requires n < 0x1_0000_0000
    ensures Truncated(n) as nat == n
  {
  }

  lemma ThreeAddUp(a: nat, b: nat, c: nat)
    ensures WrappingAdd(WrappingAdd(Truncated(a), Truncated(b)), Truncated(c)) == Truncated(a + b + c)
    ensures a + b + c < 0x1_0000_0000 ==>
              Truncated(a) as nat + Truncated(b) as nat + Truncated(c) as nat == Truncated(a + b + c) as nat
  {
    hide WrappingAdd, Truncated;
    SumWraps(a, b);
    SumWraps(a + b, c);
    if a + b + c < 0x1_0000_0000 {
      Fits(a);
      Fits(b);
      Fits(c);
      Fits(a + b + c);
    }
  }

  // ----- Counting -----

  lemma SumWraps(a: nat, b: nat)
    ensures WrappingAdd(Truncated(a), Truncated(b)) == Truncated(a + b)
    ensures b < 0x1_0000_0000 ==> Truncated(b) as nat == b
  {
    var carry := (a % 0x1_0000_0000 + b % 0x1_0000_0000) / 0x1_0000_0000;
    var quotient := a / 0x1_0000_0000 + b / 0x1_0000_0000 + carry;
    assert a + b == quotient * 0x1_0000_0000 + (a % 0x1_0000_0000 + b % 0x1_0000_0000) % 0x1_0000_0000;
  }

  lemma AddWraps(a: nat, b: u32)
    ensures WrappingAdd(Truncated(a), b) == Truncated(a + b as nat)
  {
    SumWraps(a, b as nat);
    hide WrappingAdd;
  }

  lemma {:induction false} NumberOfMatches(matches: seq<Match>)
    ensures Number(matches, Matches) == |matches|
    ensures Number(matches, OfTier(Algorithm)) + Number(matches, OfTier(Carrier)) + Number(matches, OfTier(Legacy))
         == |matches|
  {
    if matches != [] {
      NumberOfMatches(matches[..|matches| - 1]);
    }
  }

  lemma {:induction false} NumberOfBoth(matches: seq<Match>, more: seq<Match>, counter: Counter)
    ensures Number(matches + more, counter) == Number(matches, counter) + Number(more, counter)
  {
    if more == [] {
      assert matches + more == matches;
    } else {
      NumberOfBoth(matches, more[..|more| - 1], counter);
      assert (matches + more)[..|matches + more| - 1] == matches + more[..|more| - 1];
    }
  }

  lemma WholeNext(scans: seq<Scan>, counter: Counter)
    requires scans != []
    ensures var n := |scans| - 1;
            Number(WholeMatches(scans), counter)
            == Number(WholeMatches(scans[..n]), counter) + Number(scans[n].matches, counter)
  {
    hide Number;
    NumberOfBoth(WholeMatches(scans[..|scans| - 1]), scans[|scans| - 1].matches, counter);
  }

  lemma CountOfSummary(scan: Scan, s: Summary, counter: Counter)
    requires Summarizes(scan, s)
    ensures Counted(s, counter) == Truncated(Number(scan.matches, counter))
  {
    hide Counted, Truncated, Number;
  }

  lemma NothingScanned(counter: Counter)
    ensures Total([], counter) == Number(WholeMatches([]), counter)
  {
  }

  lemma {:induction false} TotalIsNumber(scans: seq<Scan>, reports: Reports, counter: Counter)
    requires SummarizeEach(scans, reports)
    ensures Truncated(Total(reports, counter)) == Truncated(Number(WholeMatches(scans), counter))
    decreases |scans|
  {
    hide Summarizes, Counted, Number, Total, WholeMatches, Truncated;
    if scans == [] {
      NothingScanned(counter);
    } else {
      var n := |scans| - 1;
      TotalIsNumber(scans[..n], reports[..n], counter);
      WholeNext(scans, counter);
      TotalNext(reports[..n], reports[n], counter);
      CountOfSummary(scans[n], reports[n].value, counter);
      assert reports == reports[..n] + [reports[n]];
      SameSum(Total(reports[..n], counter), Number(WholeMatches(scans[..n]), counter),
              Counted(reports[n].value, counter), Number(scans[n].matches, counter));
    }
  }

  lemma SameSum(total: nat, number: nat, count: u32, more: nat)
    requires Truncated(total) == Truncated(number) && count == Truncated(more)
    ensures Truncated(total + count as nat) == Truncated(number + more)
  {
    SumWraps(total, count as nat);
    SumWraps(number, more);
  }

  lemma {:induction false} WholeIsEvery(scans: seq<Scan>)
    ensures WholeMatches(scans) != [] <==> exists i :: 0 <= i < |scans| && scans[i].matches != []
    ensures AllVerified(WholeMatches(scans)) <==> forall i | 0 <= i < |scans| :: AllVerified(scans[i].matches)
  {
    if scans != [] {
      var n := |scans| - 1;
      WholeIsEvery(scans[..n]);
      BothVerified(WholeMatches(scans[..n]), scans[n].matches);
      assert forall i | 0 <= i < n :: scans[..n][i] == scans[i];
    }
  }

  lemma BothVerified(matches: seq<Match>, more: seq<Match>)
    ensures AllVerified(matches + more) <==> AllVerified(matches) && AllVerified(more)
  {
    if AllVerified(matches + more) {
      assert forall i | 0 <= i < |matches| :: (matches + more)[i] == matches[i];
      assert forall i | 0 <= i < |more| :: (matches + more)[|matches| + i] == more[i];
    }
  }
}
