/** UEBA alerts: the textual reason under which an alert is stored, its decoder, and the two
    independently written signatures that deduplication relies on. */
module UebaAlerts {
  import opened Wrappers

  datatype UebaRule =
    | HighFrequencyQuery
    | ExportSpike
    | UnauthorizedQueryBurst
    | AfterHoursAccess
    | HiddenChannelDns
    | HiddenChannelHttp

  datatype MitigationAction = Observe | StepUpAuth | SuspendPermissions | TerminateSession

  newtype u8 = x: int | 0 <= x < 256

  datatype UebaAlert = UebaAlert(
    alertId: string,
    userId: string,
    tenantId: string,
    rule: UebaRule,
    riskScore: u8,
    action: MitigationAction,
    evidence: string)

  datatype ReasonError = BadScore | UnknownRule(text: string)

  function Severity(action: MitigationAction): nat {
    match action
    case Observe => 0
    case StepUpAuth => 1
    case SuspendPermissions => 2
    case TerminateSession => 3
  }

  function RuleLabel(rule: UebaRule): string {
    match rule
    case HighFrequencyQuery => "HighFrequencyQuery"
    case ExportSpike => "ExportSpike"
    case UnauthorizedQueryBurst => "UnauthorizedQueryBurst"
    case AfterHoursAccess => "AfterHoursAccess"
    case HiddenChannelDns => "HiddenChannelDns"
    case HiddenChannelHttp => "HiddenChannelHttp"
  }

  /** The name under which a rule appears in a signature computed in memory. */
  function DebugName(rule: UebaRule): string {
    match rule
    case HighFrequencyQuery => "HighFrequencyQuery"
    case ExportSpike => "ExportSpike"
    case UnauthorizedQueryBurst => "UnauthorizedQueryBurst"
    case AfterHoursAccess => "AfterHoursAccess"
    case HiddenChannelDns => "HiddenChannelDns"
    case HiddenChannelHttp => "HiddenChannelHttp"
  }

  function ParseRule(text: string): Result<UebaRule, ReasonError> {
    if text == "HighFrequencyQuery" then Ok(HighFrequencyQuery)
    else if text == "ExportSpike" then Ok(ExportSpike)
    else if text == "UnauthorizedQueryBurst" then Ok(UnauthorizedQueryBurst)
    else if text == "AfterHoursAccess" then Ok(AfterHoursAccess)
    else if text == "HiddenChannelDns" then Ok(HiddenChannelDns)
    else if text == "HiddenChannelHttp" then Ok(HiddenChannelHttp)
    else Err(UnknownRule(text))
  }

  // ----- Decimal text -----

  function Digit(d: nat): char
    requires d < 10
  {
    '0' + d as char
  }

  predicate IsDigit(c: char) { '0' <= c <= '9' }

  /** Decimal text without leading zeros. */
  function Decimal(n: nat): string {
    if n < 10 then [Digit(n)] else Decimal(n / 10) + [Digit(n % 10)]
  }

  predicate AllDigits(s: string) {
    forall i | 0 <= i < |s| :: IsDigit(s[i])
  }

  function DigitsValue(s: string): nat
    requires AllDigits(s)
  {
    if s == "" then 0 else 10 * DigitsValue(s[..|s| - 1]) + (s[|s| - 1] - '0') as nat
  }

  /** Parsing an unsigned byte: one optional plus sign, then at least one digit, below 256. */
  function ParseU8(s: string): Result<u8, ReasonError> {
    var digits := if s != "" && s[0] == '+' then s[1..] else s;
    if digits == "" || !AllDigits(digits) || DigitsValue(digits) > 255 then Err(BadScore)
    else Ok(DigitsValue(digits) as u8)
  }

  // ----- Encoding and decoding -----

  function EncodeReason(alert: UebaAlert): string {
    RuleLabel(alert.rule) + "|" + Decimal(alert.riskScore as nat) + "|" + alert.evidence
  }

  /** The text before the first bar, and the text after it if there is one. */
  function SplitOnce(s: string): (string, Option<string>) {
    if s == "" then ("", None)
    else if s[0] == '|' then ("", Some(s[1..]))
    else
      var (head, rest) := SplitOnce(s[1..]);
      ([s[0]] + head, rest)
  }

  /** At most three parts are cut off, so the third keeps every further bar; the score is parsed
      before the rule is. */
  function DecodeReason(reason: string): Result<(UebaRule, u8, string), ReasonError> {
    var (rule, afterRule) := SplitOnce(reason);
    var (score, afterScore) := if afterRule.Some? then SplitOnce(afterRule.value) else ("", None);
    var evidence := if afterScore.Some? then afterScore.value else "";
    match ParseU8(score)
    case Err(error) => Err(error)
    case Ok(value) =>
      match ParseRule(rule)
      case Err(error) => Err(error)
      case Ok(parsed) => Ok((parsed, value, evidence))
  }

  /** The signature of an alert in memory. */
  function AlertSignature(alert: UebaAlert): string {
    alert.userId + "|" + DebugName(alert.rule) + "|" + Decimal(alert.riskScore as nat) + "|" + alert.evidence
  }

  /** The signature rebuilt from a stored row. */
  function StoredSignature(userId: string, reason: string): string {
    userId + "|" + reason
  }

  // ----- Decimal text reads back -----

  lemma {:induction false} DecimalReadsBack(n: nat)
    ensures AllDigits(Decimal(n)) && |Decimal(n)| > 0
    ensures DigitsValue(Decimal(n)) == n
  {
    if n >= 10 {
      DecimalReadsBack(n / 10);
      assert Decimal(n)[..|Decimal(n)| - 1] == Decimal(n / 10);
    } else {
      assert Decimal(n)[..0] == "";
    }
  }

  lemma DecimalParses(score: u8)
    ensures ParseU8(Decimal(score as nat)) == Ok(score)
  {
    DecimalReadsBack(score as nat);
    assert IsDigit(Decimal(score as nat)[0]);
  }

  // ----- Splitting at the first bar -----

  lemma {:induction false} SplitAtBar(head: string, rest: string)
    requires '|' !in head
    ensures SplitOnce(head + "|" + rest) == (head, Some(rest))
  {
    var s := head + "|" + rest;
    if head == "" {
      assert s[1..] == rest;
    } else {
      assert s[1..] == head[1..] + "|" + rest;
      assert head == [head[0]] + head[1..] && s[0] == head[0];
      SplitAtBar(head[1..], rest);
    }
  }

  lemma {:induction false} SplitLosesNothing(s: string)
    ensures var (head, rest) := SplitOnce(s);
            && '|' !in head
            && s == match rest case None => head case Some(text) => head + "|" + text
  {
    if s != "" && s[0] != '|' { SplitLosesNothing(s[1..]); }
  }

  lemma NoBarInLabelOrScore(rule: UebaRule, score: u8)
    ensures '|' !in RuleLabel(rule) && '|' !in Decimal(score as nat)
  {
    assert '|' !in RuleLabel(rule);
    hide RuleLabel;
    DecimalReadsBack(score as nat);
    var text := Decimal(score as nat);
    assert forall i | 0 <= i < |text| :: IsDigit(text[i]);
  }

  /** Every stored alert is read back as it was, whatever bars its evidence contains. */
  lemma DecodeAfterEncode(alert: UebaAlert)
    ensures DecodeReason(EncodeReason(alert)) == Ok((alert.rule, alert.riskScore, alert.evidence))
  {
    hide RuleLabel, ParseRule, ParseU8, Decimal, SplitOnce, EncodeReason;
    ReasonParts(alert);
    DecimalParses(alert.riskScore);
    LabelParses(alert.rule);
  }

  lemma LabelParses(rule: UebaRule)
    ensures ParseRule(RuleLabel(rule)) == Ok(rule)
  {
  }

  /** Decoding accepts more texts than encoding writes. It is undone by encoding exactly when the
      text has all three parts and its score has no sign and no leading zero. */
  lemma EncodeAfterDecode(reason: string, alert: UebaAlert)
    requires DecodeReason(reason) == Ok((alert.rule, alert.riskScore, alert.evidence))
    ensures var (rule, afterRule) := SplitOnce(reason);
            afterRule.Some? &&
            var (score, afterScore) := SplitOnce(afterRule.value);
            EncodeReason(alert) == reason <==>
              afterScore.Some? && score[0] != '+' && (score[0] == '0' ==> |score| == 1)
  {
    DecodedParts(reason, alert);
    var (rule, afterRule) := SplitOnce(reason);
    SplitLosesNothing(reason);
    var (score, afterScore) := SplitOnce(afterRule.value);
    SplitLosesNothing(afterRule.value);
    ScoreTextIsCanonical(score, alert.riskScore);
    ReasonParts(alert);
    if afterScore.Some? && Decimal(alert.riskScore as nat) == score {
      assert EncodeReason(alert) == reason;
    }
  }

  lemma DecodedParts(reason: string, alert: UebaAlert)
    requires DecodeReason(reason) == Ok((alert.rule, alert.riskScore, alert.evidence))
    ensures var (rule, afterRule) := SplitOnce(reason);
            && rule == RuleLabel(alert.rule)
            && afterRule.Some?
            && var (score, afterScore) := SplitOnce(afterRule.value);
            && ParseU8(score) == Ok(alert.riskScore)
            && alert.evidence == if afterScore.Some? then afterScore.value else ""
  {
    assert ParseU8("").Err?;
    hide ParseU8, ParseRule, RuleLabel, SplitOnce;
    LabelOfParsed(SplitOnce(reason).0, alert.rule);
  }

  lemma LabelOfParsed(text: string, rule: UebaRule)
    ensures ParseRule(text) == Ok(rule) ==> text == RuleLabel(rule)
  {
  }

  lemma ReasonParts(alert: UebaAlert)
    ensures var tail := Decimal(alert.riskScore as nat) + "|" + alert.evidence;
            && EncodeReason(alert) == RuleLabel(alert.rule) + "|" + tail
            && SplitOnce(EncodeReason(alert)) == (RuleLabel(alert.rule), Some(tail))
            && SplitOnce(tail) == (Decimal(alert.riskScore as nat), Some(alert.evidence))
  {
    var score := Decimal(alert.riskScore as nat);
    NoBarInLabelOrScore(alert.rule, alert.riskScore);
    assert EncodeReason(alert) == RuleLabel(alert.rule) + "|" + (score + "|" + alert.evidence);
    SplitAtBar(RuleLabel(alert.rule), score + "|" + alert.evidence);
    SplitAtBar(score, alert.evidence);
  }

  lemma ScoreTextIsCanonical(score: string, value: u8)
    requires ParseU8(score) == Ok(value)
    ensures score != ""
    ensures Decimal(value as nat) == score <==> score[0] != '+' && (score[0] == '0' ==> |score| == 1)
  {
    DecimalReadsBack(value as nat);
    DecimalHasNoLeadingZero(value as nat);
    assert IsDigit(Decimal(value as nat)[0]);
    if score[0] != '+' && (score[0] == '0' ==> |score| == 1) {
      DecimalOfDigits(score);
    }
  }

  lemma {:induction false} DecimalHasNoLeadingZero(n: nat)
    ensures |Decimal(n)| > 0 && (Decimal(n)[0] == '0' ==> n == 0 && |Decimal(n)| == 1)
  {
    if n >= 10 {
      DecimalHasNoLeadingZero(n / 10);
      assert Decimal(n)[0] == Decimal(n / 10)[0];
    }
  }

  /** Digits without a superfluous leading zero are the decimal text of their value. */
  lemma {:induction false} DecimalOfDigits(s: string)
    requires s != "" && AllDigits(s) && (s[0] == '0' ==> |s| == 1)
    ensures Decimal(DigitsValue(s)) == s
    ensures DigitsValue(s) > 0 || s == "0"
  {
    var last := |s| - 1;
    var digit := (s[last] - '0') as nat;
    assert Digit(digit) == s[last];
    assert s == s[..last] + [s[last]];
    if last > 0 {
      assert s[..last][0] == s[0];
      DecimalOfDigits(s[..last]);
      assert DigitsValue(s) / 10 == DigitsValue(s[..last]) && DigitsValue(s) % 10 == digit;
    } else {
      assert s[..last] == "";
      assert DigitsValue(s) == digit;
    }
  }

  // ----- Signatures -----

  lemma NamesAgree(rule: UebaRule)
    ensures DebugName(rule) == RuleLabel(rule)
  {
  }

  /** The signature computed in memory and the one rebuilt from the stored row are the same text. */
  lemma SignaturesAgree(alert: UebaAlert)
    ensures StoredSignature(alert.userId, EncodeReason(alert)) == AlertSignature(alert)
  {
    NamesAgree(alert.rule);
    hide DebugName, RuleLabel, Decimal;
    var rule, score := RuleLabel(alert.rule), Decimal(alert.riskScore as nat);
    assert alert.userId + "|" + (rule + "|" + score + "|" + alert.evidence)
        == alert.userId + "|" + rule + "|" + score + "|" + alert.evidence;
  }

  /** The two alerts blame one user for one thing: only their ids, tenants and actions may differ. */
  predicate SameFinding(a: UebaAlert, b: UebaAlert) {
    a.userId == b.userId && a.rule == b.rule && a.riskScore == b.riskScore && a.evidence == b.evidence
  }

  /** For user ids without a bar a signature identifies the user, the rule, the score and the
      evidence. */
  lemma SignatureIdentifies(a: UebaAlert, b: UebaAlert)
    requires '|' !in a.userId && '|' !in b.userId
    ensures AlertSignature(a) == AlertSignature(b) <==> SameFinding(a, b)
  {
    if AlertSignature(a) == AlertSignature(b) {
      SignaturesAgree(a);
      SignaturesAgree(b);
      SplitAtBar(a.userId, EncodeReason(a));
      SplitAtBar(b.userId, EncodeReason(b));
      DecodeAfterEncode(a);
      DecodeAfterEncode(b);
    }
  }

  // ----- Which signatures collide -----

  /** A user id followed by a rule and a score, as a signature begins. */
  function Beginning(userId: string, rule: UebaRule, score: u8): string {
    userId + "|" + RuleLabel(rule) + "|" + Decimal(score as nat)
  }

  /** `id` is `begins`, or goes on after it with a bar. */
  predicate Continues(id: string, begins: string) {
    id == begins || begins + "|" <= id
  }

  /** The user id of `b` continues the beginning of `a`'s signature, and the evidence of `a` is what
      remains of that user id followed by the whole reason of `b`. */
  predicate Swallows(a: UebaAlert, b: UebaAlert) {
    var begins := Beginning(a.userId, a.rule, a.riskScore);
    Continues(b.userId, begins) && a.evidence == Remainder(b.userId, begins, EncodeReason(b))
  }

  /** What follows `begins` in a signature made of the user id and the reason. */
  function Remainder(id: string, begins: string, reason: string): string
    requires Continues(id, begins)
  {
    if id == begins then reason else id[|begins| + 1..] + "|" + reason
  }

  /** For any two alerts whatever: they share a signature exactly when they are the same finding or one
      swallows the user id of the other. */
  lemma SignaturesCollideExactly(a: UebaAlert, b: UebaAlert)
    ensures AlertSignature(a) == AlertSignature(b) <==> SameFinding(a, b) || Swallows(a, b) || Swallows(b, a)
  {
    SignaturesAgree(a);
    SignaturesAgree(b);
    hide AlertSignature, EncodeReason, Swallows;
    if AlertSignature(a) == AlertSignature(b) {
      if |a.userId| < |b.userId| {
        ShorterSwallows(a, b);
      } else if |b.userId| < |a.userId| {
        ShorterSwallows(b, a);
      } else {
        SameSplit(a.userId, EncodeReason(a), b.userId, EncodeReason(b));
        DecodeAfterEncode(a);
        DecodeAfterEncode(b);
      }
    }
    if Swallows(a, b) { SwallowingCollides(a, b); }
    if Swallows(b, a) { SwallowingCollides(b, a); }
    if SameFinding(a, b) { SameReason(a, b); }
  }

  lemma SameReason(a: UebaAlert, b: UebaAlert)
    requires SameFinding(a, b)
    ensures EncodeReason(a) == EncodeReason(b)
  {
  }

  lemma SameSplit(head: string, rest: string, other: string, more: string)
    requires |head| == |other| && head + "|" + rest == other + "|" + more
    ensures head == other && rest == more
  {
    assert (head + "|" + rest)[..|head|] == head && (other + "|" + more)[..|other|] == other;
    assert (head + "|" + rest)[|head| + 1..] == rest && (other + "|" + more)[|other| + 1..] == more;
  }

  lemma SignatureBegins(alert: UebaAlert)
    ensures StoredSignature(alert.userId, EncodeReason(alert))
         == Beginning(alert.userId, alert.rule, alert.riskScore) + "|" + alert.evidence
  {
    hide RuleLabel, Decimal;
    var name, score := RuleLabel(alert.rule), Decimal(alert.riskScore as nat);
    assert alert.userId + "|" + (name + "|" + score + "|" + alert.evidence)
        == alert.userId + "|" + name + "|" + score + "|" + alert.evidence;
  }

  lemma SwallowingCollides(a: UebaAlert, b: UebaAlert)
    requires Swallows(a, b)
    ensures StoredSignature(a.userId, EncodeReason(a)) == StoredSignature(b.userId, EncodeReason(b))
  {
    hide EncodeReason, Beginning;
    SignatureBegins(a);
    var begins, reason := Beginning(a.userId, a.rule, a.riskScore), EncodeReason(b);
    if b.userId != begins {
      var rest := b.userId[|begins| + 1..];
      assert b.userId == begins + "|" + rest;
      assert begins + "|" + (rest + "|" + reason) == begins + "|" + rest + "|" + reason;
    }
  }

  /** Of two texts cut at a bar into equal wholes, the one cut later continues the one cut earlier. */
  lemma PeelBar(head: string, rest: string, later: string, more: string)
    requires head + "|" + rest == later + "|" + more && |head| < |later|
    ensures head + "|" <= later && rest == later[|head| + 1..] + "|" + more
  {
    var whole := head + "|" + rest;
    assert whole[..|later|] == later && whole[|later|] == '|' && whole[|later| + 1..] == more;
    assert later == head + "|" + whole[|head| + 1..|later|];
    assert rest == whole[|head| + 1..] == whole[|head| + 1..|later|] + "|" + more;
  }

  /** A text without bars cannot be cut later than another. */
  lemma BarFreeIsCutFirst(head: string, rest: string, other: string, more: string)
    requires head + "|" + rest == other + "|" + more && '|' !in head
    ensures |head| <= |other|
  {
    if |other| < |head| {
      assert (other + "|")[|other|] == '|';
      PeelBar(other, more, head, rest);
    }
  }

  lemma LabelIsNoScore(rule: UebaRule, score: u8)
    ensures RuleLabel(rule) != Decimal(score as nat)
  {
    DecimalReadsBack(score as nat);
    assert !IsDigit(RuleLabel(rule)[0]);
    assert AllDigits(Decimal(score as nat)) ==> IsDigit(Decimal(score as nat)[0]);
  }

  /** Where a text can be cut that begins with a bar-free part: after it or later. */
  lemma CutAfterPart(part: string, tail: string, w: string, reason: string)
    requires part + "|" + tail == w + "|" + reason && '|' !in part
    ensures || (w == part && reason == tail)
            || (part + "|" <= w && w == part + "|" + w[|part| + 1..] && tail == w[|part| + 1..] + "|" + reason)
  {
    BarFreeIsCutFirst(part, tail, w, reason);
    if |w| == |part| {
      SameSplit(part, tail, w, reason);
    } else {
      PeelBar(part, tail, w, reason);
    }
  }

  lemma TwoParts(name: string, score: string, rest: string)
    ensures name + "|" + (score + "|" + rest) == name + "|" + score + "|" + rest
    ensures (name + "|" + score + "|" + rest)[|name + "|" + score| + 1..] == rest
  {
  }

  /** Where a text can be cut that begins with two bar-free parts: after the first, after the second or
      later. */
  lemma CutAfterParts(name: string, score: string, evidence: string, w: string, reason: string)
    requires name + "|" + (score + "|" + evidence) == w + "|" + reason && '|' !in name && '|' !in score
    ensures || (w == name && reason == score + "|" + evidence)
            || (w == name + "|" + score && reason == evidence)
            || (name + "|" + score + "|" <= w && evidence == w[|name + "|" + score| + 1..] + "|" + reason)
  {
    CutAfterPart(name, score + "|" + evidence, w, reason);
    if w != name {
      var rest := w[|name| + 1..];
      CutAfterPart(score, evidence, rest, reason);
      if rest != score {
        TwoParts(name, score, rest[|score| + 1..]);
      }
    }
  }

  /** A reason does not begin with a score. */
  lemma ReasonIsNoTail(alert: UebaAlert, score: u8, evidence: string)
    ensures EncodeReason(alert) != Decimal(score as nat) + "|" + evidence
  {
    ReasonParts(alert);
    NoBarInLabelOrScore(alert.rule, score);
    SplitAtBar(Decimal(score as nat), evidence);
    LabelIsNoScore(alert.rule, score);
    hide RuleLabel, Decimal, EncodeReason, SplitOnce;
  }

  lemma ShorterSwallows(a: UebaAlert, b: UebaAlert)
    requires |a.userId| < |b.userId|
    requires StoredSignature(a.userId, EncodeReason(a)) == StoredSignature(b.userId, EncodeReason(b))
    ensures Swallows(a, b)
  {
    var name, score, reason := RuleLabel(a.rule), Decimal(a.riskScore as nat), EncodeReason(b);
    hide RuleLabel, Decimal, EncodeReason, SplitOnce, Swallows;
    NoBarInLabelOrScore(a.rule, a.riskScore);
    ReasonParts(a);
    ReasonIsNoTail(b, a.riskScore, a.evidence);
    PeelBar(a.userId, EncodeReason(a), b.userId, reason);
    var w := b.userId[|a.userId| + 1..];
    assert b.userId == a.userId + "|" + w;
    CutAfterParts(name, score, a.evidence, w, reason);
    if w == name + "|" + score {
      EndsWithScore(a, b);
    } else {
      GoesOnAfterScore(a, b, w);
    }
  }

  lemma EndsWithScore(a: UebaAlert, b: UebaAlert)
    requires b.userId == a.userId + "|" + (RuleLabel(a.rule) + "|" + Decimal(a.riskScore as nat))
    requires a.evidence == EncodeReason(b)
    ensures Swallows(a, b)
  {
    hide RuleLabel, Decimal, EncodeReason;
    assert b.userId == Beginning(a.userId, a.rule, a.riskScore);
  }

  lemma GoesOnAfterScore(a: UebaAlert, b: UebaAlert, w: string)
    requires b.userId == a.userId + "|" + w
    requires var begun := RuleLabel(a.rule) + "|" + Decimal(a.riskScore as nat);
             begun + "|" <= w && a.evidence == w[|begun| + 1..] + "|" + EncodeReason(b)
    ensures Swallows(a, b)
  {
    hide RuleLabel, Decimal, EncodeReason;
    var begins, begun := Beginning(a.userId, a.rule, a.riskScore), RuleLabel(a.rule) + "|" + Decimal(a.riskScore as nat);
    var rest := w[|begun| + 1..];
    assert begins == a.userId + "|" + begun && w == begun + "|" + rest;
    assert b.userId == begins + "|" + rest;
    assert b.userId[|begins| + 1..] == rest;
  }

  /** So with a bar in a user id two alerts of different rules can share a signature. */
  lemma BarInUserIdCollides()
    ensures exists a, b :: AlertSignature(a) == AlertSignature(b) && a.rule != b.rule
  {
    hide AlertSignature, EncodeReason, Beginning;
    var b := UebaAlert("2", Beginning("u", ExportSpike, 92), "t", AfterHoursAccess, 44, Observe, "y");
    var a := UebaAlert("1", "u", "t", ExportSpike, 92, Observe, EncodeReason(b));
    assert Swallows(a, b);
    SignaturesCollideExactly(a, b);
  }

  predicate CanSwallow(id: string, other: string) {
    exists rule, score: u8 :: Continues(other, Beginning(id, rule, score))
  }

  /** Two different users can share a signature exactly when the id of one goes on, after a bar, with a
      rule name, a bar and a score, and then ends or has a further bar, where the id of the other ends. */
  lemma UsersCollideExactly(id: string, other: string)
    requires id != other
    ensures (exists a: UebaAlert, b: UebaAlert :: a.userId == id && b.userId == other && AlertSignature(a) == AlertSignature(b))
       <==> CanSwallow(id, other) || CanSwallow(other, id)
  {
    if a: UebaAlert, b: UebaAlert :| a.userId == id && b.userId == other && AlertSignature(a) == AlertSignature(b) {
      SignaturesCollideExactly(a, b);
      hide Beginning, Continues, EncodeReason, AlertSignature;
      if Swallows(a, b) {
        assert Continues(other, Beginning(id, a.rule, a.riskScore));
      } else {
        assert Continues(id, Beginning(other, b.rule, b.riskScore));
      }
    }
    hide AlertSignature, EncodeReason, Beginning;
    if CanSwallow(id, other) {
      var a, b := Colliding(id, other);
    }
    if CanSwallow(other, id) {
      var a, b := Colliding(other, id);
    }
  }

  lemma Colliding(id: string, other: string) returns (a: UebaAlert, b: UebaAlert)
    requires CanSwallow(id, other)
    ensures a.userId == id && b.userId == other && AlertSignature(a) == AlertSignature(b)
  {
    hide AlertSignature, EncodeReason, Beginning, Continues, Remainder;
    var rule, score: u8 :| Continues(other, Beginning(id, rule, score));
    b := UebaAlert("2", other, "t", AfterHoursAccess, 44, Observe, "y");
    a := UebaAlert("1", id, "t", rule, score, Observe, Remainder(other, Beginning(id, rule, score), EncodeReason(b)));
    assert Swallows(a, b);
    hide Swallows;
    SignaturesCollideExactly(a, b);
  }
}
