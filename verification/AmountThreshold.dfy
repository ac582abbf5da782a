/** Comparing raw amounts without parsing them, and the notification rules that do. */
module AmountThreshold {
  import opened Wrappers
  import opened Digits

  function Normalize(s: string): Option<string> {
    if s == "" || !AllDigits(s) then None
    else if StripZeros(s) == "" then Some("0")
    else Some(StripZeros(s))
  }

  // Lexicographic order on strings.
  predicate LexLess(a: string, b: string) {
    b != "" && (a == "" || a[0] < b[0] || (a[0] == b[0] && LexLess(a[1..], b[1..])))
  }

  // Longer wins; of equal length, the lexicographically greater or equal.
  predicate MeetsMinimum(amount: Option<string>, minimum: Option<string>) {
    match minimum
    case None => true
    case Some(m) =>
      match amount
      case None => false
      case Some(a) =>
        match Normalize(a)
        case None => false
        case Some(na) =>
          match Normalize(m)
          case None => false
          case Some(nm) => |na| > |nm| || (|na| == |nm| && !LexLess(na, nm))
  }

  // ---------- The comparison is numeric ----------

  lemma FirstDigit(s: string)
    requires AllDigits(s) && s != ""
    ensures Value(s) == DigitValue(s[0]) * Pow10(|s| - 1) + Value(s[1..]) && Value(s[1..]) < Pow10(|s| - 1)
  {
    hide Value, Pow10;
    ValueOfOne(s[0]);
    ValueAppend([s[0]], s[1..]);
    assert s == [s[0]] + s[1..];
    ValueBelowPower(s[1..]);
  }

  lemma HighDigitDecides(d: nat, e: nat, x: nat, y: nat, p: nat)
    requires x < p && y < p
    ensures d < e ==> d * p + x < e * p + y
    ensures d > e ==> d * p + x > e * p + y
  {
    if d < e { assert e * p >= (d + 1) * p; }
    if d > e { assert d * p >= (e + 1) * p; }
  }

  lemma {:induction false} LexIsNumeric(a: string, b: string)
    requires AllDigits(a) && AllDigits(b) && |a| == |b|
    ensures LexLess(a, b) <==> Value(a) < Value(b)
  {
    if a != "" {
      FirstDigit(a);
      FirstDigit(b);
      LexIsNumeric(a[1..], b[1..]);
      HighDigitDecides(DigitValue(a[0]), DigitValue(b[0]), Value(a[1..]), Value(b[1..]), Pow10(|a| - 1));
    }
  }

  lemma {:induction false} PowerMonotone(a: nat, b: nat)
    requires a <= b
    ensures Pow10(a) <= Pow10(b)
  {
    if a < b { PowerMonotone(a, b - 1); }
  }

  lemma LongerIsGreater(a: string, b: string)
    requires AllDigits(a) && AllDigits(b) && |a| > |b| && a[0] != '0'
    ensures Value(a) > Value(b)
  {
    hide Value, Pow10;
    FirstDigit(a);
    AtLeastOnce(DigitValue(a[0]), Pow10(|a| - 1));
    ValueBelowPower(b);
    PowerMonotone(|b|, |a| - 1);
  }

  lemma AtLeastOnce(d: nat, p: nat)
    requires d >= 1
    ensures d * p >= p
  {
  }

  lemma NormalizeKeepsValue(s: string)
    requires s != "" && AllDigits(s)
    ensures var n := Normalize(s).value;
            AllDigits(n) && n != "" && Value(n) == Value(s) && (|n| > 1 ==> n[0] != '0')
  {
    StripKeepsValue(s);
    if StripZeros(s) == "" { assert "0"[..0] == ""; assert Value("0") == 0; }
  }

  lemma CanonicalOrder(a: string, b: string)
    requires AllDigits(a) && AllDigits(b) && a != "" && b != ""
    requires (|a| > 1 ==> a[0] != '0') && (|b| > 1 ==> b[0] != '0')
    ensures (|a| > |b| || (|a| == |b| && !LexLess(a, b))) <==> Value(a) >= Value(b)
  {
    hide Value;
    if |a| > |b| { LongerIsGreater(a, b); }
    else if |a| < |b| { LongerIsGreater(b, a); }
    else { LexIsNumeric(a, b); }
  }

  predicate IsAmount(s: string) { s != "" && AllDigits(s) }

  // The exact meaning for every input: no minimum, or two digit strings, leading zeros allowed, of which the
  // amount's value is at least the minimum's.
  lemma ThresholdIsNumeric(amount: Option<string>, minimum: Option<string>)
    ensures MeetsMinimum(amount, minimum) <==>
            minimum.None?
            || (amount.Some? && IsAmount(amount.value) && IsAmount(minimum.value)
                && Value(amount.value) >= Value(minimum.value))
  {
    hide Value, StripZeros, LexLess;
    if amount.Some? && minimum.Some? && IsAmount(amount.value) && IsAmount(minimum.value) {
      NormalizeKeepsValue(amount.value);
      NormalizeKeepsValue(minimum.value);
      CanonicalOrder(Normalize(amount.value).value, Normalize(minimum.value).value);
    }
  }

  // ---------- Rules ----------

  datatype Rule = Rule(
    tenant: nat, enabled: bool, chain: Option<nat>, address: Option<nat>, asset: Option<nat>,
    eventType: Option<string>, isTransfer: Option<bool>, direction: Option<string>, minAmount: Option<string>)

  datatype Event = Event(
    tenant: nat, chain: nat, address: nat, asset: nat, eventType: string, isTransfer: bool,
    direction: string, amount: Option<string>)

  predicate Admits<T(==)>(wanted: Option<T>, actual: T) { wanted.None? || wanted.value == actual }

  predicate RuleMatches(rule: Rule, event: Event) {
    if rule.tenant != event.tenant || !rule.enabled then false
    else if !Admits(rule.chain, event.chain) then false
    else if !Admits(rule.address, event.address) then false
    else if !Admits(rule.asset, event.asset) then false
    else if !Admits(rule.eventType, event.eventType) then false
    else if !Admits(rule.isTransfer, event.isTransfer) then false
    else if !Admits(rule.direction, event.direction) then false
    else MeetsMinimum(event.amount, rule.minAmount)
  }

  // A filter that is set asks for the event's value.
  ghost predicate Agrees(rule: Rule, event: Event) {
    && (rule.chain.Some? ==> event.chain == rule.chain.value)
    && (rule.address.Some? ==> event.address == rule.address.value)
    && (rule.asset.Some? ==> event.asset == rule.asset.value)
    && (rule.eventType.Some? ==> event.eventType == rule.eventType.value)
    && (rule.isTransfer.Some? ==> event.isTransfer == rule.isTransfer.value)
    && (rule.direction.Some? ==> event.direction == rule.direction.value)
  }

  // There is no minimum, or both are numbers and the amount is at least the minimum.
  ghost predicate LargeEnough(rule: Rule, event: Event) {
    rule.minAmount.Some? ==>
      && event.amount.Some? && IsAmount(event.amount.value) && IsAmount(rule.minAmount.value)
      && Value(event.amount.value) >= Value(rule.minAmount.value)
  }

  // A rule matches exactly the events of its own tenant, while it is enabled, that agree with every filter set
  // and are large enough.
  lemma MatchesExactly(rule: Rule, event: Event)
    ensures RuleMatches(rule, event) <==>
            rule.tenant == event.tenant && rule.enabled && Agrees(rule, event) && LargeEnough(rule, event)
  {
    hide Value, MeetsMinimum, IsAmount;
    ThresholdIsNumeric(event.amount, rule.minAmount);
  }

  // A rule narrowed by one filter matches exactly the events the wider one matches that have that value.
  lemma NarrowingNarrows(rule: Rule, event: Event, id: nat, text: string, flag: bool)
    ensures RuleMatches(rule.(chain := Some(id)), event) <==>
              RuleMatches(rule.(chain := None), event) && event.chain == id
    ensures RuleMatches(rule.(address := Some(id)), event)
            <==> RuleMatches(rule.(address := None), event) && event.address == id
    ensures RuleMatches(rule.(asset := Some(id)), event) <==>
              RuleMatches(rule.(asset := None), event) && event.asset == id
    ensures RuleMatches(rule.(eventType := Some(text)), event)
            <==> RuleMatches(rule.(eventType := None), event) && event.eventType == text
    ensures RuleMatches(rule.(isTransfer := Some(flag)), event)
            <==> RuleMatches(rule.(isTransfer := None), event) && event.isTransfer == flag
    ensures RuleMatches(rule.(direction := Some(text)), event)
            <==> RuleMatches(rule.(direction := None), event) && event.direction == text
    ensures !RuleMatches(rule.(enabled := false), event)
  {
    hide MeetsMinimum;
  }

  // A rule that matches an event matches it with any larger amount and any smaller minimum, and
  // without a minimum.
  lemma MatchingIsMonotone(rule: Rule, event: Event, larger: string, smaller: string)
    requires RuleMatches(rule, event) && IsAmount(larger) && IsAmount(smaller)
    requires event.amount.Some? && IsAmount(event.amount.value) && Value(larger) >= Value(event.amount.value)
    requires rule.minAmount.Some? && IsAmount(rule.minAmount.value) && Value(smaller) <= Value(rule.minAmount.value)
    ensures RuleMatches(rule, event.(amount := Some(larger)))
    ensures RuleMatches(rule.(minAmount := Some(smaller)), event)
    ensures RuleMatches(rule.(minAmount := None), event.(amount := None))
  {
    hide Value, MeetsMinimum;
    ThresholdIsNumeric(event.amount, rule.minAmount);
    ThresholdIsNumeric(Some(larger), rule.minAmount);
    ThresholdIsNumeric(event.amount, Some(smaller));
    ThresholdIsNumeric(None, None);
  }

  // The threshold is the only use of the amount: two events that differ in it alone are told
  // apart by a rule only if the minimum lies between them.
  lemma OnlyThresholdSeparates(rule: Rule, event: Event, other: Option<string>)
    requires RuleMatches(rule, event) && !RuleMatches(rule, event.(amount := other))
    ensures rule.minAmount.Some? && event.amount.Some? && IsAmount(rule.minAmount.value) && IsAmount(event.amount.value)
    ensures Value(event.amount.value) >= Value(rule.minAmount.value)
    ensures other.Some? && IsAmount(other.value) ==> Value(other.value) < Value(rule.minAmount.value)
  {
    hide Value, MeetsMinimum;
    ThresholdIsNumeric(event.amount, rule.minAmount);
    ThresholdIsNumeric(other, rule.minAmount);
  }
}
