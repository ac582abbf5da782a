/** Raw chain amounts shown as decimal numbers, and read back. */
module AmountDisplay {
  import opened Wrappers
  import opened Text
  import opened Digits

  datatype Chain = Evm | Tron | Btc

  datatype Error = NegativeDecimals | InvalidAmount | NegativeAmount | InvalidHex | OutOfRange

  const I64_MAX := 0x7FFF_FFFF_FFFF_FFFF

  // ---------- Formatting ----------

  function TrimZeros(s: string): (r: string)
    ensures |r| <= |s| && (r != "" ==> r[|r| - 1] != '0')
  {
    if s != "" && s[|s| - 1] == '0' then TrimZeros(s[..|s| - 1]) else s
  }

  function Padded(digits: string, decimals: nat): (r: string)
    ensures |r| == if |digits| <= decimals then decimals + 1 else |digits|
  {
    if |digits| <= decimals then Zeros(decimals + 1 - |digits|) + digits else digits
  }

  // The shared tail of the three formatters.
  function Render(digits: string, decimals: nat): string {
    if decimals == 0 then digits
    else
      var padded := Padded(digits, decimals);
      var split := |padded| - decimals;
      var fraction := TrimZeros(padded[split..]);
      padded[..split] + "." + (if fraction == "" then "0" else fraction)
  }

  // BigInt::from_str on a digit string with an optional minus sign.
  function ParseSigned(raw: string): Option<int> {
    if raw != "" && AllDigits(raw) then Some(Value(raw))
    else if |raw| > 1 && raw[0] == '-' && AllDigits(raw[1..]) then (var v: int := Value(raw[1..]); Some(-v))
    else None
  }

  // wei_to_decimal_string and the TRON formatter show the digits they were given; the Bitcoin formatter trims,
  // parses and prints them anew.
  function RawToDecimal(chain: Chain, raw: string, decimals: int): Result<string, Error> {
    if decimals < 0 then Err(NegativeDecimals)
    else if chain == Btc then
      match ParseSigned(Trim(raw, RustSpace))
      case None => Err(InvalidAmount)
      case Some(v) => if v < 0 then Err(NegativeAmount) else Ok(Render(Numeral(v), decimals))
    else if raw == "" || !AllDigits(raw) then Err(InvalidAmount)
    else Ok(Render(raw, decimals))
  }

  // ---------- Hexadecimal quantities ----------

  function HexDigits(hex: string): Result<string, Error> {
    if |hex| > 2 && hex[..2] == "0x" && AllHexDigits(hex[2..]) then Ok(hex[2..]) else Err(InvalidHex)
  }

  function ParseHexToDecimal(hex: string): Result<string, Error> {
    match HexDigits(hex)
    case Err(e) => Err(e)
    case Ok(digits) => assert AllHexDigits(digits); Ok(Numeral(HexValue(digits)))
  }

  function ParseHexToI64(hex: string): Result<int, Error> {
    match HexDigits(hex)
    case Err(e) => Err(e)
    case Ok(digits) =>
      assert AllHexDigits(digits);
      if HexValue(digits) <= I64_MAX then Ok(HexValue(digits)) else Err(OutOfRange)
  }

  // The TRON account balance, an i64 count of sun.
  function DecodeTronBalance(sun: int, decimals: int): Result<(string, string), Error> {
    if sun < 0 then Err(NegativeAmount)
    else
      match RawToDecimal(Tron, Numeral(sun), decimals)
      case Err(e) => Err(e)
      case Ok(shown) => Ok((Numeral(sun), shown))
  }

  // The value field of a TRC-20 transfer.
  function ParseTronAmount(value: string): Result<string, Error> {
    var v := Trim(value, RustSpace);
    if v == "" || v[0] == '-' then Err(InvalidAmount)
    else if !AllDigits(v) then Err(InvalidAmount)
    else Ok(Numeral(Value(v)))
  }

  // ---------- Reading a displayed amount ----------

  // The digits before the first dot, and those after it.
  function Integer(s: string): (r: string)
    ensures |r| <= |s|
  {
    if s == "" || s[0] == '.' then "" else [s[0]] + Integer(s[1..])
  }

  function Fraction(s: string): string {
    if |Integer(s)| < |s| then s[|Integer(s)| + 1..] else ""
  }

  predicate IsDecimal(s: string) { AllDigits(Integer(s)) && AllDigits(Fraction(s)) }

  // s denotes n / 10^decimals: its digits without the dot, over ten to the number of digits
  // behind the dot, are the same fraction.
  ghost predicate Denotes(s: string, n: nat, decimals: nat) {
    IsDecimal(s)
    && Value(Integer(s) + Fraction(s)) * Pow10(decimals) == n * Pow10(|Fraction(s)|)
  }

  // The raw amount a decimal string stands for, if it has one at this scale.
  function ReadBack(s: string, decimals: nat): Option<nat> {
    if !IsDecimal(s) then None
    else if |Fraction(s)| <= decimals then
      Some(Value(Integer(s)) * Pow10(decimals) + Value(Fraction(s)) * Pow10(decimals - |Fraction(s)|))
    else None
  }

  // No redundant leading zero, and no trailing zero beyond a single ".0".
  predicate Tidy(s: string, decimals: nat) {
    && Canonical(Integer(s)) && AllDigits(Fraction(s)) && |Fraction(s)| <= decimals
    && if decimals == 0 then s == Integer(s)
       else && s == Integer(s) + "." + Fraction(s) && Fraction(s) != ""
            && (Fraction(s)[|Fraction(s)| - 1] == '0' ==> Fraction(s) == "0")
  }

  // ---------- Lemmas ----------

  lemma {:induction false} IntegerOf(a: string, b: string)
    requires AllDigits(a)
    ensures Integer(a + "." + b) == a && Fraction(a + "." + b) == b
    ensures Integer(a) == a && Fraction(a) == ""
  {
    if a == "" {
      assert ("" + "." + b)[1..] == b;
    } else {
      IntegerOf(a[1..], b);
      assert (a + "." + b)[1..] == a[1..] + "." + b;
      assert a == [a[0]] + a[1..];
      assert (a + "." + b)[|a| + 1..] == b;
    }
  }

  lemma {:induction false} TrimZerosKeepsValue(s: string)
    requires AllDigits(s)
    ensures AllDigits(TrimZeros(s)) && Value(s) == Value(TrimZeros(s)) * Pow10(|s| - |TrimZeros(s)|)
  {
    if s != "" && s[|s| - 1] == '0' {
      var front := s[..|s| - 1];
      TrimZerosKeepsValue(front);
      TimesTen(Value(TrimZeros(front)), Pow10(|front| - |TrimZeros(front)|));
    }
  }

  // The fraction shown, "0" when nothing is left, is the padded fraction scaled down.
  lemma ShownFraction(s: string)
    requires AllDigits(s) && s != ""
    ensures var t := TrimZeros(s); var f := if t == "" then "0" else t;
            && AllDigits(f) && 1 <= |f| <= |s| && Value(s) == Value(f) * Pow10(|s| - |f|)
            && (f[|f| - 1] == '0' ==> f == "0")
  {
    TrimZerosKeepsValue(s);
  }

  lemma PaddedValue(digits: string, decimals: nat)
    requires AllDigits(digits) && digits != ""
    ensures AllDigits(Padded(digits, decimals)) && Value(Padded(digits, decimals)) == Value(digits)
  {
    if |digits| <= decimals { PaddingKeepsValue(decimals + 1 - |digits|, digits); }
  }

  // What is shown for a positive scale: the padded digits before the last `decimals`, and a fraction.
  ghost predicate Shows(shown: string, padded: string, decimals: nat)
    requires decimals < |padded| && AllDigits(padded)
  {
    var split := |padded| - decimals;
    && Integer(shown) == padded[..split]
    && |Fraction(shown)| <= decimals && AllDigits(Fraction(shown)) && Fraction(shown) != ""
    && shown == Integer(shown) + "." + Fraction(shown)
    && Value(padded[split..]) == Value(Fraction(shown)) * Pow10(decimals - |Fraction(shown)|)
    && (Fraction(shown)[|Fraction(shown)| - 1] == '0' ==> Fraction(shown) == "0")
  }

  lemma RenderParts(digits: string, decimals: nat)
    requires AllDigits(digits) && digits != "" && decimals > 0
    ensures AllDigits(Padded(digits, decimals)) && Value(Padded(digits, decimals)) == Value(digits)
    ensures Shows(Render(digits, decimals), Padded(digits, decimals), decimals)
  {
    hide TrimZeros, Value, Pow10, Padded, Integer, Fraction;
    PaddedValue(digits, decimals);
    var padded := Padded(digits, decimals);
    var split := |padded| - decimals;
    ShownFraction(padded[split..]);
    var t := TrimZeros(padded[split..]);
    IntegerOf(padded[..split], if t == "" then "0" else t);
  }

  // Reading back what was shown gives the raw amount, for every digit string and scale.
  lemma RenderReadsBack(digits: string, decimals: nat)
    requires AllDigits(digits) && digits != ""
    ensures ReadBack(Render(digits, decimals), decimals) == Some(Value(digits))
  {
    if decimals == 0 {
      IntegerOf(digits, "");
      assert Value("") == 0 && Pow10(0) == 1;
    } else {
      RenderParts(digits, decimals);
      ShownReadsBack(Render(digits, decimals), Padded(digits, decimals), decimals);
    }
  }

  lemma ShownReadsBack(shown: string, padded: string, decimals: nat)
    requires decimals < |padded| && AllDigits(padded) && Shows(shown, padded, decimals)
    ensures ReadBack(shown, decimals) == Some(Value(padded))
  {
    hide Value, Pow10, Integer, Fraction;
    var split := |padded| - decimals;
    assert padded == padded[..split] + padded[split..];
    ValueAppend(padded[..split], padded[split..]);
  }

  lemma CrossScale(i: nat, f: nat, m: nat, d: nat, k: nat, n: nat)
    requires k <= d && m == i * Pow10(k) + f && n == i * Pow10(d) + f * Pow10(d - k)
    ensures m * Pow10(d) == n * Pow10(k)
  {
    PowerAdds(d - k, k);
    Expand(i, f, Pow10(k), Pow10(d), Pow10(d - k));
  }

  lemma Expand(i: nat, f: nat, k: nat, d: nat, r: nat)
    requires d == r * k
    ensures (i * k + f) * d == (i * d + f * r) * k
  {
    calc {
      (i * k + f) * d;
      i * k * d + f * d;
      i * d * k + f * (r * k);
      i * d * k + f * r * k;
      (i * d + f * r) * k;
    }
  }

  // Whatever reads back as n denotes exactly n / 10^decimals.
  lemma ReadBackDenotes(s: string, decimals: nat)
    requires ReadBack(s, decimals).Some?
    ensures Denotes(s, ReadBack(s, decimals).value, decimals)
  {
    hide Integer;
    var f := Fraction(s);
    ValueAppend(Integer(s), f);
    CrossScale(Value(Integer(s)), Value(f), Value(Integer(s) + f), decimals, |f|, ReadBack(s, decimals).value);
  }

  lemma RenderIsTidy(digits: string, decimals: nat)
    requires Canonical(digits)
    ensures Tidy(Render(digits, decimals), decimals)
  {
    hide TrimZeros, Value;
    if decimals == 0 {
      IntegerOf(digits, "");
    } else {
      RenderParts(digits, decimals);
      var padded := Padded(digits, decimals);
      if |digits| > decimals && |padded[..|padded| - decimals]| > 1 { assert padded[0] == digits[0] != '0'; }
    }
  }

  // ---------- Main results ----------

  // A canonical amount is shown exactly, tidily, and the same on every chain; it reads back to its raw value.
  lemma ExactDisplay(chain: Chain, raw: string, decimals: int)
    requires Canonical(raw) && decimals >= 0
    ensures var r := RawToDecimal(chain, raw, decimals);
            && r.Ok? && r == RawToDecimal(Evm, raw, decimals)
            && Tidy(r.value, decimals)
            && ReadBack(r.value, decimals) == Some(Value(raw))
            && Denotes(r.value, Value(raw), decimals)
  {
    hide Render, Tidy, ReadBack, Denotes;
    TrimDigits(raw);
    CanonicalIsNumeral(raw);
    RenderIsTidy(raw, decimals);
    RenderReadsBack(raw, decimals);
    ReadBackDenotes(Render(raw, decimals), decimals);
  }

  // Trimming does nothing to digits.
  lemma TrimDigits(raw: string)
    requires AllDigits(raw)
    ensures Trim(raw, RustSpace) == raw
  {
  }

  // Distinct amounts are shown differently.
  lemma DisplayIsInjective(chain: Chain, a: string, b: string, decimals: int)
    requires Canonical(a) && Canonical(b) && decimals >= 0
    requires RawToDecimal(chain, a, decimals) == RawToDecimal(chain, b, decimals)
    ensures a == b
  {
    hide RawToDecimal;
    ExactDisplay(chain, a, decimals);
    ExactDisplay(chain, b, decimals);
    CanonicalIsNumeral(a);
    CanonicalIsNumeral(b);
  }

  // From a hexadecimal quantity to the screen: the text shown denotes exactly value / 10^decimals.
  lemma HexDisplay(chain: Chain, hex: string, decimals: int)
    requires HexDigits(hex).Ok? && decimals >= 0
    ensures var raw := ParseHexToDecimal(hex);
            && raw.Ok? && Canonical(raw.value)
            && (var shown := RawToDecimal(chain, raw.value, decimals);
                && shown.Ok? && Tidy(shown.value, decimals)
                && AllHexDigits(hex[2..]) && ReadBack(shown.value, decimals) == Some(HexValue(hex[2..]))
                && Denotes(shown.value, HexValue(hex[2..]), decimals))
  {
    hide RawToDecimal, Tidy, ReadBack, Denotes;
    NumeralIsCanonical(HexValue(hex[2..]));
    ExactDisplay(chain, ParseHexToDecimal(hex).value, decimals);
  }

  // The 64-bit parser agrees with the unbounded one exactly on quantities in range.
  lemma HexParsersAgree(hex: string)
    ensures ParseHexToI64(hex).Ok? <==>
            ParseHexToDecimal(hex).Ok? && Value(ParseHexToDecimal(hex).value) <= 9223372036854775807
    ensures ParseHexToI64(hex).Ok? ==> Numeral(ParseHexToI64(hex).value) == ParseHexToDecimal(hex).value
  {
    if HexDigits(hex).Ok? { NumeralIsCanonical(HexValue(hex[2..])); }
  }

  lemma BalanceDisplay(sun: int, decimals: int)
    requires sun >= 0 && decimals >= 0
    ensures var r := DecodeTronBalance(sun, decimals);
            && r.Ok? && Value(r.value.0) == sun && Canonical(r.value.0)
            && Tidy(r.value.1, decimals) && ReadBack(r.value.1, decimals) == Some(sun)
  {
    hide RawToDecimal, Tidy, ReadBack, Denotes;
    NumeralIsCanonical(sun);
    ExactDisplay(Tron, Numeral(sun), decimals);
  }

  // A TRC-20 amount, written with any white space around it and any leading zeros, is stored canonically and shown
  // exactly.
  lemma TransferDisplay(value: string, decimals: int)
    requires decimals >= 0
    ensures var v := Trim(value, RustSpace); var raw := ParseTronAmount(value);
            && (raw.Ok? <==> v != "" && AllDigits(v))
            && (raw.Ok? ==>
                  && Canonical(raw.value) && AllDigits(v) && Value(raw.value) == Value(v)
                  && (var shown := RawToDecimal(Tron, raw.value, decimals);
                      shown.Ok? && Tidy(shown.value, decimals) && ReadBack(shown.value, decimals) == Some(Value(v))))
  {
    hide RawToDecimal, Tidy, ReadBack, Denotes, Trim;
    var v := Trim(value, RustSpace);
    if v != "" && AllDigits(v) {
      assert IsDigit(v[0]);
      NumeralIsCanonical(Value(v));
      ExactDisplay(Tron, Numeral(Value(v)), decimals);
    }
  }

  // ---------- What is accepted ----------

  // A quantity is "0x" and at least one hexadecimal digit of either case.
  lemma HexAcceptedExactly(hex: string)
    ensures ParseHexToDecimal(hex).Ok?
            <==> "0x" <= hex && |hex| >= 3
                 && forall i :: 2 <= i < |hex| ==> 48 <= hex[i] as int <= 57 || 65 <= hex[i] as int <= 70
                                                   || 97 <= hex[i] as int <= 102
  {
    if "0x" <= hex && |hex| >= 3 {
      assert hex[..2] == "0x";
      forall i | 2 <= i < |hex| ensures hex[2..][i - 2] == hex[i] {}
      if AllHexDigits(hex[2..]) {
        forall i | 2 <= i < |hex| ensures IsHexDigit(hex[i]) { assert IsHexDigit(hex[2..][i - 2]); }
      }
    }
  }

  // Every number written as a hexadecimal quantity is read as itself, and shown for its value.
  lemma QuantityRoundTrip(chain: Chain, n: nat, decimals: int)
    requires decimals >= 0
    ensures ParseHexToDecimal("0x" + HexNumeral(n)) == Ok(Numeral(n))
    ensures var shown := RawToDecimal(chain, Numeral(n), decimals);
            shown.Ok? && ReadBack(shown.value, decimals) == Some(n)
  {
    hide RawToDecimal, Tidy, ReadBack, Denotes;
    var hex := "0x" + HexNumeral(n);
    assert hex[..2] == "0x" && hex[2..] == HexNumeral(n);
    HexNumeralHasValue(n);
    NumeralIsCanonical(n);
    ExactDisplay(chain, Numeral(n), decimals);
  }

  // What a formatter accepts: a scale that is not negative, and digits - for Bitcoin with white space around them, and
  // with a minus sign only before zero.
  lemma AcceptedExactly(chain: Chain, raw: string, decimals: int)
    ensures var r := RawToDecimal(chain, raw, decimals); var t := Trim(raw, RustSpace);
            && (decimals < 0 ==> r == Err(NegativeDecimals))
            && (decimals >= 0 && chain != Btc ==>
                  if raw != "" && AllDigits(raw) then r.Ok? else r == Err(InvalidAmount))
            && (decimals >= 0 && chain == Btc ==>
                  if t != "" && AllDigits(t) then r.Ok?
                  else if |t| > 1 && t[0] == '-' && AllDigits(t[1..]) then
                    if Value(t[1..]) > 0 then r == Err(NegativeAmount) else r.Ok?
                  else r == Err(InvalidAmount))
  {
    hide Render, Trim, Value, Numeral;
  }

  // A balance is accepted exactly when neither it nor the scale is negative.
  lemma BalanceAcceptedExactly(sun: int, decimals: int)
    ensures DecodeTronBalance(sun, decimals).Ok? <==> sun >= 0 && decimals >= 0
    ensures sun < 0 ==> DecodeTronBalance(sun, decimals) == Err(NegativeAmount)
  {
    hide RawToDecimal;
    if sun >= 0 { AcceptedExactly(Tron, Numeral(sun), decimals); }
  }

  // ---------- Where the formatters part ----------

  lemma SameLengthSameDisplay(a: string, b: string, decimals: nat)
    requires AllDigits(a) && AllDigits(b) && a != "" && b != "" && Value(a) == Value(b)
    ensures Render(a, decimals) == Render(b, decimals) <==> |Padded(a, decimals)| == |Padded(b, decimals)|
  {
    hide Value, TrimZeros;
    if decimals == 0 {
      if |a| == |b| { ValueInjective(a, b); }
      assert |a| > 0 && |b| > 0;
    } else {
      RenderParts(a, decimals);
      RenderParts(b, decimals);
      if |Padded(a, decimals)| == |Padded(b, decimals)| { ValueInjective(Padded(a, decimals), Padded(b, decimals)); }
    }
  }

  // On any digit string, leading zeros included, the EVM and TRON formatters print what the Bitcoin formatter
  // prints if and only if the string is canonical or no longer than one digit before the dot.
  lemma FormattersAgreeExactly(raw: string, decimals: int)
    requires raw != "" && AllDigits(raw) && decimals >= 0
    ensures RawToDecimal(Evm, raw, decimals) == RawToDecimal(Btc, raw, decimals)
            <==> Canonical(raw) || |raw| <= decimals + 1
  {
    hide Render, Value, Numeral;
    TrimDigits(raw);
    var numeral := Numeral(Value(raw));
    NumeralIsCanonical(Value(raw));
    CanonicalIsShortest(raw);
    SameLengthSameDisplay(raw, numeral, decimals);
  }

  // An input on which they differ.
  lemma LeadingZeroShows()
    ensures RawToDecimal(Evm, "00", 0) == RawToDecimal(Tron, "00", 0) == Ok("00")
    ensures RawToDecimal(Btc, "00", 0) == Ok("0")
  {
    TrimDigits("00");
    ZerosAreWorthless(2);
    assert Zeros(2) == "00";
  }
}
