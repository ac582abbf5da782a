// Digit strings and the unbounded numbers they denote.
module Digits {
  predicate IsDigit(c: char) { '0' <= c <= '9' }

  predicate AllDigits(s: string) { forall i :: 0 <= i < |s| ==> IsDigit(s[i]) }

  function DigitValue(c: char): (v: nat)
    requires IsDigit(c)
    ensures v < 10
  {
    (c - '0') as int
  }

  function DigitChar(v: nat): (c: char)
    requires v < 10
    ensures IsDigit(c) && DigitValue(c) == v
  {
    '0' + v as char
  }

  function Value(s: string): nat
    requires AllDigits(s)
  {
    if s == [] then 0 else 10 * Value(s[..|s| - 1]) + DigitValue(s[|s| - 1])
  }

  // The decimal numeral of a number, as to_string prints it.
  function Numeral(n: nat): (s: string)
    ensures AllDigits(s) && s != ""
  {
    if n < 10 then [DigitChar(n)] else Numeral(n / 10) + [DigitChar(n % 10)]
  }

  // No redundant leading zero.
  predicate Canonical(s: string) { s != "" && AllDigits(s) && (|s| > 1 ==> s[0] != '0') }

  function Zeros(n: nat): (s: string)
    ensures |s| == n && AllDigits(s) && forall i :: 0 <= i < n ==> s[i] == '0'
  {
    seq(n, _ => '0')
  }

  function Pow10(k: nat): (p: nat)
    ensures p >= 1
  {
    if k == 0 then 1 else 10 * Pow10(k - 1)
  }

  lemma {:induction false} NumeralIsCanonical(n: nat)
    ensures Canonical(Numeral(n)) && Value(Numeral(n)) == n && (n > 0 ==> Numeral(n)[0] != '0')
  {
    if n >= 10 {
      NumeralIsCanonical(n / 10);
      var s := Numeral(n);
      assert s[..|s| - 1] == Numeral(n / 10);
    }
  }

  lemma NumeralStep(v: nat, d: nat)
    requires v >= 1 && d < 10
    ensures Numeral(10 * v + d) == Numeral(v) + [DigitChar(d)]
  {
    assert (10 * v + d) / 10 == v && (10 * v + d) % 10 == d;
  }

  lemma CharOfValue(c: char)
    requires IsDigit(c)
    ensures DigitChar(DigitValue(c)) == c
  {
  }

  lemma ValueOfOne(c: char)
    requires IsDigit(c)
    ensures Value([c]) == DigitValue(c)
  {
    assert [c][..0] == "";
  }

  lemma {:induction false} CanonicalIsNumeral(s: string)
    requires Canonical(s)
    ensures Numeral(Value(s)) == s
    ensures |s| > 1 ==> Value(s) >= 10
    ensures s[0] != '0' ==> Value(s) >= 1
  {
    hide Numeral;
    var last := s[|s| - 1];
    CharOfValue(last);
    if |s| > 1 {
      hide DigitChar;
      var front := s[..|s| - 1];
      CanonicalIsNumeral(front);
      NumeralStep(Value(front), DigitValue(last));
      assert s == front + [last];
    } else {
      ValueOfOne(last);
      assert s == [last];
      OneDigitNumeral(last);
    }
  }

  lemma OneDigitNumeral(c: char)
    requires IsDigit(c)
    ensures Numeral(DigitValue(c)) == [c]
  {
    CharOfValue(c);
  }

  lemma TimesTen(x: nat, p: nat)
    ensures x * (10 * p) == 10 * (x * p)
  {
  }

  lemma ShiftDigit(x: nat, p: nat, y: nat, d: nat)
    ensures 10 * (x * p + y) + d == x * (10 * p) + (10 * y + d)
  {
    TimesTen(x, p);
  }

  lemma {:induction false} PowerAdds(a: nat, b: nat)
    ensures Pow10(a + b) == Pow10(a) * Pow10(b)
  {
    if b > 0 {
      PowerAdds(a, b - 1);
      TimesTen(Pow10(a), Pow10(b - 1));
    }
  }

  lemma {:induction false} ValueAppend(a: string, b: string)
    requires AllDigits(a) && AllDigits(b)
    ensures AllDigits(a + b) && Value(a + b) == Value(a) * Pow10(|b|) + Value(b)
  {
    if b == [] {
      assert a + b == a;
    } else {
      var front := b[..|b| - 1];
      ValueAppend(a, front);
      assert (a + b)[..|a + b| - 1] == a + front;
      assert (a + b)[|a + b| - 1] == b[|b| - 1];
      ShiftDigit(Value(a), Pow10(|front|), Value(front), DigitValue(b[|b| - 1]));
    }
  }

  lemma {:induction false} ZerosAreWorthless(n: nat)
    ensures Value(Zeros(n)) == 0
  {
    if n > 0 {
      assert Zeros(n)[..n - 1] == Zeros(n - 1);
      ZerosAreWorthless(n - 1);
    }
  }

  lemma PaddingKeepsValue(n: nat, s: string)
    requires AllDigits(s)
    ensures AllDigits(Zeros(n) + s) && Value(Zeros(n) + s) == Value(s)
  {
    ZerosAreWorthless(n);
    ValueAppend(Zeros(n), s);
  }

  lemma {:induction false} ValueBelowPower(s: string)
    requires AllDigits(s)
    ensures Value(s) < Pow10(|s|)
  {
    if s != [] { ValueBelowPower(s[..|s| - 1]); }
  }

  lemma LastDigit(x: nat, d: nat, y: nat, e: nat)
    requires d < 10 && e < 10 && 10 * x + d == 10 * y + e
    ensures x == y && d == e
  {
  }

  // Equally long digit strings of equal value are equal.
  lemma {:induction false} ValueInjective(a: string, b: string)
    requires AllDigits(a) && AllDigits(b) && |a| == |b| && Value(a) == Value(b)
    ensures a == b
  {
    if a != [] {
      var n := |a| - 1;
      assert Value(a) == 10 * Value(a[..n]) + DigitValue(a[n]);
      assert Value(b) == 10 * Value(b[..n]) + DigitValue(b[n]);
      LastDigit(Value(a[..n]), DigitValue(a[n]), Value(b[..n]), DigitValue(b[n]));
      ValueInjective(a[..n], b[..n]);
      assert a == a[..n] + [a[n]] && b == b[..n] + [b[n]];
    }
  }

  // ---------- Leading zeros ----------

  function StripZeros(s: string): (r: string)
    ensures |r| <= |s|
  {
    if s != "" && s[0] == '0' then StripZeros(s[1..]) else s
  }

  lemma {:induction false} StripKeepsValue(s: string)
    requires AllDigits(s)
    ensures AllDigits(StripZeros(s)) && Value(StripZeros(s)) == Value(s)
    ensures StripZeros(s) != "" ==> StripZeros(s)[0] != '0'
  {
    if s != "" && s[0] == '0' {
      StripKeepsValue(s[1..]);
      PaddingKeepsValue(1, s[1..]);
      assert s == Zeros(1) + s[1..];
    }
  }

  // A canonical numeral is the shortest of its value.
  lemma CanonicalIsShortest(s: string)
    requires AllDigits(s) && s != ""
    ensures |Numeral(Value(s))| <= |s|
    ensures |Numeral(Value(s))| == |s| <==> Canonical(s)
  {
    StripKeepsValue(s);
    var t := StripZeros(s);
    if t == "" {
      NumeralIsCanonical(0);
    } else {
      CanonicalIsNumeral(t);
    }
    if |Numeral(Value(s))| == |s| {
      NumeralIsCanonical(Value(s));
      ValueInjective(Numeral(Value(s)), s);
    }
    if Canonical(s) { CanonicalIsNumeral(s); }
  }

  // ---------- Hexadecimal ----------

  predicate IsHexDigit(c: char) { IsDigit(c) || 'a' <= c <= 'f' || 'A' <= c <= 'F' }

  predicate AllHexDigits(s: string) { forall i :: 0 <= i < |s| ==> IsHexDigit(s[i]) }

  function HexDigitValue(c: char): (v: nat)
    requires IsHexDigit(c)
    ensures v < 16
  {
    if IsDigit(c) then DigitValue(c)
    else if 'a' <= c <= 'f' then 10 + (c - 'a') as int
    else 10 + (c - 'A') as int
  }

  function HexValue(s: string): nat
    requires AllHexDigits(s)
  {
    if s == [] then 0 else 16 * HexValue(s[..|s| - 1]) + HexDigitValue(s[|s| - 1])
  }

  function HexNumeral(n: nat): (s: string)
    ensures s != ""
  {
    if n < 16 then ["0123456789abcdef"[n]] else HexNumeral(n / 16) + ["0123456789abcdef"[n % 16]]
  }

  lemma HexDigitIs(v: nat)
    requires v < 16
    ensures IsHexDigit("0123456789abcdef"[v]) && HexDigitValue("0123456789abcdef"[v]) == v
    ensures IsHexDigit("0123456789ABCDEF"[v]) && HexDigitValue("0123456789ABCDEF"[v]) == v
  {
    assert v == 0 || v == 1 || v == 2 || v == 3 || v == 4 || v == 5 || v == 6 || v == 7 || v == 8 || v == 9 || v == 10
           || v == 11 || v == 12 || v == 13 || v == 14 || v == 15;
  }

  // Every number is the value of its hexadecimal numeral.
  lemma {:induction false} HexNumeralHasValue(n: nat)
    ensures AllHexDigits(HexNumeral(n)) && HexValue(HexNumeral(n)) == n
  {
    var s := HexNumeral(n);
    if n < 16 {
      HexDigitIs(n);
      assert s[..0] == "";
    } else {
      HexNumeralHasValue(n / 16);
      HexDigitIs(n % 16);
      assert s[..|s| - 1] == HexNumeral(n / 16);
    }
  }
}
