// Trimming, ASCII case folding and splitting.
module Text {
  // char::is_whitespace (the Unicode White_Space property).
  predicate RustSpace(c: char) {
    || '\U{0009}' <= c <= '\U{000D}' || c == ' ' || c == '\U{0085}' || c == '\U{00A0}' || c == '\U{1680}'
    || '\U{2000}' <= c <= '\U{200A}' || c == '\U{2028}' || c == '\U{2029}' || c == '\U{202F}'
    || c == '\U{205F}' || c == '\U{3000}'
  }

  // The white space and line terminators String.prototype.trim removes.
  predicate JsSpace(c: char) {
    || '\U{0009}' <= c <= '\U{000D}' || c == ' ' || c == '\U{00A0}' || c == '\U{1680}' || c == '\U{FEFF}'
    || '\U{2000}' <= c <= '\U{200A}' || c == '\U{2028}' || c == '\U{2029}' || c == '\U{202F}'
    || c == '\U{205F}' || c == '\U{3000}'
  }

  predicate Ascii(s: string) { forall i :: 0 <= i < |s| ==> s[i] < '\U{0080}' }

  function LowerChar(c: char): char {
    if 'A' <= c <= 'Z' then c - 'A' + 'a' else c
  }

  function Lower(s: string): (r: string)
    ensures |r| == |s| && forall i :: 0 <= i < |s| ==> r[i] == LowerChar(s[i])
  {
    seq(|s|, i requires 0 <= i < |s| => LowerChar(s[i]))
  }

  function TrimStart(s: string, space: char -> bool): string {
    if s != [] && space(s[0]) then TrimStart(s[1..], space) else s
  }

  function TrimEnd(s: string, space: char -> bool): string {
    if s != [] && space(s[|s| - 1]) then TrimEnd(s[..|s| - 1], space) else s
  }

  function Trim(s: string, space: char -> bool): string { TrimEnd(TrimStart(s, space), space) }

  lemma {:induction false} TrimStartAscii(s: string)
    requires Ascii(s)
    ensures TrimStart(s, RustSpace) == TrimStart(s, JsSpace) && Ascii(TrimStart(s, JsSpace))
  {
    if s != [] && JsSpace(s[0]) { TrimStartAscii(s[1..]); }
  }

  lemma {:induction false} TrimEndAscii(s: string)
    requires Ascii(s)
    ensures TrimEnd(s, RustSpace) == TrimEnd(s, JsSpace) && Ascii(TrimEnd(s, JsSpace))
  {
    if s != [] && JsSpace(s[|s| - 1]) { TrimEndAscii(s[..|s| - 1]); }
  }

  // On ASCII text both languages trim alike.
  lemma TrimAscii(s: string)
    requires Ascii(s)
    ensures Trim(s, RustSpace) == Trim(s, JsSpace) && Ascii(Trim(s, JsSpace))
  {
    TrimStartAscii(s);
    TrimEndAscii(TrimStart(s, JsSpace));
  }

  // The pieces between separators; one piece when there is none.
  function Split(s: string, separator: char): (r: seq<string>)
    ensures |r| >= 1
  {
    if s == [] then [[]]
    else
      var rest := Split(s[1..], separator);
      if s[0] == separator then [[]] + rest else [[s[0]] + rest[0]] + rest[1..]
  }

  lemma {:induction false} SplitAscii(s: string, separator: char)
    requires Ascii(s)
    ensures forall i :: 0 <= i < |Split(s, separator)| ==> Ascii(Split(s, separator)[i])
  {
    if s != [] {
      SplitAscii(s[1..], separator);
      var rest := Split(s[1..], separator);
      assert Ascii(rest[0]);
      assert Ascii([s[0]] + rest[0]);
    }
  }

  // ---------- What trimming, folding and splitting mean ----------

  predicate AllSpace(s: string, space: char -> bool) { forall i :: 0 <= i < |s| ==> space(s[i]) }

  lemma TrimStartStep(s: string, space: char -> bool)
    ensures TrimStart(s, space) == if s != [] && space(s[0]) then TrimStart(s[1..], space) else s
  {
  }

  lemma {:induction false} TrimStartIs(s: string, space: char -> bool) returns (front: string)
    ensures s == front + TrimStart(s, space) && AllSpace(front, space)
    ensures TrimStart(s, space) != "" ==> !space(TrimStart(s, space)[0])
  {
    hide TrimStart;
    TrimStartStep(s, space);
    if s != [] && space(s[0]) {
      var rest := TrimStartIs(s[1..], space);
      front := [s[0]] + rest;
      assert s == [s[0]] + s[1..];
    } else {
      front := [];
    }
  }

  lemma {:induction false} TrimEndIs(s: string, space: char -> bool) returns (back: string)
    ensures s == TrimEnd(s, space) + back && AllSpace(back, space)
    ensures var t := TrimEnd(s, space); t != "" ==> t[0] == s[0] && !space(t[|t| - 1])
  {
    if s != [] && space(s[|s| - 1]) {
      var rest := TrimEndIs(s[..|s| - 1], space);
      back := rest + [s[|s| - 1]];
      assert s == s[..|s| - 1] + [s[|s| - 1]];
    } else {
      back := [];
    }
  }

  // Trimming takes away exactly the white space before the first and after the last other character.
  lemma TrimIs(s: string, space: char -> bool) returns (front: string, back: string)
    ensures s == front + Trim(s, space) + back && AllSpace(front, space) && AllSpace(back, space)
    ensures var t := Trim(s, space); t != "" ==> !space(t[0]) && !space(t[|t| - 1])
  {
    front := TrimStartIs(s, space);
    back := TrimEndIs(TrimStart(s, space), space);
  }

  lemma {:induction false} TrimStartThenMore(s: string, c: char, space: char -> bool)
    requires space(c)
    ensures TrimStart(s + [c], space) == if TrimStart(s, space) == "" then "" else TrimStart(s, space) + [c]
  {
    if s == [] {
      assert s + [c] == [c] && [c][1..] == "";
    } else if space(s[0]) {
      TrimStartThenMore(s[1..], c, space);
      assert (s + [c])[1..] == s[1..] + [c];
    }
  }

  // White space at the end of a text does not matter to its trimming.
  lemma TrimIgnoresEnd(s: string, c: char, space: char -> bool)
    requires space(c)
    ensures Trim(s + [c], space) == Trim(s, space)
  {
    TrimStartThenMore(s, c, space);
    var t := TrimStart(s, space);
    if t != "" { assert (t + [c])[..|t + [c]| - 1] == t; }
  }

  // Folding changes the 26 capitals, each to its small letter, and nothing else.
  lemma LowerIs(c: char)
    ensures 65 <= c as int <= 90 ==> LowerChar(c) as int == c as int + 32
    ensures !(65 <= c as int <= 90) ==> LowerChar(c) == c
  {
  }

  // The white space of the two languages, by code point.
  lemma SpacesAre(c: char)
    ensures RustSpace(c) <==>
              c as int in {9, 10, 11, 12, 13, 32, 133, 160, 5760, 8192, 8193, 8194, 8195, 8196, 8197, 8198,
                                           8199, 8200, 8201, 8202, 8232, 8233, 8239, 8287, 12288}
    ensures JsSpace(c) <==> c as int == 65279 || (RustSpace(c) && c as int != 133)
  {
  }

  function JoinWith(parts: seq<string>, separator: char): string
    requires |parts| >= 1
  {
    if |parts| == 1 then parts[0] else parts[0] + [separator] + JoinWith(parts[1..], separator)
  }

  // The pieces hold no separator, and put together with it they are the text.
  lemma {:induction false} SplitIs(s: string, separator: char)
    ensures JoinWith(Split(s, separator), separator) == s
    ensures forall i :: 0 <= i < |Split(s, separator)| ==> separator !in Split(s, separator)[i]
  {
    if s != [] {
      SplitIs(s[1..], separator);
      var rest := Split(s[1..], separator);
      var parts := Split(s, separator);
      assert s == [s[0]] + s[1..];
      if s[0] == separator {
        assert parts[1..] == rest;
      } else {
        assert parts[1..] == rest[1..];
        assert parts[0] == [s[0]] + rest[0];
      }
    }
  }
}
