/** Redacting the URLs in error texts: the scanning loop, and what it keeps and hides. */
module UrlRedaction {
  import opened Wrappers
  import opened Text

  // ---------- Searching ----------

  predicate OccursAt(s: string, p: string, i: nat) {
    i + |p| <= |s| && forall k :: 0 <= k < |p| ==> s[i + k] == p[k]
  }

  // The first occurrence at or after i.
  function FindFrom(s: string, p: string, i: nat): (r: Option<nat>)
    requires i <= |s|
    ensures r.Some? ==> i <= r.value <= |s| && OccursAt(s, p, r.value)
    ensures r.Some? ==> forall j :: i <= j < r.value ==> !OccursAt(s, p, j)
    ensures r.None? ==> forall j :: i <= j <= |s| ==> !OccursAt(s, p, j)
    decreases |s| - i
  {
    if OccursAt(s, p, i) then Some(i)
    else if i == |s| then None
    else FindFrom(s, p, i + 1)
  }

  function Find(s: string, p: string): Option<nat> { FindFrom(s, p, 0) }

  function FindUrlStart(text: string): Option<nat> {
    match (Find(Lower(text), "http://"), Find(Lower(text), "https://"))
    case (Some(http), Some(https)) => Some(if http <= https then http else https)
    case (Some(http), None) => Some(http)
    case (None, Some(https)) => Some(https)
    case (None, None) => None
  }

  function FirstSpace(s: string): (n: nat)
    ensures n <= |s| && (forall k :: 0 <= k < n ==> !RustSpace(s[k])) && (n < |s| ==> RustSpace(s[n]))
  {
    if s == "" || RustSpace(s[0]) then 0 else 1 + FirstSpace(s[1..])
  }

  // ---------- Redacting one URL ----------

  datatype Redactor = Telegram | Webhook

  const MASK := "<redacted>"

  function RedactTelegram(url: string): string {
    match Find(url, "/bot")
    case None => url
    case Some(bot) =>
      match FindFrom(url, "/", bot + 4)
      case None => url[..bot + 4] + MASK
      case Some(end) => url[..bot + 4] + MASK + url[end..]
  }

  function RedactWebhook(url: string): string {
    match Find(url, "?")
    case None => url
    case Some(query) => url[..query]
  }

  function Redact(r: Redactor, url: string): string {
    match r
    case Telegram => RedactTelegram(url)
    case Webhook => RedactWebhook(url)
  }

  // ---------- Redacting a text ----------

  datatype Piece = Plain(text: string) | Url(text: string)

  predicate UrlAt(text: string, i: nat) {
    OccursAt(Lower(text), "http://", i) || OccursAt(Lower(text), "https://", i)
  }

  // One turn of the loop: the plain prefix, the URL up to the next white space, and the rest.
  function Segments(text: string): seq<Piece>
    decreases |text|
  {
    hide FindUrlStart, FirstSpace;
    match FindUrlStart(text)
    case None => [Plain(text)]
    case Some(i) =>
      UrlIsLong(text, i);
      var end := i + FirstSpace(text[i..]);
      [Plain(text[..i]), Url(text[i..end])] + Segments(text[end..])
  }

  function Redacted(p: Piece, r: Redactor): Piece {
    match p
    case Plain(text) => p
    case Url(text) => Url(Redact(r, text))
  }

  function RedactAll(pieces: seq<Piece>, r: Redactor): (result: seq<Piece>)
    ensures |result| == |pieces| && forall k :: 0 <= k < |result| ==> result[k] == Redacted(pieces[k], r)
  {
    seq(|pieces|, k requires 0 <= k < |pieces| => Redacted(pieces[k], r))
  }

  function Join(pieces: seq<Piece>): string {
    if pieces == [] then "" else pieces[0].text + Join(pieces[1..])
  }

  function RedactText(text: string, r: Redactor): string { Join(RedactAll(Segments(text), r)) }

  // ---------- Searching lemmas ----------

  // The search finds the earliest place where a URL starts, in whatever case it is written.
  lemma StartIsFirst(text: string)
    ensures var start := FindUrlStart(text);
            && (start.Some? ==> UrlAt(text, start.value) && forall j :: 0 <= j < start.value ==> !UrlAt(text, j))
            && (start.None? ==> forall j :: 0 <= j <= |text| ==> !UrlAt(text, j))
  {
  }

  lemma StartIsUnique(text: string, i: nat)
    requires UrlAt(text, i) && forall j :: 0 <= j < i ==> !UrlAt(text, j)
    ensures FindUrlStart(text) == Some(i)
  {
    hide UrlAt, FindUrlStart;
    StartIsFirst(text);
    assert i <= |text| by { UrlIsLongAt(text, i); }
  }

  // The characters every URL start begins with.
  lemma SchemeChars(lower: string, i: nat)
    requires OccursAt(lower, "http://", i) || OccursAt(lower, "https://", i)
    ensures i + 7 <= |lower|
    ensures lower[i] == 'h' && lower[i + 1] == 't' && lower[i + 2] == 't' && lower[i + 3] == 'p'
    ensures lower[i + 4] == ':' || (lower[i + 4] == 's' && lower[i + 5] == ':')
    ensures forall k :: i <= k < i + 7 ==> lower[k] in "htps:/"
    ensures OccursAt(lower, "https://", i) ==> i + 8 <= |lower| && lower[i + 7] == '/'
  {
    var p := if OccursAt(lower, "http://", i) then "http://" else "https://";
    assert p[0] == 'h' && p[1] == 't' && p[2] == 't' && p[3] == 'p' && p[4] in ":s" && p[5] in "/:" && p[6] == '/';
    forall k | i <= k < i + 7 ensures lower[k] in "htps:/" {
      assert lower[i + (k - i)] == p[k - i];
    }
    var q := "https://";
    assert q[7] == '/';
  }

  lemma UrlIsLongAt(text: string, i: nat)
    requires UrlAt(text, i)
    ensures i + 7 <= |text| && forall k :: i <= k < i + 7 ==> !RustSpace(text[k]) && text[k] != '?'
    ensures forall k :: i <= k < i + 5 ==> text[k] != '/'
    ensures OccursAt(Lower(text), "https://", i) ==> i + 8 <= |text| && text[i + 7] == '/'
  {
    var lower := Lower(text);
    SchemeChars(lower, i);
    forall k | i <= k < i + 7 ensures !RustSpace(text[k]) && text[k] != '?' {
      assert lower[k] == LowerChar(text[k]);
    }
  }

  lemma UrlIsLong(text: string, i: nat)
    requires FindUrlStart(text) == Some(i)
    ensures i + 7 <= |text| && FirstSpace(text[i..]) >= 7
  {
    hide UrlAt, FindUrlStart, RustSpace;
    StartIsFirst(text);
    UrlIsLongAt(text, i);
    forall k | 0 <= k < 7 ensures !RustSpace(text[i..][k]) {
      assert text[i..][k] == text[i + k];
    }
  }

  // ---------- What the pieces are ----------

  // A character belongs to a URL when a URL starts at or before it with no white space in between.
  predicate InUrlFrom(text: string, p: nat, start: nat)
    requires p < |text|
  {
    start <= p && UrlAt(text, start) && forall k :: start <= k <= p ==> !RustSpace(text[k])
  }

  ghost predicate InUrl(text: string, p: nat)
    requires p < |text|
  {
    exists start :: 0 <= start <= p && InUrlFrom(text, p, start)
  }

  // For every character of the pieces, whether it is in a URL piece.
  function Mask(pieces: seq<Piece>): seq<bool> {
    if pieces == [] then [] else seq(|pieces[0].text|, _ => pieces[0].Url?) + Mask(pieces[1..])
  }

  lemma OccursShifts(s: string, p: string, from: nat, i: nat)
    requires from <= i && from <= |s|
    ensures OccursAt(s, p, i) <==> OccursAt(s[from..], p, i - from)
  {
    var t := s[from..];
    if OccursAt(s, p, i) {
      forall k | 0 <= k < |p| ensures t[i - from + k] == p[k] { assert s[i + k] == p[k]; }
    }
    if OccursAt(t, p, i - from) {
      forall k | 0 <= k < |p| ensures s[i + k] == p[k] { assert t[i - from + k] == p[k]; }
    }
  }

  lemma UrlAtShifts(text: string, from: nat, i: nat)
    requires from <= i && from <= |text|
    ensures UrlAt(text, i) <==> UrlAt(text[from..], i - from)
  {
    assert Lower(text)[from..] == Lower(text[from..]);
    OccursShifts(Lower(text), "http://", from, i);
    OccursShifts(Lower(text), "https://", from, i);
  }

  // Past white space only what follows it decides.
  lemma InUrlShifts(text: string, from: nat, p: nat)
    requires from <= p < |text| && RustSpace(text[from])
    ensures InUrl(text, p) <==> InUrl(text[from..], p - from)
  {
    hide UrlAt, RustSpace;
    var tail := text[from..];
    assert forall k :: from <= k < |text| ==> text[k] == tail[k - from];
    if InUrl(text, p) {
      var start :| 0 <= start <= p && InUrlFrom(text, p, start);
      assert start > from;
      UrlAtShifts(text, from, start);
      assert InUrlFrom(tail, p - from, start - from);
    }
    if InUrl(tail, p - from) {
      var start :| 0 <= start <= p - from && InUrlFrom(tail, p - from, start);
      UrlAtShifts(text, from, start + from);
      forall k | start + from <= k <= p ensures !RustSpace(text[k]) { assert text[k] == tail[k - from]; }
      assert InUrlFrom(text, p, start + from);
    }
  }

  // What one turn of the loop cuts off.
  ghost predicate Cut(text: string, i: nat, end: nat) {
    && i + 7 <= end <= |text| && FindUrlStart(text) == Some(i) && end == i + FirstSpace(text[i..])
    && (forall k :: i <= k < end ==> !RustSpace(text[k])) && (end < |text| ==> RustSpace(text[end]))
    && Segments(text) == [Plain(text[..i]), Url(text[i..end])] + Segments(text[end..])
  }

  lemma CutAt(text: string, i: nat) returns (end: nat)
    requires FindUrlStart(text) == Some(i)
    ensures Cut(text, i, end) && i <= end <= |text| && end == i + FirstSpace(text[i..])
  {
    hide FindUrlStart, RustSpace;
    UrlIsLong(text, i);
    end := i + FirstSpace(text[i..]);
    forall k | i <= k < end ensures !RustSpace(text[k]) { assert text[i..][k - i] == text[k]; }
  }

  // Nothing before the cut's URL is in a URL, everything in it is, and what follows is decided by the rest.
  lemma CutDecides(text: string, i: nat, end: nat, p: nat)
    requires Cut(text, i, end) && p < |text|
    ensures p < end ==> (InUrl(text, p) <==> p >= i)
    ensures p >= end ==> (InUrl(text, p) <==> InUrl(text[end..], p - end))
  {
    hide FindUrlStart, RustSpace, UrlAt, Segments;
    StartIsFirst(text);
    if i <= p < end { assert InUrlFrom(text, p, i); }
    if p >= end { InUrlShifts(text, end, p); }
  }

  lemma JoinTwo(a: Piece, b: Piece, rest: seq<Piece>)
    ensures Join([a, b] + rest) == a.text + b.text + Join(rest)
    ensures Mask([a, b] + rest) == seq(|a.text|, _ => a.Url?) + seq(|b.text|, _ => b.Url?) + Mask(rest)
  {
    var all := [a, b] + rest;
    assert all[1..] == [b] + rest;
    assert all[1..][1..] == rest;
  }

  lemma JoinOne(a: Piece)
    ensures Join([a]) == a.text && Mask([a]) == seq(|a.text|, _ => a.Url?)
  {
    assert Join([a][1..]) == "" && Mask([a][1..]) == [];
  }

  // The pieces put together are the text, and the URL pieces cover exactly the characters that belong to URLs.
  lemma {:induction false} SegmentsCover(text: string)
    ensures Join(Segments(text)) == text
    ensures |Mask(Segments(text))| == |text|
    ensures forall p :: 0 <= p < |text| ==> (Mask(Segments(text))[p] <==> InUrl(text, p))
    decreases |text|
  {
    hide FindUrlStart, RustSpace, UrlAt, InUrl, Segments, Cut, Join, Mask;
    StartIsFirst(text);
    match FindUrlStart(text)
    case None => NoUrlCovers(text);
    case Some(i) =>
      var end := CutAt(text, i);
      CutShape(text, i, end);
      SegmentsCover(text[end..]);
      JoinTwo(Plain(text[..i]), Url(text[i..end]), Segments(text[end..]));
      forall p | 0 <= p < |text| ensures Mask(Segments(text))[p] <==> InUrl(text, p) {
        CutDecides(text, i, end, p);
        if p >= end { assert Mask(Segments(text))[p] == Mask(Segments(text[end..]))[p - end]; }
      }
  }

  lemma CutShape(text: string, i: nat, end: nat)
    requires Cut(text, i, end)
    ensures i + 7 <= end <= |text|
    ensures text[..i] + text[i..end] + text[end..] == text
    ensures Segments(text) == [Plain(text[..i]), Url(text[i..end])] + Segments(text[end..])
  {
    hide Segments, FindUrlStart, FirstSpace, RustSpace;
    ThreeParts(text, i, end);
  }

  lemma ThreeParts(s: string, i: nat, end: nat)
    requires i <= end <= |s|
    ensures s[..i] + s[i..end] + s[end..] == s
  {
    assert s[..i] + s[i..end] == s[..end];
  }

  lemma NoUrlCovers(text: string)
    requires FindUrlStart(text).None?
    ensures Join(Segments(text)) == text && |Mask(Segments(text))| == |text|
    ensures forall p :: 0 <= p < |text| ==> (Mask(Segments(text))[p] <==> InUrl(text, p))
  {
    hide FindUrlStart, RustSpace, UrlAt;
    StartIsFirst(text);
    JoinOne(Plain(text));
  }

  // ---------- What redacting one URL keeps ----------

  ghost predicate NoSpace(s: string) { forall k :: 0 <= k < |s| ==> !RustSpace(s[k]) }

  lemma HeadsAgree(a: string, b: string, n: nat, i: nat)
    requires n <= |a| && n <= |b| && (forall k :: 0 <= k < n ==> a[k] == b[k])
    ensures OccursAt(Lower(a), "http://", i) && i + 7 <= n ==> UrlAt(b, i)
    ensures OccursAt(Lower(a), "https://", i) && i + 8 <= n ==> UrlAt(b, i)
  {
    forall k | 0 <= k < n ensures Lower(a)[k] == Lower(b)[k] {}
  }

  lemma FirstOccurrence(s: string, p: string, from: nat, i: nat)
    requires from <= i <= |s| && OccursAt(s, p, i) && forall j :: from <= j < i ==> !OccursAt(s, p, j)
    ensures FindFrom(s, p, from) == Some(i)
  {
  }

  lemma TelegramHead(url: string, bot: nat)
    requires UrlAt(url, 0) && OccursAt(url, "/bot", bot)
    ensures bot >= 5 && bot + 4 <= |url| && url[bot] == '/'
  {
    hide UrlAt, RustSpace;
    UrlIsLongAt(url, 0);
    var p := "/bot";
    assert url[bot + 0] == p[0] == '/';
  }

  // Everything up to the first "/bot" inclusive is kept; then come the mask and the next slash with what follows it.
  lemma TelegramParts(url: string, bot: nat) returns (rest: string)
    requires Find(url, "/bot") == Some(bot)
    ensures bot + 4 <= |url| && RedactTelegram(url) == url[..bot + 4] + MASK + rest
    ensures |rest| <= |url| && rest == url[|url| - |rest|..] && (rest == "" || rest[0] == '/')
  {
    match FindFrom(url, "/", bot + 4)
    case None => rest := "";
    case Some(end) => rest := url[end..];
      var p := "/";
      assert url[end + 0] == p[0];
  }

  function SchemeLength(url: string): nat { if OccursAt(Lower(url), "https://", 0) then 8 else 7 }

  // The scheme stays, nothing is left to redact, and no white space comes in.
  ghost predicate SafelyRedacted(r: Redactor, url: string, red: string) {
    && SchemeLength(url) <= |red| && SchemeLength(url) <= |url|
    && red[..SchemeLength(url)] == url[..SchemeLength(url)]
    && NoSpace(red) && Redact(r, red) == red
    && (r == Webhook ==> '?' !in red)
  }

  lemma TelegramRedacts(url: string)
    requires UrlAt(url, 0) && NoSpace(url)
    ensures SafelyRedacted(Telegram, url, RedactTelegram(url))
  {
    hide RustSpace, UrlAt, OccursAt, RedactTelegram, NoSpace;
    UrlIsLongAt(url, 0);
    match Find(url, "/bot")
    case None => NothingToRedact(url);
    case Some(bot) =>
      TelegramHead(url, bot);
      var rest := TelegramParts(url, bot);
      TelegramTwice(url, bot, rest);
      TelegramNoSpace(url, bot, rest);
  }

  lemma NothingToRedact(url: string)
    requires Find(url, "/bot").None?
    ensures RedactTelegram(url) == url
  {
  }

  lemma TelegramNoSpace(url: string, bot: nat, rest: string)
    requires NoSpace(url) && bot + 4 <= |url| && |rest| <= |url| && rest == url[|url| - |rest|..]
    ensures NoSpace(url[..bot + 4] + MASK + rest)
  {
    hide RustSpace;
    PlainMask();
    assert NoSpace(url[..bot + 4] + MASK);
  }

  lemma PlainMask()
    ensures NoSpace(MASK) && forall k :: 0 <= k < |MASK| ==> MASK[k] != '/'
  {
  }

  // Whatever stands between the first "/bot" and the next slash is replaced by the mask, the rest is kept: the
  // result does not depend on it.
  lemma TokenIsHidden(head: string, token: string, rest: string)
    requires |head| >= 4 && Find(head, "/bot") == Some(|head| - 4)
    requires (forall k :: 0 <= k < |token| ==> token[k] != '/') && (rest == "" || rest[0] == '/')
    ensures RedactTelegram(head + token + rest) == head + "<redacted>" + rest
  {
    hide OccursAt;
    var url := head + token + rest;
    var bot := |head| - 4;
    forall j | 0 <= j <= bot ensures OccursAt(url, "/bot", j) <==> OccursAt(head, "/bot", j) {
      assert url[..|head|] == head;
      OccursInPrefix(url, head, "/bot", j);
    }
    FirstOccurrence(url, "/bot", 0, bot);
    SlashAfter(url, |head|, token, rest);
    assert url[..bot + 4] == head;
  }

  lemma OccursInPrefix(s: string, head: string, p: string, j: nat)
    requires head <= s && j + |p| <= |head|
    ensures OccursAt(s, p, j) <==> OccursAt(head, p, j)
  {
    if OccursAt(s, p, j) {
      forall k | 0 <= k < |p| ensures head[j + k] == p[k] { assert s[j + k] == p[k]; }
    }
    if OccursAt(head, p, j) {
      forall k | 0 <= k < |p| ensures s[j + k] == p[k] { assert head[j + k] == p[k]; }
    }
  }

  lemma OneChar(s: string, p: string, j: nat)
    requires |p| == 1
    ensures OccursAt(s, p, j) <==> j < |s| && s[j] == p[0]
  {
    if OccursAt(s, p, j) { assert s[j + 0] == p[0]; }
  }

  lemma SlashAfter(url: string, from: nat, token: string, rest: string)
    requires from <= |url| && url[from..] == token + rest
    requires (forall k :: 0 <= k < |token| ==> token[k] != '/') && (rest == "" || rest[0] == '/')
    ensures FindFrom(url, "/", from) == if rest == "" then None else Some(from + |token|)
    ensures url[from + |token|..] == rest
  {
    hide OccursAt;
    forall j | from <= j <= |url| ensures OccursAt(url, "/", j) <==> j < |url| && (token + rest)[j - from] == '/' {
      OneChar(url, "/", j);
      if j < |url| { assert url[from..][j - from] == url[j]; }
    }
    assert url[from + |token|..] == url[from..][|token|..];
    if rest != "" { FirstOccurrence(url, "/", from, from + |token|); }
  }

  lemma TelegramTwice(url: string, bot: nat, rest: string)
    requires Find(url, "/bot") == Some(bot) && bot + 4 <= |url|
    requires rest == "" || rest[0] == '/'
    ensures RedactTelegram(url[..bot + 4] + MASK + rest) == url[..bot + 4] + MASK + rest
  {
    hide RedactTelegram, OccursAt;
    var head := url[..bot + 4];
    forall j | 0 <= j <= bot ensures OccursAt(url, "/bot", j) <==> OccursAt(head, "/bot", j) {
      OccursInPrefix(url, head, "/bot", j);
    }
    FirstOccurrence(head, "/bot", 0, bot);
    PlainMask();
    TokenIsHidden(head, MASK, rest);
  }

  // A webhook URL loses its query, whatever it is.
  lemma QueryIsHidden(head: string, query: string)
    requires '?' !in head
    ensures RedactWebhook(head + "?" + query) == head && RedactWebhook(head) == head
  {
    hide OccursAt;
    var url := head + "?" + query;
    forall j | 0 <= j <= |url| ensures OccursAt(url, "?", j) <==> j < |url| && url[j] == '?' { OneChar(url, "?", j); }
    forall j | 0 <= j <= |head| ensures !OccursAt(head, "?", j) { OneChar(head, "?", j); }
    FirstOccurrence(url, "?", 0, |head|);
  }

  lemma WebhookRedacts(url: string)
    requires UrlAt(url, 0) && NoSpace(url)
    ensures SafelyRedacted(Webhook, url, RedactWebhook(url))
  {
    hide RustSpace, UrlAt, OccursAt;
    UrlIsLongAt(url, 0);
    var red := RedactWebhook(url);
    forall j | 0 <= j <= |url| ensures OccursAt(url, "?", j) <==> j < |url| && url[j] == '?' { OneChar(url, "?", j); }
    forall j | 0 <= j <= |red| ensures OccursAt(red, "?", j) <==> j < |red| && red[j] == '?' { OneChar(red, "?", j); }
  }

  lemma UrlRedacts(r: Redactor, url: string)
    requires UrlAt(url, 0) && NoSpace(url)
    ensures SafelyRedacted(r, url, Redact(r, url))
  {
    hide SafelyRedacted, UrlAt, NoSpace, RedactTelegram, RedactWebhook;
    match r
    case Telegram => TelegramRedacts(url);
    case Webhook => WebhookRedacts(url);
  }

  // ---------- The text after redaction ----------

  // Two texts that agree up to and including the scheme found in the first have their first URL at the same place.
  lemma SameFirstUrl(text: string, other: string, i: nat)
    requires FindUrlStart(text) == Some(i) && i <= |text|
    requires i + SchemeLength(text[i..]) <= |text| && i + SchemeLength(text[i..]) <= |other|
    requires text[..i + SchemeLength(text[i..])] == other[..i + SchemeLength(text[i..])]
    ensures FindUrlStart(other) == Some(i)
  {
    hide FindUrlStart, RustSpace;
    StartIsFirst(text);
    var n := i + SchemeLength(text[i..]);
    assert forall k :: 0 <= k < n ==> text[k] == text[..n][k] == other[k];
    assert Lower(text)[i..] == Lower(text[i..]);
    OccursShifts(Lower(text), "https://", i, i);
    HeadsAgree(text, other, n, i);
    forall j | 0 <= j < i ensures !UrlAt(other, j) {
      if UrlAt(other, j) { EarlierUrl(text, other, n, i, j); }
    }
    StartIsUnique(other, i);
  }

  lemma EarlierUrl(text: string, other: string, n: nat, i: nat, j: nat)
    requires j < i && i + 7 <= n <= |text| && n <= |other| && forall k :: 0 <= k < n ==> text[k] == other[k]
    requires UrlAt(other, j)
    ensures UrlAt(text, j)
  {
    HeadsAgree(other, text, n, j);
  }

  lemma FirstSpaceIs(s: string, n: nat)
    requires n <= |s| && (forall k :: 0 <= k < n ==> !RustSpace(s[k])) && (n < |s| ==> RustSpace(s[n]))
    ensures FirstSpace(s) == n
  {
    hide RustSpace;
  }

  // The text after a URL still starts with its white space when it is redacted.
  lemma RestStarts(rest: string, r: Redactor)
    requires rest == "" || RustSpace(rest[0])
    ensures if rest == "" then RedactText(rest, r) == ""
            else RedactText(rest, r) != "" && RedactText(rest, r)[0] == rest[0]
  {
    hide FindUrlStart, UrlAt, RustSpace, Segments, RedactAll;
    StartIsFirst(rest);
    match FindUrlStart(rest)
    case None => UnchangedText(rest, r);
    case Some(i) =>
      UrlIsLongAt(rest, i);
      var end := CutAt(rest, i);
      RedactedCut(rest, i, end, r);
  }

  lemma UnchangedText(text: string, r: Redactor)
    requires FindUrlStart(text).None?
    ensures RedactText(text, r) == text && Segments(text) == [Plain(text)]
    ensures RedactAll([Plain(text)], r) == [Plain(text)]
  {
    hide FindUrlStart, RustSpace;
    JoinOne(Plain(text));
    assert RedactAll([Plain(text)], r) == [Plain(text)];
  }

  lemma RedactTwo(a: Piece, b: Piece, rest: seq<Piece>, r: Redactor)
    ensures RedactAll([a, b] + rest, r) == [Redacted(a, r), Redacted(b, r)] + RedactAll(rest, r)
  {
    hide Redacted;
  }

  // One turn of the loop, seen from the result.
  lemma RedactedCut(text: string, i: nat, end: nat, r: Redactor)
    requires Cut(text, i, end)
    ensures i < end <= |text|
    ensures RedactText(text, r) == text[..i] + Redact(r, text[i..end]) + RedactText(text[end..], r)
    ensures RedactAll(Segments(text), r)
            == [Plain(text[..i]), Url(Redact(r, text[i..end]))] + RedactAll(Segments(text[end..]), r)
  {
    hide FindUrlStart, FirstSpace, RustSpace, Segments, Redact, RedactAll, Join;
    CutShape(text, i, end);
    var rest := Segments(text[end..]);
    RedactTwo(Plain(text[..i]), Url(text[i..end]), rest, r);
    JoinTwo(Plain(text[..i]), Url(Redact(r, text[i..end])), RedactAll(rest, r));
  }

  // The loop: plain text is copied, each URL is replaced, and every turn leaves a shorter rest.
  method RedactUrlsInText(text: string, r: Redactor) returns (output: string)
    ensures output == RedactText(text, r)
  {
    hide FindUrlStart, UrlAt, RustSpace, Segments, RedactAll, RedactText, Redact, Cut;
    output := "";
    var rest := text;
    while FindUrlStart(rest).Some?
      invariant output + RedactText(rest, r) == RedactText(text, r)
      decreases |rest|
    {
      var start := FindUrlStart(rest).value;
      UrlIsLong(rest, start);
      ghost var end := CutAt(rest, start);
      RedactedCut(rest, start, end, r);
      var afterPrefix := rest[start..];
      var urlEnd := FirstSpace(afterPrefix);
      assert end == start + urlEnd && afterPrefix[..urlEnd] == rest[start..end] && afterPrefix[urlEnd..] == rest[end..];
      output := output + rest[..start];
      output := output + Redact(r, afterPrefix[..urlEnd]);
      rest := afterPrefix[urlEnd..];
    }
    UnchangedText(rest, r);
    output := output + rest;
  }

  // The redacted text has the same pieces as the original: the plain ones as they were, in order, and each URL replaced
  // by its redacted form.
  lemma {:induction false} RedactionKeepsPieces(text: string, r: Redactor)
    ensures Segments(RedactText(text, r)) == RedactAll(Segments(text), r)
    decreases |text|
  {
    hide FindUrlStart, UrlAt, RustSpace, Segments, RedactAll, RedactText, Redact, Cut;
    match FindUrlStart(text)
    case None => UnchangedText(text, r);
    case Some(i) =>
      var end := CutAt(text, i);
      RedactedCut(text, i, end, r);
      RedactionKeepsPieces(text[end..], r);
      RedactedSegments(text, i, end, r);
  }

  lemma RedactedSegments(text: string, i: nat, end: nat, r: Redactor)
    requires Cut(text, i, end)
    ensures Segments(RedactText(text, r))
            == [Plain(text[..i]), Url(Redact(r, text[i..end]))] + Segments(RedactText(text[end..], r))
  {
    hide FindUrlStart, UrlAt, RustSpace, Segments, RedactAll, RedactText, Redact;
    StartIsFirst(text);
    var url := text[i..end];
    UrlAtEnds(text, i, end);
    UrlRedacts(r, url);
    RedactedCut(text, i, end, r);
    RestStarts(text[end..], r);
    CutOfResult(text, i, end, Redact(r, url), RedactText(text[end..], r));
  }

  lemma UrlAtEnds(text: string, i: nat, end: nat)
    requires Cut(text, i, end)
    ensures UrlAt(text[i..end], 0) && NoSpace(text[i..end]) && SchemeLength(text[i..]) == SchemeLength(text[i..end])
  {
    hide FindUrlStart, RustSpace, Segments;
    StartIsFirst(text);
    SchemeWithin(text, i, end);
  }

  lemma OccursWithin(s: string, p: string, i: nat, end: nat)
    requires i <= end <= |s|
    ensures OccursAt(s[i..end], p, 0) <==> OccursAt(s, p, i) && i + |p| <= end
  {
    var t := s[i..end];
    if OccursAt(s, p, i) && i + |p| <= end {
      forall k | 0 <= k < |p| ensures t[0 + k] == p[k] { assert s[i + k] == p[k]; }
    }
    if OccursAt(t, p, 0) {
      forall k | 0 <= k < |p| ensures s[i + k] == p[k] { assert t[0 + k] == p[k]; }
    }
  }

  lemma SchemeWithin(text: string, i: nat, end: nat)
    requires i + 7 <= end <= |text| && UrlAt(text, i) && (end < |text| ==> RustSpace(text[end]))
    ensures UrlAt(text[i..end], 0) && SchemeLength(text[i..]) == SchemeLength(text[i..end])
  {
    hide OccursAt;
    UrlIsLongAt(text, i);
    var lower := Lower(text);
    assert Lower(text[i..end]) == lower[i..end];
    assert Lower(text[i..]) == lower[i..|text|];
    OccursWithin(lower, "http://", i, end);
    OccursWithin(lower, "https://", i, end);
    OccursWithin(lower, "https://", i, |text|);
  }

  // Any text that starts with the same plain prefix, a URL of the same scheme and no white space, and then
  // white space or nothing, is cut at the same place.
  lemma CutOfResult(text: string, i: nat, end: nat, red: string, rest: string)
    requires Cut(text, i, end)
    requires SchemeLength(text[i..end]) <= |red| && SchemeLength(text[i..end]) <= end - i && NoSpace(red)
    requires red[..SchemeLength(text[i..end])] == text[i..end][..SchemeLength(text[i..end])]
    requires rest == "" || RustSpace(rest[0])
    ensures Segments(text[..i] + red + rest) == [Plain(text[..i]), Url(red)] + Segments(rest)
  {
    hide FindUrlStart, UrlAt, RustSpace, Segments, FirstSpace, Cut;
    CutShape(text, i, end);
    var out := text[..i] + red + rest;
    ResultStarts(text, i, end, red, rest);
    assert out[i..] == red + rest;
    FirstSpaceIs(out[i..], |red|);
    var cut := CutAt(out, i);
    CutShape(out, i, cut);
    assert out[..i] == text[..i] && out[i..cut] == red && out[cut..] == rest;
  }

  lemma ResultStarts(text: string, i: nat, end: nat, red: string, rest: string)
    requires Cut(text, i, end)
    requires SchemeLength(text[i..end]) <= |red| && SchemeLength(text[i..end]) <= end - i
    requires red[..SchemeLength(text[i..end])] == text[i..end][..SchemeLength(text[i..end])]
    ensures FindUrlStart(text[..i] + red + rest) == Some(i)
  {
    hide FindUrlStart, UrlAt, RustSpace, Segments, SchemeLength;
    var out := text[..i] + red + rest;
    UrlAtEnds(text, i, end);
    var n := SchemeLength(text[i..end]);
    assert text[..i + n] == text[..i] + text[i..end][..n];
    assert out[..i + n] == text[..i] + red[..n];
    SameFirstUrl(text, out, i);
  }

  // Every URL piece is a URL: it starts with a scheme and has no white space.
  lemma {:induction false} PiecesAreUrls(text: string, k: nat)
    requires k < |Segments(text)| && Segments(text)[k].Url?
    ensures UrlAt(Segments(text)[k].text, 0) && NoSpace(Segments(text)[k].text)
    decreases |text|
  {
    hide FindUrlStart, UrlAt, RustSpace, Cut, NoSpace;
    match FindUrlStart(text)
    case None =>
    case Some(i) =>
      var end := CutAt(text, i);
      CutShape(text, i, end);
      UrlAtEnds(text, i, end);
      if k >= 2 { PiecesAreUrls(text[end..], k - 2); }
  }

  lemma RedactAllTwice(text: string, r: Redactor)
    ensures RedactAll(RedactAll(Segments(text), r), r) == RedactAll(Segments(text), r)
  {
    hide FindUrlStart, UrlAt, Segments, Redact, NoSpace;
    var pieces := Segments(text);
    forall k | 0 <= k < |pieces| ensures Redacted(Redacted(pieces[k], r), r) == Redacted(pieces[k], r) {
      if pieces[k].Url? {
        PiecesAreUrls(text, k);
        UrlRedacts(r, pieces[k].text);
      }
    }
  }

  // No URL in a text redacted for webhooks has a query.
  lemma NoQueryLeft(text: string, k: nat)
    requires k < |Segments(RedactText(text, Webhook))| && Segments(RedactText(text, Webhook))[k].Url?
    ensures '?' !in Segments(RedactText(text, Webhook))[k].text
  {
    hide FindUrlStart, UrlAt, Segments, RedactText, NoSpace, RedactWebhook;
    RedactionKeepsPieces(text, Webhook);
    PiecesAreUrls(text, k);
    UrlRedacts(Webhook, Segments(text)[k].text);
  }

  // In a URL redacted for Telegram nothing but the mask stands between its first "/bot" and the next slash.
  predicate OnlyMask(url: string) {
    match Find(url, "/bot")
    case None => true
    case Some(bot) =>
      match FindFrom(url, "/", bot + 4)
      case None => url[bot + 4..] == "<redacted>"
      case Some(end) => url[bot + 4..end] == "<redacted>"
  }

  lemma TelegramMasks(url: string)
    requires RedactTelegram(url) == url
    ensures OnlyMask(url)
  {
    match Find(url, "/bot")
    case None =>
    case Some(bot) =>
      match FindFrom(url, "/", bot + 4)
      case None => assert url == url[..bot + 4] + url[bot + 4..];
      case Some(end) => MaskedBetween(url, bot + 4, end);
  }

  lemma MaskedBetween(url: string, from: nat, end: nat)
    requires from <= end <= |url| && url[..from] + MASK + url[end..] == url
    ensures url[from..end] == MASK
  {
    assert |url[..from] + MASK + url[end..]| == from + |MASK| + |url| - end;
    assert (url[..from] + MASK + url[end..])[from..from + |MASK|] == MASK;
  }

  // In every text redacted for Telegram each URL is masked so.
  lemma OnlyMaskLeft(text: string, k: nat)
    requires k < |Segments(RedactText(text, Telegram))| && Segments(RedactText(text, Telegram))[k].Url?
    ensures OnlyMask(Segments(RedactText(text, Telegram))[k].text)
  {
    hide FindUrlStart, UrlAt, Segments, RedactText, NoSpace, RedactTelegram, OnlyMask;
    RedactionKeepsPieces(text, Telegram);
    PiecesAreUrls(text, k);
    UrlRedacts(Telegram, Segments(text)[k].text);
    TelegramMasks(Segments(RedactText(text, Telegram))[k].text);
  }

  // Redacting twice is redacting once.
  lemma RedactionIsIdempotent(text: string, r: Redactor)
    ensures RedactText(RedactText(text, r), r) == RedactText(text, r)
  {
    hide FindUrlStart, Segments, RedactAll;
    RedactionKeepsPieces(text, r);
    RedactAllTwice(text, r);
  }

  // Two texts with their URLs in capitals and without.
  lemma CapitalsAreFound()
    ensures FindUrlStart("HTTPS://a") == Some(0) && FindUrlStart("at Http://b") == Some(3)
  {
    hide FindUrlStart;
    var s, t := "HTTPS://a", "at Http://b";
    assert Lower(s)[..8] == "https://" && OccursAt(Lower(s), "https://", 0);
    StartIsUnique(s, 0);
    assert Lower(t)[3..10] == "http://" && OccursAt(Lower(t), "http://", 3);
    forall j | 0 <= j < 3 ensures !UrlAt(t, j) {
      if UrlAt(t, j) { SchemeChars(Lower(t), j); }
    }
    StartIsUnique(t, 3);
  }
}
