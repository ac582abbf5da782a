/** The browser's preview of pasted addresses, and why what it lets through is accepted. */
module ImportPreview {
  import opened Wrappers
  import opened Text
  import opened ImportPlan

  // String.prototype.toLowerCase: any function here, and on ASCII text the folding of ASCII letters.
  type Fold = string -> string

  ghost predicate FoldsAscii(fold: Fold) { forall s: string :: Ascii(s) ==> fold(s) == Lower(s) }

  datatype Line = Line(text: string, number: nat)
  datatype RowError = BlankAddress | DuplicateAddress
  datatype ParsedRow = ParsedRow(rowNumber: nat, rawText: string, address: string, error: Option<RowError>)

  function DropReturn(s: string): string {
    if s != [] && s[|s| - 1] == '\r' then s[..|s| - 1] else s
  }

  // input.split(/\r?\n/): the piece before each line feed loses one carriage return.
  function Pieces(input: string): (r: seq<string>)
    ensures |r| >= 1
  {
    var parts := Split(input, '\n');
    seq(|parts|, i requires 0 <= i < |parts| => if i + 1 < |parts| then DropReturn(parts[i]) else parts[i])
  }

  // Trimmed, numbered from one, blank ones left out.
  function Lines(pieces: seq<string>, n: nat): seq<Line>
    requires n <= |pieces|
  {
    if n == 0 then []
    else
      var text := Trim(pieces[n - 1], JsSpace);
      Lines(pieces, n - 1) + (if text == "" then [] else [Line(text, n)])
  }

  function InputLines(input: string): seq<Line> { Lines(Pieces(input), |Pieces(input)|) }

  function Headers(line: string, fold: Fold): (r: seq<string>)
    ensures |r| >= 1
  {
    var cells := Split(line, ',');
    seq(|cells|, i requires 0 <= i < |cells| => fold(Trim(cells[i], JsSpace)))
  }

  // The value under a header; of several equal headers the last one wins.
  function Field(headers: seq<string>, values: seq<string>, name: string, n: nat): string
    requires n <= |headers|
  {
    if n == 0 then ""
    else if headers[n - 1] == name then (if n - 1 < |values| then Trim(values[n - 1], JsSpace) else "")
    else Field(headers, values, name, n - 1)
  }

  function CsvRow(headers: seq<string>, line: Line): ParsedRow {
    ParsedRow(line.number, line.text, Field(headers, Split(line.text, ','), "address", |headers|), None)
  }

  function PlainRow(line: Line): ParsedRow { ParsedRow(line.number, line.text, line.text, None) }

  predicate IsCsv(lines: seq<Line>, fold: Fold) { lines != [] && "address" in Headers(lines[0].text, fold) }

  function CsvRows(headers: seq<string>, lines: seq<Line>): (r: seq<ParsedRow>)
    ensures |r| == |lines| && forall i :: 0 <= i < |r| ==> r[i] == CsvRow(headers, lines[i])
  {
    seq(|lines|, i requires 0 <= i < |lines| => CsvRow(headers, lines[i]))
  }

  function PlainRows(lines: seq<Line>): (r: seq<ParsedRow>)
    ensures |r| == |lines| && forall i :: 0 <= i < |r| ==> r[i] == PlainRow(lines[i])
  {
    seq(|lines|, i requires 0 <= i < |lines| => PlainRow(lines[i]))
  }

  // With a header line naming an address column the other lines are records; otherwise every line is an address.
  function RowsOf(lines: seq<Line>, fold: Fold): seq<ParsedRow> {
    if IsCsv(lines, fold) then CsvRows(Headers(lines[0].text, fold), lines[1..]) else PlainRows(lines)
  }

  function RawRows(input: string, fold: Fold): seq<ParsedRow> { RowsOf(InputLines(input), fold) }

  function JsKey(address: string, fold: Fold): string { fold(Trim(address, JsSpace)) }

  // An earlier row with the same non-blank key.
  predicate Repeats(rows: seq<ParsedRow>, i: nat, fold: Fold)
    requires i < |rows|
  {
    exists j :: 0 <= j < i && JsKey(rows[j].address, fold) == JsKey(rows[i].address, fold)
  }

  function RowVerdict(rows: seq<ParsedRow>, i: nat, fold: Fold): Option<RowError>
    requires i < |rows|
  {
    if JsKey(rows[i].address, fold) == "" then Some(BlankAddress)
    else if Repeats(rows, i, fold) then Some(DuplicateAddress)
    else rows[i].error
  }

  function Marked(rows: seq<ParsedRow>, fold: Fold): seq<ParsedRow> {
    seq(|rows|, i requires 0 <= i < |rows| => rows[i].(error := RowVerdict(rows, i, fold)))
  }

  ghost function JsKeysOf(rows: seq<ParsedRow>, n: nat, fold: Fold): set<string>
    requires n <= |rows|
  {
    set k | 0 <= k < n && JsKey(rows[k].address, fold) != "" :: JsKey(rows[k].address, fold)
  }

  // One pass with a growing set of keys marks exactly the blank rows and the later occurrences.
  method MarkDuplicateRows(rows: seq<ParsedRow>, fold: Fold) returns (marked: seq<ParsedRow>)
    ensures marked == Marked(rows, fold)
  {
    hide JsKey;
    marked := [];
    var seen: set<string> := {};
    for i := 0 to |rows|
      invariant |marked| == i && forall k :: 0 <= k < i ==> marked[k] == rows[k].(error := RowVerdict(rows, k, fold))
      invariant seen == JsKeysOf(rows, i, fold)
    {
      var key := JsKey(rows[i].address, fold);
      if key == "" {
        marked := marked + [rows[i].(error := Some(BlankAddress))];
      } else if key in seen {
        marked := marked + [rows[i].(error := Some(DuplicateAddress))];
      } else {
        seen := seen + {key};
        marked := marked + [rows[i]];
      }
    }
  }

  function Preview(input: string, fold: Fold): seq<ParsedRow> { Marked(RawRows(input, fold), fold) }

  // parsed.rows.filter(row => !row.error)
  function Importable(rows: seq<ParsedRow>, n: nat): seq<ParsedRow>
    requires n <= |rows|
  {
    if n == 0 then []
    else Importable(rows, n - 1) + (if rows[n - 1].error.None? then [rows[n - 1]] else [])
  }

  function ImportableRows(input: string, fold: Fold): seq<ParsedRow> {
    Importable(Preview(input, fold), |Preview(input, fold)|)
  }

  function ToRequestRows(rows: seq<ParsedRow>): seq<Row> {
    seq(|rows|, i requires 0 <= i < |rows| => Row(rows[i].rowNumber, rows[i].address))
  }

  // ---------- What is read ----------

  // The lines kept are exactly the pieces that are not blank, trimmed and numbered from one.
  lemma {:induction false} LinesAre(pieces: seq<string>, n: nat, line: Line)
    requires n <= |pieces|
    ensures line in Lines(pieces, n)
            <==> 1 <= line.number <= n && line.text == Trim(pieces[line.number - 1], JsSpace) && line.text != ""
  {
    hide Trim;
    if n > 0 { LinesAre(pieces, n - 1, line); }
  }

  lemma ReturnDoesNotMatter(s: string)
    ensures Trim(DropReturn(s), JsSpace) == Trim(s, JsSpace)
  {
    if s != [] && s[|s| - 1] == '\r' {
      TrimIgnoresEnd(s[..|s| - 1], '\r', JsSpace);
      assert s == s[..|s| - 1] + ['\r'];
    }
  }

  // So a line of the input is what stands between two line feeds, whether or not a carriage return precedes the second.
  lemma InputLinesAre(input: string, line: Line)
    ensures line in InputLines(input)
            <==> 1 <= line.number <= |Split(input, '\n')| && line.text != ""
                 && line.text == Trim(Split(input, '\n')[line.number - 1], JsSpace)
  {
    hide Trim, Split, Lines, DropReturn;
    var pieces := Pieces(input);
    LinesAre(pieces, |pieces|, line);
    if 1 <= line.number <= |pieces| { ReturnDoesNotMatter(Split(input, '\n')[line.number - 1]); }
  }

  // Header h names the address column; of several the last does.
  predicate AddressColumn(headers: seq<string>, h: nat) {
    h < |headers| && headers[h] == "address" && forall k :: h < k < |headers| ==> headers[k] != "address"
  }

  lemma {:induction false} FieldIs(headers: seq<string>, values: seq<string>, h: nat, n: nat)
    requires h < n <= |headers| && headers[h] == "address" && forall k :: h < k < n ==> headers[k] != "address"
    ensures Field(headers, values, "address", n) == if h < |values| then Trim(values[h], JsSpace) else ""
  {
    hide Trim;
    if n - 1 != h { FieldIs(headers, values, h, n - 1); }
  }

  // Under a header line with an address column every further line is a row: its number, its text, and the trimmed
  // cell of that column as the address, empty when the line is too short.
  lemma CsvAddress(lines: seq<Line>, fold: Fold, h: nat, i: nat)
    requires lines != [] && AddressColumn(Headers(lines[0].text, fold), h) && i + 1 < |lines|
    ensures |RowsOf(lines, fold)| == |lines| - 1
    ensures var row := RowsOf(lines, fold)[i]; var cells := Split(lines[i + 1].text, ',');
            && row.rowNumber == lines[i + 1].number && row.rawText == lines[i + 1].text && row.error.None?
            && row.address == (if h < |cells| then Trim(cells[h], JsSpace) else "")
  {
    hide Trim, Split, Headers;
    var headers := Headers(lines[0].text, fold);
    assert "address" in headers;
    FieldIs(headers, Split(lines[i + 1].text, ','), h, |headers|);
    assert lines[1..][i] == lines[i + 1];
  }

  // The headers are the cells of the first line, trimmed and lower-cased.
  lemma HeadersAre(line: string, fold: Fold, k: nat)
    requires k < |Split(line, ',')|
    ensures |Headers(line, fold)| == |Split(line, ',')|
    ensures Headers(line, fold)[k] == fold(Trim(Split(line, ',')[k], JsSpace))
  {
    hide Trim, Split;
  }

  // Without an address column every line is an address.
  lemma PlainAddress(lines: seq<Line>, fold: Fold, i: nat)
    requires i < |lines| && "address" !in Headers(lines[0].text, fold)
    ensures |RowsOf(lines, fold)| == |lines|
    ensures var row := RowsOf(lines, fold)[i];
            row.rowNumber == lines[i].number && row.rawText == lines[i].text && row.address == lines[i].text
                && row.error.None?
  {
    hide Headers;
  }

  // ---------- Row numbers ----------

  ghost predicate Increasing(rows: seq<ParsedRow>) {
    && (forall i :: 0 <= i < |rows| ==> rows[i].rowNumber >= 1)
    && forall i, j :: 0 <= i < j < |rows| ==> rows[i].rowNumber < rows[j].rowNumber
  }

  ghost predicate NumbersIncrease(lines: seq<Line>) {
    && (forall i :: 0 <= i < |lines| ==> lines[i].number >= 1)
    && forall i, j :: 0 <= i < j < |lines| ==> lines[i].number < lines[j].number
  }

  lemma {:induction false} LinesIncrease(pieces: seq<string>, n: nat)
    requires n <= |pieces|
    ensures NumbersIncrease(Lines(pieces, n))
    ensures forall i :: 0 <= i < |Lines(pieces, n)| ==> Lines(pieces, n)[i].number <= n
  {
    hide Trim;
    if n > 0 { LinesIncrease(pieces, n - 1); }
  }

  lemma RowsIncrease(lines: seq<Line>, fold: Fold)
    requires NumbersIncrease(lines)
    ensures Increasing(RowsOf(lines, fold))
    ensures forall i :: 0 <= i < |RowsOf(lines, fold)| ==> RowsOf(lines, fold)[i].error.None?
  {
    hide Headers, Field, CsvRows, PlainRows;
    if IsCsv(lines, fold) {
      assert NumbersIncrease(lines[1..]);
      assert RowsOf(lines, fold) == CsvRows(Headers(lines[0].text, fold), lines[1..]);
    }
  }

  lemma RawRowsIncrease(input: string, fold: Fold)
    ensures Increasing(RawRows(input, fold))
    ensures forall i :: 0 <= i < |RawRows(input, fold)| ==> RawRows(input, fold)[i].error.None?
  {
    hide Lines, Pieces, RowsOf, NumbersIncrease, Increasing;
    LinesIncrease(Pieces(input), |Pieces(input)|);
    RowsIncrease(InputLines(input), fold);
  }

  // ---------- What is left over ----------

  ghost predicate DistinctKeys(rows: seq<ParsedRow>, fold: Fold) {
    forall i, j :: 0 <= i < j < |rows| ==> JsKey(rows[i].address, fold) != JsKey(rows[j].address, fold)
  }

  // Row i survives exactly when it is the first with its non-blank key.
  predicate FirstOfKey(rows: seq<ParsedRow>, i: nat, fold: Fold)
    requires i < |rows|
  {
    JsKey(rows[i].address, fold) != "" && !Repeats(rows, i, fold)
  }

  lemma NoSurvivors(rows: seq<ParsedRow>, fold: Fold)
    ensures Survivors(rows, 0, [], fold)
  {
  }

  // The first n rows, filtered.
  ghost predicate Survivors(rows: seq<ParsedRow>, n: nat, ok: seq<ParsedRow>, fold: Fold)
    requires n <= |rows|
  {
    && Increasing(ok) && DistinctKeys(ok, fold)
    && (forall k :: 0 <= k < |ok| ==> exists i :: 0 <= i < n && ok[k] == rows[i] && FirstOfKey(rows, i, fold))
    && (forall i :: 0 <= i < n && FirstOfKey(rows, i, fold) ==> rows[i] in ok)
  }

  lemma OneMoreSurvivor(rows: seq<ParsedRow>, n: nat, ok: seq<ParsedRow>, fold: Fold)
    requires n < |rows| && Increasing(rows) && Survivors(rows, n, ok, fold) && FirstOfKey(rows, n, fold)
    ensures Survivors(rows, n + 1, ok + [rows[n]], fold)
  {
    hide JsKey;
    var more := ok + [rows[n]];
    forall k | 0 <= k < |ok|
      ensures ok[k].rowNumber < rows[n].rowNumber && JsKey(ok[k].address, fold) != JsKey(rows[n].address, fold)
      ensures exists i :: 0 <= i < n + 1 && more[k] == rows[i] && FirstOfKey(rows, i, fold)
    {
      var i :| 0 <= i < n && ok[k] == rows[i] && FirstOfKey(rows, i, fold);
      assert !Repeats(rows, n, fold);
    }
    assert more[|ok|] == rows[n];
  }

  lemma NoMoreSurvivor(rows: seq<ParsedRow>, n: nat, ok: seq<ParsedRow>, fold: Fold)
    requires n < |rows| && Survivors(rows, n, ok, fold) && !FirstOfKey(rows, n, fold)
    ensures Survivors(rows, n + 1, ok, fold)
  {
    hide Trim, Lower;
    forall k | 0 <= k < |ok|
      ensures exists i :: 0 <= i < n + 1 && ok[k] == rows[i] && FirstOfKey(rows, i, fold)
    {
      var i :| 0 <= i < n && ok[k] == rows[i] && FirstOfKey(rows, i, fold);
      assert 0 <= i < n + 1;
    }
    assert forall i :: 0 <= i < n + 1 && FirstOfKey(rows, i, fold) ==> rows[i] in ok;
  }

  lemma {:induction false} ImportableAre(rows: seq<ParsedRow>, n: nat, fold: Fold)
    requires n <= |rows| && Increasing(rows) && forall i :: 0 <= i < |rows| ==> rows[i].error.None?
    ensures Survivors(rows, n, Importable(Marked(rows, fold), n), fold)
  {
    hide JsKey, Survivors, Repeats;
    if n > 0 {
      ImportableAre(rows, n - 1, fold);
      var before := Importable(Marked(rows, fold), n - 1);
      assert Marked(rows, fold)[n - 1] == rows[n - 1].(error := RowVerdict(rows, n - 1, fold));
      if FirstOfKey(rows, n - 1, fold) {
        OneMoreSurvivor(rows, n - 1, before, fold);
      } else {
        NoMoreSurvivor(rows, n - 1, before, fold);
        assert before + [] == before;
      }
    } else {
      NoSurvivors(rows, fold);
    }
  }

  // The surviving rows have increasing positive row numbers and distinct non-blank keys.
  lemma PreviewRows(input: string, fold: Fold)
    ensures Increasing(ImportableRows(input, fold)) && DistinctKeys(ImportableRows(input, fold), fold)
    ensures forall k :: 0 <= k < |ImportableRows(input, fold)| ==>
              JsKey(ImportableRows(input, fold)[k].address, fold) != ""
  {
    hide JsKey, RawRows;
    RawRowsIncrease(input, fold);
    ImportableAre(RawRows(input, fold), |RawRows(input, fold)|, fold);
  }

  lemma {:induction false} FirstOccurrence(rows: seq<ParsedRow>, i: nat, fold: Fold) returns (first: nat)
    requires i < |rows| && JsKey(rows[i].address, fold) != ""
    ensures first <= i && FirstOfKey(rows, first, fold)
            && JsKey(rows[first].address, fold) == JsKey(rows[i].address, fold)
  {
    hide JsKey;
    if Repeats(rows, i, fold) {
      var j :| 0 <= j < i && JsKey(rows[j].address, fold) == JsKey(rows[i].address, fold);
      first := FirstOccurrence(rows, j, fold);
    } else {
      first := i;
    }
  }

  // Every non-blank key of the input survives, as its first occurrence, and in no other row.
  lemma EachKeySurvivesOnce(input: string, i: nat, fold: Fold) returns (first: nat)
    requires i < |RawRows(input, fold)| && JsKey(RawRows(input, fold)[i].address, fold) != ""
    ensures first <= i && FirstOfKey(RawRows(input, fold), first, fold)
    ensures JsKey(RawRows(input, fold)[first].address, fold) == JsKey(RawRows(input, fold)[i].address, fold)
    ensures RawRows(input, fold)[first] in ImportableRows(input, fold)
    ensures forall row :: row in ImportableRows(input, fold)
                          && JsKey(row.address, fold) == JsKey(RawRows(input, fold)[i].address, fold) ==>
              row == RawRows(input, fold)[first]
  {
    hide JsKey, RawRows;
    RawRowsIncrease(input, fold);
    first := FirstOccurrence(RawRows(input, fold), i, fold);
    ImportableAre(RawRows(input, fold), |RawRows(input, fold)|, fold);
    var ok := ImportableRows(input, fold);
    var f :| 0 <= f < |ok| && ok[f] == RawRows(input, fold)[first];
    forall row | row in ok && JsKey(row.address, fold) == JsKey(RawRows(input, fold)[i].address, fold)
      ensures row == RawRows(input, fold)[first]
    {
      var k :| 0 <= k < |ok| && ok[k] == row;
    }
  }

  // ---------- ASCII input ----------

  lemma {:induction false} LinesAscii(pieces: seq<string>, n: nat)
    requires n <= |pieces| && forall i :: 0 <= i < |pieces| ==> Ascii(pieces[i])
    ensures forall i :: 0 <= i < |Lines(pieces, n)| ==> Ascii(Lines(pieces, n)[i].text)
  {
    if n > 0 {
      LinesAscii(pieces, n - 1);
      TrimAscii(pieces[n - 1]);
    }
  }

  lemma {:induction false} FieldAscii(headers: seq<string>, values: seq<string>, name: string, n: nat)
    requires n <= |headers| && forall i :: 0 <= i < |values| ==> Ascii(values[i])
    ensures Ascii(Field(headers, values, name, n))
  {
    if n > 0 {
      FieldAscii(headers, values, name, n - 1);
      if n - 1 < |values| { TrimAscii(values[n - 1]); }
    }
  }

  lemma RowsAscii(lines: seq<Line>, i: nat, fold: Fold)
    requires i < |RowsOf(lines, fold)| && forall k :: 0 <= k < |lines| ==> Ascii(lines[k].text)
    ensures Ascii(RowsOf(lines, fold)[i].address)
  {
    hide Headers;
    if IsCsv(lines, fold) {
      assert lines[1..][i] == lines[i + 1];
      SplitAscii(lines[i + 1].text, ',');
      var headers := Headers(lines[0].text, fold);
      FieldAscii(headers, Split(lines[i + 1].text, ','), "address", |headers|);
    }
  }

  lemma RawRowsAscii(input: string, fold: Fold)
    requires Ascii(input)
    ensures forall i :: 0 <= i < |RawRows(input, fold)| ==> Ascii(RawRows(input, fold)[i].address)
  {
    hide RowsOf, Lines, Split;
    SplitAscii(input, '\n');
    var pieces := Pieces(input);
    LinesAscii(pieces, |pieces|);
    forall i | 0 <= i < |RawRows(input, fold)| ensures Ascii(RawRows(input, fold)[i].address) {
      RowsAscii(InputLines(input), i, fold);
    }
  }

  lemma ImportableAscii(input: string, fold: Fold)
    requires Ascii(input)
    ensures forall k :: 0 <= k < |ImportableRows(input, fold)| ==> Ascii(ImportableRows(input, fold)[k].address)
  {
    hide JsKey, RawRows;
    RawRowsAscii(input, fold);
    RawRowsIncrease(input, fold);
    ImportableAre(RawRows(input, fold), |RawRows(input, fold)|, fold);
  }

  lemma {:induction false} LowerBlank(s: string)
    ensures Lower(s) == "" <==> s == ""
  {
    assert |Lower(s)| == |s|;
  }

  // Whatever ASCII text is pasted, the rows the preview leaves without an error pass the server's row checks;
  // with acceptable chain configurations and an attempt count in range the whole request is accepted.
  lemma PreviewIsAccepted(input: string, defaults: Defaults, fold: Fold)
    requires FoldsAscii(fold) && Ascii(input) && ImportableRows(input, fold) != []
    ensures RowsAccepted(ToRequestRows(ImportableRows(input, fold)))
    ensures ConfigsAccepted(EffectiveConfigs(defaults))
            && |ImportableRows(input, fold)| * |EffectiveConfigs(defaults)| <= I32_MAX
            ==> Accepted(Request(defaults, ToRequestRows(ImportableRows(input, fold))))
  {
    PreviewRows(input, fold);
    ImportableAscii(input, fold);
    RowsPass(ImportableRows(input, fold), fold);
  }

  lemma RowsPass(ok: seq<ParsedRow>, fold: Fold)
    requires FoldsAscii(fold) && ok != [] && Increasing(ok) && DistinctKeys(ok, fold)
    requires forall k :: 0 <= k < |ok| ==> JsKey(ok[k].address, fold) != "" && Ascii(ok[k].address)
    ensures RowsAccepted(ToRequestRows(ok))
  {
    hide Trim, Lower;
    var rows := ToRequestRows(ok);
    forall k | 0 <= k < |ok|
      ensures Key(rows[k].address) == JsKey(ok[k].address, fold) && Trim(rows[k].address, RustSpace) != ""
    {
      TrimAscii(ok[k].address);
      LowerBlank(Trim(ok[k].address, JsSpace));
    }
  }
}
