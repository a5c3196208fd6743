/**
 * CSV text as the client writes and reads it: field escaping with the quoting rules of
 * section 2 of RFC 4180, the export document (byte-order mark, CRLF line ends), and the
 * naive importer that splits lines on commas without interpreting quotes.
 */
module Csv {
  import opened Wrappers
  import opened Text
  import opened Seqs

  /** One exported cell before it is turned into text: text, or a number that prints as
      JavaScript's `String(n)` does. */
  datatype Cell = Text(s: string) | Num(r: real)

  /** The text of a cell, given how numbers print. */
  function Render(c: Cell, numText: real -> string): string {
    match c
    case Text(s) => s
    case Num(r) => numText(r)
  }

  function RenderRow(row: seq<Cell>, numText: real -> string): seq<string> {
    Map(row, (c: Cell) => Render(c, numText))
  }

  /** The characters that force a field into quotes: `"`, `,`, CR, LF. */
  predicate NeedsQuotes(s: string) {
    '"' in s || ',' in s || '\r' in s || '\n' in s
  }

  /** `s.replace(/"/g, '""')` */
  function DoubleQuotes(s: string): (r: string)
    ensures '"' !in s ==> r == s
    ensures forall c :: c != '"' ==> (c in r <==> c in s)
    ensures '"' in r <==> '"' in s
  {
    if s == [] then []
    else (if s[0] == '"' then "\"\"" else [s[0]]) + DoubleQuotes(s[1..])
  }

  /** Reading a quoted field's inside: `""` stands for one `"`. */
  function UndoubleQuotes(t: string): string {
    if |t| >= 2 && t[0] == '"' && t[1] == '"' then "\"" + UndoubleQuotes(t[2..])
    else if t == [] then []
    else [t[0]] + UndoubleQuotes(t[1..])
  }

  lemma {:induction false} UndoubleDouble(s: string)
    ensures UndoubleQuotes(DoubleQuotes(s)) == s
  {
    if s != [] {
      UndoubleDouble(s[1..]);
      var d := DoubleQuotes(s);
      if s[0] == '"' {
        assert d == "\"\"" + DoubleQuotes(s[1..]);
        assert d[2..] == DoubleQuotes(s[1..]);
      } else {
        assert d == [s[0]] + DoubleQuotes(s[1..]);
        assert d[1..] == DoubleQuotes(s[1..]);
      }
    }
  }

  /** `csvEscape(v)` for the text of `v` (`""` for null and undefined). */
  function Escape(s: string): (r: string)
    ensures !NeedsQuotes(s) ==> r == s
    ensures NeedsQuotes(s) ==> |r| >= 2 && r[0] == '"' && r[|r| - 1] == '"'
  {
    var d := DoubleQuotes(s);
    if NeedsQuotes(d) then "\"" + d + "\"" else d
  }

  /** Reading one field back: a quoted field loses its quotes and its doubled quotes. */
  function Unescape(t: string): string {
    if |t| >= 2 && t[0] == '"' && t[|t| - 1] == '"' then UndoubleQuotes(t[1..|t| - 1]) else t
  }

  /** Escaping loses nothing: every field reads back as it was written. */
  lemma EscapeRoundTrip(s: string)
    ensures Unescape(Escape(s)) == s
  {
    var d := DoubleQuotes(s);
    UndoubleDouble(s);
    if NeedsQuotes(d) {
      var r := "\"" + d + "\"";
      assert r[1..|r| - 1] == d;
    }
  }

  /** One line of the document: the escaped fields joined by ",". */
  function Line(fields: seq<string>): string {
    Join(Map(fields, Escape), ",")
  }

  const Bom: char := '\U{FEFF}'

  /** `downloadCsv`'s text: a byte-order mark, then the header line and the row lines
      separated by CRLF. */
  function Document(headers: seq<string>, rows: seq<seq<string>>): string {
    [Bom] + Join([Line(headers)] + Map(rows, Line), "\r\n")
  }

  /** A field that needs no escaping: no `"`, `,`, CR or LF. */
  predicate Plain(s: string) { !NeedsQuotes(s) }

  /** Reading the document back when no field needed quotes: drop the byte-order mark,
      split the lines at CRLF and the fields at ",". */
  function ReadDocument(text: string): seq<seq<string>> {
    var body := if text != [] && text[0] == Bom then text[1..] else text;
    Map(SplitLines(body), (l: string) => Split(l, ','))
  }

  /** Every line but the last with a CR after it. */
  function CrEnded(ls: seq<string>): seq<string> {
    seq(|ls|, i requires 0 <= i < |ls| => if i < |ls| - 1 then ls[i] + "\r" else ls[i])
  }

  lemma {:induction false} JoinCrlf(ls: seq<string>)
    requires ls != []
    ensures Join(ls, "\r\n") == Join(CrEnded(ls), "\n")
  {
    if |ls| > 1 {
      JoinCrlf(ls[1..]);
      assert CrEnded(ls)[1..] == CrEnded(ls[1..]);
    }
  }

  /** A line with a CR after it still holds no LF. */
  lemma CrEndedFree(ls: seq<string>, i: int)
    requires 0 <= i < |ls| && '\n' !in ls[i]
    ensures '\n' !in CrEnded(ls)[i]
  {
    if i < |ls| - 1 {
      assert CrEnded(ls)[i] == ls[i] + "\r";
    }
  }

  /** Dropping the CRs again from the lines that were split at LF gives back the lines. */
  lemma CrDropped(ls: seq<string>, text: string)
    requires ls != [] && Split(text, '\n') == CrEnded(ls)
    ensures SplitLines(text) == ls
  {
    var cr := CrEnded(ls);
    var r := SplitLines(text);
    forall i | 0 <= i < |ls|
      ensures r[i] == ls[i]
    {
      if i < |ls| - 1 {
        var p := cr[i];
        assert p == ls[i] + "\r";
        assert p[..|p| - 1] == ls[i];
      }
    }
  }

  /** Splitting CRLF-joined lines that hold no LF gives back the lines. */
  lemma SplitLinesJoin(ls: seq<string>)
    requires ls != []
    requires forall i :: 0 <= i < |ls| ==> '\n' !in ls[i]
    ensures SplitLines(Join(ls, "\r\n")) == ls
  {
    JoinCrlf(ls);
    var cr := CrEnded(ls);
    forall i | 0 <= i < |cr|
      ensures '\n' !in cr[i]
    {
      CrEndedFree(ls, i);
    }
    SplitJoin(cr, '\n');
    CrDropped(ls, Join(ls, "\r\n"));
  }

  /** A line of plain fields reads back as those fields. */
  lemma LineReadBack(fields: seq<string>)
    requires fields != []
    requires forall i :: 0 <= i < |fields| ==> Plain(fields[i])
    ensures Split(Line(fields), ',') == fields
    ensures '\n' !in Line(fields)
  {
    var esc := Map(fields, Escape);
    assert esc == fields;
    SplitJoin(fields, ',');
    JoinFree(fields, ",", '\n');
  }

  /** A join of pieces and a separator that avoid a character avoids it too. */
  lemma {:induction false} JoinFree(parts: seq<string>, sep: string, c: char)
    requires c !in sep && forall i :: 0 <= i < |parts| ==> c !in parts[i]
    ensures c !in Join(parts, sep)
  {
    if |parts| > 1 {
      JoinFree(parts[1..], sep, c);
    }
  }

  lemma ReadAfterBom(body: string)
    ensures ReadDocument([Bom] + body) == Map(SplitLines(body), (l: string) => Split(l, ','))
  {
    assert ([Bom] + body)[1..] == body;
  }

  /** The lines of the document: the header line, then one line per row. */
  function Lines(headers: seq<string>, rows: seq<seq<string>>): seq<string> {
    [Line(headers)] + Map(rows, Line)
  }

  lemma LinesReadBack(headers: seq<string>, rows: seq<seq<string>>)
    requires headers != [] && forall i :: 0 <= i < |headers| ==> Plain(headers[i])
    requires forall r :: r in rows ==> r != [] && forall i :: 0 <= i < |r| ==> Plain(r[i])
    ensures forall i :: 0 <= i < |Lines(headers, rows)| ==> '\n' !in Lines(headers, rows)[i]
    ensures Map(Lines(headers, rows), (l: string) => Split(l, ',')) == [headers] + rows
  {
    var ls := Lines(headers, rows);
    LineReadBack(headers);
    forall i | 0 <= i < |rows|
      ensures Split(Line(rows[i]), ',') == rows[i] && '\n' !in Line(rows[i])
    {
      assert rows[i] in rows;
      LineReadBack(rows[i]);
    }
    var want := [headers] + rows;
    forall i | 0 <= i < |ls|
      ensures Split(ls[i], ',') == want[i] && '\n' !in ls[i]
    {
      if i > 0 {
        assert ls[i] == Line(rows[i - 1]);
      }
    }
  }

  /** The document reads back as its header and rows when every field is plain. */
  lemma DocumentReadBack(headers: seq<string>, rows: seq<seq<string>>)
    requires headers != [] && forall i :: 0 <= i < |headers| ==> Plain(headers[i])
    requires forall r :: r in rows ==> r != [] && forall i :: 0 <= i < |r| ==> Plain(r[i])
    ensures ReadDocument(Document(headers, rows)) == [headers] + rows
  {
    var ls := Lines(headers, rows);
    LinesReadBack(headers, rows);
    SplitLinesJoin(ls);
    ReadAfterBom(Join(ls, "\r\n"));
  }

  // ---------------------------------------------------------------- the importer

  /** `text.split(/\r?\n/)`: split at LF, dropping a CR just before each LF. */
  function SplitLines(text: string): (r: seq<string>)
    ensures |r| >= 1
  {
    var pieces := Split(text, '\n');
    seq(|pieces|, i requires 0 <= i < |pieces| =>
      if i < |pieces| - 1 && pieces[i] != [] && pieces[i][|pieces[i]| - 1] == '\r'
      then pieces[i][..|pieces[i]| - 1] else pieces[i])
  }

  predicate NotBlank(l: string) { JsTrim(l) != "" }

  /** The non-blank lines of the trimmed text. */
  function CsvLines(text: string): seq<string> {
    Filter(SplitLines(JsTrim(text)), NotBlank)
  }

  /** `line.split(",").map((v) => v.trim())` */
  function Fields(line: string): (r: seq<string>)
    ensures |r| >= 1
  {
    Map(Split(line, ','), JsTrim)
  }

  /** The header names: the header line lower-cased, split at commas, trimmed. */
  function HeaderNames(line: string): seq<string> {
    Fields(ToLower(line))
  }

  /** `header.forEach((h, j) => { row[h] = values[j] ?? ""; })` over the first `n` names. */
  function RowOf(header: seq<string>, values: seq<string>): (row: map<string, string>)
    ensures forall j :: 0 <= j < |header| ==> header[j] in row
    decreases |header|
  {
    if header == [] then map[]
    else
      var j := |header| - 1;
      RowOf(header[..j], values)[header[j] := if j < |values| then values[j] else ""]
  }

  /** A parsed row has exactly the header names as keys. */
  lemma {:induction false} RowOfKeys(header: seq<string>, values: seq<string>)
    ensures RowOf(header, values).Keys == set h | h in header
    decreases |header|
  {
    if header != [] {
      var n := |header| - 1;
      RowOfKeys(header[..n], values);
      assert header == header[..n] + [header[n]];
    }
  }

  /** With distinct header names, each name maps to the value in its column, or "" when
      the line is short. Quotes are not interpreted: values are kept verbatim. */
  lemma RowOfColumns(header: seq<string>, values: seq<string>)
    requires forall a, b :: 0 <= a < b < |header| ==> header[a] != header[b]
    ensures forall j :: 0 <= j < |header| ==>
      RowOf(header, values)[header[j]] == if j < |values| then values[j] else ""
  {
    forall j | 0 <= j < |header|
      ensures RowOf(header, values)[header[j]] == if j < |values| then values[j] else ""
    {
      ColumnLookup(header, values, j);
    }
  }

  /** A name that no later column repeats maps to the value in its own column. */
  lemma {:induction false} ColumnLookup(header: seq<string>, values: seq<string>, j: int)
    requires 0 <= j < |header|
    requires forall i :: j < i < |header| ==> header[i] != header[j]
    ensures RowOf(header, values)[header[j]] == if j < |values| then values[j] else ""
    decreases |header|
  {
    var n := |header| - 1;
    if j < n {
      var front := header[..n];
      ColumnLookup(front, values, j);
      assert front[j] == header[j];
    }
  }

  /** One data row: each header name in turn set to the value in its column. */
  method BuildRow(header: seq<string>, values: seq<string>) returns (row: map<string, string>)
    ensures row == RowOf(header, values)
  {
    row := map[];
    for j := 0 to |header|
      invariant row == RowOf(header[..j], values)
    {
      assert header[..j + 1][..j] == header[..j];
      row := row[header[j] := if j < |values| then values[j] else ""];
    }
    assert header[..|header|] == header;
  }

  /** One data line read as a row keyed by `header`. */
  function DataRow(header: seq<string>): string -> map<string, string> {
    (line: string) => RowOf(header, Fields(line))
  }

  /** The data rows of non-blank `lines`, keyed by the names in the first. */
  function RowsOf(lines: seq<string>): (rows: seq<map<string, string>>)
    ensures |lines| < 2 ==> rows == []
    ensures |lines| >= 2 ==> |rows| == |lines| - 1
  {
    if |lines| < 2 then [] else Map(lines[1..], DataRow(HeaderNames(lines[0])))
  }

  /** The rows `parseExpenseCsv` yields for `text`. */
  function CsvRows(text: string): seq<map<string, string>> {
    RowsOf(CsvLines(text))
  }

  /** Reading the data rows line by line. */
  method ParseLines(lines: seq<string>) returns (rows: seq<map<string, string>>)
    ensures rows == RowsOf(lines)
    ensures |lines| < 2 ==> rows == []
    ensures |lines| >= 2 ==>
      && |rows| == |lines| - 1
      && forall i :: 0 <= i < |rows| ==> rows[i] == RowOf(HeaderNames(lines[0]), Fields(lines[i + 1]))
  {
    if |lines| < 2 {
      return [];
    }
    var header := HeaderNames(lines[0]);
    rows := [];
    for i := 1 to |lines|
      invariant rows == Map(lines[1..i], DataRow(header))
    {
      var row := BuildRow(header, Fields(lines[i]));
      MapAppend(lines[1..i], lines[i], DataRow(header));
      SliceExtend(lines, 1, i);
      rows := rows + [row];
    }
  }

  /** `parseExpenseCsv`: no rows unless there is a header and at least one data line;
      then one row per non-blank data line, keyed by the header names. */
  method ParseExpenseCsv(text: string) returns (rows: seq<map<string, string>>)
    ensures rows == CsvRows(text)
    ensures var lines := CsvLines(text);
      && (|lines| < 2 ==> rows == [])
      && (|lines| >= 2 ==>
        && |rows| == |lines| - 1
        && forall i :: 0 <= i < |rows| ==> rows[i] == RowOf(HeaderNames(lines[0]), Fields(lines[i + 1])))
  {
    var lines := CsvLines(text);
    rows := ParseLines(lines);
  }
}
