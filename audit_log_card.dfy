/**
 * The activity log card `AuditLogCard.jsx`: the audit entries the API's `audit` mode
 * returns, as a table on screen and as CSV and PDF exports, all three with one row
 * per entry in log order. In local mode there is no log: the card shows a notice and
 * offers no export.
 *
 * How numbers print (`String(n)` and `toLocaleString`) is a parameter.
 */
module AuditLogCard {
  import opened Wrappers
  import opened Text
  import opened Seqs
  import opened Records
  import opened Csv
  import opened Currency

  /** One entry as the client receives it; `None` is a null or missing field (the
      expense fields come from a left join and are null for a deleted expense). */
  datatype LogEntry = LogEntry(
    id: Option<Id>,
    createdAt: Option<string>,
    action: Option<string>,
    userName: Option<string>,
    expenseId: Option<Id>,
    expenseDate: Option<string>,
    amount: Option<real>,
    currency: Option<string>,
    description: Option<string>)

  const Headers: seq<string> :=
    ["Date & time", "Action", "User", "Expense #", "Expense date", "Amount", "Description"]

  /** The first `n` characters: `s.slice(0, n)`. */
  function Prefix(s: string, n: nat): (p: string)
    ensures |p| == if |s| < n then |s| else n
    ensures p == s[..|p|]
  {
    if |s| <= n then s else s[..n]
  }

  /** `auditLog || []`: a missing log is an empty one. */
  function Entries(auditLog: Option<seq<LogEntry>>): seq<LogEntry> {
    auditLog.GetOr([])
  }

  /** One CSV row: every missing field is blank. */
  function CsvRow(a: LogEntry): seq<Cell> {
    [Text(a.createdAt.GetOr("")),
     Text(a.action.GetOr("")),
     Text(a.userName.GetOr("")),
     Text(if a.expenseId.Some? then IdText(a.expenseId.value) else ""),
     Text(a.expenseDate.GetOr("")),
     if a.amount.Some? then Num(a.amount.value) else Text(""),
     Text(a.description.GetOr(""))]
  }

  function CsvRows(auditLog: Option<seq<LogEntry>>): (rows: seq<seq<Cell>>)
    ensures |rows| == |Entries(auditLog)|
    ensures forall i :: 0 <= i < |rows| ==> rows[i] == CsvRow(Entries(auditLog)[i])
  {
    Map(Entries(auditLog), CsvRow)
  }

  /** The CSV text handed to the download. */
  function CsvText(auditLog: Option<seq<LogEntry>>, numText: real -> string): string {
    Document(Headers, Map(CsvRows(auditLog), (row: seq<Cell>) => RenderRow(row, numText)))
  }

  /** One on-screen row: every missing field is "—", the amount is formatted in the
      entry's currency. */
  function ScreenRow(a: LogEntry, localeText: real -> string): seq<string> {
    [a.createdAt.GetOr("—"),
     a.action.GetOr("—"),
     a.userName.GetOr("—"),
     if a.expenseId.Some? then IdText(a.expenseId.value) else "—",
     a.expenseDate.GetOr("—"),
     if a.amount.Some? then FormatAmount(a.amount, a.currency, localeText) else "—",
     a.description.GetOr("—")]
  }

  /** One PDF row: the on-screen row with the action cut to 20 characters, the user to
      15 and the description to 30. */
  function PdfRow(a: LogEntry, localeText: real -> string): seq<string> {
    [a.createdAt.GetOr("—"),
     Prefix(a.action.GetOr("—"), 20),
     Prefix(a.userName.GetOr("—"), 15),
     if a.expenseId.Some? then IdText(a.expenseId.value) else "—",
     a.expenseDate.GetOr("—"),
     if a.amount.Some? then FormatAmount(a.amount, a.currency, localeText) else "—",
     Prefix(a.description.GetOr("—"), 30)]
  }

  function PdfRows(auditLog: Option<seq<LogEntry>>, localeText: real -> string): (rows: seq<seq<string>>)
    ensures |rows| == |Entries(auditLog)|
    ensures forall i :: 0 <= i < |rows| ==> rows[i] == PdfRow(Entries(auditLog)[i], localeText)
  {
    Map(Entries(auditLog), (a: LogEntry) => PdfRow(a, localeText))
  }

  /** The card's body: the local-mode notice, or the table, whose body is the rows or,
      for an empty log, one "No activity yet." cell spanning all seven columns. */
  datatype Body =
    | LocalNotice
    | Table(rows: seq<seq<string>>)
    | EmptyTable(colSpan: nat)

  /** The card: its body, and whether the CSV and PDF buttons are offered. */
  datatype CardView = CardView(body: Body, exports: bool)

  function View(auditLog: Option<seq<LogEntry>>, isLocal: bool, localeText: real -> string): CardView {
    var list := Entries(auditLog);
    var body :=
      if isLocal then LocalNotice
      else if list == [] then EmptyTable(|Headers|)
      else Table(Map(list, (a: LogEntry) => ScreenRow(a, localeText)));
    CardView(body, !isLocal)
  }

  /** Local mode shows the notice and offers no export; otherwise both exports are
      offered and the table has a row per entry, or the seven-column empty row. */
  lemma ViewCases(auditLog: Option<seq<LogEntry>>, isLocal: bool, localeText: real -> string)
    ensures var v := View(auditLog, isLocal, localeText);
      (v.exports <==> !isLocal)
      && (isLocal <==> v.body.LocalNotice?)
      && (v.body.EmptyTable? <==> !isLocal && Entries(auditLog) == [])
      && (v.body.EmptyTable? ==> v.body.colSpan == 7)
      && (v.body.Table? ==> |v.body.rows| == |Entries(auditLog)|)
  {
  }

  /** Each PDF cell is the on-screen cell, or for the three long columns its first
      20, 15 or 30 characters; a cell short enough is not cut. */
  lemma PdfCutsScreenRow(a: LogEntry, localeText: real -> string)
    ensures var s := ScreenRow(a, localeText);
      var p := PdfRow(a, localeText);
      |s| == |p| == 7
      && (forall j :: 0 <= j < 7 && j != 1 && j != 2 && j != 6 ==> p[j] == s[j])
      && p[1] == s[1][..|p[1]|] && |p[1]| == (if |s[1]| < 20 then |s[1]| else 20)
      && p[2] == s[2][..|p[2]|] && |p[2]| == (if |s[2]| < 15 then |s[2]| else 15)
      && p[6] == s[6][..|p[6]|] && |p[6]| == (if |s[6]| < 30 then |s[6]| else 30)
  {
  }

  /** A field is blank in the CSV exactly when it is missing or itself empty, and the
      screen and the PDF show "—" for it exactly when it is missing (or is "—"). */
  lemma MissingFields(a: LogEntry, numText: real -> string, localeText: real -> string)
    requires forall r :: numText(r) != ""
    ensures var c := RenderRow(CsvRow(a), numText);
      var s := ScreenRow(a, localeText);
      |c| == 7
      && (c[0] == "" <==> a.createdAt.None? || a.createdAt == Some(""))
      && (c[5] == "" <==> a.amount.None?)
      && (s[5] == "—" <==> a.amount.None?)
      && (s[0] == "—" <==> a.createdAt.None? || a.createdAt == Some("—"))
      && (a.expenseId.None? ==> c[3] == "" && s[3] == "—")
  {
    FormatAmountNotDash(a.amount, a.currency, localeText);
  }

  /** The exports and the table hold the same entries in the same order: row `i` of
      each is built from entry `i` of the log. */
  lemma RowsInLogOrder(auditLog: Option<seq<LogEntry>>, localeText: real -> string)
    requires Entries(auditLog) != []
    ensures var v := View(auditLog, false, localeText);
      v.body.Table? && |v.body.rows| == |CsvRows(auditLog)| == |PdfRows(auditLog, localeText)|
      && forall i :: 0 <= i < |v.body.rows| ==>
        v.body.rows[i] == ScreenRow(Entries(auditLog)[i], localeText)
        && CsvRows(auditLog)[i] == CsvRow(Entries(auditLog)[i])
        && PdfRows(auditLog, localeText)[i] == PdfRow(Entries(auditLog)[i], localeText)
  {
  }

  /** A missing log exports just the header. */
  lemma MissingLogIsEmpty(numText: real -> string)
    ensures CsvText(None, numText) == [Bom] + Line(Headers)
  {
    assert Map(CsvRows(None), (row: seq<Cell>) => RenderRow(row, numText)) == [];
    assert [Line(Headers)] + Map([], Line) == [Line(Headers)];
  }
}
