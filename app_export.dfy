/**
 * The App's "Export CSV" of the expense list (`exportToCsv` in src/App.jsx): a fixed
 * ten-column header, one row per displayed expense, removed rows with their amount
 * negated, and the document written as the shared CSV writer writes it.
 */
module AppExport {
  import opened Wrappers
  import opened Text
  import opened Seqs
  import opened Records
  import opened Csv
  import opened ExpenseList

  const ExportHeaders: seq<string> :=
    ["Date", "Description", "Amount", "Currency", "Supplier", "Category", "Added by",
     "Paid for", "Removed by", "Receipt URL"]

  /** The exported amount: the stored amount, negated for a removed row. */
  function ExportedAmount(e: Expense): (a: real)
    ensures IsActive(e) ==> a == AmountOf(e)
    ensures IsRemoved(e) ==> a == -AmountOf(e)
  {
    if IsRemoved(e) then -AmountOf(e) else AmountOf(e)
  }

  /** One exported row, column by column under `ExportHeaders`. */
  function ExportRow(e: Expense, users: seq<UserRef>): (row: seq<Cell>)
    ensures |row| == |ExportHeaders|
    ensures row[2] == Num(ExportedAmount(e))
    ensures IsActive(e) ==> row[8] == Text("")
    ensures row[3] == Text(ToUpper(OrText(e.currency, "USD")))
  {
    [Text(e.expenseDate.GetOr("")),
     Text(e.description.GetOr("")),
     Num(ExportedAmount(e)),
     Text(ToUpper(OrText(e.currency, "USD"))),
     Text(e.supplierName.GetOr("")),
     Text(e.categoryName.GetOr("")),
     Text(e.addedByName.GetOr("")),
     Text(PaidFor(e, users, "—")),
     Text(if IsRemoved(e) then e.removedByName.GetOr("") else ""),
     Text(Join(ReceiptUrls(e.receiptUrl), "; "))]
  }

  /** The rows as text, given how numbers print. */
  function ExportTexts(display: seq<Expense>, users: seq<UserRef>, numText: real -> string): (rows: seq<seq<string>>)
    ensures |rows| == |display|
    ensures forall i :: 0 <= i < |rows| ==> rows[i] == RenderRow(ExportRow(display[i], users), numText)
  {
    Map(display, (e: Expense) => RenderRow(ExportRow(e, users), numText))
  }

  /** The text handed to the download: byte-order mark, header line, one line per row. */
  function ExportCsv(display: seq<Expense>, users: seq<UserRef>, numText: real -> string): (text: string)
    ensures text != [] && text[0] == Bom
  {
    Document(ExportHeaders, ExportTexts(display, users, numText))
  }

  lemma HeadersPlain()
    ensures ExportHeaders != [] && forall j :: 0 <= j < |ExportHeaders| ==> Plain(ExportHeaders[j])
  {
    FrontHeadersPlain();
    BackHeadersPlain();
  }

  lemma FrontHeadersPlain()
    ensures forall j :: 0 <= j < 5 ==> Plain(ExportHeaders[j])
  {
  }

  lemma BackHeadersPlain()
    ensures forall j :: 5 <= j < 10 ==> Plain(ExportHeaders[j])
  {
  }

  lemma RowPlain(e: Expense, users: seq<UserRef>, numText: real -> string)
    requires forall j :: 0 <= j < |ExportHeaders| ==> Plain(Render(ExportRow(e, users)[j], numText))
    ensures RenderRow(ExportRow(e, users), numText) != []
    ensures forall j :: 0 <= j < |RenderRow(ExportRow(e, users), numText)| ==>
      Plain(RenderRow(ExportRow(e, users), numText)[j])
  {
  }

  /** When no field needs quoting, the export reads back as the header followed by exactly
      one row per displayed expense, in display order. */
  lemma ExportReadBack(display: seq<Expense>, users: seq<UserRef>, numText: real -> string)
    requires forall i, j :: 0 <= i < |display| && 0 <= j < |ExportHeaders| ==>
      Plain(Render(ExportRow(display[i], users)[j], numText))
    ensures ReadDocument(ExportCsv(display, users, numText)) == [ExportHeaders] + ExportTexts(display, users, numText)
  {
    var rows := ExportTexts(display, users, numText);
    forall r | r in rows
      ensures r != [] && forall j :: 0 <= j < |r| ==> Plain(r[j])
    {
      var i :| 0 <= i < |rows| && rows[i] == r;
      RowPlain(display[i], users, numText);
    }
    HeadersPlain();
    DocumentReadBack(ExportHeaders, rows);
  }

  function Negated(e: Expense): real { -AmountOf(e) }

  lemma {:induction false} SumNegated(s: seq<Expense>)
    ensures Sum(s, Negated) == -Sum(s, AmountOf)
  {
    if s != [] {
      SumNegated(s[..|s| - 1]);
    }
  }

  /** On active rows the exported amount is the stored one. */
  lemma ActiveColumn(display: seq<Expense>)
    ensures Sum(Filter(display, IsActive), ExportedAmount) == Sum(Filter(display, IsActive), AmountOf)
  {
    var active := Filter(display, IsActive);
    assert forall i :: 0 <= i < |active| ==> IsActive(active[i]);
    SumCongruent(active, ExportedAmount, AmountOf);
  }

  /** On removed rows the exported amount is the stored one negated. */
  lemma RemovedColumn(display: seq<Expense>)
    ensures Sum(Filter(display, IsRemoved), ExportedAmount) == -Sum(Filter(display, IsRemoved), AmountOf)
  {
    var removed := Filter(display, IsRemoved);
    assert forall i :: 0 <= i < |removed| ==> IsRemoved(removed[i]);
    SumCongruent(removed, ExportedAmount, Negated);
    SumNegated(removed);
  }

  /** The amount column nets out: it adds up to the active rows' amounts less the removed
      rows' amounts. */
  lemma ExportAmountsNet(display: seq<Expense>)
    ensures Sum(display, ExportedAmount)
         == Sum(Filter(display, IsActive), AmountOf) - Sum(Filter(display, IsRemoved), AmountOf)
  {
    SumPartition(display, ExportedAmount, IsActive, IsRemoved);
    ActiveColumn(display);
    RemovedColumn(display);
  }
}
