/**
 * The expense list table `ExpensesTable.jsx`: eleven columns, nine of which sort
 * the list when their header is clicked, and one row per expense with its receipt
 * links and its remove action.
 *
 * How amounts print (`toLocaleString`) and who may remove an expense are parameters.
 */
module ExpensesTable {
  import opened Wrappers
  import opened Text
  import opened Seqs
  import opened Records
  import opened Currency
  import opened ExpenseList

  /** A header: the key it sorts by (`None` for a header without a sort button) and
      its label. */
  datatype Column = Column(key: Option<SortColumn>, caption: string)

  const Columns: seq<Column> := [
    Column(Some(ByDate), "Date"),
    Column(Some(ByDescription), "Description"),
    Column(Some(ByAmount), "Amount"),
    Column(Some(ByCurrency), "Curr"),
    Column(Some(BySupplierName), "Supplier"),
    Column(Some(ByCategoryName), "Category"),
    Column(Some(ByAddedBy), "Added by"),
    Column(Some(ByPaidFor), "Paid for"),
    Column(Some(ByRemovedBy), "Removed by"),
    Column(None, "Receipt"),
    Column(None, "Action")
  ]

  /** The sort a click on a header asks for: none for a header without a key; the
      other direction for the column already sorted by; ascending for another one. */
  function HeaderClick(col: Column, sortBy: SortColumn, sortDir: SortDir): Option<(SortColumn, SortDir)> {
    if col.key.None? then None
    else if col.key.value == sortBy then Some((sortBy, if sortDir == Asc then Desc else Asc))
    else Some((col.key.value, Asc))
  }

  /** The arrow beside the sorted column's label. */
  function SortIcon(col: Column, sortBy: SortColumn, sortDir: SortDir): Option<string> {
    if col.key == Some(sortBy) then Some(if sortDir == Asc then " ↑" else " ↓") else None
  }

  /** Eleven columns; the last two, Receipt and Action, have no key; the nine keys are
      distinct, so at most one header carries the arrow. */
  lemma ColumnsShape()
    ensures |Columns| == 11
    ensures forall i :: 0 <= i < |Columns| ==> (Columns[i].key.None? <==> i >= 9)
    ensures Columns[9].caption == "Receipt" && Columns[10].caption == "Action"
    ensures forall i, j :: 0 <= i < j < |Columns| && Columns[i].key.Some? ==> Columns[i].key != Columns[j].key
  {
  }

  /** A click on the sorted column flips the direction; a click on another sortable
      column sorts by it ascending; Receipt and Action do nothing. */
  lemma HeaderClickToggles(col: Column, sortBy: SortColumn, sortDir: SortDir)
    ensures var r := HeaderClick(col, sortBy, sortDir);
      (r.None? <==> col.key.None?)
      && (col.key == Some(sortBy) ==> r == Some((sortBy, if sortDir == Asc then Desc else Asc)) && r.value.1 != sortDir)
      && (col.key.Some? && col.key != Some(sortBy) ==> r == Some((col.key.value, Asc)))
  {
  }

  /** Two clicks on the same sortable header come back to the sort before them when
      it was already by that column, and otherwise end sorted by it descending. */
  lemma DoubleClick(col: Column, sortBy: SortColumn, sortDir: SortDir)
    requires col.key.Some?
    ensures var once := HeaderClick(col, sortBy, sortDir).value;
      var twice := HeaderClick(col, once.0, once.1).value;
      (col.key == Some(sortBy) ==> twice == (sortBy, sortDir))
      && (col.key != Some(sortBy) ==> twice == (col.key.value, Desc))
  {
  }

  /** After a click the arrow sits on the clicked column and shows the new direction. */
  lemma IconFollowsClick(col: Column, sortBy: SortColumn, sortDir: SortDir)
    requires col.key.Some?
    ensures var next := HeaderClick(col, sortBy, sortDir).value;
      SortIcon(col, next.0, next.1) == Some(if next.1 == Asc then " ↑" else " ↓")
  {
  }

  /** The receipt cell's link: nothing or "—" without a receipt, a "View" link for a
      single one, and a "View all (n)" button for several. */
  datatype ReceiptLink = NoLink | Dash | ViewOne(url: string) | ViewAll(count: nat)

  /** `ReceiptCell`: the link, and whether an "Attach" button follows it. */
  datatype ReceiptView = ReceiptView(link: ReceiptLink, attach: bool)

  function ReceiptCell(urls: seq<string>, removed: bool): ReceiptView {
    if |urls| == 0 then ReceiptView(if removed then Dash else NoLink, !removed)
    else if |urls| == 1 then ReceiptView(ViewOne(urls[0]), !removed)
    else ReceiptView(ViewAll(|urls|), !removed)
  }

  /** The receipt cell's cases: attaching is offered exactly for a row that is not
      removed; the link depends only on the number of URLs, except that a removed row
      without a receipt shows "—". */
  lemma ReceiptCellCases(urls: seq<string>, removed: bool)
    ensures var v := ReceiptCell(urls, removed);
      (v.attach <==> !removed)
      && (v.link == NoLink <==> urls == [] && !removed)
      && (v.link == Dash <==> urls == [] && removed)
      && (v.link.ViewOne? <==> |urls| == 1) && (v.link.ViewOne? ==> v.link.url == urls[0])
      && (v.link.ViewAll? <==> |urls| >= 2) && (v.link.ViewAll? ==> v.link.count == |urls|)
  {
  }

  /** The action cell: "Removed" for a removed row, a Remove button for a row the user
      may remove, and "—" otherwise. */
  datatype ActionView = RemovedNote | RemoveButton(id: Id) | NoAction

  /** One table row: whether it is styled as removed, its nine text cells (in column
      order), the receipt cell and the action cell. */
  datatype RowView = RowView(struck: bool, cells: seq<string>, receipt: ReceiptView, action: ActionView)

  function Row(e: Expense, users: seq<UserRef>, canDelete: Expense -> bool, localeText: real -> string): RowView {
    var removed := IsRemoved(e);
    RowView(
      removed,
      [e.expenseDate.GetOr(""),
       OrText(e.description, "—"),
       FormatAmount(e.amount, e.currency, localeText),
       CurrencyCode(e.currency),
       e.supplierName.GetOr("—"),
       e.categoryName.GetOr("—"),
       e.addedByName.GetOr("—"),
       PaidFor(e, users, "—"),
       if removed then e.removedByName.GetOr("—") else "—"],
      ReceiptCell(ReceiptUrls(e.receiptUrl), removed),
      if removed then RemovedNote else if canDelete(e) then RemoveButton(e.id) else NoAction)
  }

  /** The table body: the rows, or one placeholder cell spanning every column. */
  datatype BodyView = Rows(rows: seq<RowView>) | Placeholder(colSpan: nat)

  function Body(sorted: seq<Expense>, users: seq<UserRef>, canDelete: Expense -> bool,
                localeText: real -> string): BodyView {
    if sorted == [] then Placeholder(|Columns|)
    else Rows(Map(sorted, (e: Expense) => Row(e, users, canDelete, localeText)))
  }

  /** A row's cells: one per column, the receipt and action cells aside; a removed row
      says "Removed" and names who removed it (or "—"), an active row says "—" there and
      offers Remove exactly when the user may remove it. */
  lemma RowCases(e: Expense, users: seq<UserRef>, canDelete: Expense -> bool, localeText: real -> string)
    ensures var r := Row(e, users, canDelete, localeText);
      |r.cells| + 2 == |Columns|
      && (r.struck <==> IsRemoved(e))
      && (r.action == RemovedNote <==> IsRemoved(e))
      && (r.action.RemoveButton? <==> IsActive(e) && canDelete(e))
      && (r.action.RemoveButton? ==> r.action.id == e.id)
      && (IsActive(e) ==> r.cells[8] == "—")
      && (IsRemoved(e) && e.removedByName.Some? ==> r.cells[8] == e.removedByName.value)
      && (r.receipt.attach <==> IsActive(e))
  {
  }

  /** An empty list shows exactly one placeholder spanning all eleven columns; any
      other list shows one row per expense, in the order given. */
  lemma BodyCases(sorted: seq<Expense>, users: seq<UserRef>, canDelete: Expense -> bool, localeText: real -> string)
    ensures var b := Body(sorted, users, canDelete, localeText);
      (b.Placeholder? <==> sorted == [])
      && (b.Placeholder? ==> b.colSpan == 11)
      && (b.Rows? ==> |b.rows| == |sorted|)
      && (b.Rows? ==> forall i :: 0 <= i < |sorted| ==> b.rows[i] == Row(sorted[i], users, canDelete, localeText))
  {
  }
}
