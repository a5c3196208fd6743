/**
 * The records the client holds: expense rows (as returned by the expenses list endpoint
 * or kept by the local store), summary rows, user references and the query filters.
 */
module Records {
  import opened Wrappers
  import opened Text

  /** A record id. Ids come back as numbers, but form controls hand them round as
      strings; the client always compares them through `String(id)`. */
  datatype Id = NumId(n: int) | TextId(text: string)

  /** `String(id)` */
  function IdText(id: Id): string {
    match id
    case NumId(n) => IntToString(n)
    case TextId(t) => t
  }

  /** `String(x)` of an id that may be null. */
  function OptIdText(id: Option<Id>): string {
    if id.None? then "null" else IdText(id.value)
  }

  /** The stored `receipt_url`: absent or null, a single string, or a list whose
      entries may be null. */
  datatype ReceiptValue = NoReceipt | ReceiptText(text: string) | ReceiptList(items: seq<Option<string>>)

  /** One expense row. `None` stands for a null or missing field. Amounts are the
      numeric value of the stored amount. */
  datatype Expense = Expense(
    id: Id,
    expenseDate: Option<string>,
    amount: Option<real>,
    currency: Option<string>,
    description: Option<string>,
    paymentMethod: Option<string>,
    userId: Option<Id>,
    userName: Option<string>,
    supplierId: Option<Id>,
    supplierName: Option<string>,
    categoryId: Option<Id>,
    categoryName: Option<string>,
    addedByName: Option<string>,
    removedAt: Option<string>,
    removedByName: Option<string>,
    receiptUrl: ReceiptValue)

  /** `!x` for a string that may be null: null and "" are falsy. */
  predicate Falsy(x: Option<string>) { x.None? || x.value == "" }

  /** `x || d` for a string that may be null. */
  function OrText(x: Option<string>, d: string): string {
    if Falsy(x) then d else x.value
  }

  /** A soft-removed row has a truthy `removed_at`. */
  predicate IsRemoved(e: Expense) { !Falsy(e.removedAt) }

  predicate IsActive(e: Expense) { !IsRemoved(e) }

  /** `Number(e.amount ?? 0)` (equally `Number(e.amount) || 0` and `Number(e.amount || 0)`). */
  function AmountOf(e: Expense): real { e.amount.GetOr(0.0) }

  /** A summary row: client rows carry `USD`/`BWP`/`totalInUsdEquiv`, server and
      local-store rows carry `total`; the label is in `name`, `supplier` or `category`. */
  datatype SummaryItem = SummaryItem(
    id: Option<Id>,
    name: Option<string>,
    supplier: Option<string>,
    supplierName: Option<string>,
    category: Option<string>,
    categoryName: Option<string>,
    usd: Option<real>,
    bwp: Option<real>,
    totalInUsdEquiv: Option<real>,
    total: Option<real>)

  /** A row carrying only a label field and a total, as the server and the local store
      produce. */
  function TotalRow(id: Option<Id>, name: Option<string>, supplier: Option<string>,
                    category: Option<string>, total: real): SummaryItem {
    SummaryItem(id, name, supplier, None, category, None, None, None, None, Some(total))
  }

  /** A user as the client lists them. */
  datatype UserRef = UserRef(id: Id, name: Option<string>)

  /** The list filters as sent to the server (`""` means not set). */
  datatype Filters = Filters(from: string, to: string, userId: string, supplierId: string, categoryId: string)
}
