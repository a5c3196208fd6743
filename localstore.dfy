/**
 * The local-mode store: the users, suppliers, categories and expenses the client keeps
 * in the browser when it runs without a server, with id allocation, appends, a hard
 * delete, the receipt-only update, and the filter and aggregate queries run over it.
 */
module LocalMode {
  import opened Wrappers
  import opened Text
  import opened Seqs
  import opened Numbers
  import opened Records
  import opened Grouping
  import opened Sorting
  import JsValues

  /** A stored user, supplier or category. */
  datatype Named = Named(id: Id, name: string)

  // ---------------------------------------------------------------- ids

  /** `Number(x.id) || 0` */
  function IdNumber(id: Id): int {
    match id
    case NumId(n) => n
    case TextId(t) => JsIntText(t).GetOr(0)
  }

  /** `Math.max(...ids.map((id) => Number(id) || 0), 0)` */
  function MaxIdNumber(ids: seq<Id>): (r: int)
    ensures r >= 0
    ensures forall i :: 0 <= i < |ids| ==> IdNumber(ids[i]) <= r
    ensures r == 0 || exists i :: 0 <= i < |ids| && IdNumber(ids[i]) == r
  {
    if ids == [] then 0
    else
      var rest := MaxIdNumber(ids[1..]);
      if IdNumber(ids[0]) > rest then IdNumber(ids[0])
      else
        assert rest != 0 ==> exists i :: 0 <= i < |ids| && IdNumber(ids[i]) == rest by {
          if rest != 0 {
            var i :| 0 <= i < |ids[1..]| && IdNumber(ids[1..][i]) == rest;
            assert IdNumber(ids[i + 1]) == rest;
          }
        }
        rest
  }

  /** `nextId`: 1 for an empty table, otherwise one more than the largest numeric id
      (an id that is not a number counts as 0). */
  function NextId(ids: seq<Id>): (r: int)
    ensures ids == [] ==> r == 1
    ensures r >= 1
    ensures forall i :: 0 <= i < |ids| ==> IdNumber(ids[i]) < r
    ensures r == 1 || exists i :: 0 <= i < |ids| && IdNumber(ids[i]) == r - 1
  {
    if ids == [] then 1 else MaxIdNumber(ids) + 1
  }

  /** The new id is fresh: compared as text, as the client compares ids, it equals no
      existing id. */
  lemma NextIdFresh(ids: seq<Id>)
    ensures forall i :: 0 <= i < |ids| ==> IdText(ids[i]) != IntToString(NextId(ids))
  {
    var r := NextId(ids);
    forall i | 0 <= i < |ids|
      ensures IdText(ids[i]) != IntToString(r)
    {
      if IdText(ids[i]) == IntToString(r) {
        match ids[i]
        case NumId(n) =>
          IntToStringInjective(n, r);
        case TextId(t) =>
          JsIntTextOfInt(r);
      }
    }
  }

  function NamedIds(list: seq<Named>): seq<Id> { Map(list, (x: Named) => x.id) }

  function ExpenseIds(list: seq<Expense>): seq<Id> { Map(list, (e: Expense) => e.id) }

  /** The entry `addUser`, `addSupplier` or `addCategory` appends: the next id, and the
      trimmed name, or `prefix` followed by the id when the trimmed name is empty. */
  function NewNamed(list: seq<Named>, name: string, prefix: string): Named {
    var id := NextId(NamedIds(list));
    Named(NumId(id), if JsTrim(name) == "" then prefix + IntToString(id) else JsTrim(name))
  }

  /** The appended entry has an id no existing entry has, and a name that is never
      blank: the trimmed name, or the prefix and the id. */
  lemma NewNamedSpec(list: seq<Named>, name: string, prefix: string)
    ensures var x := NewNamed(list, name, prefix);
      && (forall i :: 0 <= i < |list| ==> IdText(list[i].id) != IdText(x.id))
      && x.name != ""
      && (JsTrim(name) != "" ==> x.name == JsTrim(name))
      && (JsTrim(name) == "" ==> x.name == prefix + IdText(x.id))
  {
    var ids := NamedIds(list);
    NextIdFresh(ids);
    var x := NewNamed(list, name, prefix);
    forall i | 0 <= i < |list|
      ensures IdText(list[i].id) != IdText(x.id)
    {
      assert ids[i] == list[i].id;
    }
  }

  const DefaultUsers: seq<Named> := [Named(NumId(1), "Team Member 1"), Named(NumId(2), "Team Member 2")]

  const DefaultCategories: seq<Named> :=
    [Named(NumId(1), "Travel"), Named(NumId(2), "Meals"), Named(NumId(3), "Software"),
     Named(NumId(4), "Office"), Named(NumId(5), "Other")]

  /** The first entry whose id reads as `idText` (`list.find((x) => String(x.id) === idText)`). */
  function FindNamed(list: seq<Named>, idText: string): (r: Option<Named>)
    ensures r.Some? ==> r.value in list && IdText(r.value.id) == idText
    ensures r.None? <==> forall i :: 0 <= i < |list| ==> IdText(list[i].id) != idText
  {
    if list == [] then None
    else if IdText(list[0].id) == idText then Some(list[0])
    else FindNamed(list[1..], idText)
  }

  function NameOf(x: Option<Named>): Option<string> {
    if x.Some? then Some(x.value.name) else None
  }

  // ---------------------------------------------------------------- expense rows

  /** The object handed to `addExpense`; `None` for a missing or null field. */
  datatype NewExpense = NewExpense(
    expenseDate: Option<string>,
    amount: JsValues.Number,
    currency: Option<string>,
    userId: Option<Id>,
    supplierId: Option<Id>,
    categoryId: Option<Id>,
    description: Option<string>,
    paymentMethod: Option<string>,
    receiptUrl: Option<string>)

  /** `!id`: a missing id, 0 or "". */
  predicate IdFalsy(id: Option<Id>) {
    id.None? || id.value == NumId(0) || id.value == TextId("")
  }

  /** `Number(n) || 0` of a number. */
  function NumberOr0(n: JsValues.Number): real {
    if n.Finite? then n.r else 0.0
  }

  /** `Number(id)` as the id it becomes: numeric text turns into that number; anything
      else is NaN, whose text is "NaN". */
  function NumberId(id: Id): Id {
    match id
    case NumId(_) => id
    case TextId(t) => if JsIntText(t).Some? then NumId(JsIntText(t).value) else TextId("NaN")
  }

  /** The row `addExpense` stores under id `id`: defaults for the amount, currency and
      texts, and the names of the user, supplier and category that the given ids find. */
  function ExpenseRow(id: int, x: NewExpense, users: seq<Named>, suppliers: seq<Named>,
                      categories: seq<Named>): Expense {
    var user := if x.userId.None? then None else FindNamed(users, IdText(x.userId.value));
    var supplier := if IdFalsy(x.supplierId) then None else FindNamed(suppliers, IdText(x.supplierId.value));
    var category := if IdFalsy(x.categoryId) then None else FindNamed(categories, IdText(x.categoryId.value));
    Expense(
      NumId(id), x.expenseDate, Some(NumberOr0(x.amount)), Some(OrText(x.currency, "USD")),
      Some(OrText(x.description, "")), Some(OrText(x.paymentMethod, "")),
      if x.userId.None? then None else Some(NumberId(x.userId.value)), NameOf(user),
      if IdFalsy(x.supplierId) then None else x.supplierId, NameOf(supplier),
      if IdFalsy(x.categoryId) then None else x.categoryId, NameOf(category),
      None, None, None, ReceiptText(OrText(x.receiptUrl, "")))
  }

  /** What a stored row promises: a fresh id, an amount that is always a number, "USD"
      when no currency was given, and a name exactly when its id matches an entry. */
  lemma ExpenseRowSpec(expenses: seq<Expense>, x: NewExpense, users: seq<Named>,
                       suppliers: seq<Named>, categories: seq<Named>)
    ensures var e := ExpenseRow(NextId(ExpenseIds(expenses)), x, users, suppliers, categories);
      && (forall i :: 0 <= i < |expenses| ==> IdText(expenses[i].id) != IdText(e.id))
      && e.amount.Some?
      && (x.amount.Finite? ==> e.amount == Some(x.amount.r))
      && (Falsy(x.currency) ==> e.currency == Some("USD"))
      && (e.userName.Some? <==> x.userId.Some? && exists u :: u in users && IdText(u.id) == IdText(x.userId.value))
      && (e.supplierName.Some? <==> !IdFalsy(x.supplierId) && exists s :: s in suppliers && IdText(s.id) == IdText(x.supplierId.value))
      && (e.categoryName.Some? <==> !IdFalsy(x.categoryId) && exists c :: c in categories && IdText(c.id) == IdText(x.categoryId.value))
      && IsActive(e)
  {
    var ids := ExpenseIds(expenses);
    NextIdFresh(ids);
    forall i | 0 <= i < |expenses|
      ensures IdText(expenses[i].id) != IntToString(NextId(ids))
    {
      assert ids[i] == expenses[i].id;
    }
  }

  /** The position of the first row whose id reads like `id`, or -1. */
  function IndexOfId(list: seq<Expense>, id: Id): (i: int)
    ensures -1 <= i < |list|
    ensures i >= 0 ==> IdText(list[i].id) == IdText(id)
    ensures forall j :: 0 <= j < |list| && (i < 0 || j < i) ==> IdText(list[j].id) != IdText(id)
  {
    if list == [] then -1
    else if IdText(list[0].id) == IdText(id) then 0
    else
      var r := IndexOfId(list[1..], id);
      if r < 0 then -1 else r + 1
  }

  /** `updates.receipt_url || ""` */
  function ReceiptOrEmpty(v: ReceiptValue): ReceiptValue {
    if v.NoReceipt? || v == ReceiptText("") then ReceiptText("") else v
  }

  /** Rows whose id does not read like `id`. */
  function IsNotId(id: Id): Expense -> bool {
    (e: Expense) => IdText(e.id) != IdText(id)
  }

  // ---------------------------------------------------------------- the store

  class LocalStore {
    var users: seq<Named>
    var suppliers: seq<Named>
    var categories: seq<Named>
    var expenses: seq<Expense>

    /** The store over the tables as they were last saved. */
    constructor (users: seq<Named>, suppliers: seq<Named>, categories: seq<Named>, expenses: seq<Expense>)
      ensures this.users == users && this.suppliers == suppliers
      ensures this.categories == categories && this.expenses == expenses
    {
      this.users := users;
      this.suppliers := suppliers;
      this.categories := categories;
      this.expenses := expenses;
    }

    /** `ensureDefaults`: an empty user table gets the two team members, an empty
        category table the five stock categories; nothing else changes. */
    method EnsureDefaults()
      modifies this
      ensures users == if old(users) == [] then DefaultUsers else old(users)
      ensures categories == if old(categories) == [] then DefaultCategories else old(categories)
      ensures suppliers == old(suppliers) && expenses == old(expenses)
    {
      if users == [] {
        users := DefaultUsers;
      }
      if categories == [] {
        categories := DefaultCategories;
      }
    }

    /** `getUsers`: the user table after the defaults are in place, never empty. */
    method GetUsers() returns (r: seq<Named>)
      modifies this
      ensures users == if old(users) == [] then DefaultUsers else old(users)
      ensures categories == if old(categories) == [] then DefaultCategories else old(categories)
      ensures suppliers == old(suppliers) && expenses == old(expenses)
      ensures r == users && r != []
    {
      EnsureDefaults();
      r := users;
    }

    /** `getSuppliers`: the supplier table (the defaults are put in place first). */
    method GetSuppliers() returns (r: seq<Named>)
      modifies this
      ensures users == if old(users) == [] then DefaultUsers else old(users)
      ensures categories == if old(categories) == [] then DefaultCategories else old(categories)
      ensures suppliers == old(suppliers) && expenses == old(expenses)
      ensures r == suppliers
    {
      EnsureDefaults();
      r := suppliers;
    }

    /** `getCategories`: the category table after the defaults are in place, never empty. */
    method GetCategories() returns (r: seq<Named>)
      modifies this
      ensures users == if old(users) == [] then DefaultUsers else old(users)
      ensures categories == if old(categories) == [] then DefaultCategories else old(categories)
      ensures suppliers == old(suppliers) && expenses == old(expenses)
      ensures r == categories && r != []
    {
      EnsureDefaults();
      r := categories;
    }

    /** `addUser`: appends exactly one user with the next id and returns it. */
    method AddUser(name: string) returns (x: Named)
      modifies this
      ensures x == NewNamed(old(users), name, "User ")
      ensures users == old(users) + [x]
      ensures suppliers == old(suppliers) && categories == old(categories) && expenses == old(expenses)
    {
      x := NewNamed(users, name, "User ");
      users := users + [x];
    }

    /** `addSupplier`: appends exactly one supplier with the next id and returns it. */
    method AddSupplier(name: string) returns (x: Named)
      modifies this
      ensures x == NewNamed(old(suppliers), name, "Supplier ")
      ensures suppliers == old(suppliers) + [x]
      ensures users == old(users) && categories == old(categories) && expenses == old(expenses)
    {
      x := NewNamed(suppliers, name, "Supplier ");
      suppliers := suppliers + [x];
    }

    /** `addCategory`: appends exactly one category with the next id and returns it. */
    method AddCategory(name: string) returns (x: Named)
      modifies this
      ensures x == NewNamed(old(categories), name, "Category ")
      ensures categories == old(categories) + [x]
      ensures users == old(users) && suppliers == old(suppliers) && expenses == old(expenses)
    {
      x := NewNamed(categories, name, "Category ");
      categories := categories + [x];
    }

    /** `addExpense`: appends exactly one row, leaving the existing rows as they were. */
    method AddExpense(x: NewExpense) returns (row: Expense)
      modifies this
      ensures row == ExpenseRow(NextId(ExpenseIds(old(expenses))), x, users, suppliers, categories)
      ensures expenses == old(expenses) + [row]
      ensures users == old(users) && suppliers == old(suppliers) && categories == old(categories)
    {
      row := ExpenseRow(NextId(ExpenseIds(expenses)), x, users, suppliers, categories);
      expenses := expenses + [row];
    }

    /** `deleteExpense`: a hard delete of every row whose id reads like `id`. */
    method DeleteExpense(id: Id)
      modifies this
      ensures expenses == Filter(old(expenses), IsNotId(id))
      ensures users == old(users) && suppliers == old(suppliers) && categories == old(categories)
    {
      expenses := Filter(expenses, IsNotId(id));
    }

    /**
     * `updateExpense(id, { receipt_url })`: null when no row has the id; otherwise the
     * first such row, with only its receipt changed, and only when `receipt_url` is
     * given (`None` stands for an undefined key; a falsy value becomes "").
     */
    method UpdateExpense(id: Id, receiptUrl: Option<ReceiptValue>) returns (r: Option<Expense>)
      modifies this
      ensures var i := IndexOfId(old(expenses), id);
        && (i < 0 ==> r.None? && expenses == old(expenses))
        && (i >= 0 ==>
          && expenses == old(expenses)[i := old(expenses)[i].(receiptUrl :=
               if receiptUrl.Some? then ReceiptOrEmpty(receiptUrl.value) else old(expenses)[i].receiptUrl)]
          && r == Some(expenses[i]))
      ensures users == old(users) && suppliers == old(suppliers) && categories == old(categories)
    {
      var i := IndexOfId(expenses, id);
      if i < 0 {
        return None;
      }
      if receiptUrl.Some? {
        expenses := expenses[i := expenses[i].(receiptUrl := ReceiptOrEmpty(receiptUrl.value))];
      }
      r := Some(expenses[i]);
    }
  }

  /** Afterwards no row has the id, and every other row is still there, in order. */
  lemma DeleteExpenseSpec(expenses: seq<Expense>, id: Id)
    ensures var after := Filter(expenses, IsNotId(id));
      && (forall e :: e in after ==> IdText(e.id) != IdText(id))
      && (forall e :: e in expenses && IdText(e.id) != IdText(id) ==> e in after)
      && IsSubsequence(after, expenses)
  {
    FilterIsSubsequence(expenses, IsNotId(id));
  }

  /** An update for an id no row has changes nothing; for one that exists, only the
      receipt of one row can change, and the number of rows stays the same. */
  lemma UpdateTouchesOneRow(expenses: seq<Expense>, id: Id, v: ReceiptValue)
    requires IndexOfId(expenses, id) >= 0
    ensures var i := IndexOfId(expenses, id);
      var after := expenses[i := expenses[i].(receiptUrl := ReceiptOrEmpty(v))];
      && |after| == |expenses|
      && (forall j :: 0 <= j < |expenses| && j != i ==> after[j] == expenses[j])
      && after[i].(receiptUrl := expenses[i].receiptUrl) == expenses[i]
      && (v.ReceiptList? ==> after[i].receiptUrl == v)
      && (v.ReceiptText? && v.text != "" ==> after[i].receiptUrl == v)
      && (v.NoReceipt? ==> after[i].receiptUrl == ReceiptText(""))
  {
  }

  // ---------------------------------------------------------------- queries

  /** `list.filter(p)` when the criterion is set, the list itself otherwise. */
  function Stage(list: seq<Expense>, active: bool, p: Expense -> bool): seq<Expense> {
    if active then Filter(list, p) else list
  }

  /** `e.expense_date >= from` (a missing date compares false). */
  function OnOrAfter(from: string): Expense -> bool {
    (e: Expense) => e.expenseDate.Some? && LexLe(from, e.expenseDate.value)
  }

  /** `e.expense_date <= to` */
  function OnOrBefore(to: string): Expense -> bool {
    (e: Expense) => e.expenseDate.Some? && LexLe(e.expenseDate.value, to)
  }

  function UserIs(id: string): Expense -> bool { (e: Expense) => OptIdText(e.userId) == id }

  function SupplierIs(id: string): Expense -> bool { (e: Expense) => OptIdText(e.supplierId) == id }

  function CategoryIs(id: string): Expense -> bool { (e: Expense) => OptIdText(e.categoryId) == id }

  /** `queryExpenses(params)`: one filter per criterion that is set, in the order from,
      to, user, supplier, category. */
  function Query(list: seq<Expense>, f: Filters): seq<Expense> {
    var l1 := Stage(list, f.from != "", OnOrAfter(f.from));
    var l2 := Stage(l1, f.to != "", OnOrBefore(f.to));
    var l3 := Stage(l2, f.userId != "", UserIs(f.userId));
    var l4 := Stage(l3, f.supplierId != "", SupplierIs(f.supplierId));
    Stage(l4, f.categoryId != "", CategoryIs(f.categoryId))
  }

  /** A row meets every criterion that is set. */
  predicate Matches(f: Filters, e: Expense) {
    && (f.from == "" || OnOrAfter(f.from)(e))
    && (f.to == "" || OnOrBefore(f.to)(e))
    && (f.userId == "" || UserIs(f.userId)(e))
    && (f.supplierId == "" || SupplierIs(f.supplierId)(e))
    && (f.categoryId == "" || CategoryIs(f.categoryId)(e))
  }

  function MatchesAll(f: Filters): Expense -> bool { (e: Expense) => Matches(f, e) }

  lemma StageIsFilter(list: seq<Expense>, active: bool, p: Expense -> bool, q: Expense -> bool)
    requires forall e :: q(e) == (!active || p(e))
    ensures Stage(list, active, p) == Filter(list, q)
  {
    if active {
      FilterExt(list, p, q);
    } else {
      FilterAllKept(list, q);
    }
  }

  /** One more stage on top of a filter is a filter by the conjunction. */
  lemma StageOnFilter(list: seq<Expense>, c: Expense -> bool, active: bool, p: Expense -> bool,
                      q: Expense -> bool, c2: Expense -> bool)
    requires forall e :: q(e) == (!active || p(e))
    requires forall e :: c2(e) == (c(e) && q(e))
    ensures Stage(Filter(list, c), active, p) == Filter(list, c2)
  {
    StageIsFilter(Filter(list, c), active, p, q);
    FilterFilter(list, c, q, c2);
  }

  function Upto(f: Filters, n: nat): Expense -> bool {
    (e: Expense) =>
      && (n < 1 || f.from == "" || OnOrAfter(f.from)(e))
      && (n < 2 || f.to == "" || OnOrBefore(f.to)(e))
      && (n < 3 || f.userId == "" || UserIs(f.userId)(e))
      && (n < 4 || f.supplierId == "" || SupplierIs(f.supplierId)(e))
      && (n < 5 || f.categoryId == "" || CategoryIs(f.categoryId)(e))
  }

  /** The date-from stage is the filter by the first criterion. */
  lemma FromStage(list: seq<Expense>, f: Filters)
    ensures Stage(list, f.from != "", OnOrAfter(f.from)) == Filter(list, Upto(f, 1))
  {
    StageIsFilter(list, f.from != "", OnOrAfter(f.from), Upto(f, 1));
  }

  lemma ToStage(list: seq<Expense>, f: Filters)
    ensures Stage(Filter(list, Upto(f, 1)), f.to != "", OnOrBefore(f.to)) == Filter(list, Upto(f, 2))
  {
    StageOnFilter(list, Upto(f, 1), f.to != "", OnOrBefore(f.to),
                  (e: Expense) => f.to == "" || OnOrBefore(f.to)(e), Upto(f, 2));
  }

  lemma UserStage(list: seq<Expense>, f: Filters)
    ensures Stage(Filter(list, Upto(f, 2)), f.userId != "", UserIs(f.userId)) == Filter(list, Upto(f, 3))
  {
    StageOnFilter(list, Upto(f, 2), f.userId != "", UserIs(f.userId),
                  (e: Expense) => f.userId == "" || UserIs(f.userId)(e), Upto(f, 3));
  }

  lemma SupplierStage(list: seq<Expense>, f: Filters)
    ensures Stage(Filter(list, Upto(f, 3)), f.supplierId != "", SupplierIs(f.supplierId))
            == Filter(list, Upto(f, 4))
  {
    StageOnFilter(list, Upto(f, 3), f.supplierId != "", SupplierIs(f.supplierId),
                  (e: Expense) => f.supplierId == "" || SupplierIs(f.supplierId)(e), Upto(f, 4));
  }

  lemma CategoryStage(list: seq<Expense>, f: Filters)
    ensures Stage(Filter(list, Upto(f, 4)), f.categoryId != "", CategoryIs(f.categoryId))
            == Filter(list, MatchesAll(f))
  {
    StageOnFilter(list, Upto(f, 4), f.categoryId != "", CategoryIs(f.categoryId),
                  (e: Expense) => f.categoryId == "" || CategoryIs(f.categoryId)(e), Upto(f, 5));
    FilterExt(list, Upto(f, 5), MatchesAll(f));
  }

  /** The successive filters are one filter by the conjunction of the criteria. */
  lemma QueryIsFilter(list: seq<Expense>, f: Filters)
    ensures Query(list, f) == Filter(list, MatchesAll(f))
  {
    FromStage(list, f);
    ToStage(list, f);
    UserStage(list, f);
    SupplierStage(list, f);
    CategoryStage(list, f);
  }

  /**
   * `queryExpenses` keeps the order of the rows it returns, returns exactly the rows
   * meeting every criterion that is set, returns everything when none is set, and
   * applying it again to its own result changes nothing.
   */
  lemma QuerySpec(list: seq<Expense>, f: Filters)
    ensures IsSubsequence(Query(list, f), list)
    ensures forall e :: e in Query(list, f) <==> e in list && Matches(f, e)
    ensures f == Filters("", "", "", "", "") ==> Query(list, f) == list
    ensures Query(Query(list, f), f) == Query(list, f)
  {
    QueryIsFilter(list, f);
    FilterIsSubsequence(list, MatchesAll(f));
    FilterKeeps(list, MatchesAll(f));
    QueryIsFilter(Query(list, f), f);
    FilterIdempotent(list, MatchesAll(f));
  }

  /** `summaryTotal(params).total` over the queried rows. */
  function SummaryTotal(list: seq<Expense>): real {
    Sum(list, AmountOf)
  }

  // ---------------------------------------------------------------- per-name aggregates

  datatype NameKind = SupplierNames | CategoryNames

  /** `e.supplier_name || "Uncategorized"` or `e.category_name || "Uncategorized"`. */
  function NameKey(kind: NameKind): Expense -> string {
    (e: Expense) => OrText(if kind.SupplierNames? then e.supplierName else e.categoryName, "Uncategorized")
  }

  /** `{ supplier: name, total }` or `{ category: name, total }`. */
  function NameRow(kind: NameKind, name: string, total: real): SummaryItem {
    if kind.SupplierNames? then TotalRow(None, None, Some(name), None, total)
    else TotalRow(None, None, None, Some(name), total)
  }

  function TotalOf(r: SummaryItem): real { r.total.GetOr(0.0) }

  /** `map.get(k).total += Number(e.amount || 0)` */
  function AddTotal(r: SummaryItem, e: Expense): SummaryItem {
    r.(total := Some(TotalOf(r) + AmountOf(e)))
  }

  function NameInit(kind: NameKind): Expense -> SummaryItem {
    (e: Expense) => NameRow(kind, NameKey(kind)(e), 0.0)
  }

  /** The entry of a group of rows sharing one name. */
  function NameEntryOf(kind: NameKind): Group<Expense> -> SummaryItem {
    (g: Group<Expense>) => Entry(NameInit(kind), AddTotal, g.members).GetOr(NameRow(kind, g.key, 0.0))
  }

  /** The per-name rows in first-appearance order, before sorting. */
  function NameRows(kind: NameKind, list: seq<Expense>): seq<SummaryItem> {
    Map(GroupBy(list, NameKey(kind)), NameEntryOf(kind))
  }

  /** `b.total - a.total` as an ordering: larger totals first. */
  function ByTotalDesc(a: SummaryItem, b: SummaryItem): bool { TotalOf(a) >= TotalOf(b) }

  lemma ByTotalDescOrders()
    ensures TotalPreorder(ByTotalDesc)
  {
  }

  /** The accumulated entry of rows named `k` is `k` with the sum of their amounts. */
  lemma {:induction false} NameEntry(kind: NameKind, k: string, m: seq<Expense>)
    requires m != [] && forall e :: e in m ==> NameKey(kind)(e) == k
    ensures Entry(NameInit(kind), AddTotal, m) == Some(NameRow(kind, k, Sum(m, AmountOf)))
    decreases |m|
  {
    var m' := m[..|m| - 1];
    if m' != [] {
      assert forall e :: e in m' ==> e in m;
      NameEntry(kind, k, m');
    } else {
      assert m == [m[0]];
    }
  }

  /** Each per-name row carries a group's name and the sum of that group's amounts. */
  lemma NameRowsAreSums(kind: NameKind, list: seq<Expense>)
    ensures var gs := GroupBy(list, NameKey(kind));
      var rows := NameRows(kind, list);
      && |rows| == |gs| && KeysUnique(gs)
      && forall i :: 0 <= i < |gs| ==>
           rows[i] == NameRow(kind, gs[i].key, Sum(Filter(list, KeyIs(NameKey(kind), gs[i].key)), AmountOf))
  {
    var gs := GroupBy(list, NameKey(kind));
    GroupByShape(list, NameKey(kind));
    forall i | 0 <= i < |gs|
      ensures NameRows(kind, list)[i] == NameRow(kind, gs[i].key, Sum(gs[i].members, AmountOf))
    {
      assert forall e :: e in gs[i].members ==> NameKey(kind)(e) == gs[i].key;
      NameEntry(kind, gs[i].key, gs[i].members);
    }
  }

  /** The per-name totals add up to `summaryTotal` of the same rows. */
  lemma NameRowsAddUp(kind: NameKind, list: seq<Expense>)
    ensures Sum(NameRows(kind, list), TotalOf) == SummaryTotal(list)
  {
    var gs := GroupBy(list, NameKey(kind));
    SumMap(gs, NameEntryOf(kind), TotalOf, NameTotal(kind));
    NameTotals(kind, list);
    SumCongruent(gs, NameTotal(kind), GroupSum(AmountOf));
    GroupBySum(list, NameKey(kind), AmountOf);
  }

  /** The total of a group's entry. */
  function NameTotal(kind: NameKind): Group<Expense> -> real {
    (g: Group<Expense>) => TotalOf(NameEntryOf(kind)(g))
  }

  /** Each group's entry totals the group's amounts. */
  lemma NameTotals(kind: NameKind, list: seq<Expense>)
    ensures forall g :: g in GroupBy(list, NameKey(kind)) ==> NameTotal(kind)(g) == GroupSum(AmountOf)(g)
  {
    var gs := GroupBy(list, NameKey(kind));
    GroupByShape(list, NameKey(kind));
    forall g | g in gs
      ensures NameTotal(kind)(g) == GroupSum(AmountOf)(g)
    {
      var i :| 0 <= i < |gs| && gs[i] == g;
      NameGroupTotal(kind, list, g);
    }
  }

  /** The entry of one group of the rows named `g.key` totals the group's amounts. */
  lemma NameGroupTotal(kind: NameKind, list: seq<Expense>, g: Group<Expense>)
    requires g.members != [] && g.members == Filter(list, KeyIs(NameKey(kind), g.key))
    ensures NameTotal(kind)(g) == GroupSum(AmountOf)(g)
  {
    var m := g.members;
    forall e | e in m
      ensures NameKey(kind)(e) == g.key
    {
      var j :| 0 <= j < |m| && m[j] == e;
      assert KeyIs(NameKey(kind), g.key)(m[j]);
    }
    NameEntry(kind, g.key, m);
    assert NameEntryOf(kind)(g) == NameRow(kind, g.key, Sum(m, AmountOf));
  }

  /** `bySupplier(params)` or `byCategory(params)` over the queried rows `list`: the
      per-name rows sorted by total, largest first. */
  method ByName(kind: NameKind, list: seq<Expense>) returns (rows: seq<SummaryItem>)
    ensures multiset(rows) == multiset(NameRows(kind, list)) && |rows| == |NameRows(kind, list)|
    ensures SortedBy(rows, ByTotalDesc)
    ensures Sum(rows, TotalOf) == SummaryTotal(list)
  {
    var keys, accs := AccumulateByKey(list, NameKey(kind), NameInit(kind), AddTotal);
    ghost var gs := GroupBy(list, NameKey(kind));
    assert accs == NameRows(kind, list) by {
      assert forall i :: 0 <= i < |gs| ==> accs[i] == NameEntryOf(kind)(gs[i]);
    }
    ByTotalDescOrders();
    rows := SortedCopy(accs, ByTotalDesc);
    NameRowsAddUp(kind, list);
    SumPermutation(rows, accs, TotalOf);
  }

  // ---------------------------------------------------------------- per-user aggregate

  /** What goes into `byUser`'s `Map`: first every known user, then every queried row. */
  datatype UserItem = Seed(user: Named) | Spent(e: Expense)

  /** `String(u.id)` for a user; `e.user_id != null ? String(e.user_id) : "unknown"` for a row. */
  function UserKey(x: UserItem): string {
    match x
    case Seed(u) => IdText(u.id)
    case Spent(e) => if e.userId.None? then "unknown" else IdText(e.userId.value)
  }

  /** `{ id: u.id, name: u.name, total: 0 }` */
  function SeedRow(u: Named): SummaryItem {
    TotalRow(Some(u.id), Some(u.name), None, None, 0.0)
  }

  /** The entry a key starts with: the user's row, or for a row whose user is not known
      `{ id: e.user_id, name: e.user_name || "Unknown", total: 0 }`. */
  function UserInit(x: UserItem): SummaryItem {
    match x
    case Seed(u) => SeedRow(u)
    case Spent(e) => TotalRow(e.userId, Some(OrText(e.userName, "Unknown")), None, None, 0.0)
  }

  /** A user replaces the entry under its key (`map.set`); a row adds its amount. */
  function UserUpd(r: SummaryItem, x: UserItem): SummaryItem {
    match x
    case Seed(u) => SeedRow(u)
    case Spent(e) => AddTotal(r, e)
  }

  function UserItems(users: seq<Named>, list: seq<Expense>): seq<UserItem> {
    Map(users, (u: Named) => Seed(u)) + Map(list, (e: Expense) => Spent(e))
  }

  function UserEntryOf(g: Group<UserItem>): SummaryItem {
    Entry(UserInit, UserUpd, g.members).GetOr(TotalRow(None, None, None, None, 0.0))
  }

  /** `r.total > 0 || list.length === 0` */
  function Kept(list: seq<Expense>): SummaryItem -> bool {
    (r: SummaryItem) => TotalOf(r) > 0.0 || |list| == 0
  }

  /** The per-user entries in first-appearance order, before the zero rows are dropped. */
  function UserEntries(users: seq<Named>, list: seq<Expense>): seq<SummaryItem> {
    Map(GroupBy(UserItems(users, list), UserKey), UserEntryOf)
  }

  /** `byUser(params)` over the known users and the queried rows `list`. */
  function UserRows(users: seq<Named>, list: seq<Expense>): seq<SummaryItem> {
    Filter(UserEntries(users, list), Kept(list))
  }

  /** The amount a `Map` item contributes: a row's amount, nothing for a user. */
  function ItemAmount(x: UserItem): real {
    if x.Spent? then AmountOf(x.e) else 0.0
  }

  predicate AllSeeds(a: seq<UserItem>) { forall i :: 0 <= i < |a| ==> a[i].Seed? }

  predicate AllSpent(b: seq<UserItem>) { forall i :: 0 <= i < |b| ==> b[i].Spent? }

  /**
   * The entry of a key whose users come before its rows: the last such user's id and
   * name (or, with no such user, the first row's), and the sum of the rows' amounts.
   */
  lemma {:induction false} UserEntry(a: seq<UserItem>, b: seq<UserItem>)
    requires AllSeeds(a) && AllSpent(b) && a + b != []
    ensures var r := Entry(UserInit, UserUpd, a + b);
      && r.Some?
      && TotalOf(r.value) == Sum(b, ItemAmount)
      && (a != [] ==> r.value.(total := None) == SeedRow(a[|a| - 1].user).(total := None))
      && (a == [] ==> r.value.(total := None) == UserInit(b[0]).(total := None))
    decreases |b|
  {
    if b == [] {
      assert a + b == a;
    } else {
      var b' := b[..|b| - 1];
      assert (a + b)[..|a + b| - 1] == a + b';
      if a + b' != [] {
        UserEntry(a, b');
        if a == [] {
          assert b'[0] == b[0];
        }
      } else {
        assert b == [b[0]];
        assert b[..0] == [];
      }
    }
  }

  lemma SumSeeds(a: seq<UserItem>)
    requires AllSeeds(a)
    ensures Sum(a, ItemAmount) == 0.0
  {
    if a != [] {
      SumSeeds(a[..|a| - 1]);
    }
  }

  /** The `byUser` method's result: the `Map`'s entries after both passes, filtered. */
  method ByUser(users: seq<Named>, list: seq<Expense>) returns (rows: seq<SummaryItem>)
    ensures rows == UserRows(users, list)
  {
    var items := UserItems(users, list);
    var keys, accs := AccumulateByKey(items, UserKey, UserInit, UserUpd);
    ghost var gs := GroupBy(items, UserKey);
    assert accs == UserEntries(users, list) by {
      assert forall i :: 0 <= i < |gs| ==> accs[i] == UserEntryOf(gs[i]);
    }
    rows := Filter(accs, Kept(list));
  }

  /** A row's key in `byUser`. */
  function RowUserKey(e: Expense): string { UserKey(Spent(e)) }

  /** A group of `byUser`'s `Map` holds the users with its key, then the rows with it. */
  lemma UserGroup(users: seq<Named>, list: seq<Expense>, g: Group<UserItem>)
    requires g in GroupBy(UserItems(users, list), UserKey)
    ensures var a := Filter(Map(users, (u: Named) => Seed(u)), KeyIs(UserKey, g.key));
      var b := Map(Filter(list, KeyIs(RowUserKey, g.key)), (e: Expense) => Spent(e));
      && g.members == a + b && AllSeeds(a) && AllSpent(b) && a + b != []
      && Sum(b, ItemAmount) == Sum(Filter(list, KeyIs(RowUserKey, g.key)), AmountOf)
  {
    var seeds := Map(users, (u: Named) => Seed(u));
    var spent := Map(list, (e: Expense) => Spent(e));
    var items := UserItems(users, list);
    var k := KeyIs(UserKey, g.key);
    GroupByShape(items, UserKey);
    FilterAppend(seeds, spent, k);
    FilterMap(list, (e: Expense) => Spent(e), k, KeyIs(RowUserKey, g.key));
    SumMap(Filter(list, KeyIs(RowUserKey, g.key)), (e: Expense) => Spent(e), ItemAmount, AmountOf);
  }

  /** Before the zero rows are dropped, the per-user totals add up to `summaryTotal`. */
  lemma UserEntriesAddUp(users: seq<Named>, list: seq<Expense>)
    ensures Sum(UserEntries(users, list), TotalOf) == SummaryTotal(list)
  {
    var items := UserItems(users, list);
    var seeds := Map(users, (u: Named) => Seed(u));
    var spent := Map(list, (e: Expense) => Spent(e));
    var gs := GroupBy(items, UserKey);
    var h := (g: Group<UserItem>) => TotalOf(UserEntryOf(g));
    forall g | g in gs
      ensures h(g) == GroupSum(ItemAmount)(g)
    {
      UserGroup(users, list, g);
      var a := Filter(seeds, KeyIs(UserKey, g.key));
      var b := Map(Filter(list, KeyIs(RowUserKey, g.key)), (e: Expense) => Spent(e));
      UserEntry(a, b);
      SumAppend(a, b, ItemAmount);
      SumSeeds(a);
    }
    SumMap(gs, UserEntryOf, TotalOf, h);
    SumCongruent(gs, h, GroupSum(ItemAmount));
    GroupBySum(items, UserKey, ItemAmount);
    SumAppend(seeds, spent, ItemAmount);
    SumSeeds(seeds);
    SumMap(list, (e: Expense) => Spent(e), ItemAmount, AmountOf);
  }

  /** `byUser`: each entry sums the queried rows of its user. */
  lemma UserEntryTotals(users: seq<Named>, list: seq<Expense>)
    ensures forall i :: 0 <= i < |UserEntries(users, list)| ==>
      var g := GroupBy(UserItems(users, list), UserKey)[i];
      TotalOf(UserEntries(users, list)[i]) == Sum(Filter(list, KeyIs(RowUserKey, g.key)), AmountOf)
  {
    var entries := UserEntries(users, list);
    var gs := GroupBy(UserItems(users, list), UserKey);
    forall i | 0 <= i < |entries|
      ensures TotalOf(entries[i]) == Sum(Filter(list, KeyIs(RowUserKey, gs[i].key)), AmountOf)
    {
      UserGroup(users, list, gs[i]);
      var a := Filter(Map(users, (u: Named) => Seed(u)), KeyIs(UserKey, gs[i].key));
      var b := Map(Filter(list, KeyIs(RowUserKey, gs[i].key)), (e: Expense) => Spent(e));
      UserEntry(a, b);
    }
  }

  /** A row is dropped only when its total is not positive, and only when something
      matched: with no rows queried, every entry is kept. */
  lemma UserRowsKept(users: seq<Named>, list: seq<Expense>)
    ensures forall r :: r in UserRows(users, list) ==> TotalOf(r) > 0.0 || list == []
    ensures forall r :: r in UserEntries(users, list) && TotalOf(r) > 0.0 ==> r in UserRows(users, list)
    ensures list == [] ==> UserRows(users, list) == UserEntries(users, list)
  {
    FilterKeeps(UserEntries(users, list), Kept(list));
    if list == [] {
      FilterAllKept(UserEntries(users, list), Kept(list));
    }
  }

  /** With no negative amounts, the kept totals still add up to `summaryTotal`: the
      dropped rows are exactly the zero ones. */
  lemma UserRowsAddUp(users: seq<Named>, list: seq<Expense>)
    requires forall e :: e in list ==> AmountOf(e) >= 0.0
    ensures Sum(UserRows(users, list), TotalOf) == SummaryTotal(list)
  {
    var entries := UserEntries(users, list);
    var gs := GroupBy(UserItems(users, list), UserKey);
    var dropped := (r: SummaryItem) => !Kept(list)(r);
    UserEntryTotals(users, list);
    forall r | r in entries
      ensures TotalOf(r) >= 0.0
    {
      var i :| 0 <= i < |entries| && entries[i] == r;
      SumNonNegative(Filter(list, KeyIs(RowUserKey, gs[i].key)), AmountOf);
    }
    SumPartition(entries, TotalOf, Kept(list), dropped);
    SumZero(Filter(entries, dropped), TotalOf);
    UserEntriesAddUp(users, list);
  }

  /** With nothing matched, every known user still has a row under its id. */
  lemma UserRowsSeeded(users: seq<Named>, u: Named)
    requires u in users
    ensures exists r :: r in UserRows(users, []) && r.id.Some? && IdText(r.id.value) == IdText(u.id)
  {
    var items := UserItems(users, []);
    var gs := GroupBy(items, UserKey);
    GroupByShape(items, UserKey);
    var j :| 0 <= j < |users| && users[j] == u;
    assert items[j] == Seed(u);
    var gi := FindKey(gs, UserKey(items[j]));
    var g := gs[gi];
    UserGroup(users, [], g);
    var a := Filter(Map(users, (x: Named) => Seed(x)), KeyIs(UserKey, g.key));
    var b := Map(Filter([], KeyIs(RowUserKey, g.key)), (e: Expense) => Spent(e));
    assert b == [];
    assert a != [];
    UserEntry(a, b);
    assert UserKey(a[|a| - 1]) == g.key;
    var r := UserEntries(users, [])[gi];
    FilterAllKept(UserEntries(users, []), Kept([]));
    assert r in UserRows(users, []);
  }
}
