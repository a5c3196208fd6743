/**
 * The client's ordering and display of rows: the summary lists sorted by spend or A–Z,
 * the expense list sorted by a column in either direction, the show/hide of removed
 * rows, and a row's list of receipt URLs with attach and detach.
 */
module ExpenseList {
  import opened Wrappers
  import opened Text
  import opened Seqs
  import opened Sorting
  import opened Records
  import Reporting

  // ---------------------------------------------------------------- summary lists

  /** The two summary orders; any mode other than "alpha" sorts by spend. */
  datatype SummarySort = Spend | Alpha

  /** `byXWithCurrency.length ? byXWithCurrency : byX || []`: the client's own rows when
      there are any, otherwise the rows the server (or local store) returned. */
  function SummarySource(client: seq<SummaryItem>, server: seq<SummaryItem>): (r: seq<SummaryItem>)
    ensures client != [] ==> r == client
    ensures client == [] ==> r == server
  {
    if |client| > 0 then client else server
  }

  /** The A–Z key: `(name ?? "")`, `(supplier ?? supplier_name ?? "")` or
      `(category ?? category_name ?? "")`, lower-cased. */
  function SummaryKey(kind: Reporting.GroupingKind, r: SummaryItem): string {
    ToLower(
      match kind
      case ByUser => r.name.GetOr("")
      case BySupplier => r.supplier.OrElse(r.supplierName).GetOr("")
      case ByCategory => r.category.OrElse(r.categoryName).GetOr(""))
  }

  /** The spend key: `totalInUsdEquiv ?? Number(total)`. The `?? 0` after it is never
      reached; a missing total is read here as `Number(null)`, which is 0. */
  function SummaryAmount(r: SummaryItem): real {
    if r.totalInUsdEquiv.Some? then r.totalInUsdEquiv.value else r.total.GetOr(0.0)
  }

  /** The comparator: spend compares `amount(b) - amount(a)`, A–Z compares the keys. */
  function SummaryLe(kind: Reporting.GroupingKind, mode: SummarySort): (SummaryItem, SummaryItem) -> bool {
    (a: SummaryItem, b: SummaryItem) =>
      if mode == Alpha then LexLe(SummaryKey(kind, a), SummaryKey(kind, b))
      else SummaryAmount(a) >= SummaryAmount(b)
  }

  lemma SummaryLeOrders(kind: Reporting.GroupingKind, mode: SummarySort)
    ensures TotalPreorder(SummaryLe(kind, mode))
  {
    var le := SummaryLe(kind, mode);
    forall a, b ensures le(a, b) || le(b, a) {
      LexLeTotal(SummaryKey(kind, a), SummaryKey(kind, b));
    }
    forall a, b, c | le(a, b) && le(b, c) ensures le(a, c) {
      if mode == Alpha {
        LexLeTrans(SummaryKey(kind, a), SummaryKey(kind, b), SummaryKey(kind, c));
      }
    }
  }

  /** `sortedByUser`, `sortedBySupplier`, `sortedByCategory`: a sorted copy of the source
      rows, by descending spend or by ascending label. */
  method SortSummary(kind: Reporting.GroupingKind, mode: SummarySort,
                     client: seq<SummaryItem>, server: seq<SummaryItem>)
    returns (r: seq<SummaryItem>)
    ensures multiset(r) == multiset(SummarySource(client, server))
    ensures mode == Spend ==> forall i, j :: 0 <= i < j < |r| ==> SummaryAmount(r[i]) >= SummaryAmount(r[j])
    ensures mode == Alpha ==> forall i, j :: 0 <= i < j < |r| ==> LexLe(SummaryKey(kind, r[i]), SummaryKey(kind, r[j]))
    ensures SortedBy(SummarySource(client, server), SummaryLe(kind, mode)) ==> r == SummarySource(client, server)
  {
    SummaryLeOrders(kind, mode);
    r := SortedCopy(SummarySource(client, server), SummaryLe(kind, mode));
  }

  // ---------------------------------------------------------------- expense list

  /** The columns the list can be sorted by; `Unsorted` is any other key. */
  datatype SortColumn =
    | ByDate | ByAddedBy | ByPaidFor | ByRemovedBy | BySupplierName | ByCategoryName
    | ByDescription | ByAmount | ByCurrency | Unsorted

  /** "asc" sorts ascending, any other direction descending. */
  datatype SortDir = Asc | Desc

  /** A sort key: text (compared case-insensitively) or a number. */
  datatype SortVal = SText(s: string) | SNum(r: real)

  /** `users.find((u) => String(u.id) === idText)` */
  function FindUser(users: seq<UserRef>, idText: string): (r: Option<UserRef>)
    ensures r.Some? ==> r.value in users && IdText(r.value.id) == idText
    ensures r.None? ==> forall i :: 0 <= i < |users| ==> IdText(users[i].id) != idText
  {
    if users == [] then None
    else if IdText(users[0].id) == idText then Some(users[0])
    else FindUser(users[1..], idText)
  }

  /** `e.user_name ?? users.find(...)?.name ?? dflt`: the payer's name. */
  function PaidFor(e: Expense, users: seq<UserRef>, dflt: string): string {
    if e.userName.Some? then e.userName.value
    else
      var u := FindUser(users, OptIdText(e.userId));
      if u.Some? && u.value.name.Some? then u.value.name.value else dflt
  }

  /** `getVal(e)` of `sortedExpenses`. */
  function SortValue(col: SortColumn, users: seq<UserRef>, e: Expense): (v: SortVal)
    ensures col == ByAmount <==> v.SNum?
    ensures col == ByAmount ==> v == SNum(AmountOf(e))
    ensures col == ByRemovedBy && !IsRemoved(e) ==> v == SText("")
  {
    match col
    case ByDate => SText(e.expenseDate.GetOr(""))
    case ByAddedBy => SText(ToLower(e.addedByName.GetOr("")))
    case ByPaidFor => SText(ToLower(PaidFor(e, users, "")))
    case ByRemovedBy => SText(ToLower(if IsRemoved(e) then e.removedByName.GetOr("") else ""))
    case BySupplierName => SText(ToLower(e.supplierName.GetOr("")))
    case ByCategoryName => SText(ToLower(e.categoryName.GetOr("")))
    case ByDescription => SText(ToLower(e.description.GetOr("")))
    case ByAmount => SNum(AmountOf(e))
    case ByCurrency => SText(ToUpper(OrText(e.currency, "USD")))
    case Unsorted => SText("")
  }

  /** The sign of `va - vb` for numbers, or of `localeCompare` with base sensitivity
      (equal up to case) for text. */
  function CompareVals(a: SortVal, b: SortVal): int {
    if a.SNum? && b.SNum? then (if a.r < b.r then -1 else if a.r == b.r then 0 else 1)
    else if a.SText? && b.SText? then
      var x, y := ToLower(a.s), ToLower(b.s);
      if x == y then 0 else if LexLe(x, y) then -1 else 1
    else 0
  }

  lemma CompareValsAntisym(a: SortVal, b: SortVal)
    ensures CompareVals(a, b) == -CompareVals(b, a)
  {
    if a.SText? && b.SText? {
      var x, y := ToLower(a.s), ToLower(b.s);
      if x != y && LexLe(x, y) && LexLe(y, x) {
        LexLeAntisym(x, y);
      }
      LexLeTotal(x, y);
    }
  }

  lemma CompareValsTrans(a: SortVal, b: SortVal, c: SortVal)
    requires a.SNum? == b.SNum? == c.SNum?
    requires CompareVals(a, b) <= 0 && CompareVals(b, c) <= 0
    ensures CompareVals(a, c) <= 0
  {
    if a.SText? {
      var x, y, z := ToLower(a.s), ToLower(b.s), ToLower(c.s);
      if x != z {
        if x == y { } else if y == z { } else { LexLeTrans(x, y, z); }
      }
    }
  }

  /** The comparator: `c` for "asc", `-c` otherwise, as an "may stay in front" order. */
  function ExpenseLe(col: SortColumn, dir: SortDir, users: seq<UserRef>): (Expense, Expense) -> bool {
    (a: Expense, b: Expense) =>
      var c := CompareVals(SortValue(col, users, a), SortValue(col, users, b));
      if dir == Asc then c <= 0 else -c <= 0
  }

  /** The descending order is the ascending one with its arguments swapped. */
  lemma DescIsReversedAsc(col: SortColumn, users: seq<UserRef>, a: Expense, b: Expense)
    ensures ExpenseLe(col, Desc, users)(a, b) == ExpenseLe(col, Asc, users)(b, a)
  {
    CompareValsAntisym(SortValue(col, users, a), SortValue(col, users, b));
  }

  lemma ExpenseLeOrders(col: SortColumn, dir: SortDir, users: seq<UserRef>)
    ensures TotalPreorder(ExpenseLe(col, dir, users))
  {
    var le := ExpenseLe(col, dir, users);
    forall a, b ensures le(a, b) || le(b, a) {
      CompareValsAntisym(SortValue(col, users, a), SortValue(col, users, b));
    }
    forall a, b, c | le(a, b) && le(b, c) ensures le(a, c) {
      var va, vb, vc := SortValue(col, users, a), SortValue(col, users, b), SortValue(col, users, c);
      if dir == Asc {
        CompareValsTrans(va, vb, vc);
      } else {
        CompareValsAntisym(va, vb);
        CompareValsAntisym(vb, vc);
        CompareValsAntisym(va, vc);
        CompareValsTrans(vc, vb, va);
      }
    }
  }

  /** `sortedExpenses`: a sorted copy of the list. An unknown sort key compares every
      pair as equal, which leaves the list as it was. */
  method SortExpenses(expenses: seq<Expense>, col: SortColumn, dir: SortDir, users: seq<UserRef>)
    returns (r: seq<Expense>)
    ensures multiset(r) == multiset(expenses)
    ensures SortedBy(r, ExpenseLe(col, dir, users))
    ensures SortedBy(expenses, ExpenseLe(col, dir, users)) ==> r == expenses
    ensures col == Unsorted ==> r == expenses
  {
    ExpenseLeOrders(col, dir, users);
    r := SortedCopy(expenses, ExpenseLe(col, dir, users));
  }

  /** `displayExpenses`: all sorted rows, or only the non-removed ones. */
  function DisplayExpenses(sorted: seq<Expense>, showRemoved: bool): seq<Expense> {
    if showRemoved then sorted else Filter(sorted, IsActive)
  }

  /** With "show removed" off the list is exactly the non-removed rows in sorted order;
      with it on, the whole sorted list. */
  lemma DisplayExpensesSpec(sorted: seq<Expense>, showRemoved: bool)
    ensures showRemoved ==> DisplayExpenses(sorted, showRemoved) == sorted
    ensures !showRemoved ==> var d := DisplayExpenses(sorted, showRemoved);
      && IsSubsequence(d, sorted)
      && (forall i :: 0 <= i < |d| ==> IsActive(d[i]))
      && (forall i :: 0 <= i < |sorted| && IsActive(sorted[i]) ==> sorted[i] in d)
  {
    FilterIsSubsequence(sorted, IsActive);
    FilterKeeps(sorted, IsActive);
  }

  // ---------------------------------------------------------------- receipt URLs

  /** A stored list entry that counts as a URL: present and not blank. */
  predicate IsUrlEntry(x: Option<string>) { x.Some? && JsTrim(x.value) != "" }

  function EntryText(x: Option<string>): string { x.GetOr("") }

  /** `r.filter((u) => u && String(u).trim())`: the URL entries, as stored. */
  function NonBlankEntries(items: seq<Option<string>>): seq<string> {
    Map(Filter(items, IsUrlEntry), EntryText)
  }

  lemma NonBlankEntriesAreUrls(items: seq<Option<string>>)
    ensures forall i :: 0 <= i < |NonBlankEntries(items)| ==> JsTrim(NonBlankEntries(items)[i]) != ""
  {
    var kept := Filter(items, IsUrlEntry);
    forall i | 0 <= i < |kept| ensures JsTrim(EntryText(kept[i])) != "" {
      assert IsUrlEntry(kept[i]);
    }
  }

  /** `getReceiptUrls`: a list keeps its non-blank entries, a non-blank string becomes a
      one-element list of its trimmed text, anything else no URL. */
  function ReceiptUrls(r: ReceiptValue): (urls: seq<string>)
    ensures forall i :: 0 <= i < |urls| ==> JsTrim(urls[i]) != ""
    ensures r.NoReceipt? ==> urls == []
  {
    match r
    case NoReceipt => []
    case ReceiptText(t) =>
      TrimIdempotent(t, IsJsSpace);
      if JsTrim(t) != "" then [JsTrim(t)] else []
    case ReceiptList(items) =>
      NonBlankEntriesAreUrls(items);
      NonBlankEntries(items)
  }

  function Present(urls: seq<string>): seq<Option<string>> {
    Map(urls, (u: string) => Some(u))
  }

  /** A list of non-blank URLs, once stored, reads back unchanged. */
  lemma ReceiptUrlsOfStoredList(urls: seq<string>)
    requires forall i :: 0 <= i < |urls| ==> JsTrim(urls[i]) != ""
    ensures ReceiptUrls(ReceiptList(Present(urls))) == urls
  {
    var p := Present(urls);
    assert forall x :: x in p ==> IsUrlEntry(x);
    FilterAllKept(p, IsUrlEntry);
  }

  /** Attaching: `newUrl ? [...currentUrls, newUrl] : currentUrls` with the trimmed input. */
  function Attach(current: seq<string>, input: string): (r: seq<string>)
    ensures JsTrim(input) != "" ==> |r| == |current| + 1 && r[..|current|] == current && r[|current|] == JsTrim(input)
    ensures JsTrim(input) == "" ==> r == current
  {
    var newUrl := JsTrim(input);
    if newUrl != "" then current + [newUrl] else current
  }

  function IsNot(target: string): string -> bool {
    u => u != target
  }

  /** Detaching: `urls.filter((u) => u !== urlToRemove)`. */
  function Detach(urls: seq<string>, target: string): seq<string> {
    Filter(urls, IsNot(target))
  }

  /** Detaching removes every copy of the URL and keeps every other entry, in order. */
  lemma DetachSpec(urls: seq<string>, target: string)
    ensures target !in Detach(urls, target)
    ensures IsSubsequence(Detach(urls, target), urls)
    ensures forall i :: 0 <= i < |urls| && urls[i] != target ==> urls[i] in Detach(urls, target)
  {
    FilterIsSubsequence(urls, IsNot(target));
    FilterKeeps(urls, IsNot(target));
  }

  /** Detaching a URL just attached undoes the attach, whatever the list held before. */
  lemma DetachUndoesAttach(current: seq<string>, input: string)
    ensures Detach(Attach(current, input), JsTrim(input)) == Detach(current, JsTrim(input))
  {
    var t := JsTrim(input);
    if t != "" {
      FilterAppend(current, [t], IsNot(t));
      assert Filter([t], IsNot(t)) == [] by { assert [t][..0] == []; }
    }
  }
}
