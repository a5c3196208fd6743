/**
 * The expenses endpoint (api/expenses.php): the receipt-URL column and its JSON round
 * trip, the WHERE clauses built from the query string and what they select, the list
 * and summary reads, and the POST / PATCH / DELETE writes against the expenses table,
 * where DELETE is a soft delete that marks a row removed once.
 */
module ExpensesApi {
  import opened Wrappers
  import opened Text
  import opened Seqs
  import opened Numbers
  import opened Sorting
  import opened ApiCommon

  // ---------------------------------------------------------------- the receipt_url column

  /** `json_encode` and `json_decode` on a list of strings, which this model leaves
      abstract: `decode` gives Some(list) for text that decodes to an array of strings
      and None for anything else. */
  datatype JsonCodec = JsonCodec(encode: seq<string> -> string, decode: string -> Option<seq<string>>)

  /** What the receipt column relies on: an encoded list is bracketed by "[" and "]"
      and decodes to itself. */
  ghost predicate Faithful(codec: JsonCodec) {
    forall list: seq<string> {:trigger codec.encode(list)} ::
      var t := codec.encode(list);
      |t| >= 2 && t[0] == '[' && t[|t| - 1] == ']' && codec.decode(t) == Some(list)
  }

  predicate Kept(s: string) { !PhpFalsy(s) }

  /** `array_values(array_filter(array_map("trim", $list)))`: each entry trimmed, the
      entries PHP treats as false ("" and "0") dropped, the rest in order. */
  function Clean(list: seq<string>): seq<string> {
    Filter(Map(list, PhpTrim), Kept)
  }

  /** Every cleaned entry is trimmed and neither "" nor "0". */
  lemma CleanEntries(list: seq<string>)
    ensures forall i :: 0 <= i < |Clean(list)| ==> PhpTrim(Clean(list)[i]) == Clean(list)[i] && !PhpFalsy(Clean(list)[i])
  {
    var m := Map(list, PhpTrim);
    var r := Filter(m, Kept);
    forall i | 0 <= i < |r|
      ensures PhpTrim(r[i]) == r[i] && !PhpFalsy(r[i])
    {
      assert r[i] in m && Kept(r[i]);
      var j :| 0 <= j < |m| && m[j] == r[i];
      TrimIdempotent(list[j], IsPhpSpace);
    }
  }

  /** Cleaning a cleaned list changes nothing. */
  lemma CleanIdempotent(list: seq<string>)
    ensures Clean(Clean(list)) == Clean(list)
  {
    var c := Clean(list);
    CleanEntries(list);
    assert Map(c, PhpTrim) == c;
    forall x | x in c ensures Kept(x) {
      var i :| 0 <= i < |c| && c[i] == x;
    }
    FilterAllKept(c, Kept);
  }

  /** `receipt_url_to_array`: a stored or submitted receipt value as a list of URLs. */
  function ToArray(raw: PhpValue, codec: JsonCodec): (urls: seq<string>)
    ensures forall i :: 0 <= i < |urls| ==> urls[i] != "" && PhpTrim(urls[i]) == urls[i]
    ensures raw.PNull? ==> urls == []
    ensures raw.PStr? && PhpTrim(raw.s) == "" ==> urls == []
    ensures raw.PStr? && PhpTrim(raw.s) != "" && PhpTrim(raw.s)[0] != '[' ==> urls == [PhpTrim(raw.s)]
    ensures raw.PList? ==> urls == Clean(raw.items)
  {
    match raw
    case PNull => []
    case PList(items) =>
      CleanEntries(items);
      Clean(items)
    case PStr(t) =>
      if t == "" then []
      else
        var s := PhpTrim(t);
        if s == "" then []
        else
          var decoded := codec.decode(s);
          if s[0] == '[' && decoded.Some? && decoded.value != [] then
            CleanEntries(decoded.value);
            Clean(decoded.value)
          else
            TrimIdempotent(t, IsPhpSpace);
            [s]
  }

  /** The list a submitted value stands for: a list as it is, a single string as a
      one-element list of its trimmed text. */
  function Submitted(value: PhpValue): seq<string> {
    match value
    case PNull => []
    case PStr(s) => [PhpTrim(s)]
    case PList(items) => items
  }

  /** `receipt_url_to_db`: null for null or for a list with no URL left after cleaning,
      otherwise the JSON text of the cleaned list. */
  function ToDb(value: PhpValue, codec: JsonCodec): (stored: Option<string>)
    ensures stored.None? <==> value.PNull? || Clean(Submitted(value)) == []
  {
    if value.PNull? then None
    else
      var list := Clean(Submitted(value));
      if list == [] then None else Some(codec.encode(list))
  }

  /** A column value as read back from the database: NULL or text. */
  function FromDb(stored: Option<string>): PhpValue {
    if stored.None? then PNull else PStr(stored.value)
  }

  /** Writing a value to the column and reading it back gives the cleaned list of URLs. */
  lemma ReceiptRoundTrip(value: PhpValue, codec: JsonCodec)
    requires Faithful(codec)
    ensures ToArray(FromDb(ToDb(value, codec)), codec) == Clean(Submitted(value))
  {
    var list := Clean(Submitted(value));
    if !value.PNull? && list != [] {
      ReadEncoded(list, codec);
      CleanIdempotent(Submitted(value));
    }
  }

  /** An encoded non-empty list reads back as its cleaned entries. */
  lemma ReadEncoded(list: seq<string>, codec: JsonCodec)
    requires Faithful(codec) && list != []
    ensures ToArray(PStr(codec.encode(list)), codec) == Clean(list)
  {
    var t := codec.encode(list);
    assert |t| >= 2 && t[0] == '[' && t[|t| - 1] == ']' && codec.decode(t) == Some(list);
    TrimUnchanged(t, IsPhpSpace);
  }

  /** A stored "[]" decodes to an empty array, which PHP treats as false, so it is
      read as a single URL "[]" rather than as no URL. */
  lemma EmptyJsonTextIsOneEntry(codec: JsonCodec)
    requires codec.decode("[]") == Some([])
    ensures ToArray(PStr("[]"), codec) == ["[]"]
  {
    TrimUnchanged("[]", IsPhpSpace);
  }

  // ---------------------------------------------------------------- filters

  /** The filters of the query string; each may be missing. */
  datatype ListQuery = ListQuery(from: Option<string>, to: Option<string>, userId: Option<string>,
                                 supplierId: Option<string>, categoryId: Option<string>)

  /** One condition of a WHERE clause. */
  datatype Criterion =
    | NotRemoved
    | DateFrom(date: string)
    | DateTo(date: string)
    | UserIs(user: int)
    | SupplierIs(supplier: int)
    | CategoryIs(category: int)

  function SqlText(c: Criterion): string {
    match c
    case NotRemoved => "(e.removed_at IS NULL)"
    case DateFrom(_) => "e.expense_date >= ?"
    case DateTo(_) => "e.expense_date <= ?"
    case UserIs(_) => "e.user_id = ?"
    case SupplierIs(_) => "e.supplier_id = ?"
    case CategoryIs(_) => "e.category_id = ?"
  }

  /** The parameters a condition binds. */
  function Bound(c: Criterion): seq<SqlParam> {
    match c
    case NotRemoved => []
    case DateFrom(d) => [TextParam(d)]
    case DateTo(d) => [TextParam(d)]
    case UserIs(u) => [IntParam(u)]
    case SupplierIs(s) => [IntParam(s)]
    case CategoryIs(k) => [IntParam(k)]
  }

  function BoundAll(cs: seq<Criterion>): seq<SqlParam> {
    if cs == [] then [] else Bound(cs[0]) + BoundAll(cs[1..])
  }

  lemma {:induction false} BoundAllAppend(cs: seq<Criterion>, c: Criterion)
    ensures BoundAll(cs + [c]) == BoundAll(cs) + Bound(c)
  {
    if cs != [] {
      assert (cs + [c])[1..] == cs[1..] + [c];
      BoundAllAppend(cs[1..], c);
    }
  }

  /** The conditions the non-empty filters ask for, in the order the endpoint adds them:
      from, to, user, supplier, category. An id is read with PHP's `(int)`. */
  function FilterCriteria(q: ListQuery): (cs: seq<Criterion>)
    ensures cs == [] <==> PhpEmpty(q.from) && PhpEmpty(q.to) && PhpEmpty(q.userId)
                          && PhpEmpty(q.supplierId) && PhpEmpty(q.categoryId)
    ensures NotRemoved !in cs
  {
    FromPart(q) + ToPart(q) + UserPart(q) + SupplierPart(q) + CategoryPart(q)
  }

  function FromPart(q: ListQuery): seq<Criterion> {
    if PhpEmpty(q.from) then [] else [DateFrom(q.from.value)]
  }

  function ToPart(q: ListQuery): seq<Criterion> {
    if PhpEmpty(q.to) then [] else [DateTo(q.to.value)]
  }

  function UserPart(q: ListQuery): seq<Criterion> {
    if PhpEmpty(q.userId) then [] else [UserIs(PhpIntval(q.userId.value))]
  }

  function SupplierPart(q: ListQuery): seq<Criterion> {
    if PhpEmpty(q.supplierId) then [] else [SupplierIs(PhpIntval(q.supplierId.value))]
  }

  function CategoryPart(q: ListQuery): seq<Criterion> {
    if PhpEmpty(q.categoryId) then [] else [CategoryIs(PhpIntval(q.categoryId.value))]
  }

  /** The text of a WHERE clause over the given conditions. */
  function WhereClause(cs: seq<Criterion>): string {
    "WHERE " + Join(Map(cs, SqlText), " AND ")
  }

  /** Each condition's text holds exactly as many placeholders as it binds values. */
  lemma CriterionPlaceholders(c: Criterion)
    ensures Placeholders(SqlText(c)) == |Bound(c)|
  {
    match c
    case NotRemoved => PlaceholdersNone("(e.removed_at IS NULL)");
    case DateFrom(_) => DatePlaceholder(c);
    case DateTo(_) => DatePlaceholder(c);
    case _ => IdPlaceholder(c);
  }

  lemma DatePlaceholder(c: Criterion)
    requires c.DateFrom? || c.DateTo?
    ensures Placeholders(SqlText(c)) == 1
  {
    if c.DateFrom? {
      EndsInPlaceholder("e.expense_date >= "); assert "e.expense_date >= " + "?" == "e.expense_date >= ?";
    } else {
      EndsInPlaceholder("e.expense_date <= "); assert "e.expense_date <= " + "?" == "e.expense_date <= ?";
    }
  }

  lemma IdPlaceholder(c: Criterion)
    requires c.UserIs? || c.SupplierIs? || c.CategoryIs?
    ensures Placeholders(SqlText(c)) == 1
  {
    match c
    case UserIs(_) => { EndsInPlaceholder("e.user_id = "); assert "e.user_id = " + "?" == "e.user_id = ?"; }
    case SupplierIs(_) => { EndsInPlaceholder("e.supplier_id = "); assert "e.supplier_id = " + "?" == "e.supplier_id = ?"; }
    case CategoryIs(_) => { EndsInPlaceholder("e.category_id = "); assert "e.category_id = " + "?" == "e.category_id = ?"; }
  }

  /** The joined conditions hold as many placeholders as they bind values. */
  lemma {:induction false} JoinedPlaceholders(cs: seq<Criterion>)
    ensures Placeholders(Join(Map(cs, SqlText), " AND ")) == |BoundAll(cs)|
  {
    if cs != [] {
      var parts := Map(cs, SqlText);
      CriterionPlaceholders(cs[0]);
      if |cs| > 1 {
        assert parts[1..] == Map(cs[1..], SqlText);
        JoinedPlaceholders(cs[1..]);
        PlaceholdersAppend(parts[0] + " AND ", Join(parts[1..], " AND "));
        PlaceholdersAppend(parts[0], " AND ");
        PlaceholdersNone(" AND ");
      } else {
        assert cs[1..] == [];
      }
    }
  }

  lemma WherePlaceholders(cs: seq<Criterion>)
    ensures Placeholders(WhereClause(cs)) == |BoundAll(cs)|
  {
    JoinedPlaceholders(cs);
    PlaceholdersAppend("WHERE ", Join(Map(cs, SqlText), " AND "));
    PlaceholdersNone("WHERE ");
  }

  /** Appends the clause texts and parameters of the non-empty filters, in order, to the
      lists built so far: the five `if (!empty($_GET[...]))` steps. */
  method AddFilterClauses(q: ListQuery, w0: seq<string>, params0: seq<SqlParam>)
    returns (w: seq<string>, params: seq<SqlParam>)
    ensures w == w0 + Map(FilterCriteria(q), SqlText)
    ensures params == params0 + BoundAll(FilterCriteria(q))
  {
    w, params := AddPart(w0, params0, FromPart(q));
    ghost var done := FromPart(q);
    w, params := AddPart(w, params, ToPart(q));
    Step(w0, params0, done, ToPart(q));
    done := done + ToPart(q);
    w, params := AddPart(w, params, UserPart(q));
    Step(w0, params0, done, UserPart(q));
    done := done + UserPart(q);
    w, params := AddPart(w, params, SupplierPart(q));
    Step(w0, params0, done, SupplierPart(q));
    done := done + SupplierPart(q);
    w, params := AddPart(w, params, CategoryPart(q));
    Step(w0, params0, done, CategoryPart(q));
    done := done + CategoryPart(q);
    assert done == FilterCriteria(q);
  }

  lemma Step(w0: seq<string>, params0: seq<SqlParam>, done: seq<Criterion>, part: seq<Criterion>)
    ensures w0 + Map(done, SqlText) + Map(part, SqlText) == w0 + Map(done + part, SqlText)
    ensures params0 + BoundAll(done) + BoundAll(part) == params0 + BoundAll(done + part)
  {
    StepParams(params0, done, part);
    MapConcat(done, part, SqlText);
    var x, y := Map(done, SqlText), Map(part, SqlText);
    AppendAssoc(w0, x, y);
  }

  lemma StepParams(params0: seq<SqlParam>, done: seq<Criterion>, part: seq<Criterion>)
    ensures params0 + BoundAll(done) + BoundAll(part) == params0 + BoundAll(done + part)
  {
    BoundAllConcat(done, part);
    AppendAssoc(params0, BoundAll(done), BoundAll(part));
  }

  /** One `if (!empty(...)) { $w[] = ...; $params[] = ...; }` step: a filter that is set
      adds its clause text and its parameter. */
  method AddPart(w0: seq<string>, params0: seq<SqlParam>, part: seq<Criterion>)
    returns (w: seq<string>, params: seq<SqlParam>)
    requires |part| <= 1
    ensures w == w0 + Map(part, SqlText)
    ensures params == params0 + BoundAll(part)
  {
    w, params := w0, params0;
    if part != [] {
      w, params := w + [SqlText(part[0])], params + Bound(part[0]);
      assert part[1..] == [];
    }
  }

  lemma {:induction false} BoundAllConcat(a: seq<Criterion>, b: seq<Criterion>)
    ensures BoundAll(a + b) == BoundAll(a) + BoundAll(b)
  {
    if a != [] {
      assert (a + b)[1..] == a[1..] + b;
      BoundAllConcat(a[1..], b);
    } else {
      assert a + b == b;
    }
  }

  /** `build_filters`: the aggregate reads' WHERE clause, which always starts by excluding
      removed rows; the parameters are appended to `params0` (passed by reference), one
      per placeholder. */
  method BuildFilters(q: ListQuery, params0: seq<SqlParam>) returns (where: string, params: seq<SqlParam>)
    ensures where == WhereClause([NotRemoved] + FilterCriteria(q))
    ensures params == params0 + BoundAll(FilterCriteria(q))
    ensures Placeholders(where) == |params| - |params0|
  {
    var w;
    w, params := AddFilterClauses(q, [SqlText(NotRemoved)], params0);
    where := "WHERE " + Join(w, " AND ");
    RemovedFirst(FilterCriteria(q));
    RemovedBindsNothing(FilterCriteria(q));
    WherePlaceholders([NotRemoved] + FilterCriteria(q));
  }

  /** Putting the removed-row condition first adds its text in front... */
  lemma RemovedFirst(cs: seq<Criterion>)
    ensures Map([NotRemoved] + cs, SqlText) == [SqlText(NotRemoved)] + Map(cs, SqlText)
  {
    MapConcat([NotRemoved], cs, SqlText);
  }

  /** ...and binds nothing. */
  lemma RemovedBindsNothing(cs: seq<Criterion>)
    ensures BoundAll([NotRemoved] + cs) == BoundAll(cs)
  {
    assert ([NotRemoved] + cs)[1..] == cs;
  }

  /** The list mode's WHERE clause: the same filters without the removed-row condition,
      and no WHERE at all when no filter is set. */
  method ListFilters(q: ListQuery) returns (where: string, params: seq<SqlParam>)
    ensures where == (if FilterCriteria(q) == [] then "" else WhereClause(FilterCriteria(q)))
    ensures params == BoundAll(FilterCriteria(q))
    ensures Placeholders(where) == |params|
  {
    var parts;
    parts, params := AddFilterClauses(q, [], []);
    where := "";
    if parts != [] {
      where := "WHERE " + Join(parts, " AND ");
    }
    assert [] + Map(FilterCriteria(q), SqlText) == Map(FilterCriteria(q), SqlText);
    WherePlaceholders(FilterCriteria(q));
  }

  // ---------------------------------------------------------------- the table

  /** A row of the expenses table. Dates are `YYYY-MM-DD` text. */
  datatype Row = Row(
    id: int,
    userId: int,
    addedBy: Option<int>,
    supplierId: Option<int>,
    categoryId: Option<int>,
    expenseDate: string,
    description: Option<string>,
    amount: real,
    currency: Option<string>,
    paymentMethod: Option<string>,
    receiptUrl: Option<string>,
    removedAt: Option<string>,
    removedBy: Option<int>)

  /** What a condition means for a row. */
  predicate Holds(c: Criterion, r: Row) {
    match c
    case NotRemoved => r.removedAt.None?
    case DateFrom(d) => LexLe(d, r.expenseDate)
    case DateTo(d) => LexLe(r.expenseDate, d)
    case UserIs(u) => r.userId == u
    case SupplierIs(s) => r.supplierId == Some(s)
    case CategoryIs(k) => r.categoryId == Some(k)
  }

  predicate HoldsAll(cs: seq<Criterion>, r: Row) {
    forall i :: 0 <= i < |cs| ==> Holds(cs[i], r)
  }

  /** The rows a WHERE clause selects, in table order. */
  function Matching(table: seq<Row>, cs: seq<Criterion>): (m: seq<Row>)
    ensures |m| <= |table|
    ensures forall i :: 0 <= i < |m| ==> m[i] in table && HoldsAll(cs, m[i])
  {
    if table == [] then []
    else
      var last := table[|table| - 1];
      Matching(table[..|table| - 1], cs) + (if HoldsAll(cs, last) then [last] else [])
  }

  /** Every row meeting the conditions is selected. */
  lemma {:induction false} MatchingKeeps(table: seq<Row>, cs: seq<Criterion>)
    ensures forall i :: 0 <= i < |table| && HoldsAll(cs, table[i]) ==> table[i] in Matching(table, cs)
    decreases |table|
  {
    if table != [] {
      var init := table[..|table| - 1];
      MatchingKeeps(init, cs);
      forall i | 0 <= i < |table| && HoldsAll(cs, table[i])
        ensures table[i] in Matching(table, cs)
      {
        if i < |table| - 1 {
          assert table[i] == init[i];
        }
      }
    }
  }

  /** The aggregate reads see only rows not removed. */
  lemma AggregateSkipsRemoved(q: ListQuery, r: Row)
    ensures HoldsAll([NotRemoved] + FilterCriteria(q), r) <==> r.removedAt.None? && HoldsAll(FilterCriteria(q), r)
  {
    var cs := [NotRemoved] + FilterCriteria(q);
    if r.removedAt.None? && HoldsAll(FilterCriteria(q), r) {
      forall i | 0 <= i < |cs| ensures Holds(cs[i], r) {
        if i > 0 { assert cs[i] == FilterCriteria(q)[i - 1]; }
      }
    }
    if HoldsAll(cs, r) {
      assert Holds(cs[0], r);
      forall i | 0 <= i < |FilterCriteria(q)| ensures Holds(FilterCriteria(q)[i], r) {
        assert Holds(cs[i + 1], r);
      }
    }
  }

  /** The list mode's conditions do not look at removal: removing a row does not take it
      out of the list. */
  lemma ListIgnoresRemoval(q: ListQuery, r: Row, at: string, remover: int)
    ensures HoldsAll(FilterCriteria(q), r) <==> HoldsAll(FilterCriteria(q), r.(removedAt := Some(at), removedBy := Some(remover)))
  {
    var cs := FilterCriteria(q);
    var r' := r.(removedAt := Some(at), removedBy := Some(remover));
    forall i | 0 <= i < |cs| ensures Holds(cs[i], r) == Holds(cs[i], r') {
      assert cs[i] in cs;
    }
  }

  /** `COALESCE(SUM(e.amount), 0)` over the rows the summary reads. */
  function SummaryTotal(table: seq<Row>, q: ListQuery): real {
    Sum(Matching(table, [NotRemoved] + FilterCriteria(q)), (r: Row) => r.amount)
  }

  /** A row added to the table changes the summary by its amount when it is active and
      matches the filters, and not at all otherwise. */
  lemma SummaryAppend(table: seq<Row>, r: Row, q: ListQuery)
    ensures SummaryTotal(table + [r], q)
         == SummaryTotal(table, q) + (if r.removedAt.None? && HoldsAll(FilterCriteria(q), r) then r.amount else 0.0)
  {
    var t := table + [r];
    var cs := [NotRemoved] + FilterCriteria(q);
    assert t[..|t| - 1] == table;
    var m := Matching(table, cs);
    AggregateSkipsRemoved(q, r);
    if HoldsAll(cs, r) {
      assert Matching(t, cs) == m + [r];
      assert (m + [r])[..|m|] == m;
    } else {
      assert Matching(t, cs) == m;
    }
  }

  /** `ORDER BY e.expense_date DESC, e.id DESC`: `a` may be listed before `b`. */
  predicate NewerFirst(a: Row, b: Row) {
    if a.expenseDate == b.expenseDate then a.id >= b.id else LexLe(b.expenseDate, a.expenseDate)
  }

  lemma NewerFirstOrders()
    ensures TotalPreorder(NewerFirst)
  {
    forall a: Row, b: Row ensures NewerFirst(a, b) || NewerFirst(b, a) {
      LexLeTotal(a.expenseDate, b.expenseDate);
    }
    forall a: Row, b: Row, c: Row | NewerFirst(a, b) && NewerFirst(b, c) ensures NewerFirst(a, c) {
      if a.expenseDate != b.expenseDate && b.expenseDate != c.expenseDate {
        LexLeTrans(c.expenseDate, b.expenseDate, a.expenseDate);
        if a.expenseDate == c.expenseDate {
          LexLeAntisym(a.expenseDate, b.expenseDate);
        }
      }
    }
  }

  /** `LIMIT 500` */
  const ListLimit := 500

  /** A listed row: the row with its receipt column read as a list of URLs. */
  datatype ListedRow = ListedRow(row: Row, receiptUrls: seq<string>)

  /** The rows of a listing, without their receipt links. */
  function Rows(items: seq<ListedRow>): seq<Row> {
    Map(items, (x: ListedRow) => x.row)
  }

  /** The list mode: the rows matching the filters, removed ones included, newest first,
      at most 500 of them, each with its receipt column rewritten as a list of URLs. The
      500 kept are the first of that order: every matching row left out sorts after all
      the listed ones. */
  method ListExpenses(table: seq<Row>, q: ListQuery, codec: JsonCodec) returns (items: seq<ListedRow>)
    ensures var m := Matching(table, FilterCriteria(q));
      |items| == (if |m| < ListLimit then |m| else ListLimit)
    ensures forall k :: 0 <= k < |items| ==>
      items[k].row in Matching(table, FilterCriteria(q)) && items[k].receiptUrls == ToArray(FromDb(items[k].row.receiptUrl), codec)
    ensures SortedBy(Rows(items), NewerFirst)
    ensures multiset(Rows(items)) <= multiset(Matching(table, FilterCriteria(q)))
    ensures |Matching(table, FilterCriteria(q))| <= ListLimit ==>
      forall r :: r in Matching(table, FilterCriteria(q)) ==> r in Rows(items)
    ensures forall r, k ::
      r in Matching(table, FilterCriteria(q)) && r !in Rows(items) && 0 <= k < |items| ==> NewerFirst(items[k].row, r)
  {
    var matching := Matching(table, FilterCriteria(q));
    var sorted := SortNewestFirst(matching);
    var n := if |sorted| < ListLimit then |sorted| else ListLimit;
    items := ReadReceipts(sorted[..n], codec);
    assert Rows(items) == sorted[..n];
    LimitKeeps(matching, sorted, n);
  }

  /** `ORDER BY ... LIMIT n` keeps the first `n` sorted rows: they are sorted, no row more
      often than it is selected, all of them when none is cut off, and every selected row
      cut off sorts after all the kept ones. */
  lemma LimitKeeps(matching: seq<Row>, sorted: seq<Row>, n: nat)
    requires multiset(sorted) == multiset(matching) && n <= |sorted|
    requires SortedBy(sorted, NewerFirst)
    ensures SortedBy(sorted[..n], NewerFirst)
    ensures multiset(sorted[..n]) <= multiset(matching)
    ensures forall r :: r in sorted[..n] ==> r in matching
    ensures n == |sorted| ==> forall r :: r in matching ==> r in sorted[..n]
    ensures forall r, k :: r in matching && r !in sorted[..n] && 0 <= k < n ==> NewerFirst(sorted[k], r)
  {
    var p := sorted[..n];
    assert sorted == p + sorted[n..];
    assert multiset(sorted) == multiset(p) + multiset(sorted[n..]);
    forall r | r in p ensures r in matching {
      assert r in multiset(sorted);
    }
    if n == |sorted| {
      forall r | r in matching ensures r in p {
        assert r in multiset(sorted);
      }
    }
    forall r, k | r in matching && r !in p && 0 <= k < n ensures NewerFirst(sorted[k], r) {
      assert r in multiset(sorted);
      var j :| 0 <= j < |sorted| && sorted[j] == r;
      assert n <= j;
    }
  }

  /** `ORDER BY e.expense_date DESC, e.id DESC` over the selected rows. */
  method SortNewestFirst(rows: seq<Row>) returns (sorted: seq<Row>)
    ensures SortedBy(sorted, NewerFirst)
    ensures multiset(sorted) == multiset(rows) && |sorted| == |rows|
  {
    NewerFirstOrders();
    sorted := SortedCopy(rows, NewerFirst);
  }

  /** `foreach ($items as &$row) $row["receipt_url"] = receipt_url_to_array(...)`: each
      row keeps its place and gains its list of URLs. */
  method ReadReceipts(rows: seq<Row>, codec: JsonCodec) returns (items: seq<ListedRow>)
    ensures |items| == |rows|
    ensures forall k :: 0 <= k < |rows| ==> items[k] == ListedRow(rows[k], ToArray(FromDb(rows[k].receiptUrl), codec))
  {
    items := [];
    var i := 0;
    while i < |rows|
      invariant 0 <= i <= |rows| && |items| == i
      invariant forall k :: 0 <= k < i ==> items[k] == ListedRow(rows[k], ToArray(FromDb(rows[k].receiptUrl), codec))
    {
      items := items + [ListedRow(rows[i], ToArray(FromDb(rows[i].receiptUrl), codec))];
      i := i + 1;
    }
  }

  /** The read the `mode` parameter selects (`list` when it is missing). */
  datatype Mode = ListMode | SummaryMode | ByUserMode | BySupplierMode | ByCategoryMode | AuditMode

  /** None stands for "Unknown mode", answered with 400. */
  function ModeOf(mode: Option<string>): (m: Option<Mode>)
    ensures mode.None? ==> m == Some(ListMode)
    ensures m.None? <==> mode.Some? && mode.value !in ["list", "summary", "by_user", "by_supplier", "by_category", "audit"]
  {
    match mode.GetOr("list")
    case "list" => Some(ListMode)
    case "summary" => Some(SummaryMode)
    case "by_user" => Some(ByUserMode)
    case "by_supplier" => Some(BySupplierMode)
    case "by_category" => Some(ByCategoryMode)
    case "audit" => Some(AuditMode)
    case _ => None
  }

  // ---------------------------------------------------------------- writes

  /** The POST body. Numbers arrive as their PHP text; a missing or null field is None. */
  datatype PostBody = PostBody(
    expenseDate: Option<string>,
    amount: Option<string>,
    userId: Option<string>,
    supplierId: Option<string>,
    categoryId: Option<string>,
    description: Option<string>,
    currency: Option<string>,
    paymentMethod: Option<string>,
    receiptUrl: PhpValue)

  /** POST needs a non-blank date and an amount that is neither null nor "". */
  predicate PostAccepted(b: PostBody) {
    PhpTrim(b.expenseDate.GetOr("")) != "" && b.amount.Some? && b.amount.value != ""
  }

  /** `(float) preg_replace('/[^0-9.]/', '', $amount_raw)`: signs and other characters are
      dropped before the number is read, so it is never negative. */
  function StoredAmount(raw: string): (a: real)
    ensures a >= 0.0
  {
    LeadingDecimal(KeepDigitsAndDots(raw)).GetOr(0.0)
  }

  /** A plain digit string is stored as its value, and a leading minus sign is lost. */
  lemma StoredAmountOfDigits(d: string)
    requires AllDigits(d) && d != []
    ensures StoredAmount(d) == DigitsValue(d) as real
    ensures StoredAmount("-" + d) == DigitsValue(d) as real
  {
    KeptDigits(d);
    DigitRunAll(d);
    assert d[..|d|] == d;
    assert KeepDigitsAndDots("-" + d) == d by { KeptAfterSign(d); }
  }

  lemma {:induction false} KeptAfterSign(d: string)
    ensures KeepDigitsAndDots("-" + d) == KeepDigitsAndDots(d)
  {
    if d != [] {
      var init := d[..|d| - 1];
      KeptAfterSign(init);
      assert ("-" + d)[..|"-" + d| - 1] == "-" + init;
    } else {
      assert KeepDigitsAndDots("-") == KeepDigitsAndDots("") + [];
    }
  }

  lemma {:induction false} KeptDigits(s: string)
    requires AllDigits(s)
    ensures KeepDigitsAndDots(s) == s
  {
    if s != [] {
      KeptDigits(s[..|s| - 1]);
      assert s == s[..|s| - 1] + [s[|s| - 1]];
    }
  }

  /** `!empty($x) ? (int)$x : null` */
  function OptionalId(x: Option<string>): (id: Option<int>)
    ensures id.None? <==> PhpEmpty(x)
  {
    if PhpEmpty(x) then None else Some(PhpIntval(x.value))
  }

  /** The row POST inserts under the id the table assigns. */
  function NewRow(id: int, b: PostBody, caller: Caller, codec: JsonCodec): (r: Row)
    requires PostAccepted(b)
    ensures r.id == id && r.addedBy == Some(caller.id) && r.amount >= 0.0
    ensures r.userId == (if b.userId.None? then caller.id else PhpIntval(b.userId.value))
    ensures r.currency == Some(b.currency.GetOr("USD"))
    ensures r.removedAt.None? && r.removedBy.None?
    ensures r.expenseDate == PhpTrim(b.expenseDate.value) && r.expenseDate != ""
  {
    Row(id,
        if b.userId.None? then caller.id else PhpIntval(b.userId.value),
        Some(caller.id),
        OptionalId(b.supplierId),
        OptionalId(b.categoryId),
        PhpTrim(b.expenseDate.value),
        b.description,
        StoredAmount(b.amount.value),
        Some(b.currency.GetOr("USD")),
        b.paymentMethod,
        ToDb(b.receiptUrl, codec),
        None,
        None)
  }

  /** The PATCH body: the expense id (None when missing or null) and the receipt value
      (None when the key is absent). */
  datatype PatchBody = PatchBody(id: Option<string>, receiptUrl: Option<PhpValue>)

  /** The id PATCH acts on: the body's, else the query string's, else 0. */
  function PatchId(b: PatchBody, queryId: Option<string>): int {
    if b.id.Some? then PhpIntval(b.id.value)
    else if queryId.Some? then PhpIntval(queryId.value)
    else 0
  }

  /** An entry of `expense_audit_log`. */
  datatype AuditEntry = AuditEntry(expenseId: int, action: string, userId: int, userName: string)

  predicate HasId(rows: seq<Row>, id: int) {
    exists i :: 0 <= i < |rows| && rows[i].id == id
  }

  predicate HasActive(rows: seq<Row>, id: int) {
    exists i :: 0 <= i < |rows| && rows[i].id == id && rows[i].removedAt.None?
  }

  /** `UPDATE expenses SET receipt_url = ? WHERE id = ?` */
  function SetReceipt(rows: seq<Row>, id: int, stored: Option<string>): (r: seq<Row>)
    ensures |r| == |rows|
    ensures forall i :: 0 <= i < |rows| ==> r[i] == if rows[i].id == id then rows[i].(receiptUrl := stored) else rows[i]
  {
    seq(|rows|, i requires 0 <= i < |rows| => if rows[i].id == id then rows[i].(receiptUrl := stored) else rows[i])
  }

  /** `UPDATE expenses SET removed_at = NOW(), removed_by = ? WHERE id = ? AND (removed_at IS NULL)` */
  function SoftRemove(rows: seq<Row>, id: int, remover: int, now: string): (r: seq<Row>)
    ensures |r| == |rows|
  {
    seq(|rows|, i requires 0 <= i < |rows| =>
      if rows[i].id == id && rows[i].removedAt.None? then rows[i].(removedAt := Some(now), removedBy := Some(remover))
      else rows[i])
  }

  /** Removing marks every active row with the id as removed by the caller, leaves rows
      already removed with their first remover, and touches no other row or column;
      afterwards no active row has the id, so a second removal finds nothing. */
  lemma SoftRemoveEffect(rows: seq<Row>, id: int, remover: int, now: string)
    ensures var r := SoftRemove(rows, id, remover, now);
      && (forall i :: 0 <= i < |rows| && rows[i].id == id && rows[i].removedAt.None? ==>
            r[i] == rows[i].(removedAt := Some(now), removedBy := Some(remover)))
      && (forall i :: 0 <= i < |rows| && (rows[i].id != id || rows[i].removedAt.Some?) ==> r[i] == rows[i])
      && !HasActive(r, id)
      && (forall i :: 0 <= i < |rows| ==> r[i].id == rows[i].id)
  {
    var r := SoftRemove(rows, id, remover, now);
    assert forall i :: 0 <= i < |r| && r[i].id == id ==> r[i].removedAt.Some?;
  }

  /** A row's own update never activates it again: what was removed stays removed. */
  lemma SoftRemoveMonotone(rows: seq<Row>, id: int, remover: int, now: string, other: int)
    requires !HasActive(rows, other)
    ensures !HasActive(SoftRemove(rows, id, remover, now), other)
  {
    var r := SoftRemove(rows, id, remover, now);
    assert forall i :: 0 <= i < |r| && r[i].removedAt.None? ==> r[i] == rows[i];
  }

  /** Every id in the table is positive and below the next id to hand out. */
  predicate IdsBelow(rows: seq<Row>, next: int) {
    forall i :: 0 <= i < |rows| ==> 1 <= rows[i].id < next
  }

  /** No two rows share an id (the primary key). */
  predicate DistinctIds(rows: seq<Row>) {
    forall i, j :: 0 <= i < j < |rows| ==> rows[i].id != rows[j].id
  }

  /** A row inserted under the next id keeps both. */
  lemma InsertKeepsIds(rows: seq<Row>, r: Row, next: int)
    requires IdsBelow(rows, next) && DistinctIds(rows) && 1 <= r.id == next
    ensures IdsBelow(rows + [r], next + 1) && DistinctIds(rows + [r])
  {
  }

  /** The expenses table and its audit log. `nextId` is the table's AUTO_INCREMENT. */
  class ExpenseStore {
    var rows: seq<Row>
    var audit: seq<AuditEntry>
    var nextId: int

    /** Ids are positive, below the next one, and distinct. */
    ghost predicate Valid()
      reads this
    {
      nextId >= 1 && IdsBelow(rows, nextId) && DistinctIds(rows)
    }

    constructor ()
      ensures Valid() && rows == [] && audit == [] && nextId == 1
    {
      rows, audit, nextId := [], [], 1;
    }

    /** POST: 400 without a date or an amount; otherwise one row is inserted under the
        next id, added by the caller, and an "added" audit entry follows. */
    method Post(b: PostBody, caller: Caller, codec: JsonCodec) returns (status: Status, id: int)
      requires Valid()
      modifies this
      ensures Valid()
      ensures !PostAccepted(b) ==> status == BadRequest && rows == old(rows) && audit == old(audit) && nextId == old(nextId)
      ensures PostAccepted(b) ==>
        && status == Created && id == old(nextId) && nextId == old(nextId) + 1
        && rows == old(rows) + [NewRow(id, b, caller, codec)]
        && audit == old(audit) + [AuditEntry(id, "added", caller.id, caller.name.GetOr(""))]
    {
      id := 0;
      if !PostAccepted(b) {
        return BadRequest, id;
      }
      id := nextId;
      InsertKeepsIds(rows, NewRow(id, b, caller, codec), nextId);
      rows := rows + [NewRow(id, b, caller, codec)];
      nextId := nextId + 1;
      audit := audit + [AuditEntry(id, "added", caller.id, caller.name.GetOr(""))];
      status := Created;
    }

    /** PATCH: only the receipt column may change. 400 for an id that is not positive or
        a body without `receipt_url`, 404 when no row has the id. */
    method Patch(b: PatchBody, queryId: Option<string>, codec: JsonCodec) returns (status: Status)
      requires Valid()
      modifies this
      ensures Valid() && audit == old(audit) && nextId == old(nextId)
      ensures status == BadRequest <==> PatchId(b, queryId) <= 0 || b.receiptUrl.None?
      ensures status == NotFound <==> PatchId(b, queryId) > 0 && b.receiptUrl.Some? && !HasId(old(rows), PatchId(b, queryId))
      ensures status == Ok ==> rows == SetReceipt(old(rows), PatchId(b, queryId), ToDb(b.receiptUrl.value, codec))
      ensures status != Ok ==> rows == old(rows)
    {
      var id := PatchId(b, queryId);
      if id <= 0 || b.receiptUrl.None? {
        return BadRequest;
      }
      if !HasId(rows, id) {
        return NotFound;
      }
      rows := SetReceipt(rows, id, ToDb(b.receiptUrl.value, codec));
      status := Ok;
    }

    /** DELETE: a soft delete. 400 for an id that is not positive, 404 when no active row
        has it (including one already removed); otherwise the row is marked removed by the
        caller and a "removed" audit entry is written after it. */
    method Delete(queryId: Option<string>, caller: Caller, now: string) returns (status: Status)
      requires Valid()
      modifies this
      ensures Valid() && nextId == old(nextId)
      ensures var id := if queryId.Some? then PhpIntval(queryId.value) else 0;
        && (status == BadRequest <==> id <= 0)
        && (status == NotFound <==> id > 0 && !HasActive(old(rows), id))
        && (status == Ok ==>
              && rows == SoftRemove(old(rows), id, caller.id, now)
              && audit == old(audit) + [AuditEntry(id, "removed", caller.id, caller.name.GetOr(""))]
              && !HasActive(rows, id))
        && (status != Ok ==> rows == old(rows) && audit == old(audit))
    {
      var id := if queryId.Some? then PhpIntval(queryId.value) else 0;
      if id <= 0 {
        return BadRequest;
      }
      if !HasActive(rows, id) {
        return NotFound;
      }
      SoftRemoveEffect(rows, id, caller.id, now);
      rows := SoftRemove(rows, id, caller.id, now);
      audit := audit + [AuditEntry(id, "removed", caller.id, caller.name.GetOr(""))];
      status := Ok;
    }
  }
}
