/**
 * The client's reporting pipeline over the loaded expense rows: the active (not
 * soft-removed) rows, the two currency totals with their USD equivalent, and the
 * per-payer, per-supplier and per-category rows with a running USD and BWP sum each.
 */
module Reporting {
  import opened Wrappers
  import opened Seqs
  import opened Grouping
  import opened Records
  import opened Currency

  /** The rows the aggregates are computed from: those without a truthy `removed_at`. */
  function ActiveExpenses(expenses: seq<Expense>): seq<Expense> {
    Filter(expenses, IsActive)
  }

  /** The active rows are exactly the non-removed rows, in their original order. */
  lemma ActiveExpensesSpec(expenses: seq<Expense>)
    ensures IsSubsequence(ActiveExpenses(expenses), expenses)
    ensures forall i :: 0 <= i < |ActiveExpenses(expenses)| ==> IsActive(ActiveExpenses(expenses)[i])
    ensures forall i :: 0 <= i < |expenses| && IsActive(expenses[i]) ==> expenses[i] in ActiveExpenses(expenses)
  {
    FilterIsSubsequence(expenses, IsActive);
    FilterKeeps(expenses, IsActive);
  }

  datatype CurrencyTotals = CurrencyTotals(totalUsd: real, totalBwp: real, totalInUsdEquiv: real)

  /** `currencyTotals`: one pass over `list`, the active rows, adding each amount to its
      bucket. */
  method ComputeCurrencyTotals(list: seq<Expense>, rate: Option<real>) returns (t: CurrencyTotals)
    ensures t.totalUsd == Sum(list, UsdPart)
    ensures t.totalBwp == Sum(list, BwpPart)
    ensures t.totalInUsdEquiv == Equivalent(t.totalUsd, t.totalBwp, rate)
  {
    var totalUsd := 0.0;
    var totalBwp := 0.0;
    for n := 0 to |list|
      invariant totalUsd == Sum(list[..n], UsdPart)
      invariant totalBwp == Sum(list[..n], BwpPart)
    {
      var e := list[n];
      assert list[..n + 1][..n] == list[..n];
      var amt := AmountOf(e);
      if CurrencyCode(e.currency) == "BWP" {
        totalBwp := totalBwp + amt;
      } else {
        totalUsd := totalUsd + amt;
      }
    }
    assert list[..|list|] == list;
    t := CurrencyTotals(totalUsd, totalBwp, Equivalent(totalUsd, totalBwp, rate));
  }

  function ActiveOnly(f: Expense -> real): Expense -> real {
    e => if IsActive(e) then f(e) else 0.0
  }

  /**
   * Soft-removing an active row lowers each bucket's total by exactly that row's share
   * and changes nothing else: removed rows never reach the aggregates.
   */
  lemma SoftRemoveLowersTotals(expenses: seq<Expense>, i: nat, removedAt: string)
    requires i < |expenses| && IsActive(expenses[i]) && removedAt != ""
    ensures var after := expenses[i := expenses[i].(removedAt := Some(removedAt))];
      && Sum(ActiveExpenses(after), UsdPart) == Sum(ActiveExpenses(expenses), UsdPart) - UsdPart(expenses[i])
      && Sum(ActiveExpenses(after), BwpPart) == Sum(ActiveExpenses(expenses), BwpPart) - BwpPart(expenses[i])
  {
    var after := expenses[i := expenses[i].(removedAt := Some(removedAt))];
    SumFilter(expenses, IsActive, UsdPart, ActiveOnly(UsdPart));
    SumFilter(after, IsActive, UsdPart, ActiveOnly(UsdPart));
    SumUpdate(expenses, i, after[i], ActiveOnly(UsdPart));
    SumFilter(expenses, IsActive, BwpPart, ActiveOnly(BwpPart));
    SumFilter(after, IsActive, BwpPart, ActiveOnly(BwpPart));
    SumUpdate(expenses, i, after[i], ActiveOnly(BwpPart));
  }

  /** The three summary groupings of the dashboard. */
  datatype GroupingKind = ByUser | BySupplier | ByCategory

  /** The `Map` key of a row: `String(user_id ?? user_name ?? "?")` for payers,
      `supplier_name || "(No supplier)"`, `category_name || "(No category)"`. */
  function GroupKey(kind: GroupingKind, e: Expense): string {
    match kind
    case ByUser => if e.userId.Some? then IdText(e.userId.value) else e.userName.GetOr("?")
    case BySupplier => OrText(e.supplierName, "(No supplier)")
    case ByCategory => OrText(e.categoryName, "(No category)")
  }

  function KeyOf(kind: GroupingKind): Expense -> string {
    e => GroupKey(kind, e)
  }

  /** A `Map` entry while it is being filled: the row that created it and the two sums. */
  datatype Acc = Acc(first: Option<Expense>, usd: real, bwp: real)

  /** `map.get(key).BWP += amt` or `map.get(key).USD += amt`. */
  function AddAmount(a: Acc, e: Expense): Acc {
    if CurrencyCode(e.currency) == "BWP" then a.(bwp := a.bwp + AmountOf(e))
    else a.(usd := a.usd + AmountOf(e))
  }

  /** The entry a finished group holds. */
  function AccOf(g: Group<Expense>): Acc {
    Acc(if g.members == [] then None else Some(g.members[0]),
        Sum(g.members, UsdPart), Sum(g.members, BwpPart))
  }

  /** The row built from an entry, with `totalInUsdEquiv` added. A payer row keeps the
      first row's `user_id` and `user_name ?? "—"`; the other rows keep only the key. */
  function RowOf(kind: GroupingKind, key: string, a: Acc, rate: Option<real>): SummaryItem {
    var equiv := Some(Equivalent(a.usd, a.bwp, rate));
    match kind
    case ByUser =>
      var id := if a.first.Some? then a.first.value.userId else None;
      var name := if a.first.Some? then a.first.value.userName.GetOr("—") else "—";
      SummaryItem(id, Some(name), None, None, None, None, Some(a.usd), Some(a.bwp), equiv, None)
    case BySupplier =>
      SummaryItem(None, None, Some(key), None, None, None, Some(a.usd), Some(a.bwp), equiv, None)
    case ByCategory =>
      SummaryItem(None, None, None, None, Some(key), None, Some(a.usd), Some(a.bwp), equiv, None)
  }

  function RowOfGroup(kind: GroupingKind, rate: Option<real>): Group<Expense> -> SummaryItem {
    (g: Group<Expense>) => RowOf(kind, g.key, AccOf(g), rate)
  }

  /** The specification of a grouping: one row per key in first-appearance order, each
      summing the active rows with that key. */
  function GroupRows(kind: GroupingKind, list: seq<Expense>, rate: Option<real>): seq<SummaryItem> {
    Map(GroupBy(list, KeyOf(kind)), RowOfGroup(kind, rate))
  }

  /** The method's `Map`, split into its keys, entries and key-to-position index, holds
      the groups `gs`. */
  ghost predicate Tracks(gs: seq<Group<Expense>>, keys: seq<string>, accs: seq<Acc>, index: map<string, nat>) {
    && |keys| == |accs| == |gs|
    && (forall i :: 0 <= i < |gs| ==> keys[i] == gs[i].key && accs[i] == AccOf(gs[i]))
    && Indexes(keys, index)
  }

  lemma GroupByKeys(s: seq<Expense>, key: Expense -> string)
    ensures KeysUnique(GroupBy(s, key))
    ensures forall i :: 0 <= i < |GroupBy(s, key)| ==> GroupBy(s, key)[i].members != []
  {
    GroupByShape(s, key);
  }

  /** One step of the accumulation keeps the `Map` in step with `Insert`. */
  lemma TrackInsert(gs: seq<Group<Expense>>, keys: seq<string>, accs: seq<Acc>, index: map<string, nat>,
                    k: string, e: Expense,
                    keys': seq<string>, accs': seq<Acc>, index': map<string, nat>)
    requires Tracks(gs, keys, accs, index) && KeysUnique(gs)
    requires forall i :: 0 <= i < |gs| ==> gs[i].members != []
    requires k !in index ==> && index' == index[k := |accs|] && keys' == keys + [k]
                             && accs' == accs + [AddAmount(Acc(Some(e), 0.0, 0.0), e)]
    requires k in index ==> && index' == index && keys' == keys
                            && accs' == accs[index[k] := AddAmount(accs[index[k]], e)]
    ensures Tracks(Insert(gs, k, e), keys', accs', index')
  {
    var gs' := Insert(gs, k, e);
    var idx := FindKey(gs, k);
    IndexesInsert(keys, index, k, keys', index');
    if k in index {
      assert idx == index[k];
    } else {
      assert idx < 0;
    }
    forall j | 0 <= j < |gs'|
      ensures keys'[j] == gs'[j].key && accs'[j] == AccOf(gs'[j])
    {
      if j == |gs| {
        AccOfAppend(k, [], e);
      } else if j == idx {
        AccOfAppend(k, gs[j].members, e);
      }
    }
  }

  /** Adding a row's amount to an entry is what appending the row to its group does. */
  lemma AccOfAppend(k: string, m: seq<Expense>, e: Expense)
    ensures AccOf(Group(k, m + [e])) ==
      AddAmount(if m == [] then Acc(Some(e), 0.0, 0.0) else AccOf(Group(k, m)), e)
  {
    var m' := m + [e];
    assert m'[..|m|] == m;
    assert Sum(m', UsdPart) == Sum(m, UsdPart) + UsdPart(e);
    assert Sum(m', BwpPart) == Sum(m, BwpPart) + BwpPart(e);
    if m == [] {
      assert m' == [e];
    } else {
      assert m'[0] == m[0];
    }
  }

  /** `byUserWithCurrency`, `bySupplierWithCurrency` and `byCategoryWithCurrency`: a
      `Map` from key to entry filled by one pass over `list`, the active rows. */
  method GroupWithCurrency(kind: GroupingKind, list: seq<Expense>, rate: Option<real>)
    returns (rows: seq<SummaryItem>)
    ensures rows == GroupRows(kind, list, rate)
  {
    var key := KeyOf(kind);
    var index: map<string, nat> := map[];
    var keys: seq<string> := [];
    var accs: seq<Acc> := [];
    for n := 0 to |list|
      invariant Tracks(GroupBy(list[..n], key), keys, accs, index)
    {
      var e := list[n];
      var k := key(e);
      ghost var gs := GroupBy(list[..n], key);
      ghost var keys0, accs0, index0 := keys, accs, index;
      GroupByKeys(list[..n], key);
      assert list[..n + 1][..n] == list[..n];
      assert GroupBy(list[..n + 1], key) == Insert(gs, k, e);
      if k !in index {
        index := index[k := |accs|];
        keys := keys + [k];
        accs := accs + [Acc(Some(e), 0.0, 0.0)];
      }
      var i := index[k];
      accs := accs[i := AddAmount(accs[i], e)];
      if k !in index0 {
        assert i == |accs0|;
        UpdateLast(accs0, Acc(Some(e), 0.0, 0.0), AddAmount(Acc(Some(e), 0.0, 0.0), e));
      } else {
        assert i == index0[k];
      }
      TrackInsert(gs, keys0, accs0, index0, k, e, keys, accs, index);
    }
    assert list[..|list|] == list;
    rows := seq(|accs|, i requires 0 <= i < |accs| => RowOf(kind, keys[i], accs[i], rate));
    ghost var gs := GroupBy(list, key);
    assert forall i :: 0 <= i < |rows| ==> rows[i] == RowOfGroup(kind, rate)(gs[i]);
  }

  function UsdOf(r: SummaryItem): real { r.usd.GetOr(0.0) }

  function BwpOf(r: SummaryItem): real { r.bwp.GetOr(0.0) }

  function EquivOf(r: SummaryItem): real { r.totalInUsdEquiv.GetOr(0.0) }

  /** A column of the grouping rows sums to the column's share summed over all rows,
      when each row's entry is the sum of that share over its group. */
  lemma {:induction false} GroupColumnSum(kind: GroupingKind, list: seq<Expense>, rate: Option<real>,
                                          col: SummaryItem -> real, part: Expense -> real)
    requires forall g :: col(RowOfGroup(kind, rate)(g)) == Sum(g.members, part)
    ensures Sum(GroupRows(kind, list, rate), col) == Sum(list, part)
  {
    var gs := GroupBy(list, KeyOf(kind));
    var rowOf := RowOfGroup(kind, rate);
    SumMap(gs, rowOf, col, GroupSum(part));
    GroupBySum(list, KeyOf(kind), part);
  }

  /**
   * Every grouping adds up to the grand totals: its USD column sums to `totalUSD`, its
   * BWP column to `totalBWP` and its equivalent column to `totalInUsdEquiv`.
   */
  lemma GroupRowsAddUp(kind: GroupingKind, list: seq<Expense>, rate: Option<real>)
    ensures var rows := GroupRows(kind, list, rate);
      && Sum(rows, UsdOf) == Sum(list, UsdPart)
      && Sum(rows, BwpOf) == Sum(list, BwpPart)
      && Sum(rows, EquivOf) == Equivalent(Sum(rows, UsdOf), Sum(rows, BwpOf), rate)
  {
    var rows := GroupRows(kind, list, rate);
    GroupColumnSum(kind, list, rate, UsdOf, UsdPart);
    GroupColumnSum(kind, list, rate, BwpOf, BwpPart);
    var c := EffectiveRate(rate);
    forall r | true
      ensures EquivOf(RowOfGroup(kind, rate)(r)) == UsdOf(RowOfGroup(kind, rate)(r)) + BwpOf(RowOfGroup(kind, rate)(r)) / c
    {
    }
    EquivColumn(rows, c, rate);
  }

  lemma EquivColumn(rows: seq<SummaryItem>, c: real, rate: Option<real>)
    requires c == EffectiveRate(rate)
    requires forall r :: r in rows ==> EquivOf(r) == UsdOf(r) + BwpOf(r) / c
    ensures Sum(rows, EquivOf) == Sum(rows, UsdOf) + Sum(rows, BwpOf) / c
  {
    var h := (r: SummaryItem) => if r in rows then EquivOf(r) else UsdOf(r) + BwpOf(r) / c;
    SumCongruent(rows, EquivOf, h);
    SumLinear(rows, UsdOf, BwpOf, c, h);
  }

  /** Each grouping row sums exactly the active rows carrying its key, and distinct rows
      have distinct keys. */
  lemma GroupRowsAreGroups(kind: GroupingKind, expenses: seq<Expense>, rate: Option<real>)
    ensures var list := ActiveExpenses(expenses);
      var gs := GroupBy(list, KeyOf(kind));
      var rows := GroupRows(kind, list, rate);
      && KeysUnique(gs) && |rows| == |gs|
      && forall i :: 0 <= i < |rows| ==>
           && UsdOf(rows[i]) == Sum(Filter(list, KeyIs(KeyOf(kind), gs[i].key)), UsdPart)
           && BwpOf(rows[i]) == Sum(Filter(list, KeyIs(KeyOf(kind), gs[i].key)), BwpPart)
  {
    var list := ActiveExpenses(expenses);
    var gs := GroupBy(list, KeyOf(kind));
    GroupByShape(list, KeyOf(kind));
    forall i | 0 <= i < |gs|
      ensures UsdOf(GroupRows(kind, list, rate)[i]) == Sum(gs[i].members, UsdPart)
      ensures BwpOf(GroupRows(kind, list, rate)[i]) == Sum(gs[i].members, BwpPart)
    {
      RowSums(kind, rate, gs[i]);
    }
  }

  /** A group's row carries the sums of the group's two currency columns. */
  lemma RowSums(kind: GroupingKind, rate: Option<real>, g: Group<Expense>)
    ensures UsdOf(RowOfGroup(kind, rate)(g)) == Sum(g.members, UsdPart)
    ensures BwpOf(RowOfGroup(kind, rate)(g)) == Sum(g.members, BwpPart)
  {
  }
}
