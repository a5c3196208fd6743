/**
 * The bulk CSV import of the client (`handleBulkCsv` in src/App.jsx): which parsed rows
 * become expenses, how their fields are cleaned, how category and supplier names are
 * looked up (and, in local mode, added when unknown), and how the rows are stored.
 */
module BulkImport {
  import opened Wrappers
  import opened Text
  import opened Seqs
  import opened Numbers
  import opened Records
  import opened Csv
  import opened LocalMode
  import JsValues

  /** `row.k` of a parsed row; a missing column reads as "", which `||` treats alike. */
  function Column(row: map<string, string>, k: string): string {
    if k in row then row[k] else ""
  }

  /** `a || b` on text. */
  function Either(a: string, b: string): string {
    if a != "" then a else b
  }

  /** `(row.date || row.expense_date || "").trim()` */
  function RowDate(row: map<string, string>): string {
    JsTrim(Either(Column(row, "date"), Column(row, "expense_date")))
  }

  /** `parseFloat` of the amount with everything but digits and dots removed; None is NaN. */
  function RowAmount(row: map<string, string>): Option<real> {
    LeadingDecimal(KeepDigitsAndDots(Either(Column(row, "amount"), "0")))
  }

  /** A row is imported only with a date and a finite amount above zero. */
  predicate Accepted(row: map<string, string>) {
    RowDate(row) != "" && RowAmount(row).Some? && RowAmount(row).value > 0.0
  }

  /** "BWP" when the upper-cased `currency` (or `curr`) column is "BWP"; "USD" otherwise. */
  function RowCurrency(row: map<string, string>): (c: string)
    ensures c == "BWP" || c == "USD"
    ensures Column(row, "currency") == "bwp" ==> c == "BWP"
    ensures Column(row, "currency") == "" && Column(row, "curr") == "" ==> c == "USD"
  {
    var raw := Either(Either(Column(row, "currency"), Column(row, "curr")), "USD");
    assert Column(row, "currency") == "bwp" ==> ToUpper(raw) == "BWP";
    assert raw == "USD" ==> ToUpper(raw) != "BWP" by {
      if raw == "USD" { assert ToUpper(raw)[0] == 'U'; }
    }
    if ToUpper(raw) == "BWP" then "BWP" else "USD"
  }

  /** The lookup key of a name column: trimmed and lower-cased. */
  function LookupKey(row: map<string, string>, col: string): string {
    ToLower(JsTrim(Column(row, col)))
  }

  /** `Object.fromEntries(list.map((c) => [c.name.toLowerCase(), c.id]))`: an index from
      lower-cased names to ids. */
  function NameIndex(list: seq<Named>): map<string, Id> {
    if list == [] then map[] else NameIndex(list[..|list| - 1])[ToLower(list[|list| - 1].name) := list[|list| - 1].id]
  }

  /** The index has a key for exactly the lower-cased names of the list. */
  lemma {:induction false} NameIndexKeys(list: seq<Named>)
    ensures forall k :: k in NameIndex(list) <==> exists i :: 0 <= i < |list| && ToLower(list[i].name) == k
  {
    if list != [] {
      var n := |list| - 1;
      NameIndexKeys(list[..n]);
      assert forall i :: 0 <= i < n ==> list[..n][i] == list[i];
    }
  }

  /** When two entries share a lower-cased name, the later one wins. */
  lemma {:induction false} NameIndexLastWins(list: seq<Named>, i: nat)
    requires i < |list|
    requires forall j :: i < j < |list| ==> ToLower(list[j].name) != ToLower(list[i].name)
    ensures ToLower(list[i].name) in NameIndex(list) && NameIndex(list)[ToLower(list[i].name)] == list[i].id
  {
    var n := |list| - 1;
    if i < n {
      assert list[..n][i] == list[i];
      NameIndexLastWins(list[..n], i);
    }
  }

  /** `id || null` */
  function NonFalsy(id: Option<Id>): (r: Option<Id>)
    ensures r.Some? <==> !IdFalsy(id)
    ensures r.Some? ==> r == id
  {
    if IdFalsy(id) then None else id
  }

  /** The expense a row becomes, before its category and supplier are looked up: trimmed
      date and description, the parsed amount, the currency, and the payer when given. */
  function Draft(row: map<string, string>, userId: Option<Id>): NewExpense {
    NewExpense(Some(RowDate(row)), JsValues.Finite(RowAmount(row).GetOr(0.0)), Some(RowCurrency(row)),
               userId, None, None, Some(JsTrim(Column(row, "description"))), None, None)
  }

  /** The two tables a name may be looked up in. */
  datatype Table = CategoryTable | SupplierTable {
    function Prefix(): string {
      if CategoryTable? then "Category " else "Supplier "
    }
  }

  function Entries(store: LocalStore, t: Table): seq<Named>
    reads store
  {
    if t == CategoryTable then store.categories else store.suppliers
  }

  /**
   * What a looked-up id says about the name it came from: the id the App's list had for
   * it (dropped when falsy); otherwise, in local mode and for a non-blank name, the id of
   * an entry of `entries` with that name; otherwise nothing.
   */
  predicate ResolvedAs(id: Option<Id>, key: string, index0: map<string, Id>, local: bool, entries: seq<Named>) {
    if key in index0 then id == NonFalsy(Some(index0[key]))
    else if key == "" || !local then id == None
    else id.Some? && !IdFalsy(id) && exists x :: x in entries && x.id == id.value && ToLower(x.name) == key
  }

  /** The running index: the App's entries as they were, plus names added on the way,
      each naming an entry of `entries` under a truthy id. */
  predicate IndexGrown(index: map<string, Id>, index0: map<string, Id>, local: bool, entries: seq<Named>) {
    && (forall k :: k in index0 ==> k in index && index[k] == index0[k])
    && (forall k :: k in index && k !in index0 ==>
          local && k != "" && !IdFalsy(Some(index[k]))
          && exists x :: x in entries && x.id == index[k] && ToLower(x.name) == k)
  }

  lemma ResolvedGrows(id: Option<Id>, key: string, index0: map<string, Id>, local: bool,
                      entries: seq<Named>, more: seq<Named>)
    requires ResolvedAs(id, key, index0, local, entries)
    ensures ResolvedAs(id, key, index0, local, entries + more)
  {
    if key !in index0 && key != "" && local {
      var x :| x in entries && x.id == id.value && ToLower(x.name) == key;
      assert x in entries + more;
    }
  }

  lemma IndexGrows(index: map<string, Id>, index0: map<string, Id>, local: bool,
                   entries: seq<Named>, more: seq<Named>)
    requires IndexGrown(index, index0, local, entries)
    ensures IndexGrown(index, index0, local, entries + more)
  {
    forall k | k in index && k !in index0
      ensures exists x :: x in entries + more && x.id == index[k] && ToLower(x.name) == k
    {
      var x :| x in entries && x.id == index[k] && ToLower(x.name) == k;
      assert x in entries + more;
    }
  }

  /** An entry added for a non-blank name is found again under that name, and its id is
      truthy. */
  lemma AddedEntry(entries: seq<Named>, raw: string, t: Table)
    requires ToLower(JsTrim(raw)) != ""
    ensures var x := NewNamed(entries, raw, t.Prefix());
      ToLower(x.name) == ToLower(JsTrim(raw)) && !IdFalsy(Some(x.id)) && x.id.NumId?
  {
    NewNamedSpec(entries, raw, t.Prefix());
  }

  /**
   * One name lookup: the id the index holds for the trimmed, lower-cased name; in local
   * mode a non-blank unknown name is added to the store's table and to the index.
   */
  method Resolve(store: LocalStore?, t: Table, index: map<string, Id>, raw: string)
    returns (id: Option<Id>, index': map<string, Id>)
    modifies store
    ensures store != null ==> store.users == old(store.users) && store.expenses == old(store.expenses)
    ensures store != null && t == CategoryTable ==> store.suppliers == old(store.suppliers)
    ensures store != null && t == SupplierTable ==> store.categories == old(store.categories)
    ensures var key := ToLower(JsTrim(raw));
      if key in index || key == "" || store == null then
        && id == (if key in index then NonFalsy(Some(index[key])) else None)
        && index' == index
        && (store != null ==> Entries(store, t) == old(Entries(store, t)))
      else
        var x := NewNamed(old(Entries(store, t)), raw, t.Prefix());
        && Entries(store, t) == old(Entries(store, t)) + [x]
        && id == Some(x.id) && index' == index[key := x.id]
  {
    var key := ToLower(JsTrim(raw));
    if key in index {
      return NonFalsy(Some(index[key])), index;
    }
    if key == "" || store == null {
      return None, index;
    }
    var x;
    if t == CategoryTable {
      x := store.AddCategory(raw);
    } else {
      x := store.AddSupplier(raw);
    }
    AddedEntry(old(Entries(store, t)), raw, t);
    id := NonFalsy(Some(x.id));
    index' := index[key := x.id];
  }

  /** What the loop reads from one row: the expense drafted from it, and the category and
      supplier columns with their lookup keys. */
  datatype ParsedRow = ParsedRow(draft: NewExpense, category: string, categoryKey: string,
                                 supplier: string, supplierKey: string)

  function ParseRow(row: map<string, string>): ParsedRow {
    ParsedRow(Draft(row, None), Column(row, "category"), LookupKey(row, "category"),
              Column(row, "supplier"), LookupKey(row, "supplier"))
  }

  /** The parsed accepted rows, in order: the loop's view of `rows`. */
  function ParseAccepted(rows: seq<map<string, string>>): seq<ParsedRow> {
    if rows == [] then []
    else
      var n := |rows| - 1;
      ParseAccepted(rows[..n]) + if Accepted(rows[n]) then [ParseRow(rows[n])] else []
  }

  /** Parsing the accepted rows one by one is mapping `ParseRow` over the filtered rows. */
  lemma {:induction false} ParseAcceptedIsMap(rows: seq<map<string, string>>)
    ensures ParseAccepted(rows) == Map(Filter(rows, Accepted), ParseRow)
  {
    if rows != [] {
      var n := |rows| - 1;
      ParseAcceptedIsMap(rows[..n]);
      if Accepted(rows[n]) {
        MapAppend(Filter(rows[..n], Accepted), rows[n], ParseRow);
      }
    }
  }

  /** The expense planned for a row: its draft, with the category and supplier ids the
      row's names resolve to. */
  predicate Planned(x: NewExpense, userId: Option<Id>, p: ParsedRow,
                    categories0: map<string, Id>, suppliers0: map<string, Id>, local: bool,
                    categories: seq<Named>, suppliers: seq<Named>) {
    && x == p.draft.(userId := userId, categoryId := x.categoryId, supplierId := x.supplierId)
    && ResolvedAs(x.categoryId, p.categoryKey, categories0, local, categories)
    && ResolvedAs(x.supplierId, p.supplierKey, suppliers0, local, suppliers)
  }

  /** Every planned expense matches the parsed row at the same position. */
  predicate AllPlanned(toAdd: seq<NewExpense>, userId: Option<Id>, ps: seq<ParsedRow>,
                       categories0: map<string, Id>, suppliers0: map<string, Id>, local: bool,
                       cats: seq<Named>, sups: seq<Named>)
    decreases |toAdd|
  {
    && |toAdd| == |ps|
    && (toAdd != [] ==>
      && AllPlanned(toAdd[..|toAdd| - 1], userId, ps[..|ps| - 1], categories0, suppliers0, local, cats, sups)
      && Planned(toAdd[|toAdd| - 1], userId, ps[|ps| - 1], categories0, suppliers0, local, cats, sups))
  }

  lemma {:induction false} AllPlannedGrow(toAdd: seq<NewExpense>, userId: Option<Id>, ps: seq<ParsedRow>,
                       categories0: map<string, Id>, suppliers0: map<string, Id>, local: bool,
                       cats: seq<Named>, catMore: seq<Named>, sups: seq<Named>, supMore: seq<Named>)
    requires AllPlanned(toAdd, userId, ps, categories0, suppliers0, local, cats, sups)
    ensures AllPlanned(toAdd, userId, ps, categories0, suppliers0, local, cats + catMore, sups + supMore)
    decreases |toAdd|
  {
    if toAdd != [] {
      var n := |toAdd| - 1;
      AllPlannedGrow(toAdd[..n], userId, ps[..n], categories0, suppliers0, local, cats, catMore, sups, supMore);
      ResolvedGrows(toAdd[n].categoryId, ps[n].categoryKey, categories0, local, cats, catMore);
      ResolvedGrows(toAdd[n].supplierId, ps[n].supplierKey, suppliers0, local, sups, supMore);
    }
  }

  lemma {:induction false} AllPlannedAt(toAdd: seq<NewExpense>, userId: Option<Id>, ps: seq<ParsedRow>,
                       categories0: map<string, Id>, suppliers0: map<string, Id>, local: bool,
                       cats: seq<Named>, sups: seq<Named>)
    requires AllPlanned(toAdd, userId, ps, categories0, suppliers0, local, cats, sups)
    ensures |toAdd| == |ps|
    ensures forall k :: 0 <= k < |toAdd| ==> Planned(toAdd[k], userId, ps[k], categories0, suppliers0, local, cats, sups)
    decreases |toAdd|
  {
    if toAdd != [] {
      var n := |toAdd| - 1;
      AllPlannedAt(toAdd[..n], userId, ps[..n], categories0, suppliers0, local, cats, sups);
      forall k | 0 <= k < n
        ensures Planned(toAdd[k], userId, ps[k], categories0, suppliers0, local, cats, sups)
      {
        assert toAdd[..n][k] == toAdd[k] && ps[..n][k] == ps[k];
      }
    }
  }

  lemma ResolvedKnown(index: map<string, Id>, index0: map<string, Id>, local: bool, entries: seq<Named>, key: string)
    requires IndexGrown(index, index0, local, entries) && key in index
    ensures ResolvedAs(NonFalsy(Some(index[key])), key, index0, local, entries)
  {
  }

  lemma ResolvedAdded(index: map<string, Id>, index0: map<string, Id>, entries: seq<Named>, key: string, x: Named)
    requires IndexGrown(index, index0, true, entries) && key !in index && key != ""
    requires ToLower(x.name) == key && !IdFalsy(Some(x.id))
    ensures ResolvedAs(Some(x.id), key, index0, true, entries + [x])
    ensures IndexGrown(index[key := x.id], index0, true, entries + [x])
  {
    assert x in entries + [x];
    IndexGrows(index, index0, true, entries, [x]);
  }

  /** One lookup seen against the App's original index: the id resolves as promised, and
      the running index stays grown over the (possibly extended) table. */
  method ResolveStep(store: LocalStore?, t: Table, index0: map<string, Id>, index: map<string, Id>,
                     raw: string, ghost entries: seq<Named>)
    returns (id: Option<Id>, index': map<string, Id>, ghost more: seq<Named>)
    requires IndexGrown(index, index0, store != null, entries)
    requires store != null ==> entries == Entries(store, t)
    modifies store
    ensures store != null ==> store.users == old(store.users) && store.expenses == old(store.expenses)
    ensures store != null && t == CategoryTable ==> store.suppliers == old(store.suppliers)
    ensures store != null && t == SupplierTable ==> store.categories == old(store.categories)
    ensures store != null ==> Entries(store, t) == entries + more
    ensures store == null ==> more == []
    ensures ResolvedAs(id, ToLower(JsTrim(raw)), index0, store != null, entries + more)
    ensures IndexGrown(index', index0, store != null, entries + more)
  {
    var key := ToLower(JsTrim(raw));
    id, index' := Resolve(store, t, index, raw);
    if key in index {
      more := [];
      assert entries + more == entries;
      ResolvedKnown(index, index0, store != null, entries, key);
    } else if key == "" || store == null {
      more := [];
      assert entries + more == entries;
    } else {
      ghost var x := NewNamed(entries, raw, t.Prefix());
      AddedEntry(entries, raw, t);
      more := [x];
      ResolvedAdded(index, index0, entries, key, x);
    }
  }

  /** One accepted row of the loop: its category and supplier looked up, and the expense
      it becomes appended to the plan. */
  method PlanRow(store: LocalStore?, userId: Option<Id>, row: map<string, string>,
                 categories0: map<string, Id>, suppliers0: map<string, Id>,
                 catIndex: map<string, Id>, supIndex: map<string, Id>, toAdd: seq<NewExpense>,
                 ghost cats: seq<Named>, ghost sups: seq<Named>, ghost ps: seq<ParsedRow>)
    returns (catIndex': map<string, Id>, supIndex': map<string, Id>, toAdd': seq<NewExpense>,
             ghost cats': seq<Named>, ghost sups': seq<Named>)
    requires IndexGrown(catIndex, categories0, store != null, cats)
    requires IndexGrown(supIndex, suppliers0, store != null, sups)
    requires store != null ==> cats == store.categories && sups == store.suppliers
    requires AllPlanned(toAdd, userId, ps, categories0, suppliers0, store != null, cats, sups)
    modifies store
    ensures AllPlanned(toAdd', userId, ps + [ParseRow(row)], categories0, suppliers0, store != null, cats', sups')
    ensures IndexGrown(catIndex', categories0, store != null, cats')
    ensures IndexGrown(supIndex', suppliers0, store != null, sups')
    ensures store != null ==> cats' == store.categories && sups' == store.suppliers
    ensures store == null ==> cats' == cats && sups' == sups
    ensures store != null ==> store.users == old(store.users) && store.expenses == old(store.expenses)
    ensures store != null ==> old(store.categories) <= store.categories && old(store.suppliers) <= store.suppliers
  {
    var local := store != null;
    var p := ParseRow(row);
    var catId, supId;
    ghost var catMore, supMore;
    catId, catIndex', catMore := ResolveStep(store, CategoryTable, categories0, catIndex, p.category, cats);
    supId, supIndex', supMore := ResolveStep(store, SupplierTable, suppliers0, supIndex, p.supplier, sups);
    var x := p.draft.(userId := userId, categoryId := catId, supplierId := supId);
    toAdd', cats', sups' := toAdd + [x], cats + catMore, sups + supMore;
    PlannedStep(toAdd, x, userId, ps, p, categories0, suppliers0, local, cats, catMore, sups, supMore);
  }

  lemma PlannedStep(toAdd: seq<NewExpense>, x: NewExpense, userId: Option<Id>, ps: seq<ParsedRow>, p: ParsedRow,
                    categories0: map<string, Id>, suppliers0: map<string, Id>, local: bool,
                    cats: seq<Named>, catMore: seq<Named>, sups: seq<Named>, supMore: seq<Named>)
    requires AllPlanned(toAdd, userId, ps, categories0, suppliers0, local, cats, sups)
    requires x == p.draft.(userId := userId, categoryId := x.categoryId, supplierId := x.supplierId)
    requires ResolvedAs(x.categoryId, p.categoryKey, categories0, local, cats + catMore)
    requires ResolvedAs(x.supplierId, p.supplierKey, suppliers0, local, sups + supMore)
    ensures AllPlanned(toAdd + [x], userId, ps + [p], categories0, suppliers0, local, cats + catMore, sups + supMore)
  {
    AllPlannedGrow(toAdd, userId, ps, categories0, suppliers0, local, cats, catMore, sups, supMore);
    assert (toAdd + [x])[..|toAdd|] == toAdd && (ps + [p])[..|ps|] == ps;
  }

  /**
   * The loop of `handleBulkCsv`: one expense per accepted row, in order. The payer is
   * `whoId` in local mode (`store` present) and left to the server otherwise. Category
   * and supplier names resolve through the App's lists; in local mode unknown names are
   * added to the store, which otherwise keeps its users and expenses.
   */
  method PlanImport(rows: seq<map<string, string>>, categories: seq<Named>, suppliers: seq<Named>,
                    whoId: Option<Id>, store: LocalStore?) returns (toAdd: seq<NewExpense>)
    modifies store
    ensures AllPlanned(toAdd, if store != null then whoId else None, ParseAccepted(rows),
                       NameIndex(categories), NameIndex(suppliers), store != null,
                       if store != null then store.categories else [], if store != null then store.suppliers else [])
    ensures store != null ==> store.users == old(store.users) && store.expenses == old(store.expenses)
    ensures store != null ==> old(store.categories) <= store.categories && old(store.suppliers) <= store.suppliers
  {
    var local := store != null;
    var uid := if local then whoId else None;
    var cat0 := NameIndex(categories);
    var sup0 := NameIndex(suppliers);
    var catIndex, supIndex := cat0, sup0;
    ghost var cats: seq<Named> := if local then store.categories else [];
    ghost var sups: seq<Named> := if local then store.suppliers else [];
    ghost var ps: seq<ParsedRow> := [];
    toAdd := [];
    for i := 0 to |rows|
      invariant ps == ParseAccepted(rows[..i])
      invariant AllPlanned(toAdd, uid, ps, cat0, sup0, local, cats, sups)
      invariant IndexGrown(catIndex, cat0, local, cats) && IndexGrown(supIndex, sup0, local, sups)
      invariant local ==> cats == store.categories && sups == store.suppliers
      invariant !local ==> cats == [] && sups == []
      invariant local ==> store.users == old(store.users) && store.expenses == old(store.expenses)
      invariant local ==> old(store.categories) <= store.categories && old(store.suppliers) <= store.suppliers
    {
      var row := rows[i];
      ParseAcceptedStep(rows, i);
      if Accepted(row) {
        catIndex, supIndex, toAdd, cats, sups :=
          PlanRow(store, uid, row, cat0, sup0, catIndex, supIndex, toAdd, cats, sups, ps);
        ps := ps + [ParseRow(row)];
      }
    }
    assert rows[..|rows|] == rows;
  }

  /** Parsing one more row appends its parse when it is accepted. */
  lemma ParseAcceptedStep(rows: seq<map<string, string>>, i: nat)
    requires i < |rows|
    ensures ParseAccepted(rows[..i + 1]) ==
      ParseAccepted(rows[..i]) + if Accepted(rows[i]) then [ParseRow(rows[i])] else []
  {
    assert rows[..i + 1][..i] == rows[..i];
  }

  /** What the plan says row by row: one expense per accepted row, in order, each the
      row's draft with its resolved category and supplier. */
  lemma PlanByRow(toAdd: seq<NewExpense>, userId: Option<Id>, rows: seq<map<string, string>>,
                  categories0: map<string, Id>, suppliers0: map<string, Id>, local: bool,
                  cats: seq<Named>, sups: seq<Named>)
    requires AllPlanned(toAdd, userId, ParseAccepted(rows), categories0, suppliers0, local, cats, sups)
    ensures |toAdd| == |Filter(rows, Accepted)|
    ensures forall i :: 0 <= i < |toAdd| ==>
      Planned(toAdd[i], userId, ParseRow(Filter(rows, Accepted)[i]), categories0, suppliers0, local, cats, sups)
  {
    ParseAcceptedIsMap(rows);
    AllPlannedAt(toAdd, userId, ParseAccepted(rows), categories0, suppliers0, local, cats, sups);
  }

  /** The expenses after `toAdd` has been stored one by one, each row numbered from the
      rows before it. */
  function AppendAll(expenses: seq<Expense>, toAdd: seq<NewExpense>, users: seq<Named>,
                     suppliers: seq<Named>, categories: seq<Named>): seq<Expense>
    decreases |toAdd|
  {
    if toAdd == [] then expenses
    else
      var before := AppendAll(expenses, toAdd[..|toAdd| - 1], users, suppliers, categories);
      before + [ExpenseRow(NextId(ExpenseIds(before)), toAdd[|toAdd| - 1], users, suppliers, categories)]
  }

  /** Storing a list adds one row per expense after the existing rows, which stay as they
      were, and no two stored rows share an id they did not share before. */
  lemma {:induction false} AppendAllSpec(expenses: seq<Expense>, toAdd: seq<NewExpense>, users: seq<Named>,
                                         suppliers: seq<Named>, categories: seq<Named>)
    ensures var r := AppendAll(expenses, toAdd, users, suppliers, categories);
      |r| == |expenses| + |toAdd| && r[..|expenses|] == expenses
      && forall k :: |expenses| <= k < |r| ==> forall j :: 0 <= j < k ==> IdText(r[j].id) != IdText(r[k].id)
  {
    if toAdd != [] {
      var xs := toAdd[..|toAdd| - 1];
      var before := AppendAll(expenses, xs, users, suppliers, categories);
      AppendAllSpec(expenses, xs, users, suppliers, categories);
      var ids := ExpenseIds(before);
      NextIdFresh(ids);
      var r := AppendAll(expenses, toAdd, users, suppliers, categories);
      assert r[..|before|] == before;
      forall j | 0 <= j < |before|
        ensures IdText(r[j].id) != IdText(r[|before|].id)
      {
        assert ids[j] == before[j].id;
      }
    }
  }

  /** `toAdd.forEach((expense) => localStore.addExpense(expense))` */
  method AddAll(store: LocalStore, toAdd: seq<NewExpense>)
    modifies store
    ensures store.expenses == AppendAll(old(store.expenses), toAdd, store.users, store.suppliers, store.categories)
    ensures store.users == old(store.users) && store.suppliers == old(store.suppliers)
    ensures store.categories == old(store.categories)
  {
    for i := 0 to |toAdd|
      invariant store.expenses == AppendAll(old(store.expenses), toAdd[..i], store.users, store.suppliers, store.categories)
      invariant store.users == old(store.users) && store.suppliers == old(store.suppliers)
      invariant store.categories == old(store.categories)
    {
      assert toAdd[..i + 1][..i] == toAdd[..i];
      var row := store.AddExpense(toAdd[i]);
    }
    assert toAdd[..|toAdd|] == toAdd;
  }

  /** What the import ends with. */
  datatype Outcome =
    | NoRows                           // the text had no header and data line
    | Imported(toAdd: seq<NewExpense>) // the expenses handed on for storing

  /**
   * `handleBulkCsv`: text without a header and a data line stops with an error; otherwise
   * the accepted rows are planned and, in local mode, stored. (In API mode each planned
   * expense is then posted; that call is outside this model.)
   */
  method HandleBulkCsv(text: string, categories: seq<Named>, suppliers: seq<Named>,
                       whoId: Option<Id>, store: LocalStore?) returns (r: Outcome)
    modifies store
    ensures r.NoRows? <==> CsvRows(text) == []
    ensures r.NoRows? && store != null ==>
      store.expenses == old(store.expenses) && store.categories == old(store.categories)
      && store.suppliers == old(store.suppliers)
    ensures r.Imported? ==> |r.toAdd| == |Filter(CsvRows(text), Accepted)|
    ensures r.Imported? ==> forall i :: 0 <= i < |r.toAdd| ==>
      Planned(r.toAdd[i], if store != null then whoId else None, ParseRow(Filter(CsvRows(text), Accepted)[i]),
              NameIndex(categories), NameIndex(suppliers), store != null,
              if store != null then store.categories else [], if store != null then store.suppliers else [])
    ensures store != null ==> store.users == old(store.users)
    ensures store != null ==> old(store.categories) <= store.categories && old(store.suppliers) <= store.suppliers
    ensures r.Imported? && store != null ==>
      store.expenses == AppendAll(old(store.expenses), r.toAdd, store.users, store.suppliers, store.categories)
  {
    var rows := ParseExpenseCsv(text);
    if rows == [] {
      return NoRows;
    }
    var toAdd := PlanImport(rows, categories, suppliers, whoId, store);
    PlanByRow(toAdd, if store != null then whoId else None, rows, NameIndex(categories), NameIndex(suppliers),
              store != null, if store != null then store.categories else [], if store != null then store.suppliers else []);
    if store != null {
      AddAll(store, toAdd);
    }
    r := Imported(toAdd);
  }
}
