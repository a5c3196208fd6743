/**
 * The summary list card `SummaryCard.jsx`: a list of labelled totals (per team
 * member, supplier or category), cut to `maxItems` on screen, and its CSV and PDF
 * exports, which always cover every item.
 *
 * How numbers print (`String(n)` and `toLocaleString`) is a parameter.
 */
module SummaryCard {
  import opened Wrappers
  import opened Text
  import opened Seqs
  import opened Records
  import opened Csv
  import opened Currency

  /** `nameKey`: the field that holds the row's own label. */
  datatype NameKey = NameField | SupplierField | CategoryField

  /** The title starts with `/^By\s+/i`: "By" in any case, then white space. */
  predicate HasByPrefix(title: string) {
    |title| >= 3 && (title[0] == 'B' || title[0] == 'b') && (title[1] == 'y' || title[1] == 'Y')
    && IsJsSpace(title[2])
  }

  /** `title.replace(/^By\s+/i, "") || "Name"`: the label column's header. */
  function LabelHeader(title: string): (h: string)
    ensures h != ""
    ensures !HasByPrefix(title) ==> h == (if title == "" then "Name" else title)
    ensures HasByPrefix(title) ==> h == "Name" || (!IsJsSpace(h[0]) && |h| <= |title| - 3)
  {
    var rest := if HasByPrefix(title) then TrimStart(title[2..], IsJsSpace) else title;
    if rest == "" then "Name" else rest
  }

  /** Dropping leading white space from white space followed by text that does not
      start with white space leaves that text. */
  lemma {:induction false} TrimStartOfSpaces(w: string, s: string)
    requires forall i :: 0 <= i < |w| ==> IsJsSpace(w[i])
    requires s == [] || !IsJsSpace(s[0])
    ensures TrimStart(w + s, IsJsSpace) == s
  {
    if w != [] {
      assert (w + s)[1..] == w[1..] + s;
      TrimStartOfSpaces(w[1..], s);
    }
  }

  /** "By", any run of white space and a label give that label as the header; a title
      that is only "By" and white space gives "Name". */
  lemma LabelHeaderOfBy(b: string, w: string, s: string)
    requires |b| == 2 && (b[0] == 'B' || b[0] == 'b') && (b[1] == 'y' || b[1] == 'Y')
    requires w != [] && forall i :: 0 <= i < |w| ==> IsJsSpace(w[i])
    requires s == [] || !IsJsSpace(s[0])
    ensures LabelHeader(b + w + s) == (if s == [] then "Name" else s)
  {
    var t := b + w + s;
    assert t[2] == w[0];
    assert t[2..] == w + s;
    TrimStartOfSpaces(w, s);
  }

  /** `r[nameKey]` */
  function KeyField(r: SummaryItem, key: NameKey): Option<string> {
    match key
    case NameField => r.name
    case SupplierField => r.supplier
    case CategoryField => r.category
  }

  /** `r[nameKey] ?? r.supplier_name ?? r.category_name ?? "—"`: the row label, in the
      list and in both exports. */
  function Label(r: SummaryItem, key: NameKey): string {
    FirstSome([KeyField(r, key), r.supplierName, r.categoryName], "—")
  }

  /** The label is the key field when present, else the supplier name, else the
      category name, else "—". */
  lemma LabelChain(r: SummaryItem, key: NameKey)
    ensures KeyField(r, key).Some? ==> Label(r, key) == KeyField(r, key).value
    ensures KeyField(r, key).None? && r.supplierName.Some? ==> Label(r, key) == r.supplierName.value
    ensures KeyField(r, key).None? && r.supplierName.None? && r.categoryName.Some? ==>
      Label(r, key) == r.categoryName.value
    ensures KeyField(r, key).None? && r.supplierName.None? && r.categoryName.None? ==> Label(r, key) == "—"
  {
    var xs := [KeyField(r, key), r.supplierName, r.categoryName];
    if KeyField(r, key).None? && r.supplierName.Some? {
      assert xs[1].Some? && forall j :: 0 <= j < 1 ==> xs[j].None?;
    }
    if KeyField(r, key).None? && r.supplierName.None? && r.categoryName.Some? {
      assert xs[2].Some? && forall j :: 0 <= j < 2 ==> xs[j].None?;
    }
  }

  /** `r.totalInUsdEquiv ?? (Number(r.total) || 0)`: the total column. */
  function TotalColumn(r: SummaryItem): real {
    r.totalInUsdEquiv.GetOr(r.total.GetOr(0.0))
  }

  /** The CSV header: the label header, then the two currencies and the equivalent. */
  function Headers(title: string): seq<string> {
    [LabelHeader(title), "USD", "BWP", "Total (USD equiv)"]
  }

  /** A currency column in the CSV: the number, or "" when it is missing. */
  function NumberOrBlank(x: Option<real>): Cell {
    if x.Some? then Num(x.value) else Text("")
  }

  /** One CSV row: label, USD, BWP, total. */
  function CsvRow(r: SummaryItem, key: NameKey): seq<Cell> {
    [Text(Label(r, key)), NumberOrBlank(r.usd), NumberOrBlank(r.bwp), Num(TotalColumn(r))]
  }

  /** The CSV rows: one per item, of all the items whatever `maxItems` is. */
  function CsvRows(items: seq<SummaryItem>, key: NameKey): (rows: seq<seq<Cell>>)
    ensures |rows| == |items|
    ensures forall i :: 0 <= i < |rows| ==> rows[i] == CsvRow(items[i], key)
  {
    Map(items, (r: SummaryItem) => CsvRow(r, key))
  }

  /** The CSV text handed to the download. */
  function CsvText(title: string, items: seq<SummaryItem>, key: NameKey, numText: real -> string): string {
    Document(Headers(title), Map(CsvRows(items, key), (row: seq<Cell>) => RenderRow(row, numText)))
  }

  /** A currency column in the PDF: the formatted amount, or "—" when it is missing. */
  function AmountOrDash(x: Option<real>, currency: string, localeText: real -> string): string {
    if x.Some? then FormatAmount(x, Some(currency), localeText) else "—"
  }

  /** One PDF row: label, formatted USD, formatted BWP, formatted total in USD. */
  function PdfRow(r: SummaryItem, key: NameKey, localeText: real -> string): seq<string> {
    [Label(r, key), AmountOrDash(r.usd, "USD", localeText), AmountOrDash(r.bwp, "BWP", localeText),
     FormatAmount(Some(TotalColumn(r)), Some("USD"), localeText)]
  }

  /** The PDF body: one row per item, of all the items. */
  function PdfRows(items: seq<SummaryItem>, key: NameKey, localeText: real -> string): (rows: seq<seq<string>>)
    ensures |rows| == |items|
    ensures forall i :: 0 <= i < |rows| ==> rows[i] == PdfRow(items[i], key, localeText)
  {
    Map(items, (r: SummaryItem) => PdfRow(r, key, localeText))
  }

  /** The CSV and the PDF say the same thing: the same label, and a missing currency
      is blank in the CSV exactly where the PDF shows "—". */
  lemma ExportsAgree(items: seq<SummaryItem>, key: NameKey, numText: real -> string, localeText: real -> string)
    ensures forall i :: 0 <= i < |items| ==>
      var c := RenderRow(CsvRows(items, key)[i], numText);
      var p := PdfRows(items, key, localeText)[i];
      |c| == |p| == 4 && c[0] == p[0]
      && (CsvRows(items, key)[i][1] == Text("") <==> p[1] == "—")
      && (CsvRows(items, key)[i][2] == Text("") <==> p[2] == "—")
      && (p[1] == "—" <==> items[i].usd.None?)
      && (p[2] == "—" <==> items[i].bwp.None?)
  {
    forall i | 0 <= i < |items|
      ensures PdfRows(items, key, localeText)[i][1] == "—" <==> items[i].usd.None?
      ensures PdfRows(items, key, localeText)[i][2] == "—" <==> items[i].bwp.None?
    {
      FormatAmountNotDash(items[i].usd, Some("USD"), localeText);
      FormatAmountNotDash(items[i].bwp, Some("BWP"), localeText);
    }
  }

  /** `slice(0, maxItems)` end: a negative count is taken from the end of the list. */
  function SliceEnd(n: int, len: nat): (k: nat)
    ensures k <= len
    ensures n >= 0 ==> k == if n < len then n else len
    ensures n < 0 ==> k == if len + n > 0 then len + n else 0
  {
    if n >= 0 then (if n < len then n else len)
    else if len + n > 0 then len + n else 0
  }

  /** `maxItems != null ? items.slice(0, maxItems) : items`: the items shown. */
  function DisplayItems(items: seq<SummaryItem>, maxItems: Option<int>): (shown: seq<SummaryItem>)
    ensures |shown| <= |items| && shown == items[..|shown|]
    ensures maxItems.None? ==> shown == items
    ensures maxItems.Some? && 0 <= maxItems.value ==> |shown| == if maxItems.value < |items| then maxItems.value else |items|
  {
    if maxItems.None? then items else items[..SliceEnd(maxItems.value, |items|)]
  }

  /** The amount part of a list line: USD, BWP when positive, and the equivalent, for
      rows that carry a USD column; the plain total otherwise. */
  datatype AmountView =
    | Split(usd: string, bwp: Option<string>, equiv: string)
    | Single(total: string)

  datatype ListLine = ListLine(caption: string, amount: AmountView)

  function Line(r: SummaryItem, key: NameKey, localeText: real -> string): ListLine {
    var amount :=
      if r.usd.Some? then
        Split(FormatAmount(r.usd, Some("USD"), localeText),
              if r.bwp.Some? && r.bwp.value > 0.0 then Some(FormatAmount(r.bwp, Some("BWP"), localeText)) else None,
              FormatAmount(Some(TotalColumn(r)), Some("USD"), localeText))
      else Single(FormatAmount(r.total, Some("USD"), localeText));
    ListLine(Label(r, key), amount)
  }

  /** The card's list: a line per shown item, and the empty message when there are no
      items at all. */
  datatype ListView = ListView(lines: seq<ListLine>, emptyMessage: bool)

  function View(items: seq<SummaryItem>, key: NameKey, maxItems: Option<int>, localeText: real -> string): ListView {
    ListView(Map(DisplayItems(items, maxItems), (r: SummaryItem) => Line(r, key, localeText)), items == [])
  }

  /** The list shows the first items, in order, with the labels the exports give them,
      while both exports still hold every item; the empty message depends on the items,
      not on what `maxItems` leaves. */
  lemma ViewIsPrefixOfExports(items: seq<SummaryItem>, key: NameKey, maxItems: Option<int>,
                              numText: real -> string, localeText: real -> string)
    ensures var v := View(items, key, maxItems, localeText);
      |v.lines| <= |items| == |CsvRows(items, key)| == |PdfRows(items, key, localeText)|
      && (forall i :: 0 <= i < |v.lines| ==>
            v.lines[i].caption == PdfRows(items, key, localeText)[i][0]
            && v.lines[i].caption == RenderRow(CsvRows(items, key)[i], numText)[0])
      && (v.emptyMessage <==> items == [])
  {
    var shown := DisplayItems(items, maxItems);
    forall i | 0 <= i < |shown| ensures shown[i] == items[i] {
    }
  }

  /** The list's total agrees with the exported total for the two kinds of rows the
      dashboard shows: rows with a USD column, and rows with a total and no equivalent. */
  lemma LineTotalIsExportTotal(r: SummaryItem, key: NameKey, localeText: real -> string)
    requires r.usd.Some? || r.totalInUsdEquiv.None?
    ensures var a := Line(r, key, localeText).amount;
      (a.Split? ==> a.equiv == PdfRow(r, key, localeText)[3])
      && (a.Single? ==> a.total == PdfRow(r, key, localeText)[3])
  {
  }

  /** With at most `n` shown, a longer list is cut to its first `n` items; the supplier
      card of the dashboard shows six. */
  lemma SupplierCardShowsSix(items: seq<SummaryItem>)
    requires |items| >= 6
    ensures DisplayItems(items, Some(6)) == items[..6]
  {
  }
}
