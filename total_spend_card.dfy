/**
 * The total spend card `TotalSpendCard.jsx`: the USD total, the BWP total and the
 * USD equivalent of both, on screen and as a fixed three-row CSV and PDF table.
 *
 * How numbers print (`String(n)` and `toLocaleString`) is a parameter.
 */
module TotalSpendCard {
  import opened Wrappers
  import opened Text
  import opened Seqs
  import opened Csv
  import opened Currency

  const Headers: seq<string> := ["Currency", "Amount", "Total (USD equiv)"]

  /** The CSV rows: USD and BWP with their amount and a blank equivalent, then the
      total with a blank amount; a null total counts as 0. */
  function CsvRows(usd: Option<real>, bwp: Option<real>, equiv: Option<real>): seq<seq<Cell>> {
    [[Text("USD"), Num(usd.GetOr(0.0)), Text("")],
     [Text("BWP"), Num(bwp.GetOr(0.0)), Text("")],
     [Text("Total"), Text(""), Num(equiv.GetOr(0.0))]]
  }

  /** The PDF body: the same layout, formatted, with "—" where the CSV is blank. */
  function PdfRows(usd: Option<real>, bwp: Option<real>, equiv: Option<real>, localeText: real -> string): seq<seq<string>> {
    [["USD", FormatAmount(usd, Some("USD"), localeText), "—"],
     ["BWP", FormatAmount(bwp, Some("BWP"), localeText), "—"],
     ["Total", "—", FormatAmount(equiv, Some("USD"), localeText)]]
  }

  /** The CSV text handed to the download. */
  function CsvText(usd: Option<real>, bwp: Option<real>, equiv: Option<real>, numText: real -> string): string {
    Document(Headers, Map(CsvRows(usd, bwp, equiv), (row: seq<Cell>) => RenderRow(row, numText)))
  }

  /** The three lines on the card. */
  function Lines(usd: Option<real>, bwp: Option<real>, equiv: Option<real>, localeText: real -> string): seq<string> {
    [FormatAmount(usd, Some("USD"), localeText) + " USD",
     FormatAmount(bwp, Some("BWP"), localeText) + " BWP",
     "≈ " + FormatAmount(equiv, Some("USD"), localeText) + " total"]
  }

  /** Both tables have exactly three rows of three cells, labelled USD, BWP and Total in
      that order; the CSV cell is blank exactly where the PDF shows "—", which is the
      equivalent of the two currency rows and the amount of the total row. */
  lemma Layout(usd: Option<real>, bwp: Option<real>, equiv: Option<real>, localeText: real -> string)
    ensures var c := CsvRows(usd, bwp, equiv);
      var p := PdfRows(usd, bwp, equiv, localeText);
      |c| == |p| == 3
      && (forall i :: 0 <= i < 3 ==> |c[i]| == |p[i]| == 3 && c[i][0] == Text(p[i][0]))
      && [p[0][0], p[1][0], p[2][0]] == ["USD", "BWP", "Total"]
      && (forall i, j :: 0 <= i < 3 && 0 <= j < 3 ==>
            (c[i][j] == Text("") <==> p[i][j] == "—")
            && (p[i][j] == "—" <==> (i < 2 && j == 2) || (i == 2 && j == 1)))
  {
    FormatAmountNotDash(usd, Some("USD"), localeText);
    FormatAmountNotDash(bwp, Some("BWP"), localeText);
    FormatAmountNotDash(equiv, Some("USD"), localeText);
  }

  /** A null total is exported as 0, in the CSV as in the PDF. */
  lemma NullTotalsAreZero(localeText: real -> string)
    ensures CsvRows(None, None, None) == CsvRows(Some(0.0), Some(0.0), Some(0.0))
    ensures PdfRows(None, None, None, localeText) == PdfRows(Some(0.0), Some(0.0), Some(0.0), localeText)
  {
  }

  /** When the three numbers print without `"`, `,` or line breaks, the CSV reads back
      as the header and the three rows. */
  lemma CsvReadBack(usd: Option<real>, bwp: Option<real>, equiv: Option<real>, numText: real -> string)
    requires Plain(numText(usd.GetOr(0.0))) && Plain(numText(bwp.GetOr(0.0))) && Plain(numText(equiv.GetOr(0.0)))
    ensures ReadDocument(CsvText(usd, bwp, equiv, numText)) == [Headers] +
      [["USD", numText(usd.GetOr(0.0)), ""],
       ["BWP", numText(bwp.GetOr(0.0)), ""],
       ["Total", "", numText(equiv.GetOr(0.0))]]
  {
    var a, b, c := numText(usd.GetOr(0.0)), numText(bwp.GetOr(0.0)), numText(equiv.GetOr(0.0));
    var rows := [["USD", a, ""], ["BWP", b, ""], ["Total", "", c]];
    assert CsvText(usd, bwp, equiv, numText) == Document(Headers, rows) by {
      RenderedRows(usd, bwp, equiv, numText);
    }
    calc {
      ReadDocument(CsvText(usd, bwp, equiv, numText));
      ReadDocument(Document(Headers, rows));
      { RowsPlain(a, b, c); HeadersPlain(); DocumentReadBack(Headers, rows); }
      [Headers] + rows;
    }
  }

  lemma RowsPlain(a: string, b: string, c: string)
    requires Plain(a) && Plain(b) && Plain(c)
    ensures var rows := [["USD", a, ""], ["BWP", b, ""], ["Total", "", c]];
      forall r :: r in rows ==> r != [] && forall i :: 0 <= i < |r| ==> Plain(r[i])
  {
    var rows := [["USD", a, ""], ["BWP", b, ""], ["Total", "", c]];
    assert Plain("USD") && Plain("BWP") && Plain("Total") && Plain("") by {
      LabelsPlain();
    }
    forall r | r in rows ensures r != [] && forall i :: 0 <= i < |r| ==> Plain(r[i]) {
      assert r == rows[0] || r == rows[1] || r == rows[2];
    }
  }

  lemma LabelsPlain()
    ensures Plain("USD") && Plain("BWP") && Plain("Total") && Plain("")
  {
    assert forall c :: c in "USD" ==> 'A' <= c <= 'Z';
    assert forall c :: c in "BWP" ==> 'A' <= c <= 'Z';
    assert forall c :: c in "Total" ==> 'A' <= c <= 'z';
  }

  lemma HeadersPlain()
    ensures Headers != [] && forall i :: 0 <= i < |Headers| ==> Plain(Headers[i])
  {
  }

  lemma RenderedRows(usd: Option<real>, bwp: Option<real>, equiv: Option<real>, numText: real -> string)
    ensures Map(CsvRows(usd, bwp, equiv), (row: seq<Cell>) => RenderRow(row, numText)) ==
      [["USD", numText(usd.GetOr(0.0)), ""],
       ["BWP", numText(bwp.GetOr(0.0)), ""],
       ["Total", "", numText(equiv.GetOr(0.0))]]
  {
    var rows := CsvRows(usd, bwp, equiv);
    RenderThree(rows[0][0], rows[0][1], rows[0][2], numText);
    RenderThree(rows[1][0], rows[1][1], rows[1][2], numText);
    RenderThree(rows[2][0], rows[2][1], rows[2][2], numText);
  }

  lemma RenderThree(x: Cell, y: Cell, z: Cell, numText: real -> string)
    ensures RenderRow([x, y, z], numText) == [Render(x, numText), Render(y, numText), Render(z, numText)]
  {
  }

  /** The PDF shows the same amounts as the card. */
  lemma PdfMatchesCard(usd: Option<real>, bwp: Option<real>, equiv: Option<real>, localeText: real -> string)
    ensures var l := Lines(usd, bwp, equiv, localeText);
      var p := PdfRows(usd, bwp, equiv, localeText);
      l[0] == p[0][1] + " USD" && l[1] == p[1][1] + " BWP" && l[2] == "≈ " + p[2][2] + " total"
  {
  }
}
