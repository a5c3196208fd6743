/**
 * The filter card `ExpenseFilters.jsx`: the date range, supplier and category
 * filters with their "Clear filters" button, and the manual entry of the BWP per USD
 * rate when the latest rate could not be fetched, together with the rate the app
 * starts from (`src/App.jsx`), which reads back what a manual entry stores.
 *
 * How a number prints (`String(v)`) is a parameter.
 */
module ExpenseFilters {
  import opened Wrappers
  import opened Text
  import opened Numbers
  import opened JsValues

  /** The filter object the card edits; "" means not set. */
  datatype FilterForm = FilterForm(from: string, to: string, supplierId: string, categoryId: string)

  /** The app's starting filters: none set. */
  const NoFilters: FilterForm := FilterForm("", "", "", "")

  /** What a control does to the filters. */
  datatype FilterEdit =
    | SetFrom(value: string)
    | SetTo(value: string)
    | SetSupplier(value: string)
    | SetCategory(value: string)
    | ClearAll

  /** The new filters after an edit: a control replaces its own field, "Clear filters"
      replaces the whole object by the empty one. */
  function Apply(f: FilterForm, edit: FilterEdit): FilterForm {
    match edit
    case SetFrom(v) => f.(from := v)
    case SetTo(v) => f.(to := v)
    case SetSupplier(v) => f.(supplierId := v)
    case SetCategory(v) => f.(categoryId := v)
    case ClearAll => NoFilters
  }

  /** The field an edit sets, if any. */
  function Field(f: FilterForm, k: nat): string
    requires k < 4
  {
    if k == 0 then f.from else if k == 1 then f.to else if k == 2 then f.supplierId else f.categoryId
  }

  function FieldOf(edit: FilterEdit): nat
    requires !edit.ClearAll?
  {
    match edit
    case SetFrom(_) => 0
    case SetTo(_) => 1
    case SetSupplier(_) => 2
    case SetCategory(_) => 3
  }

  /** Each control sets its own field to the value chosen and leaves the other three
      as they were. */
  lemma EditChangesOnlyItsField(f: FilterForm, edit: FilterEdit)
    requires !edit.ClearAll?
    ensures var g := Apply(f, edit);
      Field(g, FieldOf(edit)) == edit.value
      && forall k :: 0 <= k < 4 && k != FieldOf(edit) ==> Field(g, k) == Field(f, k)
  {
  }

  /** Clearing sets all four fields to "" whatever they were, which is where the app
      starts, and clearing twice is clearing once. */
  lemma ClearResets(f: FilterForm)
    ensures forall k :: 0 <= k < 4 ==> Field(Apply(f, ClearAll), k) == ""
    ensures Apply(Apply(f, ClearAll), ClearAll) == Apply(f, ClearAll)
  {
  }

  /** Edits of two different fields can be made in either order. */
  lemma EditsCommute(f: FilterForm, a: FilterEdit, b: FilterEdit)
    requires !a.ClearAll? && !b.ClearAll? && FieldOf(a) != FieldOf(b)
    ensures Apply(Apply(f, a), b) == Apply(Apply(f, b), a)
  {
  }

  /** The local storage key of the rate. */
  const RateKey: string := "tm_bwp_per_usd"

  /** The rate used and the browser's local storage. */
  datatype RateState = RateState(rate: real, storage: map<string, string>)

  /** The manual rate input: `parseFloat` of the text, accepted only when finite and
      positive, in which case it becomes the rate and is stored under the rate key;
      any other input leaves everything as it was. */
  function EnterRate(s: RateState, input: string, numText: real -> string): RateState {
    var v := ParseFloat(input);
    if v.IsFinitePositive() then RateState(v.r, s.storage[RateKey := numText(v.r)]) else s
  }

  /** The rate the app starts from: `parseFloat` of the stored text (or of "13.5" when
      nothing or "" is stored) when finite and positive, else 13.5. */
  function InitialRate(storage: map<string, string>): (rate: real)
    ensures rate > 0.0
  {
    var text := if RateKey in storage && storage[RateKey] != "" then storage[RateKey] else "13.5";
    var v := ParseFloat(text);
    if v.IsFinitePositive() then v.r else 13.5
  }

  /** A manual entry is accepted exactly when it parses to a finite positive number;
      then the rate is that number and only the rate key of the storage changes; a
      rejected entry changes nothing. */
  lemma EnterRateGuard(s: RateState, input: string, numText: real -> string)
    ensures var t := EnterRate(s, input, numText);
      (ParseFloat(input).IsFinitePositive() ==>
        t.rate == ParseFloat(input).r && t.rate > 0.0
        && RateKey in t.storage && t.storage[RateKey] == numText(t.rate)
        && forall k :: k != RateKey ==> (k in t.storage <==> k in s.storage)
                                        && (k in s.storage ==> t.storage[k] == s.storage[k]))
      && (!ParseFloat(input).IsFinitePositive() ==> t == s)
  {
  }

  /** The rate stays positive through any sequence of manual entries. */
  lemma {:induction false} RateStaysPositive(s: RateState, inputs: seq<string>, numText: real -> string)
    requires s.rate > 0.0
    ensures EnterAll(s, inputs, numText).rate > 0.0
    decreases |inputs|
  {
    if inputs != [] {
      RateStaysPositive(EnterRate(s, inputs[0], numText), inputs[1..], numText);
    }
  }

  /** Several entries one after another. */
  function EnterAll(s: RateState, inputs: seq<string>, numText: real -> string): RateState
    decreases |inputs|
  {
    if inputs == [] then s else EnterAll(EnterRate(s, inputs[0], numText), inputs[1..], numText)
  }

  /** A rate entered by hand is the rate the app starts from next time, as long as the
      text stored for it reads back as the same number (as `String(v)` does in
      JavaScript); a whole number does with the digits as its text. */
  lemma EnteredRateSurvivesReload(s: RateState, input: string, numText: real -> string)
    requires ParseFloat(input).IsFinitePositive()
    requires ParseFloat(numText(ParseFloat(input).r)) == ParseFloat(input)
    ensures InitialRate(EnterRate(s, input, numText).storage) == ParseFloat(input).r
  {
    var v := ParseFloat(input).r;
    var t := EnterRate(s, input, numText);
    assert t.storage[RateKey] == numText(v);
    assert numText(v) != "" by {
      if numText(v) == "" {
        assert ParseFloat("") == NaN by { EmptyIsNaN(); }
      }
    }
  }

  /** `parseFloat("")` is NaN. */
  lemma EmptyIsNaN()
    ensures ParseFloat("") == NaN
  {
    assert TrimStart("", IsJsSpace) == "";
    assert !StartsWith("", "Infinity");
  }

  /** Nothing stored, an empty text or an unusable one all start the app at 13.5. */
  lemma InitialRateFallback(storage: map<string, string>)
    requires RateKey !in storage || !ParseFloat(storage[RateKey]).IsFinitePositive()
    ensures InitialRate(storage) == 13.5
  {
    if RateKey in storage && storage[RateKey] != "" {
    } else {
      FallbackText();
    }
  }

  /** The fallback text "13.5" reads as 13.5. */
  lemma FallbackText()
    ensures ParseFloat("13.5") == Finite(13.5)
  {
    var s := "13.5";
    assert LeadingDecimal(s) == Some(13.5) by {
      assert DigitRun(s[2..]) == 0 by { assert s[2..][0] == '.'; }
      assert DigitRun(s[1..]) == 1 by { assert s[1..][1..] == s[2..]; }
      assert DigitRun(s) == 2;
      assert s[..2] == "13" && s[3..] == "5";
      assert DigitsValue("13") == 13 by { assert "13"[..1] == "1"; }
      assert DigitRun("5") == 1 by { assert "5"[1..] == []; }
      assert DigitsValue("5"[..1]) == 5 by { assert "5"[..1] == "5"; }
    }
    assert "" + s == s;
    ParseFloatAfterSign(s, "", 13.5);
  }
}
