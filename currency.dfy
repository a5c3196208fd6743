/**
 * The two currencies (US dollar and Botswana pula), the USD/BWP rate with its 13.5
 * fallback, the per-record currency bucket, and the conversion to a USD equivalent.
 */
module Currency {
  import opened Wrappers
  import opened Text
  import opened Records

  /** BWP per USD used when no usable rate is known. */
  const FallbackRate: real := 13.5

  /** `Number(rate) || 13.5`: `None` stands for a missing or non-numeric rate. A zero
      rate is replaced; a negative one is kept. */
  function EffectiveRate(rate: Option<real>): (r: real)
    ensures r != 0.0
    ensures r == FallbackRate || rate == Some(r)
  {
    if rate.None? || rate.value == 0.0 then FallbackRate else rate.value
  }

  /** `toUsd(amount, currency, rate)`: only an exact "BWP" is converted. */
  function ToUsd(amount: Option<real>, currency: Option<string>, rate: Option<real>): (r: real)
    ensures currency != Some("BWP") ==> r == amount.GetOr(0.0)
    ensures currency == Some("BWP") ==> r * EffectiveRate(rate) == amount.GetOr(0.0)
  {
    var n := amount.GetOr(0.0);
    if currency == Some("BWP") then n / EffectiveRate(rate) else n
  }

  /** The symbol `formatAmount` prints: the entry of the currency table for exactly
      "USD" or "BWP", the USD entry for anything else (including a missing currency). */
  function Symbol(currency: Option<string>): (sym: string)
    ensures sym == "P" <==> currency == Some("BWP")
    ensures sym == "$" <==> currency != Some("BWP")
  {
    if currency == Some("BWP") then "P"
    else "$"
  }

  /** `formatAmount(amount, currency)`: the currency's symbol, then `amount ?? 0` as
      `toLocaleString` prints it with two decimals, which is the parameter `localeText`. */
  function FormatAmount(amount: Option<real>, currency: Option<string>, localeText: real -> string): string {
    Symbol(currency) + localeText(amount.GetOr(0.0))
  }

  /** A formatted amount starts with "P" exactly for BWP and with "$" for every other
      currency; the rest is the locale text of the amount, with a missing amount as 0. */
  lemma FormatAmountParts(amount: Option<real>, currency: Option<string>, localeText: real -> string)
    ensures var s := FormatAmount(amount, currency, localeText);
      |s| >= 1 && (s[0] == 'P' <==> currency == Some("BWP")) && (s[0] == '$' <==> currency != Some("BWP"))
      && s[1..] == localeText(amount.GetOr(0.0))
  {
  }

  /** A formatted amount is never the "—" that marks a missing value. */
  lemma FormatAmountNotDash(amount: Option<real>, currency: Option<string>, localeText: real -> string)
    ensures FormatAmount(amount, currency, localeText) != "—"
  {
    FormatAmountParts(amount, currency, localeText);
  }

  /** `(currency || "USD").toUpperCase()` */
  function CurrencyCode(currency: Option<string>): (code: string)
    ensures Falsy(currency) ==> code == "USD"
    ensures |code| == |OrText(currency, "USD")|
  {
    ToUpper(OrText(currency, "USD"))
  }

  /** The aggregation's bucket: BWP exactly when the upper-cased currency is "BWP". */
  predicate IsBwp(currency: Option<string>) {
    CurrencyCode(currency) == "BWP"
  }

  /** The part of a record's amount that counts towards the USD total. */
  function UsdPart(e: Expense): real {
    if IsBwp(e.currency) then 0.0 else AmountOf(e)
  }

  /** The part of a record's amount that counts towards the BWP total. */
  function BwpPart(e: Expense): real {
    if IsBwp(e.currency) then AmountOf(e) else 0.0
  }

  /** `USD + BWP / (rate || 13.5)` */
  function Equivalent(usd: real, bwp: real, rate: Option<real>): real {
    usd + bwp / EffectiveRate(rate)
  }

  /** Every record's amount goes to exactly one bucket; a missing or empty currency
      goes to USD, and so does any currency other than (any casing of) "BWP". */
  lemma {:induction false} BucketSplit(e: Expense)
    ensures UsdPart(e) + BwpPart(e) == AmountOf(e)
    ensures UsdPart(e) == 0.0 || BwpPart(e) == 0.0
    ensures Falsy(e.currency) ==> BwpPart(e) == 0.0 && UsdPart(e) == AmountOf(e)
    ensures e.currency == Some("bwp") ==> BwpPart(e) == AmountOf(e)
  {
    if Falsy(e.currency) {
      assert CurrencyCode(e.currency) == "USD";
      assert "USD"[0] != "BWP"[0];
    }
    if e.currency == Some("bwp") {
      assert CurrencyCode(e.currency) == "BWP";
    }
  }

  /** For a record whose currency is written in capitals (or missing), `toUsd` agrees
      with the aggregation's per-record USD equivalent. */
  lemma ToUsdAgreesWithBuckets(e: Expense, rate: Option<real>)
    requires e.currency.Some? ==> e.currency.value != "" && ToUpper(e.currency.value) == e.currency.value
    ensures ToUsd(e.amount, e.currency, rate) == Equivalent(UsdPart(e), BwpPart(e), rate)
  {
    if e.currency.None? {
      assert CurrencyCode(e.currency) == "USD";
      assert "USD"[0] != "BWP"[0];
    }
  }
}
