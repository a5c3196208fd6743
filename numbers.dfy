/**
 * Reading numbers out of text: the leading-decimal parse that both JavaScript's
 * `parseFloat` and PHP's `(float)` apply to an amount stripped down to digits and dots,
 * and PHP's `(int)` cast of a request string.
 */
module Numbers {
  import opened Wrappers
  import opened Text

  predicate IsDigit(c: char) { '0' <= c <= '9' }

  predicate AllDigits(s: string) { forall i :: 0 <= i < |s| ==> IsDigit(s[i]) }

  /** `s.replace(/[^0-9.]/g, "")` (PHP: `preg_replace('/[^0-9.]/', '', s)`). */
  function KeepDigitsAndDots(s: string): (r: string)
    ensures |r| <= |s|
    ensures forall i :: 0 <= i < |r| ==> IsDigit(r[i]) || r[i] == '.'
  {
    if s == [] then []
    else KeepDigitsAndDots(s[..|s| - 1]) + (if IsDigit(s[|s| - 1]) || s[|s| - 1] == '.' then [s[|s| - 1]] else [])
  }

  /** The length of the run of digits that starts `s`. */
  function DigitRun(s: string): (n: nat)
    ensures n <= |s| && AllDigits(s[..n])
    ensures n < |s| ==> !IsDigit(s[n])
  {
    if s != [] && IsDigit(s[0]) then 1 + DigitRun(s[1..]) else 0
  }

  /** A comma ends a run of digits. */
  lemma {:induction false} DigitRunComma(s: string, t: string)
    ensures DigitRun(s + "," + t) == DigitRun(s)
  {
    if s != [] && IsDigit(s[0]) {
      assert (s + "," + t)[1..] == s[1..] + "," + t;
      DigitRunComma(s[1..], t);
    }
  }

  /** The value of a string of decimal digits. */
  function DigitsValue(d: string): nat
    requires AllDigits(d)
  {
    if d == [] then 0 else DigitsValue(d[..|d| - 1]) * 10 + (d[|d| - 1] as int - '0' as int)
  }

  function Pow10(k: nat): (r: nat)
    ensures r >= 1
  {
    if k == 0 then 1 else 10 * Pow10(k - 1)
  }

  /** Reading back the digits `NatToString` writes gives the number. */
  lemma {:induction false} DigitsValueNatToString(n: nat)
    ensures AllDigits(NatToString(n)) && DigitsValue(NatToString(n)) == n
  {
    if n >= 10 {
      DigitsValueNatToString(n / 10);
      var s := NatToString(n);
      assert s[..|s| - 1] == NatToString(n / 10);
    }
  }

  /**
   * The longest leading `digits [ "." digits ]` of `s`, read as a non-negative number:
   * None when it has no digit at all (`parseFloat` gives NaN there, PHP's `(float)` 0).
   */
  function LeadingDecimal(s: string): (r: Option<real>)
    ensures r.Some? ==> r.value >= 0.0
    ensures r.Some? <==> (s != [] && IsDigit(s[0])) || (|s| >= 2 && s[0] == '.' && IsDigit(s[1]))
  {
    var n := DigitRun(s);
    var whole := DigitsValue(s[..n]) as real;
    if n < |s| && s[n] == '.' then
      var frac := s[n + 1..];
      var m := DigitRun(frac);
      if n == 0 && m == 0 then None
      else Some(whole + DigitsValue(frac[..m]) as real / Pow10(m) as real)
    else if n == 0 then None
    else Some(whole)
  }

  /** A comma ends the leading decimal: what follows it is not read. */
  lemma LeadingDecimalComma(s: string, t: string)
    ensures LeadingDecimal(s + "," + t) == LeadingDecimal(s)
  {
    var u := s + "," + t;
    DigitRunComma(s, t);
    var n := DigitRun(s);
    assert u[..n] == s[..n];
    if n < |s| && s[n] == '.' {
      assert u[n + 1..] == s[n + 1..] + "," + t;
      DigitRunComma(s[n + 1..], t);
      var m := DigitRun(s[n + 1..]);
      assert u[n + 1..][..m] == s[n + 1..][..m];
    } else if n == |s| {
      assert u[n] == ',';
    }
  }

  /** The text of a natural number reads back as that number. */
  lemma LeadingDecimalOfNat(n: nat)
    ensures LeadingDecimal(NatToString(n)) == Some(n as real)
  {
    var s := NatToString(n);
    DigitsValueNatToString(n);
    assert DigitRun(s) == |s| by { DigitRunAll(s); }
    assert s[..|s|] == s;
  }

  lemma {:induction false} DigitRunAll(s: string)
    requires AllDigits(s)
    ensures DigitRun(s) == |s|
  {
    if s != [] {
      DigitRunAll(s[1..]);
    }
  }

  /** The white space PHP skips before a numeric string. */
  predicate IsIntvalSpace(c: char) {
    c == ' ' || c == '\t' || c == '\n' || c == '\r' || c == '\U{B}' || c == '\U{C}'
  }

  /** PHP's `(int)` on a string: leading white space, an optional sign, then digits;
      0 when no digit follows. */
  function PhpIntval(s: string): int {
    var t := TrimStart(s, IsIntvalSpace);
    var neg := t != [] && t[0] == '-';
    var body := if t != [] && (t[0] == '-' || t[0] == '+') then t[1..] else t;
    var v: int := DigitsValue(body[..DigitRun(body)]);
    if neg then -v else v
  }

  /** A plain digit string casts to its value, and a minus sign in front negates it. */
  lemma PhpIntvalDigits(d: string)
    requires AllDigits(d) && d != []
    ensures PhpIntval(d) == DigitsValue(d)
    ensures PhpIntval("-" + d) == -(DigitsValue(d) as int)
  {
    DigitRunAll(d);
    assert d[..|d|] == d;
    var t := TrimStart(d, IsIntvalSpace);
    assert !IsIntvalSpace(d[0]);
    assert t == d;
    var m := "-" + d;
    var tm := TrimStart(m, IsIntvalSpace);
    assert !IsIntvalSpace(m[0]);
    assert tm == m;
    assert m[1..] == d;
  }

  /** `Number(s)` of text holding a whole number: white space around it is ignored,
      empty text reads as 0, then an optional sign and digits; None (NaN) otherwise. */
  function JsIntText(s: string): Option<int> {
    var t := JsTrim(s);
    if t == [] then Some(0)
    else
      var body := if t[0] == '-' || t[0] == '+' then t[1..] else t;
      if body == [] || !AllDigits(body) then None
      else Some(if t[0] == '-' then -(DigitsValue(body) as int) else DigitsValue(body))
  }

  /** `Number(String(n)) === n` for every integer. */
  lemma JsIntTextOfInt(n: int)
    ensures JsIntText(IntToString(n)) == Some(n)
  {
    var s := IntToString(n);
    var m: nat := if n < 0 then -n else n;
    var d := NatToString(m);
    DigitsValueNatToString(m);
    IntTextTrimmed(n);
    var body := if s[0] == '-' || s[0] == '+' then s[1..] else s;
    assert body == d;
  }

  lemma IntTextTrimmed(n: int)
    ensures JsTrim(IntToString(n)) == IntToString(n)
    ensures IntToString(n)[0] == '-' <==> n < 0
  {
    var s := IntToString(n);
    var m: nat := if n < 0 then -n else n;
    var d := NatToString(m);
    assert IsDigit(d[0]) && IsDigit(d[|d| - 1]);
    assert s[|s| - 1] == d[|d| - 1];
    assert !IsJsSpace(s[0]) && !IsJsSpace(s[|s| - 1]);
    TrimUnchanged(s, IsJsSpace);
  }

  /** Distinct integers print differently. */
  lemma IntToStringInjective(a: int, b: int)
    requires IntToString(a) == IntToString(b)
    ensures a == b
  {
    JsIntTextOfInt(a);
    JsIntTextOfInt(b);
  }
}
