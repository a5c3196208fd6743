/**
 * JavaScript values as the client sees decoded JSON, with the operators the client
 * applies to them: truthiness, `??`, optional property access and `typeof`.
 */
module JsValues {
  import opened Wrappers
  import opened Text
  import opened Numbers

  /** A JavaScript number: finite, NaN, or an infinity. */
  datatype Number = Finite(r: real) | NaN | PosInfinity | NegInfinity {
    /** `Number.isFinite(n) && n > 0` */
    predicate IsFinitePositive() { Finite? && r > 0.0 }
  }

  datatype JsValue =
    | Undefined
    | Null
    | Bool(b: bool)
    | Num(n: Number)
    | Str(s: string)
    | Arr(items: seq<JsValue>)
    | Obj(fields: map<string, JsValue>)

  /** `v == null` (loose equality): null or undefined. */
  predicate IsNullish(v: JsValue) { v.Undefined? || v.Null? }

  predicate Truthy(v: JsValue) {
    match v
    case Undefined => false
    case Null => false
    case Bool(b) => b
    case Num(n) => !(n.NaN? || (n.Finite? && n.r == 0.0))
    case Str(s) => s != ""
    case Arr(_) => true
    case Obj(_) => true
  }

  /** `a ?? b` */
  function Coalesce(a: JsValue, b: JsValue): JsValue {
    if IsNullish(a) then b else a
  }

  /** `v?.key` for a plain data value: a property of an object, otherwise undefined. */
  function Get(v: JsValue, key: string): JsValue {
    if v.Obj? && key in v.fields then v.fields[key] else Undefined
  }

  /** `typeof v === "object"` (true of null and of arrays too). */
  predicate IsObjectType(v: JsValue) { v.Null? || v.Arr? || v.Obj? }

  /** The first value of the list that is neither null nor undefined, else undefined:
      the meaning of a chain `v0 ?? v1 ?? ... ?? vn`. */
  function FirstPresent(vs: seq<JsValue>): (r: JsValue)
    ensures r.Undefined? || r in vs
    ensures !IsNullish(r) <==> exists i :: 0 <= i < |vs| && !IsNullish(vs[i])
  {
    if vs == [] then Undefined
    else if !IsNullish(vs[0]) then vs[0]
    else FirstPresent(vs[1..])
  }

  /** `parseFloat(s)`: leading white space skipped, an optional sign, then "Infinity" or
      the longest leading decimal; NaN when there is neither. */
  function ParseFloat(s: string): (n: Number)
  {
    ParseTrimmed(TrimStart(s, IsJsSpace))
  }

  /** `parseFloat` after the leading white space. */
  function ParseTrimmed(t: string): Number {
    var neg := t != [] && t[0] == '-';
    var body := if t != [] && (t[0] == '-' || t[0] == '+') then t[1..] else t;
    if StartsWith(body, "Infinity") then (if neg then NegInfinity else PosInfinity)
    else
      var d := LeadingDecimal(body);
      if d.None? then NaN else Finite(if neg then -d.value else d.value)
  }

  /**
   * `parseFloat` stops at a comma: the text after it is never read. This is why
   * `parseFloat` of an array, whose text joins the elements' texts with ",", reads its
   * first element only.
   */
  lemma ParseFloatComma(s: string, t: string)
    ensures ParseFloat(s + "," + t) == ParseFloat(s)
  {
    var w := "," + t;
    var u := s + w;
    assert u == s + "," + t;
    TrimStartAppend(s, w, IsJsSpace);
    var ts := TrimStart(s, IsJsSpace);
    assert ts + w == ts + "," + t;
    ParseTrimmedComma(ts, t);
    assert ParseFloat(u) == ParseTrimmed(ts + w);
  }

  lemma ParseTrimmedComma(ts: string, t: string)
    ensures ParseTrimmed(ts + "," + t) == ParseTrimmed(ts)
  {
    var tu := ts + "," + t;
    var body := if ts != [] && (ts[0] == '-' || ts[0] == '+') then ts[1..] else ts;
    var bu := if tu != [] && (tu[0] == '-' || tu[0] == '+') then tu[1..] else tu;
    assert bu == body + "," + t;
    StartsWithComma(body, t);
    LeadingDecimalComma(body, t);
  }

  /** "Infinity" starts a text followed by a comma exactly when it starts the text. */
  lemma StartsWithComma(b: string, t: string)
    ensures StartsWith(b + "," + t, "Infinity") <==> StartsWith(b, "Infinity")
  {
    var u := b + "," + t;
    if |b| >= |"Infinity"| {
      assert u[..|"Infinity"|] == b[..|"Infinity"|];
    } else {
      assert u[|b|] == ',';
      assert forall i :: 0 <= i < |"Infinity"| ==> "Infinity"[i] != ',';
      assert !StartsWith(u, "Infinity") by {
        assert |u| < |"Infinity"| || u[..|"Infinity"|][|b|] == ',';
      }
    }
  }

  /**
   * `typeof v === "number" ? v : parseFloat(v)`. `parseFloat` reads the text of its
   * argument: a number's text reads back as that number, text as itself, and an array's
   * text is its elements' texts joined with "," (null and undefined give ""), of which
   * only the first element is read (see `ParseFloatComma`). Booleans, null, undefined
   * and objects give text that is not a number.
   */
  function NumberOrParse(v: JsValue): Number {
    match v
    case Num(n) => n
    case Str(s) => ParseFloat(s)
    case Arr(items) => if items == [] then NaN else NumberOrParse(items[0])
    case _ => NaN
  }

  /** `parseFloat` reads the text of a whole number back as that number. */
  lemma ParseFloatOfNat(n: nat)
    ensures ParseFloat(NatToString(n)) == Finite(n as real)
  {
    var d := NatToString(n);
    LeadingDecimalOfNat(n);
    assert IsDigit(d[0]);
    assert "" + d == d;
    ParseFloatAfterSign(d, "", n as real);
  }

  /** ... and a minus sign in front of it negates the number. */
  lemma ParseFloatOfNegatedNat(n: nat)
    ensures ParseFloat("-" + NatToString(n)) == Finite(-(n as real))
  {
    var d := NatToString(n);
    LeadingDecimalOfNat(n);
    assert IsDigit(d[0]);
    ParseFloatAfterSign(d, "-", n as real);
  }

  lemma ParseFloatAfterSign(d: string, sign: string, v: real)
    requires d != [] && IsDigit(d[0]) && LeadingDecimal(d) == Some(v)
    requires sign == "" || sign == "-"
    ensures ParseFloat(sign + d) == Finite(if sign == "" then v else -v)
  {
    var m := sign + d;
    assert !IsJsSpace(m[0]);
    assert TrimStart(m, IsJsSpace) == m;
    assert (m[0] == '-' || m[0] == '+') == (sign == "-");
    assert m[|sign|..] == d;
    assert !StartsWith(d, "Infinity") by { assert d[0] != "Infinity"[0]; }
    var n := ParseFloat(m);
    assert n == Finite(if sign == "" then v else -v);
  }
}
