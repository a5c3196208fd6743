/**
 * `qsFrom`: the list filters as the query-string tail the client appends to its
 * expenses requests, written the way `URLSearchParams` serialises
 * application/x-www-form-urlencoded data.
 */
module QueryString {
  import opened Text
  import opened Seqs
  import opened Records

  /** Characters the form encoding leaves as they are. */
  predicate Unreserved(c: char) {
    ('a' <= c <= 'z') || ('A' <= c <= 'Z') || ('0' <= c <= '9') || c == '*' || c == '-' || c == '.' || c == '_'
  }

  function HexDigit(n: nat): (c: char)
    requires n < 16
    ensures Unreserved(c)
  {
    if n < 10 then ('0' as int + n) as char else ('A' as int + n - 10) as char
  }

  /** `%XY` for one byte. */
  function Percent(b: nat): (r: string)
    requires b < 256
    ensures |r| == 3 && r[0] == '%' && Unreserved(r[1]) && Unreserved(r[2])
  {
    ['%', HexDigit(b / 16), HexDigit(b % 16)]
  }

  /** Percent-encoding of a byte sequence. */
  function PercentAll(bs: seq<nat>): (r: string)
    requires forall i :: 0 <= i < |bs| ==> bs[i] < 256
    ensures forall i :: 0 <= i < |r| ==> r[i] == '%' || Unreserved(r[i])
  {
    if bs == [] then [] else Percent(bs[0]) + PercentAll(bs[1..])
  }

  /** One character of a form-encoded value. */
  function EncodeChar(c: char): (r: string)
    ensures forall i :: 0 <= i < |r| ==> r[i] == '%' || r[i] == '+' || Unreserved(r[i])
  {
    if Unreserved(c) then [c]
    else if c == ' ' then "+"
    else PercentAll(Utf8(c))
  }

  /** A form-encoded name or value: never holds `&` or `=`. */
  function FormEncode(s: string): (r: string)
    ensures forall i :: 0 <= i < |r| ==> r[i] == '%' || r[i] == '+' || Unreserved(r[i])
    ensures (forall i :: 0 <= i < |s| ==> Unreserved(s[i])) ==> r == s
  {
    if s == [] then [] else EncodeChar(s[0]) + FormEncode(s[1..])
  }

  /** One query parameter. */
  datatype Param = Param(name: string, value: string)

  /** `name=value`, both form-encoded. */
  function ParamText(p: Param): string {
    FormEncode(p.name) + "=" + FormEncode(p.value)
  }

  /** The five filters in the order `qsFrom` considers them. */
  function AllParams(f: Filters): seq<Param> {
    [Param("from", f.from), Param("to", f.to), Param("user_id", f.userId),
     Param("supplier_id", f.supplierId), Param("category_id", f.categoryId)]
  }

  function IsSet(p: Param): bool { p.value != "" }

  /** The filters that are set (truthy), in that order. */
  function SetParams(f: Filters): seq<Param> {
    Filter(AllParams(f), IsSet)
  }

  /** `qsFrom(filters)`: each filter that is set goes into the parameters in turn (the
      five `if`s, written as one pass over the fixed list); the serialised parameters
      follow a "&", or the result is empty when none is set. */
  method QsFrom(f: Filters) returns (qs: string)
    ensures qs == "" <==> SetParams(f) == []
    ensures qs != "" ==> qs[0] == '&' && Split(qs[1..], '&') == Map(SetParams(f), ParamText)
  {
    var all := AllParams(f);
    var ps: seq<Param> := [];
    for i := 0 to |all|
      invariant ps == Filter(all[..i], IsSet)
    {
      assert all[..i + 1][..i] == all[..i];
      if all[i].value != "" {
        ps := ps + [all[i]];
      }
    }
    assert all[..|all|] == all;
    var s := Join(Map(ps, ParamText), "&");
    Serialised(ps);
    qs := if s != "" then "&" + s else "";
    assert qs != "" ==> qs[1..] == s;
  }

  /** The serialised parameters are empty exactly when there are none, and split back
      into the parameter texts. */
  lemma Serialised(ps: seq<Param>)
    ensures var s := Join(Map(ps, ParamText), "&");
      && (s == "" <==> ps == [])
      && (ps != [] ==> Split(s, '&') == Map(ps, ParamText))
  {
    if ps != [] {
      ParamTextsSplit(ps);
    }
  }

  /** Parameter texts hold no `&`, so the serialised list splits back into them. */
  lemma ParamTextsSplit(ps: seq<Param>)
    requires ps != []
    ensures Split(Join(Map(ps, ParamText), "&"), '&') == Map(ps, ParamText)
    ensures Join(Map(ps, ParamText), "&") != ""
  {
    var texts := Map(ps, ParamText);
    forall i | 0 <= i < |texts|
      ensures '&' !in texts[i] && texts[i] != ""
    {
      ParamTextShape(ps[i]);
    }
    SplitJoin(texts, '&');
    if |texts| > 1 {
      assert |Join(texts, "&")| >= |texts[0]|;
    }
  }

  /**
   * A parameter's text reads back: exactly one `=`, with the encoded name before it and
   * the encoded value after it, and no `&`. A value made only of unreserved characters
   * (a date such as 2024-01-31, a numeric id) is sent as it is.
   */
  lemma ParamTextShape(p: Param)
    ensures '&' !in ParamText(p)
    ensures Split(ParamText(p), '=') == [FormEncode(p.name), FormEncode(p.value)]
    ensures (forall i :: 0 <= i < |p.value| ==> Unreserved(p.value[i])) ==> FormEncode(p.value) == p.value
  {
    var n := FormEncode(p.name);
    var v := FormEncode(p.value);
    NoSeparators(p.name);
    NoSeparators(p.value);
    SplitPair(n, v, '=');
    JoinPair(n, v, "=");
  }

  /** Encoded text holds neither separator of a query string. */
  lemma NoSeparators(s: string)
    ensures '=' !in FormEncode(s) && '&' !in FormEncode(s)
  {
    EncodedChars(FormEncode(s));
  }

  lemma EncodedChars(r: string)
    requires forall i :: 0 <= i < |r| ==> r[i] == '%' || r[i] == '+' || Unreserved(r[i])
    ensures '=' !in r && '&' !in r
  {
    forall i | 0 <= i < |r| ensures r[i] != '=' && r[i] != '&' {
      assert r[i] == '%' || r[i] == '+' || Unreserved(r[i]);
    }
  }

  /** The parameters appear in the fixed order from, to, user_id, supplier_id,
      category_id, and only the ones that are set. */
  lemma SetParamsOrder(f: Filters)
    ensures IsSubsequence(SetParams(f), AllParams(f))
    ensures forall p :: p in SetParams(f) <==> p in AllParams(f) && p.value != ""
  {
    FilterIsSubsequence(AllParams(f), IsSet);
    FilterKeeps(AllParams(f), IsSet);
  }
}
