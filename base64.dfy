/**
 * Base64 (section 4 of RFC 4648) as PHP's `base64_encode` writes it, the URL-safe text
 * the token code makes of it (`strtr(..., '+/', '-_')`, the alphabet of section 5, then
 * `rtrim(..., '=')`), and PHP's lenient `base64_decode`, which skips every character
 * outside the alphabet, padding included, and drops a lone final character.
 */
module Base64 {
  import opened Text
  import opened Seqs

  type byte = x: int | 0 <= x < 256
  type sextet = x: int | 0 <= x < 64

  /** The letter of the standard alphabet for a six-bit value. */
  function Letter(v: sextet): char {
    if v < 26 then ('A' as int + v) as char
    else if v < 52 then ('a' as int + v - 26) as char
    else if v < 62 then ('0' as int + v - 52) as char
    else if v == 62 then '+' else '/'
  }

  predicate InAlphabet(c: char) {
    ('A' <= c <= 'Z') || ('a' <= c <= 'z') || ('0' <= c <= '9') || c == '+' || c == '/'
  }

  /** The six-bit value of a letter of the alphabet (63 for any other character, which
      the decoder never asks for). */
  function ValueOf(c: char): sextet {
    if 'A' <= c <= 'Z' then c as int - 'A' as int
    else if 'a' <= c <= 'z' then c as int - 'a' as int + 26
    else if '0' <= c <= '9' then c as int - '0' as int + 52
    else if c == '+' then 62 else 63
  }

  lemma LetterValue(v: sextet)
    ensures InAlphabet(Letter(v)) && ValueOf(Letter(v)) == v
  {
  }

  function High(a: byte): sextet { a / 4 }
  function Mid(a: byte, b: byte): sextet { (a % 4) * 16 + b / 16 }
  function Low(b: byte, c: byte): sextet { (b % 16) * 4 + c / 64 }
  function Last(c: byte): sextet { c % 64 }

  /** The six-bit groups of the bytes: each three bytes give four groups, two final
      bytes three groups and one final byte two, the missing low bits zero. */
  function Sextets(b: seq<byte>): seq<sextet> {
    if |b| == 0 then []
    else if |b| == 1 then [High(b[0]), Mid(b[0], 0)]
    else if |b| == 2 then [High(b[0]), Mid(b[0], b[1]), Low(b[1], 0)]
    else [High(b[0]), Mid(b[0], b[1]), Low(b[1], b[2]), Last(b[2])] + Sextets(b[3..])
  }

  /** Every three bytes give four groups; a final one or two bytes one group more. */
  lemma {:induction false} SextetsLength(b: seq<byte>)
    ensures |Sextets(b)| == (|b| / 3) * 4 + (if |b| % 3 == 0 then 0 else |b| % 3 + 1)
  {
    if |b| >= 3 {
      SextetsLength(b[3..]);
    }
  }

  function First(x: sextet, y: sextet): byte { (x as int) * 4 + (y as int) / 16 }
  function Second(x: sextet, y: sextet): byte { ((x as int) % 16) * 16 + (y as int) / 4 }
  function Third(x: sextet, y: sextet): byte { ((x as int) % 4) * 64 + y as int }

  /** The bytes the decoder assembles from six-bit groups: four groups give three bytes,
      a final three give two, a final two give one, and a lone final group none. */
  function Octets(v: seq<sextet>): seq<byte> {
    if |v| < 2 then []
    else if |v| == 2 then [First(v[0], v[1])]
    else if |v| == 3 then [First(v[0], v[1]), Second(v[1], v[2])]
    else [First(v[0], v[1]), Second(v[1], v[2]), Third(v[2], v[3])] + Octets(v[4..])
  }

  /** Three bytes survive the split into four groups and back. */
  lemma GroupRoundTrip(a: byte, b: byte, c: byte)
    ensures First(High(a), Mid(a, b)) == a
    ensures Second(Mid(a, b), Low(b, c)) == b
    ensures Third(Low(b, c), Last(c)) == c
  {
  }

  /** Decoding the groups of some bytes gives the bytes back. */
  lemma {:induction false} OctetsOfSextets(b: seq<byte>)
    ensures Octets(Sextets(b)) == b
  {
    if |b| == 1 {
      assert b == [b[0]];
      OneByte(b[0]);
    } else if |b| == 2 {
      assert b == [b[0], b[1]];
      TwoBytes(b[0], b[1]);
    } else if |b| >= 3 {
      OctetsStep(b);
      OctetsOfSextets(b[3..]);
      assert b == b[..3] + b[3..];
    }
  }

  /** A lone final byte comes back from its two groups. */
  lemma OneByte(a: byte)
    ensures Octets(Sextets([a])) == [a]
  {
    var v := [High(a), Mid(a, 0)];
    assert Sextets([a]) == v;
    assert Octets(v) == [First(v[0], v[1])];
    GroupRoundTrip(a, 0, 0);
  }

  /** Two final bytes come back from their three groups. */
  lemma TwoBytes(a: byte, b: byte)
    ensures Octets(Sextets([a, b])) == [a, b]
  {
    var v := [High(a), Mid(a, b), Low(b, 0)];
    assert Sextets([a, b]) == v;
    assert Octets(v) == [First(v[0], v[1]), Second(v[1], v[2])];
    GroupRoundTrip(a, b, 0);
  }

  /** Three leading bytes give four leading groups. */
  lemma SextetsCons(b: seq<byte>)
    requires |b| >= 3
    ensures Sextets(b) == [High(b[0]), Mid(b[0], b[1]), Low(b[1], b[2]), Last(b[2])] + Sextets(b[3..])
  {
  }

  /** Four leading groups give three leading bytes. */
  lemma OctetsCons(g: seq<sextet>, rest: seq<sextet>)
    requires |g| == 4
    ensures Octets(g + rest) == [First(g[0], g[1]), Second(g[1], g[2]), Third(g[2], g[3])] + Octets(rest)
  {
    var v := g + rest;
    assert v[0] == g[0] && v[1] == g[1] && v[2] == g[2] && v[3] == g[3];
    assert v[4..] == rest;
  }

  /** The first three bytes come back from the first four groups. */
  lemma OctetsStep(b: seq<byte>)
    requires |b| >= 3
    ensures Octets(Sextets(b)) == b[..3] + Octets(Sextets(b[3..]))
  {
    var rest := Sextets(b[3..]);
    var g := [High(b[0]), Mid(b[0], b[1]), Low(b[1], b[2]), Last(b[2])];
    calc {
      Octets(Sextets(b));
      { SextetsCons(b); }
      Octets(g + rest);
      { GroupOctets(b[0], b[1], b[2], rest); }
      [b[0], b[1], b[2]] + Octets(rest);
      { TakeThree(b); }
      b[..3] + Octets(rest);
    }
  }

  lemma TakeThree<T>(s: seq<T>)
    requires |s| >= 3
    ensures s[..3] == [s[0], s[1], s[2]]
  {
  }

  /** The four groups of three bytes decode to those bytes, whatever follows them. */
  lemma GroupOctets(a: byte, b: byte, c: byte, rest: seq<sextet>)
    ensures Octets([High(a), Mid(a, b), Low(b, c), Last(c)] + rest) == [a, b, c] + Octets(rest)
  {
    var g := [High(a), Mid(a, b), Low(b, c), Last(c)];
    OctetsCons(g, rest);
    GroupRoundTrip(a, b, c);
  }

  /** The `=` characters that pad the text to a multiple of four. */
  function Padding(n: nat): string {
    if n % 3 == 1 then "==" else if n % 3 == 2 then "=" else ""
  }

  /** PHP's `base64_encode`. */
  function Encode(b: seq<byte>): string {
    Map(Sextets(b), Letter) + Padding(|b|)
  }

  /** PHP's `base64_decode` in its default, lenient mode. */
  function Decode(s: string): seq<byte> {
    Octets(Map(Filter(s, InAlphabet), ValueOf))
  }

  /** `base64_decode` reads back what `base64_encode` writes, padding and all. */
  lemma RoundTrip(b: seq<byte>)
    ensures Decode(Encode(b)) == b
  {
    var v := Sextets(b);
    PaddingSkipped(v, Padding(|b|));
    LettersValues(v);
    OctetsOfSextets(b);
  }

  /** The decoder keeps every letter and drops the padding after them. */
  lemma PaddingSkipped(v: seq<sextet>, pad: string)
    requires forall i :: 0 <= i < |pad| ==> IsPad(pad[i])
    ensures Filter(Map(v, Letter) + pad, InAlphabet) == Map(v, Letter)
  {
    var body := Map(v, Letter);
    forall i | 0 <= i < |body| ensures InAlphabet(body[i]) {
      LetterValue(v[i]);
    }
    FilterAllKept(body, InAlphabet);
    FilterNone(pad, InAlphabet);
    FilterAppend(body, pad, InAlphabet);
  }

  /** Each letter reads back as the six-bit value it was written for. */
  lemma LettersValues(v: seq<sextet>)
    ensures Map(Map(v, Letter), ValueOf) == v
  {
    forall i | 0 <= i < |v| ensures ValueOf(Letter(v[i])) == v[i] {
      LetterValue(v[i]);
    }
  }

  /** The lenient decoder skips an "=" wherever it stands, not only at the end. */
  lemma PadSkipped(x: string, y: string)
    ensures Decode(x + "=" + y) == Decode(x + y)
  {
    var f := Filter(x + "=" + y, InAlphabet);
    FilterAppend(x + "=", y, InAlphabet);
    FilterAppend(x, "=", InAlphabet);
    FilterAppend(x, y, InAlphabet);
    FilterNone("=", InAlphabet);
    assert f == Filter(x + y, InAlphabet);
  }

  /** `strtr(s, '+/', '-_')` on one character. */
  function UrlChar(c: char): char {
    if c == '+' then '-' else if c == '/' then '_' else c
  }

  /** `strtr(s, '-_', '+/')` on one character. */
  function StdChar(c: char): char {
    if c == '-' then '+' else if c == '_' then '/' else c
  }

  predicate IsPad(c: char) { c == '=' }

  /** The token code's encoding: `rtrim(strtr(base64_encode($b), '+/', '-_'), '=')`. */
  function UrlEncode(b: seq<byte>): string {
    TrimEnd(Map(Encode(b), UrlChar), IsPad)
  }

  /** The token code's decoding: `base64_decode(strtr($s, '-_', '+/'))`. */
  function UrlDecode(s: string): seq<byte> {
    Decode(Map(s, StdChar))
  }

  /** A letter of the URL-safe alphabet of section 5 of RFC 4648. */
  predicate UrlSafe(c: char) {
    ('A' <= c <= 'Z') || ('a' <= c <= 'z') || ('0' <= c <= '9') || c == '-' || c == '_'
  }

  function UrlLetter(v: sextet): char { UrlChar(Letter(v)) }

  lemma {:induction false} TrimPadding(x: string, p: string)
    requires x == [] || !IsPad(x[|x| - 1])
    requires forall i :: 0 <= i < |p| ==> IsPad(p[i])
    ensures TrimEnd(x + p, IsPad) == x
  {
    if p != [] {
      assert (x + p)[..|x + p| - 1] == x + p[..|p| - 1];
      TrimPadding(x, p[..|p| - 1]);
    } else {
      assert x + p == x;
    }
  }

  /** The URL-safe text is one URL-safe letter per six-bit group, with no padding. */
  lemma UrlEncodeLetters(b: seq<byte>)
    ensures UrlEncode(b) == Map(Sextets(b), UrlLetter)
  {
    var v := Sextets(b);
    var body := Map(v, UrlLetter);
    MapConcat(Map(v, Letter), Padding(|b|), UrlChar);
    assert Map(Map(v, Letter), UrlChar) == body;
    assert Map(Padding(|b|), UrlChar) == Padding(|b|);
    TrimPadding(body, Padding(|b|));
  }

  /** Every character of the URL-safe text is a URL-safe letter (so never a "."). */
  lemma UrlEncodeSafe(b: seq<byte>)
    ensures forall i :: 0 <= i < |UrlEncode(b)| ==> UrlSafe(UrlEncode(b)[i])
  {
    UrlEncodeLetters(b);
  }

  /** Decoding URL-safe letters gives the bytes of their six-bit groups. */
  lemma UrlDecodeLetters(v: seq<sextet>)
    ensures UrlDecode(Map(v, UrlLetter)) == Octets(v)
  {
    var s := Map(v, UrlLetter);
    var std := Map(s, StdChar);
    forall i | 0 <= i < |v| ensures std[i] == Letter(v[i]) && InAlphabet(std[i]) && ValueOf(std[i]) == v[i] {
      LetterValue(v[i]);
    }
    assert forall x :: x in std ==> InAlphabet(x);
    FilterAllKept(std, InAlphabet);
    assert Map(std, ValueOf) == v;
  }

  /** The token code reads back exactly the bytes it wrote. */
  lemma UrlRoundTrip(b: seq<byte>)
    ensures UrlDecode(UrlEncode(b)) == b
  {
    UrlEncodeLetters(b);
    UrlDecodeLetters(Sextets(b));
    OctetsOfSextets(b);
  }
}
