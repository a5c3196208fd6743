/**
 * What the PHP endpoints share: the values a decoded JSON body or query string holds,
 * PHP's notion of an "empty" string, the authenticated caller, and response statuses.
 */
module ApiCommon {
  import opened Wrappers
  import opened Text

  /** A request value as the endpoints meet it: absent or null, a string, or a list of
      strings. Numbers arrive as the text PHP's `(string)` gives for them. */
  datatype PhpValue = PNull | PStr(s: string) | PList(items: seq<string>)

  /** A string PHP treats as false (`empty()`, `array_filter`, `?:`): "" and "0". */
  predicate PhpFalsy(s: string) { s == "" || s == "0" }

  /** `empty($x)` for a request field that may be missing. */
  predicate PhpEmpty(x: Option<string>) { x.None? || PhpFalsy(x.value) }

  /** The user `require_auth` returns. */
  datatype Caller = Caller(id: int, name: Option<string>, role: Option<string>)

  /** `($user["role"] ?? "") === "admin"` */
  predicate IsAdmin(c: Caller) { c.role == Some("admin") }

  /** `strlen($password) < 6`: PHP counts bytes, not characters. */
  predicate TooShort(password: string) { ByteLength(password) < 6 }

  /** The status code of a response. */
  type Status = int

  const Ok: Status := 200
  const Created: Status := 201
  const BadRequest: Status := 400
  const Unauthorized: Status := 401
  const Forbidden: Status := 403
  const NotFound: Status := 404
  const MethodNotAllowed: Status := 405
  const ServerError: Status := 500

  /** A value bound to a `?` placeholder. */
  datatype SqlParam = TextParam(text: string) | IntParam(n: int)

  /** The number of `?` placeholders in a statement. */
  function Placeholders(s: string): nat {
    if s == [] then 0 else Placeholders(s[..|s| - 1]) + (if s[|s| - 1] == '?' then 1 else 0)
  }

  lemma {:induction false} PlaceholdersAppend(a: string, b: string)
    ensures Placeholders(a + b) == Placeholders(a) + Placeholders(b)
  {
    if b != [] {
      assert (a + b)[..|a + b| - 1] == a + b[..|b| - 1];
      assert (a + b)[|a + b| - 1] == b[|b| - 1];
      PlaceholdersAppend(a, b[..|b| - 1]);
    } else {
      assert a + b == a;
    }
  }

  lemma {:induction false} PlaceholdersNone(s: string)
    requires '?' !in s
    ensures Placeholders(s) == 0
  {
    if s != [] {
      assert s[|s| - 1] in s;
      var init := s[..|s| - 1];
      assert '?' !in init by {
        forall i | 0 <= i < |init| ensures init[i] != '?' {
          assert init[i] == s[i];
        }
      }
      PlaceholdersNone(init);
    }
  }

  lemma EndsInPlaceholder(head: string)
    requires '?' !in head
    ensures Placeholders(head + "?") == 1
  {
    PlaceholdersAppend(head, "?");
    PlaceholdersNone(head);
  }

  predicate IsSlash(c: char) { c == '/' }

  /** PHP's `basename`: the text after the last "/" once trailing slashes are dropped. */
  function Basename(path: string): (b: string)
    ensures '/' !in b
  {
    var t := TrimEnd(path, IsSlash);
    var k := LastIndexOf(t, '/');
    t[k + 1..]
  }

  /** `pathinfo($path, PATHINFO_EXTENSION)`: the text after the last "." of the
      basename, or "" when it has none. */
  function Extension(path: string): (e: string)
    ensures '.' !in e && '/' !in e
  {
    var b := Basename(path);
    var k := LastIndexOf(b, '.');
    if k < 0 then "" else b[k + 1..]
  }
}
