/**
 * The browser's API client (src/api.js): how a login response yields a token, how a
 * failed request is reported, the Authorization header, which receipt URLs may be
 * deleted, the exchange-rate guard and the normalisation of user lists.
 */
module ApiClient {
  import opened Wrappers
  import opened Text
  import opened Seqs
  import opened JsValues

  /** `data.token ?? data.access_token ?? data.auth_token ?? data.jwt` */
  function TopToken(data: JsValue): JsValue {
    FirstPresent([Get(data, "token"), Get(data, "access_token"), Get(data, "auth_token"), Get(data, "jwt")])
  }

  /** `d.token ?? d.access_token ?? d.auth_token` */
  function NestedToken(d: JsValue): JsValue {
    FirstPresent([Get(d, "token"), Get(d, "access_token"), Get(d, "auth_token")])
  }

  /** `data.data && typeof data.data === "object"` */
  predicate UsableData(d: JsValue) {
    Truthy(d) && IsObjectType(d)
  }

  /**
   * The token carried by a login response: a truthy top-level token if it is text
   * (any other truthy one gives ""), else the one nested under `data` when that is an
   * object, else "". The result is never null or undefined.
   */
  function TokenFromLoginResponse(data: JsValue): (r: JsValue)
    ensures !IsNullish(r)
    ensures !Truthy(data) ==> r == Str("")
    ensures r.Str? && r.s != "" ==> r == TopToken(data) || r == NestedToken(Get(data, "data"))
    ensures Truthy(data) && Truthy(TopToken(data)) ==>
      r == (if TopToken(data).Str? then TopToken(data) else Str(""))
    ensures Truthy(data) && !Truthy(TopToken(data)) && UsableData(Get(data, "data")) ==>
      r == Coalesce(NestedToken(Get(data, "data")), Str(""))
    ensures !Truthy(data) || (!Truthy(TopToken(data)) && !UsableData(Get(data, "data"))) ==>
      r == Str("")
  {
    if !Truthy(data) then Str("")
    else
      var t := TopToken(data);
      if Truthy(t) then (if t.Str? then t else Str(""))
      else
        var d := Get(data, "data");
        if UsableData(d) then Coalesce(NestedToken(d), Str(""))
        else Str("")
  }

  /** A truthy top-level token decides the answer: nothing under `data` is consulted. */
  lemma TopTokenWins(fields: map<string, JsValue>, nested: JsValue)
    requires Truthy(TopToken(Obj(fields)))
    ensures TokenFromLoginResponse(Obj(fields)) == TokenFromLoginResponse(Obj(fields["data" := nested]))
  {
    var a := Obj(fields);
    var b := Obj(fields["data" := nested]);
    assert Get(a, "token") == Get(b, "token");
    assert Get(a, "access_token") == Get(b, "access_token");
    assert Get(a, "auth_token") == Get(b, "auth_token");
    assert Get(a, "jwt") == Get(b, "jwt");
    assert TopToken(a) == TopToken(b);
  }

  /**
   * A response whose `token` is non-empty text yields that token, whatever else it
   * carries (the API's login reply is `{ token, user }`).
   */
  lemma TokenFieldWins(fields: map<string, JsValue>)
    requires "token" in fields && fields["token"].Str? && fields["token"].s != ""
    ensures TokenFromLoginResponse(Obj(fields)) == fields["token"]
  {
    assert TopToken(Obj(fields)) == fields["token"];
  }

  /**
   * With no top-level token, the non-empty text token nested under an object `data`
   * is the answer.
   */
  lemma NestedTokenUsed(fields: map<string, JsValue>, inner: map<string, JsValue>)
    requires forall k :: k in ["token", "access_token", "auth_token", "jwt"] ==> k !in fields
    requires "data" in fields && fields["data"] == Obj(inner)
    requires "token" in inner && inner["token"].Str? && inner["token"].s != ""
    ensures TokenFromLoginResponse(Obj(fields)) == inner["token"]
  {
    var data := Obj(fields);
    assert Get(data, "token") == Undefined;
    assert Get(data, "access_token") == Undefined;
    assert Get(data, "auth_token") == Undefined;
    assert Get(data, "jwt") == Undefined;
    assert TopToken(data) == Undefined;
    assert NestedToken(Obj(inner)) == inner["token"];
  }

  /** `localStorage.getItem("token") || ""` */
  function StoredToken(item: Option<string>): (t: string)
    ensures item.Some? ==> t == item.value
    ensures item.None? ==> t == ""
  {
    item.GetOr("")
  }

  /** The Authorization header sent with every request: present only with a token. */
  function Authorization(token: string): (h: Option<string>)
    ensures h.Some? <==> token != ""
    ensures h.Some? ==> StartsWith(h.value, "Bearer ") && h.value[7..] == token
  {
    if token != "" then Some("Bearer " + token) else None
  }

  /** What a request resolves to: the decoded body, or an error with a message. */
  datatype Outcome = Resolved(data: JsValue) | Rejected(message: JsValue)

  /**
   * The end of `request` and `uploadReceipt`: a successful status gives the decoded
   * body (an unparsable body reads as `{}`), a failed one `data.error || data.message`
   * or, when both are falsy, `<what> failed: <status>`.
   */
  function Finish(ok: bool, status: nat, data: JsValue, what: string): (r: Outcome)
    ensures ok <==> r.Resolved?
    ensures ok ==> r.data == data
    ensures r.Rejected? ==> Truthy(r.message)
    ensures r.Rejected? && Truthy(Get(data, "error")) ==> r.message == Get(data, "error")
  {
    if ok then Resolved(data)
    else
      var e := Get(data, "error");
      var m := Get(data, "message");
      if Truthy(e) then Rejected(e)
      else if Truthy(m) then Rejected(m)
      else Rejected(Str(what + " failed: " + NatToString(status)))
  }

  /**
   * `deleteReceipt`: only text mentioning "receipt.php" leads to a request; its path is
   * "/receipt.php" followed by the URL's query (from the first "?"), if it has one.
   */
  function DeleteReceiptPath(receiptUrl: JsValue): (r: Option<string>)
    ensures r.Some? <==> receiptUrl.Str? && Contains(receiptUrl.s, "receipt.php")
    ensures r.Some? && '?' !in receiptUrl.s ==> r.value == "/receipt.php"
    ensures r.Some? && '?' in receiptUrl.s ==>
      StartsWith(r.value, "/receipt.php?") && EndsWith(receiptUrl.s, r.value[|"/receipt.php?"|..])
    ensures r.Some? && '?' in receiptUrl.s ==>
      r.value == "/receipt.php?" + receiptUrl.s[IndexOf(receiptUrl.s, '?') + 1..]
  {
    if !Truthy(receiptUrl) || !receiptUrl.Str? || !Contains(receiptUrl.s, "receipt.php") then None
    else
      var u := receiptUrl.s;
      var i := IndexOf(u, '?');
      Some("/receipt.php" + (if i >= 0 then "?" + u[i + 1..] else ""))
  }

  /**
   * The query kept is everything after the FIRST "?", later question marks included.
   */
  lemma DeleteReceiptQuery(a: string, b: string)
    requires '?' !in a && Contains(a + "?" + b, "receipt.php")
    ensures DeleteReceiptPath(Str(a + "?" + b)) == Some("/receipt.php?" + b)
  {
    var u := a + "?" + b;
    assert u[|a|] == '?';
    assert '?' !in u[..|a|] by { assert u[..|a|] == a; }
    var i := IndexOf(u, '?');
    assert i == |a|;
    assert u[|a| + 1..] == b;
  }

  /** A rate as `fetchBwpPerUsd` returns it. */
  datatype Rate = Rate(rate: real, date: Option<string>)

  /**
   * `fetchBwpPerUsd` from the decoded body onwards: `rates.BWP` as a number (text is
   * read with `parseFloat`), accepted only when finite and positive; the date is kept
   * when it is non-empty text.
   */
  function BwpPerUsd(data: JsValue): (r: Option<Rate>)
    ensures r.Some? <==> NumberOrParse(Get(Get(data, "rates"), "BWP")).IsFinitePositive()
    ensures r.Some? ==> r.value.rate > 0.0 && NumberOrParse(Get(Get(data, "rates"), "BWP")) == Finite(r.value.rate)
    ensures r.Some? ==> (r.value.date.Some? <==> Get(data, "date").Str? && Get(data, "date").s != "")
    ensures r.Some? && r.value.date.Some? ==> Get(data, "date") == Str(r.value.date.value)
  {
    var n := NumberOrParse(Get(Get(data, "rates"), "BWP"));
    var date := if Truthy(Get(data, "date")) then Get(data, "date") else Null;
    if n.IsFinitePositive() then Some(Rate(n.r, if date.Str? then Some(date.s) else None))
    else None
  }

  /** A rate sent as text, such as `{"rates": {"BWP": "13"}}`, is read as a number. */
  lemma RateAsText(n: nat)
    requires n > 0
    ensures BwpPerUsd(Obj(map["rates" := Obj(map["BWP" := Str(NatToString(n))])])) == Some(Rate(n as real, None))
  {
    ParseFloatOfNat(n);
    var data := Obj(map["rates" := Obj(map["BWP" := Str(NatToString(n))])]);
    assert Get(Get(data, "rates"), "BWP") == Str(NatToString(n));
    assert Get(data, "date") == Undefined;
  }

  /** A rate sent as a positive number is returned as that number, with the date when the
      body has one; zero, a negative number or a missing rate gives nothing. */
  lemma RateAsNumber(x: real, date: string)
    ensures var rates := Obj(map["BWP" := Num(Finite(x))]);
      && BwpPerUsd(Obj(map["rates" := rates])) == (if x > 0.0 then Some(Rate(x, None)) else None)
      && BwpPerUsd(Obj(map["rates" := rates, "date" := Str(date)]))
         == (if x > 0.0 then Some(Rate(x, if date != "" then Some(date) else None)) else None)
    ensures BwpPerUsd(Obj(map[])) == None
  {
    var rates := Obj(map["BWP" := Num(Finite(x))]);
    var d1 := Obj(map["rates" := rates]);
    var d2 := Obj(map["rates" := rates, "date" := Str(date)]);
    assert Get(Get(d1, "rates"), "BWP") == Num(Finite(x));
    assert Get(Get(d2, "rates"), "BWP") == Num(Finite(x));
    assert Get(d1, "date") == Undefined;
    assert Get(d2, "date") == Str(date);
    assert Get(Obj(map[]), "rates") == Undefined;
  }

  /**
   * A rate sent as an array is read from its first element, as `parseFloat` reads
   * the comma-joined text: `[13]` and `[13, 2]` give 13, an empty array nothing.
   */
  lemma RateAsArray(x: real, rest: seq<JsValue>)
    ensures var body := Obj(map["rates" := Obj(map["BWP" := Arr([Num(Finite(x))] + rest)])]);
      BwpPerUsd(body) == (if x > 0.0 then Some(Rate(x, None)) else None)
    ensures BwpPerUsd(Obj(map["rates" := Obj(map["BWP" := Arr([])])])) == None
  {
    var a := Arr([Num(Finite(x))] + rest);
    var body := Obj(map["rates" := Obj(map["BWP" := a])]);
    assert Get(Get(body, "rates"), "BWP") == a;
    assert a.items[0] == Num(Finite(x));
    assert NumberOrParse(a) == Finite(x);
    assert Get(body, "date") == Undefined;
    var e := Obj(map["rates" := Obj(map["BWP" := Arr([])])]);
    assert Get(Get(e, "rates"), "BWP") == Arr([]);
  }

  /** A user's display name: the given `name`/`email`, or "User " followed by an id. */
  datatype UserName = Given(v: JsValue) | Generated(idPart: JsValue)

  datatype ListedUser = ListedUser(id: JsValue, name: UserName)

  /** The array a users response holds: `items`, `users`, the body itself when it is an
      array, or a one-element list of `user`; nothing otherwise. */
  function RawUsers(data: JsValue): seq<JsValue> {
    var raw := Coalesce(Get(data, "items"), Coalesce(Get(data, "users"), if data.Arr? then data else Null));
    var user := Get(data, "user");
    var raw' := if IsNullish(raw) && Truthy(user) && IsObjectType(user) then Arr([user]) else raw;
    if raw'.Arr? then raw'.items else []
  }

  /** One entry mapped to `{ id, name }`. */
  function ListUser(u: JsValue): (r: ListedUser)
    ensures r.name.Given? <==> !IsNullish(Get(u, "name")) || !IsNullish(Get(u, "email"))
    ensures r.name.Generated? ==> !IsNullish(r.name.idPart)
    ensures !IsNullish(r.id) <==> !IsNullish(Get(u, "id")) || !IsNullish(Get(u, "uid")) || !IsNullish(Get(u, "user_id"))
  {
    var id := FirstPresent([Get(u, "id"), Get(u, "uid"), Get(u, "user_id")]);
    var name := FirstPresent([Get(u, "name"), Get(u, "email")]);
    assert !IsNullish(Get(u, "id")) ==> !IsNullish([Get(u, "id"), Get(u, "uid"), Get(u, "user_id")][0]);
    assert !IsNullish(Get(u, "uid")) ==> !IsNullish([Get(u, "id"), Get(u, "uid"), Get(u, "user_id")][1]);
    assert !IsNullish(Get(u, "user_id")) ==> !IsNullish([Get(u, "id"), Get(u, "uid"), Get(u, "user_id")][2]);
    assert !IsNullish(Get(u, "name")) ==> !IsNullish([Get(u, "name"), Get(u, "email")][0]);
    assert !IsNullish(Get(u, "email")) ==> !IsNullish([Get(u, "name"), Get(u, "email")][1]);
    assert !IsNullish([Get(u, "id"), Get(u, "uid"), Str("?")][2]);
    ListedUser(id, if !IsNullish(name) then Given(name) else Generated(FirstPresent([Get(u, "id"), Get(u, "uid"), Str("?")])))
  }

  /** `u.id != null && u.id !== ""` */
  predicate HasId(u: ListedUser) { !IsNullish(u.id) && u.id != Str("") }

  /**
   * `normalizeUserList`: every entry mapped to `{ id, name }`, keeping those with an id,
   * in the response's order.
   */
  function NormalizeUserList(data: JsValue): (r: seq<ListedUser>)
    ensures forall i :: 0 <= i < |r| ==> HasId(r[i])
    ensures |r| <= |RawUsers(data)|
  {
    Filter(Map(RawUsers(data), ListUser), HasId)
  }

  /** The list keeps the response's order and drops exactly the entries without an id. */
  lemma NormalizeUserListSpec(data: JsValue)
    ensures IsSubsequence(NormalizeUserList(data), Map(RawUsers(data), ListUser))
    ensures forall u :: u in RawUsers(data) && HasId(ListUser(u)) ==> ListUser(u) in NormalizeUserList(data)
  {
    var raw := RawUsers(data);
    FilterIsSubsequence(Map(raw, ListUser), HasId);
    FilterKeeps(Map(raw, ListUser), HasId);
    forall u | u in raw && HasId(ListUser(u))
      ensures ListUser(u) in NormalizeUserList(data)
    {
      var j :| 0 <= j < |raw| && raw[j] == u;
      assert Map(raw, ListUser)[j] == ListUser(u);
    }
  }

  /** A response holding only the signed-in user, `{ user: {...} }`, lists that one user. */
  lemma SingleUserResponse(u: map<string, JsValue>)
    requires HasId(ListUser(Obj(u)))
    ensures NormalizeUserList(Obj(map["user" := Obj(u)])) == [ListUser(Obj(u))]
  {
    var data := Obj(map["user" := Obj(u)]);
    assert Get(data, "items") == Undefined && Get(data, "users") == Undefined;
    assert Get(data, "user") == Obj(u);
    assert RawUsers(data) == [Obj(u)];
    assert Map([Obj(u)], ListUser) == [ListUser(Obj(u))];
  }
}
