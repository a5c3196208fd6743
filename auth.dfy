/**
 * The login endpoint `api/auth.php`: the two-part signed token (`sign_token`,
 * `verify_token`) and the branches of its POST and GET handlers.
 *
 * JSON, HMAC-SHA256 (RFC 2104), password hashing and the clock are parameters; the
 * URL-safe base64 of section 5 of RFC 4648 around them is the concrete `Base64` model.
 */
module Auth {
  import opened Wrappers
  import opened Text
  import opened Numbers
  import opened Base64
  import opened ApiCommon

  /** A claim value of the token payload as `json_decode(..., true)` gives it back. */
  datatype Claim = CInt(i: int) | CText(s: string) | CNull

  /** The payload: a PHP array with string keys. */
  type Claims = map<string, Claim>

  /** The primitives the endpoint calls: `json_encode` of a payload, `json_decode` of
      some bytes into an array (None when they are not JSON or not an array), and raw
      `hash_hmac('sha256', data, key, true)`. */
  datatype Crypto = Crypto(
    encode: Claims -> seq<byte>,
    decode: seq<byte> -> Option<Claims>,
    hmac: (string, string) -> seq<byte>)

  /** JSON reads back every payload it writes. */
  ghost predicate JsonFaithful(c: Crypto) {
    forall p {:trigger c.encode(p)} :: c.decode(c.encode(p)) == Some(p)
  }

  /** Twelve hours, in seconds. */
  const TokenLifetime: int := 60 * 60 * 12

  /** The signature part: the URL-safe text of the HMAC of the payload part. */
  function Signature(body: string, secret: string, c: Crypto): string {
    UrlEncode(c.hmac(body, secret))
  }

  /** The payload with its expiry time set. */
  function Stamped(payload: Claims, now: int): Claims {
    payload["exp" := CInt(now + TokenLifetime)]
  }

  /** `sign_token`: the URL-safe text of the stamped payload's JSON, a ".", and the
      signature of that text. */
  function SignToken(payload: Claims, secret: string, now: int, c: Crypto): string {
    var body := UrlEncode(c.encode(Stamped(payload, now)));
    body + "." + Signature(body, secret, c)
  }

  /** The expiry rule of `verify_token`: `exp` is present, not `empty()` and not
      before `now`. */
  predicate Live(p: Claims, now: int) {
    "exp" in p &&
    match p["exp"]
    case CInt(e) => e != 0 && e >= now
    case CText(_) => false
    case CNull => false
  }

  /** `verify_token`. */
  function VerifyToken(token: string, secret: string, now: int, c: Crypto): Option<Claims> {
    var parts := Split(token, '.');
    if |parts| != 2 then None
    else if Signature(parts[0], secret, c) != parts[1] then None
    else
      match c.decode(UrlDecode(parts[0]))
      case None => None
      case Some(p) => if Live(p, now) then Some(p) else None
  }

  /** Neither part of a signed token holds a ".". */
  lemma SignedPartsDotFree(body: seq<byte>, secret: string, c: Crypto)
    ensures '.' !in UrlEncode(body)
    ensures '.' !in Signature(UrlEncode(body), secret, c)
  {
    UrlEncodeSafe(body);
    UrlEncodeSafe(c.hmac(UrlEncode(body), secret));
  }

  /** A token whose first part is free of "." and whose second part is that part's
      signature is accepted exactly when its payload decodes and is live. */
  lemma VerifySigned(body: string, secret: string, now: int, c: Crypto)
    requires '.' !in body
    ensures VerifyToken(body + "." + Signature(body, secret, c), secret, now, c) ==
      match c.decode(UrlDecode(body))
      case None => None
      case Some(p) => if Live(p, now) then Some(p) else None
  {
    var sig := Signature(body, secret, c);
    UrlEncodeSafe(c.hmac(body, secret));
    JoinPair(body, sig, ".");
    SplitPair(body, sig, '.');
  }

  /** Only such tokens are accepted: an accepted token is a "."-free part, a ".", and
      that part's signature, and what it yields is that part's decoded, live payload. */
  lemma {:induction false} VerifyAcceptsOnlySigned(token: string, secret: string, now: int, c: Crypto)
    requires VerifyToken(token, secret, now, c).Some?
    ensures var body := Split(token, '.')[0];
      '.' !in body && token == body + "." + Signature(body, secret, c) &&
      c.decode(UrlDecode(body)) == VerifyToken(token, secret, now, c) &&
      Live(VerifyToken(token, secret, now, c).value, now)
  {
    var parts := Split(token, '.');
    JoinSplit(token, '.');
    JoinPair(parts[0], parts[1], ".");
    assert parts == [parts[0], parts[1]];
  }

  /** Round trip: a token signed at `issued` verifies, with the same secret, at any
      time up to twelve hours later, and yields the payload with `exp` added. */
  lemma SignThenVerify(payload: Claims, secret: string, issued: int, now: int, c: Crypto)
    requires JsonFaithful(c)
    requires issued >= 0 && now <= issued + TokenLifetime
    ensures VerifyToken(SignToken(payload, secret, issued, c), secret, now, c) ==
      Some(Stamped(payload, issued))
  {
    var p := Stamped(payload, issued);
    var bytes := c.encode(p);
    SignedPartsDotFree(bytes, secret, c);
    VerifySigned(UrlEncode(bytes), secret, now, c);
    UrlRoundTrip(bytes);
  }

  /** After its twelve hours a signed token is refused. */
  lemma SignedTokenExpires(payload: Claims, secret: string, issued: int, now: int, c: Crypto)
    requires JsonFaithful(c)
    requires now > issued + TokenLifetime
    ensures VerifyToken(SignToken(payload, secret, issued, c), secret, now, c) == None
  {
    var p := Stamped(payload, issued);
    var bytes := c.encode(p);
    SignedPartsDotFree(bytes, secret, c);
    VerifySigned(UrlEncode(bytes), secret, now, c);
    UrlRoundTrip(bytes);
  }

  /** A token accepted now was also accepted, with the same payload, at every earlier
      time: acceptance only ever ends. */
  lemma VerifyEarlier(token: string, secret: string, earlier: int, now: int, c: Crypto)
    requires earlier <= now && VerifyToken(token, secret, now, c).Some?
    ensures VerifyToken(token, secret, earlier, c) == VerifyToken(token, secret, now, c)
  {
  }

  // The request handlers.

  /** The request fields the handlers read, as `(string)` gives them; None when the
      JSON body does not hold the key (or holds null). */
  datatype AuthInput = AuthInput(
    action: Option<string>,
    currentPassword: Option<string>,
    newPassword: Option<string>,
    userId: Option<string>,
    email: Option<string>,
    password: Option<string>)

  /** A row of the users table. */
  datatype UserRow = UserRow(id: int, name: Option<string>, email: string, passwordHash: string, role: Option<string>)

  /** The server side: the token secret, the clock, the primitives above, and
      `password_verify` / `password_hash`. */
  datatype Env = Env(
    secret: string,
    now: int,
    crypto: Crypto,
    passwordVerify: (string, string) -> bool,
    passwordHash: string -> string)

  /** The response of the endpoint. `PasswordSet` is the `{"ok": true}` reply after
      `UPDATE users SET password_hash = hash WHERE id = user`. */
  datatype Reply =
    | Error(status: Status, message: string)
    | PasswordSet(user: int, hash: string)
    | LoggedIn(token: string, id: int, name: Option<string>, role: Option<string>)
    | Identity(payload: Claims)
  {
    function StatusCode(): Status {
      if Error? then status else Ok
    }
  }

  /** The token of an `Authorization: Bearer <token>` header. */
  function BearerToken(authorization: string): (t: Option<string>)
    ensures t.Some? <==> StartsWith(authorization, "Bearer ")
    ensures t.Some? ==> authorization == "Bearer " + t.value
  {
    if StartsWith(authorization, "Bearer ") then Some(authorization[7..]) else None
  }

  /** `(int)($payload["uid"] ?? 0)` */
  function ClaimInt(p: Claims, key: string): int {
    if key !in p then 0
    else match p[key]
      case CInt(i) => i
      case CText(s) => PhpIntval(s)
      case CNull => 0
  }

  /** `$payload["role"] ?? ""` compared with "admin". */
  predicate ClaimsAdmin(p: Claims) {
    "role" in p && p["role"] == CText("admin")
  }

  /** The first user meeting `p` (`fetch()` of the first row a query selects). */
  function FirstWhere(users: seq<UserRow>, p: UserRow -> bool): (u: Option<UserRow>)
    ensures u.Some? ==> u.value in users && p(u.value)
    ensures u.None? ==> forall r :: r in users ==> !p(r)
  {
    if users == [] then None
    else if p(users[0]) then Some(users[0])
    else FirstWhere(users[1..], p)
  }

  function IdIs(id: int): UserRow -> bool { (r: UserRow) => r.id == id }

  function EmailIs(email: string): UserRow -> bool { (r: UserRow) => r.email == email }

  /** `SELECT ... FROM users WHERE id = ?` */
  function UserById(users: seq<UserRow>, id: int): (u: Option<UserRow>)
    ensures u.Some? ==> u.value in users && u.value.id == id
    ensures u.None? ==> forall r :: r in users ==> r.id != id
  {
    FirstWhere(users, IdIs(id))
  }

  /** `SELECT ... FROM users WHERE email = ?` */
  function UserByEmail(users: seq<UserRow>, email: string): (u: Option<UserRow>)
    ensures u.Some? ==> u.value in users && u.value.email == email
    ensures u.None? ==> forall r :: r in users ==> r.email != email
  {
    FirstWhere(users, EmailIs(email))
  }

  /** The own-password change of an authenticated caller. */
  function ChangePassword(input: AuthInput, payload: Claims, users: seq<UserRow>, env: Env): Reply {
    var current := input.currentPassword.GetOr("");
    var next := input.newPassword.GetOr("");
    if next == "" || TooShort(next) then Error(BadRequest, "New password must be at least 6 characters")
    else
      var uid := ClaimInt(payload, "uid");
      match UserById(users, uid)
      case None => Error(Unauthorized, "Current password is incorrect")
      case Some(u) =>
        if !env.passwordVerify(current, u.passwordHash) then Error(Unauthorized, "Current password is incorrect")
        else PasswordSet(uid, env.passwordHash(next))
  }

  /** An administrator setting another user's password. */
  function SetPassword(input: AuthInput, payload: Claims, env: Env): Reply {
    if !ClaimsAdmin(payload) then Error(Forbidden, "Admin role required")
    else
      var target := if input.userId.None? then 0 else PhpIntval(input.userId.value);
      var next := input.newPassword.GetOr("");
      if target < 1 || next == "" || TooShort(next) then
        Error(BadRequest, "user_id and new_password (min 6 characters) required")
      else PasswordSet(target, env.passwordHash(next))
  }

  /** The claims of a login token: the user's id, name, email and role. */
  function UserClaims(u: UserRow): Claims {
    map["uid" := CInt(u.id),
        "name" := (if u.name.Some? then CText(u.name.value) else CNull),
        "email" := CText(u.email),
        "role" := (if u.role.Some? then CText(u.role.value) else CNull)]
  }

  /** Login with email and password. */
  function Login(input: AuthInput, users: seq<UserRow>, env: Env): Reply {
    var email := PhpTrim(input.email.GetOr(""));
    var password := input.password.GetOr("");
    if email == "" || password == "" then Error(BadRequest, "Missing credentials")
    else
      match UserByEmail(users, email)
      case None => Error(Unauthorized, "Invalid login")
      case Some(u) =>
        if !env.passwordVerify(password, u.passwordHash) then Error(Unauthorized, "Invalid login")
        else LoggedIn(SignToken(UserClaims(u), env.secret, env.now, env.crypto), u.id, u.name, u.role)
  }

  /** The payload of the request's bearer token, if it has a non-falsy one that verifies. */
  function CallerPayload(authorization: string, env: Env): Option<Claims> {
    match BearerToken(authorization)
    case None => None
    case Some(t) => if PhpFalsy(t) then None else VerifyToken(t, env.secret, env.now, env.crypto)
  }

  /** POST: the two password actions for a caller with a valid token, login otherwise. */
  function HandlePost(input: AuthInput, authorization: string, users: seq<UserRow>, env: Env): Reply {
    var payload := CallerPayload(authorization, env);
    var action := PhpTrim(input.action.GetOr(""));
    if action == "change_password" && payload.Some? then ChangePassword(input, payload.value, users, env)
    else if action == "set_password" && payload.Some? then SetPassword(input, payload.value, env)
    else Login(input, users, env)
  }

  /** GET: the payload of a valid bearer token. */
  function HandleGet(authorization: string, env: Env): Reply {
    if !StartsWith(authorization, "Bearer ") then Error(Unauthorized, "No token")
    else
      match VerifyToken(authorization[7..], env.secret, env.now, env.crypto)
      case None => Error(Unauthorized, "Invalid token")
      case Some(p) => Identity(p)
  }

  /** The whole endpoint; `authorization` is "" when the header is absent. */
  function Handle(verb: string, input: AuthInput, authorization: string, users: seq<UserRow>, env: Env): Reply {
    if verb == "POST" then HandlePost(input, authorization, users, env)
    else if verb == "GET" then HandleGet(authorization, env)
    else Error(MethodNotAllowed, "Method not allowed")
  }

  /** The users table after a `PasswordSet` reply. */
  function ApplyReply(users: seq<UserRow>, r: Reply): seq<UserRow> {
    if !r.PasswordSet? then users
    else
      seq(|users|, i requires 0 <= i < |users| =>
        if users[i].id == r.user then users[i].(passwordHash := r.hash) else users[i])
  }

  /** change_password: 400 exactly for a new password under six bytes, 401 exactly when
      the token's user is unknown or the current password does not match, and otherwise
      the new password's hash for the token's user. */
  lemma ChangePasswordOutcome(input: AuthInput, payload: Claims, users: seq<UserRow>, env: Env)
    ensures var r := ChangePassword(input, payload, users, env);
      var next := input.newPassword.GetOr("");
      var u := UserById(users, ClaimInt(payload, "uid"));
      (r.StatusCode() == BadRequest <==> TooShort(next)) &&
      (r.StatusCode() == Unauthorized <==>
        !TooShort(next) && (u.None? || !env.passwordVerify(input.currentPassword.GetOr(""), u.value.passwordHash))) &&
      (r.StatusCode() == Ok <==> r == PasswordSet(ClaimInt(payload, "uid"), env.passwordHash(next))) &&
      r.StatusCode() in {BadRequest, Unauthorized, Ok}
  {
    assert TooShort("");
  }

  /** After a successful change_password only the caller's row changes, and it gets
      the new hash. */
  lemma ChangePasswordUpdatesCaller(input: AuthInput, payload: Claims, users: seq<UserRow>, env: Env)
    requires ChangePassword(input, payload, users, env).PasswordSet?
    ensures var after := ApplyReply(users, ChangePassword(input, payload, users, env));
      var uid := ClaimInt(payload, "uid");
      |after| == |users| &&
      (exists i :: 0 <= i < |users| && users[i].id == uid) &&
      forall i :: 0 <= i < |users| ==>
        after[i] == (if users[i].id == uid then users[i].(passwordHash := env.passwordHash(input.newPassword.GetOr(""))) else users[i])
  {
    var uid := ClaimInt(payload, "uid");
    var u := UserById(users, uid);
    assert u.Some?;
    var i :| 0 <= i < |users| && users[i] == u.value;
  }

  /** set_password: 403 exactly for a token without the admin role, 400 for an admin
      naming no user id above 0 or a password under six bytes, otherwise the new hash
      for the named user, who is not looked up. */
  lemma SetPasswordOutcome(input: AuthInput, payload: Claims, env: Env)
    ensures var r := SetPassword(input, payload, env);
      var target := if input.userId.None? then 0 else PhpIntval(input.userId.value);
      var next := input.newPassword.GetOr("");
      (r.StatusCode() == Forbidden <==> !ClaimsAdmin(payload)) &&
      (r.StatusCode() == BadRequest <==> ClaimsAdmin(payload) && (target < 1 || TooShort(next))) &&
      (r.StatusCode() == Ok <==> r == PasswordSet(target, env.passwordHash(next)) && target >= 1) &&
      r.StatusCode() in {Forbidden, BadRequest, Ok}
  {
    assert TooShort("");
  }

  /** Login: 400 for a blank email or password, 401 when no user has that email or the
      password does not match, and otherwise a token for that user. */
  lemma LoginOutcome(input: AuthInput, users: seq<UserRow>, env: Env)
    ensures var r := Login(input, users, env);
      var email := PhpTrim(input.email.GetOr(""));
      var password := input.password.GetOr("");
      var u := UserByEmail(users, email);
      (r.StatusCode() == BadRequest <==> email == "" || password == "") &&
      (r.StatusCode() == Unauthorized <==>
        email != "" && password != "" && (u.None? || !env.passwordVerify(password, u.value.passwordHash))) &&
      (r.StatusCode() == Ok <==> r.LoggedIn?) &&
      (r.LoggedIn? ==>
         u.Some? && r.id == u.value.id &&
         r.token == SignToken(UserClaims(u.value), env.secret, env.now, env.crypto))
  {
  }

  /** The token a login returns identifies the user for the next twelve hours. */
  lemma LoginTokenVerifies(input: AuthInput, users: seq<UserRow>, env: Env, later: int)
    requires JsonFaithful(env.crypto)
    requires env.now >= 0 && later <= env.now + TokenLifetime
    requires Login(input, users, env).LoggedIn?
    ensures var r := Login(input, users, env);
      var u := UserByEmail(users, PhpTrim(input.email.GetOr(""))).value;
      VerifyToken(r.token, env.secret, later, env.crypto) == Some(Stamped(UserClaims(u), env.now)) &&
      u in users && u.email == PhpTrim(input.email.GetOr(""))
  {
    var u := UserByEmail(users, PhpTrim(input.email.GetOr(""))).value;
    SignThenVerify(UserClaims(u), env.secret, env.now, later, env.crypto);
  }

  /** Without a bearer token that verifies, every POST is a login attempt, whatever
      its action says. */
  lemma PostWithoutTokenIsLogin(input: AuthInput, authorization: string, users: seq<UserRow>, env: Env)
    requires CallerPayload(authorization, env).None?
    ensures Handle("POST", input, authorization, users, env) == Login(input, users, env)
  {
  }

  /** GET answers with a payload exactly when the header carries a bearer token that
      verifies, and then with that token's payload; otherwise 401. */
  lemma GetOutcome(authorization: string, env: Env)
    ensures var r := Handle("GET", AuthInput(None, None, None, None, None, None), authorization, [], env);
      var t := BearerToken(authorization);
      (r.Identity? <==> t.Some? && VerifyToken(t.value, env.secret, env.now, env.crypto).Some?) &&
      (r.Identity? ==> Some(r.payload) == VerifyToken(t.value, env.secret, env.now, env.crypto)) &&
      (!r.Identity? ==> r.StatusCode() == Unauthorized)
  {
  }

  /** Every method other than POST and GET gets 405. */
  lemma OtherMethodsRefused(verb: string, input: AuthInput, authorization: string, users: seq<UserRow>, env: Env)
    requires verb != "POST" && verb != "GET"
    ensures Handle(verb, input, authorization, users, env).StatusCode() == MethodNotAllowed
  {
  }
}
