/**
 * The user administration endpoint `api/users.php`: anyone signed in may list the
 * users; only an administrator may create one (POST) or change one (PATCH).
 *
 * The users table is a field of `UserDirectory`; `password_hash` is a parameter.
 */
module UsersApi {
  import opened Wrappers
  import opened Text
  import opened Seqs
  import opened Numbers
  import opened Sorting
  import opened ApiCommon

  /** The request body's fields: None when the key is absent, otherwise `(string)` of
      its value (null reads as ""). */
  datatype UserInput = UserInput(
    id: Option<string>,
    email: Option<string>,
    name: Option<string>,
    password: Option<string>,
    role: Option<string>)

  /** A row of the users table. */
  datatype Account = Account(id: int, email: string, name: string, passwordHash: string, role: string)

  /** What GET lists of a row: everything but the password hash. */
  datatype Listed = Listed(id: int, name: string, email: string, role: string)

  function Public(a: Account): Listed {
    Listed(a.id, a.name, a.email, a.role)
  }

  datatype Reply =
    | Error(status: Status, message: string)
    | Listing(items: seq<Listed>)
    | CreatedUser(id: int, email: string, name: string, role: string)
    | Updated
  {
    function StatusCode(): Status {
      match this
      case Error(s, _) => s
      case CreatedUser(_, _, _, _) => Created
      case _ => Ok
    }
  }

  /** The role check of both writes: "user" and "admin" are kept, anything else is
      stored as "user". */
  function ClampRole(role: string): (r: string)
    ensures r == "user" || r == "admin"
    ensures r == role <==> role == "user" || role == "admin"
  {
    if role == "user" || role == "admin" then role else "user"
  }

  /** `ORDER BY name`, as code-point order. */
  predicate ByName(a: Listed, b: Listed) { LexLe(a.name, b.name) }

  lemma ByNameOrders()
    ensures TotalPreorder(ByName)
  {
    forall a: Listed, b: Listed ensures ByName(a, b) || ByName(b, a) {
      LexLeTotal(a.name, b.name);
    }
    forall a: Listed, b: Listed, c: Listed | ByName(a, b) && ByName(b, c) ensures ByName(a, c) {
      LexLeTrans(a.name, b.name, c.name);
    }
  }

  // PATCH: the list of assignments.

  /** One assignment of an UPDATE. */
  datatype Field = SetName(name: string) | SetEmail(email: string) | SetRole(role: string)

  function Assignment(f: Field): string {
    match f
    case SetName(_) => "name = ?"
    case SetEmail(_) => "email = ?"
    case SetRole(_) => "role = ?"
  }

  function Value(f: Field): SqlParam {
    match f
    case SetName(v) => TextParam(v)
    case SetEmail(v) => TextParam(v)
    case SetRole(v) => TextParam(v)
  }

  /** The assignments a PATCH body asks for: name, email, role, in that order, each only
      when its key is present; names and emails trimmed, the role clamped. */
  function Fields(input: UserInput): (fs: seq<Field>)
    ensures fs == [] <==> input.name.None? && input.email.None? && input.role.None?
  {
    (if input.name.Some? then [SetName(PhpTrim(input.name.value))] else []) +
    (if input.email.Some? then [SetEmail(PhpTrim(input.email.value))] else []) +
    (if input.role.Some? then [SetRole(ClampRole(PhpTrim(input.role.value)))] else [])
  }

  /** A present email that is blank after trimming. */
  predicate BlankEmail(input: UserInput) {
    input.email.Some? && PhpTrim(input.email.value) == ""
  }

  /** Builds `$updates` and `$params` by appending, key by key; stops when the email is
      blank (the 400 reply). */
  method BuildUpdates(input: UserInput) returns (updates: seq<string>, params: seq<SqlParam>, blank: bool)
    ensures blank <==> BlankEmail(input)
    ensures !blank ==> updates == Map(Fields(input), Assignment) && params == Map(Fields(input), Value)
  {
    updates, params, blank := [], [], false;
    if input.name.Some? {
      updates := updates + ["name = ?"];
      params := params + [TextParam(PhpTrim(input.name.value))];
    }
    if input.email.Some? {
      var email := PhpTrim(input.email.value);
      if email == "" {
        blank := true;
        return;
      }
      updates := updates + ["email = ?"];
      params := params + [TextParam(email)];
    }
    if input.role.Some? {
      updates := updates + ["role = ?"];
      params := params + [TextParam(ClampRole(PhpTrim(input.role.value)))];
    }
  }

  /** The UPDATE statement over some assignments. */
  function UpdateStatement(updates: seq<string>): string {
    "UPDATE users SET " + Join(updates, ", ") + " WHERE id = ?"
  }

  /** The assignments hold one placeholder each. */
  lemma {:induction false} AssignmentsPlaceholders(fs: seq<Field>)
    ensures Placeholders(Join(Map(fs, Assignment), ", ")) == |fs|
  {
    if fs != [] {
      var parts := Map(fs, Assignment);
      FieldPlaceholder(fs[0]);
      if |fs| > 1 {
        assert parts[1..] == Map(fs[1..], Assignment);
        AssignmentsPlaceholders(fs[1..]);
        PlaceholdersAppend(parts[0] + ", ", Join(parts[1..], ", "));
        PlaceholdersAppend(parts[0], ", ");
        PlaceholdersNone(", ");
      }
    }
  }

  lemma FieldPlaceholder(f: Field)
    ensures Placeholders(Assignment(f)) == 1
  {
    match f
    case SetName(_) => { EndsInPlaceholder("name = "); assert "name = " + "?" == "name = ?"; }
    case SetEmail(_) => { EndsInPlaceholder("email = "); assert "email = " + "?" == "email = ?"; }
    case SetRole(_) => { EndsInPlaceholder("role = "); assert "role = " + "?" == "role = ?"; }
  }

  /** The statement's placeholders match its parameters: the values in order, then the
      id. */
  lemma UpdatePlaceholders(input: UserInput, id: int)
    ensures var fs := Fields(input);
      Placeholders(UpdateStatement(Map(fs, Assignment))) == |Map(fs, Value) + [IntParam(id)]|
  {
    var fs := Fields(input);
    AssignmentsPlaceholders(fs);
    StatementPlaceholders(Join(Map(fs, Assignment), ", "));
  }

  /** The statement adds one placeholder, the id's, to those of its assignments. */
  lemma StatementPlaceholders(body: string)
    ensures Placeholders("UPDATE users SET " + body + " WHERE id = ?") == Placeholders(body) + 1
  {
    PlaceholdersAppend("UPDATE users SET " + body, " WHERE id = ?");
    PlaceholdersAppend("UPDATE users SET ", body);
    PlaceholdersNone("UPDATE users SET ");
    EndsInPlaceholder(" WHERE id = ");
    assert " WHERE id = " + "?" == " WHERE id = ?";
  }

  /** A row after the assignments; its id and password hash are never assigned. */
  function Assign(a: Account, fs: seq<Field>): (b: Account)
    ensures b.id == a.id && b.passwordHash == a.passwordHash
    decreases |fs|
  {
    if fs == [] then a
    else
      var b := match fs[0]
        case SetName(v) => a.(name := v)
        case SetEmail(v) => a.(email := v)
        case SetRole(v) => a.(role := v);
      Assign(b, fs[1..])
  }

  /** PATCH changes only the keys present: each present key gets its new value, every
      other column keeps its old one. */
  lemma AssignOnlyPresent(a: Account, input: UserInput)
    ensures var b := Assign(a, Fields(input));
      b.id == a.id && b.passwordHash == a.passwordHash &&
      b.name == (if input.name.Some? then PhpTrim(input.name.value) else a.name) &&
      b.email == (if input.email.Some? then PhpTrim(input.email.value) else a.email) &&
      b.role == (if input.role.Some? then ClampRole(PhpTrim(input.role.value)) else a.role)
  {
    var n: seq<Field> := if input.name.Some? then [SetName(PhpTrim(input.name.value))] else [];
    var e: seq<Field> := if input.email.Some? then [SetEmail(PhpTrim(input.email.value))] else [];
    var r: seq<Field> := if input.role.Some? then [SetRole(ClampRole(PhpTrim(input.role.value)))] else [];
    AssignConcat(a, n, e + r);
    AssignConcat(Assign(a, n), e, r);
    assert n + e + r == n + (e + r);
  }

  lemma {:induction false} AssignConcat(a: Account, fs: seq<Field>, gs: seq<Field>)
    ensures Assign(a, fs + gs) == Assign(Assign(a, fs), gs)
    decreases |fs|
  {
    if fs == [] {
      assert fs + gs == gs;
    } else {
      assert (fs + gs)[0] == fs[0];
      assert (fs + gs)[1..] == fs[1..] + gs;
      var b := match fs[0]
        case SetName(v) => a.(name := v)
        case SetEmail(v) => a.(email := v)
        case SetRole(v) => a.(role := v);
      AssignConcat(b, fs[1..], gs);
    }
  }

  /** The rows after `UPDATE ... WHERE id = ?`. */
  function AssignWhere(accounts: seq<Account>, id: int, fs: seq<Field>): (after: seq<Account>)
    ensures |after| == |accounts|
    ensures forall i :: 0 <= i < |accounts| ==>
      after[i] == (if accounts[i].id == id then Assign(accounts[i], fs) else accounts[i])
  {
    seq(|accounts|, i requires 0 <= i < |accounts| =>
      if accounts[i].id == id then Assign(accounts[i], fs) else accounts[i])
  }

  /** Some row has this email. */
  predicate EmailTaken(accounts: seq<Account>, email: string) {
    exists i :: 0 <= i < |accounts| && accounts[i].email == email
  }

  /** Every id in the table is positive and below the next id to hand out. */
  predicate IdsBelow(accounts: seq<Account>, next: int) {
    forall i :: 0 <= i < |accounts| ==> 1 <= accounts[i].id < next
  }

  lemma IdsBelowAppend(accounts: seq<Account>, a: Account, next: int)
    requires IdsBelow(accounts, next) && 1 <= a.id == next
    ensures IdsBelow(accounts + [a], next + 1)
  {
  }

  /** The users table. Ids are handed out by an increasing counter (`lastInsertId`). */
  class UserDirectory {
    var accounts: seq<Account>
    var nextId: int

    ghost predicate Valid()
      reads this
    {
      nextId >= 1 && IdsBelow(accounts, nextId)
    }

    constructor()
      ensures Valid() && accounts == [] && nextId == 1
    {
      accounts := [];
      nextId := 1;
    }

    /** GET: every row without its hash, ordered by name; open to every caller. */
    method List() returns (r: Reply)
      ensures r.Listing? && |r.items| == |accounts|
      ensures multiset(r.items) == multiset(Map(accounts, Public))
      ensures SortedBy(r.items, ByName)
    {
      ByNameOrders();
      var items := SortedCopy(Map(accounts, Public), ByName);
      r := Listing(items);
    }

    /** What a POST by an administrator does: 400 without an email or a password of six
        characters, 400 for a taken email, otherwise one account more under the next id. */
    twostate predicate CreateEffect(input: UserInput, hashOf: string -> string, r: Reply)
      reads this
    {
      var email := PhpTrim(input.email.GetOr(""));
      var name := PhpTrim(input.name.GetOr(""));
      var password := input.password.GetOr("");
      var stored := if PhpFalsy(name) then email else name;
      var role := ClampRole(PhpTrim(input.role.GetOr("user")));
      if email == "" || password == "" || TooShort(password) then
        r == Error(BadRequest, "Email and password (min 6 characters) required") && unchanged(this)
      else if EmailTaken(old(accounts), email) then
        r == Error(BadRequest, "User with this email already exists") && unchanged(this)
      else
        && r == CreatedUser(old(nextId), email, stored, role)
        && accounts == old(accounts) + [Account(old(nextId), email, stored, hashOf(password), role)]
        && nextId == old(nextId) + 1
    }

    /** POST by an administrator. */
    method Create(input: UserInput, hashOf: string -> string) returns (r: Reply)
      requires Valid()
      modifies this
      ensures Valid() && CreateEffect(input, hashOf, r)
    {
      var email := PhpTrim(input.email.GetOr(""));
      var name := PhpTrim(input.name.GetOr(""));
      var password := input.password.GetOr("");
      var role := PhpTrim(input.role.GetOr("user"));
      if email == "" || password == "" || TooShort(password) {
        return Error(BadRequest, "Email and password (min 6 characters) required");
      }
      role := ClampRole(role);
      var taken := HasEmail(email);
      if taken {
        return Error(BadRequest, "User with this email already exists");
      }
      var stored := if PhpFalsy(name) then email else name;
      var added := Account(nextId, email, stored, hashOf(password), role);
      r := CreatedUser(nextId, email, stored, role);
      IdsBelowAppend(accounts, added, nextId);
      accounts := accounts + [added];
      nextId := nextId + 1;
    }

    /** `SELECT id FROM users WHERE email = ?`: whether a row already has this email. */
    method HasEmail(email: string) returns (taken: bool)
      ensures taken <==> EmailTaken(accounts, email)
    {
      var i := 0;
      while i < |accounts|
        invariant 0 <= i <= |accounts|
        invariant forall k :: 0 <= k < i ==> accounts[k].email != email
      {
        if accounts[i].email == email {
          return true;
        }
        i := i + 1;
      }
      return false;
    }

    /** What a PATCH by an administrator does: 400 without a positive id, for a blank
        email or with nothing to update; otherwise the given fields are assigned to the
        account with that id. */
    twostate predicate UpdateEffect(input: UserInput, r: Reply)
      reads this
    {
      var id := PhpIntval(input.id.GetOr("0"));
      && nextId == old(nextId)
      && if id < 1 then r == Error(BadRequest, "User id required") && unchanged(this)
         else if BlankEmail(input) then r == Error(BadRequest, "Email cannot be empty") && unchanged(this)
         else if Fields(input) == [] then r == Error(BadRequest, "Nothing to update") && unchanged(this)
         else r == Updated && accounts == AssignWhere(old(accounts), id, Fields(input))
    }

    /** PATCH by an administrator. */
    method Update(input: UserInput) returns (r: Reply)
      requires Valid()
      modifies this
      ensures Valid() && UpdateEffect(input, r)
    {
      var id := PhpIntval(input.id.GetOr("0"));
      if id < 1 {
        return Error(BadRequest, "User id required");
      }
      var updates, params, blank := BuildUpdates(input);
      if blank {
        return Error(BadRequest, "Email cannot be empty");
      }
      if |updates| == 0 {
        return Error(BadRequest, "Nothing to update");
      }
      params := params + [IntParam(id)];
      UpdatePlaceholders(input, id);
      assert Placeholders(UpdateStatement(updates)) == |params|;
      accounts := AssignWhere(accounts, id, Fields(input));
      r := Updated;
    }

    /** The endpoint: GET for every caller, POST and PATCH for administrators only (403
      for anyone else), 405 for any other method. */
    method Handle(caller: Caller, verb: string, input: UserInput, hashOf: string -> string) returns (r: Reply)
      requires Valid()
      modifies this
      ensures Valid()
      ensures verb == "GET" ==>
        && r.Listing? && unchanged(this)
        && multiset(r.items) == multiset(Map(accounts, Public)) && SortedBy(r.items, ByName)
      ensures verb == "POST" && IsAdmin(caller) ==> CreateEffect(input, hashOf, r)
      ensures verb == "PATCH" && IsAdmin(caller) ==> UpdateEffect(input, r)
      ensures (verb == "POST" || verb == "PATCH") && !IsAdmin(caller) ==>
        r == Error(Forbidden, "Admin role required") && unchanged(this)
      ensures verb != "GET" && verb != "POST" && verb != "PATCH" ==>
        r == Error(MethodNotAllowed, "Method not allowed") && unchanged(this)
      ensures verb == "PATCH" ==> |accounts| == |old(accounts)| && nextId == old(nextId)
    {
      if verb == "GET" {
        r := List();
      } else if verb == "POST" && IsAdmin(caller) {
        r := Create(input, hashOf);
      } else if verb == "PATCH" && IsAdmin(caller) {
        r := Update(input);
      } else if verb == "POST" || verb == "PATCH" {
        r := Error(Forbidden, "Admin role required");
      } else {
        r := Error(MethodNotAllowed, "Method not allowed");
      }
    }
  }

  /** A created user is the only row with its email: if the emails were distinct before
      a POST, they still are after it. */
  lemma CreateKeepsEmailsDistinct(before: seq<Account>, a: Account)
    requires forall i, j :: 0 <= i < j < |before| ==> before[i].email != before[j].email
    requires !EmailTaken(before, a.email)
    ensures var after := before + [a];
      forall i, j :: 0 <= i < j < |after| ==> after[i].email != after[j].email
  {
  }
}
