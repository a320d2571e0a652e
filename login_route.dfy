/** The admin login endpoint: look the user up by name, compare the
    password with the stored hash, and sign a one-hour token. The hash
    comparison and the token signer are parameters. */
module LoginRoute {
  import opened Common
  import opened Store
  import opened UsersRoute
  import opened Seed
  import opened Json

  const InvalidMessage: string := "Invalid username or password"
  const ServerErrorMessage: string := "Server error"
  const Secret: string := "tatsbytats"
  /** `expiresIn: '1h'`, in seconds. */
  const ExpiresIn: nat := 3600

  /** The token's payload. */
  datatype Claims = Claims(userId: Id, username: string)

  datatype LoginReply = LoggedIn(token: string) | Invalid | ServerError

  function StatusOf(r: LoginReply): (code: nat)
    ensures code == 200 <==> r.LoggedIn?
  {
    match r
    case LoggedIn(_) => 200
    case Invalid => 400
    case ServerError => 500
  }

  /** `success` in the reply body. */
  function Success(r: LoginReply): (ok: bool)
    ensures ok <==> r.LoggedIn?
  {
    r.LoggedIn?
  }

  /** The user found by `findOne(filter)` for a username condition, with
      the password compared once one is found: a password that is not text
      makes the comparison throw. The token names the stored user. Both
      logins below are this lookup, over different conditions. */
  function LoginWith(users: Table<User>, c: Condition, b: Body, holds: (map<string, Value>, string) -> bool,
                     compare: (string, string) -> bool, sign: (Claims, string, nat) -> string,
                     lookupFails: bool): (r: LoginReply)
    requires users.Valid()
    ensures r.LoggedIn? ==>
      && !lookupFails && TextField(b, "password").Some?
      && exists id :: id in users.docs && Satisfies(c, users.docs[id].username, holds)
           && compare(TextField(b, "password").value, users.docs[id].password)
           && r.token == sign(Claims(id, users.docs[id].username), Secret, ExpiresIn)
    ensures !lookupFails && !c.Refused? && (forall id :: id in users.docs ==> !Satisfies(c, users.docs[id].username, holds)) ==>
      r == Invalid
    ensures lookupFails || c.Refused? ==> r == ServerError
  {
    if lookupFails || c.Refused? then ServerError
    else
      var found := FindOne(users, (u: User) => Satisfies(c, u.username, holds));
      if found.None? then Invalid
      else if TextField(b, "password").None? then ServerError
      else if !compare(TextField(b, "password").value, users.docs[found.value].password) then Invalid
      else LoggedIn(sign(Claims(found.value, users.docs[found.value].username), Secret, ExpiresIn))
  }

  /** POST /login, as written: `findOne({ username })` puts the sent value
      itself into the filter, so an object with a `$` key is a query
      operator the database evaluates (`holds`). A body without a username,
      or with `null`, finds nobody; an object without a `$` key makes the
      cast throw. `lookupFails` is a store fault. A token is signed with the
      secret for one hour and names a stored user that satisfies that
      condition and whose hash matches; for a scalar username, a user of that
      name. An unknown name and a wrong password get the same reply. */
  function Login(users: Table<User>, b: Body, holds: (map<string, Value>, string) -> bool,
                 compare: (string, string) -> bool, sign: (Claims, string, nat) -> string,
                 lookupFails: bool): (r: LoginReply)
    requires users.Valid()
    ensures var c := ConditionOf(Field(b, "username"));
      r.LoggedIn? ==>
        && !lookupFails && TextField(b, "password").Some?
        && exists id :: id in users.docs && Satisfies(c, users.docs[id].username, holds)
             && (c.Equals? ==> users.docs[id].username == ToStr(Field(b, "username")))
             && compare(TextField(b, "password").value, users.docs[id].password)
             && r.token == sign(Claims(id, users.docs[id].username), Secret, ExpiresIn)
    ensures var c := ConditionOf(Field(b, "username"));
      !lookupFails && c.Equals? && (forall id :: id in users.docs ==> users.docs[id].username != ToStr(Field(b, "username"))) ==>
        r == Invalid
    ensures r == Invalid ==> !lookupFails
  {
    LoginWith(users, ConditionOf(Field(b, "username")), b, holds, compare, sign, lookupFails)
  }

  /** The login as evidently intended: only a scalar username, read as
      text, looks anybody up; `null`, a missing name and any object find
      nobody. It sends a token only for a stored user whose name is that
      text, and none when nobody has it. */
  function LoginStrict(users: Table<User>, b: Body, compare: (string, string) -> bool,
                       sign: (Claims, string, nat) -> string, lookupFails: bool): (r: LoginReply)
    requires users.Valid()
    ensures r.LoggedIn? ==>
      && !lookupFails && TextField(b, "password").Some?
      && "username" in b && !b["username"].Group? && b["username"] != Num(None)
      && exists id :: id in users.docs && users.docs[id].username == ToStr(Field(b, "username"))
           && compare(TextField(b, "password").value, users.docs[id].password)
           && r.token == sign(Claims(id, users.docs[id].username), Secret, ExpiresIn)
    ensures !lookupFails && (forall id :: id in users.docs ==> users.docs[id].username != ToStr(Field(b, "username"))) ==>
      r == Invalid
  {
    var c := ConditionOf(Field(b, "username"));
    LoginWith(users, if c.Equals? then c else Nothing, b, NeverHolds, compare, sign, lookupFails)
  }

  /** No operator object is ever evaluated by the intended login. */
  predicate NeverHolds(ops: map<string, Value>, stored: string) {
    false
  }

  /** For a scalar username the two logins agree, whatever the database
      does with operators. */
  lemma LoginStrictAgrees(users: Table<User>, b: Body, holds: (map<string, Value>, string) -> bool,
                          compare: (string, string) -> bool, sign: (Claims, string, nat) -> string, lookupFails: bool)
    requires users.Valid()
    requires ConditionOf(Field(b, "username")).Equals?
    ensures Login(users, b, holds, compare, sign, lookupFails) == LoginStrict(users, b, compare, sign, lookupFails)
  {
    var c := ConditionOf(Field(b, "username"));
    if !lookupFails {
      FindOneAgrees(users, (u: User) => Satisfies(c, u.username, holds), (u: User) => Satisfies(c, u.username, NeverHolds));
    }
  }

  /** The route as written gives a token for the first stored user to
      whoever knows that user's password, without knowing any name:
      `{"$ne": null}` holds of every stored name. */
  lemma OperatorNameLogsIn(users: Table<User>, password: string, holds: (map<string, Value>, string) -> bool,
                           compare: (string, string) -> bool, sign: (Claims, string, nat) -> string)
    requires users.Valid() && users.order != []
    requires forall stored :: holds(map["$ne" := Num(None)], stored)
    requires compare(password, users.docs[users.order[0]].password)
    ensures var b := map["username" := Group(map["$ne" := Num(None)]), "password" := Text(password)];
      var first := users.order[0];
      && Login(users, b, holds, compare, sign, false) == LoggedIn(sign(Claims(first, users.docs[first].username), Secret, ExpiresIn))
      && LoginStrict(users, b, compare, sign, false) == Invalid
  {
    var b := map["username" := Group(map["$ne" := Num(None)]), "password" := Text(password)];
    assert IsOperator("$ne");
    assert ConditionOf(Field(b, "username")) == Operators(map["$ne" := Num(None)]);
  }

  /** A body with a text name and password. */
  function Credentials(username: string, password: string): (b: Body)
    ensures ConditionOf(Field(b, "username")) == Equals(username)
    ensures TextField(b, "password") == Some(password)
  {
    map["username" := Text(username), "password" := Text(password)]
  }

  /** With unique usernames, the user found is the only one that can log
      in, and a matching password always does, on both logins. */
  lemma LoginUnique(users: Table<User>, id: Id, password: string, holds: (map<string, Value>, string) -> bool,
                    compare: (string, string) -> bool, sign: (Claims, string, nat) -> string)
    requires users.Valid() && UniqueNames(users) && id in users.docs
    ensures var u := users.docs[id];
      var b := Credentials(u.username, password);
      var expected := if compare(password, u.password) then LoggedIn(sign(Claims(id, u.username), Secret, ExpiresIn)) else Invalid;
      LoginStrict(users, b, compare, sign, false) == expected && Login(users, b, holds, compare, sign, false) == expected
  {
    var u := users.docs[id];
    var b := Credentials(u.username, password);
    var found := FindOne(users, (v: User) => Satisfies(Equals(u.username), v.username, NeverHolds));
    assert found.Some? by {
      assert Satisfies(Equals(u.username), users.docs[id].username, NeverHolds);
    }
    LoginStrictAgrees(users, b, holds, compare, sign, false);
  }

  /** A freshly seeded store lets each admin in with its own password, when
      the comparison accepts a password against its own hash, and lets
      nobody in with another admin's password when it accepts only that. */
  lemma SeededAdminLogsIn(k: nat, j: nat, hash: string -> string, holds: (map<string, Value>, string) -> bool,
                          compare: (string, string) -> bool, sign: (Claims, string, nat) -> string)
    requires k < 3 && j < 3
    requires forall p, q :: compare(p, hash(q)) <==> p == q
    ensures var b := Credentials(Admins[k].username, Admins[j].password);
      var expected := if j == k then LoggedIn(sign(Claims(k, Admins[k].username), Secret, ExpiresIn)) else Invalid;
      LoginStrict(FreshAdmins(hash), b, compare, sign, false) == expected
        && Login(FreshAdmins(hash), b, holds, compare, sign, false) == expected
  {
    var users := FreshAdmins(hash);
    FreshAdminsUnique(hash);
    LoginUnique(users, k, Admins[j].password, holds, compare, sign);
    AdminPasswordsDistinct(j, k);
    assert users.docs[k] == Seeded(Admins[k], hash);
  }
}
