/** The adopter registration service: the request-body validation chain,
    the register handler that refuses a known email and stores a salted
    hash, and the email login. Bodies are JSON objects; `isEmail` and
    `isDate` (the validator library's checks), the salted hash and its
    comparison are parameters. */
module Registration {
  import opened Common
  import opened Text
  import opened Store
  import opened Json

  /** The password when it is text, the only kind bcrypt accepts. */
  function PasswordText(b: Body): (p: Option<string>)
    ensures p.Some? <==> "password" in b && b["password"].Text?
    ensures p.Some? ==> b["password"] == Text(p.value)
  {
    if "password" in b && b["password"].Text? then Some(b["password"].s) else None
  }

  /** A nested path such as `householdMembers.adults`. */
  function Nested(b: Body, parent: string, child: string): Option<Value> {
    if parent in b && b[parent].Group? && child in b[parent].fields then Some(b[parent].fields[child]) else None
  }

  /** An optional text path as stored: absent when missing or `null`. */
  function OptionalText(v: Option<Value>): (r: Option<string>)
    ensures r.Some? <==> v.Some? && v.value != Num(None)
  {
    if v.None? || v.value == Num(None) then None else Some(ToStr(v))
  }

  const PathNames: seq<string> := [
    "firstName", "lastName", "email", "phone", "address", "password", "dateOfBirth",
    "residenceType", "housingStatus", "householdMembers.adults", "householdMembers.children",
    "petExperience", "petType"]

  const ValidationFailedMessage: string := "Validation failed"
  const EmailTakenMessage: string := "Email already registered"
  const RegisterErrorMessage: string := "Server error during registration"
  const RegisteredMessage: string := "Registration successful"
  const InvalidLoginMessage: string := "Invalid email or password"
  const LoginErrorMessage: string := "Server error during login"
  const LoggedInMessage: string := "Login successful"
  const MinPasswordLength: nat := 6

  function Fails(ok: bool, message: string): (r: Option<string>)
    ensures r.None? <==> ok
    ensures r.Some? ==> r.value == message
  {
    if ok then None else Some(message)
  }

  /** `isInt({ min })`: an optional sign and decimal digits, at least `min`. */
  predicate IntAtLeast(v: Option<Value>, min: int) {
    StrictInt(ToStr(v)).Some? && StrictInt(ToStr(v)).value >= min
  }

  /** The outcome of each validator of `validateRegistration`, in order. */
  function Outcomes(b: Body, isEmail: string -> bool, isDate: string -> bool): (r: seq<Option<string>>)
    ensures |r| == 13
  {
    [Fails(!AllSpace(ToStr(Field(b, "firstName"))), "First name is required"),
     Fails(!AllSpace(ToStr(Field(b, "lastName"))), "Last name is required"),
     Fails(isEmail(ToStr(Field(b, "email"))), "Please provide a valid email"),
     Fails(ToStr(Field(b, "phone")) != "", "Phone number is required"),
     Fails(ToStr(Field(b, "address")) != "", "Address is required"),
     Fails(|ToStr(Field(b, "password"))| >= MinPasswordLength, "Password must be at least 6 characters"),
     Fails(isDate(ToStr(Field(b, "dateOfBirth"))), "Valid date of birth is required"),
     Fails(ToStr(Field(b, "residenceType")) != "", "Residence type is required"),
     Fails(ToStr(Field(b, "housingStatus")) != "", "Housing status is required"),
     Fails(IntAtLeast(Nested(b, "householdMembers", "adults"), 1), "At least one adult is required"),
     Fails(IntAtLeast(Nested(b, "householdMembers", "children"), 0), "Number of children must be valid"),
     Fails(ToStr(Field(b, "petExperience")) != "", "Pet experience information is required"),
     Fails(ToStr(Field(b, "petType")) != "", "Pet type preference is required")]
  }

  lemma PathNamesDistinct()
    ensures forall i, j :: 0 <= i < j < |PathNames| ==> PathNames[i] != PathNames[j]
  {
  }

  /** `validationResult(req).array()`: one error per failing validator, in
      the chain's order. */
  function Validate(b: Body, isEmail: string -> bool, isDate: string -> bool): (errs: seq<FieldError>)
    ensures OnePerPath(errs)
  {
    var checks := Zip(PathNames, Outcomes(b, isEmail, isDate));
    PathNamesDistinct();
    DistinctByNames(checks, PathNames);
    CollectOnePerPath(checks);
    Collect(checks)
  }

  lemma Reported(b: Body, isEmail: string -> bool, isDate: string -> bool, k: nat)
    requires k < 13
    ensures MessageFor(Validate(b, isEmail, isDate), PathNames[k]) == Outcomes(b, isEmail, isDate)[k]
  {
    var checks := Zip(PathNames, Outcomes(b, isEmail, isDate));
    PathNamesDistinct();
    DistinctByNames(checks, PathNames);
    CollectMessage(checks, k);
  }

  /** Every rule holds: names that are not blank (see
      `BlankIsEmptyAfterTrim`), a valid email, the other text paths
      non-empty, a password of at least six characters, a valid birth date,
      at least one adult and a non-negative number of children. */
  predicate AllRulesHold(b: Body, isEmail: string -> bool, isDate: string -> bool) {
    && !AllSpace(ToStr(Field(b, "firstName"))) && !AllSpace(ToStr(Field(b, "lastName")))
    && isEmail(ToStr(Field(b, "email")))
    && ToStr(Field(b, "phone")) != "" && ToStr(Field(b, "address")) != ""
    && |ToStr(Field(b, "password"))| >= MinPasswordLength
    && isDate(ToStr(Field(b, "dateOfBirth")))
    && ToStr(Field(b, "residenceType")) != "" && ToStr(Field(b, "housingStatus")) != ""
    && IntAtLeast(Nested(b, "householdMembers", "adults"), 1)
    && IntAtLeast(Nested(b, "householdMembers", "children"), 0)
    && ToStr(Field(b, "petExperience")) != "" && ToStr(Field(b, "petType")) != ""
  }

  lemma OutcomesPass(b: Body, isEmail: string -> bool, isDate: string -> bool)
    ensures (forall k :: 0 <= k < 13 ==> Outcomes(b, isEmail, isDate)[k].None?) <==> AllRulesHold(b, isEmail, isDate)
  {
    var o := Outcomes(b, isEmail, isDate);
    if AllRulesHold(b, isEmail, isDate) {
      forall k | 0 <= k < 13 ensures o[k].None? {
      }
    } else {
      assert !(o[0].None? && o[1].None? && o[2].None? && o[3].None? && o[4].None? && o[5].None? && o[6].None?
               && o[7].None? && o[8].None? && o[9].None? && o[10].None? && o[11].None? && o[12].None?);
    }
  }

  /** The body passes the chain exactly when every rule holds. */
  lemma ValidationRules(b: Body, isEmail: string -> bool, isDate: string -> bool)
    ensures Validate(b, isEmail, isDate) == [] <==> AllRulesHold(b, isEmail, isDate)
  {
    var checks := Zip(PathNames, Outcomes(b, isEmail, isDate));
    CollectEmpty(checks);
    OutcomesPass(b, isEmail, isDate);
  }

  /** A name is blank exactly when the chain's `trim()` leaves it empty. */
  lemma BlankIsEmptyAfterTrim(s: string)
    ensures AllSpace(s) <==> Trim(s) == ""
  {
    TrimEmptyIff(s);
  }

  /** A missing path is reported with its own message, and only once. */
  lemma MissingNameReported(b: Body, isEmail: string -> bool, isDate: string -> bool)
    requires "firstName" !in b
    ensures MessageFor(Validate(b, isEmail, isDate), "firstName") == Some("First name is required")
  {
    Reported(b, isEmail, isDate, 0);
  }

  /** A `null` adult count (a cleared number input) is refused. */
  lemma NullAdultsRefused(b: Body, isEmail: string -> bool, isDate: string -> bool)
    requires Nested(b, "householdMembers", "adults") == Some(Num(None))
    ensures MessageFor(Validate(b, isEmail, isDate), PathNames[9]) == Some("At least one adult is required")
  {
    assert !IntAtLeast(Some(Num(None)), 1);
    Reported(b, isEmail, isDate, 9);
  }

  /** A stored adopter. */
  datatype Member = Member(
    firstName: string,
    lastName: string,
    email: string,
    phone: string,
    address: string,
    password: string,
    dateOfBirth: string,
    residenceType: string,
    housingStatus: string,
    adults: int,
    children: int,
    otherPets: Option<string>,
    petExperience: string,
    petType: string,
    preferredAge: Option<string>,
    preferredSize: Option<string>,
    preferredBreed: Option<string>,
    veterinarianInfo: Option<string>,
    subscribeNewsletter: Option<bool>,
    createdAt: int,
    updatedAt: int)

  /** A member as the replies show it: no password, no other details. */
  datatype MemberView = MemberView(id: Id, firstName: string, lastName: string, email: string)

  function ViewOf(id: Id, m: Member): (v: MemberView)
    ensures v.id == id && v.firstName == m.firstName && v.lastName == m.lastName && v.email == m.email
  {
    MemberView(id, m.firstName, m.lastName, m.email)
  }

  /** A household count as stored: the number `isInt` accepted (any other
      value never gets past validation). */
  function Count(v: Option<Value>): (n: int)
    ensures IntAtLeast(v, 0) ==> n == StrictInt(ToStr(v)).value
  {
    var parsed := StrictInt(ToStr(v));
    if parsed.Some? then parsed.value else 0
  }

  /** The document built from a validated body: the names as trimmed by the
      chain, the numbers as parsed, the hash in place of the password, and
      the newsletter flag as the Boolean cast stores it (`null` as `None`).
      A flag the cast refuses leaves a document the save rejects; `Register`
      never stores one. */
  function NewMember(b: Body, hashed: string, now: int): (m: Member)
    ensures m.firstName == Trim(ToStr(Field(b, "firstName"))) && m.lastName == Trim(ToStr(Field(b, "lastName")))
    ensures m.email == ToStr(Field(b, "email")) && m.password == hashed
    ensures m.createdAt == now && m.updatedAt == now
    ensures m.subscribeNewsletter == Newsletter(b)
  {
    var adults := Count(Nested(b, "householdMembers", "adults"));
    var children := Count(Nested(b, "householdMembers", "children"));
    Member(
      Trim(ToStr(Field(b, "firstName"))), Trim(ToStr(Field(b, "lastName"))), ToStr(Field(b, "email")),
      ToStr(Field(b, "phone")), ToStr(Field(b, "address")), hashed, ToStr(Field(b, "dateOfBirth")),
      ToStr(Field(b, "residenceType")), ToStr(Field(b, "housingStatus")),
      adults, children,
      OptionalText(Nested(b, "householdMembers", "otherPets")),
      ToStr(Field(b, "petExperience")), ToStr(Field(b, "petType")),
      OptionalText(Field(b, "preferredAge")), OptionalText(Field(b, "preferredSize")),
      OptionalText(Field(b, "preferredBreed")), OptionalText(Field(b, "veterinarianInfo")),
      Newsletter(b), now, now)
  }

  /** The newsletter flag the document holds: `None` for `null`. */
  function Newsletter(b: Body): (r: Option<bool>)
    ensures BooleanCast(Field(b, "subscribeNewsletter")).Cast? ==> r == Some(BooleanCast(Field(b, "subscribeNewsletter")).value)
    ensures BooleanCast(Field(b, "subscribeNewsletter")).CastNull? ==> r == None
  {
    Stored(BooleanCast(Field(b, "subscribeNewsletter")))
  }

  /** The flag a cast leaves in the document. */
  function Stored(c: BoolCast): (r: Option<bool>)
    ensures c.Cast? ==> r == Some(c.value)
    ensures c.CastNull? ==> r == None
  {
    if c.Cast? then Some(c.value) else None
  }


  /** What validation guarantees of the stored document: non-blank names,
      at least one adult and no negative number of children. */
  lemma ValidatedMemberShape(b: Body, isEmail: string -> bool, isDate: string -> bool, hashed: string, now: int)
    requires Validate(b, isEmail, isDate) == []
    ensures var m := NewMember(b, hashed, now);
      && m.firstName != "" && m.lastName != "" && m.phone != "" && m.address != ""
      && m.adults >= 1 && m.children >= 0
  {
    ValidationRules(b, isEmail, isDate);
    BlankIsEmptyAfterTrim(ToStr(Field(b, "firstName")));
    BlankIsEmptyAfterTrim(ToStr(Field(b, "lastName")));
  }

  predicate HasEmail(email: string, m: Member) {
    m.email == email
  }

  /** No two members share an email (the schema's unique index). */
  ghost predicate UniqueEmails(t: Table<Member>) {
    forall a, b :: a in t.docs && b in t.docs && t.docs[a].email == t.docs[b].email ==> a == b
  }

  /** Inserting a member whose email nobody has keeps emails unique. */
  lemma InsertKeepsUnique(t: Table<Member>, m: Member)
    requires t.Valid() && UniqueEmails(t)
    requires forall id :: id in t.docs ==> t.docs[id].email != m.email
    ensures UniqueEmails(Insert(t, m).0)
  {
  }

  datatype RegisterReply =
    | Registered(user: MemberView)
    | ValidationFailed(errors: seq<FieldError>)
    | EmailTaken
    | RegisterError

  function RegisterStatus(r: RegisterReply): nat {
    match r
    case Registered(_) => 201
    case ValidationFailed(_) => 400
    case EmailTaken => 400
    case RegisterError => 500
  }

  datatype SignInReply = SignedIn(user: MemberView) | BadCredentials | SignInError

  /** The member found by `findOne(filter)` for an email condition, with the
      password compared once one is found: a password that is not text
      makes the comparison throw. Both logins below are this lookup, over
      different conditions. */
  function SignInWith(members: Table<Member>, c: Condition, b: Body, holds: (map<string, Value>, string) -> bool,
                      compare: (string, string) -> bool, lookupFails: bool): (r: SignInReply)
    requires members.Valid()
    ensures r.SignedIn? ==>
      && !lookupFails && PasswordText(b).Some?
      && r.user.id in members.docs
      && r.user == ViewOf(r.user.id, members.docs[r.user.id])
      && Satisfies(c, members.docs[r.user.id].email, holds)
      && compare(PasswordText(b).value, members.docs[r.user.id].password)
    ensures !lookupFails && !c.Refused? && (forall id :: id in members.docs ==> !Satisfies(c, members.docs[id].email, holds)) ==>
      r == BadCredentials
    ensures lookupFails || c.Refused? ==> r == SignInError
  {
    if lookupFails || c.Refused? then SignInError
    else
      var found := FindOne(members, (m: Member) => Satisfies(c, m.email, holds));
      if found.None? then BadCredentials
      else if PasswordText(b).None? then SignInError
      else if !compare(PasswordText(b).value, members.docs[found.value].password) then BadCredentials
      else SignedIn(ViewOf(found.value, members.docs[found.value]))
  }

  /** POST /api/login, as written: `findOne({email: req.body.email})` puts
      the sent value itself into the filter, so an object with a `$` key is
      a query operator the database evaluates (`holds`). A body without an
      email, or with `null`, finds nobody; an object without a `$` key makes
      the cast throw. A successful login names a member whose email
      satisfies that condition and whose hash matches; for a scalar email, a
      member with that email. An unknown email and a wrong password get the
      same reply. */
  function SignIn(members: Table<Member>, b: Body, holds: (map<string, Value>, string) -> bool,
                  compare: (string, string) -> bool, lookupFails: bool): (r: SignInReply)
    requires members.Valid()
    ensures var c := ConditionOf(Field(b, "email"));
      r.SignedIn? ==>
        && !lookupFails && PasswordText(b).Some?
        && r.user.id in members.docs
        && r.user == ViewOf(r.user.id, members.docs[r.user.id])
        && Satisfies(c, members.docs[r.user.id].email, holds)
        && (c.Equals? ==> members.docs[r.user.id].email == ToStr(Field(b, "email")))
        && compare(PasswordText(b).value, members.docs[r.user.id].password)
    ensures var c := ConditionOf(Field(b, "email"));
      !lookupFails && c.Equals? && (forall id :: id in members.docs ==> members.docs[id].email != ToStr(Field(b, "email"))) ==>
        r == BadCredentials
    ensures lookupFails || ConditionOf(Field(b, "email")).Refused? ==> r == SignInError
  {
    SignInWith(members, ConditionOf(Field(b, "email")), b, holds, compare, lookupFails)
  }

  /** The login as evidently intended: only a scalar email, read as text,
      looks anybody up; `null`, a missing email and any object find nobody.
      It signs in only a member whose email is that text, and nobody when no
      member has it. */
  function SignInStrict(members: Table<Member>, b: Body, compare: (string, string) -> bool, lookupFails: bool): (r: SignInReply)
    requires members.Valid()
    ensures r.SignedIn? ==>
      && !lookupFails && PasswordText(b).Some?
      && "email" in b && !b["email"].Group? && b["email"] != Num(None)
      && r.user.id in members.docs
      && r.user == ViewOf(r.user.id, members.docs[r.user.id])
      && members.docs[r.user.id].email == ToStr(Field(b, "email"))
      && compare(PasswordText(b).value, members.docs[r.user.id].password)
    ensures !lookupFails && (forall id :: id in members.docs ==> members.docs[id].email != ToStr(Field(b, "email"))) ==>
      r == BadCredentials
  {
    var c := ConditionOf(Field(b, "email"));
    SignInWith(members, if c.Equals? then c else Nothing, b, NeverHolds, compare, lookupFails)
  }

  /** No operator object is ever evaluated by the intended login. */
  predicate NeverHolds(ops: map<string, Value>, stored: string) {
    false
  }

  /** For a scalar email the two logins agree, whatever the database does
      with operators. */
  lemma SignInStrictAgrees(members: Table<Member>, b: Body, holds: (map<string, Value>, string) -> bool,
                           compare: (string, string) -> bool, lookupFails: bool)
    requires members.Valid()
    requires ConditionOf(Field(b, "email")).Equals?
    ensures SignIn(members, b, holds, compare, lookupFails) == SignInStrict(members, b, compare, lookupFails)
  {
    var c := ConditionOf(Field(b, "email"));
    if !lookupFails {
      FindOneAgrees(members, (m: Member) => Satisfies(c, m.email, holds), (m: Member) => Satisfies(c, m.email, NeverHolds));
    }
  }

  /** The route as written lets in whoever knows the password of the first
      member stored, without knowing any email: `{"$ne": null}` holds of
      every stored email. */
  lemma OperatorEmailSignsIn(members: Table<Member>, password: string, holds: (map<string, Value>, string) -> bool,
                             compare: (string, string) -> bool)
    requires members.Valid() && members.order != []
    requires forall stored :: holds(map["$ne" := Num(None)], stored)
    requires compare(password, members.docs[members.order[0]].password)
    ensures var b := map["email" := Group(map["$ne" := Num(None)]), "password" := Text(password)];
      && SignIn(members, b, holds, compare, false) == SignedIn(ViewOf(members.order[0], members.docs[members.order[0]]))
      && SignInStrict(members, b, compare, false) == BadCredentials
  {
    var b := map["email" := Group(map["$ne" := Num(None)]), "password" := Text(password)];
    assert IsOperator("$ne");
    assert ConditionOf(Field(b, "email")) == Operators(map["$ne" := Num(None)]);
  }

  /** With unique emails, a member's own email and a text password log in
      exactly when the comparison accepts it, on both logins. */
  lemma SignInUnique(members: Table<Member>, id: Id, password: string, holds: (map<string, Value>, string) -> bool,
                     compare: (string, string) -> bool)
    requires members.Valid() && UniqueEmails(members) && id in members.docs
    ensures var m := members.docs[id];
      var b := map["email" := Text(m.email), "password" := Text(password)];
      var expected := if compare(password, m.password) then SignedIn(ViewOf(id, m)) else BadCredentials;
      SignInStrict(members, b, compare, false) == expected && SignIn(members, b, holds, compare, false) == expected
  {
    var m := members.docs[id];
    var b := map["email" := Text(m.email), "password" := Text(password)];
    assert ConditionOf(Field(b, "email")) == Equals(m.email);
    assert Satisfies(Equals(m.email), members.docs[id].email, NeverHolds);
    SignInStrictAgrees(members, b, holds, compare, false);
  }

  /** The text and date paths the schema stores as the body sends them. The
      names went through `trim`, which made them text. */
  const CastPaths: seq<string> := [
    "email", "phone", "address", "dateOfBirth", "residenceType", "housingStatus", "petExperience", "petType",
    "preferredAge", "preferredSize", "preferredBreed", "veterinarianInfo"]

  /** Whether the schema casts every stored path: a text path refuses an
      object, and the newsletter path refuses what the Boolean cast does. */
  predicate Castable(b: Body) {
    && (forall k :: 0 <= k < |CastPaths| ==> !TextCastRefused(Field(b, CastPaths[k])))
    && !TextCastRefused(Nested(b, "householdMembers", "otherPets"))
    && !BooleanCast(Field(b, "subscribeNewsletter")).CastRefused?
  }

  class Registry {
    var members: Table<Member>

    ghost predicate Valid()
      reads this
    {
      members.Valid() && UniqueEmails(members)
    }

    constructor ()
      ensures Valid() && members.docs == map[]
    {
      members := Empty();
    }

    /** POST /api/register. Validation runs before the store is consulted;
        `lookupFails` is a store fault during the email lookup; a known
        email is refused; bcrypt refuses a password that is not text; the
        save refuses a document the schema cannot cast (`Castable`);
        `saveFails` is a store fault during the save. */
    method Register(b: Body, isEmail: string -> bool, isDate: string -> bool,
                    hash: (string, string) -> string, salt: string, now: int,
                    lookupFails: bool, saveFails: bool)
      returns (r: RegisterReply)
      requires Valid()
      modifies this
      ensures Valid()
      ensures Validate(b, isEmail, isDate) != [] <==> r.ValidationFailed?
      ensures r.ValidationFailed? ==> r.errors == Validate(b, isEmail, isDate)
      ensures !r.Registered? ==> members == old(members)
      ensures Validate(b, isEmail, isDate) == [] && lookupFails ==> r == RegisterError
      ensures Validate(b, isEmail, isDate) == [] && !lookupFails ==>
        (r == EmailTaken <==> exists id :: id in old(members.docs) && old(members.docs)[id].email == ToStr(Field(b, "email")))
      ensures (&& Validate(b, isEmail, isDate) == [] && PasswordText(b).Some? && Castable(b) && !lookupFails && !saveFails
               && forall id :: id in old(members.docs) ==> old(members.docs)[id].email != ToStr(Field(b, "email")))
        ==> r.Registered?
      ensures r.Registered? ==>
        && !lookupFails && !saveFails && PasswordText(b).Some? && Castable(b)
        && var m := NewMember(b, hash(PasswordText(b).value, salt), now);
        && r.user == ViewOf(r.user.id, m)
        && r.user.id !in old(members.docs)
        && members.docs == old(members.docs)[r.user.id := m]
    {
      var errs := Validate(b, isEmail, isDate);
      if errs != [] {
        return ValidationFailed(errs);
      }
      if lookupFails {
        return RegisterError;
      }
      var email := ToStr(Field(b, "email"));
      var found := FindOne(members, m => HasEmail(email, m));
      if found.Some? {
        return EmailTaken;
      }
      var password := PasswordText(b);
      if password.None? || !Castable(b) || saveFails {
        return RegisterError;
      }
      var hashed := hash(password.value, salt);
      var m := NewMember(b, hashed, now);
      assert m.email == email;
      InsertKeepsUnique(members, m);
      var (t, id) := Insert(members, m);
      members := t;
      r := Registered(ViewOf(id, m));
    }
  }

  /** Whoever registers can then log in with the same email and password,
      when the comparison accepts a password against its own salted hash. */
  lemma RegisteredCanSignIn(members: Table<Member>, id: Id, b: Body, hash: (string, string) -> string,
                            salt: string, now: int, holds: (map<string, Value>, string) -> bool,
                            compare: (string, string) -> bool)
    requires members.Valid() && UniqueEmails(members) && id in members.docs
    requires PasswordText(b).Some?
    requires members.docs[id] == NewMember(b, hash(PasswordText(b).value, salt), now)
    requires forall p, s :: compare(p, hash(p, s))
    ensures var login := map["email" := Text(ToStr(Field(b, "email"))), "password" := b["password"]];
      && SignInStrict(members, login, compare, false) == SignedIn(ViewOf(id, members.docs[id]))
      && SignIn(members, login, holds, compare, false) == SignedIn(ViewOf(id, members.docs[id]))
  {
    SignInUnique(members, id, PasswordText(b).value, holds, compare);
  }
}
