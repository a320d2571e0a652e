/** The adopter sign-up wizard: the form data (with the nested household
    group), the change handler, the submit pre-checks and payload, and the
    four-section navigation. The form data is the JSON object the request
    sends, so it shares `Registration.Value`. */
module SignUpForm {
  import opened Common
  import opened Text
  import opened Registration
  import opened Json

  const MismatchMessage: string := "Passwords do not match"
  const TermsMessage: string := "You must agree to the terms and conditions"
  const SuccessMessage: string := "Registration successful! You can now log in."
  const RejectedDefault: string := "Registration failed"
  const ThrownDefault: string := "An error occurred during registration"

  /** The form as it first appears. */
  function InitialData(): (d: Body)
    ensures "confirmPassword" in d && "agreeTerms" in d && d["agreeTerms"] == Flag(false)
  {
    map[
      "firstName" := Text(""), "lastName" := Text(""), "email" := Text(""), "phone" := Text(""),
      "address" := Text(""), "password" := Text(""), "confirmPassword" := Text(""),
      "dateOfBirth" := Text(""), "residenceType" := Text(""), "housingStatus" := Text(""),
      "householdMembers" := Group(map["adults" := Num(Some(1)), "children" := Num(Some(0)), "otherPets" := Text("")]),
      "petExperience" := Text(""), "petType" := Text(""), "preferredAge" := Text(""),
      "preferredSize" := Text(""), "preferredBreed" := Text(""), "veterinarianInfo" := Text(""),
      "agreeTerms" := Flag(false), "subscribeNewsletter" := Flag(false)]
  }

  // ----- `name.split('.')` -----

  function IndexOfDot(s: string): (i: nat)
    ensures i <= |s|
    ensures forall k :: 0 <= k < i ==> s[k] != '.'
    ensures i < |s| ==> s[i] == '.'
  {
    if s == [] || s[0] == '.' then 0 else 1 + IndexOfDot(s[1..])
  }

  /** The first two pieces of `name.split('.')`, for a name with a dot. */
  function SplitName(name: string): (r: (string, string))
    requires '.' in name
    ensures '.' !in r.0 && '.' !in r.1
    ensures |r.0| < |name| && name[..|r.0|] == r.0 && name[|r.0|] == '.'
  {
    var i := IndexOfDot(name);
    var rest := name[i + 1..];
    (name[..i], rest[..IndexOfDot(rest)])
  }

  /** A control's new value: `parseInt` for a number input under a group,
      `checked` for a checkbox, the text otherwise. */
  function ChildValue(value: string, inputType: string): Value {
    if inputType == "number" then Num(ParseInt(value)) else Text(value)
  }

  function PlainValue(value: string, inputType: string, checked: bool): Value {
    if inputType == "checkbox" then Flag(checked) else Text(value)
  }

  /** The members of the group at `parent`, or none when it is not one. */
  function GroupAt(d: Body, parent: string): map<string, Value> {
    if parent in d && d[parent].Group? then d[parent].fields else map[]
  }

  /** The form after `handleChange`. */
  function Changed(d: Body, name: string, value: string, inputType: string, checked: bool): Body {
    if '.' in name then
      var (parent, child) := SplitName(name);
      d[parent := Group(GroupAt(d, parent)[child := ChildValue(value, inputType)])]
    else d[name := PlainValue(value, inputType, checked)]
  }

  /** A plain name changes that key alone; a dotted one changes one member
      of its group and keeps every other key and every other member. */
  lemma ChangedOnlyThatField(d: Body, name: string, value: string, inputType: string, checked: bool)
    ensures var r := Changed(d, name, value, inputType, checked);
      && ('.' !in name ==> r.Keys == d.Keys + {name} && r[name] == PlainValue(value, inputType, checked))
      && ('.' in name ==>
            var (parent, child) := SplitName(name);
            && r.Keys == d.Keys + {parent}
            && r[parent].Group?
            && r[parent].fields[child] == ChildValue(value, inputType)
            && (forall c :: c in GroupAt(d, parent) && c != child ==> c in r[parent].fields && r[parent].fields[c] == GroupAt(d, parent)[c]))
      && (forall k :: k in d && k != (if '.' in name then SplitName(name).0 else name) ==> r[k] == d[k])
  {
  }

  lemma {:induction false} IndexOfDotAfter(p: string, s: string)
    requires '.' !in p
    ensures IndexOfDot(p + s) == |p| + IndexOfDot(s)
  {
    if p != [] {
      assert (p + s)[0] == p[0] && (p + s)[1..] == p[1..] + s;
      assert '.' !in p[1..];
      IndexOfDotAfter(p[1..], s);
    } else {
      assert p + s == s;
    }
  }

  /** Splitting a name made of two dot-free parts gives the parts back. */
  lemma SplitJoin(parent: string, child: string)
    requires '.' !in parent && '.' !in child
    ensures '.' in parent + "." + child
    ensures SplitName(parent + "." + child) == (parent, child)
  {
    var name := parent + "." + child;
    assert name[|parent|] == '.';
    IndexOfDotAfter(parent, "." + child);
    assert name[|parent| + 1..] == child;
    IndexOfDotAfter(child, []);
    assert child + [] == child;
    assert name[..|parent|] == parent;
  }

  /** A cleared number input turns the adult count into `NaN`, which the
      body carries as `null`. */
  lemma ClearedAdultsIsNull(d: Body)
    ensures Nested(Changed(d, "householdMembers" + "." + "adults", "", "number", false), "householdMembers", "adults")
         == Some(Num(None))
  {
    SplitJoin("householdMembers", "adults");
    assert ParseInt("") == None;
  }

  /** So the server refuses a form whose adult count was cleared, with the
      message of `householdMembers.adults` (`PathNames[9]`). */
  lemma ClearedAdultsRefused(d: Body, isEmail: string -> bool, isDate: string -> bool)
    ensures var r := Changed(d, "householdMembers" + "." + "adults", "", "number", false);
      MessageFor(Validate(r, isEmail, isDate), PathNames[9]) == Some("At least one adult is required")
  {
    var r := Changed(d, "householdMembers" + "." + "adults", "", "number", false);
    ClearedAdultsIsNull(d);
    NullAdultsRefused(r, isEmail, isDate);
  }

  /** JavaScript's `!==` on two form values: `NaN` and objects are never
      equal to anything here, a missing value equals only a missing one. */
  function StrictEquals(a: Option<Value>, b: Option<Value>): bool {
    match (a, b)
    case (None, None) => true
    case (Some(Text(x)), Some(Text(y))) => x == y
    case (Some(Num(Some(x))), Some(Num(Some(y)))) => x == y
    case (Some(Flag(x)), Some(Flag(y))) => x == y
    case _ => false
  }

  /** JavaScript truthiness of a form value. */
  function IsTruthy(v: Option<Value>): bool {
    match v
    case None => false
    case Some(Text(s)) => s != ""
    case Some(Num(n)) => n.Some? && n.value != 0
    case Some(Flag(b)) => b
    case Some(Group(_)) => true
  }

  /** `const { confirmPassword, agreeTerms, ...dataToSend } = formData`. */
  function Payload(d: Body): (p: Body)
    ensures p.Keys == d.Keys - {"confirmPassword", "agreeTerms"}
    ensures forall k :: k in p ==> p[k] == d[k]
  {
    map k | k in d && k != "confirmPassword" && k != "agreeTerms" :: d[k]
  }

  /** How the request ended: a 2xx reply, a reply that is not ok with its
      `message` (if any), or a thrown error with its `message` (if any). */
  datatype Outcome = Accepted | Rejected(message: Option<string>) | Threw(message: Option<string>)

  datatype Section = Basic | Adoption | Preferences | Terms

  /** The "Next" button of a section; the last one has the submit instead. */
  function NextOf(s: Section): Option<Section> {
    match s
    case Basic => Some(Adoption)
    case Adoption => Some(Preferences)
    case Preferences => Some(Terms)
    case Terms => None
  }

  /** The "Previous" button; it is disabled on the first section. */
  function PreviousOf(s: Section): Option<Section> {
    match s
    case Basic => None
    case Adoption => Some(Basic)
    case Preferences => Some(Adoption)
    case Terms => Some(Preferences)
  }

  function Position(s: Section): (n: nat)
    ensures n < 4
  {
    match s
    case Basic => 0
    case Adoption => 1
    case Preferences => 2
    case Terms => 3
  }

  /** Next moves one section forward and Previous one back, each undoing
      the other; only the first section has no Previous and only the last
      no Next. */
  lemma NavigationRoundTrip(s: Section)
    ensures NextOf(s).Some? <==> s != Terms
    ensures PreviousOf(s).Some? <==> s != Basic
    ensures NextOf(s).Some? ==> Position(NextOf(s).value) == Position(s) + 1 && PreviousOf(NextOf(s).value) == Some(s)
    ensures PreviousOf(s).Some? ==> Position(PreviousOf(s).value) + 1 == Position(s) && NextOf(PreviousOf(s).value) == Some(s)
  {
  }

  class Wizard {
    var formData: Body
    var isSubmitting: bool
    var error: string
    var success: string
    var activeSection: Section

    constructor ()
      ensures formData == InitialData() && !isSubmitting && error == "" && success == "" && activeSection == Basic
    {
      formData := InitialData();
      isSubmitting := false;
      error := "";
      success := "";
      activeSection := Basic;
    }

    method HandleChange(name: string, value: string, inputType: string, checked: bool)
      modifies this`formData
      ensures formData == Changed(old(formData), name, value, inputType, checked)
    {
      if '.' in name {
        var (parent, child) := SplitName(name);
        var members := GroupAt(formData, parent);
        formData := formData[parent := Group(members[child := ChildValue(value, inputType)])];
      } else {
        formData := formData[name := PlainValue(value, inputType, checked)];
      }
    }

    /** The Next and Previous buttons and the section tabs. */
    method Next()
      requires activeSection != Terms
      modifies this`activeSection
      ensures Some(activeSection) == NextOf(old(activeSection))
    {
      activeSection := NextOf(activeSection).value;
    }

    method Previous()
      requires activeSection != Basic
      modifies this`activeSection
      ensures Some(activeSection) == PreviousOf(old(activeSection))
    {
      activeSection := PreviousOf(activeSection).value;
    }

    method ShowSection(s: Section)
      modifies this`activeSection
      ensures activeSection == s
    {
      activeSection := s;
    }

    /** `handleSubmit`: the password check first, then the terms; only a
        form passing both is sent, without the two client-only keys. */
    method Submit(outcome: Outcome) returns (sent: Option<Body>)
      modifies this`isSubmitting, this`error, this`success
      ensures !isSubmitting
      ensures !StrictEquals(Field(formData, "password"), Field(formData, "confirmPassword")) ==>
        sent.None? && error == MismatchMessage && success == ""
      ensures StrictEquals(Field(formData, "password"), Field(formData, "confirmPassword"))
              && !IsTruthy(Field(formData, "agreeTerms")) ==>
        sent.None? && error == TermsMessage && success == ""
      ensures sent.Some? <==>
        StrictEquals(Field(formData, "password"), Field(formData, "confirmPassword")) && IsTruthy(Field(formData, "agreeTerms"))
      ensures sent.Some? ==> sent.value == Payload(formData)
      ensures sent.Some? && outcome.Accepted? ==> success == SuccessMessage && error == ""
      ensures sent.Some? && outcome.Rejected? ==> error == OrElse(outcome.message, RejectedDefault) && success == ""
      ensures sent.Some? && outcome.Threw? ==> error == OrElse(outcome.message, ThrownDefault) && success == ""
    {
      isSubmitting := true;
      error := "";
      success := "";
      if !StrictEquals(Field(formData, "password"), Field(formData, "confirmPassword")) {
        error := MismatchMessage;
        isSubmitting := false;
        return None;
      }
      if !IsTruthy(Field(formData, "agreeTerms")) {
        error := TermsMessage;
        isSubmitting := false;
        return None;
      }
      sent := Some(Payload(formData));
      match outcome {
        case Accepted =>
          success := SuccessMessage;
        case Rejected(m) =>
          error := OrElse(m, RejectedDefault);
        case Threw(m) =>
          error := OrElse(m, ThrownDefault);
      }
      isSubmitting := false;
    }
  }

  /** The blank form is never sent: its terms box is unchecked. */
  lemma InitialFormNotSent()
    ensures StrictEquals(Field(InitialData(), "password"), Field(InitialData(), "confirmPassword"))
    ensures !IsTruthy(Field(InitialData(), "agreeTerms"))
  {
  }

  /** The household counts the form starts with pass the server's checks. */
  lemma InitialHouseholdValid()
    ensures IntAtLeast(Nested(Payload(InitialData()), "householdMembers", "adults"), 1)
    ensures IntAtLeast(Nested(Payload(InitialData()), "householdMembers", "children"), 0)
  {
    var p := Payload(InitialData());
    assert p["householdMembers"] == InitialData()["householdMembers"];
    StrictIntRoundTrip(1);
    StrictIntRoundTrip(0);
  }
}
