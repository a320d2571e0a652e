/** The `AnimalRescueRequest` document schema: which paths are required,
    which are trimmed or lower-cased before validation, the two enumerations,
    the e-mail pattern and the defaults a new document receives. */
module RescueSchema {
  import opened Common
  import opened Text

  /** The permitted emergency tags, in the order the schema lists them. */
  const Tags: seq<string> := ["Neglect", "Accident", "Cruelty", "Lost", "Missing"]
  const DefaultTag: string := "Neglect"

  /** The permitted workflow states of a request. */
  const Statuses: seq<string> := ["pending", "in-progress", "resolved", "closed"]
  const DefaultStatus: string := "pending"

  const TagMessage: string := "Tag must be one of: Neglect, Accident, Cruelty, Lost, Missing"

  /** The generic message the document store gives for a value outside an
      enumeration that declares no message of its own. */
  function EnumMessage(value: string, path: string): string {
    "`" + value + "` is not a valid enum value for path `" + path + "`."
  }

  /** The values handed to the model's constructor; `None` is a path that
      was not given at all. */
  datatype RescueDraft = RescueDraft(
    fullName: Option<string>,
    contactNumber: Option<string>,
    email: Option<string>,
    tag: Option<string>,
    concern: Option<string>,
    locationNote: Option<string>,
    photoUrl: Option<string>,
    photoContentType: Option<string>,
    status: Option<string>)

  /** An entry of the `notes` array. */
  datatype Note = Note(text: string, createdBy: Option<nat>, createdAt: int)

  /** A rescue request as it is stored. */
  datatype RescueRecord = RescueRecord(
    fullName: string,
    contactNumber: string,
    email: string,
    tag: string,
    concern: string,
    locationNote: string,
    photoUrl: Option<string>,
    photoData: Option<seq<bv8>>,
    photoContentType: Option<string>,
    status: string,
    assignedTo: Option<nat>,
    notes: seq<Note>,
    createdAt: int,
    updatedAt: int)

  /** The pattern `^\S+@\S+\.\S+$`: no whitespace anywhere, and an `@` with
      at least one character before it, then a later `.` with at least one
      character between the two and at least one after the `.`. */
  predicate EmailShape(s: string) {
    NoSpace(s) &&
    exists i, j :: 0 < i && i + 1 < j < |s| - 1 && s[i] == '@' && s[j] == '.'
  }

  /** The `trim: true, lowercase: true` setters of `email`. */
  function EmailSet(v: Option<string>): (r: Option<string>)
    ensures r.Some? <==> v.Some?
  {
    if v.Some? then Some(Lower(Trim(v.value))) else None
  }

  /** A default applies only to a path that was not given. */
  function WithDefault(v: Option<string>, d: string): (r: string)
    ensures v.Some? ==> r == v.value
    ensures v.None? ==> r == d
  {
    if v.Some? then v.value else d
  }

  /** The first failing validator of `email`: required, then the pattern
      (which does not apply to an empty value, already reported). */
  function EmailFailure(v: Option<string>): Option<string> {
    var e := EmailSet(v);
    if !Truthy(e) then Some("Email is required")
    else if !EmailShape(e.value) then Some("Please enter a valid email address")
    else None
  }

  /** The first failing validator of `tag`: required, then the enumeration. */
  function TagFailure(v: Option<string>): Option<string> {
    var t := WithDefault(v, DefaultTag);
    if t == "" then Some("Emergency tag is required")
    else if t !in Tags then Some(TagMessage)
    else None
  }

  /** `status` has only an enumeration validator; its default is in it. */
  function StatusFailure(v: Option<string>): Option<string> {
    var s := WithDefault(v, DefaultStatus);
    if s !in Statuses then Some(EnumMessage(s, "status")) else None
  }

  /** The validators of every path, in the order the schema declares them. */
  function Outcomes(d: RescueDraft): (r: seq<Option<string>>)
    ensures |r| == 7
  {
    [RequiredFailure(Trimmed(d.fullName), "Name is required"),
     RequiredFailure(Trimmed(d.contactNumber), "Contact number is required"),
     EmailFailure(d.email),
     TagFailure(d.tag),
     RequiredFailure(d.concern, "Description of the situation is required"),
     RequiredFailure(d.locationNote, "Location details are required"),
     StatusFailure(d.status)]
  }

  function Checks(d: RescueDraft): seq<Check> {
    Zip(PathNames, Outcomes(d))
  }

  const PathNames: seq<string> :=
    ["fullName", "contactNumber", "email", "tag", "concern", "locationNote", "status"]

  lemma PathNamesDistinct()
    ensures forall i, j :: 0 <= i < j < |PathNames| ==> PathNames[i] != PathNames[j]
  {
  }

  /** Any seven outcomes, paired with the paths, have distinct names. */
  lemma ZipDistinct(o: seq<Option<string>>)
    requires |o| == 7
    ensures NamedAs(Zip(PathNames, o), PathNames) && DistinctNames(Zip(PathNames, o))
  {
    PathNamesDistinct();
    DistinctByNames(Zip(PathNames, o), PathNames);
  }

  lemma ChecksDistinct(d: RescueDraft)
    ensures NamedAs(Checks(d), PathNames) && DistinctNames(Checks(d))
  {
    ZipDistinct(Outcomes(d));
  }

  /** The errors of a validation pass, one per failing path, in the order
      the schema declares the paths. */
  function Validate(d: RescueDraft): (errs: seq<FieldError>)
    ensures OnePerPath(errs)
    ensures |errs| <= 7
  {
    ChecksDistinct(d);
    CollectOnePerPath(Checks(d));
    Collect(Checks(d))
  }

  /** The message reported for the `k`-th path of the schema. */
  lemma Reported(d: RescueDraft, k: nat)
    requires k < 7
    ensures MessageFor(Validate(d), PathNames[k]) == Outcomes(d)[k]
  {
    ChecksDistinct(d);
    CollectMessage(Checks(d), k);
  }

  /** Creating and validating a document: the stored record when every path
      passes, else the list of failures. Unset photo paths, `assignedTo` and
      `photoData` are null, `notes` is empty and both timestamps are `now`. */
  function Build(d: RescueDraft, now: int): (r: Result<RescueRecord, seq<FieldError>>)
    ensures r.Ok? <==> Validate(d) == []
    ensures r.Err? ==> r.error == Validate(d)
    ensures r.Ok? ==>
      && d.fullName.Some? && r.value.fullName == Trim(d.fullName.value) && r.value.fullName != ""
      && d.contactNumber.Some? && r.value.contactNumber == Trim(d.contactNumber.value)
      && r.value.contactNumber != ""
      && d.email.Some? && r.value.email == Lower(Trim(d.email.value)) && EmailShape(r.value.email)
      && r.value.tag in Tags && (d.tag.None? ==> r.value.tag == DefaultTag)
      && d.concern == Some(r.value.concern) && r.value.concern != ""
      && d.locationNote == Some(r.value.locationNote) && r.value.locationNote != ""
      && r.value.status in Statuses && (d.status.None? ==> r.value.status == DefaultStatus)
      && r.value.photoUrl == d.photoUrl && r.value.photoContentType == d.photoContentType
      && r.value.photoData.None? && r.value.assignedTo.None? && r.value.notes == []
      && r.value.createdAt == now && r.value.updatedAt == now
  {
    var errs := Validate(d);
    if errs != [] then Err(errs)
    else
      AllPass(d);
      Ok(RescueRecord(
        Trim(d.fullName.value), Trim(d.contactNumber.value), Lower(Trim(d.email.value)),
        WithDefault(d.tag, DefaultTag), d.concern.value, d.locationNote.value,
        d.photoUrl, None, d.photoContentType, WithDefault(d.status, DefaultStatus),
        None, [], now, now))
  }

  /** A draft with no errors has every path set and passing. */
  lemma AllPass(d: RescueDraft)
    requires Validate(d) == []
    ensures Truthy(Trimmed(d.fullName)) && Truthy(Trimmed(d.contactNumber))
    ensures EmailFailure(d.email).None? && TagFailure(d.tag).None? && StatusFailure(d.status).None?
    ensures Truthy(d.concern) && Truthy(d.locationNote)
  {
    var o := Outcomes(d);
    Reported(d, 0); Reported(d, 1); Reported(d, 2); Reported(d, 3);
    Reported(d, 4); Reported(d, 5); Reported(d, 6);
    assert o[0].None? && o[1].None? && o[2].None? && o[3].None? && o[4].None? && o[5].None? && o[6].None?;
  }

  /** `fullName` is trimmed before the required check, so a missing or
      whitespace-only name is reported, and any other name is not. */
  lemma FullNameRule(d: RescueDraft)
    ensures MessageFor(Validate(d), "fullName") ==
      if d.fullName.None? || AllSpace(d.fullName.value) then Some("Name is required") else None
  {
    Reported(d, 0);
    if d.fullName.Some? { TrimEmptyIff(d.fullName.value); }
  }

  /** `contactNumber` is trimmed before the required check too. */
  lemma ContactNumberRule(d: RescueDraft)
    ensures MessageFor(Validate(d), "contactNumber") ==
      if d.contactNumber.None? || AllSpace(d.contactNumber.value) then Some("Contact number is required")
      else None
  {
    Reported(d, 1);
    if d.contactNumber.Some? { TrimEmptyIff(d.contactNumber.value); }
  }

  /** `email` is trimmed and lower-cased, then must be non-empty and match
      the pattern. */
  lemma EmailRule(d: RescueDraft)
    ensures MessageFor(Validate(d), "email") ==
      if d.email.None? || AllSpace(d.email.value) then Some("Email is required")
      else if !EmailShape(Lower(Trim(d.email.value))) then Some("Please enter a valid email address")
      else None
  {
    Reported(d, 2);
    if d.email.Some? { TrimEmptyIff(d.email.value); }
  }

  /** A missing tag takes the default, which is permitted; a given tag must
      be non-empty and one of the five. */
  lemma TagRule(d: RescueDraft)
    ensures MessageFor(Validate(d), "tag") ==
      if d.tag.None? || d.tag.value in Tags then None
      else if d.tag.value == "" then Some("Emergency tag is required")
      else Some(TagMessage)
  {
    Reported(d, 3);
  }

  /** `concern` and `locationNote` are not trimmed: any non-empty string
      passes, whitespace included. */
  lemma ConcernRules(d: RescueDraft)
    ensures MessageFor(Validate(d), "concern").None? <==> d.concern.Some? && d.concern.value != ""
    ensures MessageFor(Validate(d), "locationNote").None? <==>
      d.locationNote.Some? && d.locationNote.value != ""
  {
    Reported(d, 4);
    Reported(d, 5);
  }

  /** A missing status takes the default; a given one must be one of the four. */
  lemma StatusRule(d: RescueDraft)
    ensures MessageFor(Validate(d), "status") ==
      if d.status.None? || d.status.value in Statuses then None
      else Some(EnumMessage(d.status.value, "status"))
  {
    Reported(d, 6);
  }

  /** No other path is ever reported. */
  lemma OnlySchemaPaths(d: RescueDraft, p: string)
    requires p !in PathNames
    ensures MessageFor(Validate(d), p).None?
  {
    ChecksDistinct(d);
    UnnamedByNames(Checks(d), PathNames, p);
    CollectUnnamed(Checks(d), p);
  }

  /** A few e-mail addresses and how the pattern judges them. */
  lemma EmailExamples()
    ensures EmailShape("a@b.c")
    ensures !EmailShape("a@b.")
    ensures !EmailShape("@b.c")
    ensures !EmailShape("a.b@c")
    ensures !EmailShape("a @b.c")
  {
    var s := "a@b.c";
    assert s[1] == '@' && s[3] == '.';
    assert IsSpace("a @b.c"[1]);
  }

  /** A whitespace-only name is rejected even though it is not empty. */
  lemma BlankNameRejected(d: RescueDraft)
    requires d.fullName == Some("   ")
    ensures MessageFor(Validate(d), "fullName") == Some("Name is required")
    ensures Build(d, 0).Err?
  {
    FullNameRule(d);
  }

  /** Seven passing outcomes give no errors. */
  lemma ZipNone(o: seq<Option<string>>)
    requires o == [None, None, None, None, None, None, None]
    ensures Collect(Zip(PathNames, o)) == []
  {
    CollectEmpty(Zip(PathNames, o));
  }

  /** A draft whose every path passes has no errors. */
  lemma NoFailures(d: RescueDraft)
    requires Truthy(Trimmed(d.fullName)) && Truthy(Trimmed(d.contactNumber))
    requires EmailFailure(d.email).None? && TagFailure(d.tag).None? && StatusFailure(d.status).None?
    requires Truthy(d.concern) && Truthy(d.locationNote)
    ensures Validate(d) == []
  {
    OutcomesNone(d);
    ValidateOfNone(d);
  }

  /** Seven passing outcomes leave the validation pass empty. */
  lemma ValidateOfNone(d: RescueDraft)
    requires Outcomes(d) == [None, None, None, None, None, None, None]
    ensures Validate(d) == []
  {
    ValidateIsCollect(d);
    ZipNone(Outcomes(d));
  }

  /** Every path passes when each validator does. */
  lemma OutcomesNone(d: RescueDraft)
    requires Truthy(Trimmed(d.fullName)) && Truthy(Trimmed(d.contactNumber))
    requires EmailFailure(d.email).None? && TagFailure(d.tag).None? && StatusFailure(d.status).None?
    requires Truthy(d.concern) && Truthy(d.locationNote)
    ensures Outcomes(d) == [None, None, None, None, None, None, None]
  {
  }

  /** A validation pass collects the outcomes paired with the paths. */
  lemma ValidateIsCollect(d: RescueDraft)
    ensures Validate(d) == Collect(Zip(PathNames, Outcomes(d)))
  {
  }

  /** Trimming removes one space on either side of a string that does not
      itself start or end with white space. */
  lemma PaddedTrim(a: string)
    requires a != [] && !IsSpace(a[0]) && !IsSpace(a[|a| - 1])
    ensures Trim([' '] + a + [' ']) == a
  {
    var p := [' '] + a + [' '];
    assert p[1..] == a + [' '];
    assert TrimStart(p) == TrimStart(a + [' ']);
    assert (a + [' '])[0] == a[0];
    assert TrimStart(a + [' ']) == a + [' '];
    assert (a + [' '])[..|a|] == a;
    assert TrimEnd(a + [' ']) == TrimEnd(a);
  }

  /** An address padded with spaces and written in any case passes
      validation when its lower-case form has the e-mail shape, and is
      stored trimmed and lower-cased; an unset tag and status take their
      defaults. */
  lemma NormalisedEmailAccepted(d: RescueDraft, a: string, now: int)
    requires Truthy(Trimmed(d.fullName)) && Truthy(Trimmed(d.contactNumber))
    requires Truthy(d.concern) && Truthy(d.locationNote)
    requires d.tag.None? && d.status.None?
    requires d.email == Some([' '] + a + [' ']) && EmailShape(Lower(a))
    ensures Validate(d) == []
    ensures Build(d, now).Ok? && Build(d, now).value.email == Lower(a)
    ensures Build(d, now).value.tag == DefaultTag && Build(d, now).value.status == DefaultStatus
  {
    PaddedEmailPasses(a);
    DefaultsPass();
    NoFailures(d);
  }

  lemma PaddedEmailPasses(a: string)
    requires EmailShape(Lower(a))
    ensures Lower(Trim([' '] + a + [' '])) == Lower(a)
    ensures EmailFailure(Some([' '] + a + [' '])).None?
  {
    var e := [' '] + a + [' '];
    LowerKeepsSpaces(a);
    assert a != [] && !IsSpace(a[0]) && !IsSpace(a[|a| - 1]) by {
      assert NoSpace(a);
    }
    PaddedTrim(a);
    assert EmailSet(Some(e)) == Some(Lower(a));
    assert Truthy(Some(Lower(a)));
  }

  /** An unset tag and an unset status pass. */
  lemma DefaultsPass()
    ensures TagFailure(None).None? && StatusFailure(None).None?
  {
    assert DefaultTag == Tags[0] && DefaultStatus == Statuses[0];
  }
}
