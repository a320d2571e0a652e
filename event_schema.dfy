/** The `Event` document schema: five required paths (three of them
    trimmed), a status enumeration with a default, creation and update
    times (both ordinary paths a request body may set), and the pre-save
    hook that refreshes the update time. Dates are integer timestamps;
    turning submitted date text into one is the parameter `parseDate`. */
module EventSchema {
  import opened Common
  import opened Text

  const Statuses: seq<string> := ["confirmed", "pending", "cancelled"]
  const DefaultStatus: string := "pending"

  const PathNames: seq<string> := ["title", "date", "time", "location", "description", "status", "createdAt", "updatedAt"]

  /** The editable paths as a request body gives them; `None` is a path
      the body does not mention. */
  datatype EventBody = EventBody(
    title: Option<string>,
    date: Option<string>,
    time: Option<string>,
    location: Option<string>,
    description: Option<string>,
    status: Option<string>,
    createdAt: Option<string>,
    updatedAt: Option<string>)

  /** The body that mentions no path. */
  const EmptyBody: EventBody := EventBody(None, None, None, None, None, None, None, None)

  /** A stored event. A time is `None` when it was sent as the empty
      string, which Mongoose stores as null. */
  datatype Event = Event(
    title: string,
    date: int,
    time: string,
    location: string,
    description: string,
    status: string,
    createdAt: Option<int>,
    updatedAt: Option<int>)

  /** Both times are set and the update time is no earlier than the
      creation time. */
  predicate TimesInOrder(e: Event) {
    e.createdAt.Some? && e.updatedAt.Some? && e.createdAt.value <= e.updatedAt.value
  }

  /** A missing or empty date casts to nothing and is reported as missing;
      any other text must parse as a date. */
  function DateFailure(v: Option<string>, parseDate: string -> Option<int>): Option<string> {
    if !Truthy(v) then Some("Event date is required")
    else if parseDate(v.value).None? then Some(DateCastMessage("date", v.value))
    else None
  }

  function StatusFailure(v: Option<string>): Option<string> {
    var s := if v.Some? then v.value else DefaultStatus;
    if s !in Statuses then Some("`" + s + "` is not a valid enum value for path `status`.") else None
  }

  /** The outcome of each path's validators, in the schema's order. */
  function Outcomes(b: EventBody, parseDate: string -> Option<int>): (r: seq<Option<string>>)
    ensures |r| == 8
  {
    [RequiredFailure(Trimmed(b.title), "Event title is required"),
     DateFailure(b.date, parseDate),
     RequiredFailure(Trimmed(b.time), "Event time is required"),
     RequiredFailure(Trimmed(b.location), "Event location is required"),
     RequiredFailure(b.description, "Event description is required"),
     StatusFailure(b.status),
     DateCastFailure("createdAt", b.createdAt, parseDate),
     DateCastFailure("updatedAt", b.updatedAt, parseDate)]
  }

  /** Validating a new document: every path. */
  function Validate(b: EventBody, parseDate: string -> Option<int>): (errs: seq<FieldError>)
    ensures OnePerPath(errs)
  {
    var checks := Zip(PathNames, Outcomes(b, parseDate));
    ZipDistinct(Outcomes(b, parseDate));
    CollectOnePerPath(checks);
    Collect(checks)
  }

  /** Only a path the update mentions is validated. */
  function Present(v: Option<string>, outcome: Option<string>): (r: Option<string>)
    ensures v.None? ==> r.None?
    ensures v.Some? ==> r == outcome
  {
    if v.None? then None else outcome
  }

  function UpdateOutcomes(b: EventBody, parseDate: string -> Option<int>): (r: seq<Option<string>>)
    ensures |r| == 8
  {
    var o := Outcomes(b, parseDate);
    [Present(b.title, o[0]), Present(b.date, o[1]), Present(b.time, o[2]),
     Present(b.location, o[3]), Present(b.description, o[4]), Present(b.status, o[5]),
     Present(b.createdAt, o[6]), Present(b.updatedAt, o[7])]
  }

  /** Validating an update: the same validators, on the paths it sets. */
  function ValidateUpdate(b: EventBody, parseDate: string -> Option<int>): (errs: seq<FieldError>)
    ensures OnePerPath(errs)
  {
    var checks := Zip(PathNames, UpdateOutcomes(b, parseDate));
    ZipDistinct(UpdateOutcomes(b, parseDate));
    CollectOnePerPath(checks);
    Collect(checks)
  }

  lemma PathNamesDistinct()
    ensures forall i, j :: 0 <= i < j < |PathNames| ==> PathNames[i] != PathNames[j]
  {
  }

  /** Any eight outcomes, paired with the paths, have distinct names. */
  lemma ZipDistinct(o: seq<Option<string>>)
    requires |o| == 8
    ensures DistinctNames(Zip(PathNames, o))
  {
    PathNamesDistinct();
    DistinctByNames(Zip(PathNames, o), PathNames);
  }

  /** Each path is reported with its own outcome. */
  lemma ZipMessage(o: seq<Option<string>>, k: nat)
    requires |o| == 8 && k < 8
    ensures MessageFor(Collect(Zip(PathNames, o)), PathNames[k]) == o[k]
  {
    ZipDistinct(o);
    CollectMessage(Zip(PathNames, o), k);
  }

  /** The message reported for the `k`-th path on creation. */
  lemma Reported(b: EventBody, parseDate: string -> Option<int>, k: nat)
    requires k < 8
    ensures MessageFor(Validate(b, parseDate), PathNames[k]) == Outcomes(b, parseDate)[k]
  {
    ZipMessage(Outcomes(b, parseDate), k);
  }

  /** The message reported for the `k`-th path on update. */
  lemma ReportedUpdate(b: EventBody, parseDate: string -> Option<int>, k: nat)
    requires k < 8
    ensures MessageFor(ValidateUpdate(b, parseDate), PathNames[k]) == UpdateOutcomes(b, parseDate)[k]
  {
    ZipMessage(UpdateOutcomes(b, parseDate), k);
  }

  /** Each required path is reported exactly when it is missing or, for the
      trimmed ones, blank; `description` is not trimmed. */
  lemma RequiredRules(b: EventBody, parseDate: string -> Option<int>)
    ensures MessageFor(Validate(b, parseDate), "title").Some? <==> b.title.None? || AllSpace(b.title.value)
    ensures MessageFor(Validate(b, parseDate), "time").Some? <==> b.time.None? || AllSpace(b.time.value)
    ensures MessageFor(Validate(b, parseDate), "location").Some? <==>
      b.location.None? || AllSpace(b.location.value)
    ensures MessageFor(Validate(b, parseDate), "description").Some? <==> !Truthy(b.description)
    ensures MessageFor(Validate(b, parseDate), "date").Some? <==>
      !Truthy(b.date) || parseDate(b.date.value).None?
  {
    Reported(b, parseDate, 0);
    Reported(b, parseDate, 1);
    Reported(b, parseDate, 2);
    Reported(b, parseDate, 3);
    Reported(b, parseDate, 4);
    if b.title.Some? { TrimEmptyIff(b.title.value); }
    if b.time.Some? { TrimEmptyIff(b.time.value); }
    if b.location.Some? { TrimEmptyIff(b.location.value); }
  }

  /** A missing status takes the default; a given one must be one of three. */
  lemma StatusRule(b: EventBody, parseDate: string -> Option<int>)
    ensures MessageFor(Validate(b, parseDate), "status").None? <==> b.status.None? || b.status.value in Statuses
  {
    Reported(b, parseDate, 5);
  }

  /** A sent time is refused exactly when it is non-empty text that does
      not parse; a missing or empty one is never reported. */
  lemma TimeRules(b: EventBody, parseDate: string -> Option<int>)
    ensures MessageFor(Validate(b, parseDate), "createdAt").Some? <==>
      Truthy(b.createdAt) && parseDate(b.createdAt.value).None?
    ensures MessageFor(Validate(b, parseDate), "updatedAt").Some? <==>
      Truthy(b.updatedAt) && parseDate(b.updatedAt.value).None?
  {
    Reported(b, parseDate, 6);
    Reported(b, parseDate, 7);
  }

  /** An update is judged only on the paths it sets: a path it leaves out
      is never reported, and a path it sets is judged as on creation. */
  lemma UpdateRules(b: EventBody, parseDate: string -> Option<int>, k: nat)
    requires k < 8
    ensures MessageFor(ValidateUpdate(b, parseDate), PathNames[k]) ==
      if Get(b, k).None? then None else MessageFor(Validate(b, parseDate), PathNames[k])
  {
    Reported(b, parseDate, k);
    ReportedUpdate(b, parseDate, k);
    var o, u := Outcomes(b, parseDate), UpdateOutcomes(b, parseDate);
    if k == 0 { assert u[0] == Present(b.title, o[0]); }
    else if k == 1 { assert u[1] == Present(b.date, o[1]); }
    else if k == 2 { assert u[2] == Present(b.time, o[2]); }
    else if k == 3 { assert u[3] == Present(b.location, o[3]); }
    else if k == 4 { assert u[4] == Present(b.description, o[4]); }
    else if k == 5 { assert u[5] == Present(b.status, o[5]); }
    else if k == 6 { assert u[6] == Present(b.createdAt, o[6]); }
    else { assert u[7] == Present(b.updatedAt, o[7]); }
  }

  /** The body's value for the `k`-th path. */
  function Get(b: EventBody, k: nat): Option<string>
    requires k < 8
  {
    if k == 0 then b.title else if k == 1 then b.date else if k == 2 then b.time
    else if k == 3 then b.location else if k == 4 then b.description
    else if k == 5 then b.status else if k == 6 then b.createdAt else b.updatedAt
  }

  /** An empty update is always valid. */
  lemma EmptyUpdateValid(parseDate: string -> Option<int>)
    ensures ValidateUpdate(EmptyBody, parseDate) == []
  {
    CollectEmpty(Zip(PathNames, UpdateOutcomes(EmptyBody, parseDate)));
  }

  /** A body that passes validation has every required path, and a date
      that parses. */
  lemma AllPass(b: EventBody, parseDate: string -> Option<int>)
    requires Validate(b, parseDate) == []
    ensures Truthy(Trimmed(b.title)) && Truthy(Trimmed(b.time)) && Truthy(Trimmed(b.location))
    ensures Truthy(b.description) && Truthy(b.date) && parseDate(b.date.value).Some?
    ensures StatusFailure(b.status).None?
    ensures Truthy(b.createdAt) ==> parseDate(b.createdAt.value).Some?
    ensures Truthy(b.updatedAt) ==> parseDate(b.updatedAt.value).Some?
  {
    var o := Outcomes(b, parseDate);
    Reported(b, parseDate, 0); Reported(b, parseDate, 1); Reported(b, parseDate, 2);
    Reported(b, parseDate, 3); Reported(b, parseDate, 4); Reported(b, parseDate, 5);
    Reported(b, parseDate, 6); Reported(b, parseDate, 7);
    assert o[0].None? && o[1].None? && o[2].None? && o[3].None? && o[4].None? && o[5].None?;
    assert o[6].None? && o[7].None?;
  }

  /** Creating a document from a body: the setters' values, the default
      status, and each time as sent or, when the body leaves it out,
      `now`; or the failures. */
  function Build(b: EventBody, parseDate: string -> Option<int>, now: int): (r: Result<Event, seq<FieldError>>)
    ensures r.Ok? <==> Validate(b, parseDate) == []
    ensures r.Err? ==> r.error == Validate(b, parseDate)
    ensures r.Ok? ==>
      && b.title.Some? && r.value.title == Trim(b.title.value) && r.value.title != ""
      && b.time.Some? && r.value.time == Trim(b.time.value) && r.value.time != ""
      && b.location.Some? && r.value.location == Trim(b.location.value) && r.value.location != ""
      && b.description == Some(r.value.description) && r.value.description != ""
      && b.date.Some? && parseDate(b.date.value) == Some(r.value.date)
      && r.value.status in Statuses && (b.status.None? ==> r.value.status == DefaultStatus)
      && r.value.createdAt == CastDate(b.createdAt, parseDate, Some(now))
      && r.value.updatedAt == CastDate(b.updatedAt, parseDate, Some(now))
      && (Truthy(b.createdAt) ==> r.value.createdAt.Some?)
      && (Truthy(b.updatedAt) ==> r.value.updatedAt.Some?)
  {
    var errs := Validate(b, parseDate);
    if errs != [] then Err(errs)
    else
      AllPass(b, parseDate);
      Ok(Event(Trim(b.title.value), parseDate(b.date.value).value, Trim(b.time.value),
               Trim(b.location.value), b.description.value,
               if b.status.Some? then b.status.value else DefaultStatus,
               CastDate(b.createdAt, parseDate, Some(now)), CastDate(b.updatedAt, parseDate, Some(now))))
  }

  /** The pre-save hook: the update time becomes `now`, nothing else changes. */
  function Touch(e: Event, now: int): (r: Event)
    ensures r.updatedAt == Some(now)
    ensures r.(updatedAt := e.updatedAt) == e
  {
    e.(updatedAt := Some(now))
  }

  /** A saved event was never updated before it was created exactly when
      its creation time is set and no later than the clock at the save. */
  lemma TouchKeepsOrder(e: Event, now: int)
    ensures TimesInOrder(Touch(e, now)) <==> e.createdAt.Some? && e.createdAt.value <= now
  {
  }

  /** A body that leaves `createdAt` out, saved no earlier than it was
      built, gives an event whose times are in order. */
  lemma OmittedCreationTimeInOrder(b: EventBody, parseDate: string -> Option<int>, created: int, hooked: int)
    requires Build(b, parseDate, created).Ok? && b.createdAt.None? && created <= hooked
    ensures TimesInOrder(Touch(Build(b, parseDate, created).value, hooked))
  {
    TouchKeepsOrder(Build(b, parseDate, created).value, hooked);
  }

  /** A body that sends a creation time later than the save is stored
      with its update time before its creation time: the schema lets the
      client set `createdAt`. */
  lemma SentCreationTimeOutOfOrder(b: EventBody, parseDate: string -> Option<int>, created: int, hooked: int)
    requires Build(b, parseDate, created).Ok? && Truthy(b.createdAt)
    requires parseDate(b.createdAt.value).Some? && parseDate(b.createdAt.value).value > hooked
    ensures !TimesInOrder(Touch(Build(b, parseDate, created).value, hooked))
  {
    TouchKeepsOrder(Build(b, parseDate, created).value, hooked);
  }

  /** An update applied with validators on: each path the body sets takes
      its setter's (or cast's) value and every other path keeps its value.
      The pre-save hook does not run, so a time changes only when the body
      sets it. */
  function Merge(e: Event, b: EventBody, parseDate: string -> Option<int>): (r: Event)
    requires ValidateUpdate(b, parseDate) == []
    ensures b.title.None? ==> r.title == e.title
    ensures b.title.Some? ==> r.title == Trim(b.title.value) && r.title != ""
    ensures b.date.None? ==> r.date == e.date
    ensures b.date.Some? ==> parseDate(b.date.value) == Some(r.date)
    ensures b.time.None? ==> r.time == e.time
    ensures b.time.Some? ==> r.time == Trim(b.time.value) && r.time != ""
    ensures b.location.None? ==> r.location == e.location
    ensures b.location.Some? ==> r.location == Trim(b.location.value) && r.location != ""
    ensures b.description.None? ==> r.description == e.description
    ensures b.description.Some? ==> r.description == b.description.value && r.description != ""
    ensures b.status.None? ==> r.status == e.status
    ensures b.status.Some? ==> r.status == b.status.value && r.status in Statuses
    ensures r.createdAt == CastDate(b.createdAt, parseDate, e.createdAt)
    ensures r.updatedAt == CastDate(b.updatedAt, parseDate, e.updatedAt)
    ensures Truthy(b.createdAt) ==> r.createdAt.Some?
    ensures Truthy(b.updatedAt) ==> r.updatedAt.Some?
  {
    var u := UpdateOutcomes(b, parseDate);
    ReportedUpdate(b, parseDate, 0); ReportedUpdate(b, parseDate, 1); ReportedUpdate(b, parseDate, 2);
    ReportedUpdate(b, parseDate, 3); ReportedUpdate(b, parseDate, 4); ReportedUpdate(b, parseDate, 5);
    ReportedUpdate(b, parseDate, 6); ReportedUpdate(b, parseDate, 7);
    assert u[0].None? && u[1].None? && u[2].None? && u[3].None? && u[4].None? && u[5].None?;
    assert u[6].None? && u[7].None?;
    Event(
      if b.title.Some? then Trim(b.title.value) else e.title,
      if b.date.Some? then parseDate(b.date.value).value else e.date,
      if b.time.Some? then Trim(b.time.value) else e.time,
      if b.location.Some? then Trim(b.location.value) else e.location,
      if b.description.Some? then b.description.value else e.description,
      if b.status.Some? then b.status.value else e.status,
      CastDate(b.createdAt, parseDate, e.createdAt), CastDate(b.updatedAt, parseDate, e.updatedAt))
  }

  /** Applying an empty update changes nothing. */
  lemma MergeEmpty(e: Event, parseDate: string -> Option<int>)
    ensures ValidateUpdate(EmptyBody, parseDate) == [] && Merge(e, EmptyBody, parseDate) == e
  {
    EmptyUpdateValid(parseDate);
  }
}
