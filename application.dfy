/** The adoption `Application` document schema: five required string paths,
    two optional ones, and the creation and update times the `timestamps`
    option keeps. Dates are integer timestamps; turning submitted date text
    into one is the parameter `parseDate`. */
module ApplicationSchema {
  import opened Common

  /** The validated paths, in the schema's order: the five required ones,
      then the two times the `timestamps` option adds. */
  const PathNames: seq<string> := ["name", "contact", "address", "petType", "reason", "createdAt", "updatedAt"]

  /** The paths a body may give; `None` is a path the body does not mention.
      The whole request body is handed to the model, so it may name the
      times too. */
  datatype ApplicationBody = ApplicationBody(
    name: Option<string>,
    contact: Option<string>,
    address: Option<string>,
    petType: Option<string>,
    reason: Option<string>,
    experience: Option<string>,
    notes: Option<string>,
    createdAt: Option<string>,
    updatedAt: Option<string>)

  /** A stored application. */
  datatype Application = Application(
    name: string,
    contact: string,
    address: string,
    petType: string,
    reason: string,
    experience: Option<string>,
    notes: Option<string>,
    createdAt: int,
    updatedAt: int)

  /** Mongoose's default message for a failed `required` validator. */
  function RequiredMessage(path: string): string {
    "Path `" + path + "` is required."
  }

  /** The required path at position `k` of `PathNames`. */
  function Get(b: ApplicationBody, k: nat): Option<string>
    requires k < 5
  {
    match k
    case 0 => b.name
    case 1 => b.contact
    case 2 => b.address
    case 3 => b.petType
    case _ => b.reason
  }

  /** The outcome of each validated path, in the schema's order: the
      `required` validators, then the casts of the two times. */
  function Outcomes(b: ApplicationBody, parseDate: string -> Option<int>): (r: seq<Option<string>>)
    ensures |r| == 7
  {
    [RequiredFailure(b.name, RequiredMessage("name")),
     RequiredFailure(b.contact, RequiredMessage("contact")),
     RequiredFailure(b.address, RequiredMessage("address")),
     RequiredFailure(b.petType, RequiredMessage("petType")),
     RequiredFailure(b.reason, RequiredMessage("reason")),
     DateCastFailure("createdAt", b.createdAt, parseDate),
     DateCastFailure("updatedAt", b.updatedAt, parseDate)]
  }

  lemma PathNamesDistinct()
    ensures forall i, j :: 0 <= i < j < |PathNames| ==> PathNames[i] != PathNames[j]
  {
  }

  /** The validation error's entries: one per failing path, in order. */
  function Validate(b: ApplicationBody, parseDate: string -> Option<int>): (errs: seq<FieldError>)
    ensures OnePerPath(errs)
  {
    var checks := Zip(PathNames, Outcomes(b, parseDate));
    PathNamesDistinct();
    DistinctByNames(checks, PathNames);
    CollectOnePerPath(checks);
    Collect(checks)
  }

  /** Each validated path is reported with its own outcome. */
  lemma Reported(b: ApplicationBody, parseDate: string -> Option<int>, k: nat)
    requires k < 7
    ensures MessageFor(Validate(b, parseDate), PathNames[k]) == Outcomes(b, parseDate)[k]
  {
    var checks := Zip(PathNames, Outcomes(b, parseDate));
    PathNamesDistinct();
    DistinctByNames(checks, PathNames);
    CollectMessage(checks, k);
  }

  /** A required path is reported, with Mongoose's message, exactly when
      the body leaves it missing or empty. */
  lemma RequiredRules(b: ApplicationBody, parseDate: string -> Option<int>, k: nat)
    requires k < 5
    ensures MessageFor(Validate(b, parseDate), PathNames[k]) ==
      if Truthy(Get(b, k)) then None else Some(RequiredMessage(PathNames[k]))
  {
    Reported(b, parseDate, k);
  }

  /** A sent time is refused exactly when it is non-empty text that does
      not parse. */
  lemma TimeRules(b: ApplicationBody, parseDate: string -> Option<int>)
    ensures MessageFor(Validate(b, parseDate), "createdAt").Some? <==>
      Truthy(b.createdAt) && parseDate(b.createdAt.value).None?
    ensures MessageFor(Validate(b, parseDate), "updatedAt").Some? <==>
      Truthy(b.updatedAt) && parseDate(b.updatedAt.value).None?
  {
    Reported(b, parseDate, 5);
    Reported(b, parseDate, 6);
  }

  /** The optional paths are never reported, whatever they hold. */
  lemma OptionalNeverReported(b: ApplicationBody, parseDate: string -> Option<int>)
    ensures MessageFor(Validate(b, parseDate), "experience") == None
    ensures MessageFor(Validate(b, parseDate), "notes") == None
  {
    var checks := Zip(PathNames, Outcomes(b, parseDate));
    UnnamedByNames(checks, PathNames, "experience");
    CollectUnnamed(checks, "experience");
    UnnamedByNames(checks, PathNames, "notes");
    CollectUnnamed(checks, "notes");
  }

  /** A body validates exactly when every required path is present and
      non-empty and each time it sends as text parses. */
  lemma ValidIff(b: ApplicationBody, parseDate: string -> Option<int>)
    ensures Validate(b, parseDate) == [] <==>
      && Truthy(b.name) && Truthy(b.contact) && Truthy(b.address) && Truthy(b.petType) && Truthy(b.reason)
      && (Truthy(b.createdAt) ==> parseDate(b.createdAt.value).Some?)
      && (Truthy(b.updatedAt) ==> parseDate(b.updatedAt.value).Some?)
  {
    var checks := Zip(PathNames, Outcomes(b, parseDate));
    assert Validate(b, parseDate) == Collect(checks);
    CollectEmpty(checks);
    var o := Outcomes(b, parseDate);
    assert checks[0].1 == o[0] && checks[1].1 == o[1] && checks[2].1 == o[2];
    assert checks[3].1 == o[3] && checks[4].1 == o[4] && checks[5].1 == o[5] && checks[6].1 == o[6];
  }

  /** Unlike the trimmed schemas, a name of white space alone is accepted. */
  lemma BlankNameAccepted(b: ApplicationBody, parseDate: string -> Option<int>)
    requires b.name == Some(" ")
    ensures MessageFor(Validate(b, parseDate), "name") == None
  {
    Reported(b, parseDate, 0);
  }

  /** Saving a new document: the body's values, or the failures. The
      `timestamps` option keeps a creation time the body sends (an empty
      one is null, which it replaces by `now`), and on a new document sets
      the update time to the creation time, whatever the body sent. */
  function Build(b: ApplicationBody, parseDate: string -> Option<int>, now: int): (r: Result<Application, seq<FieldError>>)
    ensures r.Ok? <==> Validate(b, parseDate) == []
    ensures r.Err? ==> r.error == Validate(b, parseDate)
    ensures r.Ok? ==>
      && Some(r.value.name) == b.name && r.value.name != ""
      && Some(r.value.contact) == b.contact && r.value.contact != ""
      && Some(r.value.address) == b.address && r.value.address != ""
      && Some(r.value.petType) == b.petType && r.value.petType != ""
      && Some(r.value.reason) == b.reason && r.value.reason != ""
      && r.value.experience == b.experience && r.value.notes == b.notes
      && (Truthy(b.createdAt) ==> parseDate(b.createdAt.value) == Some(r.value.createdAt))
      && (!Truthy(b.createdAt) ==> r.value.createdAt == now)
      && r.value.updatedAt == r.value.createdAt
  {
    var errs := Validate(b, parseDate);
    ValidIff(b, parseDate);
    if errs != [] then Err(errs)
    else
      var created := if Truthy(b.createdAt) then parseDate(b.createdAt.value).value else now;
      Ok(Application(b.name.value, b.contact.value, b.address.value, b.petType.value,
                     b.reason.value, b.experience, b.notes, created, created))
  }

  /** A later save of a modified document: the update time becomes `now`,
      nothing else changes. A save that modifies nothing leaves the
      document as it was and is not a `Touch`. */
  function Touch(a: Application, now: int): (r: Application)
    ensures r.updatedAt == now
    ensures r.(updatedAt := a.updatedAt) == a
  {
    a.(updatedAt := now)
  }

  /** A document modified and saved any number of times, each time no
      earlier than its creation time, keeps that creation time and was never updated before
      it. */
  lemma {:induction false} TimesOrdered(a: Application, saves: seq<int>)
    requires a.createdAt <= a.updatedAt
    requires forall i :: 0 <= i < |saves| ==> a.createdAt <= saves[i]
    ensures Saved(a, saves).createdAt == a.createdAt
    ensures Saved(a, saves).createdAt <= Saved(a, saves).updatedAt
  {
    if saves != [] {
      TimesOrdered(a, saves[..|saves| - 1]);
    }
  }

  /** A body without a creation time, built and then saved under a clock
      that does not run backwards, keeps its times in order. */
  lemma OmittedCreationTimeOrdered(b: ApplicationBody, parseDate: string -> Option<int>, now: int, saves: seq<int>)
    requires Build(b, parseDate, now).Ok? && !Truthy(b.createdAt)
    requires forall i :: 0 <= i < |saves| ==> now <= saves[i]
    ensures var a := Saved(Build(b, parseDate, now).value, saves);
      a.createdAt == now && a.createdAt <= a.updatedAt
  {
    TimesOrdered(Build(b, parseDate, now).value, saves);
  }

  /** A body that sends a creation time later than a following save leaves
      the document updated before it was created. */
  lemma SentCreationTimeOutOfOrder(b: ApplicationBody, parseDate: string -> Option<int>, now: int, save: int)
    requires Build(b, parseDate, now).Ok? && Truthy(b.createdAt)
    requires parseDate(b.createdAt.value).Some? && save < parseDate(b.createdAt.value).value
    ensures var a := Saved(Build(b, parseDate, now).value, [save]);
      a.updatedAt < a.createdAt
  {
    assert [save][..0] == [];
  }

  /** The document after one modifying save per clock reading in `saves`. */
  function Saved(a: Application, saves: seq<int>): Application {
    if saves == [] then a else Touch(Saved(a, saves[..|saves| - 1]), saves[|saves| - 1])
  }
}
