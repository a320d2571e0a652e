/** The admin "Pet Report Form": five text controls, a date, an optional
    image, four error flags, and the submit that validates, sends a
    multipart body and resets. The date's `yyyy-MM-dd` text and the call's
    result are inputs. */
module AnimalReportForm {
  import opened Common
  import opened Text
  import opened AnimalsRoute

  const FailedMessage: string := "Failed to submit form. Please try again."

  datatype ReportForm = ReportForm(
    date: int,
    name: string,
    breed: string,
    address: string,
    reporter: string,
    remarks: string,
    image: Option<FileInfo>)

  /** The form as it first appears, dated `today`. */
  function InitialForm(today: int): ReportForm {
    ReportForm(today, "", "", "", "", "", None)
  }

  datatype Flags = Flags(name: bool, breed: bool, address: bool, reporter: bool)

  const NoFlags: Flags := Flags(false, false, false, false)

  /** `validateForm`'s flags: three fields must have something other than
      white space (the source tests `trim() === ''`, which `FlagRules` shows
      is the same), the breed must be chosen. */
  function FlagsOf(f: ReportForm): Flags {
    Flags(AllSpace(f.name), f.breed == "", AllSpace(f.address), AllSpace(f.reporter))
  }

  predicate Passes(f: ReportForm) {
    FlagsOf(f) == NoFlags
  }

  /** A field is flagged exactly when it is empty after trimming; the breed
      only when it is the empty string; and the form passes exactly when no
      flag is raised. */
  lemma FlagRules(f: ReportForm)
    ensures FlagsOf(f).name <==> Trim(f.name) == ""
    ensures FlagsOf(f).address <==> Trim(f.address) == ""
    ensures FlagsOf(f).reporter <==> Trim(f.reporter) == ""
    ensures FlagsOf(f).breed <==> f.breed == ""
    ensures Passes(f) <==> Trim(f.name) != "" && f.breed != "" && Trim(f.address) != "" && Trim(f.reporter) != ""
  {
    TrimEmptyIff(f.name);
    TrimEmptyIff(f.address);
    TrimEmptyIff(f.reporter);
  }

  /** The blank form never passes. */
  lemma InitialFormFails(today: int)
    ensures FlagsOf(InitialForm(today)) == Flags(true, true, true, true)
  {
  }

  /** The controls `handleChange` serves. */
  datatype TextField = Name | Breed | Address | Reporter | Remarks

  function Get(f: ReportForm, field: TextField): string {
    match field
    case Name => f.name
    case Breed => f.breed
    case Address => f.address
    case Reporter => f.reporter
    case Remarks => f.remarks
  }

  function Set(f: ReportForm, field: TextField, value: string): (r: ReportForm)
    ensures Get(r, field) == value
    ensures forall other :: other != field ==> Get(r, other) == Get(f, other)
    ensures r.date == f.date && r.image == f.image
  {
    match field
    case Name => f.(name := value)
    case Breed => f.(breed := value)
    case Address => f.(address := value)
    case Reporter => f.(reporter := value)
    case Remarks => f.(remarks := value)
  }

  /** The flags with that field's flag lowered; the remarks have none. */
  function Cleared(e: Flags, field: TextField): (r: Flags)
    ensures field == Name ==> r == e.(name := false)
    ensures field == Breed ==> r == e.(breed := false)
    ensures field == Address ==> r == e.(address := false)
    ensures field == Reporter ==> r == e.(reporter := false)
    ensures field == Remarks ==> r == e
  {
    match field
    case Name => e.(name := false)
    case Breed => e.(breed := false)
    case Address => e.(address := false)
    case Reporter => e.(reporter := false)
    case Remarks => e
  }

  /** The multipart body: six text parts in this order, then the image if
      one is chosen. */
  datatype Payload = Payload(parts: seq<(string, string)>, image: Option<FileInfo>)

  function PayloadOf(f: ReportForm, formattedDate: string): (p: Payload)
    ensures |p.parts| == 6
    ensures p.image == f.image
  {
    Payload([("date", formattedDate), ("name", f.name), ("breed", f.breed), ("address", f.address),
             ("reporter", f.reporter), ("remarks", f.remarks)], f.image)
  }

  /** The text parts as the server reads them. */
  function BodyOf(p: Payload): Body
    requires |p.parts| == 6
  {
    map[p.parts[0].0 := p.parts[0].1, p.parts[1].0 := p.parts[1].1, p.parts[2].0 := p.parts[2].1,
        p.parts[3].0 := p.parts[3].1, p.parts[4].0 := p.parts[4].1, p.parts[5].0 := p.parts[5].1]
  }

  /** What the server stores from a sent form: every field as typed, and an
      image address exactly when an image was chosen. */
  lemma SentFormStored(f: ReportForm, formattedDate: string, now: nat)
    ensures var p := PayloadOf(f, formattedDate);
      var filename := if p.image.Some? then Some(UploadName(now, p.image.value.name)) else None;
      var a := NewAnimal(BodyOf(p), filename);
      && a.date == Some(formattedDate) && a.name == Some(f.name) && a.breed == Some(f.breed)
      && a.address == Some(f.address) && a.reporter == Some(f.reporter) && a.remarks == Some(f.remarks)
      && (a.imageUrl != "" <==> f.image.Some?)
  {
  }

  /** How the create call ended: stored, or refused with the server's
      `message` if the response had one. */
  datatype SubmitOutcome = Stored | Refused(serverMessage: Option<string>)

  class ReportFormState {
    var form: ReportForm
    var errors: Flags
    var isSubmitting: bool
    var submitSuccess: bool
    var submitError: string

    constructor (today: int)
      ensures form == InitialForm(today) && errors == NoFlags
      ensures !isSubmitting && !submitSuccess && submitError == ""
    {
      form := InitialForm(today);
      errors := NoFlags;
      isSubmitting := false;
      submitSuccess := false;
      submitError := "";
    }

    /** `handleChange`: the named field takes the value and only its own
        flag is lowered. */
    method Change(field: TextField, value: string)
      modifies this`form, this`errors
      ensures form == Set(old(form), field, value)
      ensures errors == Cleared(old(errors), field)
    {
      form := Set(form, field, value);
      errors := Cleared(errors, field);
    }

    /** `handleFileChange`: the first selected file, or none. */
    method ChooseImage(files: seq<FileInfo>)
      modifies this`form
      ensures form == old(form).(image := if files == [] then None else Some(files[0]))
    {
      form := form.(image := if files == [] then None else Some(files[0]));
    }

    /** `handleDateChange`. */
    method ChooseDate(date: int)
      modifies this`form
      ensures form == old(form).(date := date)
    {
      form := form.(date := date);
    }

    /** `handleSubmit`. The flags are always recomputed; a form that does not
        pass sends nothing and changes nothing else. `hasOnSuccess` says
        whether the `onSuccess` prop is a function. */
    method Submit(formattedDate: string, today: int, outcome: SubmitOutcome, hasOnSuccess: bool)
      returns (sent: Option<Payload>, calledOnSuccess: bool)
      modifies this
      ensures errors == FlagsOf(old(form))
      ensures sent.Some? <==> Passes(old(form))
      ensures !Passes(old(form)) ==>
        && form == old(form) && isSubmitting == old(isSubmitting)
        && submitSuccess == old(submitSuccess) && submitError == old(submitError) && !calledOnSuccess
      ensures Passes(old(form)) ==> sent == Some(PayloadOf(old(form), formattedDate)) && !isSubmitting
      ensures Passes(old(form)) && outcome.Stored? ==>
        && form == InitialForm(today) && submitSuccess && submitError == ""
        && calledOnSuccess == hasOnSuccess
      ensures Passes(old(form)) && outcome.Refused? ==>
        && form == old(form) && !submitSuccess && !calledOnSuccess
        && submitError == OrElse(outcome.serverMessage, FailedMessage)
    {
      errors := FlagsOf(form);
      if !Passes(form) {
        return None, false;
      }
      isSubmitting := true;
      submitError := "";
      submitSuccess := false;
      sent := Some(PayloadOf(form, formattedDate));
      match outcome {
        case Stored =>
          form := InitialForm(today);
          submitSuccess := true;
          calledOnSuccess := hasOnSuccess;
        case Refused(m) =>
          submitError := OrElse(m, FailedMessage);
          calledOnSuccess := false;
      }
      isSubmitting := false;
    }
  }
}
