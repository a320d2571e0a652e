/** The public rescue-report form: editing its fields, the image list with
    its per-file size filter, the required-field gate, the urgency-to-tag
    mapping, the multipart payload it sends and what it makes of the reply. */
module RescueTab {
  import opened Common
  import opened Text
  import RescueSchema
  import RescueRoute

  /** The client-side ceiling for one image, in bytes. */
  const MaxImage: nat := 10 * 1024 * 1024

  /** The text inputs of the form, by their `name` attribute. */
  datatype Field = PetType | Location | Description | Urgency | ContactName | ContactPhone | ContactEmail

  datatype RescueForm = RescueForm(
    petType: string,
    location: string,
    description: string,
    urgency: string,
    contactName: string,
    contactPhone: string,
    contactEmail: string,
    images: seq<FileInfo>)

  /** The form as it starts and as a successful submission leaves it. */
  const InitialForm: RescueForm := RescueForm("", "", "", "normal", "", "", "", [])

  function Get(f: RescueForm, field: Field): string {
    match field
    case PetType => f.petType
    case Location => f.location
    case Description => f.description
    case Urgency => f.urgency
    case ContactName => f.contactName
    case ContactPhone => f.contactPhone
    case ContactEmail => f.contactEmail
  }

  /** `{...prev, [name]: value}`: the named field takes the value and every
      other field, and the image list, are kept. */
  function Set(f: RescueForm, field: Field, value: string): (r: RescueForm)
    ensures Get(r, field) == value
    ensures forall g :: g != field ==> Get(r, g) == Get(f, g)
    ensures r.images == f.images
  {
    match field
    case PetType => f.(petType := value)
    case Location => f.(location := value)
    case Description => f.(description := value)
    case Urgency => f.(urgency := value)
    case ContactName => f.(contactName := value)
    case ContactPhone => f.(contactPhone := value)
    case ContactEmail => f.(contactEmail := value)
  }

  /** The files of `files` that are within the client ceiling, in order. */
  function WithinLimit(files: seq<FileInfo>): (r: seq<FileInfo>)
    ensures |r| <= |files|
  {
    if files == [] then []
    else if files[0].size <= MaxImage then [files[0]] + WithinLimit(files[1..])
    else WithinLimit(files[1..])
  }

  /** The filter keeps exactly the files within the ceiling. */
  lemma {:induction false} WithinLimitKeeps(files: seq<FileInfo>, x: FileInfo)
    ensures x in WithinLimit(files) <==> x in files && x.size <= MaxImage
  {
    if files != [] {
      WithinLimitKeeps(files[1..], x);
      assert files == [files[0]] + files[1..];
    }
  }

  /** Filtering keeps the order of what it keeps: filtering a list that
      ends in `x` filters the rest and then keeps or skips `x` by size. */
  lemma {:induction false} WithinLimitSnoc(files: seq<FileInfo>, x: FileInfo)
    ensures WithinLimit(files + [x]) == WithinLimit(files) + (if x.size <= MaxImage then [x] else [])
  {
    if files != [] {
      assert (files + [x])[1..] == files[1..] + [x];
      WithinLimitSnoc(files[1..], x);
    }
  }

  /** A selection with no oversized file is kept whole. */
  lemma {:induction false} WithinLimitAll(files: seq<FileInfo>)
    requires forall k :: 0 <= k < |files| ==> files[k].size <= MaxImage
    ensures WithinLimit(files) == files
  {
    if files != [] {
      WithinLimitAll(files[1..]);
    }
  }

  /** The names of the files skipped for their size, in order: the ones
      the component reports one by one. */
  function Oversized(files: seq<FileInfo>): (r: seq<string>)
    ensures |r| + |WithinLimit(files)| == |files|
  {
    if files == [] then []
    else if files[0].size <= MaxImage then Oversized(files[1..])
    else [files[0].name] + Oversized(files[1..])
  }

  /** `images.filter((_, i) => i !== index)`. */
  function RemoveAt(images: seq<FileInfo>, index: int): (r: seq<FileInfo>)
    ensures 0 <= index < |images| ==> r == images[..index] + images[index + 1..]
    ensures !(0 <= index < |images|) ==> r == images
  {
    if images == [] then []
    else
      var rest := RemoveAt(images[1..], index - 1);
      if index == 0 then
        assert images == [images[0]] + images[1..];
        rest
      else [images[0]] + rest
  }

  /** The tag the server is told, from the urgency choice. */
  function TagFor(urgency: string): (tag: string)
    ensures tag in RescueSchema.Tags
    ensures urgency == "emergency" <==> tag == "Cruelty"
    ensures urgency == "urgent" <==> tag == "Accident"
    ensures urgency != "emergency" && urgency != "urgent" <==> tag == "Neglect"
  {
    if urgency == "emergency" then "Cruelty"
    else if urgency == "urgent" then "Accident"
    else "Neglect"
  }

  /** The multipart body: the six text parts under the server's names, and
      the photo part when there is one. */
  datatype RescuePayload = RescuePayload(
    fullName: string,
    contactNumber: string,
    email: string,
    tag: string,
    concern: string,
    locationNote: string,
    photo: Option<FileInfo>)

  /** The five fields the form insists on. */
  predicate Complete(f: RescueForm) {
    f.contactName != "" && f.contactPhone != "" && f.contactEmail != "" &&
    f.description != "" && f.location != ""
  }

  /** The payload of a complete form: each field renamed, the tag mapped,
      and only the first image attached. */
  function PayloadOf(f: RescueForm): (p: RescuePayload)
    ensures p.fullName == f.contactName && p.contactNumber == f.contactPhone
    ensures p.email == f.contactEmail && p.concern == f.description && p.locationNote == f.location
    ensures p.tag == TagFor(f.urgency)
    ensures p.photo.Some? <==> |f.images| > 0
    ensures p.photo.Some? ==> p.photo.value == f.images[0]
  {
    RescuePayload(f.contactName, f.contactPhone, f.contactEmail, TagFor(f.urgency),
                  f.description, f.location, if |f.images| > 0 then Some(f.images[0]) else None)
  }

  /** What the request came to: a response with its status, body text and,
      when its body parses, the `success` and `requestId` fields; or an
      exception with its name and message. */
  datatype Reply =
    | Responded(ok: bool, status: nat, text: string, success: bool, requestId: Option<string>)
    | Threw(name: string, message: string)

  const GateMessage: string := "Please fill in all required fields."
  const NetworkMessage: string := "Cannot connect to server. Please check if the server is running."
  const RejectedMessage: string := "Failed to submit request. Please try again."

  /** The message a thrown error is shown with. */
  function CatchMessage(name: string, message: string): (m: string)
    ensures name == "TypeError" && Contains(message, "Failed to fetch") ==> m == NetworkMessage
    ensures !(name == "TypeError" && Contains(message, "Failed to fetch")) && Contains(message, "Server returned") ==> m == message
    ensures !(name == "TypeError" && Contains(message, "Failed to fetch")) && !Contains(message, "Server returned") ==>
      m == "Error: " + (if message != "" then message else "Unknown error occurred")
  {
    if name == "TypeError" && Contains(message, "Failed to fetch") then NetworkMessage
    else if Contains(message, "Server returned") then message
    else "Error: " + (if message != "" then message else "Unknown error occurred")
  }

  function HttpErrorMessage(status: nat, text: string): string {
    "Server returned " + NatToString(status) + ": " + text
  }

  lemma HttpErrorShown(status: nat, text: string)
    ensures CatchMessage("Error", HttpErrorMessage(status, text)) == HttpErrorMessage(status, text)
  {
    assert OccursAt(HttpErrorMessage(status, text), "Server returned", 0);
  }

  /** The server's body fields, as sent by the form. */
  function BodyOf(p: RescuePayload): RescueRoute.RescueBody {
    RescueRoute.RescueBody(Some(p.fullName), Some(p.contactNumber), Some(p.email), Some(p.tag),
                           Some(p.concern), Some(p.locationNote))
  }

  class RescueTab {
    var form: RescueForm
    var loading: bool
    var submitted: bool
    var error: Option<string>
    var requestId: Option<string>

    constructor ()
      ensures form == InitialForm && !loading && !submitted && error.None? && requestId.None?
    {
      form := InitialForm;
      loading := false;
      submitted := false;
      error := None;
      requestId := None;
    }

    /** An input changed: only that field of the form changes. */
    method Change(field: Field, value: string)
      modifies this`form
      ensures form == Set(old(form), field, value)
    {
      form := Set(form, field, value);
    }

    /** Files chosen: those within the ceiling are appended after the images
        already there, in the order chosen; the names of the others are
        returned for the alert, and nothing else changes. */
    method UploadImages(files: seq<FileInfo>) returns (skipped: seq<string>)
      modifies this`form
      ensures form == old(form).(images := old(form).images + WithinLimit(files))
      ensures skipped == Oversized(files)
    {
      var kept: seq<FileInfo> := [];
      skipped := [];
      var i := 0;
      while i < |files|
        invariant 0 <= i <= |files|
        invariant kept == WithinLimit(files[..i])
        invariant skipped == Oversized(files[..i])
        invariant form == old(form)
      {
        assert files[..i + 1] == files[..i] + [files[i]];
        WithinLimitSnoc(files[..i], files[i]);
        OversizedSnoc(files[..i], files[i]);
        if files[i].size <= MaxImage {
          kept := kept + [files[i]];
        } else {
          skipped := skipped + [files[i].name];
        }
        i := i + 1;
      }
      assert files[..i] == files;
      form := form.(images := form.images + kept);
    }

    /** The image at `index` is dropped; the others keep their order. */
    method RemoveImage(index: int)
      modifies this`form
      ensures form == old(form).(images := RemoveAt(old(form).images, index))
    {
      form := form.(images := RemoveAt(form.images, index));
    }

    method ClearAllImages()
      modifies this`form
      ensures form == old(form).(images := [])
    {
      form := form.(images := []);
    }

    /** Submitting: an incomplete form is stopped with the gate message and
        nothing is sent; otherwise the payload is sent and `reply` is what
        came of it. `loading` is false again on every exit. */
    method Submit(reply: Reply) returns (sent: Option<RescuePayload>)
      modifies this
      ensures !loading
      ensures !Complete(old(form)) ==>
        sent.None? && error == Some(GateMessage) && form == old(form)
        && submitted == old(submitted) && requestId == old(requestId)
      ensures Complete(old(form)) ==> sent == Some(PayloadOf(old(form)))
      ensures Complete(old(form)) && reply.Responded? && reply.ok && reply.success ==>
        && submitted && requestId == reply.requestId && form == InitialForm && error.None?
      ensures Complete(old(form)) && reply.Responded? && reply.ok && !reply.success ==>
        && error == Some(RejectedMessage) && form == old(form)
        && submitted == old(submitted) && requestId == old(requestId)
      ensures Complete(old(form)) && reply.Responded? && !reply.ok ==>
        && error == Some(HttpErrorMessage(reply.status, reply.text)) && form == old(form)
        && submitted == old(submitted) && requestId == old(requestId)
      ensures Complete(old(form)) && reply.Threw? ==>
        && error == Some(CatchMessage(reply.name, reply.message)) && form == old(form)
        && submitted == old(submitted) && requestId == old(requestId)
    {
      loading := true;
      error := None;
      if !Complete(form) {
        error := Some(GateMessage);
        loading := false;
        return None;
      }
      sent := Some(PayloadOf(form));
      match reply {
        case Responded(ok, status, text, success, id) =>
          if !ok {
            HttpErrorShown(status, text);
            error := Some(CatchMessage("Error", HttpErrorMessage(status, text)));
          } else if success {
            submitted := true;
            requestId := id;
            form := InitialForm;
          } else {
            error := Some(RejectedMessage);
          }
        case Threw(name, message) =>
          error := Some(CatchMessage(name, message));
      }
      loading := false;
    }
  }

  lemma {:induction false} OversizedSnoc(files: seq<FileInfo>, x: FileInfo)
    ensures Oversized(files + [x]) == Oversized(files) + (if x.size <= MaxImage then [] else [x.name])
  {
    if files != [] {
      assert (files + [x])[1..] == files[1..] + [x];
      OversizedSnoc(files[1..], x);
    }
  }

  /** Whatever the urgency, the tag the form sends passes the server's tag
      check. */
  lemma SentTagAccepted(f: RescueForm, file: Option<RescueRoute.StoredFile>)
    ensures MessageFor(RescueSchema.Validate(RescueRoute.Intake(BodyOf(PayloadOf(f)), file)), "tag").None?
  {
    RescueRoute.IntakeTagNeverMissing(BodyOf(PayloadOf(f)), file);
  }

  /** The two ceilings differ: an image of 6 MB passes the form's filter and
      is refused by the server's upload limit. */
  lemma ClientLimitAboveServer()
    ensures var f := FileInfo("dog.jpg", "image/jpeg", 6 * 1024 * 1024);
      WithinLimit([f]) == [f] && RescueRoute.Screen(f) == RescueRoute.TooLarge
  {
    var f := FileInfo("dog.jpg", "image/jpeg", 6 * 1024 * 1024);
    assert "image/jpeg"[..6] == "image/";
  }

  /** The form's gate is weaker than the server's check: a name of spaces
      passes the form and is rejected by the schema. */
  lemma GateWeakerThanSchema(f: RescueForm, file: Option<RescueRoute.StoredFile>)
    requires Complete(f) && f.contactName == " "
    ensures MessageFor(RescueSchema.Validate(RescueRoute.Intake(BodyOf(PayloadOf(f)), file)), "fullName")
      == Some("Name is required")
  {
    RescueSchema.FullNameRule(RescueRoute.Intake(BodyOf(PayloadOf(f)), file));
  }
}
