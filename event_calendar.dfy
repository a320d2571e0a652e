/** The admin calendar: one form shared by "add" and "edit", a delete
    confirmation, and the list refreshed after every change. Calls to the
    events endpoints are abstract: whether a call succeeded is an input,
    and the call that would be made is an output. */
module EventCalendar {
  import opened Common
  import opened Text
  import opened Store
  import opened EventSchema
  import opened PublicEvents

  const SaveFailedMessage: string := "Failed to save event. Please try again."
  const DeleteFailedMessage: string := "Failed to delete event. Please try again."
  const UpdatedMessage: string := "Event updated successfully!"
  const CreatedMessage: string := "Event created successfully!"
  const DeletedMessage: string := "Event deleted successfully!"

  /** The form's controls, each named after the path it edits. */
  datatype FormField = Title | Date | Time | Location | Description | Status

  datatype EventForm = EventForm(
    title: string,
    date: string,
    time: string,
    location: string,
    description: string,
    status: string)

  const BlankForm: EventForm := EventForm("", "", "", "", "", "pending")

  function Get(f: EventForm, field: FormField): string {
    match field
    case Title => f.title
    case Date => f.date
    case Time => f.time
    case Location => f.location
    case Description => f.description
    case Status => f.status
  }

  /** `{...formData, [name]: value}`. */
  function Set(f: EventForm, field: FormField, value: string): (r: EventForm)
    ensures Get(r, field) == value
    ensures forall other :: other != field ==> Get(r, other) == Get(f, other)
  {
    match field
    case Title => f.(title := value)
    case Date => f.(date := value)
    case Time => f.(time := value)
    case Location => f.(location := value)
    case Description => f.(description := value)
    case Status => f.(status := value)
  }

  /** The form filled from a stored event; the date is shown as the
      `yyyy-MM-dd` text of its timestamp. */
  function EditForm(e: Event, formattedDate: string): (r: EventForm)
    ensures r.date == formattedDate
    ensures r.(date := "") == EventForm(e.title, "", e.time, e.location, e.description, e.status)
  {
    EventForm(e.title, formattedDate, e.time, e.location, e.description, e.status)
  }

  /** The request body a form becomes: every control present, and neither
      time, which the form does not hold. */
  function BodyOf(f: EventForm): (b: EventBody)
    ensures b.title == Some(f.title) && b.date == Some(f.date) && b.time == Some(f.time)
    ensures b.location == Some(f.location) && b.description == Some(f.description)
    ensures b.status == Some(f.status)
    ensures b.createdAt.None? && b.updatedAt.None?
  {
    EventBody(Some(f.title), Some(f.date), Some(f.time), Some(f.location), Some(f.description), Some(f.status),
              None, None)
  }

  /** The endpoint the submit button calls. */
  datatype SaveCall = UpdateCall(id: Id, form: EventForm) | CreateCall(form: EventForm)

  class Calendar {
    var events: seq<Entry<Event>>
    var loading: bool
    var error: Option<string>
    var showModal: bool
    var currentEvent: Option<Entry<Event>>
    var showDeleteModal: bool
    var eventToDelete: Option<Entry<Event>>
    var successMessage: string
    var form: EventForm

    constructor ()
      ensures events == [] && loading && error.None? && !showModal && currentEvent.None?
      ensures !showDeleteModal && eventToDelete.None? && successMessage == "" && form == BlankForm
    {
      events := [];
      loading := true;
      error := None;
      showModal := false;
      currentEvent := None;
      showDeleteModal := false;
      eventToDelete := None;
      successMessage := "";
      form := BlankForm;
    }

    /** The list fetch settling: an array replaces the list as it came, any
        other value empties it with an error, a thrown error keeps it. */
    method FetchSettled(f: Fetched)
      modifies this`events, this`error, this`loading
      ensures !loading
      ensures f.Items? ==> events == f.items && error.None?
      ensures f.NotAList? ==> events == [] && error == Some(InvalidFormatMessage)
      ensures f.Threw? ==>
        && events == old(events)
        && error == Some("Failed to load events: " + OrElse(f.message, "Unknown error"))
    {
      match f {
        case Items(items) =>
          events := items;
          error := None;
        case NotAList =>
          events := [];
          error := Some(InvalidFormatMessage);
        case Threw(m) =>
          error := Some("Failed to load events: " + OrElse(m, "Unknown error"));
      }
      loading := false;
    }

    /** `handleInputChange`: only the named control changes. */
    method InputChange(field: FormField, value: string)
      modifies this`form
      ensures form == Set(old(form), field, value)
    {
      form := Set(form, field, value);
    }

    /** `handleAddEvent`: a blank form, not tied to any event. */
    method AddEvent()
      modifies this`currentEvent, this`form, this`showModal
      ensures currentEvent.None? && form == BlankForm && showModal
    {
      currentEvent := None;
      form := BlankForm;
      showModal := true;
    }

    /** `handleEditEvent`: the form holds the chosen event's values and the
        event becomes the one being edited. */
    method EditEvent(ev: Entry<Event>, formattedDate: string)
      modifies this`currentEvent, this`form, this`showModal
      ensures currentEvent == Some(ev) && form == EditForm(ev.doc, formattedDate) && showModal
    {
      currentEvent := Some(ev);
      form := EditForm(ev.doc, formattedDate);
      showModal := true;
    }

    /** `handleDeleteClick`. */
    method DeleteClick(ev: Entry<Event>)
      modifies this`eventToDelete, this`showDeleteModal
      ensures eventToDelete == Some(ev) && showDeleteModal
    {
      eventToDelete := Some(ev);
      showDeleteModal := true;
    }

    /** `handleSubmit`: update when an event is being edited, create
        otherwise; `ok` says whether that call succeeded. On success the
        modal closes and the list is fetched again; on failure the error is
        set and the modal stays as it was. */
    method Submit(ok: bool) returns (call: SaveCall, refetch: bool)
      modifies this`successMessage, this`showModal, this`error
      ensures call == if currentEvent.Some? then UpdateCall(currentEvent.value.id, form) else CreateCall(form)
      ensures refetch == ok
      ensures ok ==> && successMessage == (if currentEvent.Some? then UpdatedMessage else CreatedMessage)
                     && !showModal && error == old(error)
      ensures !ok ==> && error == Some(SaveFailedMessage)
                      && showModal == old(showModal) && successMessage == old(successMessage)
    {
      if currentEvent.Some? {
        call := UpdateCall(currentEvent.value.id, form);
      } else {
        call := CreateCall(form);
      }
      if ok {
        successMessage := if call.UpdateCall? then UpdatedMessage else CreatedMessage;
        showModal := false;
        refetch := true;
      } else {
        error := Some(SaveFailedMessage);
        refetch := false;
      }
    }

    /** `handleDeleteConfirm`: deletes the chosen event. With no chosen event
        the id lookup throws before any call, which lands in the same error
        as a failed call. */
    method DeleteConfirm(ok: bool) returns (call: Option<Id>, refetch: bool)
      modifies this`successMessage, this`showDeleteModal, this`error
      ensures call == if eventToDelete.Some? then Some(eventToDelete.value.id) else None
      ensures refetch <==> call.Some? && ok
      ensures refetch ==> successMessage == DeletedMessage && !showDeleteModal && error == old(error)
      ensures !refetch ==> && error == Some(DeleteFailedMessage)
                           && showDeleteModal == old(showDeleteModal) && successMessage == old(successMessage)
    {
      if eventToDelete.None? {
        call := None;
        error := Some(DeleteFailedMessage);
        refetch := false;
        return;
      }
      call := Some(eventToDelete.value.id);
      if ok {
        successMessage := DeletedMessage;
        showDeleteModal := false;
        refetch := true;
      } else {
        error := Some(DeleteFailedMessage);
        refetch := false;
      }
    }
  }

  /** An event as the schema stores it: trimmed, non-empty text paths and a
      listed status. */
  predicate Normalised(e: Event) {
    && e.title == Trim(e.title) && e.title != ""
    && e.time == Trim(e.time) && e.time != ""
    && e.location == Trim(e.location) && e.location != ""
    && e.description != ""
    && e.status in Statuses
  }

  /** Saving an edit form left untouched passes the update validators and
      gives back the stored event, provided the shown date parses back to
      the stored timestamp. */
  lemma UntouchedEditKeepsEvent(e: Event, formattedDate: string, parseDate: string -> Option<int>)
    requires Normalised(e)
    requires formattedDate != "" && parseDate(formattedDate) == Some(e.date)
    ensures var b := BodyOf(EditForm(e, formattedDate));
      ValidateUpdate(b, parseDate) == [] && Merge(e, b, parseDate) == e
  {
    var b := BodyOf(EditForm(e, formattedDate));
    var u := UpdateOutcomes(b, parseDate);
    assert u[0].None? && u[1].None? && u[2].None? && u[3].None? && u[4].None? && u[5].None?;
    assert u[6].None? && u[7].None?;
    CollectEmpty(Zip(PathNames, u));
  }

  /** The blank form of "add", sent unchanged, is refused on its title. */
  lemma BlankFormRefused(parseDate: string -> Option<int>)
    ensures MessageFor(Validate(BodyOf(BlankForm), parseDate), "title") == Some("Event title is required")
  {
    Reported(BodyOf(BlankForm), parseDate, 0);
    assert Trim("") == "";
  }
}
