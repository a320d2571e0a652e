/** The events endpoints over the event collection: the date-ordered list,
    lookup, creation with validation and the pre-save hook, partial update
    with validators on, and deletion. */
module EventsRoute {
  import opened Common
  import opened Sorting
  import opened Store
  import opened EventSchema

  const NotFoundMessage: string := "Event not found"
  const ListFailedMessage: string := "Failed to fetch events"

  /** The sort key of `sort({date: 1})`. */
  function ByDate(e: Entry<Event>): int {
    e.doc.date
  }

  /** GET /:id reply: the event, 404, or the 500 of a lookup that throws. */
  datatype GetReply = Found(event: Entry<Event>) | Missing | GetFailed

  /** POST reply: 201 with the saved event, or 400 with whatever made the
      save fail (field errors, or none for a store fault). */
  datatype CreateReply = Created(event: Entry<Event>) | CreateFailed(errors: seq<FieldError>)

  /** PUT reply: the updated event, 400 for an update that fails its
      validators, 404, or the 400 of an update that throws otherwise. */
  datatype UpdateReply =
    | Updated(event: Entry<Event>)
    | UpdateInvalid(errors: seq<FieldError>)
    | UpdateMissing
    | UpdateFailed

  /** DELETE reply: done, 404, or the 500 of a delete that throws. */
  datatype DeleteReply = Deleted | DeleteMissing | DeleteFailed

  function GetStatus(r: GetReply): nat {
    match r
    case Found(_) => 200
    case Missing => 404
    case GetFailed => 500
  }

  function CreateStatus(r: CreateReply): nat {
    if r.Created? then 201 else 400
  }

  function UpdateStatus(r: UpdateReply): nat {
    match r
    case Updated(_) => 200
    case UpdateInvalid(_) => 400
    case UpdateMissing => 404
    case UpdateFailed => 400
  }

  function DeleteMessage(r: DeleteReply): string {
    match r
    case Deleted => "Event deleted successfully"
    case DeleteMissing => NotFoundMessage
    case DeleteFailed => "Failed to delete event"
  }

  /** Every stored event was last updated no earlier than it was created.
      The schema does not keep this: a body may set either time. */
  ghost predicate TimesOrdered(docs: map<Id, Event>) {
    forall id :: id in docs ==> TimesInOrder(docs[id])
  }

  /** Storing an event whose times are in order keeps the collection's
      times in order. */
  lemma InsertKeepsTimes(t: Table<Event>, e: Event)
    requires t.Valid() && TimesOrdered(t.docs) && TimesInOrder(e)
    ensures TimesOrdered(Insert(t, e).0.docs)
  {
  }

  class EventsRouter {
    var events: Table<Event>

    ghost predicate Valid()
      reads this
    {
      events.Valid()
    }

    constructor ()
      ensures Valid() && events.docs == map[]
    {
      events := Empty();
    }

    /** GET /: every event, in non-decreasing date order. `fails` stands
        for a store fault, answered with 500. */
    method List(fails: bool) returns (r: Result<seq<Entry<Event>>, string>)
      requires Valid()
      ensures r.Err? <==> fails
      ensures r.Err? ==> r.error == ListFailedMessage
      ensures r.Ok? ==> SortedBy(r.value, ByDate)
      ensures r.Ok? ==> multiset(r.value) == multiset(Entries(events))
      ensures r.Ok? ==> forall k :: 0 <= k < |r.value| ==>
        r.value[k].id in events.docs && r.value[k].doc == events.docs[r.value[k].id]
    {
      if fails {
        return Err(ListFailedMessage);
      }
      var all := Entries(events);
      var rs := SortBy(all, ByDate);
      forall k | 0 <= k < |rs|
        ensures rs[k].id in events.docs && rs[k].doc == events.docs[rs[k].id]
      {
        assert rs[k] in multiset(all);
        var j :| 0 <= j < |all| && all[j] == rs[k];
      }
      r := Ok(rs);
    }

    /** GET /:id. `fails` stands for an id that does not cast or a store
        fault, answered with 500. */
    method Get(id: Id, fails: bool) returns (r: GetReply)
      requires Valid()
      ensures r.GetFailed? <==> fails
      ensures r.Found? <==> !fails && id in events.docs
      ensures r.Found? ==> r.event == Entry(id, events.docs[id])
    {
      if fails {
        r := GetFailed;
      } else if id in events.docs {
        r := Found(Entry(id, events.docs[id]));
      } else {
        r := Missing;
      }
    }

    /** POST /: validate, run the pre-save hook, store. The defaults read
        the clock at `created`, when the document is built, and the hook
        reads it again at `hooked`, no earlier. `saveFails` stands for a
        store fault after validation. */
    method Create(body: EventBody, parseDate: string -> Option<int>, created: int, hooked: int, saveFails: bool)
      returns (r: CreateReply)
      requires Valid()
      requires created <= hooked
      modifies this
      ensures Valid()
      ensures Build(body, parseDate, created).Err? ==>
        r == CreateFailed(Validate(body, parseDate)) && events == old(events)
      ensures Build(body, parseDate, created).Ok? && saveFails ==>
        r == CreateFailed([]) && events == old(events)
      ensures Build(body, parseDate, created).Ok? && !saveFails ==>
        var saved := Touch(Build(body, parseDate, created).value, hooked);
        && r.Created? && r.event.doc == saved
        && r.event.id !in old(events.docs)
        && events == Insert(old(events), saved).0
        && events.docs == old(events.docs)[r.event.id := saved]
      ensures r.Created? && body.createdAt.None? ==> TimesInOrder(r.event.doc)
      ensures r.Created? && body.createdAt.None? && TimesOrdered(old(events.docs)) ==> TimesOrdered(events.docs)
    {
      var built := Build(body, parseDate, created);
      if built.Err? {
        return CreateFailed(built.error);
      }
      if saveFails {
        return CreateFailed([]);
      }
      var saved := Touch(built.value, hooked);
      var (t, id) := Insert(events, saved);
      if body.createdAt.None? {
        OmittedCreationTimeInOrder(body, parseDate, created, hooked);
        if TimesOrdered(events.docs) {
          InsertKeepsTimes(events, saved);
        }
      }
      events := t;
      r := Created(Entry(id, saved));
    }

    /** PUT /:id: the update is validated first, then applied to the stored
        event; the pre-save hook does not run, so `updatedAt` is kept unless
        the body itself sets it. `fails` stands for an id that does not
        cast, which the query refuses before it validates, or a store
        fault; either is answered with 400. */
    method Update(id: Id, body: EventBody, parseDate: string -> Option<int>, fails: bool) returns (r: UpdateReply)
      requires Valid()
      modifies this
      ensures Valid()
      ensures fails <==> r == UpdateFailed
      ensures fails ==> events == old(events)
      ensures !fails && ValidateUpdate(body, parseDate) != [] ==>
        r == UpdateInvalid(ValidateUpdate(body, parseDate)) && events == old(events)
      ensures !fails && ValidateUpdate(body, parseDate) == [] && id !in old(events.docs) ==>
        r == UpdateMissing && events == old(events)
      ensures !fails && ValidateUpdate(body, parseDate) == [] && id in old(events.docs) ==>
        var merged := Merge(old(events.docs)[id], body, parseDate);
        && r == Updated(Entry(id, merged))
        && (body.updatedAt.None? ==> merged.updatedAt == old(events.docs)[id].updatedAt)
        && (body.createdAt.None? ==> merged.createdAt == old(events.docs)[id].createdAt)
        && events.docs == old(events.docs)[id := merged]
        && events.order == old(events.order)
    {
      if fails {
        return UpdateFailed;
      }
      var errs := ValidateUpdate(body, parseDate);
      if errs != [] {
        return UpdateInvalid(errs);
      }
      if id !in events.docs {
        return UpdateMissing;
      }
      var merged := Merge(events.docs[id], body, parseDate);
      events := Replace(events, id, merged);
      r := Updated(Entry(id, merged));
    }

    /** DELETE /:id. `fails` stands for an id that does not cast or a
        store fault, answered with 500. */
    method Delete(id: Id, fails: bool) returns (r: DeleteReply)
      requires Valid()
      modifies this
      ensures Valid()
      ensures r == DeleteFailed <==> fails
      ensures r == Deleted <==> !fails && id in old(events.docs)
      ensures r == Deleted ==> events == Remove(old(events), id) && events.docs == old(events.docs) - {id}
      ensures r != Deleted ==> events == old(events)
    {
      if fails {
        r := DeleteFailed;
      } else if id in events.docs {
        events := Remove(events, id);
        r := Deleted;
      } else {
        r := DeleteMissing;
      }
    }
  }

  /** Updating with a body that sets only the status changes only the
      status. */
  lemma StatusOnlyUpdate(e: Event, s: string, parseDate: string -> Option<int>)
    requires s in Statuses
    ensures var b := EmptyBody.(status := Some(s));
      && ValidateUpdate(b, parseDate) == []
      && Merge(e, b, parseDate) == e.(status := s)
  {
    var b := EmptyBody.(status := Some(s));
    var u := UpdateOutcomes(b, parseDate);
    assert forall k :: 0 <= k < 8 ==> u[k].None?;
    CollectEmpty(Zip(PathNames, u));
  }
}
