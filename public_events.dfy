/** The public "Upcoming Events" page: it fetches every event, keeps the
    confirmed ones and orders them by date. */
module PublicEvents {
  import opened Common
  import opened Sorting
  import opened Lists
  import opened Store
  import opened EventSchema
  import opened EventsRoute

  const InvalidFormatMessage: string := "Received invalid data format from server. Expected an array of events."

  /** What the fetch produced: an array of events, some other JSON value,
      or a thrown error with its `message` (if any). */
  datatype Fetched = Items(items: seq<Entry<Event>>) | NotAList | Threw(message: Option<string>)

  /** The component's state after a fetch. */
  datatype Page = Page(events: seq<Entry<Event>>, error: Option<string>, loading: bool)

  /** What is rendered: the spinner, the error, the "no events" notice, or
      one card per event. */
  datatype Screen = Spinner | ErrorAlert(message: string) | NoEvents | Cards(events: seq<Entry<Event>>)

  predicate IsConfirmed(e: Entry<Event>) {
    e.doc.status == "confirmed"
  }

  /** `filter(event => event.status === 'confirmed')`. */
  function Confirmed(s: seq<Entry<Event>>): seq<Entry<Event>> {
    Filter(s, IsConfirmed)
  }

  /** The events shown: the confirmed ones, by date ascending. */
  function Shown(items: seq<Entry<Event>>): seq<Entry<Event>> {
    SortBy(Confirmed(items), ByDate)
  }

  /** Only confirmed events are shown, every confirmed event is shown (as
      often as the response holds it), and the list is in date order. */
  lemma ShownProperties(items: seq<Entry<Event>>)
    ensures forall k :: 0 <= k < |Shown(items)| ==> IsConfirmed(Shown(items)[k])
    ensures forall x :: multiset(Shown(items))[x] == if IsConfirmed(x) then multiset(items)[x] else 0
    ensures forall x :: x in items && IsConfirmed(x) ==> x in Shown(items)
    ensures SortedBy(Shown(items), ByDate)
  {
    var r := Shown(items);
    forall k | 0 <= k < |r| ensures IsConfirmed(r[k]) {
      assert r[k] in multiset(Confirmed(items));
    }
    forall x ensures multiset(r)[x] == if IsConfirmed(x) then multiset(items)[x] else 0 {
      FilterCount(items, IsConfirmed, x);
    }
  }

  /** A response that the events endpoint already ordered by date is shown
      in the same order with the unconfirmed events left out: the page's
      own sort moves nothing. */
  lemma ShownOfOrderedList(items: seq<Entry<Event>>)
    requires SortedBy(items, ByDate)
    ensures Shown(items) == Confirmed(items)
  {
    FilterKeepsOrder(items, IsConfirmed, ByDate);
    SortSorted(Confirmed(items), ByDate);
  }

  /** The state after the fetch settles. A thrown error keeps whatever list
      was there before. */
  function AfterFetch(before: Page, f: Fetched): (p: Page)
    ensures !p.loading
    ensures f.Items? ==> p.events == Shown(f.items) && p.error.None?
    ensures f.NotAList? ==> p.events == [] && p.error == Some(InvalidFormatMessage)
    ensures f.Threw? ==>
      && p.events == before.events
      && p.error == Some("Failed to load events: " + OrElse(f.message, "Unknown error"))
  {
    match f
    case Items(items) => Page(Shown(items), None, false)
    case NotAList => Page([], Some(InvalidFormatMessage), false)
    case Threw(m) => Page(before.events, Some("Failed to load events: " + OrElse(m, "Unknown error")), false)
  }

  const InitialPage: Page := Page([], None, true)

  /** The rendering decision: loading first, then an error, then an empty
      list, then the cards. */
  function Render(p: Page): (s: Screen)
    ensures s.Spinner? <==> p.loading
    ensures s.ErrorAlert? <==> !p.loading && p.error.Some?
    ensures s.Cards? ==> s.events == p.events && p.events != []
    ensures s.NoEvents? <==> !p.loading && p.error.None? && p.events == []
  {
    if p.loading then Spinner
    else if p.error.Some? then ErrorAlert(p.error.value)
    else if p.events == [] then NoEvents
    else Cards(p.events)
  }

  /** Whatever the first fetch returns, the page shows either an error or
      exactly the confirmed events in date order. */
  lemma FirstFetchScreen(f: Fetched)
    ensures var s := Render(AfterFetch(InitialPage, f));
      (s.Cards? ==> f.Items? && s.events == Shown(f.items))
      && (s.ErrorAlert? <==> !f.Items?)
  {
  }
}
