/** The admin dashboard's own logic: the animal list with its status
    default and delete, the overview's three earliest events, and the
    switch from the active view name to the panel shown. (The accounting
    panel's totals are in `Accounting`.) */
module MainContent {
  import opened Common
  import opened Sorting
  import opened Lists
  import opened Store
  import opened EventSchema
  import opened EventsRoute
  import opened PublicEvents
  import opened AnimalsRoute

  // ----- The animal list -----

  /** A report as the list endpoint sends it, with whatever `status` it
      carries. */
  datatype FetchedAnimal = FetchedAnimal(id: Id, report: Animal, status: Option<string>)

  /** A row of the table: the report and its displayed status. */
  datatype AnimalRow = AnimalRow(id: Id, report: Animal, status: string)

  /** `{...animal, status: animal.status || 'active'}`. */
  function WithStatus(a: FetchedAnimal): (r: AnimalRow)
    ensures r.id == a.id && r.report == a.report
    ensures r.status == OrElse(a.status, "active")
  {
    AnimalRow(a.id, a.report, if Truthy(a.status) then a.status.value else "active")
  }

  function Rows(s: seq<FetchedAnimal>): (r: seq<AnimalRow>)
    ensures |r| == |s|
    ensures forall k :: 0 <= k < |s| ==> r[k] == WithStatus(s[k])
  {
    seq(|s|, k requires 0 <= k < |s| => WithStatus(s[k]))
  }

  /** Every row has a non-empty status, so applying the default again
      changes nothing. */
  lemma StatusDefaultIdempotent(s: seq<FetchedAnimal>)
    ensures forall k :: 0 <= k < |s| ==> Rows(s)[k].status != ""
    ensures var again := seq(|s|, k requires 0 <= k < |s| =>
                               FetchedAnimal(Rows(s)[k].id, Rows(s)[k].report, Some(Rows(s)[k].status)));
      Rows(again) == Rows(s)
  {
  }

  /** The list endpoint's reports, as sent: the schema has no `status`
      path, so none of them carries one. */
  function AsSent(es: seq<Entry<Animal>>): (r: seq<FetchedAnimal>)
    ensures |r| == |es|
    ensures forall k :: 0 <= k < |es| ==> r[k] == FetchedAnimal(es[k].id, es[k].doc, None)
  {
    seq(|es|, k requires 0 <= k < |es| => FetchedAnimal(es[k].id, es[k].doc, None))
  }

  /** Hence every animal the server stores is shown as active. */
  lemma StoredAnimalsShowActive(es: seq<Entry<Animal>>)
    ensures forall k :: 0 <= k < |es| ==> Rows(AsSent(es))[k] == AnimalRow(es[k].id, es[k].doc, "active")
  {
  }

  predicate HasOtherId(id: Id, r: AnimalRow) {
    r.id != id
  }

  /** `animals.filter(animal => animal._id !== id)`. */
  function WithoutAnimal(rows: seq<AnimalRow>, id: Id): seq<AnimalRow> {
    Filter(rows, r => HasOtherId(id, r))
  }

  /** What the delete filter keeps: every row with another id, as often as
      it occurs, none with this id, relative order kept across any split;
      a list without the id is kept whole. */
  lemma WithoutAnimalProperties(rows: seq<AnimalRow>, id: Id)
    ensures forall k :: 0 <= k < |WithoutAnimal(rows, id)| ==> WithoutAnimal(rows, id)[k].id != id
    ensures forall x :: multiset(WithoutAnimal(rows, id))[x] == if x.id != id then multiset(rows)[x] else 0
    ensures forall a, b :: rows == a + b ==> WithoutAnimal(rows, id) == WithoutAnimal(a, id) + WithoutAnimal(b, id)
    ensures (forall k :: 0 <= k < |rows| ==> rows[k].id != id) ==> WithoutAnimal(rows, id) == rows
  {
    var p := (r: AnimalRow) => HasOtherId(id, r);
    forall k | 0 <= k < |WithoutAnimal(rows, id)| ensures WithoutAnimal(rows, id)[k].id != id {
      assert p(WithoutAnimal(rows, id)[k]);
    }
    forall x ensures multiset(WithoutAnimal(rows, id))[x] == if x.id != id then multiset(rows)[x] else 0 {
      FilterCount(rows, p, x);
    }
    forall a, b | rows == a + b ensures WithoutAnimal(rows, id) == WithoutAnimal(a, id) + WithoutAnimal(b, id) {
      FilterAppend(a, b, p);
    }
    if forall k :: 0 <= k < |rows| ==> rows[k].id != id {
      FilterAllPass(rows, p);
    }
  }

  /** How a call to the server ended: success, or a thrown error with its
      `message` (if any). */
  datatype Outcome = Succeeded | FailedWith(message: Option<string>)

  datatype AnimalFetch = Loaded(items: seq<FetchedAnimal>) | LoadFailed(message: Option<string>)

  class AnimalDatabase {
    var animals: seq<AnimalRow>
    var loading: bool
    var error: Option<string>

    constructor ()
      ensures animals == [] && loading && error.None?
    {
      animals := [];
      loading := true;
      error := None;
    }

    /** `fetchAnimals` settling. */
    method FetchSettled(f: AnimalFetch)
      modifies this
      ensures !loading
      ensures f.Loaded? ==> animals == Rows(f.items) && error.None?
      ensures f.LoadFailed? ==>
        && animals == old(animals)
        && error == Some("Failed to load animal data. " + OrElse(f.message, "Please try again later."))
    {
      match f {
        case Loaded(items) =>
          animals := Rows(items);
          error := None;
        case LoadFailed(m) =>
          error := Some("Failed to load animal data. " + OrElse(m, "Please try again later."));
      }
      loading := false;
    }

    /** `handleDelete`: only a confirmed delete calls the server, and only a
        successful call changes the list. */
    method HandleDelete(id: Id, confirmed: bool, outcome: Outcome) returns (call: Option<Id>, alert: Option<string>)
      modifies this`animals
      ensures call == if confirmed then Some(id) else None
      ensures confirmed && outcome.Succeeded? ==> animals == WithoutAnimal(old(animals), id) && alert.None?
      ensures !(confirmed && outcome.Succeeded?) ==> animals == old(animals)
      ensures confirmed && outcome.FailedWith? ==>
        alert == Some("Failed to delete pet: " + OrElse(outcome.message, "Unknown error"))
      ensures !confirmed ==> alert.None?
    {
      if !confirmed {
        return None, None;
      }
      call := Some(id);
      match outcome {
        case Succeeded =>
          animals := WithoutAnimal(animals, id);
          alert := None;
        case FailedWith(m) =>
          alert := Some("Failed to delete pet: " + OrElse(m, "Unknown error"));
      }
    }
  }

  // ----- The overview -----

  function Min(a: nat, b: nat): nat {
    if a <= b then a else b
  }

  /** `sort((a, b) => date(a) - date(b)).slice(0, 3)`. */
  function FirstThree(items: seq<Entry<Event>>): seq<Entry<Event>> {
    var sorted := SortBy(items, ByDate);
    sorted[..Min(3, |sorted|)]
  }

  /** At most three events, in date order, all from the response, and no
      event left out is earlier than one shown. */
  lemma FirstThreeProperties(items: seq<Entry<Event>>)
    ensures |FirstThree(items)| == Min(3, |items|)
    ensures SortedBy(FirstThree(items), ByDate)
    ensures multiset(FirstThree(items)) <= multiset(items)
    ensures forall x, y :: x in FirstThree(items) && y in multiset(items) - multiset(FirstThree(items)) ==>
      ByDate(x) <= ByDate(y)
  {
    var sorted := SortBy(items, ByDate);
    var n := Min(3, |sorted|);
    PrefixOfSorted(sorted, n, ByDate);
    PrefixLeast(sorted, n, ByDate);
  }

  /** The animal list as the overview receives it: an array, or nothing
      (`animalsData || []`), or a thrown error. */
  datatype AnimalsData = AnimalArray(items: seq<FetchedAnimal>) | NoAnimals | AnimalsThrew

  datatype Overview = Overview(events: seq<Entry<Event>>, animals: seq<FetchedAnimal>, loading: bool)

  /** `fetchData`: the events first, then the animals; a thrown error skips
      whatever comes after it. */
  function AfterOverviewFetch(before: Overview, ev: Fetched, an: AnimalsData): (o: Overview)
    ensures !o.loading
    ensures ev.Threw? ==> o.events == before.events && o.animals == before.animals
    ensures ev.Items? ==> o.events == FirstThree(ev.items)
    ensures ev.NotAList? ==> o.events == []
    ensures !ev.Threw? && an.AnimalArray? ==> o.animals == an.items
    ensures !ev.Threw? && an.NoAnimals? ==> o.animals == []
    ensures !ev.Threw? && an.AnimalsThrew? ==> o.animals == before.animals
  {
    if ev.Threw? then before.(loading := false)
    else
      var events := if ev.Items? then FirstThree(ev.items) else [];
      var animals := match an
        case AnimalArray(items) => items
        case NoAnimals => []
        case AnimalsThrew => before.animals;
      Overview(events, animals, false)
  }

  // ----- The view switch -----

  datatype Panel = DashboardPanel | AnimalPanel | AccountPanel | AccountingPanel
                 | CalendarPanel | SettingsPanel | LogoutPanel

  /** The view name that selects each panel. */
  function ViewName(p: Panel): string {
    match p
    case DashboardPanel => "dashboard"
    case AnimalPanel => "animal"
    case AccountPanel => "account"
    case AccountingPanel => "accounting"
    case CalendarPanel => "calendar"
    case SettingsPanel => "settings"
    case LogoutPanel => "logout"
  }

  const ViewNames: seq<string> := ["dashboard", "animal", "account", "accounting", "calendar", "settings", "logout"]

  /** The `switch (activeView)`: a named view gives its panel, any other
      value the dashboard. */
  function PanelFor(view: string): (p: Panel)
    ensures view !in ViewNames ==> p == DashboardPanel
  {
    if view == "animal" then AnimalPanel
    else if view == "account" then AccountPanel
    else if view == "accounting" then AccountingPanel
    else if view == "calendar" then CalendarPanel
    else if view == "settings" then SettingsPanel
    else if view == "logout" then LogoutPanel
    else DashboardPanel
  }

  /** Each panel is reached through its own name, and only through it (or,
      for the dashboard, through an unknown name). */
  lemma ViewRoundTrip(p: Panel, view: string)
    ensures PanelFor(ViewName(p)) == p
    ensures ViewName(p) in ViewNames
    ensures p != DashboardPanel ==> (PanelFor(view) == p <==> view == ViewName(p))
  {
  }
}
