/** The animal-report endpoints: POST stores a report built from the
    multipart body and an optional image, GET returns every stored report.
    The `Animal` schema declares six text paths and `imageUrl`; keys of the
    body outside them are not stored. */
module AnimalsRoute {
  import opened Common
  import opened Text
  import opened Store

  const SchemaPaths: seq<string> := ["date", "name", "breed", "address", "reporter", "remarks"]

  const SubmittedMessage: string := "Animal report submitted successfully"
  const ServerErrorMessage: string := "Server error"

  /** A stored report; a path the body did not send is absent. */
  datatype Animal = Animal(
    date: Option<string>,
    name: Option<string>,
    breed: Option<string>,
    address: Option<string>,
    reporter: Option<string>,
    remarks: Option<string>,
    imageUrl: string)

  /** The text parts of the multipart body. */
  type Body = map<string, string>

  function Field(body: Body, path: string): (v: Option<string>)
    ensures v.Some? <==> path in body
    ensures v.Some? ==> v.value == body[path]
  {
    if path in body then Some(body[path]) else None
  }

  /** The stored file name: the clock reading, a dash and the uploaded
      file's own name. */
  function UploadName(now: nat, original: string): (r: string)
    ensures |r| > |original|
  {
    NatToString(now) + "-" + original
  }

  /** The clock reading and the original name can both be read back from
      the stored name. */
  lemma UploadNameParts(now: nat, original: string)
    ensures var r := UploadName(now, original);
      var n := |NatToString(now)|;
      && n < |r| && r[n] == '-' && DigitsValue(r[..n]) == now && r[n + 1..] == original
      && LeadingDigits(r) == NatToString(now)
  {
    NatToStringRoundTrip(now);
    DashedParts(NatToString(now), original);
  }

  /** A digit string, a dash and a name: each part reads back. */
  lemma DashedParts(d: string, original: string)
    requires AllDigits(d)
    ensures var r := d + "-" + original;
      && |d| < |r| && r[|d|] == '-' && r[..|d|] == d && r[|d| + 1..] == original
      && LeadingDigits(r) == d
  {
    var r := d + "-" + original;
    assert r[..|d|] == d;
    assert r[|d| + 1..] == original;
    assert r == d + ("-" + original);
    LeadingDigitsSplit(d, "-" + original);
  }

  function ImageUrl(filename: Option<string>): (u: string)
    ensures filename.None? ==> u == ""
    ensures filename.Some? ==> u == "/uploads/" + filename.value && StartsWith(u, "/uploads/")
  {
    if filename.Some? then "/uploads/" + filename.value else ""
  }

  /** `new Animal({...req.body, imageUrl})`: the schema's paths as sent, and
      the image address derived from the stored file, whatever the body
      said about it. */
  function NewAnimal(body: Body, filename: Option<string>): (a: Animal)
    ensures a.date == Field(body, "date") && a.name == Field(body, "name")
    ensures a.breed == Field(body, "breed") && a.address == Field(body, "address")
    ensures a.reporter == Field(body, "reporter") && a.remarks == Field(body, "remarks")
    ensures a.imageUrl == ImageUrl(filename)
  {
    Animal(Field(body, "date"), Field(body, "name"), Field(body, "breed"), Field(body, "address"),
           Field(body, "reporter"), Field(body, "remarks"), ImageUrl(filename))
  }

  /** A body key outside the six text paths (an `imageUrl` or a `status`
      among them) changes nothing in the stored report. */
  lemma ExtraKeysIgnored(body: Body, filename: Option<string>, key: string, value: string)
    requires key !in SchemaPaths
    ensures NewAnimal(body[key := value], filename) == NewAnimal(body, filename)
  {
    assert key != "date" && key != "name" && key != "breed";
    assert key != "address" && key != "reporter" && key != "remarks";
  }

  lemma StatusIsNotStored()
    ensures "status" !in SchemaPaths && "imageUrl" !in SchemaPaths
  {
  }

  datatype CreateReply = Submitted | ServerError

  function StatusOf(r: CreateReply): nat {
    if r.Submitted? then 201 else 500
  }

  function MessageOf(r: CreateReply): (m: string)
    ensures r.Submitted? ==> m == SubmittedMessage
    ensures r.ServerError? ==> m == ServerErrorMessage
  {
    if r.Submitted? then SubmittedMessage else ServerErrorMessage
  }

  class AnimalsRouter {
    var animals: Table<Animal>

    ghost predicate Valid()
      reads this
    {
      animals.Valid()
    }

    constructor ()
      ensures Valid() && animals.docs == map[]
    {
      animals := Empty();
    }

    /** POST /. The upload has neither a type filter nor a size limit: any
        file is stored under `UploadName`. `saveFails` stands for a store
        fault. */
    method Create(body: Body, file: Option<FileInfo>, now: nat, saveFails: bool) returns (r: CreateReply)
      requires Valid()
      modifies this
      ensures Valid()
      ensures r == Submitted <==> !saveFails
      ensures saveFails ==> animals == old(animals)
      ensures !saveFails ==>
        var filename := if file.Some? then Some(UploadName(now, file.value.name)) else None;
        animals == Insert(old(animals), NewAnimal(body, filename)).0
    {
      var filename := if file.Some? then Some(UploadName(now, file.value.name)) else None;
      if saveFails {
        return ServerError;
      }
      var (t, _) := Insert(animals, NewAnimal(body, filename));
      animals := t;
      r := Submitted;
    }

    /** GET /: every stored report, in insertion order. `fails` stands for
        a store fault, answered with 500. */
    method List(fails: bool) returns (r: Result<seq<Entry<Animal>>, string>)
      requires Valid()
      ensures r.Err? <==> fails
      ensures r.Err? ==> r.error == "Server error"
      ensures r.Ok? ==> |r.value| == |animals.docs|
      ensures r.Ok? ==> forall k :: 0 <= k < |r.value| ==> k < |animals.order| && r.value[k].id == animals.order[k]
      ensures r.Ok? ==> forall k :: 0 <= k < |r.value| ==>
        r.value[k].id in animals.docs && r.value[k].doc == animals.docs[r.value[k].id]
      ensures r.Ok? ==> forall id :: id in animals.docs ==> Entry(id, animals.docs[id]) in r.value
    {
      if fails {
        return Err("Server error");
      }
      DocsCount(animals);
      r := Ok(Entries(animals));
    }
  }
}
