/** The rescue-request endpoints: the upload screen in front of the POST
    handler, the stored file name, the tracking code handed back to the
    reporter, the record built from the form fields, the translation of
    validation failures into a field-to-message map, and the two reads. */
module RescueRoute {
  import opened Common
  import opened Text
  import opened Sorting
  import opened Store
  import opened RescueSchema

  /** The upload ceiling, in bytes. */
  const MaxUpload: nat := 5 * 1024 * 1024

  /** What the upload middleware makes of the one file field `photo`. */
  datatype Screening = Accepted | NotAnImage | TooLarge

  /** The file filter runs first and admits only `image/` types; the size
      limit then rejects anything larger than the ceiling. */
  function Screen(f: FileInfo): (r: Screening)
    ensures r == Accepted <==> StartsWith(f.mimeType, "image/") && f.size <= MaxUpload
    ensures r == NotAnImage <==> !StartsWith(f.mimeType, "image/")
  {
    if !StartsWith(f.mimeType, "image/") then NotAnImage
    else if f.size > MaxUpload then TooLarge
    else Accepted
  }

  /** The position of the last occurrence of `c` in `s`. */
  function LastIndexOf(s: string, c: char): (r: Option<nat>)
    ensures r.None? <==> c !in s
    ensures r.Some? ==> r.value < |s| && s[r.value] == c && c !in s[r.value + 1..]
  {
    if s == [] then None
    else if s[|s| - 1] == c then Some(|s| - 1)
    else
      var r := LastIndexOf(s[..|s| - 1], c);
      assert s == s[..|s| - 1] + [s[|s| - 1]];
      r
  }

  /** `path.extname` of a file name without `/`: from the last `.` to the
      end, except that a name whose only `.` is its first character, and
      the name `..`, have no extension. */
  function ExtName(name: string): (ext: string)
    ensures |ext| <= |name|
    ensures ext == "" || (ext[0] == '.' && '.' !in ext[1..] && ext == name[|name| - |ext|..])
  {
    match LastIndexOf(name, '.')
    case None => ""
    case Some(k) => if k == 0 || name == ".." then "" else name[k..]
  }

  /** A name that is a stem not starting with `.` followed by a `.` and
      characters other than `.` has exactly that suffix as extension. */
  lemma ExtNameOf(stem: string, ext: string)
    requires stem != [] && stem[0] != '.'
    requires ext != [] && ext[0] == '.' && '.' !in ext[1..]
    ensures ExtName(stem + ext) == ext
  {
    var name := stem + ext;
    var k := |stem|;
    assert name[k] == '.';
    assert name[k + 1..] == ext[1..];
    assert name[k..] == ext;
    LastDotAt(name, k);
    assert name[0] == stem[0];
  }

  /** A `.` at `k` with none after it is the last one. */
  lemma LastDotAt(name: string, k: nat)
    requires k < |name| && name[k] == '.' && '.' !in name[k + 1..]
    ensures LastIndexOf(name, '.') == Some(k)
  {
    var r := LastIndexOf(name, '.');
    assert r.Some?;
    NoneAfter(name, r.value, '.');
    NoneAfter(name, k, '.');
  }

  lemma NoneAfter(s: string, j: nat, c: char)
    requires j < |s| && c !in s[j + 1..]
    ensures forall i :: j < i < |s| ==> s[i] != c
  {
    forall i | j < i < |s| ensures s[i] != c {
      assert s[j + 1..][i - j - 1] == s[i];
    }
  }

  /** A name without `.` has no extension. */
  lemma ExtNameWithoutDot(name: string)
    requires '.' !in name
    ensures ExtName(name) == ""
  {
  }

  /** `Math.round(draw * 1e9)` for a draw in [0, 1). */
  function RandomSuffix(draw: real): (n: nat)
    requires 0.0 <= draw < 1.0
    ensures n <= 1000000000
  {
    (draw * 1000000000.0 + 0.5).Floor
  }

  /** The stored file name: `rescue-`, the millisecond clock, `-`, the
      random suffix, and the original extension. */
  function StoredName(now: nat, suffix: nat, original: string): string {
    "rescue-" + NatToString(now) + "-" + NatToString(suffix) + ExtName(original)
  }

  /** The stored name starts with `rescue-`, the clock reading can be read
      back from the digits that follow, and it ends with the extension of
      the original name. */
  lemma StoredNameParts(now: nat, suffix: nat, original: string)
    ensures var n := StoredName(now, suffix, original);
      && StartsWith(n, "rescue-")
      && DigitsValue(LeadingDigits(n[7..])) == now
      && n[|n| - |ExtName(original)|..] == ExtName(original)
  {
    NameParts(NatToString(now), NatToString(suffix), ExtName(original));
    NatToStringRoundTrip(now);
  }

  /** The parts of a name built like the stored name, for any digits `t`. */
  lemma NameParts(t: string, u: string, e: string)
    requires AllDigits(t)
    ensures var n := "rescue-" + t + "-" + u + e;
      && StartsWith(n, "rescue-")
      && LeadingDigits(n[7..]) == t
      && n[|n| - |e|..] == e
  {
    var n := "rescue-" + t + "-" + u + e;
    var rest := "-" + u + e;
    assert n == "rescue-" + (t + rest);
    assert n[7..] == t + rest;
    LeadingDigitsSplit(t, rest);
    var front := "rescue-" + t + "-" + u;
    assert n == front + e;
  }

  /** `Math.floor(1000 + draw * 9000)` for a draw in [0, 1). */
  function TrackingNumber(draw: real): (n: nat)
    requires 0.0 <= draw < 1.0
    ensures 1000 <= n <= 9999
  {
    (1000.0 + draw * 9000.0).Floor
  }

  /** `TAARA-<year>-<n>`. */
  function TrackingCode(year: int, n: nat): string {
    "TAARA-" + IntToString(year) + "-" + NatToString(n)
  }

  /** Reads a tracking code back: the prefix, the year and, after the last
      `-`, four digits. */
  function ParseTrackingCode(s: string): Option<(int, nat)> {
    if |s| >= 12 && s[..6] == "TAARA-" && s[|s| - 5] == '-' && AllDigits(s[|s| - 4..]) then
      match StrictInt(s[6..|s| - 5])
      case Some(year) => Some((year, DigitsValue(s[|s| - 4..])))
      case None => None
    else None
  }

  /** Every code the handler issues reads back as its year and number, and
      ends in exactly four digits. */
  lemma TrackingCodeRoundTrip(year: int, draw: real)
    requires 0.0 <= draw < 1.0
    ensures var n := TrackingNumber(draw);
      |NatToString(n)| == 4 && ParseTrackingCode(TrackingCode(year, n)) == Some((year, n))
  {
    var n := TrackingNumber(draw);
    FourDigits(n);
    var y := IntToString(year);
    var d := NatToString(n);
    var s := TrackingCode(year, n);
    assert s == "TAARA-" + y + "-" + d;
    assert |s| == 6 + |y| + 5;
    assert s[..6] == "TAARA-";
    assert s[|s| - 4..] == d;
    assert s[6..|s| - 5] == y;
    StrictIntRoundTrip(year);
    NatToStringRoundTrip(n);
  }

  /** The text fields of the multipart body; `None` is a field not sent. */
  datatype RescueBody = RescueBody(
    fullName: Option<string>,
    contactNumber: Option<string>,
    email: Option<string>,
    tag: Option<string>,
    concern: Option<string>,
    locationNote: Option<string>)

  /** A file the upload middleware stored, with the name it stored it under. */
  datatype StoredFile = StoredFile(info: FileInfo, filename: string)

  /** The document the handler constructs: absent or empty fields become
      the empty string, an absent or empty tag becomes `Neglect`, and the
      photo paths are set from the stored file, if any. */
  function Intake(body: RescueBody, file: Option<StoredFile>): RescueDraft {
    RescueDraft(
      Some(OrElse(body.fullName, "")), Some(OrElse(body.contactNumber, "")),
      Some(OrElse(body.email, "")), Some(OrElse(body.tag, DefaultTag)),
      Some(OrElse(body.concern, "")), Some(OrElse(body.locationNote, "")),
      if file.Some? then Some("/uploads/" + file.value.filename) else None,
      if file.Some? then Some(file.value.info.mimeType) else None,
      None)
  }

  /** Every text path is set: a field that is missing or empty becomes the
      empty string, except the tag, which becomes `Neglect`; a field that
      was sent non-empty is passed on as it is. The photo paths are the
      public path and type of the stored file, or unset without one. */
  lemma IntakeDefaults(body: RescueBody, file: Option<StoredFile>)
    ensures var d := Intake(body, file);
      && (!Truthy(body.fullName) ==> d.fullName == Some(""))
      && (!Truthy(body.contactNumber) ==> d.contactNumber == Some(""))
      && (!Truthy(body.email) ==> d.email == Some(""))
      && (!Truthy(body.tag) ==> d.tag == Some("Neglect"))
      && (!Truthy(body.concern) ==> d.concern == Some(""))
      && (!Truthy(body.locationNote) ==> d.locationNote == Some(""))
      && (Truthy(body.fullName) ==> d.fullName == body.fullName)
      && (Truthy(body.email) ==> d.email == body.email)
      && (Truthy(body.tag) ==> d.tag == body.tag)
      && (file.Some? <==> d.photoUrl.Some?)
      && (file.Some? ==> d.photoUrl == Some("/uploads/" + file.value.filename)
                         && d.photoContentType == Some(file.value.info.mimeType))
      && (file.None? ==> d.photoContentType.None?)
      && d.status.None?
  {
  }

  /** The tag the handler passes on is never missing or empty, so a
      rejected tag is always one outside the five. */
  lemma IntakeTagNeverMissing(body: RescueBody, file: Option<StoredFile>)
    ensures MessageFor(Validate(Intake(body, file)), "tag") ==
      if OrElse(body.tag, DefaultTag) in Tags then None else Some(TagMessage)
  {
    var d := Intake(body, file);
    var t := OrElse(body.tag, DefaultTag);
    assert d.tag == Some(t);
    assert t != "" by {
      if !Truthy(body.tag) { assert t == DefaultTag; }
    }
    TagRule(d);
  }

  /** A missing contact field is sent to validation as the empty string
      and rejected as missing. */
  lemma IntakeMissingName(body: RescueBody, file: Option<StoredFile>)
    requires body.fullName.None?
    ensures MessageFor(Validate(Intake(body, file)), "fullName") == Some("Name is required")
  {
    FullNameRule(Intake(body, file));
  }

  /** The `errors` object of the 400 reply: the message of each failing
      path under that path's name. */
  method ErrorMap(errs: seq<FieldError>) returns (m: map<string, string>)
    requires OnePerPath(errs)
    ensures forall p :: MessageFor(errs, p) == (if p in m then Some(m[p]) else None)
  {
    m := map[];
    var i := 0;
    while i < |errs|
      invariant 0 <= i <= |errs|
      invariant forall p :: MessageFor(errs[..i], p) == (if p in m then Some(m[p]) else None)
    {
      var e := errs[i];
      var done, next := errs[..i], errs[..i + 1];
      var m' := m[e.path := e.message];
      assert next == done + [e];
      forall p ensures MessageFor(next, p) == (if p in m' then Some(m'[p]) else None)
      {
        MessageForAppend(done, e, p);
        if p == e.path {
          assert e.path !in Paths(done) by {
            forall k | 0 <= k < i ensures Paths(done)[k] != e.path {
              assert Paths(done)[k] == errs[k].path;
            }
          }
        }
      }
      m := m';
      i := i + 1;
    }
    assert errs[..i] == errs;
  }

  /** The POST reply. */
  datatype RescueReply =
    | Submitted(requestId: string)
    | Invalid(errors: map<string, string>)
    | Failed(message: string)
    | UploadRejected(reason: Screening)

  /** The HTTP status of a reply; a rejected upload never reaches the
      handler and is answered by the framework's default error handler. */
  function StatusOf(r: RescueReply): (code: nat)
    ensures code == 201 <==> r.Submitted?
    ensures code == 400 <==> r.Invalid?
  {
    match r
    case Submitted(_) => 201
    case Invalid(_) => 400
    case Failed(_) => 500
    case UploadRejected(_) => 500
  }

  /** The reply to a GET of one request: the request, 404, or the 500 of a
      lookup that throws. */
  datatype Lookup =
    | Found(record: Entry<RescueRecord>)
    | NotFound(message: string)
    | LookupFailed(message: string)

  /** Newest first. */
  function NewestFirst(e: Entry<RescueRecord>): int {
    -e.doc.createdAt
  }

  /** The stored rescue requests. */
  class RescueRequests {
    var requests: Table<RescueRecord>

    ghost predicate Valid()
      reads this
    {
      requests.Valid()
    }

    constructor ()
      ensures Valid() && requests.docs == map[]
    {
      requests := Empty();
    }

    /** POST: screen the upload, build and validate the document, save it,
        and hand back a tracking code that is not part of what is saved.
        The upload's name reads the clock at `uploaded`, the document's
        defaults read it at `now`. `saveFails` stands for a store fault
        during the save. */
    method Submit(body: RescueBody, upload: Option<FileInfo>, uploaded: nat, now: nat, year: int,
                  suffixDraw: real, codeDraw: real, saveFails: bool) returns (reply: RescueReply)
      requires Valid()
      requires 0.0 <= suffixDraw < 1.0 && 0.0 <= codeDraw < 1.0
      modifies this
      ensures Valid()
      ensures upload.Some? && Screen(upload.value) != Accepted ==>
        reply == UploadRejected(Screen(upload.value)) && requests == old(requests)
      ensures !reply.Submitted? ==> requests == old(requests)
      ensures
        var file := if upload.Some? then
          Some(StoredFile(upload.value, StoredName(uploaded, RandomSuffix(suffixDraw), upload.value.name)))
          else None;
        var built := Build(Intake(body, file), now);
        && (upload.None? || Screen(upload.value) == Accepted ==>
             && (built.Err? ==>
                  && reply.Invalid?
                  && forall p :: MessageFor(built.error, p) ==
                       (if p in reply.errors then Some(reply.errors[p]) else None))
             && (built.Ok? && saveFails ==> reply == Failed("Failed to submit rescue request"))
             && (built.Ok? && !saveFails ==>
                  && reply == Submitted(TrackingCode(year, TrackingNumber(codeDraw)))
                  && requests == Insert(old(requests), built.value).0))
    {
      if upload.Some? && Screen(upload.value) != Accepted {
        return UploadRejected(Screen(upload.value));
      }
      var file := if upload.Some? then
        Some(StoredFile(upload.value, StoredName(uploaded, RandomSuffix(suffixDraw), upload.value.name)))
        else None;
      var requestId := TrackingCode(year, TrackingNumber(codeDraw));
      var built := Build(Intake(body, file), now);
      if built.Err? {
        var errors := ErrorMap(built.error);
        return Invalid(errors);
      }
      if saveFails {
        return Failed("Failed to submit rescue request");
      }
      var (t, _) := Insert(requests, built.value);
      requests := t;
      reply := Submitted(requestId);
    }

    /** GET: every request, newest first. `fails` stands for a store
        fault, answered with 500. */
    method List(fails: bool) returns (r: Result<seq<Entry<RescueRecord>>, string>)
      requires Valid()
      ensures r.Err? <==> fails
      ensures r.Err? ==> r.error == "Failed to fetch rescue requests"
      ensures r.Ok? ==> SortedBy(r.value, NewestFirst)
      ensures r.Ok? ==> multiset(r.value) == multiset(Entries(requests))
      ensures r.Ok? ==> forall k :: 0 <= k < |r.value| ==>
        r.value[k].id in requests.docs && r.value[k].doc == requests.docs[r.value[k].id]
    {
      if fails {
        return Err("Failed to fetch rescue requests");
      }
      var all := Entries(requests);
      var rs := SortBy(all, NewestFirst);
      forall k | 0 <= k < |rs|
        ensures rs[k].id in requests.docs && rs[k].doc == requests.docs[rs[k].id]
      {
        assert rs[k] in multiset(all);
        var j :| 0 <= j < |all| && all[j] == rs[k];
      }
      r := Ok(rs);
    }

    /** GET by id. `fails` stands for an id that does not cast or a store
        fault, answered with 500. */
    method Get(id: Id, fails: bool) returns (r: Lookup)
      requires Valid()
      ensures r.LookupFailed? <==> fails
      ensures r.Found? <==> !fails && id in requests.docs
      ensures r.Found? ==> r.record == Entry(id, requests.docs[id])
      ensures r.NotFound? ==> r.message == "Rescue request not found"
      ensures r.LookupFailed? ==> r.message == "Failed to fetch rescue request"
    {
      if fails {
        r := LookupFailed("Failed to fetch rescue request");
      } else if id in requests.docs {
        r := Found(Entry(id, requests.docs[id]));
      } else {
        r := NotFound("Rescue request not found");
      }
    }
  }

  /** A well-formed request with an acceptable photo is stored with the
      photo's public path and type, the default status and the trimmed,
      lower-cased address. */
  lemma SubmittedRecordShape(body: RescueBody, f: FileInfo, now: nat, suffix: nat)
    requires Screen(f) == Accepted
    requires Build(Intake(body, Some(StoredFile(f, StoredName(now, suffix, f.name)))), now).Ok?
    ensures var r := Build(Intake(body, Some(StoredFile(f, StoredName(now, suffix, f.name)))), now).value;
      && r.photoUrl == Some("/uploads/" + StoredName(now, suffix, f.name))
      && r.photoContentType == Some(f.mimeType)
      && StartsWith(f.mimeType, "image/")
      && r.status == "pending"
      && body.email.Some? && r.email == Lower(Trim(body.email.value))
      && r.createdAt == now
  {
  }
}
