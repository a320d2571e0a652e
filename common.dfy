/** Values shared by every part of the model: optional values, field-level
    validation errors and uploaded-file descriptions. */
module Common {

  datatype Option<+T> = None | Some(value: T)

  datatype Result<+T, +E> = Ok(value: T) | Err(error: E)

  /** A validation failure attached to one path of a document or request body. */
  datatype FieldError = FieldError(path: string, message: string)

  /** The paths of a list of field errors, in order. */
  function Paths(errs: seq<FieldError>): (ps: seq<string>)
    ensures |ps| == |errs|
    ensures forall i :: 0 <= i < |errs| ==> ps[i] == errs[i].path
  {
    if errs == [] then [] else [errs[0].path] + Paths(errs[1..])
  }

  /** The message of the first error reported for `path`, if any. */
  function MessageFor(errs: seq<FieldError>, path: string): (m: Option<string>)
    ensures m.None? <==> path !in Paths(errs)
    ensures m.Some? ==> FieldError(path, m.value) in errs
  {
    if errs == [] then None
    else if errs[0].path == path then Some(errs[0].message)
    else MessageFor(errs[1..], path)
  }

  /** Appending an error for a path not yet reported reports it; every
      other path keeps its message. */
  lemma {:induction false} MessageForAppend(errs: seq<FieldError>, e: FieldError, p: string)
    ensures MessageFor(errs + [e], p) ==
      if MessageFor(errs, p).Some? then MessageFor(errs, p)
      else if e.path == p then Some(e.message) else None
  {
    if errs != [] {
      assert (errs + [e])[1..] == errs[1..] + [e];
      MessageForAppend(errs[1..], e, p);
    } else {
      assert ([] + [e])[1..] == [];
    }
  }

  /** No path is reported twice. */
  predicate OnePerPath(errs: seq<FieldError>) {
    forall i, j :: 0 <= i < j < |errs| ==> errs[i].path != errs[j].path
  }

  /** One validator outcome per path: the path and, if it failed, the message. */
  type Check = (string, Option<string>)

  /** Some check in `checks` is for path `p`. */
  predicate Named(checks: seq<Check>, p: string) {
    checks != [] && (checks[0].0 == p || Named(checks[1..], p))
  }

  /** No two checks are for the same path. */
  predicate DistinctNames(checks: seq<Check>) {
    checks == [] || (!Named(checks[1..], checks[0].0) && DistinctNames(checks[1..]))
  }

  /** `names` lists the paths of `checks`, position by position. */
  predicate NamedAs(checks: seq<Check>, names: seq<string>) {
    |names| == |checks| && forall k :: 0 <= k < |checks| ==> checks[k].0 == names[k]
  }

  /** Pairs each path with the outcome of its validators. */
  function Zip(names: seq<string>, outcomes: seq<Option<string>>): (r: seq<Check>)
    requires |names| == |outcomes|
    ensures NamedAs(r, names)
    ensures forall k :: 0 <= k < |r| ==> r[k].1 == outcomes[k]
  {
    if names == [] then [] else [(names[0], outcomes[0])] + Zip(names[1..], outcomes[1..])
  }

  lemma {:induction false} UnnamedByNames(checks: seq<Check>, names: seq<string>, p: string)
    requires NamedAs(checks, names) && p !in names
    ensures !Named(checks, p)
  {
    if checks != [] {
      assert names[1..] == names[1..] && p !in names[1..];
      UnnamedByNames(checks[1..], names[1..], p);
    }
  }

  lemma {:induction false} DistinctByNames(checks: seq<Check>, names: seq<string>)
    requires NamedAs(checks, names)
    requires forall i, j :: 0 <= i < j < |names| ==> names[i] != names[j]
    ensures DistinctNames(checks)
  {
    if checks != [] {
      UnnamedByNames(checks[1..], names[1..], names[0]);
      DistinctByNames(checks[1..], names[1..]);
    }
  }

  /** The errors of a validation pass: one error for every failing check,
      in the order of the checks. */
  function Collect(checks: seq<Check>): (errs: seq<FieldError>)
    ensures |errs| <= |checks|
  {
    if checks == [] then []
    else (if checks[0].1.Some? then [FieldError(checks[0].0, checks[0].1.value)] else []) + Collect(checks[1..])
  }

  /** A validation pass reports nothing exactly when every check passed. */
  lemma {:induction false} CollectEmpty(checks: seq<Check>)
    ensures Collect(checks) == [] <==> forall k :: 0 <= k < |checks| ==> checks[k].1.None?
  {
    if checks != [] {
      CollectEmpty(checks[1..]);
      assert forall k :: 1 <= k < |checks| ==> checks[k] == checks[1..][k - 1];
    }
  }

  /** A path without a check is never reported. */
  lemma {:induction false} CollectUnnamed(checks: seq<Check>, p: string)
    requires !Named(checks, p)
    ensures MessageFor(Collect(checks), p) == None
  {
    if checks != [] {
      CollectUnnamed(checks[1..], p);
      var rest := Collect(checks[1..]);
      if checks[0].1.Some? {
        assert Collect(checks) == [FieldError(checks[0].0, checks[0].1.value)] + rest;
        assert Collect(checks)[1..] == rest;
      }
    }
  }

  lemma {:induction false} NamedAt(checks: seq<Check>, k: nat)
    requires k < |checks|
    ensures Named(checks, checks[k].0)
  {
    if k > 0 {
      NamedAt(checks[1..], k - 1);
    }
  }

  lemma MessageForCons(e: FieldError, rest: seq<FieldError>, p: string)
    ensures MessageFor([e] + rest, p) == if e.path == p then Some(e.message) else MessageFor(rest, p)
  {
    assert ([e] + rest)[1..] == rest;
  }

  /** With distinct path names, a validation pass reports the message of
      each check under its own path, and nothing for a check that passed. */
  lemma {:induction false} CollectMessage(checks: seq<Check>, k: nat)
    requires DistinctNames(checks) && k < |checks|
    ensures MessageFor(Collect(checks), checks[k].0) == checks[k].1
  {
    var rest := Collect(checks[1..]);
    var p := checks[k].0;
    if k == 0 {
      CollectUnnamed(checks[1..], p);
    } else {
      CollectMessage(checks[1..], k - 1);
      NamedAt(checks[1..], k - 1);
      assert checks[0].0 != p;
    }
    if checks[0].1.Some? {
      var e := FieldError(checks[0].0, checks[0].1.value);
      assert Collect(checks) == [e] + rest;
      MessageForCons(e, rest, p);
    } else {
      assert Collect(checks) == [] + rest == rest;
    }
  }

  /** With distinct path names, no path is reported twice. */
  lemma {:induction false} CollectOnePerPath(checks: seq<Check>)
    requires DistinctNames(checks)
    ensures OnePerPath(Collect(checks))
  {
    if checks != [] {
      CollectOnePerPath(checks[1..]);
      var rest := Collect(checks[1..]);
      if checks[0].1.Some? {
        CollectUnnamed(checks[1..], checks[0].0);
        var errs := Collect(checks);
        assert errs == [FieldError(checks[0].0, checks[0].1.value)] + rest;
        forall i, j | 0 <= i < j < |errs| ensures errs[i].path != errs[j].path {
          assert errs[j] == rest[j - 1];
          if i > 0 {
            assert errs[i] == rest[i - 1];
          } else {
            assert Paths(rest)[j - 1] == rest[j - 1].path;
          }
        }
      }
    }
  }

  /** A file chosen in a browser form or received by an upload handler. */
  datatype FileInfo = FileInfo(name: string, mimeType: string, size: nat)

  /** JavaScript truthiness of a string: only the empty string is falsy. */
  predicate Truthy(s: Option<string>) {
    s.Some? && s.value != ""
  }

  /** `s || d` for an optional string. */
  function OrElse(s: Option<string>, d: string): (r: string)
    ensures Truthy(s) ==> r == s.value
    ensures !Truthy(s) ==> r == d
  {
    if Truthy(s) then s.value else d
  }

  /** `required: true` on a string path: the value must be a non-empty
      string, else the path fails with the given message. */
  function RequiredFailure(v: Option<string>, message: string): (r: Option<string>)
    ensures r.Some? <==> !Truthy(v)
    ensures r.Some? ==> r.value == message
  {
    if Truthy(v) then None else Some(message)
  }

  /** The message of a Date path whose text does not parse. */
  function DateCastMessage(path: string, value: string): string {
    "Cast to date failed for value \"" + value + "\" (type string) at path \"" + path + "\""
  }

  /** Mongoose's cast of a Date path that is not required: a missing path
      and the empty string (stored as null) pass, other text must parse. */
  function DateCastFailure(path: string, v: Option<string>, parseDate: string -> Option<int>): (r: Option<string>)
    ensures r.Some? <==> Truthy(v) && parseDate(v.value).None?
    ensures r.Some? ==> r.value == DateCastMessage(path, v.value)
  {
    if Truthy(v) && parseDate(v.value).None? then Some(DateCastMessage(path, v.value)) else None
  }

  /** The value a Date path holds after the cast: `absent` (the default, or
      the value already stored) when the path is not given, null for the
      empty string, otherwise the parsed time. */
  function CastDate(v: Option<string>, parseDate: string -> Option<int>, absent: Option<int>): (r: Option<int>)
    ensures v.None? ==> r == absent
    ensures v == Some("") ==> r.None?
    ensures Truthy(v) ==> r == parseDate(v.value)
  {
    if v.None? then absent else if v.value == "" then None else parseDate(v.value)
  }
}
