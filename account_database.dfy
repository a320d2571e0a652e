/** The admin "User Accounts" table: each user from the list endpoint shown
    as an account with a made-up email and a capitalised role, and the
    confirmed delete that drops it from the table. */
module AccountDatabase {
  import opened Common
  import opened Text
  import opened Lists
  import opened Store
  import opened UsersRoute

  const LoadFailedMessage: string := "Failed to load user accounts. Please try again later."
  const DeleteFailedMessage: string := "Failed to delete user. Please try again."
  const DeletedMessage: string := "User deleted successfully"
  const EmailDomain: string := "@example.com"

  // ----- `replace(/\s+/g, '.')` -----

  /** The scan behind the replacement: `inRun` says whether the character
      before `s` was white space (and so already gave its '.'). */
  function Dots(s: string, inRun: bool): string {
    if s == [] then []
    else if IsSpace(s[0]) then (if inRun then [] else ['.']) + Dots(s[1..], true)
    else [s[0]] + Dots(s[1..], false)
  }

  /** The scan leaves no white space and never lengthens the string. */
  lemma {:induction false} DotsShape(s: string, inRun: bool)
    ensures NoSpace(Dots(s, inRun))
    ensures |Dots(s, inRun)| <= |s|
  {
    if s != [] {
      DotsShape(s[1..], IsSpace(s[0]));
    }
  }

  /** Each maximal run of white space becomes a single '.'. */
  function CollapseSpaces(s: string): (r: string)
    ensures NoSpace(r)
    ensures |r| <= |s|
  {
    DotsShape(s, false);
    Dots(s, false)
  }

  /** Whether a scan that started in `inRun` ends inside a run. */
  function EndsInRun(a: string, inRun: bool): bool {
    if a == [] then inRun else IsSpace(a[|a| - 1])
  }

  /** What one character contributes to the scan. */
  function DotsHead(c: char, inRun: bool): string {
    if IsSpace(c) then (if inRun then [] else ['.']) else [c]
  }

  lemma DotsCons(c: char, s: string, inRun: bool)
    ensures Dots([c] + s, inRun) == DotsHead(c, inRun) + Dots(s, IsSpace(c))
  {
    assert ([c] + s)[0] == c && ([c] + s)[1..] == s;
  }

  lemma {:induction false} DotsAppend(a: string, b: string, inRun: bool)
    ensures Dots(a + b, inRun) == Dots(a, inRun) + Dots(b, EndsInRun(a, inRun))
  {
    if a == [] {
      assert a + b == b;
    } else {
      var c, t := a[0], a[1..];
      assert Dots(a + b, inRun) == DotsHead(c, inRun) + Dots(t + b, IsSpace(c)) by {
        assert a + b == [c] + (t + b);
        DotsCons(c, t + b, inRun);
      }
      assert Dots(a, inRun) == DotsHead(c, inRun) + Dots(t, IsSpace(c)) by {
        assert a == [c] + t;
        DotsCons(c, t, inRun);
      }
      assert EndsInRun(a, inRun) == EndsInRun(t, IsSpace(c)) by {
        assert a == [c] + t;
        EndsInRunCons(c, t, inRun);
      }
      DotsAppend(t, b, IsSpace(c));
      Associative(DotsHead(c, inRun), Dots(t, IsSpace(c)), Dots(b, EndsInRun(t, IsSpace(c))));
    }
  }

  lemma Associative(x: string, y: string, z: string)
    ensures x + (y + z) == (x + y) + z
  {
  }

  lemma EndsInRunCons(c: char, t: string, inRun: bool)
    ensures EndsInRun([c] + t, inRun) == EndsInRun(t, IsSpace(c))
  {
    if t != [] {
      assert ([c] + t)[|t|] == t[|t| - 1];
    }
  }

  /** A run of white space gives one '.', or nothing when it continues a run. */
  lemma {:induction false} DotsOfRun(w: string, inRun: bool)
    requires w != [] && AllSpace(w)
    ensures Dots(w, inRun) == if inRun then [] else ['.']
  {
    if |w| > 1 {
      DotsOfRun(w[1..], true);
    } else {
      assert w[1..] == [];
    }
  }

  /** A string starting with something other than white space scans the
      same whether or not a run came before it. */
  lemma DotsFresh(b: string)
    requires b == [] || !IsSpace(b[0])
    ensures Dots(b, true) == Dots(b, false)
  {
  }

  /** The replacement, stated as the regular expression does it: cutting a
      string around one maximal run of white space, the run becomes a
      single '.' and the two sides are replaced on their own. */
  lemma CollapseRun(a: string, w: string, b: string)
    requires a == [] || !IsSpace(a[|a| - 1])
    requires w != [] && AllSpace(w)
    requires b == [] || !IsSpace(b[0])
    ensures CollapseSpaces(a + w + b) == CollapseSpaces(a) + "." + CollapseSpaces(b)
  {
    DotsAppend(a + w, b, false);
    DotsAppend(a, w, false);
    DotsOfRun(w, EndsInRun(a, false));
    assert EndsInRun(a + w, false) by {
      assert (a + w)[|a + w| - 1] == w[|w| - 1];
    }
    DotsFresh(b);
  }

  /** A string without white space is left as it is. */
  lemma {:induction false} CollapseNoSpace(s: string, inRun: bool)
    requires NoSpace(s)
    ensures Dots(s, inRun) == s
  {
    if s != [] {
      assert NoSpace(s[1..]);
      CollapseNoSpace(s[1..], false);
    }
  }

  /** `${username.toLowerCase().replace(/\s+/g, '.')}@example.com`. */
  function Email(username: string): (e: string)
    ensures |e| >= |EmailDomain| && e[|e| - |EmailDomain|..] == EmailDomain
    ensures NoSpace(e[..|e| - |EmailDomain|])
  {
    var local := CollapseSpaces(Lower(username));
    assert (local + EmailDomain)[..|local|] == local;
    local + EmailDomain
  }

  /** A user name without white space keeps its (lower-cased) letters. */
  lemma EmailOfPlainName(username: string)
    requires NoSpace(username)
    ensures Email(username) == Lower(username) + EmailDomain
  {
    LowerKeepsSpaces(username);
    CollapseNoSpace(Lower(username), false);
  }

  // ----- `role.charAt(0).toUpperCase() + role.slice(1)` -----

  function Capitalise(role: string): (r: string)
    ensures |r| == |role|
    ensures role != [] ==> r[0] == UpperChar(role[0]) && r[1..] == role[1..]
  {
    if role == [] then [] else [UpperChar(role[0])] + role[1..]
  }

  lemma CapitaliseIdempotent(role: string)
    ensures Capitalise(Capitalise(role)) == Capitalise(role)
  {
    if role != [] {
      assert Capitalise(role)[1..] == role[1..];
    }
  }

  /** The default role the users endpoint gives shows as the table's
      `Admin` badge. */
  lemma DefaultRoleShowsAdmin()
    ensures Capitalise("admin") == "Admin"
  {
    assert UpperChar('a') == 'A';
  }

  // ----- The mapping -----

  datatype Account = Account(id: Id, name: string, email: string, role: string, lastLogin: int, status: string)

  /** One user as an account; a user without a role makes the mapping throw. */
  function ToAccount(v: UserView): (r: Option<Account>)
    ensures r.Some? <==> v.role.Some?
    ensures r.Some? ==> r.value == Account(v.id, v.username, Email(v.username), Capitalise(v.role.value), v.lastLogin, v.status)
  {
    if v.role.None? then None
    else Some(Account(v.id, v.username, Email(v.username), Capitalise(v.role.value), v.lastLogin, v.status))
  }

  /** `data.map(...)`: every user in order, or a failure as soon as one
      cannot be mapped. */
  function Accounts(vs: seq<UserView>): (r: Option<seq<Account>>)
    ensures r.Some? <==> forall k :: 0 <= k < |vs| ==> vs[k].role.Some?
    ensures r.Some? ==> |r.value| == |vs| && forall k :: 0 <= k < |vs| ==> Some(r.value[k]) == ToAccount(vs[k])
  {
    if vs == [] then Some([])
    else
      var first := ToAccount(vs[0]);
      var rest := Accounts(vs[1..]);
      TailShift(vs);
      if first.None? || rest.None? then None
      else Some([first.value] + rest.value)
  }

  lemma TailShift(vs: seq<UserView>)
    requires vs != []
    ensures forall k :: 1 <= k < |vs| ==> vs[k] == vs[1..][k - 1]
  {
  }

  predicate HasOtherId(id: Id, a: Account) {
    a.id != id
  }

  /** `accounts.filter(account => account.id !== id)`. */
  function WithoutAccount(accounts: seq<Account>, id: Id): seq<Account> {
    Filter(accounts, a => HasOtherId(id, a))
  }

  /** The filter keeps every account with another id, as often as it
      occurs and in order, and none with this id. */
  lemma WithoutAccountProperties(accounts: seq<Account>, id: Id)
    ensures forall k :: 0 <= k < |WithoutAccount(accounts, id)| ==> WithoutAccount(accounts, id)[k].id != id
    ensures forall x :: multiset(WithoutAccount(accounts, id))[x] == if x.id != id then multiset(accounts)[x] else 0
    ensures forall a, b :: accounts == a + b ==> WithoutAccount(accounts, id) == WithoutAccount(a, id) + WithoutAccount(b, id)
  {
    var p := (a: Account) => HasOtherId(id, a);
    forall k | 0 <= k < |WithoutAccount(accounts, id)| ensures WithoutAccount(accounts, id)[k].id != id {
      assert p(WithoutAccount(accounts, id)[k]);
    }
    forall x ensures multiset(WithoutAccount(accounts, id))[x] == if x.id != id then multiset(accounts)[x] else 0 {
      FilterCount(accounts, p, x);
    }
    forall a, b | accounts == a + b ensures WithoutAccount(accounts, id) == WithoutAccount(a, id) + WithoutAccount(b, id) {
      FilterAppend(a, b, p);
    }
  }

  /** The list endpoint's reply, or a thrown error. */
  datatype UsersFetch = UsersLoaded(views: seq<UserView>) | UsersThrew

  class AccountTable {
    var accounts: seq<Account>
    var loading: bool
    var error: Option<string>
    var deleteSuccess: Option<string>

    constructor ()
      ensures accounts == [] && loading && error.None? && deleteSuccess.None?
    {
      accounts := [];
      loading := true;
      error := None;
      deleteSuccess := None;
    }

    /** `fetchUsers` settling: the mapped accounts, or the load error with
        the old table kept. */
    method FetchSettled(f: UsersFetch)
      modifies this`accounts, this`loading, this`error
      ensures !loading
      ensures f.UsersLoaded? && Accounts(f.views).Some? ==> accounts == Accounts(f.views).value && error.None?
      ensures !(f.UsersLoaded? && Accounts(f.views).Some?) ==> accounts == old(accounts) && error == Some(LoadFailedMessage)
    {
      var mapped := if f.UsersLoaded? then Accounts(f.views) else None;
      if mapped.Some? {
        accounts := mapped.value;
        error := None;
      } else {
        error := Some(LoadFailedMessage);
      }
      loading := false;
    }

    /** `handleDelete`: only a confirmed delete calls the server; only a
        successful call changes the table. */
    method HandleDelete(id: Id, confirmed: bool, ok: bool) returns (call: Option<Id>)
      modifies this`accounts, this`error, this`deleteSuccess
      ensures call == if confirmed then Some(id) else None
      ensures confirmed && ok ==> accounts == WithoutAccount(old(accounts), id) && deleteSuccess == Some(DeletedMessage) && error == old(error)
      ensures confirmed && !ok ==> accounts == old(accounts) && error == Some(DeleteFailedMessage) && deleteSuccess == old(deleteSuccess)
      ensures !confirmed ==> accounts == old(accounts) && error == old(error) && deleteSuccess == old(deleteSuccess)
    {
      if !confirmed {
        return None;
      }
      call := Some(id);
      if ok {
        accounts := WithoutAccount(accounts, id);
        deleteSuccess := Some(DeletedMessage);
      } else {
        error := Some(DeleteFailedMessage);
      }
    }
  }
}
