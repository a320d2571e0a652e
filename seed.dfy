/** The seeding script: three administrator accounts, each inserted with a
    hashed password unless a user of that name exists. The salted hash is
    the parameter `hash`. */
module Seed {
  import opened Common
  import opened Store
  import opened UsersRoute

  datatype Admin = Admin(username: string, password: string)

  const Admins: seq<Admin> := [Admin("admin1", "Admin1Pass!"), Admin("admin2", "Admin2Pass!"), Admin("admin3", "Admin3Pass!")]

  /** The user stored for an admin: the hash of its password, no role. */
  function Seeded(a: Admin, hash: string -> string): User {
    User(a.username, hash(a.password), None)
  }

  predicate Named(t: Table<User>, name: string)
    requires t.Valid()
  {
    FindOne(t, u => HasName(name, u)).Some?
  }

  /** One turn of the loop: insert the admin unless the name is taken. */
  function SeedOne(t: Table<User>, a: Admin, hash: string -> string): (r: Table<User>)
    requires t.Valid()
    ensures r.Valid()
    ensures Named(t, a.username) ==> r == t
    ensures !Named(t, a.username) ==> r == Insert(t, Seeded(a, hash)).0
  {
    if Named(t, a.username) then t else Insert(t, Seeded(a, hash)).0
  }

  /** The loop over `admins`, in order. */
  function SeedAll(t: Table<User>, admins: seq<Admin>, hash: string -> string): (r: Table<User>)
    requires t.Valid()
    ensures r.Valid()
  {
    if admins == [] then t
    else SeedOne(SeedAll(t, admins[..|admins| - 1], hash), admins[|admins| - 1], hash)
  }

  /** `createAdmins`. */
  method CreateAdmins(users: Table<User>, hash: string -> string) returns (t: Table<User>)
    requires users.Valid()
    ensures t.Valid()
    ensures t == SeedAll(users, Admins, hash)
  {
    t := users;
    for i := 0 to |Admins|
      invariant t.Valid()
      invariant t == SeedAll(users, Admins[..i], hash)
    {
      var admin := Admins[i];
      var found := FindOne(t, u => HasName(admin.username, u));
      SeedAllStep(users, Admins, i, hash);
      if found.None? {
        var hashed := hash(admin.password);
        var (t', _) := Insert(t, User(admin.username, hashed, None));
        t := t';
      }
    }
    assert Admins[..|Admins|] == Admins;
  }

  /** One more admin is one more turn of the loop. */
  lemma SeedAllStep(t: Table<User>, admins: seq<Admin>, i: nat, hash: string -> string)
    requires t.Valid() && i < |admins|
    ensures SeedAll(t, admins[..i + 1], hash) == SeedOne(SeedAll(t, admins[..i], hash), admins[i], hash)
  {
    assert admins[..i + 1][..i] == admins[..i];
  }

  /** Users that were there before are kept, unchanged. */
  lemma {:induction false} SeedKeeps(t: Table<User>, admins: seq<Admin>, hash: string -> string)
    requires t.Valid()
    ensures forall id :: id in t.docs ==> id in SeedAll(t, admins, hash).docs && SeedAll(t, admins, hash).docs[id] == t.docs[id]
  {
    if admins != [] {
      SeedKeeps(t, admins[..|admins| - 1], hash);
    }
  }

  /** Every user the script adds is one of the admins, with the hash of its
      password and no role. */
  lemma {:induction false} SeedAdds(t: Table<User>, admins: seq<Admin>, hash: string -> string)
    requires t.Valid()
    ensures forall id :: id in SeedAll(t, admins, hash).docs && id !in t.docs ==>
      exists k :: 0 <= k < |admins| && SeedAll(t, admins, hash).docs[id] == Seeded(admins[k], hash)
  {
    if admins != [] {
      var init := admins[..|admins| - 1];
      SeedAdds(t, init, hash);
      SeedKeeps(t, init, hash);
      var before := SeedAll(t, init, hash);
      var r := SeedAll(t, admins, hash);
      forall id | id in r.docs && id !in t.docs
        ensures exists k :: 0 <= k < |admins| && r.docs[id] == Seeded(admins[k], hash)
      {
        if id in before.docs {
          SeedKeepsOne(before, admins[|admins| - 1], hash, id);
          var k :| 0 <= k < |init| && before.docs[id] == Seeded(init[k], hash);
          assert admins[k] == init[k];
        } else {
          var last := |admins| - 1;
          assert r.docs[id] == Seeded(admins[last], hash);
        }
      }
    }
  }

  lemma SeedKeepsOne(t: Table<User>, a: Admin, hash: string -> string, id: Id)
    requires t.Valid() && id in t.docs
    ensures SeedOne(t, a, hash).docs[id] == t.docs[id]
  {
  }

  /** Seeding only ever adds users: a name that is taken stays taken. */
  lemma NamedKept(t: Table<User>, admins: seq<Admin>, hash: string -> string, name: string)
    requires t.Valid() && Named(t, name)
    ensures Named(SeedAll(t, admins, hash), name)
  {
    SeedKeeps(t, admins, hash);
    var id := FindOne(t, u => HasName(name, u)).value;
    var r := SeedAll(t, admins, hash);
    assert id in r.docs && HasName(name, r.docs[id]);
  }

  /** After the loop, every admin's name is taken. */
  lemma {:induction false} SeedAllPresent(t: Table<User>, admins: seq<Admin>, hash: string -> string)
    requires t.Valid()
    ensures forall k :: 0 <= k < |admins| ==> Named(SeedAll(t, admins, hash), admins[k].username)
  {
    if admins != [] {
      var init, a := admins[..|admins| - 1], admins[|admins| - 1];
      SeedAllPresent(t, init, hash);
      var before := SeedAll(t, init, hash);
      var r := SeedAll(t, admins, hash);
      forall k | 0 <= k < |admins| ensures Named(r, admins[k].username) {
        if k < |init| {
          assert admins[k] == init[k];
          NamedKept(before, [a], hash, init[k].username);
          assert SeedAll(before, [a], hash) == r by {
            assert [a][..0] == [];
          }
        } else {
          if !Named(before, a.username) {
            var (_, nid) := Insert(before, Seeded(a, hash));
            assert HasName(a.username, r.docs[nid]);
          }
        }
      }
    }
  }

  /** When every admin's name is already taken the loop changes nothing. */
  lemma {:induction false} SeedAllTaken(t: Table<User>, admins: seq<Admin>, hash: string -> string)
    requires t.Valid()
    requires forall k :: 0 <= k < |admins| ==> Named(t, admins[k].username)
    ensures SeedAll(t, admins, hash) == t
  {
    if admins != [] {
      var init := admins[..|admins| - 1];
      SeedAllTaken(t, init, hash);
    }
  }

  /** Running the script twice gives the same users as running it once. */
  lemma SeedIdempotent(t: Table<User>, hash: string -> string)
    requires t.Valid()
    ensures SeedAll(SeedAll(t, Admins, hash), Admins, hash) == SeedAll(t, Admins, hash)
  {
    SeedAllPresent(t, Admins, hash);
    SeedAllTaken(SeedAll(t, Admins, hash), Admins, hash);
  }

  /** The script never creates a second user with a taken name. */
  lemma {:induction false} SeedUnique(t: Table<User>, admins: seq<Admin>, hash: string -> string)
    requires t.Valid() && UniqueNames(t)
    ensures UniqueNames(SeedAll(t, admins, hash))
  {
    if admins != [] {
      var init, a := admins[..|admins| - 1], admins[|admins| - 1];
      SeedUnique(t, init, hash);
      var before := SeedAll(t, init, hash);
      if !Named(before, a.username) {
        var (r, nid) := Insert(before, Seeded(a, hash));
        forall x, y | x in r.docs && y in r.docs && r.docs[x].username == r.docs[y].username ensures x == y {
          if x != nid && y != nid {
            assert before.docs[x] == r.docs[x] && before.docs[y] == r.docs[y];
          }
        }
      }
    }
  }

  /** An admin whose name no stored user has is inserted. */
  lemma SeedNew(t: Table<User>, a: Admin, hash: string -> string)
    requires t.Valid()
    requires forall id :: id in t.docs ==> t.docs[id].username != a.username
    ensures SeedOne(t, a, hash) == Insert(t, Seeded(a, hash)).0
  {
  }

  lemma SeedFirstTwo(hash: string -> string)
    ensures SeedAll(Empty(), Admins[..2], hash)
         == Table([0, 1], map[0 := Seeded(Admins[0], hash), 1 := Seeded(Admins[1], hash)], 2)
  {
    var e: Table<User> := Empty();
    var a := Admins;
    assert a[..2][..1] == a[..1] && a[..1][..0] == [];
    SeedNew(e, a[0], hash);
    var t1 := SeedAll(e, a[..1], hash);
    assert t1 == SeedOne(SeedAll(e, [], hash), a[0], hash);
    assert t1 == Table([0], map[0 := Seeded(a[0], hash)], 1);
    SeedNew(t1, a[1], hash);
    assert SeedAll(e, a[..2], hash) == SeedOne(t1, a[1], hash);
  }

  /** The three admins, stored in order under the first three ids. */
  function FreshAdmins(hash: string -> string): Table<User> {
    Table([0, 1, 2], map[0 := Seeded(Admins[0], hash), 1 := Seeded(Admins[1], hash), 2 := Seeded(Admins[2], hash)], 3)
  }

  /** On an empty collection the script creates exactly the three admins,
      in order, each with a hashed password and no role. */
  lemma SeedFresh(hash: string -> string)
    ensures SeedAll(Empty(), Admins, hash) == FreshAdmins(hash)
  {
    var a := Admins;
    assert a[..3][..2] == a[..2] && a[..3] == a;
    SeedFirstTwo(hash);
    var t2 := SeedAll(Empty(), a[..2], hash);
    SeedNew(t2, a[2], hash);
    assert SeedAll(Empty(), a, hash) == SeedOne(t2, a[2], hash);
  }

  /** The freshly seeded store is well formed and has one user per name. */
  lemma FreshAdminsUnique(hash: string -> string)
    ensures FreshAdmins(hash).Valid() && UniqueNames(FreshAdmins(hash))
  {
    SeedFresh(hash);
    SeedUnique(Empty(), Admins, hash);
  }

  /** The three admins have three different passwords. */
  lemma AdminPasswordsDistinct(j: nat, k: nat)
    requires j < 3 && k < 3
    ensures Admins[j].password == Admins[k].password <==> j == k
  {
    assert Admins[0].password[5] == '1' && Admins[1].password[5] == '2' && Admins[2].password[5] == '3';
  }
}
