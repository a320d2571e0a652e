/** The document store, one collection at a time: documents keyed by an id
    that the store allocates, remembered in the order they were inserted
    (the order `find()` returns them in when no sort is asked for). */
module Store {
  import opened Common
  import opened Lists

  type Id = nat

  /** A stored document with its `_id`. */
  datatype Entry<D> = Entry(id: Id, doc: D)

  datatype Table<D> = Table(order: seq<Id>, docs: map<Id, D>, next: Id) {
    /** The ids in `order` are distinct, are exactly the keys of `docs`,
        and are all below the next id to allocate. */
    ghost predicate Valid() {
      && Distinct(order)
      && (forall id :: id in docs <==> id in order)
      && (forall id :: id in docs ==> id < next)
    }
  }

  function Empty<D>(): (t: Table<D>)
    ensures t.Valid() && t.docs == map[] && t.order == []
  {
    Table([], map[], 0)
  }

  /** Stores `d` under a newly allocated id; every old document keeps its id
      and contents, and the new one comes last in insertion order. */
  function Insert<D>(t: Table<D>, d: D): (r: (Table<D>, Id))
    requires t.Valid()
    ensures r.0.Valid()
    ensures r.1 !in t.docs
    ensures r.0.docs == t.docs[r.1 := d]
    ensures r.0.order == t.order + [r.1]
  {
    assert t.next !in t.order;
    (Table(t.order + [t.next], t.docs[t.next := d], t.next + 1), t.next)
  }

  /** `order` without `id`, other ids kept in order. */
  function Without(order: seq<Id>, id: Id): (r: seq<Id>)
    ensures forall x :: x in r <==> x in order && x != id
    ensures |r| <= |order|
  {
    if order == [] then []
    else if order[0] == id then Without(order[1..], id)
    else [order[0]] + Without(order[1..], id)
  }

  /** Dropping one id is filtering on "not that id": the ids that stay keep
      their relative order. */
  lemma {:induction false} WithoutIsFilter(order: seq<Id>, id: Id, p: Id -> bool)
    requires forall x :: p(x) <==> x != id
    ensures Without(order, id) == Filter(order, p)
  {
    if order != [] {
      WithoutIsFilter(order[1..], id, p);
    }
  }

  /** Dropping an id from a concatenation drops it from each part. */
  lemma WithoutAppend(a: seq<Id>, b: seq<Id>, id: Id)
    ensures Without(a + b, id) == Without(a, id) + Without(b, id)
  {
    var p := x => x != id;
    WithoutIsFilter(a + b, id, p);
    WithoutIsFilter(a, id, p);
    WithoutIsFilter(b, id, p);
    FilterAppend(a, b, p);
  }

  predicate Distinct(s: seq<Id>) {
    forall i, j :: 0 <= i < j < |s| ==> s[i] != s[j]
  }

  lemma {:induction false} WithoutDistinct(order: seq<Id>, id: Id)
    requires Distinct(order)
    ensures Distinct(Without(order, id))
  {
    if order != [] {
      var tail := order[1..];
      assert Distinct(tail) by {
        forall i, j | 0 <= i < j < |tail| ensures tail[i] != tail[j] {
          assert tail[i] == order[i + 1] && tail[j] == order[j + 1];
        }
      }
      WithoutDistinct(tail, id);
      var r := Without(order, id);
      var r' := Without(tail, id);
      if order[0] != id {
        assert order[0] !in tail by {
          forall k | 0 <= k < |tail| ensures tail[k] != order[0] {
            assert tail[k] == order[k + 1];
          }
        }
        assert r == [order[0]] + r';
        forall i, j | 0 <= i < j < |r| ensures r[i] != r[j] {
          if i == 0 {
            assert r[j] == r'[j - 1] && r'[j - 1] in r';
          } else {
            assert r[i] == r'[i - 1] && r[j] == r'[j - 1];
          }
        }
      }
    }
  }

  /** Deletes the document with that id, if any; nothing else changes. */
  function Remove<D>(t: Table<D>, id: Id): (r: Table<D>)
    requires t.Valid()
    ensures r.Valid()
    ensures r.docs == t.docs - {id}
    ensures r.next == t.next
    ensures id !in t.docs ==> r.order == t.order
    ensures r.order == Without(t.order, id)
  {
    WithoutDistinct(t.order, id);
    if id !in t.docs then
      WithoutAbsent(t.order, id);
      t
    else Table(Without(t.order, id), t.docs - {id}, t.next)
  }

  lemma {:induction false} WithoutAbsent(order: seq<Id>, id: Id)
    requires id !in order
    ensures Without(order, id) == order
  {
    if order != [] {
      WithoutAbsent(order[1..], id);
    }
  }

  /** Replaces the document stored under an existing id. */
  function Replace<D>(t: Table<D>, id: Id, d: D): (r: Table<D>)
    requires t.Valid() && id in t.docs
    ensures r.Valid()
    ensures r.docs == t.docs[id := d] && r.order == t.order
  {
    Table(t.order, t.docs[id := d], t.next)
  }

  /** The documents with their ids, in insertion order. */
  function EntriesOf<D>(order: seq<Id>, docs: map<Id, D>): (r: seq<Entry<D>>)
    requires forall id :: id in order ==> id in docs
    ensures |r| == |order|
    ensures forall i :: 0 <= i < |order| ==> r[i] == Entry(order[i], docs[order[i]])
  {
    if order == [] then [] else [Entry(order[0], docs[order[0]])] + EntriesOf(order[1..], docs)
  }

  function Entries<D>(t: Table<D>): (r: seq<Entry<D>>)
    requires t.Valid()
    ensures |r| == |t.order|
    ensures forall k :: 0 <= k < |r| ==> r[k].id == t.order[k]
    ensures forall k :: 0 <= k < |r| ==> r[k].id in t.docs && r[k].doc == t.docs[r[k].id]
    ensures forall id :: id in t.docs ==> Entry(id, t.docs[id]) in r
  {
    var r := EntriesOf(t.order, t.docs);
    assert forall id :: id in t.docs ==> Entry(id, t.docs[id]) in r by {
      forall id | id in t.docs ensures Entry(id, t.docs[id]) in r {
        var i :| 0 <= i < |t.order| && t.order[i] == id;
        assert r[i] == Entry(id, t.docs[id]);
      }
    }
    r
  }

  /** The first id in insertion order whose document satisfies `p`:
      `findOne(filter)`. */
  function FindFirstIn<D>(order: seq<Id>, docs: map<Id, D>, p: D -> bool): (r: Option<Id>)
    requires forall id :: id in order ==> id in docs
    ensures r.None? <==> forall id :: id in order ==> !p(docs[id])
    ensures r.Some? ==> r.value in order && p(docs[r.value])
  {
    if order == [] then None
    else if p(docs[order[0]]) then Some(order[0])
    else FindFirstIn(order[1..], docs, p)
  }

  function FindOne<D>(t: Table<D>, p: D -> bool): (r: Option<Id>)
    requires t.Valid()
    ensures r.None? <==> forall id :: id in t.docs ==> !p(t.docs[id])
    ensures r.Some? ==> r.value in t.docs && p(t.docs[r.value])
  {
    FindFirstIn(t.order, t.docs, p)
  }

  /** Two filters that agree on every stored document find the same one. */
  lemma {:induction false} FindFirstInAgrees<D>(order: seq<Id>, docs: map<Id, D>, p: D -> bool, q: D -> bool)
    requires forall id :: id in order ==> id in docs
    requires forall id :: id in order ==> p(docs[id]) == q(docs[id])
    ensures FindFirstIn(order, docs, p) == FindFirstIn(order, docs, q)
  {
    if order != [] {
      FindFirstInAgrees(order[1..], docs, p, q);
    }
  }

  lemma FindOneAgrees<D>(t: Table<D>, p: D -> bool, q: D -> bool)
    requires t.Valid()
    requires forall id :: id in t.docs ==> p(t.docs[id]) == q(t.docs[id])
    ensures FindOne(t, p) == FindOne(t, q)
  {
    FindFirstInAgrees(t.order, t.docs, p, q);
  }

  /** A valid table has as many documents as ids in its order. */
  lemma DocsCount<D>(t: Table<D>)
    requires t.Valid()
    ensures |t.docs| == |t.order|
  {
    DistinctCard(t.order);
    assert t.docs.Keys == Ids(t.order);
  }

  function Ids(s: seq<Id>): (r: set<Id>)
    ensures forall id :: id in r <==> id in s
  {
    set id | id in s
  }

  lemma {:induction false} DistinctCard(s: seq<Id>)
    requires Distinct(s)
    ensures |Ids(s)| == |s|
  {
    if s == [] {
      assert Ids(s) == {};
    } else {
      var tail := s[1..];
      assert Distinct(tail) by {
        forall i, j | 0 <= i < j < |tail| ensures tail[i] != tail[j] {
          assert tail[i] == s[i + 1] && tail[j] == s[j + 1];
        }
      }
      DistinctCard(tail);
      assert s[0] !in tail by {
        forall k | 0 <= k < |tail| ensures tail[k] != s[0] {
          assert tail[k] == s[k + 1];
        }
      }
      assert Ids(s) == Ids(tail) + {s[0]};
    }
  }
}
