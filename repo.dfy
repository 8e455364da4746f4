/** The generic keyed record store (`MongoRepository<T>`).

    A repository holds one collection: documents keyed by ObjectId. `find()`
    yields documents in the collection's natural order, modelled here as the
    order of insertion. New documents get an id that no stored document has. */
module Repo {
  import opened Common
  import opened ObjectIds

  /** A document as the store returns it: the item together with its `_id`. */
  datatype Stored<T> = Stored(id: Id, item: T)

  /** No id occurs twice. */
  predicate Distinct(ids: seq<Id>) {
    forall i, j | 0 <= i < j < |ids| :: ids[i] != ids[j]
  }

  /** Every id of the order has a document. */
  predicate Listed<T>(store: map<Id, T>, order: seq<Id>) {
    forall i | 0 <= i < |order| :: order[i] in store
  }

  /** The filter that every document satisfies (an empty `find()` filter). */
  predicate Always<T>(item: T) {
    true
  }

  /** The documents satisfying p, in natural order: what `find(p)` yields. */
  function Select<T>(store: map<Id, T>, order: seq<Id>, p: T -> bool): seq<Stored<T>>
    requires Listed(store, order)
  {
    if order == [] then []
    else
      var id := order[|order| - 1];
      var init := Select(store, order[..|order| - 1], p);
      if p(store[id]) then init + [Stored(id, store[id])] else init
  }

  /** The order with one id taken out. */
  function Without(ids: seq<Id>, x: Id): (r: seq<Id>)
    ensures forall y :: y in r <==> y in ids && y != x
    ensures Distinct(ids) ==> Distinct(r)
    ensures x !in ids ==> r == ids
    ensures Distinct(ids) && x in ids ==> |r| == |ids| - 1
  {
    if ids == [] then []
    else
      var rest := Without(ids[1..], x);
      assert Distinct(ids) ==> ids[0] !in ids[1..];
      if ids[0] == x then rest else [ids[0]] + rest
  }

  /** `find(p)` yields exactly the stored documents that satisfy p. */
  lemma {:induction false} SelectMember<T>(store: map<Id, T>, order: seq<Id>, p: T -> bool, x: Stored<T>)
    requires Listed(store, order)
    ensures x in Select(store, order, p) <==> x.id in order && x.item == store[x.id] && p(x.item)
  {
    if order != [] {
      SelectMember(store, order[..|order| - 1], p, x);
      assert order == order[..|order| - 1] + [order[|order| - 1]];
    }
  }

  /** `find(p)` yields each document at most once. */
  lemma {:induction false} SelectDistinct<T>(store: map<Id, T>, order: seq<Id>, p: T -> bool)
    requires Listed(store, order) && Distinct(order)
    ensures forall i, j | 0 <= i < j < |Select(store, order, p)| ::
      Select(store, order, p)[i].id != Select(store, order, p)[j].id
  {
    if order != [] {
      var init := order[..|order| - 1];
      var last := order[|order| - 1];
      SelectDistinct(store, init, p);
      var s := Select(store, init, p);
      forall k | 0 <= k < |s| ensures s[k].id != last {
        SelectMember(store, init, p, s[k]);
      }
    }
  }

  /** The first document `find(p)` yields is the earliest one in natural order
      that satisfies p. */
  lemma {:induction false} SelectFirst<T>(store: map<Id, T>, order: seq<Id>, p: T -> bool)
    requires Listed(store, order)
    requires Select(store, order, p) != []
    ensures exists k :: (0 <= k < |order| && order[k] == Select(store, order, p)[0].id
      && forall j | 0 <= j < k :: !p(store[order[j]]))
  {
    var init := order[..|order| - 1];
    var s := Select(store, init, p);
    if s != [] {
      SelectFirst(store, init, p);
      var k :| 0 <= k < |init| && init[k] == s[0].id && (forall j | 0 <= j < k :: !p(store[init[j]]));
      assert order[k] == Select(store, order, p)[0].id;
    } else {
      forall j | 0 <= j < |order| - 1 ensures !p(store[order[j]]) {
        SelectMember(store, init, p, Stored(order[j], store[order[j]]));
      }
    }
  }

  /** `find()` with the empty filter yields every document. */
  lemma {:induction false} SelectAlways<T>(store: map<Id, T>, order: seq<Id>)
    requires Listed(store, order)
    ensures |Select(store, order, Always)| == |order|
  {
    if order != [] {
      SelectAlways(store, order[..|order| - 1]);
    }
  }

  class Repository<T> {
    /** The documents by id. */
    var store: map<Id, T>
    /** The natural order of the collection. */
    var order: seq<Id>
    /** Every id handed out so far is below this. */
    var nextId: nat

    ghost predicate Valid()
      reads this
    {
      && Distinct(order)
      && (forall id :: id in store <==> id in order)
      && (forall id | id in store :: id < nextId)
    }

    /** An empty collection. */
    constructor ()
      ensures Valid() && store == map[] && order == [] && nextId == 0
    {
      store := map[];
      order := [];
      nextId := 0;
    }

    /** `getOne`: the document with the id, or a rejection when there is none. */
    method GetOne(id: Id) returns (r: Result<Stored<T>>)
      requires Valid()
      ensures id in store ==> r == Ok(Stored(id, store[id]))
      ensures id !in store ==> r == Err(RecordNotFound)
    {
      if id in store {
        r := Ok(Stored(id, store[id]));
      } else {
        r := Err(RecordNotFound);
      }
    }

    /** `persists`: whether a document with the id exists. */
    method Persists(id: Id) returns (b: bool)
      requires Valid()
      ensures b <==> id in store
    {
      b := id in store;
    }

    /** `getFiltered`: the documents satisfying p, in natural order. */
    method GetFiltered(p: T -> bool) returns (r: seq<Stored<T>>)
      requires Valid()
      ensures Listed(store, order) && r == Select(store, order, p)
      ensures forall x :: x in r <==> x.id in store && x.item == store[x.id] && p(x.item)
    {
      r := [];
      var i := 0;
      while i < |order|
        invariant 0 <= i <= |order|
        invariant Listed(store, order[..i])
        invariant r == Select(store, order[..i], p)
      {
        var id := order[i];
        assert order[..i + 1][..i] == order[..i];
        if p(store[id]) {
          r := r + [Stored(id, store[id])];
        }
        i := i + 1;
      }
      assert order[..i] == order;
      forall x ensures x in r <==> x.id in store && x.item == store[x.id] && p(x.item) {
        SelectMember(store, order, p, x);
      }
    }

    /** `getAll`: every document, in natural order (the empty filter). */
    method GetAll() returns (r: seq<Stored<T>>)
      requires Valid()
      ensures Listed(store, order) && r == Select(store, order, Always)
      ensures |r| == |store|
      ensures forall id | id in store :: Stored(id, store[id]) in r
    {
      r := GetFiltered(Always);
      SelectAlways(store, order);
      assert order == order[..|order|];
      CountOrder();
    }

    /** The natural order lists each stored id exactly once. */
    lemma CountOrder()
      requires Valid()
      ensures |order| == |store|
    {
      var ids := set i | 0 <= i < |order| :: order[i];
      assert ids == store.Keys;
      DistinctCard(order);
    }

    /** `add`: stores the item under a fresh id and returns it with that id. */
    method Add(item: T) returns (s: Stored<T>)
      requires Valid()
      modifies this
      ensures Valid()
      ensures s.item == item && s.id !in old(store) && s.id == old(nextId)
      ensures store == old(store)[s.id := item]
      ensures order == old(order) + [s.id]
      ensures |store| == |old(store)| + 1
    {
      assert nextId !in order;
      s := Stored(nextId, item);
      store := store[nextId := item];
      order := order + [nextId];
      nextId := nextId + 1;
    }

    /** `update`: merges a partial document (given as the merge it performs)
        into the document with the id and returns the updated document;
        rejects and writes nothing when there is no such document. */
    method Update(id: Id, merge: T -> T) returns (r: Result<Stored<T>>)
      requires Valid()
      modifies this`store
      ensures Valid()
      ensures id in old(store) ==> store == old(store)[id := merge(old(store)[id])]
      ensures id in old(store) ==> r == Ok(Stored(id, merge(old(store)[id])))
      ensures id !in old(store) ==> store == old(store) && r == Err(RecordNotFound)
    {
      if id in store {
        var updated := merge(store[id]);
        store := store[id := updated];
        r := Ok(Stored(id, updated));
      } else {
        r := Err(RecordNotFound);
      }
    }

    /** `delete`: removes the document with the id and returns it; rejects and
        removes nothing when there is no such document. */
    method Delete(id: Id) returns (r: Result<Stored<T>>)
      requires Valid()
      modifies this`store, this`order
      ensures Valid()
      ensures id in old(store) ==> store == old(store) - {id} && order == Without(old(order), id)
      ensures id in old(store) ==> r == Ok(Stored(id, old(store)[id])) && |store| == |old(store)| - 1
      ensures id !in old(store) ==> store == old(store) && order == old(order) && r == Err(RecordNotFound)
    {
      if id in store {
        r := Ok(Stored(id, store[id]));
        store := store - {id};
        order := Without(order, id);
      } else {
        r := Err(RecordNotFound);
      }
    }
  }

  /** A sequence without repeats has as many distinct elements as entries. */
  lemma {:induction false} DistinctCard(ids: seq<Id>)
    requires Distinct(ids)
    ensures |set i | 0 <= i < |ids| :: ids[i]| == |ids|
  {
    if ids != [] {
      var init := ids[..|ids| - 1];
      DistinctCard(init);
      var s := set i | 0 <= i < |ids| :: ids[i];
      var t := set i | 0 <= i < |init| :: init[i];
      assert s == t + {ids[|ids| - 1]};
      assert ids[|ids| - 1] !in t;
    }
  }
}
