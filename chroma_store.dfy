/** The vector collection the v2 manager writes to, as far as the manager uses it:
    a keyed set of records with a listing order, `add` (an existing id is left
    alone), `update`, `delete` and `get(where={"user_id": u})`. The embedding index
    behind `query` is not part of this model: its answers are given to the manager. */
module ChromaStore {
  import opened Seqs
  import opened MemoryRecords

  /** The collection's contents: records by id, and the order `get` lists them in. */
  datatype Store = Store(items: map<string, Record>, order: seq<string>)

  /** Every stored id is listed exactly once. */
  ghost predicate Valid(s: Store) {
    && NoDuplicates(s.order)
    && (forall id :: id in s.items <==> id in s.order)
  }

  const Empty: Store := Store(map[], [])

  /** The entries of `order` that are stored and belong to user `u`, in order. */
  function ListOf(order: seq<string>, items: map<string, Record>, u: string): (es: seq<Entry>)
    ensures |es| <= |order|
    ensures forall e :: e in es ==> e.0 in order && e.0 in items && e.1 == items[e.0] && e.1.userId == u
  {
    if order == [] then []
    else
      var id := order[0];
      (if id in items && items[id].userId == u then [(id, items[id])] else [])
      + ListOf(order[1..], items, u)
  }

  /** `collection.get(where={"user_id": u})` */
  function Listing(s: Store, u: string): seq<Entry> {
    ListOf(s.order, s.items, u)
  }

  /** `collection.add`: a new id is stored and listed last; an existing id is ignored. */
  function AddOne(s: Store, id: string, rec: Record): (r: Store)
    ensures Valid(s) ==> Valid(r)
    ensures id in r.items
    ensures id !in s.items ==> r.items == s.items[id := rec] && r.order == s.order + [id]
    ensures id in s.items ==> r == s
  {
    if id in s.items then s else Store(s.items[id := rec], s.order + [id])
  }

  /** `collection.update`: replaces the record of a stored id; an unknown id is ignored. */
  function UpdateOne(s: Store, id: string, rec: Record): (r: Store)
    ensures Valid(s) ==> Valid(r)
    ensures r.order == s.order && r.items.Keys == s.items.Keys
    ensures id in s.items ==> r.items[id] == rec
    ensures forall k :: k in s.items && k != id ==> r.items[k] == s.items[k]
  {
    if id in s.items then Store(s.items[id := rec], s.order) else s
  }

  function Other(id: string): string -> bool {
    x => x != id
  }

  /** `collection.delete(ids=[id])` */
  function DeleteOne(s: Store, id: string): (r: Store)
    ensures Valid(s) ==> Valid(r)
    ensures id !in r.items
    ensures r.items == s.items - {id}
  {
    var order := Filter(s.order, Other(id));
    assert Valid(s) ==> Valid(Store(s.items - {id}, order)) by {
      if Valid(s) {
        FilterKeepsNoDuplicates(s.order, Other(id));
        FilterMembership(s.order, Other(id));
      }
    }
    Store(s.items - {id}, order)
  }

  /** Deleting the ids one by one, first to last. */
  function DeleteAll(s: Store, ids: seq<string>): (r: Store)
    ensures Valid(s) ==> Valid(r)
    ensures forall id :: id in r.items <==> id in s.items && id !in ids
    ensures forall id :: id in r.items ==> r.items[id] == s.items[id]
  {
    if ids == [] then s else DeleteOne(DeleteAll(s, ids[..|ids| - 1]), ids[|ids| - 1])
  }

  // ---------------------------------------------------------------------------
  // How each operation changes one user's listing
  // ---------------------------------------------------------------------------

  lemma {:induction false} ListOfAppend(o1: seq<string>, o2: seq<string>, items: map<string, Record>, u: string)
    ensures ListOf(o1 + o2, items, u) == ListOf(o1, items, u) + ListOf(o2, items, u)
  {
    if o1 == [] {
      assert o1 + o2 == o2;
    } else {
      assert (o1 + o2)[0] == o1[0] && (o1 + o2)[1..] == o1[1..] + o2;
      ListOfAppend(o1[1..], o2, items, u);
    }
  }

  /** Storing a record under an id that is not listed changes no listing. */
  lemma {:induction false} ListOfUnlistedKey(order: seq<string>, items: map<string, Record>, id: string, rec: Record, u: string)
    requires id !in order
    ensures ListOf(order, items[id := rec], u) == ListOf(order, items, u)
  {
    if order != [] {
      ListOfUnlistedKey(order[1..], items, id, rec, u);
    }
  }

  /** A listing never repeats an id when the order does not. */
  lemma {:induction false} ListOfDistinct(order: seq<string>, items: map<string, Record>, u: string)
    requires NoDuplicates(order)
    ensures DistinctIds(ListOf(order, items, u))
  {
    if order != [] {
      ListOfDistinct(order[1..], items, u);
      assert order[0] !in order[1..];
    }
  }

  lemma ListingDistinct(s: Store, u: string)
    requires Valid(s)
    ensures DistinctIds(Listing(s, u))
  {
    ListOfDistinct(s.order, s.items, u);
  }

  /** `add` appends the new record to its owner's listing and to no other. */
  lemma ListingAfterAdd(s: Store, id: string, rec: Record, u: string)
    requires Valid(s)
    ensures Listing(AddOne(s, id, rec), u)
         == Listing(s, u) + (if id !in s.items && rec.userId == u then [(id, rec)] else [])
  {
    if id !in s.items {
      ListOfAppend(s.order, [id], s.items[id := rec], u);
      ListOfUnlistedKey(s.order, s.items, id, rec, u);
      assert [id][1..] == [];
    }
  }

  /** Dropping a key from the records drops its entry from every listing. */
  lemma {:induction false} ListOfRemoveKey(order: seq<string>, items: map<string, Record>, id: string, u: string)
    ensures ListOf(order, items - {id}, u) == Filter(ListOf(order, items, u), NotListed([id]))
  {
    if order != [] {
      ListOfRemoveKey(order[1..], items, id, u);
      var h := if order[0] in items && items[order[0]].userId == u then [(order[0], items[order[0]])] else [];
      FilterAppend(h, ListOf(order[1..], items, u), NotListed([id]));
    }
  }

  /** Unlisting a key that has no record changes no listing. */
  lemma {:induction false} ListOfSkipsMissing(order: seq<string>, items: map<string, Record>, id: string, u: string)
    requires id !in items
    ensures ListOf(Filter(order, Other(id)), items, u) == ListOf(order, items, u)
  {
    if order != [] {
      ListOfSkipsMissing(order[1..], items, id, u);
      var f := Filter(order, Other(id));
      if order[0] != id {
        assert f == [order[0]] + Filter(order[1..], Other(id));
        assert f[0] == order[0] && f[1..] == Filter(order[1..], Other(id));
      } else {
        assert f == Filter(order[1..], Other(id));
      }
    }
  }

  /** `delete(ids=[id])` removes exactly that id from a listing. */
  lemma ListingAfterDelete(s: Store, id: string, u: string)
    ensures Listing(DeleteOne(s, id), u) == Filter(Listing(s, u), NotListed([id]))
  {
    ListOfSkipsMissing(s.order, s.items - {id}, id, u);
    ListOfRemoveKey(s.order, s.items, id, u);
  }

  /** Deleting a list of ids removes exactly those ids from a listing, keeping its order. */
  lemma {:induction false} ListingAfterDeleteAll(s: Store, ids: seq<string>, u: string)
    ensures Listing(DeleteAll(s, ids), u) == Filter(Listing(s, u), NotListed(ids))
  {
    if ids == [] {
      FilterAllPass(Listing(s, u), NotListed(ids));
    } else {
      var init, last := ids[..|ids| - 1], ids[|ids| - 1];
      ListingAfterDeleteAll(s, init, u);
      ListingAfterDelete(DeleteAll(s, init), last, u);
      assert ids == init + [last];
      FilterFilter(Listing(s, u), NotListed(init), NotListed([last]), NotListed(ids));
    }
  }

  /** Deleting ids owned by no entry of a listing leaves that listing as it was. */
  lemma ListingUntouched(s: Store, ids: seq<string>, v: string)
    requires forall id :: id in ids && id in s.items ==> s.items[id].userId != v
    ensures Listing(DeleteAll(s, ids), v) == Listing(s, v)
  {
    ListingAfterDeleteAll(s, ids, v);
    FilterAllPass(Listing(s, v), NotListed(ids));
  }

  /** Replacing a record of one owner by another of the same owner leaves every
      other owner's listing as it was. */
  lemma {:induction false} ListOfOtherOwner(order: seq<string>, items: map<string, Record>, id: string, rec: Record, v: string)
    requires id in items && items[id].userId != v && rec.userId != v
    ensures ListOf(order, items[id := rec], v) == ListOf(order, items, v)
  {
    if order != [] {
      ListOfOtherOwner(order[1..], items, id, rec, v);
    }
  }
}
