/** The v2 memory manager: per-user records in one shared collection, pruned on
    every write and re-ranked on every read. The collection and the manager are
    objects updated in place; each method is proved against the store functions
    of module ChromaStore and the policies of module MemoryRecords. */
module MemoryStore {
  import opened Seqs
  import opened MemoryRecords
  import opened ChromaStore

  /** The collection object the manager holds. */
  class Collection {
    var items: map<string, Record>
    var order: seq<string>

    function State(): Store
      reads this
    {
      Store(items, order)
    }

    ghost predicate Valid()
      reads this
    {
      ChromaStore.Valid(State())
    }

    /** Opens a collection that already holds `initial` (the store is persistent). */
    constructor (initial: Store)
      requires ChromaStore.Valid(initial)
      ensures State() == initial && Valid()
    {
      items := initial.items;
      order := initial.order;
    }

    method Add(id: string, rec: Record)
      requires Valid()
      modifies this
      ensures State() == AddOne(old(State()), id, rec) && Valid()
    {
      if id !in items {
        items := items[id := rec];
        order := order + [id];
      }
    }

    method Update(id: string, rec: Record)
      requires Valid()
      modifies this
      ensures State() == UpdateOne(old(State()), id, rec) && Valid()
    {
      if id in items {
        items := items[id := rec];
      }
    }

    method Delete(id: string)
      requires Valid()
      modifies this
      ensures State() == DeleteOne(old(State()), id) && Valid()
    {
      items := items - {id};
      order := Filter(order, Other(id));
    }
  }

  /** The state `_prune_user_memory(u)` leaves: the user's victims deleted. */
  function PruneState(s: Store, u: string, now: int, cfg: Config): Store {
    DeleteAll(s, PruneVictims(Listing(s, u), now, cfg))
  }

  /** Every candidate's id is stored (the search only returns stored records). */
  predicate Known(candidates: seq<Candidate>, items: map<string, Record>) {
    forall j :: 0 <= j < |candidates| ==> candidates[j].id in items
  }

  /** The processed list of the retrieval loop, before sorting: one scored entry
      per candidate, read from the collection as it was when the query ran. */
  function Processed(candidates: seq<Candidate>, items: map<string, Record>, now: int): (r: seq<Scored>)
    requires Known(candidates, items)
    ensures |r| == |candidates|
    ensures forall i :: 0 <= i < |r| ==> r[i] == ScoreCandidate(candidates[i], items[candidates[i].id], now)
  {
    seq(|candidates|, i requires 0 <= i < |candidates| => ScoreCandidate(candidates[i], items[candidates[i].id], now))
  }

  /** The collection after the loop has written back `last_access = now` for each
      candidate, one `update` at a time. */
  function TouchAll(s: Store, candidates: seq<Candidate>, now: int): (r: Store)
    ensures ChromaStore.Valid(s) ==> ChromaStore.Valid(r)
    ensures r.order == s.order && r.items.Keys == s.items.Keys
    ensures forall id :: id in s.items && id in CandidateIds(candidates) ==> r.items[id] == Touch(s.items[id], now)
    ensures forall id :: id in s.items && id !in CandidateIds(candidates) ==> r.items[id] == s.items[id]
  {
    if candidates == [] then s
    else
      var init, last := candidates[..|candidates| - 1], candidates[|candidates| - 1];
      var t := TouchAll(s, init, now);
      assert CandidateIds(candidates) == CandidateIds(init) + [last.id];
      if last.id in s.items then UpdateOne(t, last.id, Touch(s.items[last.id], now)) else t
  }

  function CandidateIds(candidates: seq<Candidate>): (ids: seq<string>)
    ensures |ids| == |candidates|
    ensures forall i :: 0 <= i < |candidates| ==> ids[i] == candidates[i].id
  {
    seq(|candidates|, i requires 0 <= i < |candidates| => candidates[i].id)
  }

  /** One more round of the eviction loop appends one id. */
  lemma IdsStep(t: seq<Entry>, j: nat)
    requires j < |t|
    ensures Ids(t[..j + 1]) == Ids(t[..j]) + [t[j].0]
  {
  }

  /** One more round of the retrieval loop appends one scored entry. */
  lemma ProcessedStep(candidates: seq<Candidate>, i: nat, items: map<string, Record>, now: int)
    requires i < |candidates|
    requires Known(candidates, items)
    ensures Known(candidates[..i], items) && Known(candidates[..i + 1], items)
    ensures Processed(candidates[..i + 1], items, now)
         == Processed(candidates[..i], items, now) + [ScoreCandidate(candidates[i], items[candidates[i].id], now)]
  {
  }

  lemma TouchAllStep(s: Store, candidates: seq<Candidate>, i: nat, now: int)
    requires i < |candidates| && candidates[i].id in s.items
    ensures TouchAll(s, candidates[..i + 1], now)
         == UpdateOne(TouchAll(s, candidates[..i], now), candidates[i].id, Touch(s.items[candidates[i].id], now))
  {
    assert candidates[..i + 1][..i] == candidates[..i];
  }

  class MemoryManagerV2 {
    const collection: Collection
    const config: Config

    ghost predicate Valid()
      reads this, collection
    {
      collection.Valid()
    }

    constructor (initial: Store, config: Config := DefaultConfig)
      requires ChromaStore.Valid(initial)
      ensures this.config == config && collection.State() == initial && Valid()
      ensures fresh(collection)
    {
      this.config := config;
      collection := new Collection(initial);
    }

    /** `add_memory`: stores a new record under `f"{user_id}_{ts}_{fingerprint}"`, then
        prunes the user's records. `ts` and `pruneClock` are the two clock readings,
        `fingerprint` is `abs(hash(content))`; type, tags and importance default as in
        the source (a "history" record, no tags, importance 0.3). */
    method AddMemory(userId: string, content: string, ts: int, fingerprint: nat, pruneClock: int,
                     memoryType: string := DefaultMemoryType, tags: Option<seq<string>> := None,
                     importance: real := DefaultImportance) returns (memoryId: string)
      requires Valid()
      modifies collection
      ensures Valid()
      ensures memoryId == MemoryId(userId, ts, fingerprint)
      ensures collection.State()
           == PruneState(AddOne(old(collection.State()), memoryId,
                                NewRecord(userId, content, memoryType, tags, importance, ts)),
                         userId, pruneClock, config)
    {
      memoryId := MemoryId(userId, ts, fingerprint);
      collection.Add(memoryId, NewRecord(userId, content, memoryType, tags, importance, ts));
      PruneUserMemory(userId, pruneClock);
    }

    /** `retrieve_relevant_memories`: `candidates` is the similarity query's answer,
        the user's stored ids nearest to the query with their cosine distances; the
        query asks for `limit * 3` of them, so there are at most that many, and all of
        them are touched while only `limit` are returned. */
    method RetrieveRelevantMemories(userId: string, candidates: seq<Candidate>, now: int,
                                    limit: nat := DefaultRetrieveLimit)
      returns (result: seq<Scored>)
      requires Valid()
      requires |candidates| <= OverFetch * limit
      requires forall c :: c in candidates ==> c.id in collection.items && collection.items[c.id].userId == userId
      modifies collection
      ensures Valid()
      ensures result == TopRanked(Processed(candidates, old(collection.items), now), limit)
      ensures collection.State() == TouchAll(old(collection.State()), candidates, now)
    {
      if |candidates| == 0 {
        return [];
      }
      ghost var s0 := collection.State();
      var snapshot := collection.items;
      assert Known(candidates, snapshot) by {
        forall j | 0 <= j < |candidates| ensures candidates[j].id in snapshot {
          assert candidates[j] in candidates;
        }
      }
      var processed: seq<Scored> := [];
      var i := 0;
      while i < |candidates|
        invariant 0 <= i <= |candidates|
        invariant collection.Valid()
        invariant Known(candidates[..i], snapshot)
        invariant processed == Processed(candidates[..i], snapshot, now)
        invariant collection.State() == TouchAll(s0, candidates[..i], now)
      {
        var c := candidates[i];
        var meta := snapshot[c.id];
        ProcessedStep(candidates, i, snapshot, now);
        TouchAllStep(s0, candidates, i, now);
        processed := processed + [ScoreCandidate(c, meta, now)];
        collection.Update(c.id, Touch(meta, now));
        i := i + 1;
      }
      assert candidates[..i] == candidates;
      result := TopRanked(processed, limit);
    }

    /** `clear_user_memory`: deletes every record the user owns, one id at a time. */
    method ClearUserMemory(userId: string)
      requires Valid()
      modifies collection
      ensures Valid()
      ensures collection.State() == DeleteAll(old(collection.State()), Ids(Listing(old(collection.State()), userId)))
    {
      var ids := Ids(Listing(collection.State(), userId));
      DeleteEach(ids);
    }

    /** `for mid in ids: collection.delete(ids=[mid])` */
    method DeleteEach(ids: seq<string>)
      requires Valid()
      modifies collection
      ensures Valid()
      ensures collection.State() == DeleteAll(old(collection.State()), ids)
    {
      ghost var s0 := collection.State();
      var k := 0;
      while k < |ids|
        invariant 0 <= k <= |ids|
        invariant collection.Valid()
        invariant collection.State() == DeleteAll(s0, ids[..k])
      {
        collection.Delete(ids[k]);
        assert ids[..k + 1][..k] == ids[..k];
        k := k + 1;
      }
      assert ids[..k] == ids;
    }

    /** `_prune_user_memory`: rule 1 marks expired short-term and history records,
        rule 2 marks the least important survivors over the cap, then all are deleted. */
    method PruneUserMemory(userId: string, now: int)
      requires Valid()
      modifies collection
      ensures Valid()
      ensures collection.State() == PruneState(old(collection.State()), userId, now, config)
    {
      var es := Listing(collection.State(), userId);
      if |es| == 0 {
        return;
      }
      var toDelete := MarkExpired(es, now);
      toDelete := MarkOverCapacity(es, toDelete, now);
      DeleteEach(toDelete);
    }

    /** Rule 1 of `_prune_user_memory`: the ids of the expired entries, in listing order. */
    method MarkExpired(es: seq<Entry>, now: int) returns (toDelete: seq<string>)
      ensures toDelete == ExpiredIds(es, now, config)
    {
      toDelete := [];
      var i := 0;
      while i < |es|
        invariant 0 <= i <= |es|
        invariant toDelete == ExpiredIds(es[..i], now, config)
      {
        var mid, meta := es[i].0, es[i].1;
        var age := now - meta.createdAt;
        ExpiredIdsStep(es, i, now, config);
        if meta.memoryType == "shortterm" && age > config.shortTermExpireSec {
          toDelete := toDelete + [mid];
        } else if meta.memoryType == "history" && age > config.historyExpireSec {
          toDelete := toDelete + [mid];
        }
        i := i + 1;
      }
      assert es[..i] == es;
    }

    /** Rule 2 of `_prune_user_memory`: when more than the cap survive rule 1, the
        survivors are sorted by ascending importance and the excess is marked. */
    method MarkOverCapacity(es: seq<Entry>, expired: seq<string>, now: int) returns (toDelete: seq<string>)
      requires expired == ExpiredIds(es, now, config)
      ensures toDelete == PruneVictims(es, now, config)
    {
      toDelete := expired;
      if |es| - |toDelete| > config.maxItemsPerUser {
        var survivors := Filter(es, NotListed(toDelete));
        survivors := SortBy(survivors, ImportanceKey());
        assert survivors == Ranked(es, now, config);
        var excess := |survivors| - config.maxItemsPerUser;
        var j := 0;
        while j < excess
          invariant 0 <= j <= |survivors| && (excess > 0 ==> j <= excess) && (excess <= 0 ==> j == 0)
          invariant toDelete == expired + Ids(survivors[..j])
        {
          IdsStep(survivors, j);
          toDelete := toDelete + [survivors[j].0];
          j := j + 1;
        }
        if excess > 0 {
          assert CapacityVictims(es, now, config) == survivors[..excess];
        } else {
          assert CapacityVictims(es, now, config) == [] == survivors[..j];
        }
      } else {
        assert CapacityVictims(es, now, config) == [];
        assert toDelete == expired + Ids([]);
      }
    }
  }

  // ---------------------------------------------------------------------------
  // What each operation does to the users' listings
  // ---------------------------------------------------------------------------

  /** Every id a listing shows is stored and owned by that user. */
  lemma ListingOwned(s: Store, u: string)
    ensures forall id :: id in Ids(Listing(s, u)) ==> id in s.items && s.items[id].userId == u
  {
    var es := Listing(s, u);
    forall id | id in Ids(es) ensures id in s.items && s.items[id].userId == u {
      var k :| 0 <= k < |es| && Ids(es)[k] == id;
      assert es[k] in es;
    }
  }

  /** Pruning leaves the user exactly the pruning survivors, in listing order, and
      every other user's records as they were. */
  lemma PruneStateEffect(s: Store, u: string, now: int, cfg: Config, v: string)
    ensures Listing(PruneState(s, u, now, cfg), u) == PruneSurvivors(Listing(s, u), now, cfg)
    ensures v != u ==> Listing(PruneState(s, u, now, cfg), v) == Listing(s, v)
  {
    var es := Listing(s, u);
    ListingAfterDeleteAll(s, PruneVictims(es, now, cfg), u);
    if v != u {
      VictimsFromListing(es, now, cfg);
      ListingOwned(s, u);
      ListingUntouched(s, PruneVictims(es, now, cfg), v);
    }
  }

  /** `add_memory` as a whole: the user's listing becomes the pruning survivors of
      the old listing plus the new record (when its id was new), and nobody else's
      listing changes. */
  lemma AddMemoryEffect(s: Store, id: string, rec: Record, now: int, cfg: Config, v: string)
    requires ChromaStore.Valid(s)
    ensures var after := PruneState(AddOne(s, id, rec), rec.userId, now, cfg);
            Listing(after, rec.userId)
            == PruneSurvivors(Listing(s, rec.userId) + (if id !in s.items then [(id, rec)] else []), now, cfg)
    ensures v != rec.userId ==> Listing(PruneState(AddOne(s, id, rec), rec.userId, now, cfg), v) == Listing(s, v)
  {
    ListingAfterAdd(s, id, rec, rec.userId);
    ListingAfterAdd(s, id, rec, v);
    PruneStateEffect(AddOne(s, id, rec), rec.userId, now, cfg, v);
  }

  /** After `add_memory` the user never holds more records than the cap. */
  lemma AddMemoryRespectsCap(s: Store, id: string, rec: Record, now: int, cfg: Config)
    requires ChromaStore.Valid(s)
    ensures |Listing(PruneState(AddOne(s, id, rec), rec.userId, now, cfg), rec.userId)| <= cfg.maxItemsPerUser
  {
    var s1 := AddOne(s, id, rec);
    PruneStateEffect(s1, rec.userId, now, cfg, rec.userId);
    ListingDistinct(s1, rec.userId);
    PruneCapacity(Listing(s1, rec.userId), now, cfg);
  }

  /** `clear_user_memory` empties the user's listing and leaves everyone else's. */
  lemma ClearEffect(s: Store, u: string, v: string)
    ensures Listing(DeleteAll(s, Ids(Listing(s, u))), u) == []
    ensures v != u ==> Listing(DeleteAll(s, Ids(Listing(s, u))), v) == Listing(s, v)
  {
    var es := Listing(s, u);
    ListingAfterDeleteAll(s, Ids(es), u);
    forall i | 0 <= i < |es| ensures !NotListed(Ids(es))(es[i]) {
      assert Ids(es)[i] == es[i].0;
    }
    FilterNonePass(es, NotListed(Ids(es)));
    if v != u {
      ListingOwned(s, u);
      ListingUntouched(s, Ids(es), v);
    }
  }

  /** Retrieval changes only the user's own records, and only their access time. */
  lemma {:induction false} RetrieveKeepsOthers(s: Store, candidates: seq<Candidate>, now: int, u: string, v: string)
    requires forall c :: c in candidates ==> c.id in s.items && s.items[c.id].userId == u
    requires v != u
    ensures Listing(TouchAll(s, candidates, now), v) == Listing(s, v)
  {
    if candidates != [] {
      var init, last := candidates[..|candidates| - 1], candidates[|candidates| - 1];
      assert forall c :: c in init ==> c in candidates;
      RetrieveKeepsOthers(s, init, now, u, v);
      var t := TouchAll(s, init, now);
      assert t.items[last.id].userId == u;
      ListOfOtherOwner(t.order, t.items, last.id, Touch(s.items[last.id], now), v);
    }
  }
}
