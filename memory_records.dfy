/** The records of the tiered memory store and the two policies it applies to them:
    the pruning pass run after every write (type-based expiry, then an
    importance-ordered capacity cut) and the weighted re-ranking of retrieval
    candidates. Everything here is a function of its inputs; the store that
    applies it in place is module MemoryStore. */
module MemoryRecords {
  import opened Seqs
  import opened Text

  const DefaultMemoryType: string := "history"
  const DefaultImportance: real := 0.3
  const SecondsPerDay: int := 86400

  /** The metadata kept beside one stored document. `importance` is optional because
      a record written by other code may lack it; readers then take 0.3. */
  datatype Record = Record(
    userId: string,
    content: string,
    memoryType: string,
    tags: seq<string>,
    importance: Option<real>,
    createdAt: int,
    lastAccess: int)

  /** `meta.get("importance", 0.3)` */
  function Importance(r: Record): real {
    r.importance.GetOr(DefaultImportance)
  }

  /** Construction parameters of the store (the capacity is never negative). */
  datatype Config = Config(maxItemsPerUser: nat, shortTermExpireSec: int, historyExpireSec: int)

  const DefaultConfig: Config := Config(500, 60 * 30, 60 * 10)

  /** `retrieve_relevant_memories` returns 5 results unless told otherwise, and asks
      the similarity search for three times as many candidates. */
  const DefaultRetrieveLimit: nat := 5
  const OverFetch: nat := 3

  /** One row of `collection.get(where=...)`: an id with its metadata. */
  type Entry = (string, Record)

  // ---------------------------------------------------------------------------
  // Writing a record
  // ---------------------------------------------------------------------------

  /** `f"{user_id}_{ts}_{abs(hash(content))}"`; the fingerprint is given. */
  function MemoryId(userId: string, ts: int, fingerprint: nat): string {
    userId + "_" + IntToString(ts) + "_" + NatToString(fingerprint)
  }

  /** Two ids collide exactly when owner, second and fingerprint all agree. */
  lemma MemoryIdInjective(u1: string, t1: int, h1: nat, u2: string, t2: int, h2: nat)
    requires MemoryId(u1, t1, h1) == MemoryId(u2, t2, h2)
    ensures u1 == u2 && t1 == t2 && h1 == h2
  {
    var n1, n2 := NatToString(h1), NatToString(h2);
    var i1, i2 := IntToString(t1), IntToString(t2);
    assert '_' !in n1 && '_' !in n2;
    assert '_' !in i1 && '_' !in i2;
    assert MemoryId(u1, t1, h1) == (u1 + "_" + i1) + ['_'] + n1;
    assert MemoryId(u2, t2, h2) == (u2 + "_" + i2) + ['_'] + n2;
    SplitAtLast('_', u1 + "_" + i1, n1, u2 + "_" + i2, n2);
    assert u1 + "_" + i1 == u1 + ['_'] + i1;
    assert u2 + "_" + i2 == u2 + ['_'] + i2;
    SplitAtLast('_', u1, i1, u2, i2);
    IntToStringInjective(t1, t2);
    NatToStringRoundTrip(h1);
    NatToStringRoundTrip(h2);
  }

  /** The metadata `add_memory` writes: `tags or []`, `float(importance)`, both times `ts`. */
  function NewRecord(userId: string, content: string, memoryType: string,
                     tags: Option<seq<string>>, importance: real, ts: int): (r: Record)
    ensures r.userId == userId && r.content == content && r.memoryType == memoryType
    ensures r.tags == (if tags.Some? then tags.value else [])
    ensures Importance(r) == importance && r.importance.Some?
    ensures r.createdAt == ts && r.lastAccess == ts
  {
    Record(userId, content, memoryType, tags.GetOr([]), Some(importance), ts, ts)
  }

  // ---------------------------------------------------------------------------
  // Pruning
  // ---------------------------------------------------------------------------

  /** Rule 1: a `shortterm` or `history` record older (strictly) than its window.
      Every other type is never removed by age. */
  predicate Expired(r: Record, now: int, cfg: Config) {
    var age := now - r.createdAt;
    (r.memoryType == "shortterm" && age > cfg.shortTermExpireSec)
    || (r.memoryType == "history" && age > cfg.historyExpireSec)
  }

  /** Under the default limits a record written with the default type ("history")
      expires after ten minutes, while a "shortterm" one of the same age lasts thirty. */
  lemma DefaultTypeExpiresFirst(userId: string, content: string, ts: int, now: int)
    requires DefaultConfig.historyExpireSec < now - ts <= DefaultConfig.shortTermExpireSec
    ensures Expired(NewRecord(userId, content, DefaultMemoryType, None, DefaultImportance, ts), now, DefaultConfig)
    ensures !Expired(NewRecord(userId, content, "shortterm", None, DefaultImportance, ts), now, DefaultConfig)
  {
  }

  function ExpiredTest(now: int, cfg: Config): Entry -> bool {
    (e: Entry) => Expired(e.1, now, cfg)
  }

  function Ids(es: seq<Entry>): (ids: seq<string>)
    ensures |ids| == |es|
    ensures forall i :: 0 <= i < |es| ==> ids[i] == es[i].0
  {
    seq(|es|, i requires 0 <= i < |es| => es[i].0)
  }

  /** `mid not in to_delete` */
  function NotListed(dead: seq<string>): Entry -> bool {
    (e: Entry) => e.0 !in dead
  }

  /** `meta.get("importance", 0.3)` as a sort key. */
  function ImportanceKey(): Entry -> real {
    (e: Entry) => Importance(e.1)
  }

  /** The ids rule 1 marks, in listing order. */
  function ExpiredIds(es: seq<Entry>, now: int, cfg: Config): seq<string> {
    Ids(Filter(es, ExpiredTest(now, cfg)))
  }

  /** Rule 2: if more than the cap survive rule 1, the survivors sorted stably by
      ascending importance, and the first `len(survivors) - cap` of them. */
  function CapacityVictims(es: seq<Entry>, now: int, cfg: Config): seq<Entry> {
    var expired := ExpiredIds(es, now, cfg);
    if |es| - |expired| > cfg.maxItemsPerUser then
      var ranked := Ranked(es, now, cfg);
      var excess := |ranked| - cfg.maxItemsPerUser;
      if excess > 0 then ranked[..excess] else []
    else []
  }

  /** The `to_delete` list of `_prune_user_memory` for the user's listing `es`. */
  function PruneVictims(es: seq<Entry>, now: int, cfg: Config): seq<string> {
    ExpiredIds(es, now, cfg) + Ids(CapacityVictims(es, now, cfg))
  }

  /** The user's entries that pruning leaves in place. */
  function PruneSurvivors(es: seq<Entry>, now: int, cfg: Config): seq<Entry> {
    Filter(es, NotListed(PruneVictims(es, now, cfg)))
  }

  /** A listing from one collection never repeats an id. */
  ghost predicate DistinctIds(es: seq<Entry>) {
    forall i, j :: 0 <= i < j < |es| ==> es[i].0 != es[j].0
  }

  lemma SameIdSameEntry(es: seq<Entry>, x: Entry, y: Entry)
    requires DistinctIds(es) && x in es && y in es && x.0 == y.0
    ensures x == y
  {
  }

  lemma {:induction false} DistinctIdsCountOnce(es: seq<Entry>, x: Entry)
    requires DistinctIds(es)
    ensures multiset(es)[x] <= 1
  {
    if es != [] {
      assert es == [es[0]] + es[1..];
      DistinctIdsCountOnce(es[1..], x);
      if x == es[0] {
        assert x !in es[1..];
      }
    }
  }

  /** A rearrangement of part of a listing still has distinct ids. */
  lemma DistinctIdsSubMultiset(es: seq<Entry>, t: seq<Entry>)
    requires DistinctIds(es) && multiset(t) <= multiset(es)
    ensures DistinctIds(t)
  {
    forall i, j | 0 <= i < j < |t| ensures t[i].0 != t[j].0 {
      if t[i].0 == t[j].0 {
        assert t[i] in multiset(es) && t[j] in multiset(es);
        SameIdSameEntry(es, t[i], t[j]);
        assert t == t[..j] + t[j..];
        assert t[i] in t[..j] && t[j] in t[j..];
        assert multiset(t) == multiset(t[..j]) + multiset(t[j..]);
        DistinctIdsCountOnce(es, t[i]);
        assert false;
      }
    }
  }

  /** With distinct ids, "listed in to_delete" and "expired" coincide. */
  lemma ExpiredIdsMembership(es: seq<Entry>, now: int, cfg: Config)
    requires DistinctIds(es)
    ensures forall e :: e in es ==> (e.0 in ExpiredIds(es, now, cfg) <==> Expired(e.1, now, cfg))
  {
    var f := Filter(es, ExpiredTest(now, cfg));
    forall e | e in es ensures e.0 in ExpiredIds(es, now, cfg) <==> Expired(e.1, now, cfg) {
      if e.0 in ExpiredIds(es, now, cfg) {
        var k :| 0 <= k < |f| && Ids(f)[k] == e.0;
        SameIdSameEntry(es, f[k], e);
      }
      if Expired(e.1, now, cfg) {
        var i :| 0 <= i < |es| && es[i] == e;
        assert e in f;
        var k :| 0 <= k < |f| && f[k] == e;
        assert Ids(f)[k] == e.0;
      }
    }
  }

  function NotExpired(now: int, cfg: Config): Entry -> bool {
    (e: Entry) => !Expired(e.1, now, cfg)
  }

  /** Rule 1 survivors: the entries whose id is not in `to_delete` yet. */
  function Unexpired(es: seq<Entry>, now: int, cfg: Config): seq<Entry> {
    Filter(es, NotListed(ExpiredIds(es, now, cfg)))
  }

  /** The survivors in eviction order. */
  function Ranked(es: seq<Entry>, now: int, cfg: Config): seq<Entry> {
    SortBy(Unexpired(es, now, cfg), ImportanceKey())
  }

  /** How many survivors rule 2 removes. */
  function Excess(es: seq<Entry>, now: int, cfg: Config): nat {
    var n := |Unexpired(es, now, cfg)|;
    if n > cfg.maxItemsPerUser then n - cfg.maxItemsPerUser else 0
  }

  /** Rule 1 survivors are exactly the unexpired entries, and there are
      `len(ids) - len(to_delete)` of them. */
  lemma RuleOneSurvivors(es: seq<Entry>, now: int, cfg: Config)
    requires DistinctIds(es)
    ensures Unexpired(es, now, cfg) == Filter(es, NotExpired(now, cfg))
    ensures |Unexpired(es, now, cfg)| == |es| - |ExpiredIds(es, now, cfg)|
  {
    ExpiredIdsMembership(es, now, cfg);
    FilterExt(es, NotListed(ExpiredIds(es, now, cfg)), NotExpired(now, cfg));
    UnexpiredCount(es, now, cfg);
  }

  lemma UnexpiredCount(es: seq<Entry>, now: int, cfg: Config)
    requires DistinctIds(es)
    ensures |Unexpired(es, now, cfg)| == |es| - |ExpiredIds(es, now, cfg)|
  {
    ExpiredIdsMembership(es, now, cfg);
    FilterSplitLength(es, ExpiredTest(now, cfg), NotListed(ExpiredIds(es, now, cfg)));
  }

  /** The survivors are (a rearrangement of) part of the listing. */
  lemma UnexpiredWithin(es: seq<Entry>, now: int, cfg: Config)
    ensures multiset(Ranked(es, now, cfg)) == multiset(Unexpired(es, now, cfg)) <= multiset(es)
  {
    forall x ensures multiset(Unexpired(es, now, cfg))[x] <= multiset(es)[x] {
      FilterCount(es, NotListed(ExpiredIds(es, now, cfg)), x);
    }
  }

  /** Rule 2 evicts the `Excess` least important survivors. */
  lemma CapacityVictimsArePrefix(es: seq<Entry>, now: int, cfg: Config)
    requires DistinctIds(es)
    ensures CapacityVictims(es, now, cfg) == Ranked(es, now, cfg)[..Excess(es, now, cfg)]
  {
    UnexpiredCount(es, now, cfg);
  }

  /** Every expired entry is deleted; an entry is deleted only if it is expired or
      evicted by the capacity rule, and the capacity rule never takes an expired one. */
  lemma PruneDeletesExpired(es: seq<Entry>, now: int, cfg: Config)
    requires DistinctIds(es)
    ensures forall e :: e in es && Expired(e.1, now, cfg) ==> e.0 in PruneVictims(es, now, cfg)
    ensures forall e :: e in es && e.0 in PruneVictims(es, now, cfg) ==>
              Expired(e.1, now, cfg) || e in CapacityVictims(es, now, cfg)
    ensures forall e :: e in CapacityVictims(es, now, cfg) ==> e in es && !Expired(e.1, now, cfg)
  {
    ExpiredArePruned(es, now, cfg);
    CapacityVictimsUnexpired(es, now, cfg);
    PrunedAreExpiredOrEvicted(es, now, cfg);
  }

  lemma ExpiredArePruned(es: seq<Entry>, now: int, cfg: Config)
    requires DistinctIds(es)
    ensures forall e :: e in es && Expired(e.1, now, cfg) ==> e.0 in PruneVictims(es, now, cfg)
  {
    ExpiredIdsMembership(es, now, cfg);
  }

  lemma CapacityVictimsUnexpired(es: seq<Entry>, now: int, cfg: Config)
    requires DistinctIds(es)
    ensures forall e :: e in CapacityVictims(es, now, cfg) ==> e in es && !Expired(e.1, now, cfg)
  {
    RuleOneSurvivors(es, now, cfg);
    UnexpiredWithin(es, now, cfg);
    CapacityVictimsArePrefix(es, now, cfg);
    var ranked := Ranked(es, now, cfg);
    forall e | e in CapacityVictims(es, now, cfg) ensures e in es && !Expired(e.1, now, cfg) {
      assert e in multiset(ranked);
      assert e in Unexpired(es, now, cfg);
    }
  }

  lemma PrunedAreExpiredOrEvicted(es: seq<Entry>, now: int, cfg: Config)
    requires DistinctIds(es)
    ensures forall e :: e in es && e.0 in PruneVictims(es, now, cfg) ==>
              Expired(e.1, now, cfg) || e in CapacityVictims(es, now, cfg)
  {
    ExpiredIdsMembership(es, now, cfg);
    CapacityVictimsUnexpired(es, now, cfg);
    var cap := CapacityVictims(es, now, cfg);
    forall e | e in es && e.0 in PruneVictims(es, now, cfg)
      ensures Expired(e.1, now, cfg) || e in cap
    {
      if e.0 !in ExpiredIds(es, now, cfg) {
        assert e.0 in Ids(cap);
        var k :| 0 <= k < |cap| && Ids(cap)[k] == e.0;
        assert cap[k] in es;
        SameIdSameEntry(es, cap[k], e);
      }
    }
  }

  /** The rule 1 loop: one more entry appends its id exactly when it is expired. */
  lemma ExpiredIdsStep(es: seq<Entry>, i: nat, now: int, cfg: Config)
    requires i < |es|
    ensures ExpiredIds(es[..i + 1], now, cfg)
         == ExpiredIds(es[..i], now, cfg) + (if Expired(es[i].1, now, cfg) then [es[i].0] else [])
  {
    assert es[..i + 1] == es[..i] + [es[i]];
    FilterAppend(es[..i], [es[i]], ExpiredTest(now, cfg));
    assert Filter([es[i]], ExpiredTest(now, cfg)) == if Expired(es[i].1, now, cfg) then [es[i]] else [];
  }

  /** Pruning only ever names ids from the listing it was given. */
  lemma VictimsFromListing(es: seq<Entry>, now: int, cfg: Config)
    ensures forall id :: id in PruneVictims(es, now, cfg) ==> id in Ids(es)
  {
    var f := Filter(es, ExpiredTest(now, cfg));
    var cap := CapacityVictims(es, now, cfg);
    UnexpiredWithin(es, now, cfg);
    forall id | id in PruneVictims(es, now, cfg) ensures id in Ids(es) {
      var e: Entry;
      if id in Ids(f) {
        var k :| 0 <= k < |f| && Ids(f)[k] == id;
        e := f[k];
      } else {
        assert id in Ids(cap);
        var k :| 0 <= k < |cap| && Ids(cap)[k] == id;
        e := cap[k];
        assert e in Ranked(es, now, cfg);
        assert e in multiset(Unexpired(es, now, cfg));
      }
      assert e in es;
      var i :| 0 <= i < |es| && es[i] == e;
      assert Ids(es)[i] == id;
    }
  }

  /** When rule 1 leaves at most the cap, pruning deletes exactly the expired entries. */
  lemma PruneWithinCapIsTtlOnly(es: seq<Entry>, now: int, cfg: Config)
    requires |es| - |ExpiredIds(es, now, cfg)| <= cfg.maxItemsPerUser
    ensures PruneVictims(es, now, cfg) == ExpiredIds(es, now, cfg)
    ensures CapacityVictims(es, now, cfg) == []
  {
  }

  /** Types other than `shortterm` and `history` are removed only by the capacity rule. */
  lemma DurableTypesNeverExpire(r: Record, now: int, cfg: Config)
    requires r.memoryType != "shortterm" && r.memoryType != "history"
    ensures !Expired(r, now, cfg)
  {
  }

  /** The capacity rule removes exactly `survivors - cap` entries when the survivors
      exceed the cap, and none otherwise. */
  lemma CapacityVictimCount(es: seq<Entry>, now: int, cfg: Config)
    requires DistinctIds(es)
    ensures var survivors := |es| - |ExpiredIds(es, now, cfg)|;
            |CapacityVictims(es, now, cfg)| == if survivors > cfg.maxItemsPerUser then survivors - cfg.maxItemsPerUser else 0
  {
    RuleOneSurvivors(es, now, cfg);
  }

  /** In a listing with distinct ids, no later entry reuses an id of a prefix. */
  lemma PrefixIdsDisjoint(t: seq<Entry>, n: nat)
    requires DistinctIds(t) && n <= |t|
    ensures forall j :: n <= j < |t| ==> t[j].0 !in Ids(t[..n])
  {
    forall j | n <= j < |t| ensures t[j].0 !in Ids(t[..n]) {
      forall i | 0 <= i < n ensures Ids(t[..n])[i] != t[j].0 {
        assert Ids(t[..n])[i] == t[i].0;
      }
    }
  }

  /** Dropping the ids of a prefix of a listing with distinct ids leaves the rest. */
  lemma DropPrefixIds(t: seq<Entry>, n: nat)
    requires DistinctIds(t) && n <= |t|
    ensures Filter(t, NotListed(Ids(t[..n]))) == t[n..]
  {
    PrefixIdsUnlisted(t, n);
    SuffixIdsListed(t, n);
    FilterDropsPrefix(t, n, NotListed(Ids(t[..n])));
  }

  lemma PrefixIdsUnlisted(t: seq<Entry>, n: nat)
    requires n <= |t|
    ensures Filter(t[..n], NotListed(Ids(t[..n]))) == []
  {
    var a := t[..n];
    var p := NotListed(Ids(a));
    forall i | 0 <= i < |a| ensures !p(a[i]) {
      assert Ids(a)[i] == a[i].0;
    }
    FilterNonePass(a, p);
  }

  lemma SuffixIdsListed(t: seq<Entry>, n: nat)
    requires DistinctIds(t) && n <= |t|
    ensures Filter(t[n..], NotListed(Ids(t[..n]))) == t[n..]
  {
    var b := t[n..];
    var p := NotListed(Ids(t[..n]));
    PrefixIdsDisjoint(t, n);
    forall j | 0 <= j < |b| ensures p(b[j]) {
      assert b[j] == t[n + j];
    }
    FilterAllPass(b, p);
  }

  /** What pruning keeps is, up to order, the survivors after the evicted prefix. */
  lemma KeptAreRankedSuffix(es: seq<Entry>, now: int, cfg: Config)
    requires DistinctIds(es)
    ensures var ranked := Ranked(es, now, cfg);
            multiset(PruneSurvivors(es, now, cfg)) == multiset(ranked[Excess(es, now, cfg)..])
  {
    var expired := ExpiredIds(es, now, cfg);
    var ranked := Ranked(es, now, cfg);
    var a := ranked[..Excess(es, now, cfg)];
    CapacityVictimsArePrefix(es, now, cfg);
    UnexpiredWithin(es, now, cfg);
    FilterFilter(es, NotListed(expired), NotListed(Ids(a)), NotListed(PruneVictims(es, now, cfg)));
    FilterPermutation(Unexpired(es, now, cfg), ranked, NotListed(Ids(a)));
    DistinctIdsSubMultiset(es, ranked);
    DropPrefixIds(ranked, Excess(es, now, cfg));
  }

  /** An entry evicted from the sorted survivors is no more important than a kept one. */
  lemma EvictedBelowKept(ranked: seq<Entry>, n: nat, x: Entry, k: Entry)
    requires SortedBy(ranked, ImportanceKey()) && n <= |ranked|
    requires x in ranked[..n] && k in ranked[n..]
    ensures Importance(x.1) <= Importance(k.1)
  {
    var i :| 0 <= i < n && ranked[..n][i] == x;
    var j :| 0 <= j < |ranked| - n && ranked[n..][j] == k;
    assert ranked[i] == x && ranked[n + j] == k;
    assert ImportanceKey()(ranked[i]) <= ImportanceKey()(ranked[n + j]);
  }

  /** The capacity half of the pass: after it, the user holds `min(#unexpired, cap)`
      records, and no kept unexpired record is less important than an evicted one. */
  lemma PruneCapacity(es: seq<Entry>, now: int, cfg: Config)
    requires DistinctIds(es)
    ensures |PruneSurvivors(es, now, cfg)| == MinInt(|es| - |ExpiredIds(es, now, cfg)|, cfg.maxItemsPerUser)
    ensures forall x, k :: x in es && k in PruneSurvivors(es, now, cfg)
              && !Expired(x.1, now, cfg) && x.0 in PruneVictims(es, now, cfg)
              ==> Importance(x.1) <= Importance(k.1)
  {
    SurvivorCount(es, now, cfg);
    EvictedBelowSurvivors(es, now, cfg);
  }

  lemma SurvivorCount(es: seq<Entry>, now: int, cfg: Config)
    requires DistinctIds(es)
    ensures |PruneSurvivors(es, now, cfg)| == MinInt(|es| - |ExpiredIds(es, now, cfg)|, cfg.maxItemsPerUser)
  {
    var kept := PruneSurvivors(es, now, cfg);
    var ranked := Ranked(es, now, cfg);
    var excess := Excess(es, now, cfg);
    UnexpiredCount(es, now, cfg);
    KeptAreRankedSuffix(es, now, cfg);
    assert |kept| == |multiset(kept)| == |multiset(ranked[excess..])| == |ranked[excess..]|;
  }

  lemma EvictedBelowSurvivors(es: seq<Entry>, now: int, cfg: Config)
    requires DistinctIds(es)
    ensures forall x, k :: x in es && k in PruneSurvivors(es, now, cfg)
              && !Expired(x.1, now, cfg) && x.0 in PruneVictims(es, now, cfg)
              ==> Importance(x.1) <= Importance(k.1)
  {
    var kept := PruneSurvivors(es, now, cfg);
    var ranked := Ranked(es, now, cfg);
    var excess := Excess(es, now, cfg);
    PruneDeletesExpired(es, now, cfg);
    CapacityVictimsArePrefix(es, now, cfg);
    KeptAreRankedSuffix(es, now, cfg);
    forall x, k | x in es && k in kept && !Expired(x.1, now, cfg) && x.0 in PruneVictims(es, now, cfg)
      ensures Importance(x.1) <= Importance(k.1)
    {
      assert k in multiset(ranked[excess..]);
      EvictedBelowKept(ranked, excess, x, k);
    }
  }

  // ---------------------------------------------------------------------------
  // Retrieval scoring
  // ---------------------------------------------------------------------------

  /** One answer of the similarity query: a stored id and its cosine distance. */
  datatype Candidate = Candidate(id: string, distance: real)

  /** One element of `processed`. Its metadata is the dict the loop later bumps, so
      the caller sees `last_access == now`. */
  datatype Scored = Scored(id: string, content: string, metadata: Record, score: real)

  function MinReal(a: real, b: real): real { if a <= b then a else b }

  /** `1.0 - min(1.0, (now - last_access) / 86400)` */
  function Recency(r: Record, now: int): real {
    1.0 - MinReal(1.0, (now - r.lastAccess) as real / SecondsPerDay as real)
  }

  /** `sim * 0.7 + recency * 0.2 + importance * 0.1` with `sim = 1 - distance`. */
  function Score(distance: real, r: Record, now: int): real {
    (1.0 - distance) * 0.7 + Recency(r, now) * 0.2 + Importance(r) * 0.1
  }

  /** A record touched at or before `now` has recency between 0 and 1, and full
      recency exactly when it was touched this second. */
  lemma RecencyBounds(r: Record, now: int)
    requires r.lastAccess <= now
    ensures 0.0 <= Recency(r, now) <= 1.0
    ensures Recency(r, now) == 1.0 <==> r.lastAccess == now
    ensures now - r.lastAccess >= SecondsPerDay ==> Recency(r, now) == 0.0
  {
  }

  /** At equal recency and importance the closer candidate scores strictly higher;
      in particular distance 0 outranks distance 1. */
  lemma CloserScoresHigher(d1: real, d2: real, r: Record, now: int)
    requires d1 < d2
    ensures Score(d1, r, now) > Score(d2, r, now)
  {
  }

  function Touch(r: Record, now: int): Record {
    r.(lastAccess := now)
  }

  function ScoreCandidate(c: Candidate, r: Record, now: int): (s: Scored)
    ensures s.id == c.id && s.content == r.content
    ensures s.metadata == r.(lastAccess := now)
    ensures s.score == Score(c.distance, r, now)
  {
    Scored(c.id, r.content, Touch(r, now), Score(c.distance, r, now))
  }

  /** `key=lambda x: x["score"], reverse=True`: Python's reverse sort keeps equal
      keys in their original order, which is an ascending stable sort on `-score`. */
  function ByScoreDescending(): Scored -> real {
    (s: Scored) => -s.score
  }

  function ScoreIs(v: real): Scored -> bool {
    (s: Scored) => s.score == v
  }

  /** `processed.sort(...)` followed by `processed[:limit]`. */
  function TopRanked(processed: seq<Scored>, limit: nat): seq<Scored> {
    var ranked := SortBy(processed, ByScoreDescending());
    ranked[..MinInt(limit, |ranked|)]
  }

  /** The ranking returns `min(limit, n)` of the scored candidates, and only candidates. */
  lemma TopRankedSize(processed: seq<Scored>, limit: nat)
    ensures |TopRanked(processed, limit)| == MinInt(limit, |processed|)
    ensures multiset(TopRanked(processed, limit)) <= multiset(processed)
  {
    var ranked := SortBy(processed, ByScoreDescending());
    var k := MinInt(limit, |ranked|);
    assert ranked == ranked[..k] + ranked[k..];
    assert multiset(ranked) == multiset(ranked[..k]) + multiset(ranked[k..]);
  }

  /** The results come best first. */
  lemma TopRankedBestFirst(processed: seq<Scored>, limit: nat)
    ensures var top := TopRanked(processed, limit);
            forall i, j :: 0 <= i < j < |top| ==> top[i].score >= top[j].score
  {
    var ranked := SortBy(processed, ByScoreDescending());
    var top := TopRanked(processed, limit);
    forall i, j | 0 <= i < j < |top| ensures top[i].score >= top[j].score {
      assert top[i] == ranked[i] && top[j] == ranked[j];
      assert ByScoreDescending()(ranked[i]) <= ByScoreDescending()(ranked[j]);
    }
  }

  /** Every candidate left out scores no higher than any returned one. */
  lemma TopRankedDominates(processed: seq<Scored>, limit: nat)
    ensures var top := TopRanked(processed, limit);
            forall x, y :: x in processed && x !in top && y in top ==> x.score <= y.score
  {
    var ranked := SortBy(processed, ByScoreDescending());
    var k := MinInt(limit, |ranked|);
    var top := ranked[..k];
    forall x, y | x in processed && x !in top && y in top ensures x.score <= y.score {
      assert x in multiset(processed);
      assert x in multiset(ranked);
      var p :| 0 <= p < |ranked| && ranked[p] == x;
      var q :| 0 <= q < |top| && top[q] == y;
      assert ByScoreDescending()(ranked[q]) <= ByScoreDescending()(ranked[p]);
    }
  }

  /** Equal scores keep candidate order: among the returned results with score `v`,
      the order is that of the candidates with score `v`, and they are its first ones. */
  lemma {:induction false} TopRankedKeepsTies(processed: seq<Scored>, limit: nat, v: real)
    ensures Filter(TopRanked(processed, limit), ScoreIs(v)) <= Filter(processed, ScoreIs(v))
  {
    var key := ByScoreDescending();
    var k := MinInt(limit, |processed|);
    SortedPrefixIsStable(processed, key, k, -v);
    var top := SortBy(processed, key)[..k];
    ScoreIsKey(top, v);
    ScoreIsKey(processed, v);
  }

  lemma ScoreIsKey(s: seq<Scored>, v: real)
    ensures Filter(s, ScoreIs(v)) == Filter(s, KeyIs(ByScoreDescending(), -v))
  {
    forall y ensures ScoreIs(v)(y) == KeyIs(ByScoreDescending(), -v)(y) {
    }
    FilterExt(s, ScoreIs(v), KeyIs(ByScoreDescending(), -v));
  }
}
