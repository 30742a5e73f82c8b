/** The first-generation memory manager: chat turns stored as documents in a named
    collection, with a relevance rule (age, negative words, mood) that the periodic
    clean-up applies to every stored document. The client's collections are a map
    from name to contents; the embedding model and the similarity query are not
    part of this model, the query's answer is given. */
module LegacyStore {
  import opened Seqs
  import opened Text

  /** `MEMORY_EXPIRY_TIME`: thirty days in seconds. */
  const MemoryExpiryTime: int := 30 * 24 * 60 * 60
  /** `RELEVANT_MEMORIES_COUNT` */
  const RelevantMemoriesCount: nat := 3
  const IdleState: string := "idle"
  const Disappointed: string := "失望"
  const Angry: string := "生气"

  /** The temporary `Memory` object the clean-up builds for each document. */
  datatype Memory = Memory(memoryId: string, content: string, timestamp: real, state: string)

  /** `is_expired`: strictly older than thirty days at clock reading `now`. */
  predicate IsExpired(m: Memory, now: real) {
    now - m.timestamp > MemoryExpiryTime as real
  }

  /** `check_memory_relevance` */
  function CheckMemoryRelevance(m: Memory, currentState: string, now: real): (relevant: bool)
    ensures relevant ==> !IsExpired(m, now) && m.state == currentState
    ensures relevant ==> !Contains(m.content, Disappointed) && !Contains(m.content, Angry)
    ensures !relevant ==> IsExpired(m, now) || Contains(m.content, Disappointed)
                          || Contains(m.content, Angry) || m.state != currentState
  {
    if IsExpired(m, now) then false
    else if Contains(m.content, Disappointed) || Contains(m.content, Angry) then false
    else m.state == currentState
  }

  /** A memory is relevant to at most one mood. */
  lemma RelevantToOneState(m: Memory, s1: string, s2: string, now: real)
    requires CheckMemoryRelevance(m, s1, now) && CheckMemoryRelevance(m, s2, now)
    ensures s1 == s2
  {
  }

  /** Relevance only decays: a memory irrelevant at `now` stays irrelevant later. */
  lemma RelevanceDecays(m: Memory, s: string, now: real, later: real)
    requires now <= later && !CheckMemoryRelevance(m, s, now)
    ensures !CheckMemoryRelevance(m, s, later)
  {
  }

  /** The stored `timestamp` metadata: absent (or empty), an ISO text that parses to
      the given epoch seconds, or one `fromisoformat` rejects. */
  datatype Stamp = NoStamp | Iso(seconds: real) | BadIso

  /** One stored document with its metadata (`state` may be absent). */
  datatype Item = Item(id: string, document: string, stamp: Stamp, state: Option<string>)

  /** The `Memory` the clean-up builds: missing state is "idle", a missing stamp is
      "now"; a bad ISO text raises (None here). */
  function ToMemory(it: Item, now: real): (m: Option<Memory>)
    ensures m.None? <==> it.stamp.BadIso?
    ensures m.Some? ==> m.value.memoryId == it.id && m.value.content == it.document
    ensures m.Some? ==> m.value.state == it.state.GetOr(IdleState)
    ensures m.Some? && it.stamp.NoStamp? ==> !IsExpired(m.value, now)
  {
    match it.stamp
    case BadIso => None
    case NoStamp => Some(Memory(it.id, it.document, now, it.state.GetOr(IdleState)))
    case Iso(t) => Some(Memory(it.id, it.document, t, it.state.GetOr(IdleState)))
  }

  /** The ids `clean_up_memory` deletes, in listing order: every document failing the
      relevance rule against "idle", up to the first one whose timestamp does not
      parse (the exception ends the pass; earlier deletions stay). */
  function CleanUpVictims(items: seq<Item>, now: real): (ids: seq<string>)
    ensures |ids| <= |items|
  {
    if items == [] || items[0].stamp.BadIso? then []
    else (if Discards(items[0], now) then [items[0].id] else []) + CleanUpVictims(items[1..], now)
  }

  /** A readable document that fails the relevance rule against "idle". */
  predicate Discards(it: Item, now: real) {
    ToMemory(it, now).Some? && !CheckMemoryRelevance(ToMemory(it, now).value, IdleState, now)
  }

  /** `add_memory`'s document text. */
  function MemoryContent(userMsg: string, assistantMsg: string, state: string): string {
    "用户: " + userMsg + "\n智子: " + assistantMsg + "\n状态: " + state
  }

  /** The document text shows the three parts, each behind its label. */
  lemma MemoryContentLayout(userMsg: string, assistantMsg: string, state: string)
    ensures var c := MemoryContent(userMsg, assistantMsg, state);
            && c[..4] == "用户: "
            && c[4..4 + |userMsg|] == userMsg
            && c[4 + |userMsg|..9 + |userMsg|] == "\n智子: "
            && c[9 + |userMsg|..9 + |userMsg| + |assistantMsg|] == assistantMsg
            && c[9 + |userMsg| + |assistantMsg|..14 + |userMsg| + |assistantMsg|] == "\n状态: "
            && c[14 + |userMsg| + |assistantMsg|..] == state
  {
  }

  function ItemIds(items: seq<Item>): (ids: seq<string>)
    ensures |ids| == |items|
    ensures forall i :: 0 <= i < |items| ==> ids[i] == items[i].id
  {
    seq(|items|, i requires 0 <= i < |items| => items[i].id)
  }

  /** No two documents share an id. */
  ghost predicate UniqueIds(items: seq<Item>) {
    forall i, j :: 0 <= i < j < |items| ==> items[i].id != items[j].id
  }

  function IdNot(id: string): Item -> bool {
    (it: Item) => it.id != id
  }

  function NotIn(ids: seq<string>): Item -> bool {
    (it: Item) => it.id !in ids
  }

  /** A document that passes the relevance rule against "idle" (an unparsable stamp
      counts as passing: it is never deleted). */
  function Kept(now: real): Item -> bool {
    (it: Item) => !Discards(it, now)
  }

  function HasBadStamp(): Item -> bool {
    (it: Item) => it.stamp.BadIso?
  }

  /** What the client's collections look like to the manager: contents by name. */
  type Client = map<string, seq<Item>>

  class MemoryManager {
    var collectionName: Option<string>
    /** The bound collection (`self.collection`), by name; None when unset. */
    var collection: Option<string>
    var client: Client

    ghost predicate Valid()
      reads this
    {
      && (collection.Some? ==> collection.value in client)
      && (forall name :: name in client ==> UniqueIds(client[name]))
    }

    /** `__init__`: binds the collection when a name is given. */
    constructor (client: Client, collectionName: Option<string> := None)
      requires forall name :: name in client ==> UniqueIds(client[name])
      ensures Valid() && this.collectionName == collectionName
      ensures collection == Resolve(collectionName)
      ensures this.client == GetOrCreate(client, collectionName)
    {
      this.collectionName := collectionName;
      this.client := GetOrCreate(client, collectionName);
      this.collection := Resolve(collectionName);
    }

    /** `set_collection_by_name`: records the name and binds (creating if needed). */
    method SetCollectionByName(name: Option<string>)
      requires Valid()
      modifies this
      ensures Valid()
      ensures collectionName == name && collection == Resolve(name)
      ensures client == GetOrCreate(old(client), name)
    {
      collectionName := name;
      client := GetOrCreate(client, name);
      collection := Resolve(name);
    }

    /** The contents of the bound collection. */
    function Contents(): seq<Item>
      reads this
      requires Valid()
    {
      if collection.Some? then client[collection.value] else []
    }

    /** `add_memory`: nothing is stored when no collection is bound; otherwise one
        document under `memoryId` (`memory_{timestamp}`, given), stamped `isoNow`,
        unless the id is already taken. */
    method AddMemory(userMsg: string, assistantMsg: string, state: string, memoryId: string, isoNow: real)
      requires Valid()
      modifies this
      ensures Valid() && collectionName == old(collectionName) && collection == old(collection)
      ensures collection.None? ==> client == old(client)
      ensures collection.Some? ==>
                client == old(client)[collection.value :=
                  old(Contents()) + (if memoryId in ItemIds(old(Contents())) then []
                                     else [Item(memoryId, MemoryContent(userMsg, assistantMsg, state), Iso(isoNow), Some(state))])]
    {
      if collection.None? {
        return;
      }
      var content := MemoryContent(userMsg, assistantMsg, state);
      var items := client[collection.value];
      if memoryId !in ItemIds(items) {
        var added := items + [Item(memoryId, content, Iso(isoNow), Some(state))];
        assert ItemIds(added) == ItemIds(items) + [memoryId];
        client := client[collection.value := added];
      } else {
        assert items + [] == items;
        assert client == client[collection.value := items];
      }
    }

    /** `retrieve_relevant_memories`: `{"documents": [[]]}` when no collection is
        bound, otherwise the query's answer (given, at most `n_results` documents,
        three by default) as the single result row. */
    method RetrieveRelevantMemories(answer: seq<string>, nResults: nat := RelevantMemoriesCount)
      returns (documents: seq<seq<string>>)
      requires |answer| <= nResults
      ensures collection.None? ==> documents == [[]]
      ensures collection.Some? ==> documents == [answer]
      ensures |documents| == 1 && |documents[0]| <= nResults
    {
      if collection.None? {
        return [[]];
      }
      documents := [answer];
    }

    /** `collection.delete(ids=[id])` on the collection called `name`. */
    method DeleteDocument(name: string, id: string)
      requires Valid() && name in client
      modifies this
      ensures Valid() && collection == old(collection) && collectionName == old(collectionName)
      ensures client == old(client)[name := Filter(old(client[name]), IdNot(id))]
    {
      FilterKeepsUniqueIds(client[name], IdNot(id));
      client := client[name := Filter(client[name], IdNot(id))];
    }

    /** `clean_up_memory`: deletes, one id at a time, each document that fails the
        relevance rule against "idle", stopping at an unparsable timestamp. */
    method CleanUpMemory(now: real)
      requires Valid()
      modifies this
      ensures Valid() && collectionName == old(collectionName) && collection == old(collection)
      ensures collection.None? ==> client == old(client)
      ensures collection.Some? ==>
                client == old(client)[collection.value := Filter(old(Contents()), NotIn(CleanUpVictims(old(Contents()), now)))]
    {
      if collection.None? {
        return;
      }
      var name := collection.value;
      var all := client[name];
      DeleteIrrelevant(name, all, now);
    }

    /** One document of the pass: deleted when it fails the relevance rule. */
    method Visit(name: string, all: seq<Item>, i: nat, now: real, ghost deleted: seq<string>)
      returns (ghost deleted': seq<string>)
      requires Valid() && name in client && client[name] == Filter(all, NotIn(deleted))
      requires i < |all| && !all[i].stamp.BadIso?
      requires forall j :: 0 <= j < i ==> !all[j].stamp.BadIso?
      requires deleted == CleanUpVictims(all[..i], now)
      modifies this
      ensures Valid() && collectionName == old(collectionName) && collection == old(collection)
      ensures deleted' == CleanUpVictims(all[..i + 1], now)
      ensures client == old(client)[name := Filter(all, NotIn(deleted'))]
    {
      var it := all[i];
      CleanUpStep(all, i, now);
      deleted' := deleted;
      if Discards(it, now) {
        DeleteById(all, deleted, it.id);
        DeleteDocument(name, it.id);
        deleted' := deleted + [it.id];
      }
    }

    /** The pass over the listing `all` taken from the collection called `name`. */
    method DeleteIrrelevant(name: string, all: seq<Item>, now: real)
      requires Valid() && name in client && client[name] == all
      modifies this
      ensures Valid() && collectionName == old(collectionName) && collection == old(collection)
      ensures client == old(client)[name := Filter(all, NotIn(CleanUpVictims(all, now)))]
    {
      ghost var c0 := client;
      var i := 0;
      ghost var deleted: seq<string> := [];
      FilterAllPass(all, NotIn(deleted));
      UpdateSame(c0, name);
      // `fromisoformat` raising ends the pass: the handler catches it.
      while i < |all| && !all[i].stamp.BadIso?
        invariant 0 <= i <= |all|
        invariant forall j :: 0 <= j < i ==> !all[j].stamp.BadIso?
        invariant deleted == CleanUpVictims(all[..i], now)
        invariant collection == old(collection) && collectionName == old(collectionName)
        invariant Valid() && name in client
        invariant client == c0[name := Filter(all, NotIn(deleted))]
        decreases |all| - i
      {
        ghost var before := deleted;
        deleted := Visit(name, all, i, now, deleted);
        UpdateTwice(c0, name, Filter(all, NotIn(before)), Filter(all, NotIn(deleted)));
        i := i + 1;
      }
      if i < |all| {
        CleanUpStopsAtBadStamp(all, i, now);
      } else {
        assert all[..i] == all;
      }
    }
  }

  /** Writing back a collection's own contents changes nothing. */
  lemma UpdateSame(c: Client, name: string)
    requires name in c
    ensures c[name := c[name]] == c
  {
  }

  /** A second write to the same collection overrides the first. */
  lemma UpdateTwice(c: Client, name: string, a: seq<Item>, b: seq<Item>)
    ensures c[name := a][name := b] == c[name := b]
  {
  }

  /** Removing documents keeps the ids of a collection distinct. */
  lemma {:induction false} FilterKeepsUniqueIds(s: seq<Item>, p: Item -> bool)
    requires UniqueIds(s)
    ensures UniqueIds(Filter(s, p))
  {
    if s != [] {
      var rest := s[1..];
      FilterKeepsUniqueIds(rest, p);
      var t := Filter(rest, p);
      if p(s[0]) {
        assert Filter(s, p) == [s[0]] + t;
        HeadIdNotInRest(s);
        forall x | x in t ensures x.id != s[0].id {
          FilterMembership(rest, p);
        }
        UniqueIdsCons(s[0], t);
      }
    }
  }

  /** What the clean-up lemmas need to know about the documents after the first. */
  lemma TailFacts(items: seq<Item>)
    requires items != [] && UniqueIds(items) && Readable(items)
    ensures UniqueIds(items[1..]) && Readable(items[1..])
    ensures items[0].id !in ItemIds(items[1..])
  {
    var rest := items[1..];
    forall k | 0 <= k < |rest| ensures ItemIds(rest)[k] != items[0].id {
      assert rest[k] == items[k + 1];
    }
    forall j | 0 <= j < |rest| ensures !rest[j].stamp.BadIso? {
      assert rest[j] == items[j + 1];
    }
  }

  lemma HeadIdNotInRest(s: seq<Item>)
    requires s != [] && UniqueIds(s)
    ensures forall x :: x in s[1..] ==> x.id != s[0].id
  {
    forall x | x in s[1..] ensures x.id != s[0].id {
      var k :| 0 <= k < |s| - 1 && s[1..][k] == x;
      assert s[k + 1] == x;
    }
  }

  lemma UniqueIdsCons(h: Item, t: seq<Item>)
    requires UniqueIds(t) && forall x :: x in t ==> x.id != h.id
    ensures UniqueIds([h] + t)
  {
    var r := [h] + t;
    forall i, j | 0 <= i < j < |r| ensures r[i].id != r[j].id {
      assert r[j] == t[j - 1];
      if i > 0 {
        assert r[i] == t[i - 1];
      } else {
        assert t[j - 1] in t;
      }
    }
  }

  /** `_get_or_create_collection`'s effect on the client: a non-empty name is created
      empty when missing; an empty or missing name touches nothing. */
  function GetOrCreate(client: Client, name: Option<string>): (r: Client)
    ensures forall n :: n in client ==> n in r && r[n] == client[n]
    ensures name.Some? && name.value != "" ==> name.value in r
    ensures forall n :: n in r && n !in client ==> name == Some(n) && r[n] == []
  {
    if name.Some? && name.value != "" && name.value !in client then client[name.value := []] else client
  }

  /** `_get_or_create_collection`'s result: bound exactly for a non-empty name. */
  function Resolve(name: Option<string>): (bound: Option<string>)
    ensures bound.Some? <==> name.Some? && name.value != ""
    ensures bound.Some? ==> bound == name
  {
    if name.Some? && name.value != "" then name else None
  }

  // ---------------------------------------------------------------------------
  // Clean-up lemmas
  // ---------------------------------------------------------------------------

  /** One more document through the clean-up loop. */
  lemma CleanUpStep(items: seq<Item>, i: nat, now: real)
    requires i < |items| && !items[i].stamp.BadIso?
    requires forall j :: 0 <= j < i ==> !items[j].stamp.BadIso?
    ensures CleanUpVictims(items[..i + 1], now)
         == CleanUpVictims(items[..i], now)
            + (if Discards(items[i], now) then [items[i].id] else [])
  {
    CleanUpVictimsAppend(items[..i], [items[i]], now);
    assert items[..i] + [items[i]] == items[..i + 1];
  }

  /** When the document at `i` has an unparsable stamp, the pass deletes nothing
      from there on. */
  lemma CleanUpStopsAtBadStamp(items: seq<Item>, i: nat, now: real)
    requires i < |items| && items[i].stamp.BadIso?
    requires forall j :: 0 <= j < i ==> !items[j].stamp.BadIso?
    ensures CleanUpVictims(items, now) == CleanUpVictims(items[..i], now)
  {
    assert items == items[..i] + items[i..];
    CleanUpVictimsAppend(items[..i], items[i..], now);
    assert items[i..][0] == items[i];
  }

  /** No document before the end has an unparsable stamp. */
  predicate Readable(items: seq<Item>) {
    forall j :: 0 <= j < |items| ==> !items[j].stamp.BadIso?
  }

  lemma {:induction false} CleanUpVictimsAppend(a: seq<Item>, b: seq<Item>, now: real)
    requires Readable(a)
    ensures CleanUpVictims(a + b, now) == CleanUpVictims(a, now) + CleanUpVictims(b, now)
  {
    if a == [] {
      assert a + b == b;
    } else {
      var h := if Discards(a[0], now) then [a[0].id] else [];
      assert (a + b)[0] == a[0] && (a + b)[1..] == a[1..] + b;
      assert CleanUpVictims(a + b, now) == h + CleanUpVictims(a[1..] + b, now);
      assert Readable(a[1..]) by {
        forall j | 0 <= j < |a| - 1 ensures !a[1..][j].stamp.BadIso? {
          assert a[1..][j] == a[j + 1];
        }
      }
      CleanUpVictimsAppend(a[1..], b, now);
    }
  }

  /** Deleting one more id from the snapshot's remainder. */
  lemma DeleteById(all: seq<Item>, deleted: seq<string>, id: string)
    ensures Filter(Filter(all, NotIn(deleted)), IdNot(id)) == Filter(all, NotIn(deleted + [id]))
  {
    FilterFilter(all, NotIn(deleted), IdNot(id), NotIn(deleted + [id]));
  }

  /** Every victim is an id of the listing. */
  lemma {:induction false} VictimsAreListed(items: seq<Item>, now: real)
    ensures forall id :: id in CleanUpVictims(items, now) ==> id in ItemIds(items)
  {
    if items != [] {
      VictimsAreListed(items[1..], now);
      assert forall id :: id in ItemIds(items[1..]) ==> id in ItemIds(items) by {
        forall id | id in ItemIds(items[1..]) ensures id in ItemIds(items) {
          var k :| 0 <= k < |items| - 1 && ItemIds(items[1..])[k] == id;
          assert ItemIds(items)[k + 1] == id;
        }
      }
      assert ItemIds(items)[0] == items[0].id;
    }
  }

  /** With every timestamp readable, the clean-up deletes exactly the irrelevant
      documents and keeps the relevant ones, in order. */
  lemma {:induction false} CleanUpKeepsRelevant(items: seq<Item>, now: real)
    requires UniqueIds(items) && Readable(items)
    ensures Filter(items, NotIn(CleanUpVictims(items, now))) == Filter(items, Kept(now))
  {
    if items != [] {
      var rest := items[1..];
      var victims := CleanUpVictims(items, now);
      var tail := CleanUpVictims(rest, now);
      TailFacts(items);
      assert victims == (if Discards(items[0], now) then [items[0].id] else []) + tail;
      CleanUpKeepsRelevant(rest, now);
      VictimsAreListed(rest, now);
      assert items[0].id !in tail;
      // On the rest, the victim list and its tail agree.
      FilterExt(rest, NotIn(victims), NotIn(tail));
      assert NotIn(victims)(items[0]) == Kept(now)(items[0]);
    }
  }

  /** Documents from the first unparsable stamp on are all kept. */
  lemma {:induction false} CleanUpSparesAfterBadStamp(items: seq<Item>, i: nat, now: real)
    requires UniqueIds(items)
    requires i < |items| && items[i].stamp.BadIso?
    ensures forall j :: i <= j < |items| ==> items[j].id !in CleanUpVictims(items, now)
    decreases i
  {
    if i == 0 {
    } else {
      var rest := items[1..];
      assert ItemIds(rest) == ItemIds(items)[1..];
      assert UniqueIds(rest);
      if items[0].stamp.BadIso? {
      } else {
        CleanUpSparesAfterBadStamp(rest, i - 1, now);
        forall j | i <= j < |items| ensures items[j].id !in CleanUpVictims(items, now) {
          assert items[j] == rest[j - 1];
          assert ItemIds(items)[j] != ItemIds(items)[0];
        }
      }
    }
  }
}
