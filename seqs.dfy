/** Generic sequence helpers shared by the stores: an optional value, filtering,
    and the stable sort that Python's `list.sort` performs. */
module Seqs {

  datatype Option<+T> = None | Some(value: T) {
    function GetOr(default: T): T {
      match this
      case Some(v) => v
      case None => default
    }
  }

  function MinInt(a: int, b: int): int { if a <= b then a else b }

  lemma AppendAssoc<T>(x: seq<T>, y: seq<T>, z: seq<T>)
    ensures (x + y) + z == x + (y + z)
  {
  }

  /** The elements of `s` that satisfy `p`, in their original order (a list comprehension). */
  function Filter<T>(s: seq<T>, p: T -> bool): (r: seq<T>)
    ensures |r| <= |s|
    ensures forall i :: 0 <= i < |r| ==> r[i] in s && p(r[i])
    ensures forall i :: 0 <= i < |s| && p(s[i]) ==> s[i] in r
  {
    if s == [] then [] else (if p(s[0]) then [s[0]] else []) + Filter(s[1..], p)
  }

  lemma {:induction false} FilterAppend<T>(a: seq<T>, b: seq<T>, p: T -> bool)
    ensures Filter(a + b, p) == Filter(a, p) + Filter(b, p)
  {
    if a == [] {
      assert a + b == b;
    } else {
      var h := if p(a[0]) then [a[0]] else [];
      assert (a + b)[0] == a[0] && (a + b)[1..] == a[1..] + b;
      assert Filter(a + b, p) == h + Filter(a[1..] + b, p);
      FilterAppend(a[1..], b, p);
    }
  }

  /** Two predicates that agree on the elements of `s` select the same subsequence. */
  lemma {:induction false} FilterExt<T>(s: seq<T>, p: T -> bool, q: T -> bool)
    requires forall x :: x in s ==> p(x) == q(x)
    ensures Filter(s, p) == Filter(s, q)
  {
    if s != [] {
      FilterExt(s[1..], p, q);
    }
  }

  /** Filtering keeps every occurrence of an accepted value and none of a rejected one. */
  lemma {:induction false} FilterCount<T>(s: seq<T>, p: T -> bool, x: T)
    ensures multiset(Filter(s, p))[x] == if p(x) then multiset(s)[x] else 0
  {
    if s != [] {
      var h := if p(s[0]) then [s[0]] else [];
      FilterCount(s[1..], p, x);
      assert multiset(s) == multiset{s[0]} + multiset(s[1..]) by {
        assert s == [s[0]] + s[1..];
      }
      assert Filter(s, p) == h + Filter(s[1..], p);
      assert multiset(Filter(s, p)) == multiset(h) + multiset(Filter(s[1..], p));
    }
  }

  /** Filtering commutes with permutation. */
  lemma FilterPermutation<T>(s: seq<T>, t: seq<T>, p: T -> bool)
    requires multiset(s) == multiset(t)
    ensures multiset(Filter(s, p)) == multiset(Filter(t, p))
  {
    forall x ensures multiset(Filter(s, p))[x] == multiset(Filter(t, p))[x] {
      FilterCount(s, p, x);
      FilterCount(t, p, x);
    }
  }

  /** A predicate and its negation split `s` in two. */
  lemma {:induction false} FilterSplitLength<T>(s: seq<T>, p: T -> bool, q: T -> bool)
    requires forall x :: x in s ==> q(x) == !p(x)
    ensures |Filter(s, p)| + |Filter(s, q)| == |s|
  {
    if s != [] {
      FilterSplitLength(s[1..], p, q);
    }
  }

  /** Filtering twice is filtering once by the conjunction. */
  lemma {:induction false} FilterFilter<T>(s: seq<T>, p: T -> bool, q: T -> bool, r: T -> bool)
    requires forall x :: x in s ==> r(x) == (p(x) && q(x))
    ensures Filter(s, r) == Filter(Filter(s, p), q)
  {
    if s != [] {
      FilterFilter(s[1..], p, q, r);
      assert s[0] in s;
      var fp := Filter(s, p);
      if p(s[0]) {
        assert fp == [s[0]] + Filter(s[1..], p);
        assert fp[0] == s[0] && fp[1..] == Filter(s[1..], p);
        assert Filter(fp, q) == (if q(s[0]) then [s[0]] else []) + Filter(Filter(s[1..], p), q);
      } else {
        assert fp == Filter(s[1..], p);
        assert !r(s[0]);
      }
    }
  }

  lemma FilterAllPass<T>(s: seq<T>, p: T -> bool)
    requires forall i :: 0 <= i < |s| ==> p(s[i])
    ensures Filter(s, p) == s
  {
    if s != [] {
      FilterAllPass(s[1..], p);
      assert s == [s[0]] + s[1..];
    }
  }

  lemma FilterNonePass<T>(s: seq<T>, p: T -> bool)
    requires forall i :: 0 <= i < |s| ==> !p(s[i])
    ensures Filter(s, p) == []
  {
  }

  /** A value is kept exactly when it occurs and passes. */
  lemma FilterMembership<T>(s: seq<T>, p: T -> bool)
    ensures forall x :: x in Filter(s, p) <==> x in s && p(x)
  {
    forall x | x in s && p(x) ensures x in Filter(s, p) {
      var i :| 0 <= i < |s| && s[i] == x;
    }
    forall x | x in Filter(s, p) ensures x in s && p(x) {
      var i :| 0 <= i < |Filter(s, p)| && Filter(s, p)[i] == x;
    }
  }

  /** No value occurs twice. */
  ghost predicate NoDuplicates<T>(s: seq<T>) {
    forall i, j :: 0 <= i < j < |s| ==> s[i] != s[j]
  }

  lemma {:induction false} FilterKeepsNoDuplicates<T>(s: seq<T>, p: T -> bool)
    requires NoDuplicates(s)
    ensures NoDuplicates(Filter(s, p))
  {
    if s != [] {
      FilterKeepsNoDuplicates(s[1..], p);
      var t := Filter(s[1..], p);
      assert s[0] !in s[1..];
      if p(s[0]) {
        var r := Filter(s, p);
        assert r == [s[0]] + t;
        assert s[0] !in t;
        forall i, j | 0 <= i < j < |r| ensures r[i] != r[j] {
          assert r[j] == t[j - 1];
          if i > 0 {
            assert r[i] == t[i - 1];
          }
        }
      }
    }
  }

  /** Filtering a prefix gives a prefix of the filtered whole. */
  lemma FilterPrefix<T>(s: seq<T>, k: nat, p: T -> bool)
    requires k <= |s|
    ensures Filter(s[..k], p) <= Filter(s, p)
  {
    var a, b := s[..k], s[k..];
    assert a + b == s;
    FilterAppend(a, b, p);
    PrefixOfAppend(Filter(a, p), Filter(b, p));
  }

  lemma PrefixOfAppend<T>(x: seq<T>, y: seq<T>)
    ensures x <= x + y
  {
  }

  // ---------------------------------------------------------------------------
  // Stable ascending sort by a real-valued key (the semantics of `list.sort(key=...)`)
  // ---------------------------------------------------------------------------

  ghost predicate SortedBy<T>(s: seq<T>, key: T -> real) {
    forall i, j :: 0 <= i < j < |s| ==> key(s[i]) <= key(s[j])
  }

  /** Places `x` before the first element whose key is not smaller than its own. */
  function Insert<T>(x: T, s: seq<T>, key: T -> real): (r: seq<T>)
    ensures multiset(r) == multiset(s) + multiset{x}
  {
    if s == [] then [x]
    else if key(x) <= key(s[0]) then [x] + s
    else
      assert s == [s[0]] + s[1..];
      [s[0]] + Insert(x, s[1..], key)
  }

  /** A lower bound on `x` and on every element of `s` bounds the insertion too. */
  lemma {:induction false} InsertLowerBound<T>(x: T, s: seq<T>, key: T -> real, b: real)
    requires b <= key(x) && forall k :: 0 <= k < |s| ==> b <= key(s[k])
    ensures forall k :: 0 <= k < |Insert(x, s, key)| ==> b <= key(Insert(x, s, key)[k])
  {
    if s != [] && key(x) > key(s[0]) {
      assert forall k :: 0 <= k < |s| - 1 ==> s[1..][k] == s[k + 1];
      InsertLowerBound(x, s[1..], key, b);
    }
  }

  /** A sorted sequence stays sorted when an element no larger than all of it is put first. */
  lemma ConsSorted<T>(h: T, t: seq<T>, key: T -> real)
    requires SortedBy(t, key) && forall k :: 0 <= k < |t| ==> key(h) <= key(t[k])
    ensures SortedBy([h] + t, key)
  {
    var r := [h] + t;
    forall i, j | 0 <= i < j < |r| ensures key(r[i]) <= key(r[j]) {
      assert r[j] == t[j - 1];
      if i > 0 {
        assert r[i] == t[i - 1];
      }
    }
  }

  /** Inserting into a sorted sequence keeps it sorted. */
  lemma {:induction false} InsertSorted<T>(x: T, s: seq<T>, key: T -> real)
    requires SortedBy(s, key)
    ensures SortedBy(Insert(x, s, key), key)
  {
    if s == [] {
    } else if key(x) <= key(s[0]) {
      ConsSorted(x, s, key);
    } else {
      var rest := s[1..];
      assert SortedBy(rest, key) && forall k :: 0 <= k < |rest| ==> key(s[0]) <= key(rest[k]) by {
        assert forall k :: 0 <= k < |rest| ==> rest[k] == s[k + 1];
      }
      InsertSorted(x, rest, key);
      InsertLowerBound(x, rest, key, key(s[0]));
      ConsSorted(s[0], Insert(x, rest, key), key);
    }
  }

  /** Insertion sort; stable because each element is placed before the equal keys that follow it. */
  function SortBy<T>(s: seq<T>, key: T -> real): (r: seq<T>)
    ensures |r| == |s|
    ensures multiset(r) == multiset(s)
    ensures SortedBy(r, key)
  {
    if s == [] then []
    else
      assert s == [s[0]] + s[1..];
      var t := SortBy(s[1..], key);
      InsertSorted(s[0], t, key);
      var r := Insert(s[0], t, key);
      assert |r| == |multiset(r)| == |multiset(t)| + 1;
      r
  }

  /** The elements whose key is `v`. */
  function KeyIs<T>(key: T -> real, v: real): T -> bool {
    y => key(y) == v
  }

  /** Inserting `x` leaves the elements of any other key in their order. */
  lemma {:induction false} InsertKeepsKeyClass<T>(x: T, s: seq<T>, key: T -> real, v: real)
    ensures Filter(Insert(x, s, key), KeyIs(key, v))
         == (if key(x) == v then [x] + Filter(s, KeyIs(key, v)) else Filter(s, KeyIs(key, v)))
  {
    if s == [] || key(x) <= key(s[0]) {
      InsertFrontClass(x, s, key, v);
    } else {
      InsertKeepsKeyClass(x, s[1..], key, v);
      InsertSkipClass(x, s, key, v);
    }
  }

  /** The key class when `x` goes first. */
  lemma InsertFrontClass<T>(x: T, s: seq<T>, key: T -> real, v: real)
    requires s == [] || key(x) <= key(s[0])
    ensures Filter(Insert(x, s, key), KeyIs(key, v))
         == (if key(x) == v then [x] + Filter(s, KeyIs(key, v)) else Filter(s, KeyIs(key, v)))
  {
    assert Insert(x, s, key) == [x] + s;
    FilterAppend([x], s, KeyIs(key, v));
  }

  /** The key class when `x` goes past the head, given the class of the tail. */
  lemma InsertSkipClass<T>(x: T, s: seq<T>, key: T -> real, v: real)
    requires s != [] && key(x) > key(s[0])
    requires Filter(Insert(x, s[1..], key), KeyIs(key, v))
          == (if key(x) == v then [x] + Filter(s[1..], KeyIs(key, v)) else Filter(s[1..], KeyIs(key, v)))
    ensures Filter(Insert(x, s, key), KeyIs(key, v))
         == (if key(x) == v then [x] + Filter(s, KeyIs(key, v)) else Filter(s, KeyIs(key, v)))
  {
    var p := KeyIs(key, v);
    var t := Insert(x, s[1..], key);
    assert Insert(x, s, key) == [s[0]] + t;
    FilterCons(s[0], t, p);
    assert Filter(s, p) == (if p(s[0]) then [s[0]] else []) + Filter(s[1..], p);
    SkipClassChain(s[0], x, Filter(t, p), Filter(s[1..], p), p(s[0]), key(x) == v);
  }

  /** The sequence algebra behind InsertSkipClass, over opaque filtered parts. */
  lemma SkipClassChain<T>(h: T, x: T, ft: seq<T>, fs: seq<T>, ph: bool, px: bool)
    requires ph ==> !px
    requires ft == (if px then [x] + fs else fs)
    ensures (if ph then [h] else []) + ft
         == (if px then [x] + ((if ph then [h] else []) + fs) else (if ph then [h] else []) + fs)
  {
    if !ph {
      assert (if ph then [h] else []) + ft == ft;
      assert (if ph then [h] else []) + fs == fs;
    }
  }

  /** When nothing before index `n` passes and everything from it on does, filtering
      drops exactly the prefix. */
  lemma FilterDropsPrefix<T>(s: seq<T>, n: nat, p: T -> bool)
    requires n <= |s| && Filter(s[..n], p) == [] && Filter(s[n..], p) == s[n..]
    ensures Filter(s, p) == s[n..]
  {
    assert s == s[..n] + s[n..];
    FilterAppend(s[..n], s[n..], p);
  }

  /** Filtering a sequence with a given head. */
  lemma FilterCons<T>(h: T, t: seq<T>, p: T -> bool)
    ensures Filter([h] + t, p) == (if p(h) then [h] else []) + Filter(t, p)
  {
    assert ([h] + t)[0] == h && ([h] + t)[1..] == t;
  }

  /** Stability: the elements that share a key come out in the order they went in. */
  lemma {:induction false} SortByIsStable<T>(s: seq<T>, key: T -> real, v: real)
    ensures Filter(SortBy(s, key), KeyIs(key, v)) == Filter(s, KeyIs(key, v))
  {
    if s != [] {
      SortByIsStable(s[1..], key, v);
      InsertKeepsKeyClass(s[0], SortBy(s[1..], key), key, v);
    }
  }

  /** A prefix of the sorted sequence lists each key class in input order. */
  lemma SortedPrefixIsStable<T>(s: seq<T>, key: T -> real, k: nat, v: real)
    requires k <= |s|
    ensures Filter(SortBy(s, key)[..k], KeyIs(key, v)) <= Filter(s, KeyIs(key, v))
  {
    FilterPrefix(SortBy(s, key), k, KeyIs(key, v));
    SortByIsStable(s, key, v);
  }
}
