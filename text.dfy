/** Python string primitives used by the chat pipeline, written out over `seq<char>`:
    substring search, `str.replace`, `str.strip`, `str.join` and `str(int)`. */
module Text {

  /** `pat in s` for strings. */
  predicate Contains(s: string, pat: string)
    decreases |s|
  {
    |pat| <= |s| && (s[..|pat|] == pat || Contains(s[1..], pat))
  }

  /** `pat` occurs in `a + pat + c`. */
  lemma {:induction false} ContainsInfix(a: string, pat: string, c: string)
    ensures Contains(a + pat + c, pat)
    decreases |a|
  {
    if a == [] {
      assert (a + pat + c)[..|pat|] == pat;
    } else {
      assert (a + pat + c)[1..] == a[1..] + pat + c;
      ContainsInfix(a[1..], pat, c);
    }
  }

  /** Replacing an occurring pattern leaves the replacement in the result. */
  lemma {:induction false} ReplaceAllShowsRep(s: string, pat: string, rep: string)
    requires pat != [] && Contains(s, pat)
    ensures Contains(ReplaceAll(s, pat, rep), rep)
    decreases |s|
  {
    if s[..|pat|] == pat {
      ContainsInfix([], rep, ReplaceAll(s[|pat|..], pat, rep));
      assert [] + rep + ReplaceAll(s[|pat|..], pat, rep) == ReplaceAll(s, pat, rep);
    } else {
      ReplaceAllShowsRep(s[1..], pat, rep);
      var y := ReplaceAll(s[1..], pat, rep);
      assert ReplaceAll(s, pat, rep) == [s[0]] + y;
      assert ([s[0]] + y)[1..] == y;
    }
  }

  /** `s.replace(pat, rep)`: a single left-to-right pass over non-overlapping occurrences. */
  function ReplaceAll(s: string, pat: string, rep: string): (r: string)
    requires pat != []
    ensures !Contains(s, pat) ==> r == s
    decreases |s|
  {
    if |s| < |pat| then s
    else if s[..|pat|] == pat then rep + ReplaceAll(s[|pat|..], pat, rep)
    else [s[0]] + ReplaceAll(s[1..], pat, rep)
  }

  /** Reference definition: `s` with every `c` left out. */
  function Without(s: string, c: char): (r: string)
    ensures c !in r
    ensures |r| <= |s|
  {
    if s == [] then [] else (if s[0] == c then [] else [s[0]]) + Without(s[1..], c)
  }

  /** Replacing a one-character pattern by nothing deletes exactly that character. */
  lemma {:induction false} DeleteCharIsWithout(s: string, c: char)
    ensures ReplaceAll(s, [c], "") == Without(s, c)
  {
    if s != [] {
      DeleteCharIsWithout(s[1..], c);
      assert s[..1] == [s[0]];
    }
  }

  /** Deleting a character keeps every other character, in order. */
  lemma {:induction false} WithoutKeepsOthers(s: string, c: char, d: char)
    requires d != c
    ensures multiset(Without(s, c))[d] == multiset(s)[d]
  {
    if s != [] {
      WithoutKeepsOthers(s[1..], c, d);
      assert s == [s[0]] + s[1..];
    }
  }

  /** The characters Python's `str.strip()` removes (`str.isspace`). */
  predicate IsSpace(c: char) {
    c == ' ' || c == '\t' || c == '\n' || c == '\r' || c == '\U{B}' || c == '\U{C}'
    || ('\U{1C}' <= c <= '\U{1F}') || c == '\U{85}' || c == '\U{A0}' || c == '\U{1680}'
    || ('\U{2000}' <= c <= '\U{200A}') || c == '\U{2028}' || c == '\U{2029}' || c == '\U{202F}'
    || c == '\U{205F}' || c == '\U{3000}'
  }

  /** `s.lstrip()`: the longest suffix of `s` that does not start with whitespace. */
  function StripStart(s: string): (r: string)
    ensures |r| <= |s| && r == s[|s| - |r|..]
    ensures r == [] || !IsSpace(r[0])
    ensures forall k :: 0 <= k < |s| - |r| ==> IsSpace(s[k])
  {
    if s == [] || !IsSpace(s[0]) then s else StripStart(s[1..])
  }

  /** `s.rstrip()`: the longest prefix of `s` that does not end with whitespace. */
  function StripEnd(s: string): (r: string)
    ensures |r| <= |s| && r == s[..|r|]
    ensures r == [] || !IsSpace(r[|r| - 1])
    ensures forall k :: |r| <= k < |s| ==> IsSpace(s[k])
  {
    if s == [] || !IsSpace(s[|s| - 1]) then s else StripEnd(s[..|s| - 1])
  }

  /** `s.strip()`. */
  function Strip(s: string): string {
    StripEnd(StripStart(s))
  }

  /** `s.strip()` is a slice of `s` that neither starts nor ends with whitespace, and
      only whitespace was cut off. */
  lemma StripIsTrimmedSlice(s: string)
    ensures exists i, j ::
              && 0 <= i <= j <= |s| && Strip(s) == s[i..j]
              && (forall k :: 0 <= k < i ==> IsSpace(s[k]))
              && (forall k :: j <= k < |s| ==> IsSpace(s[k]))
    ensures Strip(s) == [] || (!IsSpace(Strip(s)[0]) && !IsSpace(Strip(s)[|Strip(s)| - 1]))
  {
    var i, j := StripBounds(s);
    var t := StripStart(s);
    if Strip(s) != [] {
      assert Strip(s)[0] == t[0];
    }
  }

  /** Where `s.strip()` starts and ends in `s`. */
  lemma StripBounds(s: string) returns (i: nat, j: nat)
    ensures 0 <= i <= j <= |s| && Strip(s) == s[i..j]
    ensures forall k :: 0 <= k < i ==> IsSpace(s[k])
    ensures forall k :: j <= k < |s| ==> IsSpace(s[k])
  {
    var t := StripStart(s);
    var r := StripEnd(t);
    i := |s| - |t|;
    j := i + |r|;
    forall k | j <= k < |s| ensures IsSpace(s[k]) {
      assert t[k - i] == s[k];
    }
    assert r == s[i..j] by {
      PrefixOfSuffix(s, t, r);
    }
  }

  /** A prefix `r` of a suffix `t` of `s` is the slice of `s` where they overlap. */
  lemma PrefixOfSuffix<T>(s: seq<T>, t: seq<T>, r: seq<T>)
    requires |t| <= |s| && t == s[|s| - |t|..]
    requires |r| <= |t| && r == t[..|r|]
    ensures r == s[|s| - |t|..|s| - |t| + |r|]
  {
  }

  /** Stripping brings in no character. */
  lemma StripKeepsAbsent(s: string, ch: char)
    requires ch !in s
    ensures ch !in Strip(s)
  {
    var t := StripStart(s);
    var r := StripEnd(t);
    forall k | 0 <= k < |r| ensures r[k] != ch {
      assert r[k] == t[k] == s[|s| - |t| + k];
    }
  }

  /** `sep.join(items)`. */
  function Join(sep: string, items: seq<string>): string {
    if items == [] then ""
    else if |items| == 1 then items[0]
    else items[0] + sep + Join(sep, items[1..])
  }

  // ---------------------------------------------------------------------------
  // Decimal rendering of integers (`str(n)` / f"{n}")
  // ---------------------------------------------------------------------------

  predicate IsDigit(c: char) { '0' <= c <= '9' }

  function DigitChar(d: nat): (c: char)
    requires d < 10
    ensures IsDigit(c)
  {
    ['0', '1', '2', '3', '4', '5', '6', '7', '8', '9'][d]
  }

  function DigitValue(c: char): nat
    requires IsDigit(c)
  {
    (c as int - '0' as int) as nat
  }

  /** Decimal digits of `n`, most significant first, with no leading zero. */
  function NatToString(n: nat): (s: string)
    ensures |s| >= 1
    ensures forall k :: 0 <= k < |s| ==> IsDigit(s[k])
    decreases n
  {
    if n < 10 then [DigitChar(n)] else NatToString(n / 10) + [DigitChar(n % 10)]
  }

  /** `str(i)` for an int: a minus sign for negatives, then the digits. */
  function IntToString(i: int): (s: string)
    ensures |s| >= 1
    ensures forall k :: 0 <= k < |s| ==> IsDigit(s[k]) || (k == 0 && s[k] == '-')
  {
    if i < 0 then "-" + NatToString(-i) else NatToString(i)
  }

  /** The value of a string of decimal digits. */
  function DigitsValue(s: string): nat
    requires forall k :: 0 <= k < |s| ==> IsDigit(s[k])
  {
    if s == [] then 0 else DigitsValue(s[..|s| - 1]) * 10 + DigitValue(s[|s| - 1])
  }

  /** Parsing the rendering gives the number back. */
  lemma {:induction false} NatToStringRoundTrip(n: nat)
    ensures DigitsValue(NatToString(n)) == n
    decreases n
  {
    var s := NatToString(n);
    if n >= 10 {
      NatToStringRoundTrip(n / 10);
      assert s[..|s| - 1] == NatToString(n / 10);
    }
  }

  /** Different naturals render differently. */
  lemma NatToStringInjective(m: nat, n: nat)
    requires NatToString(m) == NatToString(n)
    ensures m == n
  {
    NatToStringRoundTrip(m);
    NatToStringRoundTrip(n);
  }

  /** Different ints render differently. */
  lemma IntToStringInjective(a: int, b: int)
    requires IntToString(a) == IntToString(b)
    ensures a == b
  {
    SignedFirstChar(a);
    SignedFirstChar(b);
    if a < 0 {
      assert b < 0;
      TailOfCons('-', NatToString(-a));
      TailOfCons('-', NatToString(-b));
      NatToStringInjective(-a, -b);
    } else {
      assert b >= 0;
      NatToStringInjective(a, b);
    }
  }

  /** A rendering starts with '-' exactly for negative numbers. */
  lemma TailOfCons<T>(c: T, x: seq<T>)
    ensures ([c] + x)[1..] == x
  {
  }

  lemma SignedFirstChar(i: int)
    ensures IntToString(i)[0] == '-' <==> i < 0
  {
  }

  /** Where the separator and the tail sit in `u + [c] + d`. */
  lemma JoinedAt(u: string, c: char, d: string)
    ensures (u + [c] + d)[|u|] == c
    ensures forall k :: 0 <= k < |d| ==> (u + [c] + d)[|u| + 1 + k] == d[k]
  {
  }

  /** Two strings `u + [c] + d` whose tails `d` hold no `c` split at the same place. */
  lemma SplitAtLast(c: char, u1: string, d1: string, u2: string, d2: string)
    requires c !in d1 && c !in d2
    requires u1 + [c] + d1 == u2 + [c] + d2
    ensures u1 == u2 && d1 == d2
  {
    var s := u1 + [c] + d1;
    if |u1| < |u2| {
      JoinedAt(u1, c, d1);
      JoinedAt(u2, c, d2);
      assert false;
    } else if |u2| < |u1| {
      JoinedAt(u1, c, d1);
      JoinedAt(u2, c, d2);
      assert false;
    } else {
      assert u1 == s[..|u1|] == u2;
      assert d1 == s[|u1| + 1..] == d2;
    }
  }
}
