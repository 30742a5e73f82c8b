/** Post-processing of a generated chat reply: line breaks dropped, double spaces
    halved, outer whitespace stripped, and a reply longer than 90 characters cut at
    a sentence-ending mark in its second half (or hard-cut with an ellipsis). */
module Reply {
  import opened Seqs
  import opened Text

  const MaxLength: nat := 90
  const Ellipsis: string := "..."
  /** The reply given when generation fails. */
  const Apology: string := "抱歉，我现在有点忙，稍后再聊吧～"

  /** The characters a long reply may be cut after. */
  const TruncatePoints: set<char> := {'.', '。', '!', '！', '?', '？', '~', '～', '"', '”', '’'}

  /** The cleaning chain: remove '\n', remove '\r', one pass of "  " to " ", strip. */
  function Clean(raw: string): string {
    Strip(Collapse(raw))
  }

  /** The three replacements before the strip. */
  function Collapse(raw: string): string {
    ReplaceAll(ReplaceAll(ReplaceAll(raw, "\n", ""), "\r", ""), "  ", " ")
  }

  /** A replacement only brings in characters of its input and of the replacement. */
  lemma {:induction false} ReplaceAllChars(s: string, pat: string, rep: string, c: char)
    requires pat != [] && c !in s && c !in rep
    ensures c !in ReplaceAll(s, pat, rep)
    decreases |s|
  {
    if |s| >= |pat| {
      if s[..|pat|] == pat {
        ReplaceAllChars(s[|pat|..], pat, rep, c);
      } else {
        ReplaceAllChars(s[1..], pat, rep, c);
      }
    }
  }

  /** The replacements leave no line break behind. */
  lemma CollapseHasNoBreaks(raw: string)
    ensures '\n' !in Collapse(raw) && '\r' !in Collapse(raw)
  {
    var a := ReplaceAll(raw, "\n", "");
    DeleteCharIsWithout(raw, '\n');
    var b := ReplaceAll(a, "\r", "");
    DeleteCharIsWithout(a, '\r');
    ReplaceAllChars(a, "\r", "", '\n');
    ReplaceAllChars(b, "  ", " ", '\n');
    ReplaceAllChars(b, "  ", " ", '\r');
  }

  /** A cleaned reply has no line breaks and no whitespace at either end. */
  lemma CleanShape(raw: string)
    ensures '\n' !in Clean(raw) && '\r' !in Clean(raw)
    ensures Clean(raw) == [] || (!IsSpace(Clean(raw)[0]) && !IsSpace(Clean(raw)[|Clean(raw)| - 1]))
  {
    var c := Collapse(raw);
    CollapseHasNoBreaks(raw);
    StripKeepsAbsent(c, '\n');
    StripKeepsAbsent(c, '\r');
    StripIsTrimmedSlice(c);
  }

  /** The double-space pass is a single non-overlapping sweep: three spaces become two. */
  lemma ThreeSpacesLeaveTwo()
    ensures ReplaceAll("   ", "  ", " ") == "  "
  {
    assert "   "[..2] == "  ";
    assert "   "[2..] == " ";
  }

  /** The length rule: a reply of at most 90 characters stays as it is; a longer one
      is cut just after the last truncate point among indices 46 to 89, or, when there
      is none, cut to 90 characters and given an ellipsis. */
  ghost predicate TruncatedFrom(cleaned: string, r: string) {
    if |cleaned| <= MaxLength then r == cleaned
    else
      || (exists k :: MaxLength / 2 < k < MaxLength && cleaned[k] in TruncatePoints && r == cleaned[..k + 1]
                      && forall j :: k < j < MaxLength ==> cleaned[j] !in TruncatePoints)
      || ((forall j :: MaxLength / 2 < j < MaxLength ==> cleaned[j] !in TruncatePoints)
          && r == cleaned[..MaxLength] + Ellipsis)
  }

  /** The length rule leaves no choice: it names exactly one reply for each text. */
  lemma TruncatedFromDeterminate(cleaned: string, r1: string, r2: string)
    requires TruncatedFrom(cleaned, r1) && TruncatedFrom(cleaned, r2)
    ensures r1 == r2
  {
    if |cleaned| > MaxLength && exists k :: MaxLength / 2 < k < MaxLength && cleaned[k] in TruncatePoints {
      var k1 :| MaxLength / 2 < k1 < MaxLength && cleaned[k1] in TruncatePoints && r1 == cleaned[..k1 + 1]
                && forall j :: k1 < j < MaxLength ==> cleaned[j] !in TruncatePoints;
      var k2 :| MaxLength / 2 < k2 < MaxLength && cleaned[k2] in TruncatePoints && r2 == cleaned[..k2 + 1]
                && forall j :: k2 < j < MaxLength ==> cleaned[j] !in TruncatePoints;
      assert k1 == k2;
    }
  }

  /** The length rule, scanning indices 89 down to 46 for a truncate point. */
  method Truncate(cleaned: string) returns (r: string)
    ensures TruncatedFrom(cleaned, r)
    ensures |r| <= MaxLength + |Ellipsis|
    ensures r <= cleaned || (|cleaned| > MaxLength && r == cleaned[..MaxLength] + Ellipsis)
  {
    if |cleaned| <= MaxLength {
      return cleaned;
    }
    var i := MaxLength - 1;
    while i > MaxLength / 2
      invariant MaxLength / 2 <= i < MaxLength
      invariant forall j :: i < j < MaxLength ==> cleaned[j] !in TruncatePoints
    {
      if cleaned[i] in TruncatePoints {
        return cleaned[..i + 1];
      }
      i := i - 1;
    }
    r := cleaned[..MaxLength] + Ellipsis;
  }

  /** The post-processing of `get_ollama_response`: `generated` is the model's text,
      or None when the call (or reading its answer) raised. */
  method ProcessResponse(generated: Option<string>) returns (reply: string)
    ensures generated.None? ==> reply == Apology
    ensures generated.Some? ==> TruncatedFrom(Clean(generated.value), reply)
    ensures generated.Some? ==> |reply| <= MaxLength + |Ellipsis|
    ensures generated.Some? ==> reply <= Clean(generated.value) || reply == Clean(generated.value)[..MaxLength] + Ellipsis
    ensures generated.Some? ==> '\n' !in reply && '\r' !in reply
  {
    if generated.None? {
      return Apology;
    }
    var cleaned := Clean(generated.value);
    CleanShape(generated.value);
    reply := Truncate(cleaned);
    CutKeepsAbsent(cleaned, reply, '\n');
    CutKeepsAbsent(cleaned, reply, '\r');
  }

  /** A prefix of the cleaned text, or its first 90 characters and an ellipsis, holds
      no character (other than '.') that the cleaned text lacks. */
  lemma CutKeepsAbsent(cleaned: string, r: string, ch: char)
    requires ch !in cleaned && ch != '.'
    requires r <= cleaned || (|cleaned| > MaxLength && r == cleaned[..MaxLength] + Ellipsis)
    ensures ch !in r
  {
    var n := if r <= cleaned then |r| else MaxLength;
    forall k | 0 <= k < |r| ensures r[k] != ch {
      if k < n {
        assert r[k] == cleaned[k];
      } else {
        assert r[k] == Ellipsis[k - n];
      }
    }
  }
}
