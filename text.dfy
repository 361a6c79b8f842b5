/**
  The few Python `str` operations the modelled code relies on: `in`,
  `lower()`, `strip()`, `replace(pat, "")` and the index found by
  `rsplit(sep, 1)`.  Strings are sequences of characters.
 */
module Text {

  /** `c.isspace()` in Python, which is also what `\s` matches in a `re` pattern over `str`. */
  predicate IsSpace(c: char) {
    || ('\U{9}' <= c <= '\U{D}')
    || ('\U{1C}' <= c <= '\U{20}')
    || c == '\U{85}' || c == '\U{A0}' || c == '\U{1680}'
    || ('\U{2000}' <= c <= '\U{200A}')
    || c == '\U{2028}' || c == '\U{2029}' || c == '\U{202F}' || c == '\U{205F}' || c == '\U{3000}'
  }

  /** `sub` occurs in `s` starting at index `i`. */
  predicate OccursAt(s: string, sub: string, i: int) {
    0 <= i && i + |sub| <= |s| && s[i..i + |sub|] == sub
  }

  /** Python's `sub in s`. */
  function Contains(s: string, sub: string): (r: bool)
    ensures r <==> exists i :: OccursAt(s, sub, i)
    decreases |s|
  {
    if |sub| > |s| then false
    else if s[..|sub|] == sub then (assert OccursAt(s, sub, 0); true)
    else
      var r := Contains(s[1..], sub);
      assert r ==> exists i :: OccursAt(s, sub, i) by {
        if r {
          var i :| OccursAt(s[1..], sub, i);
          assert s[1..][i..i + |sub|] == s[i + 1..i + 1 + |sub|];
          assert OccursAt(s, sub, i + 1);
        }
      }
      assert (exists i :: OccursAt(s, sub, i)) ==> r by {
        if exists i :: OccursAt(s, sub, i) {
          var i :| OccursAt(s, sub, i);
          assert i != 0;
          assert s[1..][i - 1..i - 1 + |sub|] == s[i..i + |sub|];
          assert OccursAt(s[1..], sub, i - 1);
        }
      }
      r
  }

  /** An occurrence inside a slice is an occurrence in the whole string. */
  lemma {:induction false} SliceContains(s: string, sub: string, a: int, b: int)
    requires 0 <= a <= b <= |s|
    ensures Contains(s[a..b], sub) ==> Contains(s, sub)
  {
    if Contains(s[a..b], sub) {
      var i :| OccursAt(s[a..b], sub, i);
      var inSlice, inWhole := s[a..b][i..i + |sub|], s[a + i..a + i + |sub|];
      assert forall j :: 0 <= j < |sub| ==> inSlice[j] == inWhole[j];
      assert inSlice == inWhole;
      assert OccursAt(s, sub, a + i);
    }
  }

  /** A string lacking one of the characters of `sub` does not contain `sub`. */
  lemma MissingCharExcludes(s: string, sub: string, k: nat)
    requires k < |sub| && sub[k] !in s
    ensures !Contains(s, sub)
  {
    forall i | 0 <= i && i + |sub| <= |s|
      ensures !OccursAt(s, sub, i)
    {
      assert s[i..i + |sub|][k] == s[i + k];
    }
  }

  /** ASCII lower-casing of one character. */
  function LowerChar(c: char): char {
    if 'A' <= c <= 'Z' then (c as int + 32) as char else c
  }

  /** `s.lower()`, restricted to ASCII letters. */
  function Lower(s: string): (r: string)
    ensures |r| == |s|
    ensures forall i :: 0 <= i < |s| ==> r[i] == LowerChar(s[i])
  {
    seq(|s|, i requires 0 <= i < |s| => LowerChar(s[i]))
  }

  lemma LowerIdempotent(s: string)
    ensures Lower(Lower(s)) == Lower(s)
  {
    assert forall i :: 0 <= i < |s| ==> Lower(Lower(s))[i] == Lower(s)[i];
  }

  predicate AllSpace(s: string) {
    forall i :: 0 <= i < |s| ==> IsSpace(s[i])
  }

  /** Number of whitespace characters at the front of `s`. */
  function LeadingSpaces(s: string): (n: nat)
    ensures n <= |s|
    ensures forall i :: 0 <= i < n ==> IsSpace(s[i])
    ensures n < |s| ==> !IsSpace(s[n])
    decreases |s|
  {
    if |s| > 0 && IsSpace(s[0]) then 1 + LeadingSpaces(s[1..]) else 0
  }

  /** Number of whitespace characters at the back of `s`. */
  function TrailingSpaces(s: string): (n: nat)
    ensures n <= |s|
    ensures forall i :: |s| - n <= i < |s| ==> IsSpace(s[i])
    ensures n < |s| ==> !IsSpace(s[|s| - n - 1])
    decreases |s|
  {
    if |s| > 0 && IsSpace(s[|s| - 1]) then 1 + TrailingSpaces(s[..|s| - 1]) else 0
  }

  /** `s.strip()`: the slice between the leading and the trailing whitespace. */
  function Strip(s: string): (r: string)
    ensures r == s[StripStart(s)..StripEnd(s)]
    ensures AllSpace(s[..StripStart(s)]) && AllSpace(s[StripEnd(s)..])
    ensures r == [] || (!IsSpace(r[0]) && !IsSpace(r[|r| - 1]))
  {
    var a, e := StripStart(s), StripEnd(s);
    var rest := s[a..];
    assert AllSpace(s[..a]) by {
      forall i | 0 <= i < a ensures IsSpace(s[..a][i]) {
        assert s[..a][i] == s[i];
      }
    }
    assert AllSpace(s[e..]) by {
      forall i | 0 <= i < |s| - e ensures IsSpace(s[e..][i]) {
        assert s[e..][i] == rest[e - a + i];
      }
    }
    assert a < e ==> s[a..e][0] == rest[0] && s[a..e][e - a - 1] == rest[e - a - 1];
    s[a..e]
  }

  /** Where `strip()` starts cutting nothing more from the front. */
  function StripStart(s: string): (a: nat)
    ensures a <= |s|
  {
    LeadingSpaces(s)
  }

  /** Where `strip()` starts cutting the trailing whitespace. */
  function StripEnd(s: string): (e: nat)
    ensures StripStart(s) <= e <= |s|
  {
    |s| - TrailingSpaces(s[StripStart(s)..])
  }

  /** `s.replace(pat, "")`: occurrences of `pat` deleted, scanning left to right. */
  function Remove(s: string, pat: string): (r: string)
    requires |pat| > 0
    ensures |r| <= |s|
    ensures !Contains(s, pat) ==> r == s
    decreases |s|
  {
    if |s| < |pat| then s
    else if s[..|pat|] == pat then Remove(s[|pat|..], pat)
    else [s[0]] + Remove(s[1..], pat)
  }

  /** The largest `i < n` at which `sep` occurs in `s`, or -1. */
  function LastBefore(s: string, sep: string, n: int): (k: int)
    ensures -1 <= k && (n <= 0 ==> k == -1) && (n > 0 ==> k < n)
    ensures k >= 0 ==> OccursAt(s, sep, k)
    ensures forall j :: k < j < n ==> !OccursAt(s, sep, j)
    decreases n
  {
    if n <= 0 then -1
    else if OccursAt(s, sep, n - 1) then n - 1
    else LastBefore(s, sep, n - 1)
  }

  /** `s.rfind(sep)`: the start of the last occurrence of `sep`, or -1. */
  function RFind(s: string, sep: string): (k: int)
    ensures -1 <= k
    ensures k >= 0 ==> OccursAt(s, sep, k)
    ensures forall j :: k < j ==> !OccursAt(s, sep, j)
  {
    LastBefore(s, sep, |s| - |sep| + 1)
  }

  /** `s.rsplit(sep, 1)[-1]`: what follows the last `sep`, or all of `s`. */
  function LastSegment(s: string, sep: string): (r: string)
  {
    var k := RFind(s, sep);
    if k < 0 then s else s[k + |sep|..]
  }

  /**
    The text after the last `sep` in `c`, trimmed, is a slice of `c` that
    starts after that separator and whitespace and is followed only by
    whitespace, and contains no `sep` itself.
   */
  lemma {:induction false} StrippedLastSegment(c: string, sep: string)
    requires |sep| > 0
    ensures var r := Strip(LastSegment(c, sep));
      && (exists a0, a, b :: LastSegmentBounds(c, sep, r, a0, a, b))
      && !Contains(r, sep)
  {
    var k := RFind(c, sep);
    var a0 := if k < 0 then 0 else k + |sep|;
    assert AfterLastSeparator(c, sep, a0);
    var tail := c[a0..];
    assert LastSegment(c, sep) == tail;
    NoSeparatorAfter(c, sep, a0);
    StripKeepsAbsence(tail, sep);
    var a, b := StrippedSlice(c, a0);
    assert LastSegmentBounds(c, sep, Strip(tail), a0, a, b);
  }

  /** Past the end of the last separator no separator starts. */
  lemma NoSeparatorAfter(c: string, sep: string, a0: int)
    requires |sep| > 0 && 0 <= a0 <= |c|
    requires forall j :: OccursAt(c, sep, j) ==> j + |sep| <= a0
    ensures !Contains(c[a0..], sep)
  {
    var tail := c[a0..];
    if Contains(tail, sep) {
      var i :| OccursAt(tail, sep, i);
      assert tail[i..i + |sep|] == c[a0 + i..a0 + i + |sep|];
      assert OccursAt(c, sep, a0 + i);
    }
  }

  /** Trimming `c[a0..]` leaves a slice of `c` with only whitespace cut on either side. */
  lemma StrippedSlice(c: string, a0: int) returns (a: int, b: int)
    requires 0 <= a0 <= |c|
    ensures TrimmedSlice(c, Strip(c[a0..]), a0, a, b)
  {
    var tail := c[a0..];
    var x, y := StripStart(tail), StripEnd(tail);
    a, b := a0 + x, a0 + y;
    assert Strip(tail) == c[a..b];
    assert AllSpace(c[a0..a]) by {
      forall i | 0 <= i < x ensures IsSpace(c[a0..a][i]) {
        assert c[a0..a][i] == tail[..x][i];
      }
    }
    assert AllSpace(c[b..]) by {
      forall i | 0 <= i < |c| - b ensures IsSpace(c[b..][i]) {
        assert c[b..][i] == tail[y..][i];
      }
    }
  }

  /** Trimming cannot create an occurrence. */
  lemma StripKeepsAbsence(s: string, sub: string)
    requires !Contains(s, sub)
    ensures !Contains(Strip(s), sub)
  {
    SliceContains(s, sub, StripStart(s), StripEnd(s));
  }

  /**
    `r` is `c[a..b]`, where `a0` is the end of the last `sep` in `c` (or 0),
    and only whitespace lies between `a0` and `a` and after `b`.
   */
  ghost predicate LastSegmentBounds(c: string, sep: string, r: string, a0: int, a: int, b: int) {
    TrimmedSlice(c, r, a0, a, b) && AfterLastSeparator(c, sep, a0)
  }

  /** `r` is `c[a..b]`, and only whitespace lies between `a0` and `a` and after `b`. */
  ghost predicate TrimmedSlice(c: string, r: string, a0: int, a: int, b: int) {
    && 0 <= a0 <= a <= b <= |c| && r == c[a..b]
    && AllSpace(c[a0..a]) && AllSpace(c[b..])
  }

  /** `a0` is the end of the last `sep` in `c`, or 0 when there is none. */
  ghost predicate AfterLastSeparator(c: string, sep: string, a0: int) {
    && (a0 == 0 || OccursAt(c, sep, a0 - |sep|))
    && (forall j :: OccursAt(c, sep, j) ==> j + |sep| <= a0)
  }

}
