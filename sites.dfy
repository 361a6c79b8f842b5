/**
  `extract_site` (activitytracker/tracker.py, activitytracker/activity_tracker.py,
  identical in both): the site name recovered from a browser window title.
 */
module Sites {
  import opened Opt
  import opened Text

  /** The suffix Chrome appends to its window titles. */
  const ChromeMarker: string := " - Google Chrome"

  /** The separator `rsplit(" - ", 1)` splits at. */
  const Separator: string := " - "

  /** `[^\s/]`: what the host group of the URL pattern accepts. */
  predicate IsHostChar(c: char) {
    !IsSpace(c) && c != '/'
  }

  /** The length of the run of host characters that starts at `j`. */
  function HostRun(s: string, j: nat): (n: nat)
    requires j <= |s|
    ensures j + n <= |s|
    ensures forall k :: j <= k < j + n ==> IsHostChar(s[k])
    ensures j + n == |s| || !IsHostChar(s[j + n])
    decreases |s| - j
  {
    if j < |s| && IsHostChar(s[j]) then 1 + HostRun(s, j + 1) else 0
  }

  /**
    `h` is the whole run of host characters that starts at `a`, right after
    `://` or after `://www.`.
   */
  predicate HostAt(s: string, a: int, h: string) {
    && 3 <= a && a + |h| <= |s| && h == s[a..a + |h|]
    && (s[a - 3..a] == "://" || (7 <= a && s[a - 7..a] == "://www."))
    && (a + |h| == |s| || !IsHostChar(s[a + |h|]))
  }

  /** Where `https?://` ends when it matches at `i`. */
  function SchemeEnd(s: string, i: nat): (e: Option<nat>)
    ensures e.Some? ==> 3 <= e.value <= |s| && s[e.value - 3..e.value] == "://"
  {
    if i + 7 <= |s| && s[i..i + 7] == "http://" then
      assert s[i + 4..i + 7] == s[i..i + 7][4..7];
      Some(i + 7)
    else if i + 8 <= |s| && s[i..i + 8] == "https://" then
      assert s[i + 5..i + 8] == s[i..i + 8][5..8];
      Some(i + 8)
    else None
  }

  /** The host run at `a`, once the text before it is known to end a scheme. */
  function HostFrom(s: string, a: nat): (h: string)
    requires 3 <= a <= |s|
    requires s[a - 3..a] == "://" || (7 <= a && s[a - 7..a] == "://www.")
    ensures HostAt(s, a, h)
  {
    s[a..a + HostRun(s, a)]
  }

  lemma WwwAfterScheme(s: string, j: nat)
    requires 3 <= j && j + 4 <= |s|
    requires s[j - 3..j] == "://" && s[j..j + 4] == "www."
    ensures s[j + 4 - 7..j + 4] == "://www."
  {
    assert s[j - 3..j + 4] == s[j - 3..j] + s[j..j + 4];
  }

  /**
    Group 2 of `https?://(www\.)?([^\s/]+)` matched at `i`: the host after
    the scheme with `www.` dropped, unless nothing follows `www.`, in which
    case the pattern backtracks and the host keeps it.
   */
  function MatchAt(s: string, i: nat): (m: Option<string>)
    ensures m.Some? ==> |m.value| > 0 && forall k :: 0 <= k < |m.value| ==> IsHostChar(m.value[k])
    ensures m.Some? ==> exists a :: HostAt(s, a, m.value)
  {
    match SchemeEnd(s, i)
    case None => None
    case Some(j) =>
      if j + 4 <= |s| && s[j..j + 4] == "www." && HostRun(s, j + 4) > 0 then
        WwwAfterScheme(s, j);
        Some(HostFrom(s, j + 4))
      else if HostRun(s, j) > 0 then Some(HostFrom(s, j))
      else None
  }

  /** `www.` follows the scheme ending at `j`, and a host character follows it. */
  predicate WwwThenHost(s: string, j: nat) {
    j + 4 < |s| && s[j..j + 4] == "www." && IsHostChar(s[j + 4])
  }

  /**
    The pattern matches at `i` exactly when a scheme starts there and a host
    character follows it; the host is then the run after `www.` when that
    run is non-empty, and the run right after the scheme otherwise.
   */
  lemma MatchAtHost(s: string, i: nat)
    ensures MatchAt(s, i).Some? <==> SchemeEnd(s, i).Some? && HostRun(s, SchemeEnd(s, i).value) > 0
    ensures MatchAt(s, i).Some? ==>
      var j := SchemeEnd(s, i).value;
      HostAt(s, if WwwThenHost(s, j) then j + 4 else j, MatchAt(s, i).value)
  {
    if SchemeEnd(s, i).Some? {
      var j := SchemeEnd(s, i).value;
      if j + 4 <= |s| && s[j..j + 4] == "www." {
        assert s[j] == 'w';
        assert HostRun(s, j) > 0;
        assert j + 4 < |s| && IsHostChar(s[j + 4]) <==> HostRun(s, j + 4) > 0;
      }
    }
  }

  /** `re.search`: the match at the leftmost position from `i` on. */
  function FindUrl(s: string, i: nat): (m: Option<string>)
    ensures m.None? <==> forall k: nat :: i <= k ==> MatchAt(s, k).None?
    ensures m.Some? ==> exists k: nat :: i <= k <= |s| && MatchAt(s, k) == m && forall j: nat :: i <= j < k ==> MatchAt(s, j).None?
    decreases |s| + 1 - i
  {
    if i > |s| then
      assert forall k: nat :: i <= k ==> SchemeEnd(s, k).None?;
      None
    else if MatchAt(s, i).Some? then MatchAt(s, i)
    else FindUrl(s, i + 1)
  }

  /** The Chrome branch: the marker deleted, the text after the last separator, trimmed. */
  function ChromeSite(title: string): (r: string)
    ensures exists a0, a, b :: LastSegmentBounds(Remove(title, ChromeMarker), Separator, r, a0, a, b)
    ensures r == [] || (!IsSpace(r[0]) && !IsSpace(r[|r| - 1]))
    ensures !Contains(r, Separator)
  {
    StrippedLastSegment(Remove(title, ChromeMarker), Separator);
    Strip(LastSegment(Remove(title, ChromeMarker), Separator))
  }

  /** The URL branch: the host of the first `http://` or `https://` URL, or `""`. */
  function UrlHost(title: string): (r: string)
    ensures r == [] <==> forall i: nat :: MatchAt(title, i).None?
    ensures r != [] ==> exists i: nat :: MatchAt(title, i) == Some(r) && forall j: nat :: j < i ==> MatchAt(title, j).None?
  {
    match FindUrl(title, 0)
    case Some(h) => h
    case None => ""
  }

  /** `extract_site(title)`. */
  function ExtractSite(title: string): string {
    if Contains(title, ChromeMarker) then ChromeSite(title) else UrlHost(title)
  }

}
