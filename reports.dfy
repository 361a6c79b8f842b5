/**
  The report builders: `generate_html` of activitytracker/gen_report.py
  (apps and dotted sites merged, sorted by time, each row with its
  category) and the table rows of `generate_html` in
  activitytracker/generate_html_report.py.  The HTML markup is not
  modelled; a row is its key, its `m:ss` text and, in gen_report.py, its
  category.
 */
module Reports {
  import opened Opt
  import opened Numbers
  import opened PyDict
  import opened Categories

  /** `f"{secs:02}"` for `0 <= secs < 100`: two digits, zero-padded. */
  function Pad2(n: nat): (s: string)
    requires n < 100
    ensures |s| == 2 && IsDigit(s[0]) && IsDigit(s[1])
  {
    [DigitChar(n / 10), DigitChar(n % 10)]
  }

  /**
    `f"{seconds // 60}:{seconds % 60:02}"`.  Python's `//` and `%` round
    toward minus infinity; with the positive divisor 60 they agree with
    Dafny's `/` and `%`.
   */
  function FormatDuration(seconds: int): string {
    IntToString(seconds / 60) + ":" + Pad2(seconds % 60)
  }

  /** Reads an `m:ss` text back into seconds. */
  function ParseDuration(t: string): Option<int> {
    if |t| >= 4 && t[|t| - 3] == ':' && IsDigit(t[|t| - 2]) && IsDigit(t[|t| - 1]) then
      match ParseInt(t[..|t| - 3])
      case Some(m) => Some(m * 60 + DigitValue(t[|t| - 2]) * 10 + DigitValue(t[|t| - 1]))
      case None => None
    else None
  }

  /** The text of a row determines its seconds: minutes times 60 plus a seconds field below 60. */
  lemma DurationRoundTrip(seconds: int)
    ensures ParseDuration(FormatDuration(seconds)) == Some(seconds)
    ensures var t := FormatDuration(seconds);
      ParseInt(t[..|t| - 3]) == Some(seconds / 60) && 0 <= seconds % 60 < 60
  {
    var m, t := IntToString(seconds / 60), FormatDuration(seconds);
    assert t[..|t| - 3] == m;
    IntRoundTrip(seconds / 60);
    var sec := seconds % 60;
    assert DigitValue(t[|t| - 2]) == sec / 10;
    assert DigitValue(t[|t| - 1]) == sec % 10;
  }

  type Item = (string, int)

  /** All items of `s` with value `v`, in their order in `s`. */
  function WithValue(s: seq<Item>, v: int): seq<Item>
    decreases |s|
  {
    if s == [] then [] else WithValue(s[..|s| - 1], v) + if s[|s| - 1].1 == v then [s[|s| - 1]] else []
  }

  predicate Descending(s: seq<Item>) {
    forall i, j :: 0 <= i < j < |s| ==> s[i].1 >= s[j].1
  }

  /** No item of `s` has a value above `v`. */
  predicate AllAtMost(s: seq<Item>, v: int) {
    forall i :: 0 <= i < |s| ==> s[i].1 <= v
  }

  /** A bound on the values carries over to any rearrangement of the same items. */
  lemma AtMostByMultiset(r: seq<Item>, s: seq<Item>, v: int)
    requires multiset(r) == multiset(s) && AllAtMost(s, v)
    ensures AllAtMost(r, v)
  {
    forall i | 0 <= i < |r|
      ensures r[i].1 <= v
    {
      assert r[i] in multiset(s);
      var j :| 0 <= j < |s| && s[j] == r[i];
    }
  }

  /** An item no smaller than every value of a descending sequence can go in front of it. */
  lemma ConsDescending(h: Item, t: seq<Item>)
    requires Descending(t) && AllAtMost(t, h.1)
    ensures Descending([h] + t)
  {
    var r := [h] + t;
    forall i, j | 0 <= i < j < |r|
      ensures r[i].1 >= r[j].1
    {
      if i > 0 {
        assert r[i] == t[i - 1];
      }
      assert r[j] == t[j - 1];
    }
  }

  /** In a descending sequence, the rest and any item no larger than the head stay at most the head. */
  lemma BelowHead(s: seq<Item>, x: Item)
    requires Descending(s) && s != [] && x.1 <= s[0].1
    ensures AllAtMost(s[1..] + [x], s[0].1)
  {
    var t := s[1..] + [x];
    forall i | 0 <= i < |t|
      ensures t[i].1 <= s[0].1
    {
      if i < |t| - 1 {
        assert t[i] == s[i + 1];
      }
    }
  }

  /** `x` placed after every item whose value is at least its own. */
  function InsertDesc(x: Item, s: seq<Item>): (r: seq<Item>)
    requires Descending(s)
    ensures Descending(r)
    ensures multiset(r) == multiset(s) + multiset{x}
    decreases |s|
  {
    if s == [] then [x]
    else if s[0].1 >= x.1 then
      var tail := s[1..];
      assert Descending(tail);
      var rest := InsertDesc(x, tail);
      HeadTail(s);
      BelowHead(s, x);
      AtMostByMultiset(rest, tail + [x], s[0].1);
      ConsDescending(s[0], rest);
      [s[0]] + rest
    else
      ConsDescending(x, s);
      [x] + s
  }

  /**
    `sorted(items, key=lambda x: -x[1])`: Python's sort is stable, so this
    is an insertion sort that puts each item after the earlier ones with an
    equal value.
   */
  function SortDesc(s: seq<Item>): (r: seq<Item>)
    ensures Descending(r)
    ensures multiset(r) == multiset(s)
    decreases |s|
  {
    if s == [] then []
    else
      assert s == s[..|s| - 1] + [s[|s| - 1]];
      InsertDesc(s[|s| - 1], SortDesc(s[..|s| - 1]))
  }

  lemma {:induction false} InsertDescStable(x: Item, s: seq<Item>, v: int)
    requires Descending(s)
    ensures WithValue(InsertDesc(x, s), v) == WithValue(s, v) + if x.1 == v then [x] else []
    decreases |s|
  {
    var e := if x.1 == v then [x] else [];
    if s == [] {
      assert InsertDesc(x, s) == [x];
      assert WithValue([x], v) == WithValue([x][..0], v) + e;
    } else if s[0].1 >= x.1 {
      var tail := s[1..];
      assert Descending(tail);
      var rest := InsertDesc(x, tail);
      assert InsertDesc(x, s) == [s[0]] + rest;
      InsertDescStable(x, tail, v);
      WithValueAfterHead(s[0], tail, rest, e, v);
      HeadTail(s);
    } else {
      assert InsertDesc(x, s) == [x] + s;
      WithValueCons(x, s, v);
      if x.1 == v {
        NoneAbove(s, v);
      }
    }
  }

  /** Putting the same item in front of two sequences keeps a relation between their selections. */
  lemma WithValueAfterHead(h: Item, tail: seq<Item>, rest: seq<Item>, e: seq<Item>, v: int)
    requires WithValue(rest, v) == WithValue(tail, v) + e
    ensures WithValue([h] + rest, v) == WithValue([h] + tail, v) + e
  {
    WithValueCons(h, rest, v);
    WithValueCons(h, tail, v);
  }

  lemma HeadTail(s: seq<Item>)
    requires s != []
    ensures s == [s[0]] + s[1..]
  {
  }

  lemma {:induction false} WithValueCons(x: Item, s: seq<Item>, v: int)
    ensures WithValue([x] + s, v) == (if x.1 == v then [x] else []) + WithValue(s, v)
    decreases |s|
  {
    if s != [] {
      var xs := [x] + s;
      assert xs[..|xs| - 1] == [x] + s[..|s| - 1];
      WithValueCons(x, s[..|s| - 1], v);
    }
  }

  /** A descending sequence whose first value is below `v` has no item of value `v`. */
  lemma {:induction false} NoneAbove(s: seq<Item>, v: int)
    requires Descending(s) && (s != [] ==> s[0].1 < v)
    ensures WithValue(s, v) == []
    decreases |s|
  {
    if s != [] {
      NoneAbove(s[..|s| - 1], v);
    }
  }

  /** The sort is stable: the items of any one value keep their relative order. */
  lemma {:induction false} SortDescStable(s: seq<Item>, v: int)
    ensures WithValue(SortDesc(s), v) == WithValue(s, v)
    decreases |s|
  {
    if s != [] {
      SortDescStable(s[..|s| - 1], v);
      InsertDescStable(s[|s| - 1], SortDesc(s[..|s| - 1]), v);
    }
  }

  /** The items of a dictionary sorted by value: each is a key with its value. */
  lemma SortedItems(d: Dict)
    requires Valid(d)
    ensures forall i :: 0 <= i < |SortDesc(Items(d))| ==>
      SortDesc(Items(d))[i].0 in d.vals && SortDesc(Items(d))[i].1 == d.vals[SortDesc(Items(d))[i].0]
  {
    var items, sorted := Items(d), SortDesc(Items(d));
    forall i | 0 <= i < |sorted|
      ensures sorted[i].0 in d.vals && sorted[i].1 == d.vals[sorted[i].0]
    {
      assert sorted[i] in multiset(items);
      var m :| 0 <= m < |items| && items[m] == sorted[i];
    }
  }

  /** A key of the dictionary is the key of some sorted item, and only keys of the dictionary are. */
  lemma SortedKeys(d: Dict, k: string)
    requires Valid(d)
    ensures k in d.vals <==> exists i :: 0 <= i < |SortDesc(Items(d))| && SortDesc(Items(d))[i].0 == k
  {
    var sorted := SortDesc(Items(d));
    if k in d.vals {
      var i := SortedKeyPosition(d, k);
      assert sorted[i].0 == k;
    }
    if exists i :: 0 <= i < |sorted| && sorted[i].0 == k {
      var i :| 0 <= i < |sorted| && sorted[i].0 == k;
      SortedKeyIsKey(d, i);
    }
  }

  lemma SortedKeyPosition(d: Dict, k: string) returns (i: int)
    requires Valid(d) && k in d.vals
    ensures 0 <= i < |SortDesc(Items(d))| && SortDesc(Items(d))[i].0 == k
  {
    var items, sorted := Items(d), SortDesc(Items(d));
    assert k in d.keys;
    var m :| 0 <= m < |d.keys| && d.keys[m] == k;
    assert items[m] in multiset(sorted);
    i :| 0 <= i < |sorted| && sorted[i] == items[m];
  }

  lemma SortedKeyIsKey(d: Dict, i: int)
    requires Valid(d) && 0 <= i < |SortDesc(Items(d))|
    ensures SortDesc(Items(d))[i].0 in d.vals
  {
    var items, sorted := Items(d), SortDesc(Items(d));
    assert sorted[i] in multiset(items);
    var m :| 0 <= m < |items| && items[m] == sorted[i];
    assert d.keys[m] in d.keys;
  }

  /** `combined_data`: the app totals, then the dotted site totals put over them. */
  function Combined(appData: Dict, siteData: Dict): (c: Dict)
    requires Valid(appData) && Valid(siteData)
    ensures Valid(c)
  {
    Update(Update(Empty(), appData), FilterDotted(siteData))
  }

  /**
    A key is in the merged table when it is an app or a dotted site, and a
    dotted site's total wins over an app of the same name.
   */
  lemma CombinedGet(appData: Dict, siteData: Dict, k: string)
    requires Valid(appData) && Valid(siteData)
    ensures k in Combined(appData, siteData).vals <==> k in appData.vals || (k in siteData.vals && '.' in k)
    ensures Get(Combined(appData, siteData), k) ==
      if k in siteData.vals && '.' in k then siteData.vals[k] else Get(appData, k)
  {
    UpdateGet(Update(Empty(), appData), FilterDotted(siteData), k);
    UpdateGet(Empty(), appData, k);
  }

  /** One row of gen_report.py's table. */
  datatype ReportLine = ReportLine(key: string, text: string, category: Category)

  /** The row for one item: sites are categorised as Chrome pages, everything else as an application. */
  function Line(item: Item, sites: Dict): ReportLine {
    var (key, seconds) := item;
    ReportLine(key, FormatDuration(seconds),
      if key in sites.vals then Categorize(Some("chrome.exe"), Some(key)) else Categorize(Some(key), Some("")))
  }

  /** The rows gen_report.py writes, in order. */
  function ReportLines(appData: Dict, siteData: Dict): seq<ReportLine>
    requires Valid(appData) && Valid(siteData)
  {
    var sorted := SortDesc(Items(Combined(appData, siteData)));
    seq(|sorted|, i requires 0 <= i < |sorted| => Line(sorted[i], FilterDotted(siteData)))
  }

  /** The row loop of `generate_html(app_data, site_data)` in gen_report.py. */
  method GenerateHtml(appData: Dict, siteData: Dict) returns (lines: seq<ReportLine>)
    requires Valid(appData) && Valid(siteData)
    ensures lines == ReportLines(appData, siteData)
  {
    var filtered := FilterDotted(siteData);
    var combined := Update(Update(Empty(), appData), filtered);
    var sorted := SortDesc(Items(combined));
    lines := [];
    for i := 0 to |sorted|
      invariant |lines| == i
      invariant forall j :: 0 <= j < i ==> lines[j] == Line(sorted[j], filtered)
    {
      var line := ReportRow(sorted[i], filtered, siteData);
      lines := lines + [line];
    }
    assert combined == Combined(appData, siteData);
    assert |lines| == |ReportLines(appData, siteData)|;
  }

  /**
    One row of the loop over the items: the key, an `m:ss` text that reads
    back as the item's seconds, and the category of a Chrome page when the
    key is a dotted site (`filtered` is the dotted part of `siteData`) or of
    an application otherwise.
   */
  method ReportRow(item: Item, filtered: Dict, ghost siteData: Dict) returns (line: ReportLine)
    requires Valid(siteData) && filtered == FilterDotted(siteData)
    ensures line.key == item.0 && ParseDuration(line.text) == Some(item.1)
    ensures line.category ==
      if item.0 in siteData.vals && '.' in item.0 then Categorize(Some("chrome.exe"), Some(item.0))
      else Categorize(Some(item.0), Some(""))
    ensures line == Line(item, filtered)
  {
    var (key, seconds) := item;
    var mins := seconds / 60;
    var secs := seconds % 60;
    var category := if key in filtered.vals then Categorize(Some("chrome.exe"), Some(key)) else Categorize(Some(key), Some(""));
    line := ReportLine(key, IntToString(mins) + ":" + Pad2(secs), category);
    DurationRoundTrip(seconds);
  }

  /** The rows of gen_report.py's table are the merged items in sorted order, one row each. */
  lemma ReportLineKeys(appData: Dict, siteData: Dict)
    requires Valid(appData) && Valid(siteData)
    ensures var lines, sorted := ReportLines(appData, siteData), SortDesc(Items(Combined(appData, siteData)));
      |lines| == |sorted| && forall i :: 0 <= i < |lines| ==> lines[i].key == sorted[i].0
  {
  }

  /** gen_report.py's table has one row per app and per dotted site, and no other. */
  lemma ReportKeys(appData: Dict, siteData: Dict, k: string)
    requires Valid(appData) && Valid(siteData)
    ensures var lines := ReportLines(appData, siteData);
      (exists i :: 0 <= i < |lines| && lines[i].key == k) <==> k in appData.vals || (k in siteData.vals && '.' in k)
  {
    var lines, c := ReportLines(appData, siteData), Combined(appData, siteData);
    var sorted := SortDesc(Items(c));
    ReportLineKeys(appData, siteData);
    SortedKeys(c, k);
    CombinedGet(appData, siteData, k);
    if exists i :: 0 <= i < |lines| && lines[i].key == k {
      var i :| 0 <= i < |lines| && lines[i].key == k;
      assert sorted[i].0 == k;
    }
    if exists i :: 0 <= i < |sorted| && sorted[i].0 == k {
      var i :| 0 <= i < |sorted| && sorted[i].0 == k;
      assert lines[i].key == k;
    }
  }

  /** Each row shows its key's merged total, and the rows come in non-increasing order of it. */
  lemma ReportTimes(appData: Dict, siteData: Dict)
    requires Valid(appData) && Valid(siteData)
    ensures var lines, c := ReportLines(appData, siteData), Combined(appData, siteData);
      && (forall i :: 0 <= i < |lines| ==> ParseDuration(lines[i].text) == Some(Get(c, lines[i].key)))
      && (forall i, j :: 0 <= i < j < |lines| ==> Get(c, lines[i].key) >= Get(c, lines[j].key))
  {
    var lines, c := ReportLines(appData, siteData), Combined(appData, siteData);
    var sorted := SortDesc(Items(c));
    SortedItems(c);
    assert forall i :: 0 <= i < |lines| ==> lines[i].key == sorted[i].0 && Get(c, lines[i].key) == sorted[i].1;
    forall i | 0 <= i < |lines|
      ensures ParseDuration(lines[i].text) == Some(Get(c, lines[i].key))
    {
      DurationRoundTrip(sorted[i].1);
    }
  }

  /** A dotted site is categorised as a Chrome page; every other key as an application. */
  lemma ReportCategories(appData: Dict, siteData: Dict)
    requires Valid(appData) && Valid(siteData)
    ensures var lines := ReportLines(appData, siteData);
      forall i :: 0 <= i < |lines| ==>
        lines[i].category == (
          if lines[i].key in siteData.vals && '.' in lines[i].key then Categorize(Some("chrome.exe"), Some(lines[i].key))
          else Categorize(Some(lines[i].key), Some("")))
  {
  }

  /** The rows of generate_html_report.py's table: a key and its `m:ss` text. */
  datatype UsageLine = UsageLine(key: string, text: string)

  function UsageLines(usage: Dict): seq<UsageLine>
    requires Valid(usage)
  {
    var sorted := SortDesc(Items(usage));
    seq(|sorted|, i requires 0 <= i < |sorted| => UsageLine(sorted[i].0, FormatDuration(sorted[i].1)))
  }

  /** The row loop of `generate_html(data, date_str)` in generate_html_report.py. */
  method UsageTable(usage: Dict) returns (lines: seq<UsageLine>)
    requires Valid(usage)
    ensures lines == UsageLines(usage)
  {
    var sorted := SortDesc(Items(usage));
    lines := [];
    for i := 0 to |sorted|
      invariant |lines| == i
      invariant forall j :: 0 <= j < i ==> lines[j] == UsageLine(sorted[j].0, FormatDuration(sorted[j].1))
    {
      var (key, seconds) := sorted[i];
      var mins := seconds / 60;
      var secs := seconds % 60;
      lines := lines + [UsageLine(key, IntToString(mins) + ":" + Pad2(secs))];
    }
  }

  /** The rows of generate_html_report.py's table are the sorted items, one row each. */
  lemma UsageLineKeys(usage: Dict)
    requires Valid(usage)
    ensures var lines, sorted := UsageLines(usage), SortDesc(Items(usage));
      |lines| == |sorted| && forall i :: 0 <= i < |lines| ==> lines[i].key == sorted[i].0
  {
  }

  /** generate_html_report.py's table has a row for a key exactly when the key was tallied. */
  lemma UsageKeys(usage: Dict, k: string)
    requires Valid(usage)
    ensures var lines := UsageLines(usage);
      (exists i :: 0 <= i < |lines| && lines[i].key == k) <==> k in usage.vals
  {
    var lines, sorted := UsageLines(usage), SortDesc(Items(usage));
    UsageLineKeys(usage);
    SortedKeys(usage, k);
    if exists i :: 0 <= i < |lines| && lines[i].key == k {
      var i :| 0 <= i < |lines| && lines[i].key == k;
      assert sorted[i].0 == k;
    }
    if exists i :: 0 <= i < |sorted| && sorted[i].0 == k {
      var i :| 0 <= i < |sorted| && sorted[i].0 == k;
      assert lines[i].key == k;
    }
  }

  /** One row per key, showing its total in `m:ss`, in non-increasing order of seconds. */
  lemma UsageLinesMeaning(usage: Dict)
    requires Valid(usage)
    ensures var lines := UsageLines(usage);
      && (forall k :: (exists i :: 0 <= i < |lines| && lines[i].key == k) <==> k in usage.vals)
      && (forall i :: 0 <= i < |lines| ==> ParseDuration(lines[i].text) == Some(Get(usage, lines[i].key)))
      && (forall i, j :: 0 <= i < j < |lines| ==> Get(usage, lines[i].key) >= Get(usage, lines[j].key))
  {
    var lines, sorted := UsageLines(usage), SortDesc(Items(usage));
    SortedItems(usage);
    forall k
      ensures (exists i :: 0 <= i < |lines| && lines[i].key == k) <==> k in usage.vals
    {
      UsageKeys(usage, k);
    }
    forall i | 0 <= i < |lines|
      ensures ParseDuration(lines[i].text) == Some(Get(usage, lines[i].key))
    {
      DurationRoundTrip(sorted[i].1);
    }
  }

  /** `list(d.keys())` and the values in the same order, as the two chart arrays are built. */
  function ChartSeries(d: Dict): (series: (seq<string>, seq<int>))
    requires Valid(d)
    ensures |series.0| == |series.1| == |d.keys|
    ensures forall i :: 0 <= i < |d.keys| ==> (series.0[i], series.1[i]) == Items(d)[i]
  {
    (d.keys, seq(|d.keys|, i requires 0 <= i < |d.keys| => d.vals[d.keys[i]]))
  }

}
