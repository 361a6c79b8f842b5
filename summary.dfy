/**
  Per-key duration totals: `summarize` of activitytracker/gen_report.py,
  `summarize_activity` of activitytracker/tracker.py and the accumulation
  loop of `generate_html` in activitytracker/generate_html_report.py.  Each
  loop adds a row's duration under the key the row maps to, into an
  insertion-ordered dictionary; `Tally` is that accumulation as a function,
  and `SumWhere` the independent per-key sum it is proved to compute.
 */
module Summary {
  import opened Opt
  import opened PyDict

  /** A logged row: application, site (`NULL`/missing as `None`), seconds, start time. */
  datatype Row = Row(app: string, site: Option<string>, duration: int, time: int)

  /** Python truthiness of a site: present and non-empty. */
  predicate HasSite(r: Row) {
    r.site.Some? && r.site.value != ""
  }

  /** Which key a row is added under. */
  datatype Grouping =
    | ByApp         // `app_data[app] += duration`
    | BySite        // `site_data[site] += duration`, only rows with a site
    | ByUsageKey    // `key = site if site else app`
    | ByChromeSite  // only rows of `chrome.exe` with a site

  function KeyOf(g: Grouping, r: Row): Option<string> {
    match g
    case ByApp => Some(r.app)
    case BySite => if HasSite(r) then r.site else None
    case ByUsageKey => if HasSite(r) then r.site else Some(r.app)
    case ByChromeSite => if r.app == "chrome.exe" && HasSite(r) then r.site else None
  }

  /** The dictionary the loop builds: each row's duration added under its key, in row order. */
  function Tally(rows: seq<Row>, g: Grouping): (d: Dict)
    ensures Valid(d)
    decreases |rows|
  {
    if rows == [] then Empty()
    else
      var d := Tally(rows[..|rows| - 1], g);
      var r := rows[|rows| - 1];
      match KeyOf(g, r)
      case None => d
      case Some(k) => Add(d, k, r.duration)
  }

  /** The sum of the durations of the rows whose key is `k`. */
  function SumWhere(rows: seq<Row>, g: Grouping, k: string): int
    decreases |rows|
  {
    if rows == [] then 0
    else SumWhere(rows[..|rows| - 1], g, k) + (if KeyOf(g, rows[|rows| - 1]) == Some(k) then rows[|rows| - 1].duration else 0)
  }

  /** The sum of the durations of the rows that have a key at all. */
  function Counted(rows: seq<Row>, g: Grouping): int
    decreases |rows|
  {
    if rows == [] then 0
    else Counted(rows[..|rows| - 1], g) + (if KeyOf(g, rows[|rows| - 1]).Some? then rows[|rows| - 1].duration else 0)
  }

  /** Every row's duration, summed. */
  function TotalDuration(rows: seq<Row>): int
    decreases |rows|
  {
    if rows == [] then 0 else TotalDuration(rows[..|rows| - 1]) + rows[|rows| - 1].duration
  }

  /** Reading key `k` of the tally gives the sum of the durations of the rows with key `k`. */
  lemma {:induction false} TallyGet(rows: seq<Row>, g: Grouping, k: string)
    ensures Get(Tally(rows, g), k) == SumWhere(rows, g, k)
    decreases |rows|
  {
    if rows != [] {
      TallyGet(rows[..|rows| - 1], g, k);
    }
  }

  /** A non-empty sequence of rows is the rows before its last one, then the last one. */
  lemma SplitLast(rows: seq<Row>)
    requires rows != []
    ensures rows == rows[..|rows| - 1] + [rows[|rows| - 1]]
  {
  }

  /** The keys of the tally are exactly the keys of the rows. */
  lemma {:induction false} TallyKeys(rows: seq<Row>, g: Grouping, k: string)
    ensures k in Tally(rows, g).vals <==> exists i :: 0 <= i < |rows| && KeyOf(g, rows[i]) == Some(k)
    decreases |rows|
  {
    if rows != [] {
      var front := rows[..|rows| - 1];
      TallyKeys(front, g, k);
      TallyKeysStep(rows, g, k);
      KeyedPrefix(front, rows[|rows| - 1], g, k);
      SplitLast(rows);
    }
  }

  /** The last row adds its own key, if any, to the keys of the tally of the rows before it. */
  lemma TallyKeysStep(rows: seq<Row>, g: Grouping, k: string)
    requires rows != []
    ensures k in Tally(rows, g).vals <==> k in Tally(rows[..|rows| - 1], g).vals || KeyOf(g, rows[|rows| - 1]) == Some(k)
  {
    var d, key := Tally(rows[..|rows| - 1], g), KeyOf(g, rows[|rows| - 1]);
    if key.Some? {
      AddKeys(d, key.value, rows[|rows| - 1].duration, k);
    }
  }

  /** A row with key `k` is either among the rows before the last one, or it is the last one. */
  lemma KeyedPrefix(front: seq<Row>, r: Row, g: Grouping, k: string)
    ensures (exists i :: 0 <= i < |front + [r]| && KeyOf(g, (front + [r])[i]) == Some(k)) <==>
      (exists i :: 0 <= i < |front| && KeyOf(g, front[i]) == Some(k)) || KeyOf(g, r) == Some(k)
  {
    var rows := front + [r];
    if exists i :: 0 <= i < |front| && KeyOf(g, front[i]) == Some(k) {
      var i :| 0 <= i < |front| && KeyOf(g, front[i]) == Some(k);
      assert rows[i] == front[i];
    }
    if KeyOf(g, r) == Some(k) {
      assert rows[|front|] == r;
    }
  }

  /** The values of the tally add up to the durations of the rows that have a key. */
  lemma {:induction false} TallyTotal(rows: seq<Row>, g: Grouping)
    ensures Total(Tally(rows, g)) == Counted(rows, g)
    decreases |rows|
  {
    if rows != [] {
      var front := rows[..|rows| - 1];
      TallyTotal(front, g);
      var r, d := rows[|rows| - 1], Tally(front, g);
      assert Counted(rows, g) == Total(d) + if KeyOf(g, r).Some? then r.duration else 0;
      SplitLast(rows);
      TallyStep(front, r, g);
    }
  }

  /** One more row at the end: its duration is added under its key, if it has one. */
  lemma TallySnoc(front: seq<Row>, r: Row, g: Grouping)
    ensures Tally(front + [r], g) ==
      if KeyOf(g, r).Some? then Add(Tally(front, g), KeyOf(g, r).value, r.duration) else Tally(front, g)
  {
    assert (front + [r])[..|front|] == front;
  }

  /** One more row changes the tally's sum by that row's duration, when it has a key. */
  lemma TallyStep(front: seq<Row>, r: Row, g: Grouping)
    ensures Total(Tally(front + [r], g)) == Total(Tally(front, g)) + if KeyOf(g, r).Some? then r.duration else 0
  {
    var rows := front + [r];
    assert rows[..|rows| - 1] == front;
    if KeyOf(g, r).Some? {
      AddTotal(Tally(front, g), KeyOf(g, r).value, r.duration);
    }
  }

  /** Under a grouping that keys every row, nothing is lost: the tally adds up to all durations. */
  lemma {:induction false} UsageTotal(rows: seq<Row>)
    ensures Total(Tally(rows, ByUsageKey)) == TotalDuration(rows)
    decreases |rows|
  {
    TallyTotal(rows, ByUsageKey);
    CountedAll(rows);
  }

  lemma {:induction false} CountedAll(rows: seq<Row>)
    ensures Counted(rows, ByUsageKey) == TotalDuration(rows)
    decreases |rows|
  {
    if rows != [] {
      CountedAll(rows[..|rows| - 1]);
    }
  }

  /** A site tally never has the empty site as a key, and only Chrome rows reach the Chrome one. */
  lemma SiteKeys(rows: seq<Row>, k: string)
    ensures k in Tally(rows, BySite).vals ==> k != ""
    ensures k in Tally(rows, ByChromeSite).vals ==>
      exists i :: 0 <= i < |rows| && rows[i].app == "chrome.exe" && rows[i].site == Some(k)
  {
    TallyKeys(rows, BySite, k);
    TallyKeys(rows, ByChromeSite, k);
  }

  /** `summarize`'s scopes: `apps` and `sites` fill one map each, `both` fills the two. */
  predicate SummarizeApps(scope: string) {
    scope == "apps" || scope == "both"
  }

  predicate SummarizeSites(scope: string) {
    scope == "sites" || scope == "both"
  }

  /** The rows up to `i` inclusive are those before `i` and row `i`. */
  lemma PrefixSnoc(rows: seq<Row>, i: int)
    requires 0 <= i < |rows|
    ensures rows[..i + 1] == rows[..i] + [rows[i]]
  {
  }

  /** `summarize(rows, scope)` of gen_report.py. */
  method Summarize(rows: seq<Row>, scope: string) returns (apps: Dict, sites: Dict)
    ensures apps == if SummarizeApps(scope) then Tally(rows, ByApp) else Empty()
    ensures sites == if SummarizeSites(scope) then Tally(rows, BySite) else Empty()
  {
    apps, sites := Empty(), Empty();
    var i := 0;
    while i < |rows|
      invariant 0 <= i <= |rows|
      invariant apps == if SummarizeApps(scope) then Tally(rows[..i], ByApp) else Empty()
      invariant sites == if SummarizeSites(scope) then Tally(rows[..i], BySite) else Empty()
    {
      PrefixSnoc(rows, i);
      apps, sites := SummarizeRow(rows[..i], rows[i], scope, apps, sites);
      i := i + 1;
    }
    assert rows[..|rows|] == rows;
  }

  /** One pass of `summarize`'s loop: the row's time under its app and, when it has one, its site. */
  method SummarizeRow(ghost front: seq<Row>, r: Row, scope: string, apps: Dict, sites: Dict) returns (apps': Dict, sites': Dict)
    requires apps == if SummarizeApps(scope) then Tally(front, ByApp) else Empty()
    requires sites == if SummarizeSites(scope) then Tally(front, BySite) else Empty()
    ensures apps' == if SummarizeApps(scope) then Tally(front + [r], ByApp) else Empty()
    ensures sites' == if SummarizeSites(scope) then Tally(front + [r], BySite) else Empty()
  {
    TallySnoc(front, r, ByApp);
    TallySnoc(front, r, BySite);
    apps', sites' := apps, sites;
    if scope == "apps" || scope == "both" {
      apps' := Add(apps, r.app, r.duration);
    }
    if (scope == "sites" || scope == "both") && r.site.Some? && r.site.value != "" {
      sites' := Add(sites, r.site.value, r.duration);
    }
  }

  /** `summarize_activity`'s scopes, which are spelt `all`, `apps` and `sites`. */
  predicate ActivityApps(scope: string) {
    scope == "all" || scope == "apps"
  }

  predicate ActivitySites(scope: string) {
    scope == "all" || scope == "sites"
  }

  /**
    The rows whose timestamp lies in the closed window `[start, end]`, in
    order: each such row as many times as it occurs, and no other row.
   */
  function InWindow(rows: seq<Row>, start: int, end: int): (w: seq<Row>)
    ensures forall i :: 0 <= i < |w| ==> start <= w[i].time <= end
    ensures forall r :: r in w <==> r in rows && start <= r.time <= end
    ensures forall x :: multiset(w)[x] == if start <= x.time <= end then multiset(rows)[x] else 0
    decreases |rows|
  {
    if rows == [] then []
    else
      var w := InWindow(rows[..|rows| - 1], start, end);
      var r := rows[|rows| - 1];
      LastSplit(rows);
      if start <= r.time <= end then w + [r] else w
  }

  /** `summarize_activity(data, start, end, scope)` of tracker.py. */
  method SummarizeActivity(data: seq<Row>, start: int, end: int, scope: string) returns (apps: Dict, sites: Dict)
    ensures apps == if ActivityApps(scope) then Tally(InWindow(data, start, end), ByApp) else Empty()
    ensures sites == if ActivitySites(scope) then Tally(InWindow(data, start, end), BySite) else Empty()
  {
    apps, sites := Empty(), Empty();
    var i := 0;
    while i < |data|
      invariant 0 <= i <= |data|
      invariant apps == if ActivityApps(scope) then Tally(InWindow(data[..i], start, end), ByApp) else Empty()
      invariant sites == if ActivitySites(scope) then Tally(InWindow(data[..i], start, end), BySite) else Empty()
    {
      PrefixSnoc(data, i);
      apps, sites := ActivityRow(data[..i], data[i], start, end, scope, apps, sites);
      i := i + 1;
    }
    assert data[..|data|] == data;
  }

  /** One pass of `summarize_activity`'s loop: a row inside the window counts under its app and its site. */
  method ActivityRow(ghost front: seq<Row>, entry: Row, start: int, end: int, scope: string, apps: Dict, sites: Dict)
    returns (apps': Dict, sites': Dict)
    requires apps == if ActivityApps(scope) then Tally(InWindow(front, start, end), ByApp) else Empty()
    requires sites == if ActivitySites(scope) then Tally(InWindow(front, start, end), BySite) else Empty()
    ensures apps' == if ActivityApps(scope) then Tally(InWindow(front + [entry], start, end), ByApp) else Empty()
    ensures sites' == if ActivitySites(scope) then Tally(InWindow(front + [entry], start, end), BySite) else Empty()
  {
    InWindowSnoc(front, entry, start, end);
    TallySnoc(InWindow(front, start, end), entry, ByApp);
    TallySnoc(InWindow(front, start, end), entry, BySite);
    apps', sites' := apps, sites;
    if start <= entry.time <= end {
      if scope == "all" || scope == "apps" {
        apps' := Add(apps, entry.app, entry.duration);
      }
      if (scope == "all" || scope == "sites") && entry.site.Some? && entry.site.value != "" {
        sites' := Add(sites, entry.site.value, entry.duration);
      }
    }
  }

  /** A row read after the others is kept, at the end, exactly when it lies in the window. */
  lemma InWindowSnoc(front: seq<Row>, r: Row, start: int, end: int)
    ensures InWindow(front + [r], start, end) == InWindow(front, start, end) + if start <= r.time <= end then [r] else []
  {
    assert (front + [r])[..|front|] == front;
  }

  lemma AppendSnoc(a: seq<Row>, front: seq<Row>, r: Row)
    ensures a + (front + [r]) == (a + front) + [r]
  {
  }

  lemma ConcatAssoc(x: seq<Row>, y: seq<Row>, z: seq<Row>)
    ensures (x + y) + z == x + (y + z)
  {
  }

  /** The last row and the ones before it, as elements and with multiplicity. */
  lemma LastSplit(rows: seq<Row>)
    requires rows != []
    ensures forall x :: x in rows <==> x in rows[..|rows| - 1] || x == rows[|rows| - 1]
    ensures multiset(rows) == multiset(rows[..|rows| - 1]) + multiset{rows[|rows| - 1]}
  {
    SplitLast(rows);
  }

  /** The window keeps the rows' order: the kept rows of an earlier part come before those of a later part. */
  lemma {:induction false} InWindowAppend(a: seq<Row>, b: seq<Row>, start: int, end: int)
    ensures InWindow(a + b, start, end) == InWindow(a, start, end) + InWindow(b, start, end)
    decreases |b|
  {
    if b == [] {
      assert a + b == a;
    } else {
      var front, r := b[..|b| - 1], b[|b| - 1];
      var tail: seq<Row> := if start <= r.time <= end then [r] else [];
      SplitLast(b);
      AppendSnoc(a, front, r);
      InWindowAppend(a, front, start, end);
      InWindowSnoc(a + front, r, start, end);
      InWindowSnoc(front, r, start, end);
      calc {
        InWindow(a + b, start, end);
        InWindow((a + front) + [r], start, end);
        InWindow(a + front, start, end) + tail;
        (InWindow(a, start, end) + InWindow(front, start, end)) + tail;
        { ConcatAssoc(InWindow(a, start, end), InWindow(front, start, end), tail); }
        InWindow(a, start, end) + (InWindow(front, start, end) + tail);
        InWindow(a, start, end) + InWindow(b, start, end);
      }
    }
  }

  /** The accumulation loop of `generate_html` in generate_html_report.py. */
  method AggregateUsage(data: seq<Row>) returns (usage: Dict, chromeSites: Dict)
    ensures usage == Tally(data, ByUsageKey)
    ensures chromeSites == Tally(data, ByChromeSite)
  {
    usage, chromeSites := Empty(), Empty();
    var i := 0;
    while i < |data|
      invariant 0 <= i <= |data|
      invariant usage == Tally(data[..i], ByUsageKey)
      invariant chromeSites == Tally(data[..i], ByChromeSite)
    {
      PrefixSnoc(data, i);
      usage, chromeSites := AggregateRow(data[..i], data[i], usage, chromeSites);
      i := i + 1;
    }
    assert data[..|data|] == data;
  }

  /** One pass of that loop: the row's time under its site or app, and under its site again for `chrome.exe`. */
  method AggregateRow(ghost front: seq<Row>, r: Row, usage: Dict, chromeSites: Dict) returns (usage': Dict, chromeSites': Dict)
    requires usage == Tally(front, ByUsageKey) && chromeSites == Tally(front, ByChromeSite)
    ensures usage' == Tally(front + [r], ByUsageKey)
    ensures chromeSites' == Tally(front + [r], ByChromeSite)
  {
    TallySnoc(front, r, ByUsageKey);
    TallySnoc(front, r, ByChromeSite);
    var key := if r.site.Some? && r.site.value != "" then r.site.value else r.app;
    usage' := Add(usage, key, r.duration);
    chromeSites' := chromeSites;
    if r.app == "chrome.exe" && r.site.Some? && r.site.value != "" {
      chromeSites' := Add(chromeSites, r.site.value, r.duration);
    }
  }

  /**
    The two spellings of the scope do not agree: `both`, the default of
    `summarize`, fills neither of `summarize_activity`'s maps, and `all`,
    the default of `summarize_activity`, fills neither of `summarize`'s.
   */
  lemma ScopeSpellings()
    ensures !ActivityApps("both") && !ActivitySites("both")
    ensures !SummarizeApps("all") && !SummarizeSites("all")
  {
  }

}
