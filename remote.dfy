/**
  The remote FTP tree as the backup tool sees it, and the recursive walk of
  `download_directory` (hostingerbackup/hostinger_bakup.py and
  hostingerbackup/fullbackup.py) as a pure function of that tree: which
  directories it enters, which files it asks to download, and which local
  paths exist afterwards.
 */
module Remote {
  import opened Opt
  import opened FtpPath

  /** A local file-system path, as the list of names `os.path.join` puts together. */
  type LocalPath = seq<string>

  /**
    What the server holds at a path: a directory (whose `NLST` may fail), a
    file (whose `SIZE` and `MDTM` replies may be missing), a path `CWD`
    refuses with a permission error other than 550, or one where `CWD` fails
    in some other way.  A path absent from the map draws a 550 reply.
   */
  datatype Entry =
    | Dir(listing: Option<seq<string>>)
    | File(size: Option<nat>, mtime: Option<int>)
    | Denied
    | Faulty

  type Server = map<Path, Entry>

  /** The outcome of `CWD p`: success, a 550 reply, another permission error, or another failure. */
  datatype Reply = Entered | NotADirectory | PermissionDenied | OtherError

  predicate IsDir(server: Server, p: Path) {
    p in server && server[p].Dir?
  }

  predicate IsFile(server: Server, p: Path) {
    p in server && server[p].File?
  }

  function Probe(server: Server, p: Path): (r: Reply)
    ensures r == Entered <==> IsDir(server, p)
    ensures r == NotADirectory <==> p !in server || server[p].File?
  {
    if p !in server then NotADirectory
    else match server[p]
      case Dir(_) => Entered
      case File(_, _) => NotADirectory
      case Denied => PermissionDenied
      case Faulty => OtherError
  }

  /** `get_remote_file_size`: the `SIZE` reply, or 0 when there is none. */
  function SizeOf(server: Server, p: Path): nat {
    if IsFile(server, p) && server[p].size.Some? then server[p].size.value else 0
  }

  /** `get_remote_modification_time`: the `MDTM` time, or `None` when there is none. */
  function MtimeOf(server: Server, p: Path): (t: Option<int>)
    ensures t.Some? ==> IsFile(server, p)
  {
    if IsFile(server, p) then server[p].mtime else None
  }

  /**
    Which files a walk fetches: all of them (a full run), those changed after
    a baseline or missing locally (an incremental run), or those missing
    locally (the full-only tool in fullbackup.py).
   */
  datatype Mode = MirrorAll | Since(baseline: int) | KeepExisting

  /** The per-file rule, given the remote modification time and whether the local copy exists. */
  function ShouldFetch(mode: Mode, mtime: Option<int>, present: bool): bool {
    match mode
    case MirrorAll => true
    case Since(b) => (mtime.Some? && mtime.value > b) || !present
    case KeepExisting => !present
  }

  /** The remote path of a listed entry: `_normalize_ftp_path(current + '/' + item)`. */
  function ChildPath(dir: Path, item: string): Path {
    Normalize(dir + "/" + item)
  }

  /** `os.path.dirname`. */
  function Dirname(p: LocalPath): LocalPath {
    if p == [] then [] else p[..|p| - 1]
  }

  /** A child path is already normalised, so `download_file` leaves it as it is. */
  lemma ChildPathNormal(dir: Path, item: string)
    ensures Normalize(ChildPath(dir, item)) == ChildPath(dir, item)
  {
    NormalizeIdempotent(dir + "/" + item);
  }

  /** The folder of a listed entry's local path is the directory being walked into. */
  lemma DirnameOfChild(target: LocalPath, item: string)
    ensures Dirname(target + [item]) == target
  {
  }

  /** A download the walk asks for. */
  datatype Fetch = Fetch(remote: Path, local: LocalPath)

  /** What a walk accumulates: directories entered, downloads requested, local paths that exist. */
  datatype WalkState = WalkState(dirs: nat, fetches: seq<Fetch>, local: set<LocalPath>)

  /**
    `download_directory(dir, target)`: enter `dir` (nothing happens if that
    fails), count it, list it (stop if that fails) and handle the entries in
    order.  `fuel` bounds the depth of recursion, as Python's recursion
    limit does.
   */
  function Walk(server: Server, dir: Path, target: LocalPath, mode: Mode, fuel: nat, st: WalkState): WalkState
    decreases fuel, 1, 0
  {
    if fuel == 0 || !IsDir(server, dir) then st
    else
      var entered := st.(dirs := st.dirs + 1);
      match server[dir].listing
      case None => entered
      case Some(items) => WalkItems(server, dir, target, mode, fuel, items, entered)
  }

  /** The loop over the listing, entry by entry from the front. */
  function WalkItems(server: Server, dir: Path, target: LocalPath, mode: Mode, fuel: nat, items: seq<string>, st: WalkState): WalkState
    requires fuel > 0
    decreases fuel, 0, |items|
  {
    if items == [] then st
    else WalkItems(server, dir, target, mode, fuel, items[1..], WalkEntry(server, dir, target, mode, fuel, items[0], st))
  }

  /**
    One listed entry: `.` and `..` are skipped; a directory is created
    locally and walked; a 550 reply marks a file, fetched by the mode's rule
    (the download creates the file and its folder whether or not the transfer
    succeeds); any other failure skips the entry.
   */
  function WalkEntry(server: Server, dir: Path, target: LocalPath, mode: Mode, fuel: nat, item: string, st: WalkState): WalkState
    requires fuel > 0
    decreases fuel, 0, 0
  {
    if item == "." || item == ".." then st
    else
      var remote := ChildPath(dir, item);
      var local := target + [item];
      match Probe(server, remote)
      case Entered => Walk(server, remote, local, mode, fuel - 1, st.(local := st.local + {local}))
      case NotADirectory =>
        if ShouldFetch(mode, MtimeOf(server, remote), local in st.local)
        then st.(fetches := st.fetches + [Fetch(remote, local)], local := st.local + {target, local})
        else st
      case _ => st
  }

  /**
    Where the cursor ends after `download_directory(dir)` started at
    `original`: one level up with `CWD ..` after a completed listing,
    otherwise back at `original`.
   */
  function ExitCursor(server: Server, dir: Path, fuel: nat, original: Path): Path {
    if fuel > 0 && IsDir(server, dir) && server[dir].listing.Some? && IsDir(server, Parent(dir))
    then Parent(dir) else original
  }

  /** `b` extends `a`: nothing is forgotten and the download list only grows at its end. */
  predicate Grows(a: WalkState, b: WalkState) {
    a.dirs <= b.dirs && a.fetches <= b.fetches && a.local <= b.local
  }

  /**
    Every download requested between `a` and `b` targets a path that did not
    exist at `a`, exists at `b`, and no other of those downloads targets it.
   */
  predicate FreshFetches(a: WalkState, b: WalkState)
    requires |a.fetches| <= |b.fetches|
  {
    forall i | |a.fetches| <= i < |b.fetches| ::
      && b.fetches[i].local !in a.local
      && b.fetches[i].local in b.local
      && forall j | |a.fetches| <= j < i :: b.fetches[j].local != b.fetches[i].local
  }

  lemma FreshFetchesChain(a: WalkState, b: WalkState, c: WalkState)
    requires Grows(a, b) && Grows(b, c)
    requires FreshFetches(a, b) && FreshFetches(b, c)
    ensures Grows(a, c) && FreshFetches(a, c)
  {
    forall i | |a.fetches| <= i < |c.fetches|
      ensures c.fetches[i].local !in a.local && c.fetches[i].local in c.local
      ensures forall j | |a.fetches| <= j < i :: c.fetches[j].local != c.fetches[i].local
    {
      if i < |b.fetches| {
        assert c.fetches[i] == b.fetches[i];
        forall j | |a.fetches| <= j < i
          ensures c.fetches[j].local != c.fetches[i].local
        {
          assert c.fetches[j] == b.fetches[j];
        }
      } else {
        forall j | |a.fetches| <= j < i
          ensures c.fetches[j].local != c.fetches[i].local
        {
          if j < |b.fetches| {
            assert c.fetches[j] == b.fetches[j];
          }
        }
      }
    }
  }

  /** A walk only adds: directories, downloads at the end of the list, and local paths. */
  lemma {:induction false} WalkGrows(server: Server, dir: Path, target: LocalPath, mode: Mode, fuel: nat, st: WalkState)
    ensures Grows(st, Walk(server, dir, target, mode, fuel, st))
    decreases fuel, 1, 0
  {
    if fuel > 0 && IsDir(server, dir) && server[dir].listing.Some? {
      WalkItemsGrows(server, dir, target, mode, fuel, server[dir].listing.value, st.(dirs := st.dirs + 1));
    }
  }

  lemma {:induction false} WalkItemsGrows(server: Server, dir: Path, target: LocalPath, mode: Mode, fuel: nat, items: seq<string>, st: WalkState)
    requires fuel > 0
    ensures Grows(st, WalkItems(server, dir, target, mode, fuel, items, st))
    decreases fuel, 0, |items|
  {
    if items != [] {
      var next := WalkEntry(server, dir, target, mode, fuel, items[0], st);
      WalkEntryGrows(server, dir, target, mode, fuel, items[0], st);
      WalkItemsGrows(server, dir, target, mode, fuel, items[1..], next);
    }
  }

  lemma {:induction false} WalkEntryGrows(server: Server, dir: Path, target: LocalPath, mode: Mode, fuel: nat, item: string, st: WalkState)
    requires fuel > 0
    ensures Grows(st, WalkEntry(server, dir, target, mode, fuel, item, st))
    decreases fuel, 0, 0
  {
    if item != "." && item != ".." {
      var remote := ChildPath(dir, item);
      var local := target + [item];
      if Probe(server, remote) == Entered {
        WalkGrows(server, remote, local, mode, fuel - 1, st.(local := st.local + {local}));
      }
    }
  }

  /**
    The full-only tool never downloads onto a path that existed before the
    walk, and never downloads onto the same path twice.
   */
  lemma {:induction false} KeepExistingNeverOverwrites(server: Server, dir: Path, target: LocalPath, fuel: nat, st: WalkState)
    ensures var r := Walk(server, dir, target, KeepExisting, fuel, st);
      Grows(st, r) && FreshFetches(st, r)
    decreases fuel, 1, 0
  {
    WalkGrows(server, dir, target, KeepExisting, fuel, st);
    if fuel > 0 && IsDir(server, dir) && server[dir].listing.Some? {
      var entered := st.(dirs := st.dirs + 1);
      KeepExistingItems(server, dir, target, fuel, server[dir].listing.value, entered);
    }
  }

  lemma {:induction false} KeepExistingItems(server: Server, dir: Path, target: LocalPath, fuel: nat, items: seq<string>, st: WalkState)
    requires fuel > 0
    ensures var r := WalkItems(server, dir, target, KeepExisting, fuel, items, st);
      Grows(st, r) && FreshFetches(st, r)
    decreases fuel, 0, |items|
  {
    if items != [] {
      var next := WalkEntry(server, dir, target, KeepExisting, fuel, items[0], st);
      var r := WalkItems(server, dir, target, KeepExisting, fuel, items[1..], next);
      KeepExistingEntry(server, dir, target, fuel, items[0], st);
      KeepExistingItems(server, dir, target, fuel, items[1..], next);
      FreshFetchesChain(st, next, r);
    }
  }

  lemma {:induction false} KeepExistingEntry(server: Server, dir: Path, target: LocalPath, fuel: nat, item: string, st: WalkState)
    requires fuel > 0
    ensures var r := WalkEntry(server, dir, target, KeepExisting, fuel, item, st);
      Grows(st, r) && FreshFetches(st, r)
    decreases fuel, 0, 0
  {
    WalkEntryGrows(server, dir, target, KeepExisting, fuel, item, st);
    if item != "." && item != ".." {
      var remote := ChildPath(dir, item);
      var local := target + [item];
      if Probe(server, remote) == Entered {
        var made := st.(local := st.local + {local});
        KeepExistingNeverOverwrites(server, remote, local, fuel - 1, made);
        var r := Walk(server, remote, local, KeepExisting, fuel - 1, made);
        assert |made.fetches| == |st.fetches|;
        assert FreshFetches(st, r) by {
          assert st.local <= made.local;
        }
      }
    }
  }

  /** `p` is `q` or lies below it. */
  predicate Under(p: LocalPath, q: LocalPath) {
    |q| <= |p| && p[..|q|] == q
  }

  /** No local path lies strictly below `target`: the folder is new or empty. */
  predicate FreshBelow(local: set<LocalPath>, target: LocalPath) {
    forall p | p in local :: !(|p| > |target| && p[..|target|] == target)
  }

  /** Nothing local lies at or below `target + [item]`. */
  predicate Unclaimed(local: set<LocalPath>, target: LocalPath, item: string) {
    forall p | p in local :: !Under(p, target + [item])
  }

  /** Every new local path of `b` lies at or below `target`. */
  predicate AddsOnlyUnder(a: WalkState, b: WalkState, target: LocalPath) {
    forall p | p in b.local && p !in a.local :: Under(p, target)
  }

  predicate Distinct(items: seq<string>) {
    forall i, j | 0 <= i < j < |items| :: items[i] != items[j]
  }

  /** No directory listing names an entry twice. */
  predicate DistinctListings(server: Server) {
    forall p | p in server && server[p].Dir? && server[p].listing.Some? :: Distinct(server[p].listing.value)
  }

  lemma UnderChild(p: LocalPath, target: LocalPath, item: string)
    requires Under(p, target + [item])
    ensures Under(p, target) && |p| > |target| && p[|target|] == item
  {
    assert p[..|target| + 1][..|target|] == p[..|target|];
    assert p[..|target| + 1][|target|] == p[|target|];
  }

  /**
    An incremental walk into a target folder with nothing below it fetches
    exactly what a full walk fetches: no file can already exist there, so
    the "missing locally" half of the rule admits every file whatever its
    modification time.  The tool creates a fresh, time-stamped folder for
    every run, so its incremental runs download the whole tree.
   */
  lemma {:induction false} IncrementalIntoFreshFolderIsFull(server: Server, dir: Path, target: LocalPath, baseline: int, fuel: nat, st: WalkState)
    requires DistinctListings(server)
    requires FreshBelow(st.local, target)
    ensures Walk(server, dir, target, Since(baseline), fuel, st) == Walk(server, dir, target, MirrorAll, fuel, st)
    ensures AddsOnlyUnder(st, Walk(server, dir, target, MirrorAll, fuel, st), target)
    decreases fuel, 1, 0
  {
    if fuel > 0 && IsDir(server, dir) && server[dir].listing.Some? {
      var items := server[dir].listing.value;
      var entered := st.(dirs := st.dirs + 1);
      forall i | 0 <= i < |items|
        ensures Unclaimed(entered.local, target, items[i])
      {
        forall p | p in entered.local
          ensures !Under(p, target + [items[i]])
        {
          if Under(p, target + [items[i]]) {
            UnderChild(p, target, items[i]);
          }
        }
      }
      IncrementalIntoFreshItems(server, dir, target, baseline, fuel, items, entered);
    }
  }

  lemma {:induction false} IncrementalIntoFreshItems(server: Server, dir: Path, target: LocalPath, baseline: int, fuel: nat, items: seq<string>, st: WalkState)
    requires fuel > 0
    requires DistinctListings(server) && Distinct(items)
    requires forall i | 0 <= i < |items| :: Unclaimed(st.local, target, items[i])
    ensures WalkItems(server, dir, target, Since(baseline), fuel, items, st) == WalkItems(server, dir, target, MirrorAll, fuel, items, st)
    ensures AddsOnlyUnder(st, WalkItems(server, dir, target, MirrorAll, fuel, items, st), target)
    decreases fuel, 0, |items|
  {
    if items != [] {
      var x := items[0];
      IncrementalIntoFreshEntry(server, dir, target, baseline, fuel, x, st);
      var next := WalkEntry(server, dir, target, MirrorAll, fuel, x, st);
      var rest := items[1..];
      forall k | 0 <= k < |rest|
        ensures Unclaimed(next.local, target, rest[k])
      {
        assert rest[k] == items[k + 1] && rest[k] != x;
        assert Unclaimed(st.local, target, items[k + 1]);
        forall p | p in next.local
          ensures !Under(p, target + [rest[k]])
        {
          if Under(p, target + [rest[k]]) {
            UnderChild(p, target, rest[k]);
            if p !in st.local && p != target {
              UnderChild(p, target, x);
            }
          }
        }
      }
      IncrementalIntoFreshItems(server, dir, target, baseline, fuel, rest, next);
      var r := WalkItems(server, dir, target, MirrorAll, fuel, rest, next);
      forall p | p in r.local && p !in st.local
        ensures Under(p, target)
      {
        if p in next.local && p != target {
          UnderChild(p, target, x);
        }
      }
    }
  }

  lemma {:induction false} IncrementalIntoFreshEntry(server: Server, dir: Path, target: LocalPath, baseline: int, fuel: nat, item: string, st: WalkState)
    requires fuel > 0
    requires DistinctListings(server)
    requires Unclaimed(st.local, target, item)
    ensures WalkEntry(server, dir, target, Since(baseline), fuel, item, st) == WalkEntry(server, dir, target, MirrorAll, fuel, item, st)
    ensures var r := WalkEntry(server, dir, target, MirrorAll, fuel, item, st);
      forall p | p in r.local && p !in st.local :: p == target || Under(p, target + [item])
    decreases fuel, 0, 0
  {
    if item != "." && item != ".." {
      var remote := ChildPath(dir, item);
      var local := target + [item];
      assert Under(local, local);
      if Probe(server, remote) == Entered {
        var made := st.(local := st.local + {local});
        assert FreshBelow(made.local, local);
        IncrementalIntoFreshFolderIsFull(server, remote, local, baseline, fuel - 1, made);
      }
    }
  }

}
