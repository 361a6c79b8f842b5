/**
  The `HostingerBackup` object of hostingerbackup/hostinger_bakup.py (and of
  its full-only predecessor hostingerbackup/fullbackup.py): the FTP cursor,
  the counters, the local files it has created and the history table, each
  method proved against the pure walk of module Remote and the history
  functions of module History.
 */
module Backup {
  import opened Opt
  import opened FtpPath
  import opened Remote
  import opened History
  import opened Decision

  /** `retries = 3` in `download_file`. */
  const Retries: nat := 3

  /**
    One call of `download_file`: the request, the attempts it took, whether
    it returned success, how many of its attempts completed a transfer (and
    so were counted), and the size it queried.
   */
  datatype Download = Download(fetch: Fetch, attempts: nat, ok: bool, transfers: nat, size: nat)

  /** One entry of a listing being handled: the directory, the name, the `CWD` reply, and the cursor afterwards. */
  datatype Probed = Probed(dir: Path, item: string, reply: Reply, cursorAfter: Path)

  function Requests(log: seq<Download>): seq<Fetch>
    decreases |log|
  {
    if log == [] then [] else Requests(log[..|log| - 1]) + [log[|log| - 1].fetch]
  }

  /** Transfers that completed, each counted as one file. */
  function Succeeded(log: seq<Download>): nat
    decreases |log|
  {
    if log == [] then 0 else Succeeded(log[..|log| - 1]) + log[|log| - 1].transfers
  }

  /** Bytes of the transfers that completed, as `get_remote_file_size` reported them. */
  function BytesOf(log: seq<Download>): nat
    decreases |log|
  {
    if log == [] then 0 else BytesOf(log[..|log| - 1]) + log[|log| - 1].transfers * log[|log| - 1].size
  }

  /** One more download at the end of the log. */
  lemma LogSnoc(log: seq<Download>, d: Download)
    ensures Requests(log + [d]) == Requests(log) + [d.fetch]
    ensures Succeeded(log + [d]) == Succeeded(log) + d.transfers
    ensures BytesOf(log + [d]) == BytesOf(log) + d.transfers * d.size
  {
    assert (log + [d])[..|log|] == log;
  }

  /**
    Every entry handled after `a` was left with the cursor back in its own
    directory, and none of them was `.` or `..`.
   */
  predicate Restored(a: seq<Probed>, b: seq<Probed>) {
    a <= b && forall k | |a| <= k < |b| :: b[k].cursorAfter == b[k].dir && b[k].item != "." && b[k].item != ".."
  }

  /** Recording one more entry left with the cursor back in its own directory keeps the record restored. */
  lemma RestoredSnoc(a: seq<Probed>, b: seq<Probed>, p: Probed)
    requires Restored(a, b) && p.cursorAfter == p.dir && p.item != "." && p.item != ".."
    ensures Restored(a, b + [p])
  {
    assert forall k | |a| <= k < |b| :: (b + [p])[k] == b[k];
  }

  /** The walk mode a plan runs with: no baseline for a full run. */
  function ModeOf(plan: Plan): Mode {
    match plan
    case FullRun => MirrorAll
    case IncrementalRun(b) => Since(b)
  }

  /** `create_backup_dir`: `hostinger_backup_<stamp>` with `_FULL` or `_INC` appended, under the output folder. */
  function BackupDir(localDir: LocalPath, stamp: string, plan: Plan): LocalPath {
    localDir + ["hostinger_backup_" + stamp + (if plan.FullRun? then "_FULL" else "_INC")]
  }

  class HostingerBackup {
    const server: Server
    const remoteDir: Path
    const localDir: LocalPath
    /** The server-side working directory. */
    var cwd: Path
    var fileCount: nat
    var dirCount: nat
    var totalSize: nat
    /** The local paths that exist. */
    var local: set<LocalPath>
    /** The `backups` table. */
    var history: seq<Record>
    var dbOpen: bool
    var currentBackupId: Option<nat>
    ghost var downloads: seq<Download>
    ghost var probes: seq<Probed>

    ghost predicate Valid()
      reads this
    {
      && IsDir(server, cwd)
      && fileCount == Succeeded(downloads)
      && totalSize == BytesOf(downloads)
      && IdsSequential(history)
      && (currentBackupId.Some? ==> 1 <= currentBackupId.value <= |history|)
    }

    /** The part of the state the pure walk describes. */
    ghost function View(): WalkState
      reads this
    {
      WalkState(dirCount, Requests(downloads), local)
    }

    /**
      `__init__` followed by `connect`: the remote directory is normalised,
      the counters start at zero, the history database is open, and the
      login leaves the cursor in the account's home directory.
     */
    constructor (server: Server, home: Path, remoteDir: string, localDir: LocalPath, history: seq<Record>, local: set<LocalPath>)
      requires IsDir(server, home)
      requires IdsSequential(history)
      ensures Valid()
      ensures this.server == server && this.remoteDir == Normalize(remoteDir) && this.localDir == localDir
      ensures cwd == home && fileCount == 0 && dirCount == 0 && totalSize == 0
      ensures this.local == local && this.history == history && dbOpen && currentBackupId == None
      ensures downloads == [] && probes == []
    {
      this.server := server;
      this.remoteDir := Normalize(remoteDir);
      this.localDir := localDir;
      cwd := home;
      fileCount, dirCount, totalSize := 0, 0, 0;
      this.local := local;
      this.history := history;
      dbOpen := true;
      currentBackupId := None;
      downloads, probes := [], [];
    }

    /** `ftp.cwd(p)`: the cursor moves exactly when the server accepts the directory. */
    method Cwd(p: Path) returns (reply: Reply)
      requires Valid()
      modifies this`cwd
      ensures Valid()
      ensures reply == Probe(server, p)
      ensures cwd == if reply == Entered then p else old(cwd)
    {
      reply := Probe(server, p);
      if reply == Entered {
        cwd := p;
      }
    }

    /** `retrbinary('RETR p', ...)`: it may fail for any reason, and never succeeds on what is not a file. */
    method Retrieve(p: Path) returns (ok: bool)
      ensures ok ==> IsFile(server, p)
    {
      if IsFile(server, p) {
        ok := *;
      } else {
        ok := false;
      }
    }

    /**
      `download_file`: the remote path is normalised first, then the file is
      fetched with up to three attempts.  Every transfer that completes adds
      one file and the queried size before the modification time is copied
      from `MDTM`; when that step raises, the attempt counts as failed and
      the file is fetched again.  Without an `MDTM` time, or in fullbackup.py
      (`stamps` false), which has no timestamp step, the first completed
      transfer ends the call, so a file is counted at most once.
     */
    method DownloadFile(remotePath: Path, localPath: LocalPath, stamps: bool) returns (ok: bool, attempts: nat, transfers: nat)
      requires Valid()
      modifies this`fileCount, this`totalSize, this`local, this`downloads
      ensures Valid()
      ensures 1 <= attempts <= Retries && (!ok ==> attempts == Retries)
      ensures ok ==> IsFile(server, Normalize(remotePath))
      ensures transfers <= attempts && (ok ==> 1 <= transfers) && (0 < transfers ==> IsFile(server, Normalize(remotePath)))
      ensures !stamps || MtimeOf(server, remotePath).None? ==> transfers == if ok then 1 else 0
      ensures fileCount == old(fileCount) + transfers
      ensures totalSize == old(totalSize) + transfers * SizeOf(server, Normalize(remotePath))
      ensures local == old(local) + {Dirname(localPath), localPath}
      ensures downloads == old(downloads) + [Download(Fetch(Normalize(remotePath), localPath), attempts, ok, transfers, SizeOf(server, Normalize(remotePath)))]
      ensures Requests(downloads) == Requests(old(downloads)) + [Fetch(Normalize(remotePath), localPath)]
    {
      var display := Normalize(remotePath);
      // every attempt creates the folder and opens the file before the
      // transfer, and there is always a first attempt
      local := local + {Dirname(localPath), localPath};
      ok, attempts, transfers := Retry(display, if stamps then MtimeOf(server, remotePath) else None);
      var size := SizeOf(server, display);
      LogDownload(Download(Fetch(display, localPath), attempts, ok, transfers, size));
    }

    /** The counting in `download_file`: each completed transfer counts one file and its size. */
    method LogDownload(d: Download)
      requires Valid()
      modifies this`fileCount, this`totalSize, this`downloads
      ensures Valid()
      ensures fileCount == old(fileCount) + d.transfers
      ensures totalSize == old(totalSize) + d.transfers * d.size
      ensures downloads == old(downloads) + [d]
      ensures Requests(downloads) == Requests(old(downloads)) + [d.fetch]
    {
      LogSnoc(downloads, d);
      fileCount := fileCount + d.transfers;
      totalSize := totalSize + d.transfers * d.size;
      downloads := downloads + [d];
    }

    /**
      The attempts of `download_file`: at most three, stopping at the first
      attempt whose transfer and timestamp step both succeed.  `mtime` is
      what `get_remote_modification_time` answered; with `None` (or in
      fullbackup.py) there is no timestamp step.
     */
    method Retry(display: Path, mtime: Option<int>) returns (ok: bool, attempts: nat, transfers: nat)
      ensures 1 <= attempts <= Retries && (!ok ==> attempts == Retries)
      ensures ok ==> IsFile(server, display)
      ensures transfers <= attempts && (ok ==> 1 <= transfers) && (0 < transfers ==> IsFile(server, display))
      ensures mtime.None? ==> transfers == if ok then 1 else 0
    {
      ok, attempts, transfers := false, 0, 0;
      while attempts < Retries && !ok
        invariant 0 <= transfers <= attempts <= Retries
        invariant ok ==> 1 <= attempts && 1 <= transfers
        invariant 0 < transfers ==> IsFile(server, display)
        invariant mtime.None? ==> transfers == if ok then 1 else 0
        decreases Retries - attempts
      {
        var fetched := Retrieve(display);
        attempts := attempts + 1;
        if fetched {
          transfers := transfers + 1;
          if mtime.Some? {
            // `os.utime` with the `MDTM` time may raise for any reason
            ok := *;
          } else {
            ok := true;
          }
        }
        // the source sleeps two seconds before the next attempt
      }
    }

    /**
      `download_directory(dir, target)`: the walk of `Remote.Walk`, with the
      cursor put back in `dir` after every entry and moved to the parent (or
      back where it started) at the end.
     */
    method DownloadDirectory(dir: Path, target: LocalPath, mode: Mode, fuel: nat)
      requires Valid()
      modifies this`cwd, this`dirCount, this`fileCount, this`totalSize, this`local, this`downloads, this`probes
      ensures Valid()
      ensures View() == Walk(server, dir, target, mode, fuel, old(View()))
      ensures cwd == ExitCursor(server, dir, fuel, old(cwd))
      ensures Restored(old(probes), probes)
      decreases fuel, 3
    {
      if fuel == 0 {
        return;
      }
      var original := cwd;
      var reply := Cwd(dir);
      if reply != Entered {
        return;
      }
      ghost var st := View();
      dirCount := dirCount + 1;
      var listing := server[dir].listing;
      if listing.None? {
        assert View() == Walk(server, dir, target, mode, fuel, st);
        reply := Cwd(original);
        return;
      }
      WalkListing(dir, target, mode, fuel, listing.value);
      assert View() == Walk(server, dir, target, mode, fuel, st);
      LeaveDirectory(dir, original);
    }

    /** After the listing: `CWD ..`, and back to where the walk started if that fails. */
    method LeaveDirectory(dir: Path, original: Path)
      requires Valid() && IsDir(server, original)
      modifies this`cwd
      ensures Valid()
      ensures cwd == if IsDir(server, Parent(dir)) then Parent(dir) else original
    {
      var up := Cwd(Parent(dir));
      if up != Entered {
        up := Cwd(original);
      }
    }

    /** The loop over the listing of `dir`, entry by entry, with the cursor back in `dir` after each. */
    method WalkListing(dir: Path, target: LocalPath, mode: Mode, fuel: nat, items: seq<string>)
      requires Valid() && cwd == dir && fuel > 0
      modifies this`cwd, this`dirCount, this`fileCount, this`totalSize, this`local, this`downloads, this`probes
      ensures Valid() && cwd == dir
      ensures View() == WalkItems(server, dir, target, mode, fuel, items, old(View()))
      ensures Restored(old(probes), probes)
      decreases fuel, 2
    {
      var i := 0;
      while i < |items|
        invariant 0 <= i <= |items|
        invariant Valid() && cwd == dir
        invariant WalkItems(server, dir, target, mode, fuel, items[i..], View()) == WalkItems(server, dir, target, mode, fuel, items, old(View()))
        invariant Restored(old(probes), probes)
      {
        assert items[i..][0] == items[i] && items[i..][1..] == items[i + 1..];
        HandleEntry(dir, target, mode, fuel, items[i]);
        i := i + 1;
      }
    }

    /**
      One entry of the listing of `dir`: probe it with `CWD`, walk it as a
      directory, fetch it as a file by the mode's rule, or skip it, and put
      the cursor back in `dir` in every case.
     */
    method HandleEntry(dir: Path, target: LocalPath, mode: Mode, fuel: nat, item: string)
      requires Valid() && cwd == dir && fuel > 0
      modifies this`cwd, this`dirCount, this`fileCount, this`totalSize, this`local, this`downloads, this`probes
      ensures Valid() && cwd == dir
      ensures View() == WalkEntry(server, dir, target, mode, fuel, item, old(View()))
      ensures Restored(old(probes), probes)
      decreases fuel, 1
    {
      if item == "." || item == ".." {
        return;
      }
      var saved := cwd;
      var probe := Cwd(ChildPath(dir, item));
      VisitChild(dir, target, mode, fuel, item, probe);
      ghost var visited := View();
      var reply := Cwd(saved);
      RestoredSnoc(old(probes), probes, Probed(dir, item, probe, cwd));
      probes := probes + [Probed(dir, item, probe, cwd)];
      assert View() == visited;
    }

    /** What the `CWD` reply for a listed entry leads to: a walk, a download by the mode's rule, or nothing. */
    method VisitChild(dir: Path, target: LocalPath, mode: Mode, fuel: nat, item: string, probe: Reply)
      requires Valid() && fuel > 0 && item != "." && item != ".."
      requires probe == Probe(server, ChildPath(dir, item))
      modifies this`cwd, this`dirCount, this`fileCount, this`totalSize, this`local, this`downloads, this`probes
      ensures Valid()
      ensures View() == WalkEntry(server, dir, target, mode, fuel, item, old(View()))
      ensures Restored(old(probes), probes)
      decreases fuel, 0
    {
      if probe == Entered {
        EnterChild(ChildPath(dir, item), target + [item], mode, fuel - 1);
      } else if probe == NotADirectory {
        FetchChild(dir, target, mode, item);
      }
    }

    /** A listed directory: created locally, then walked one level down. */
    method EnterChild(child: Path, localItem: LocalPath, mode: Mode, fuel: nat)
      requires Valid()
      modifies this`cwd, this`dirCount, this`fileCount, this`totalSize, this`local, this`downloads, this`probes
      ensures Valid()
      ensures View() == Walk(server, child, localItem, mode, fuel, old(View()).(local := old(local) + {localItem}))
      ensures Restored(old(probes), probes)
      decreases fuel, 4
    {
      local := local + {localItem};
      DownloadDirectory(child, localItem, mode, fuel);
    }

    /** A listed entry `CWD` answered with 550: a file, downloaded if the mode's rule says so. */
    method FetchChild(dir: Path, target: LocalPath, mode: Mode, item: string)
      requires Valid()
      modifies this`fileCount, this`totalSize, this`local, this`downloads
      ensures Valid()
      ensures var child, localItem := ChildPath(dir, item), target + [item];
        View() == if ShouldFetch(mode, MtimeOf(server, child), localItem in old(local))
          then old(View()).(fetches := old(View()).fetches + [Fetch(child, localItem)], local := old(local) + {target, localItem})
          else old(View())
    {
      var child := ChildPath(dir, item);
      var localItem := target + [item];
      if ShouldFetch(mode, MtimeOf(server, child), localItem in local) {
        ChildPathNormal(dir, item);
        DirnameOfChild(target, item);
        var ok, attempts, transfers := DownloadFile(child, localItem, !mode.KeepExisting?);
        assert Requests(downloads) == old(View()).fetches + [Fetch(child, localItem)];
        assert local == old(local) + {target, localItem};
      }
    }

    /** `_record_backup_start`: a `running` row with the next id, or no id when the database is unusable. */
    method RecordBackupStart(kind: BackupType, backupDir: LocalPath, start: int)
      requires Valid()
      modifies this`history, this`currentBackupId
      ensures Valid()
      ensures dbOpen ==> history == old(history) + [Started(old(history), kind, start, remoteDir, backupDir)]
      ensures dbOpen ==> currentBackupId == Some(|history|)
      ensures !dbOpen ==> history == old(history) && currentBackupId == None
      ensures Lifecycle(old(history)) ==> Lifecycle(history)
    {
      if dbOpen {
        if Lifecycle(history) {
          StartedKeepsLifecycle(history, kind, start, remoteDir, backupDir);
        }
        history := history + [Started(history, kind, start, remoteDir, backupDir)];
        currentBackupId := Some(|history|);
      } else {
        currentBackupId := None;
      }
    }

    /**
      `_update_backup_record`: the current row gets its end time, counters and
      status; nothing changes without a row id or with the database closed
      (the error is reported and swallowed).
     */
    method UpdateBackupRecord(status: Status, end: int)
      requires Valid()
      modifies this`history
      ensures Valid()
      ensures currentBackupId.Some? && dbOpen ==>
        var k := currentBackupId.value - 1;
        history == old(history)[k := Finished(old(history)[k], end, fileCount, dirCount, totalSize, status)]
      ensures currentBackupId.None? || !dbOpen ==> history == old(history)
      ensures Lifecycle(old(history)) && status != Running ==> Lifecycle(history)
    {
      if currentBackupId.Some? && dbOpen {
        var k := currentBackupId.value - 1;
        if Lifecycle(history) && status != Running {
          FinishedKeepsLifecycle(history, k, end, fileCount, dirCount, totalSize, status);
        }
        history := history[k := Finished(history[k], end, fileCount, dirCount, totalSize, status)];
      }
    }

    /** `disconnect`: closes the FTP session and the history database. */
    method Disconnect()
      modifies this`dbOpen
      ensures !dbOpen
    {
      dbOpen := false;
    }

    /**
      The body of `run_backup` up to its `finally` block: decide the run's
      type from the history, create the run's folder, record the start and
      walk the remote directory into the folder.
     */
    method StartRun(requested: Requested, now: int, stamp: string, fuel: nat) returns (plan: Plan)
      requires Valid() && dbOpen
      modifies this`cwd, this`dirCount, this`fileCount, this`totalSize, this`local, this`downloads, this`probes, this`history, this`currentBackupId
      ensures Valid() && dbOpen
      ensures plan == DecideFromHistory(old(history), remoteDir, requested, now)
      ensures var dir := BackupDir(localDir, stamp, plan);
        && View() == Walk(server, remoteDir, dir, ModeOf(plan), fuel, old(View()).(local := old(local) + {dir}))
        && cwd == ExitCursor(server, remoteDir, fuel, old(cwd))
        && history == old(history) + [Started(old(history), TypeOf(plan), now, remoteDir, dir)]
        && currentBackupId == Some(|history|)
    {
      var times := LastBackupTimes(history, remoteDir);
      plan := Decide(requested, times.0, times.1, now);
      var dir := BackupDir(localDir, stamp, plan);
      local := local + {dir};
      RecordBackupStart(TypeOf(plan), dir, now);
      DownloadDirectory(remoteDir, dir, ModeOf(plan), fuel);
    }

    /**
      `run_backup` as written: the `finally` block closes the database before
      updating the record, so the update fails and the row stays `running`.
     */
    method RunBackup(requested: Requested, now: int, stamp: string, end: int, fuel: nat) returns (plan: Plan)
      requires Valid() && dbOpen
      modifies this
      ensures Valid() && !dbOpen
      ensures plan == DecideFromHistory(old(history), remoteDir, requested, now)
      ensures var dir := BackupDir(localDir, stamp, plan);
        && View() == Walk(server, remoteDir, dir, ModeOf(plan), fuel, old(View()).(local := old(local) + {dir}))
        && cwd == ExitCursor(server, remoteDir, fuel, old(cwd))
        && history == old(history) + [Started(old(history), TypeOf(plan), now, remoteDir, dir)]
    {
      plan := StartRun(requested, now, stamp, fuel);
      Disconnect();
      UpdateBackupRecord(Success, end);
    }

    /**
      `run_backup` with the record updated before the connection is closed:
      the run's row ends as a success carrying the final counters.
     */
    method RunBackupFixed(requested: Requested, now: int, stamp: string, end: int, fuel: nat) returns (plan: Plan)
      requires Valid() && dbOpen
      modifies this
      ensures Valid() && !dbOpen
      ensures plan == DecideFromHistory(old(history), remoteDir, requested, now)
      ensures var dir := BackupDir(localDir, stamp, plan);
        && View() == Walk(server, remoteDir, dir, ModeOf(plan), fuel, old(View()).(local := old(local) + {dir}))
        && cwd == ExitCursor(server, remoteDir, fuel, old(cwd))
        && history == old(history) + [Finished(Started(old(history), TypeOf(plan), now, remoteDir, dir), end, fileCount, dirCount, totalSize, Success)]
    {
      plan := StartRun(requested, now, stamp, fuel);
      ghost var started := history;
      UpdateBackupRecord(Success, end);
      assert history == started[|started| - 1 := Finished(started[|started| - 1], end, fileCount, dirCount, totalSize, Success)];
      Disconnect();
    }

    /**
      `run_backup` of hostingerbackup/fullbackup.py: a `hostinger_backup_<stamp>`
      folder and a walk that downloads only files missing locally.
     */
    method RunFullOnlyBackup(stamp: string, fuel: nat)
      requires Valid()
      modifies this`cwd, this`dirCount, this`fileCount, this`totalSize, this`local, this`downloads, this`probes
      ensures Valid()
      ensures var dir := localDir + ["hostinger_backup_" + stamp];
        && View() == Walk(server, remoteDir, dir, KeepExisting, fuel, old(View()).(local := old(local) + {dir}))
        && cwd == ExitCursor(server, remoteDir, fuel, old(cwd))
    {
      var dir := localDir + ["hostinger_backup_" + stamp];
      local := local + {dir};
      DownloadDirectory(remoteDir, dir, KeepExisting, fuel);
    }
  }

  /**
    As written, no run ever records a success: starting from a history with
    no successful run for `remote`, any number of runs (whose rows stay
    `running`) leave every later decision a full run.
   */
  lemma {:induction false} AsWrittenRunsAlwaysFull(h: seq<Record>, rows: seq<Record>, remote: Path, requested: Requested, now: int)
    requires forall i :: 0 <= i < |h| ==> !Counts(h[i], remote, false)
    requires forall i :: 0 <= i < |rows| ==> rows[i].status == Running
    ensures DecideFromHistory(h + rows, remote, requested, now) == FullRun
    decreases |rows|
  {
    if rows == [] {
      assert h + rows == h;
    } else {
      var before := rows[..|rows| - 1];
      var last := rows[|rows| - 1];
      assert h + rows == (h + before) + [last];
      AsWrittenRunsAlwaysFull(h, before, remote, requested, now);
      UnsuccessfulRowIgnored(h + before, last, remote, false);
      UnsuccessfulRowIgnored(h + before, last, remote, true);
    }
  }

  /**
    With the fix, a full run's row makes `auto` choose an incremental run for
    the following week, with a baseline no older than that run's start.
   */
  lemma FixedFullRunEnablesIncremental(h: seq<Record>, remote: Path, now: int, dir: LocalPath, end: int, files: nat, dirs: nat, bytes: nat, t: int)
    requires now <= t <= now + Week
    ensures var row := Finished(Started(h, Full, now, remote, dir), end, files, dirs, bytes, Success);
      var plan := DecideFromHistory(h + [row], remote, RequestAuto, t);
      plan.IncrementalRun? && plan.baseline >= now
  {
    var row := Finished(Started(h, Full, now, remote, dir), end, files, dirs, bytes, Success);
    SuccessfulRowIsBaseline(h, row, remote, true);
  }

  /** The first as-written run of a fresh history is full, and so is the next one. */
  lemma AsWrittenSecondRunIsFull(remote: Path, dir: LocalPath, now: int, later: int)
    ensures DecideFromHistory([], remote, RequestAuto, now) == FullRun
    ensures DecideFromHistory([Started([], Full, now, remote, dir)], remote, RequestAuto, later) == FullRun
  {
    UnsuccessfulRowIgnored([], Started([], Full, now, remote, dir), remote, true);
    UnsuccessfulRowIgnored([], Started([], Full, now, remote, dir), remote, false);
  }

}
