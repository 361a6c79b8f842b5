/**
  The `backups` table of the incremental backup tool
  (hostingerbackup/hostinger_bakup.py), as the sequence of its rows in
  insertion order.  Times are integers in seconds; the ISO strings the tool
  stores sort the same way, so SQL's `MAX(start_time)` is the latest time.
 */
module History {
  import opened Opt
  import opened FtpPath

  datatype BackupType = Full | Incremental

  datatype Status = Running | Success | Failed

  /** One row; the columns left NULL by the insert are `None` until the final update. */
  datatype Record = Record(
    id: nat,
    backupType: BackupType,
    startTime: int,
    endTime: Option<int>,
    remoteDirectory: Path,
    localDirectory: seq<string>,
    filesBackedUp: Option<nat>,
    directoriesBackedUp: Option<nat>,
    totalBytes: Option<nat>,
    status: Status)

  /** Row ids are 1, 2, 3, ... in insertion order: AUTOINCREMENT on a table nothing deletes from. */
  predicate IdsSequential(h: seq<Record>) {
    forall i :: 0 <= i < |h| ==> h[i].id == i + 1
  }

  /** `endTime` is set exactly on the rows that are no longer running. */
  predicate Lifecycle(h: seq<Record>) {
    forall i :: 0 <= i < |h| ==> (h[i].endTime.Some? <==> h[i].status != Running)
  }

  /** The WHERE clause of the two `MAX(start_time)` queries in `_get_last_backup_times`. */
  predicate Counts(r: Record, remote: Path, fullOnly: bool) {
    r.status == Success && r.remoteDirectory == remote && (!fullOnly || r.backupType == Full)
  }

  /** `SELECT MAX(start_time) FROM backups WHERE ...`: the latest start among the matching rows. */
  function LatestStart(h: seq<Record>, remote: Path, fullOnly: bool): (t: Option<int>)
    ensures t.None? <==> forall i :: 0 <= i < |h| ==> !Counts(h[i], remote, fullOnly)
    ensures t.Some? ==> exists i :: 0 <= i < |h| && Counts(h[i], remote, fullOnly) && h[i].startTime == t.value
    ensures t.Some? ==> forall i :: 0 <= i < |h| && Counts(h[i], remote, fullOnly) ==> h[i].startTime <= t.value
    decreases |h|
  {
    if h == [] then None
    else
      var rest := LatestStart(h[..|h| - 1], remote, fullOnly);
      var last := h[|h| - 1];
      assert forall i :: 0 <= i < |h| - 1 ==> h[..|h| - 1][i] == h[i];
      if !Counts(last, remote, fullOnly) then rest
      else if rest.Some? && rest.value >= last.startTime then rest
      else Some(last.startTime)
  }

  /**
    `_get_last_backup_times`: the start of the last successful full run and
    of the last successful run of either type for `remote`.  Every full run
    is also a run, so the second is never older than the first.
   */
  function LastBackupTimes(h: seq<Record>, remote: Path): (times: (Option<int>, Option<int>))
    ensures times.0.Some? ==> times.1.Some? && times.0.value <= times.1.value
    ensures times.1.None? ==> times.0.None?
  {
    var full := LatestStart(h, remote, true);
    var any := LatestStart(h, remote, false);
    assert full.Some? ==> any.Some? && full.value <= any.value by {
      if full.Some? {
        var i :| 0 <= i < |h| && Counts(h[i], remote, true) && h[i].startTime == full.value;
        assert Counts(h[i], remote, false);
      }
    }
    (full, any)
  }

  /** The row `_record_backup_start` inserts: status running, no end time, no counters. */
  function Started(h: seq<Record>, kind: BackupType, start: int, remote: Path, localDir: seq<string>): Record {
    Record(|h| + 1, kind, start, None, remote, localDir, None, None, None, Running)
  }

  /** The row after `_update_backup_record` has set its end time, counters and final status. */
  function Finished(r: Record, end: int, files: nat, dirs: nat, bytes: nat, status: Status): Record {
    r.(endTime := Some(end), filesBackedUp := Some(files), directoriesBackedUp := Some(dirs),
       totalBytes := Some(bytes), status := status)
  }

  /** A new running row keeps every row's end time in step with its status. */
  lemma StartedKeepsLifecycle(h: seq<Record>, kind: BackupType, start: int, remote: Path, localDir: seq<string>)
    requires Lifecycle(h)
    ensures Lifecycle(h + [Started(h, kind, start, remote, localDir)])
  {
  }

  /** Closing a row with a final status keeps every row's end time in step with its status. */
  lemma FinishedKeepsLifecycle(h: seq<Record>, k: nat, end: int, files: nat, dirs: nat, bytes: nat, status: Status)
    requires Lifecycle(h) && k < |h| && status != Running
    ensures Lifecycle(h[k := Finished(h[k], end, files, dirs, bytes, status)])
  {
  }

  /** A row that is not a success leaves both baselines as they were. */
  lemma {:induction false} UnsuccessfulRowIgnored(h: seq<Record>, r: Record, remote: Path, fullOnly: bool)
    requires r.status != Success
    ensures LatestStart(h + [r], remote, fullOnly) == LatestStart(h, remote, fullOnly)
  {
    assert (h + [r])[..|h + [r]| - 1] == h;
  }

  /** A successful row for `remote` becomes a baseline no older than its own start. */
  lemma {:induction false} SuccessfulRowIsBaseline(h: seq<Record>, r: Record, remote: Path, fullOnly: bool)
    requires Counts(r, remote, fullOnly)
    ensures LatestStart(h + [r], remote, fullOnly).Some?
    ensures LatestStart(h + [r], remote, fullOnly).value >= r.startTime
  {
    assert (h + [r])[..|h + [r]| - 1] == h;
  }

}
