/**
  The choice between a full and an incremental run in `run_backup`
  (hostingerbackup/hostinger_bakup.py): a function of the requested type, the
  two baselines read from the history and the current time.
 */
module Decision {
  import opened Opt
  import opened History
  import FtpPath

  /** The `--type` choices: `full`, `incremental` and `auto`. */
  datatype Requested = RequestFull | RequestIncremental | RequestAuto

  /** What the run does: mirror everything, or only what changed after `baseline`. */
  datatype Plan = FullRun | IncrementalRun(baseline: int)

  /** `timedelta(weeks=1)` in seconds. */
  const Week: int := 7 * 24 * 60 * 60

  /**
    Full when asked for, or when `auto` finds no successful full run or one
    more than a week old; otherwise incremental from the last successful run,
    falling back to full when there is none.
   */
  function Decide(requested: Requested, lastFull: Option<int>, lastIncremental: Option<int>, now: int): (p: Plan)
    ensures p.FullRun? <==>
      || requested == RequestFull
      || lastIncremental.None?
      || (requested == RequestAuto && (lastFull.None? || now - lastFull.value > Week))
    ensures p.IncrementalRun? ==> lastIncremental == Some(p.baseline)
  {
    var isFull := requested == RequestFull
      || (requested == RequestAuto && (lastFull.None? || now - lastFull.value > Week));
    if isFull then FullRun
    else if lastIncremental.None? then FullRun
    else IncrementalRun(lastIncremental.value)
  }

  /** The decision `run_backup` takes from the history of `remote`. */
  function DecideFromHistory(h: seq<Record>, remote: FtpPath.Path, requested: Requested, now: int): Plan {
    var times := LastBackupTimes(h, remote);
    Decide(requested, times.0, times.1, now)
  }

  /** The `backup_type` column written for a plan. */
  function TypeOf(p: Plan): BackupType {
    if p.FullRun? then Full else Incremental
  }

  /**
    An incremental run's baseline is the start of the latest successful run
    of either type for the same remote directory.
   */
  lemma BaselineIsLatestSuccess(h: seq<Record>, remote: FtpPath.Path, requested: Requested, now: int)
    requires DecideFromHistory(h, remote, requested, now).IncrementalRun?
    ensures var b := DecideFromHistory(h, remote, requested, now).baseline;
      && (exists i :: 0 <= i < |h| && Counts(h[i], remote, false) && h[i].startTime == b)
      && (forall i :: 0 <= i < |h| && Counts(h[i], remote, false) ==> h[i].startTime <= b)
  {
  }

  /**
    Under `auto`, an incremental run never uses a baseline more than a week
    old: its baseline is at least as recent as the last full run, which is
    itself at most a week old.
   */
  lemma AutoBaselineWithinWeek(h: seq<Record>, remote: FtpPath.Path, now: int)
    requires DecideFromHistory(h, remote, RequestAuto, now).IncrementalRun?
    ensures now - DecideFromHistory(h, remote, RequestAuto, now).baseline <= Week
  {
    var times := LastBackupTimes(h, remote);
    assert times.0.Some? && now - times.0.value <= Week;
  }

  /** With no successful run of either kind on record, every request becomes a full run. */
  lemma NoHistoryMeansFull(h: seq<Record>, remote: FtpPath.Path, requested: Requested, now: int)
    requires forall i :: 0 <= i < |h| ==> !Counts(h[i], remote, false)
    ensures DecideFromHistory(h, remote, requested, now) == FullRun
  {
  }

  /** The weekly threshold is strict: a full run exactly one week old still allows an incremental run. */
  lemma WeekBoundary(t: int)
    ensures Decide(RequestAuto, Some(t), Some(t), t + Week) == IncrementalRun(t)
    ensures Decide(RequestAuto, Some(t), Some(t), t + Week + 1) == FullRun
  {
  }

}
