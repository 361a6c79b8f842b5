/**
  Session segmentation: `activity_monitor` and `save_session` of
  activitytracker/activity_tracker.py (activitytracker/tracker.py holds the
  same loop).  The foreground window is sampled; whenever the sampled
  `(app, title)` pair differs from the previous one, the previous pair's
  session is saved if it had an application name, and a new session starts
  at the moment of the change.  Times are integer microseconds, as a
  `datetime` holds them; the sampling itself is a finite sequence.
 */
module Sessions {
  import opened Opt
  import opened Text
  import opened Sites

  const MicrosPerSecond: int := 1_000_000
  const MicrosPerDay: int := 86_400_000_000

  /** What `get_active_window` returns: `(None, None)` on failure, else the process name and title. */
  datatype Window = NoWindow | Active(app: string, title: string)

  /** One sample: the window seen and the clock reading taken if it changed. */
  datatype Sample = Sample(window: Window, time: int)

  /** One `activity_log` row, with the date kept as a day number. */
  datatype Session = Session(app: string, title: string, site: Option<string>, start: int, end: int, duration: int, day: int)

  /** `int(delta.total_seconds())`: whole seconds, rounded toward zero. */
  function WholeSeconds(micros: int): (q: int)
    ensures micros >= 0 ==> 0 <= q * MicrosPerSecond <= micros < q * MicrosPerSecond + MicrosPerSecond
    ensures micros < 0 ==> q <= 0 && q * MicrosPerSecond - MicrosPerSecond < micros <= q * MicrosPerSecond
  {
    if micros >= 0 then micros / MicrosPerSecond else -((-micros) / MicrosPerSecond)
  }

  /** Whether `save_session` records a site: the lower-cased process name contains `chrome`. */
  predicate IsChrome(app: string) {
    Contains(Lower(app), "chrome")
  }

  /** The row `save_session(app, title, start, end)` inserts. */
  function SaveSession(app: string, title: string, start: int, end: int): (s: Session)
    ensures s.app == app && s.title == title && s.start == start && s.end == end
    ensures s.site.Some? <==> IsChrome(app)
    ensures s.site.Some? ==> s.site.value == ExtractSite(title)
    ensures start <= end ==> 0 <= s.duration * MicrosPerSecond <= end - start < (s.duration + 1) * MicrosPerSecond
    ensures s.day * MicrosPerDay <= start < (s.day + 1) * MicrosPerDay
  {
    Session(app, title, if IsChrome(app) then Some(ExtractSite(title)) else None,
      start, end, WholeSeconds(end - start), start / MicrosPerDay)
  }

  /** The loop variables `last_app, last_title` and `start_time`, and the rows saved so far. */
  datatype MonitorState = MonitorState(last: Window, start: int, saved: seq<Session>)

  /** `if last_app:` — a window whose session is worth saving. */
  predicate Named(w: Window) {
    w.Active? && w.app != ""
  }

  /** One iteration of the `while True` loop. */
  function Step(st: MonitorState, s: Sample): MonitorState {
    if s.window == st.last then st
    else
      var saved := if Named(st.last) then st.saved + [SaveSession(st.last.app, st.last.title, st.start, s.time)] else st.saved;
      MonitorState(s.window, s.time, saved)
  }

  /** The state after the given samples, starting at `t0` with no window. */
  function Run(t0: int, samples: seq<Sample>): MonitorState
    decreases |samples|
  {
    if samples == [] then MonitorState(NoWindow, t0, [])
    else Step(Run(t0, samples[..|samples| - 1]), samples[|samples| - 1])
  }

  /** `activity_monitor` over a finite run of samples: the rows it saves. */
  method ActivityMonitor(t0: int, samples: seq<Sample>) returns (saved: seq<Session>)
    ensures saved == Run(t0, samples).saved
  {
    var last := NoWindow;
    var start := t0;
    saved := [];
    var i := 0;
    while i < |samples|
      invariant 0 <= i <= |samples|
      invariant Run(t0, samples[..i]) == MonitorState(last, start, saved)
    {
      var s := samples[i];
      if s.window != last {
        var end := s.time;
        if last.Active? && last.app != "" {
          saved := saved + [SaveSession(last.app, last.title, start, end)];
        }
        start := end;
        last := s.window;
      }
      assert samples[..i + 1][..i] == samples[..i];
      i := i + 1;
    }
    assert samples[..|samples|] == samples;
  }

  /** The clock never goes back, and starts no later than the first sample. */
  predicate Monotone(t0: int, samples: seq<Sample>) {
    && (samples != [] ==> t0 <= samples[0].time)
    && forall i, j :: 0 <= i < j < |samples| ==> samples[i].time <= samples[j].time
  }

  /** Saved sessions run forward and do not overlap, and the open one starts after them all. */
  predicate Ordered(st: MonitorState) {
    && (forall i :: 0 <= i < |st.saved| ==> st.saved[i].start <= st.saved[i].end)
    && (forall i :: 0 <= i < |st.saved| - 1 ==> st.saved[i].end <= st.saved[i + 1].start)
    && (st.saved != [] ==> st.saved[|st.saved| - 1].end <= st.start)
  }

  /**
    With a clock that never goes back, every saved session has a
    non-negative length, sessions follow one another without overlapping,
    and every saved row has an application name.
   */
  lemma {:induction false} RunOrdered(t0: int, samples: seq<Sample>)
    requires Monotone(t0, samples)
    ensures Ordered(Run(t0, samples))
    ensures t0 <= Run(t0, samples).start
    ensures samples != [] ==> Run(t0, samples).start <= samples[|samples| - 1].time
    ensures forall i :: 0 <= i < |Run(t0, samples).saved| ==> Run(t0, samples).saved[i].app != ""
    ensures forall i :: 0 <= i < |Run(t0, samples).saved| ==> t0 <= Run(t0, samples).saved[i].start
    decreases |samples|
  {
    if samples != [] {
      var front := samples[..|samples| - 1];
      assert Monotone(t0, front);
      RunOrdered(t0, front);
      var last := samples[|samples| - 1];
      if front != [] {
        assert front[|front| - 1].time <= last.time;
      }
      StepKeepsOrder(t0, Run(t0, front), last);
    }
  }

  /** What `RunOrdered` states of a state, at a start no earlier than `t0`. */
  ghost predicate OrderedSince(t0: int, st: MonitorState) {
    && Ordered(st)
    && t0 <= st.start
    && (forall i :: 0 <= i < |st.saved| ==> st.saved[i].app != "")
    && (forall i :: 0 <= i < |st.saved| ==> t0 <= st.saved[i].start)
  }

  /** A sample no earlier than the open session's start keeps the saved sessions ordered. */
  lemma StepKeepsOrder(t0: int, st: MonitorState, s: Sample)
    requires OrderedSince(t0, st) && st.start <= s.time
    ensures OrderedSince(t0, Step(st, s)) && Step(st, s).start <= s.time
  {
    if s.window != st.last && Named(st.last) {
      var row := SaveSession(st.last.app, st.last.title, st.start, s.time);
      var saved := st.saved + [row];
      assert Step(st, s).saved == saved;
      assert forall i :: 0 <= i < |st.saved| ==> saved[i] == st.saved[i];
    }
  }

  /** Every sampled window has a name: the monitor never loses track of the foreground. */
  predicate AllNamed(samples: seq<Sample>) {
    forall i :: 0 <= i < |samples| ==> Named(samples[i].window)
  }

  /** Consecutive saved sessions are of different windows, and each ends where the next begins. */
  predicate Contiguous(st: MonitorState) {
    && (forall i :: 0 <= i < |st.saved| - 1 ==> st.saved[i].end == st.saved[i + 1].start)
    && (forall i :: 0 <= i < |st.saved| - 1 ==>
          (st.saved[i].app, st.saved[i].title) != (st.saved[i + 1].app, st.saved[i + 1].title))
    && (st.saved != [] ==> st.saved[|st.saved| - 1].end == st.start)
    && (st.saved != [] ==> st.last != Active(st.saved[|st.saved| - 1].app, st.saved[|st.saved| - 1].title))
  }

  /**
    When every sample shows a named window, the saved rows tile the time
    line: each session starts exactly where the previous one ended, and two
    consecutive rows never repeat the same `(app, title)`.
   */
  lemma {:induction false} RunContiguous(t0: int, samples: seq<Sample>)
    requires AllNamed(samples)
    ensures Contiguous(Run(t0, samples))
    ensures samples != [] ==> Named(Run(t0, samples).last)
    decreases |samples|
  {
    if samples != [] {
      var front := samples[..|samples| - 1];
      assert AllNamed(front);
      RunContiguous(t0, front);
    }
  }

  /** Every saved row is of a window that some sample showed. */
  lemma {:induction false} SavedWindowsSampled(t0: int, samples: seq<Sample>)
    ensures forall i :: 0 <= i < |Run(t0, samples).saved| ==>
      exists k :: 0 <= k < |samples| && samples[k].window == Active(Run(t0, samples).saved[i].app, Run(t0, samples).saved[i].title)
    ensures Run(t0, samples).last != NoWindow ==> exists k :: 0 <= k < |samples| && samples[k].window == Run(t0, samples).last
    decreases |samples|
  {
    if samples != [] {
      var front := samples[..|samples| - 1];
      SavedWindowsSampled(t0, front);
      var before, after := Run(t0, front), Run(t0, samples);
      forall i | 0 <= i < |after.saved|
        ensures exists k :: 0 <= k < |samples| && samples[k].window == Active(after.saved[i].app, after.saved[i].title)
      {
        if i < |before.saved| {
          assert after.saved[i] == before.saved[i];
          var k :| 0 <= k < |front| && front[k].window == Active(before.saved[i].app, before.saved[i].title);
          assert samples[k] == front[k];
        } else {
          var k :| 0 <= k < |front| && front[k].window == before.last;
          assert samples[k] == front[k];
        }
      }
      if after.last != NoWindow && after.last == before.last {
        var k :| 0 <= k < |front| && front[k].window == before.last;
        assert samples[k] == front[k];
      }
    } else {
      assert Run(t0, samples).saved == [];
    }
  }

}
