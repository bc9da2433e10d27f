/** The ingest worker of one session and the gap rows it leaves: lost connections, restarts, and
    which gap a frame's evaluation finds open. */
module IngestGaps {
  import opened Common
  import B = BoundaryState

  /** A row of `ingest_gaps`; `end` is absent while the gap is open. */
  datatype GapRow = GapRow(start: nat, end: Option<nat>, reason: string)

  predicate IsOpen(gaps: seq<GapRow>, i: int) { 0 <= i < |gaps| && gaps[i].end.None? }

  /** The open row with the greatest start, the newest among equals. */
  function OpenAt(gaps: seq<GapRow>): (r: Option<nat>)
    ensures r.Some? ==> IsOpen(gaps, r.value)
  {
    if gaps == [] then None
    else
      var n, best := |gaps| - 1, OpenAt(gaps[..|gaps| - 1]);
      if gaps[n].end.Some? || (best.Some? && gaps[best.value].start > gaps[n].start) then best else Some(n)
  }

  /** What `load_heat_metric_input` finds open. */
  function OpenGap(gaps: seq<GapRow>): Option<B.Gap> {
    var at := OpenAt(gaps);
    if at.Some? then Some(B.Gap(gaps[at.value].start, gaps[at.value].reason)) else None
  }

  lemma {:induction false} OpenAtIsNewest(gaps: seq<GapRow>)
    ensures OpenAt(gaps).None? ==> forall i :: !IsOpen(gaps, i)
    ensures OpenAt(gaps).Some? ==> forall i :: IsOpen(gaps, i) ==>
      var at := OpenAt(gaps).value;
      gaps[i].start < gaps[at].start || (gaps[i].start == gaps[at].start && i <= at)
  {
    if gaps != [] {
      var init := gaps[..|gaps| - 1];
      OpenAtIsNewest(init);
      assert forall i :: IsOpen(init, i) <==> IsOpen(gaps, i) && i < |init|;
    }
  }

  lemma OpenGapNone(gaps: seq<GapRow>)
    ensures OpenGap(gaps).None? <==> forall i :: !IsOpen(gaps, i)
  {
    OpenAtIsNewest(gaps);
  }

  // ---------------------------------------------------------------- the worker

  /** The source, as far as the worker can see it: the connections lost, or not made, just before
      each frame, and when the frame's socket was live. */
  datatype Feed = Feed(losses: nat -> seq<(nat, string)>, connected: nat -> nat)

  /** `pending`: the gap row the worker means to close; `orphan`: it died without finishing its
      run; `lost` of the losses before the next frame are recorded; `arrived`: that frame is stored
      and decoded; `live`: by this run; `ran`: evaluated by this run; `done` frames are marked. */
  datatype Line = Line(
    gaps: seq<GapRow>,
    pending: Option<nat>,
    alive: bool,
    orphan: bool,
    lost: nat,
    arrived: bool,
    live: bool,
    ran: bool,
    done: nat)

  const FIRST_LINE := Line([], None, true, false, 0, false, false, false, 0)

  /** `Fail`: a replayed frame raises, and the run ends. `Stop`: the supervisor cancels the worker.
      `Restart` gives the last sign of life of the run that died, no later than now. */
  datatype Step = Lose | Arrive | Materialized | MarkProcessed | Fail | Stop(at: nat) | Crash | Restart(since: nat)

  predicate LineEnabled(feed: Feed, l: Line, s: Step) {
    match s
    case Lose => l.alive && !l.arrived && l.lost < |feed.losses(l.done)|
    case Arrive => l.alive && !l.arrived && l.lost == |feed.losses(l.done)|
    case Materialized => l.alive && l.arrived && !l.ran
    case MarkProcessed => l.alive && l.ran
    case Fail => l.alive && l.arrived && !l.live
    case Stop(_) => l.alive
    case Crash => true
    case Restart(_) => !l.alive
  }

  /** `record_gap` */
  function Opened(gaps: seq<GapRow>, start: nat, reason: string): seq<GapRow> { gaps + [GapRow(start, None, reason)] }

  /** `close_gap` */
  function Closed(gaps: seq<GapRow>, pending: Option<nat>, at: nat): seq<GapRow> {
    if pending.Some? && IsOpen(gaps, pending.value) then gaps[pending.value := gaps[pending.value].(end := Some(at))] else gaps
  }

  /** The run is over, and with it what the worker held. */
  function Ended(l: Line): Line { l.(pending := None, alive := false, live := false, ran := false) }

  const RESTARTED := "worker_restart"

  /** `start_run`: the gap that is open is taken over; a run that died opens one. */
  function Recovered(gaps: seq<GapRow>, orphan: bool, since: nat): (r: (seq<GapRow>, Option<nat>))
    ensures orphan || r.0 == gaps
    ensures gaps <= r.0 && r.1 == OpenAt(r.0)
  {
    var at := OpenAt(gaps);
    if at.None? && orphan then
      assert Opened(gaps, since, RESTARTED)[..|gaps|] == gaps;
      (Opened(gaps, since, RESTARTED), Some(|gaps|))
    else (gaps, at)
  }

  function LineNext(feed: Feed, l: Line, s: Step): Line
    requires LineEnabled(feed, l, s)
  {
    match s
    case Lose =>
      var loss := feed.losses(l.done)[l.lost];
      l.(gaps := Opened(l.gaps, loss.0, loss.1), pending := Some(|l.gaps|), lost := l.lost + 1)
    case Arrive =>
      l.(gaps := Closed(l.gaps, l.pending, feed.connected(l.done)), pending := None, arrived := true, live := true)
    case Materialized => l.(ran := true)
    case MarkProcessed => l.(lost := 0, arrived := false, live := false, ran := false, done := l.done + 1)
    case Fail => Ended(l)
    case Stop(at) => Ended(l).(gaps := if l.pending.None? then Opened(l.gaps, at, RESTARTED) else l.gaps)
    case Crash => Ended(l).(orphan := l.orphan || l.alive)
    case Restart(since) =>
      var (gaps, pending) := Recovered(l.gaps, l.orphan, since);
      l.(gaps := gaps, pending := pending, alive := true, orphan := false)
  }

  // ---------------------------------------------------------------- no crash

  predicate Waiting(feed: Feed, l: Line) { l.alive && !l.arrived && !l.ran && !l.live && l.lost <= |feed.losses(l.done)| }

  function LoseAll(feed: Feed, l: Line): (r: Line)
    requires Waiting(feed, l)
    ensures Waiting(feed, r) && r.lost == |feed.losses(l.done)| && r.done == l.done
    decreases |feed.losses(l.done)| - l.lost
  {
    if l.lost == |feed.losses(l.done)| then l else LoseAll(feed, LineNext(feed, l, Lose))
  }

  /** Up to the next frame, without a crash. */
  function Ready(feed: Feed, l: Line): (r: Line)
    requires Waiting(feed, l)
    ensures r.alive && r.arrived && r.live && !r.ran && r.done == l.done && r.pending.None?
  {
    LineNext(feed, LoseAll(feed, l), Arrive)
  }

  lemma {:induction false} LoseAllRows(feed: Feed, l: Line)
    requires Waiting(feed, l)
    ensures var r := LoseAll(feed, l);
            && |r.gaps| == |l.gaps| + |feed.losses(l.done)| - l.lost
            && r.gaps[..|l.gaps|] == l.gaps
            && (forall i :: |l.gaps| <= i < |r.gaps| ==> r.gaps[i].end.None?)
            && r.pending == (if l.lost == |feed.losses(l.done)| then l.pending else Some(|r.gaps| - 1))
    decreases |feed.losses(l.done)| - l.lost
  {
    if l.lost < |feed.losses(l.done)| {
      var next := LineNext(feed, l, Lose);
      LoseAllRows(feed, next);
      assert LoseAll(feed, l).gaps[..|l.gaps|] == LoseAll(feed, next).gaps[..|next.gaps|][..|l.gaps|];
      assert LoseAll(feed, l).gaps[|l.gaps|] == LoseAll(feed, next).gaps[..|next.gaps|][|l.gaps|];
    }
  }

  /** Nothing is open and nothing is to be closed. */
  ghost predicate Clear(l: Line) { l.pending.None? && forall i :: !IsOpen(l.gaps, i) }

  /** Each failed attempt opens a row and only the last one is closed: the next frame finds the
      source without a gap exactly when at most one attempt had failed. */
  lemma ReconnectClosesExactly(feed: Feed, l: Line)
    requires Waiting(feed, l) && l.lost == 0 && Clear(l)
    ensures OpenGap(Ready(feed, l).gaps).None? <==> |feed.losses(l.done)| <= 1
  {
    var all, r, n := LoseAll(feed, l), Ready(feed, l), |l.gaps|;
    LoseAllRows(feed, l);
    OpenGapNone(r.gaps);
    forall i | 0 <= i < n ensures !IsOpen(r.gaps, i) {
      assert all.gaps[i] == all.gaps[..n][i] && !IsOpen(l.gaps, i);
    }
    if |feed.losses(l.done)| > 1 {
      assert IsOpen(all.gaps, n) && IsOpen(r.gaps, n);
    }
  }

  ghost predicate LineFollows(feed: Feed, l: Line, s: Step, m: Line) { LineEnabled(feed, l, s) && m == LineNext(feed, l, s) }

  ghost predicate IsLineRun(feed: Feed, lines: seq<Line>, steps: seq<Step>) {
    |lines| == |steps| + 1 && forall i :: 0 <= i < |steps| ==> LineFollows(feed, lines[i], steps[i], lines[i + 1])
  }

  /** An open row that the worker does not mean to close. */
  predicate Stuck(l: Line, row: nat) { IsOpen(l.gaps, row) && l.pending != Some(row) }

  /** Such a row stays open until the worker is started again, over any number of frames. */
  lemma {:induction false} StuckStaysOpen(feed: Feed, lines: seq<Line>, steps: seq<Step>, row: nat, k: nat)
    requires IsLineRun(feed, lines, steps) && k < |lines| && Stuck(lines[0], row)
    requires forall i :: 0 <= i < k ==> !steps[i].Restart?
    ensures Stuck(lines[k], row) && OpenGap(lines[k].gaps).Some?
  {
    if k > 0 {
      StuckStaysOpen(feed, lines, steps, row, k - 1);
      assert LineFollows(feed, lines[k - 1], steps[k - 1], lines[k]) && !steps[k - 1].Restart?;
    }
    OpenGapNone(lines[k].gaps);
  }

  /** A connection lost at 5 and an attempt that fails at 6: the frame that comes in at 8 finds the
      gap of 5 open, and so does every later one until the worker is started again. */
  lemma SecondFailureStays(feed: Feed, lines: seq<Line>, steps: seq<Step>, k: nat)
    requires feed.losses(0) == [(5, "socket_closed"), (6, "error:OSError")] && feed.connected(0) == 8
    requires IsLineRun(feed, lines, steps) && lines[0] == Ready(feed, FIRST_LINE) && k < |lines|
    requires forall i :: 0 <= i < k ==> !steps[i].Restart?
    ensures lines[0].gaps == [GapRow(5, None, "socket_closed"), GapRow(6, Some(8), "error:OSError")]
    ensures OpenGap(lines[0].gaps) == Some(B.Gap(5, "socket_closed")) && OpenGap(lines[k].gaps).Some?
  {
    var one := LineNext(feed, FIRST_LINE, Lose);
    var two := LineNext(feed, one, Lose);
    assert LoseAll(feed, one) == two && LoseAll(feed, FIRST_LINE) == two;
    var gaps := lines[0].gaps;
    assert one.gaps == [GapRow(5, None, "socket_closed")];
    assert two.gaps == [GapRow(5, None, "socket_closed"), GapRow(6, None, "error:OSError")];
    assert gaps == [GapRow(5, None, "socket_closed"), GapRow(6, Some(8), "error:OSError")];
    assert gaps[..1] == [gaps[0]] && gaps[..1][..0] == [];
    assert OpenAt(gaps[..1]) == Some(0);
    StuckStaysOpen(feed, lines, steps, 0, k);
  }

  // ---------------------------------------------------------------- where the source is never lost

  ghost predicate NeverLost(feed: Feed) { forall k :: feed.losses(k) == [] }

  ghost predicate OnlyOpen(gaps: seq<GapRow>, row: Option<nat>) { forall i :: IsOpen(gaps, i) <==> row.Some? && row.value == i }

  /** At most one row is open: the one to be closed, while the worker is alive. A frame that did
      not come in by this run is evaluated with a row open. */
  ghost predicate OneGap(l: Line) {
    && (l.alive ==> !l.orphan && OnlyOpen(l.gaps, l.pending))
    && (!l.alive ==> OnlyOpen(l.gaps, OpenAt(l.gaps)) && (l.orphan || OpenAt(l.gaps).Some?) && !l.live)
    && (l.live ==> l.arrived && l.pending.None?)
    && (l.alive && l.arrived && !l.live ==> l.pending.Some?)
  }

  lemma OnlyOpenAt(gaps: seq<GapRow>, row: Option<nat>)
    requires OnlyOpen(gaps, row)
    ensures OpenAt(gaps) == row
  {
    OpenAtIsNewest(gaps);
    if row.Some? { assert IsOpen(gaps, row.value); }
    if OpenAt(gaps).Some? { assert IsOpen(gaps, OpenAt(gaps).value); }
  }

  lemma OpensOne(gaps: seq<GapRow>, start: nat, reason: string)
    requires OnlyOpen(gaps, None)
    ensures OnlyOpen(Opened(gaps, start, reason), Some(|gaps|))
  {
    var more := Opened(gaps, start, reason);
    forall i ensures IsOpen(more, i) <==> i == |gaps| {
      if i < |gaps| { assert !IsOpen(gaps, i); }
    }
  }

  lemma ClosesIt(gaps: seq<GapRow>, pending: Option<nat>, at: nat)
    requires OnlyOpen(gaps, pending)
    ensures OnlyOpen(Closed(gaps, pending, at), None)
  {
    forall i ensures !IsOpen(Closed(gaps, pending, at), i) {
      assert IsOpen(gaps, i) <==> pending.Some? && pending.value == i;
    }
  }

  lemma StepKeepsOneGap(feed: Feed, l: Line, s: Step)
    requires NeverLost(feed) && OneGap(l) && LineEnabled(feed, l, s)
    ensures OneGap(LineNext(feed, l, s))
  {
    if l.alive { OnlyOpenAt(l.gaps, l.pending); }
    match s
    case Arrive => ClosesIt(l.gaps, l.pending, feed.connected(l.done));
    case Stop(at) =>
      if l.pending.None? {
        OpensOne(l.gaps, at, RESTARTED);
        OnlyOpenAt(Opened(l.gaps, at, RESTARTED), Some(|l.gaps|));
      }
    case Restart(since) =>
      if OpenAt(l.gaps).None? { OpensOne(l.gaps, since, RESTARTED); }
    case _ =>
  }

  /** With a source that is never lost, a frame finds no open gap exactly when it came in by the
      run that evaluates it. */
  lemma OpenExactlyWhenReplayed(l: Line)
    requires OneGap(l) && l.alive && l.arrived
    ensures OpenGap(l.gaps).None? <==> l.live
  {
    OnlyOpenAt(l.gaps, l.pending);
  }

  /** Without a crash there is never a row at all. */
  lemma FrameKeepsNoRow(feed: Feed, l: Line)
    requires NeverLost(feed) && Waiting(feed, l) && l.gaps == [] && l.pending.None?
    ensures Ready(feed, l).gaps == []
  {
    assert feed.losses(l.done) == [];
  }

  // ---------------------------------------------------------------- the tables

  /** `ingest_gaps` of one session, and whether it has a run without an end. */
  class GapTable {
    var gaps: seq<GapRow>
    var unfinished: bool

    constructor ()
      ensures gaps == [] && !unfinished
    {
      gaps, unfinished := [], false;
    }

    /** Finishes what died, and says which gap the new run is to close. */
    method StartRun(since: nat) returns (recovered: Option<nat>)
      modifies this
      ensures (gaps, recovered) == Recovered(old(gaps), old(unfinished), since) && unfinished
    {
      recovered := OpenAt(gaps);
      if unfinished && recovered.None? {
        recovered := Some(|gaps|);
        gaps := gaps + [GapRow(since, None, RESTARTED)];
      }
      unfinished := true;
    }

    method FinishRun()
      modifies this`unfinished
      ensures !unfinished
    {
      unfinished := false;
    }

    method RecordGap(start: nat, reason: string) returns (id: nat)
      modifies this`gaps
      ensures gaps == Opened(old(gaps), start, reason) && id == |old(gaps)|
    {
      id := |gaps|;
      gaps := gaps + [GapRow(start, None, reason)];
    }

    method CloseGap(id: nat, at: nat)
      modifies this`gaps
      ensures gaps == Closed(old(gaps), Some(id), at)
    {
      if id < |gaps| && gaps[id].end.None? {
        gaps := gaps[id := gaps[id].(end := Some(at))];
      }
    }
  }
}
