/** Runs of the metric runner in which a crash leaves a trace. */
module MetricCrash {
  import opened Common
  import opened MetricStore
  import opened MetricRuns
  import opened MetricChart
  import opened MetricScopes
  import opened MetricReplay
  import opened MetricRetry
  import opened MetricRestart
  import opened ParsedJson
  import B = BoundaryState
  import G = IngestGaps

  lemma Continues(e: Engine, run: seq<World>, steps: seq<G.Step>, s: G.Step)
    requires IsRun(e, run, steps) && Enabled(e, run[|steps|], s)
    ensures IsRun(e, run + [Next(e, run[|steps|], s)], steps + [s])
  {
    var next := Next(e, run[|steps|], s);
    var more, all := run + [next], steps + [s];
    forall i | 0 <= i < |all| ensures Follows(e, more[i], all[i], more[i + 1]) {
      if i < |steps| { assert Follows(e, run[i], steps[i], run[i + 1]); }
    }
  }

  // ---------------------------------------------------------------- a crash before the commit

  /** For every engine: the worker dies after its first frame is stored and before it is committed;
      the next run opens a gap, evaluates the frame with it, and stores another event cursor than
      a run without the crash. */
  lemma CrashBeforeCommitIsHeard(e: Engine, since: nat) returns (run: seq<World>, steps: seq<G.Step>)
    requires Lawful(e) && G.NeverLost(e.feed)
    ensures IsRun(e, run, steps) && steps == [G.Arrive, G.Crash, G.Restart(since), G.Materialized]
    ensures !run[3].committed && G.OpenGap(run[3].line.gaps) == Some(B.Gap(since, G.RESTARTED))
    ensures !SpeaksAlike(e, run[4]) && !Agrees(e, run[4])
  {
    run, steps := CrashBeforeCommit(e, since);
    RunKeepsInv(e, run, steps, 3);
    StraightHasNoRow(e, 0);
    run, steps := ThenHeard(e, run, steps);
    assert steps == [G.Arrive, G.Crash, G.Restart(since), G.Materialized];
  }

  lemma ThenHeard(e: Engine, before: seq<World>, steps: seq<G.Step>) returns (run: seq<World>, all: seq<G.Step>)
    requires Lawful(e) && IsRun(e, before, steps) && Inv(e, before[|steps|])
    requires Enabled(e, before[|steps|], G.Materialized) && OtherGap(e, before[|steps|], G.Materialized)
    ensures IsRun(e, run, all) && all == steps + [G.Materialized] && run[..|before|] == before
    ensures !SpeaksAlike(e, run[|all|]) && !Agrees(e, run[|all|])
  {
    var w := before[|steps|];
    OtherGapShows(e, w);
    AgreesSpeaksAlike(e, Next(e, w, G.Materialized));
    Continues(e, before, steps, G.Materialized);
    run, all := before + [Next(e, w, G.Materialized)], steps + [G.Materialized];
  }

  lemma CrashBeforeCommit(e: Engine, since: nat) returns (run: seq<World>, steps: seq<G.Step>)
    requires G.NeverLost(e.feed)
    ensures IsRun(e, run, steps) && steps == [G.Arrive, G.Crash, G.Restart(since)]
    ensures run[3].line == G.Line([G.GapRow(since, None, G.RESTARTED)], Some(0), true, false, 0, true, false, false, 0)
    ensures !run[3].committed
  {
    assert e.feed.losses(0) == [];
    var a := Next(e, START, G.Arrive);
    var b := Next(e, a, G.Crash);
    assert b.line.gaps == [] && G.OpenAt(b.line.gaps).None?;
    var c := Next(e, b, G.Restart(since));
    run, steps := [START, a, b, c], [G.Arrive, G.Crash, G.Restart(since)];
    assert Follows(e, run[0], steps[0], run[1]) && Follows(e, run[1], steps[1], run[2]) && Follows(e, run[2], steps[2], run[3]);
  }

  // ---------------------------------------------------------------- one engine

  const CHART := Scope("session", "s")

  /** Nothing changes but the gap. */
  function CursorWith(gap: Option<B.Gap>): B.Boundary {
    B.Boundary(1, [Some("s"), None, None, None, None], None, gap, None, [], [])
  }

  function Status(gap: Option<B.Gap>): string { if gap.Some? then "OFFLINE" else "LIVE" }

  /** A gap that opens or closes is announced. */
  function Quality(k: nat, previous: Option<B.Boundary>, gap: Option<B.Gap>): seq<StreamRow> {
    if previous.Some? && previous.value.sourceGap != gap then [StreamRow(seq(k, i => 'q'), Status(gap))] else []
  }

  /** A frame every six seconds, from a source that is never lost. */
  function GapEngine(): Engine {
    Engine(1, k => 6_000_000 * k, k => None, k => "c", k => k + 1, key => false,
           G.Feed(k => [], k => 6_000_000 * k),
           (k: nat, p: Option<B.Boundary>, t: Tables<Json>, g: seq<G.GapRow>) =>
             Evaluation(CursorWith(G.OpenGap(g)), [Reading(CHART, Status(G.OpenGap(g)), Status(G.OpenGap(g)))], "h", Quality(k, p, G.OpenGap(g))))
  }

  ghost predicate GapFacts(e: Engine, k: nat, p: Option<B.Boundary>, t: Tables<Json>, g: seq<G.GapRow>) {
    var w, gap := WriteOf(e, k, p, t, g), G.OpenGap(g);
    && Sound(w) && |w.candidates| == 1 && w.candidates[0].scope == CHART && w.events == Quality(k, p, gap)
    && e.evaluate(k, p, t, g).cursor == CursorWith(gap)
    && PointOf(w, w.candidates[0]) == PointAt(k, p, gap)
  }

  function PointAt(k: nat, previous: Option<B.Boundary>, gap: Option<B.Gap>): Sample {
    Sample(6_000_000 * k, "c", 1, Status(gap), CHART in EventScopes(previous, CursorWith(gap)))
  }

  ghost predicate IsGapEngine(e: Engine) {
    Lawful(e) && G.NeverLost(e.feed) && e.version == 1 && forall k: nat, p, t, g :: GapFacts(e, k, p, t, g)
  }

  lemma GapFactsHold(k: nat, p: Option<B.Boundary>, t: Tables<Json>, g: seq<G.GapRow>)
    ensures GapFacts(GapEngine(), k, p, t, g)
  {
    assert |WriteOf(GapEngine(), k, p, t, g).candidates| == 1;
  }

  lemma GapEngineIsLawful()
    ensures IsGapEngine(GapEngine())
  {
    var e := GapEngine();
    forall k: nat, p, t, g ensures GapFacts(e, k, p, t, g) {
      GapFactsHold(k, p, t, g);
    }
    forall k: nat ensures LawfulAt(e, k) {
      forall p, t, g ensures Sound(WriteOf(e, k, p, t, g)) {
        assert GapFacts(e, k, p, t, g);
      }
    }
    assert forall j: nat, k: nat :: j < k ==> RankLess(FrameRank(e, j), FrameRank(e, k));
  }

  // ---------------------------------------------------------------- what a run of it shows

  datatype View = View(line: G.Line, committed: bool, prior: Option<B.Boundary>, rows: map<int, Sample>, stream: seq<StreamRow>)

  function ViewOf(w: World): View {
    View(w.line, w.committed, PreviousCursor(w, 1), RowsOf(w.tables.samples, CHART), w.tables.stream)
  }

  ghost predicate Seen(e: Engine, w: World, v: View) { Inv(e, w) && ViewOf(w) == v }

  function NextView(feed: G.Feed, v: View, s: G.Step): View
    requires G.LineEnabled(feed, v.line, s)
  {
    var line, gap := G.LineNext(feed, v.line, s), G.OpenGap(v.line.gaps);
    match s
    case Materialized =>
      var rows := PutSample(v.rows, PointAt(v.line.done, v.prior, gap));
      if v.committed then v.(line := line, rows := rows)
      else View(line, true, Some(CursorWith(gap)), rows, AppendEvents(v.stream, Quality(v.line.done, v.prior, gap)))
    case MarkProcessed => v.(line := line, committed := false)
    case _ => v.(line := line)
  }

  lemma PutsPoint(e: Engine, w: World)
    requires IsGapEngine(e)
    ensures RowsOf(Written(w.tables, NextWrite(e, w)).samples, CHART)
         == PutSample(RowsOf(w.tables.samples, CHART), PointAt(w.line.done, PreviousCursor(w, 1), G.OpenGap(w.line.gaps)))
  {
    var write := NextWrite(e, w);
    assert GapFacts(e, w.line.done, PreviousCursor(w, 1), w.tables, w.line.gaps);
    PutsCharts(w.tables, write);
    CandidateAt(write.candidates, 0);
    WriteEffect(w.tables, write, write.candidates, CHART);
  }

  lemma FirstView(e: Engine, w: World, v: View)
    requires IsGapEngine(e) && Seen(e, w, v) && !w.committed && Enabled(e, w, G.Materialized)
    ensures Seen(e, Next(e, w, G.Materialized), NextView(e.feed, v, G.Materialized))
  {
    var write := NextWrite(e, w);
    assert GapFacts(e, w.line.done, PreviousCursor(w, 1), w.tables, w.line.gaps);
    PutsPoint(e, w);
    SoundWrite(w.tables, write);
    StateIsNew(e, w, write);
    FirstWrite(e, w);
  }

  lemma RetryView(e: Engine, w: World, v: View)
    requires IsGapEngine(e) && Seen(e, w, v) && w.committed && Enabled(e, w, G.Materialized)
    ensures Seen(e, Next(e, w, G.Materialized), NextView(e.feed, v, G.Materialized))
  {
    var next := Next(e, w, G.Materialized);
    PutsPoint(e, w);
    RetryIsCoreNoOp(e, w);
    StepKeepsInv(e, w, G.Materialized);
    CursorIs(e, w);
    CursorIs(e, next);
    assert next.tables.stream == Core(next.tables).stream == Core(w.tables).stream;
  }

  lemma QuietView(e: Engine, w: World, v: View, s: G.Step)
    requires IsGapEngine(e) && Seen(e, w, v) && !s.Materialized? && Enabled(e, w, s)
    ensures Seen(e, Next(e, w, s), NextView(e.feed, v, s))
  {
    StepKeepsInv(e, w, s);
    OthersCountAlike(e, w, s);
    CursorIs(e, w);
    CursorIs(e, Next(e, w, s));
  }

  /** Where a run has come to; `calm`: no frame was evaluated again, and none with a gap row. */
  ghost predicate At(e: Engine, run: seq<World>, steps: seq<G.Step>, v: View, calm: bool) {
    IsRun(e, run, steps) && Seen(e, run[|steps|], v) && (calm ==> Agrees(e, run[|steps|]))
  }

  predicate IsCalm(v: View, s: G.Step) { s.Materialized? ==> !v.committed && v.line.gaps == [] }

  /** A run goes on by a step. */
  lemma Then(e: Engine, run: seq<World>, steps: seq<G.Step>, v: View, s: G.Step, calm: bool) returns (more: seq<World>)
    requires IsGapEngine(e) && At(e, run, steps, v, calm) && G.LineEnabled(e.feed, v.line, s)
    ensures At(e, more, steps + [s], NextView(e.feed, v, s), calm && IsCalm(v, s)) && more[..|run|] == run
  {
    var w := run[|steps|];
    var next := Next(e, w, s);
    Continues(e, run, steps, s);
    more := run + [next];
    if !s.Materialized? { QuietView(e, w, v, s); } else if w.committed { RetryView(e, w, v); } else { FirstView(e, w, v); }
    if calm && IsCalm(v, s) { StaysWith(e, w, s); }
  }

  lemma StaysWith(e: Engine, w: World, s: G.Step)
    requires IsGapEngine(e) && Inv(e, w) && Enabled(e, w, s) && Agrees(e, w)
    requires s.Materialized? ==> !w.committed && w.line.gaps == []
    ensures Agrees(e, Next(e, w, s))
  {
    if s.Materialized? {
      StraightHasNoRow(e, w.line.done);
      GapsShow(e, w);
    }
    StepDepartsExactly(e, w, s);
  }

  lemma Starts(e: Engine)
    ensures At(e, [START], [], View(G.FIRST_LINE, false, None, map[], []), true)
  {
  }

  const LIVE_POINT := Sample(0, "c", 1, "LIVE", true)
  const OFFLINE_POINT := Sample(6_000_000, "c", 1, "OFFLINE", true)

  lemma FirstPoint()
    ensures PointAt(0, None, None) == LIVE_POINT && PutSample(map[], LIVE_POINT) == map[0 := LIVE_POINT]
  {
    var none: map<int, Sample> := map[];
    assert Previous(none, 0) == None;
    assert SessionScope(CursorWith(None)) == CHART;
  }

  lemma PreviousOfOne()
    ensures Previous(map[0 := LIVE_POINT], 6) == Some(LIVE_POINT)
  {
    var one := map[0 := LIVE_POINT];
    var at := MaxBelow(one.Keys, 6);
    assert 0 in one.Keys;
    assert at.Some? ==> at.value in one.Keys;
  }

  /** The second frame's point is shown already and left out; with the gap it is forced. */
  lemma SecondPoint(gap: B.Gap)
    ensures PutSample(map[0 := LIVE_POINT], PointAt(1, Some(CursorWith(None)), None)) == map[0 := LIVE_POINT]
    ensures PointAt(1, Some(CursorWith(None)), Some(gap)) == OFFLINE_POINT
    ensures PutSample(map[0 := LIVE_POINT], OFFLINE_POINT) == map[0 := LIVE_POINT, 6 := OFFLINE_POINT]
  {
    PreviousOfOne();
    GapForcesSession(CursorWith(None), Some(gap));
    assert SessionScope(CursorWith(None)) == CHART;
    assert "LIVE"[0] != "OFFLINE"[0];
  }

  /** Both first frames are stored, the first one evaluated and marked. */
  function SecondArrived(): View {
    View(G.Line([], None, true, false, 0, true, true, false, 1), false, Some(CursorWith(None)), map[0 := LIVE_POINT], [])
  }

  predicate Able(feed: G.Feed, v: View, steps: seq<G.Step>)
    decreases |steps|
  {
    steps == [] || (G.LineEnabled(feed, v.line, steps[0]) && Able(feed, NextView(feed, v, steps[0]), steps[1..]))
  }

  function After(feed: G.Feed, v: View, steps: seq<G.Step>): View
    requires Able(feed, v, steps)
    decreases |steps|
  {
    if steps == [] then v else After(feed, NextView(feed, v, steps[0]), steps[1..])
  }

  predicate Calm(feed: G.Feed, v: View, steps: seq<G.Step>)
    requires Able(feed, v, steps)
    decreases |steps|
  {
    steps == [] || (IsCalm(v, steps[0]) && Calm(feed, NextView(feed, v, steps[0]), steps[1..]))
  }

  /** A run goes on by the steps. */
  lemma {:induction false} Play(e: Engine, run: seq<World>, done: seq<G.Step>, v: View, steps: seq<G.Step>, calm: bool)
    returns (more: seq<World>)
    requires IsGapEngine(e) && At(e, run, done, v, calm) && Able(e.feed, v, steps)
    ensures At(e, more, done + steps, After(e.feed, v, steps), calm && Calm(e.feed, v, steps)) && |more| >= |run| && more[..|run|] == run
    decreases |steps|
  {
    if steps == [] {
      assert done + steps == done;
      more := run;
    } else {
      var next := Then(e, run, done, v, steps[0], calm);
      more := Play(e, next, done + [steps[0]], NextView(e.feed, v, steps[0]), steps[1..], calm && IsCalm(v, steps[0]));
      assert done + [steps[0]] + steps[1..] == done + steps;
      assert more[..|run|] == more[..|next|][..|run|];
    }
  }

  const TO_SECOND := [G.Arrive, G.Materialized, G.MarkProcessed, G.Arrive]

  lemma FirstFrameView(feed: G.Feed)
    requires G.NeverLost(feed)
    ensures var v := View(G.FIRST_LINE, false, None, map[], []);
            Able(feed, v, TO_SECOND) && Calm(feed, v, TO_SECOND) && After(feed, v, TO_SECOND) == SecondArrived()
  {
    FirstPoint();
    assert feed.losses(0) == [] && feed.losses(1) == [];
    var a, b, c := TO_SECOND[1..], TO_SECOND[2..], TO_SECOND[3..];
    assert a[1..] == b && b[1..] == c && c[1..] == [];
  }

  lemma ToSecond(e: Engine) returns (run: seq<World>)
    requires IsGapEngine(e)
    ensures At(e, run, TO_SECOND, SecondArrived(), true)
  {
    Starts(e);
    FirstFrameView(e.feed);
    run := Play(e, [START], [], View(G.FIRST_LINE, false, None, map[], []), TO_SECOND, true);
    assert [] + TO_SECOND == TO_SECOND;
  }

  // ---------------------------------------------------------------- a crash after the commit

  const RESTART: G.Step := G.Restart(6_000_000)
  const DIES: seq<G.Step> := [G.Materialized, G.Crash, RESTART]
  const THE_GAP := G.GapRow(6_000_000, None, G.RESTARTED)

  /** The second frame is committed, and another run of the worker is to evaluate it again. */
  function Restarted(): View {
    View(G.Line([THE_GAP], Some(0), true, false, 0, true, false, false, 1), true, Some(CursorWith(None)), map[0 := LIVE_POINT], [])
  }

  /** One step, then the rest. */
  lemma ThenAfter(feed: G.Feed, v: View, s: G.Step, rest: seq<G.Step>)
    requires G.LineEnabled(feed, v.line, s) && Able(feed, NextView(feed, v, s), rest)
    ensures Able(feed, v, [s] + rest) && After(feed, v, [s] + rest) == After(feed, NextView(feed, v, s), rest)
    ensures Calm(feed, v, [s] + rest) <==> IsCalm(v, s) && Calm(feed, NextView(feed, v, s), rest)
  {
    assert ([s] + rest)[1..] == rest;
  }

  lemma DiesView(feed: G.Feed)
    ensures var v := SecondArrived();
            Able(feed, v, DIES) && Calm(feed, v, DIES) && After(feed, v, DIES) == Restarted()
  {
    var v := SecondArrived();
    var a := v.(line := v.line.(ran := true), committed := true);
    assert NextView(feed, v, G.Materialized) == a by { SecondPoint(B.Gap(0, "")); }
    var b := a.(line := a.line.(alive := false, orphan := true, live := false, ran := false));
    assert NextView(feed, a, G.Crash) == b;
    assert NextView(feed, b, RESTART) == Restarted();
    ThenAfter(feed, b, RESTART, []);
    ThenAfter(feed, a, G.Crash, [RESTART] + []);
    ThenAfter(feed, v, G.Materialized, [G.Crash] + ([RESTART] + []));
    assert [G.Materialized] + ([G.Crash] + ([RESTART] + [])) == DIES;
  }

  lemma RetriedView(feed: G.Feed)
    ensures G.LineEnabled(feed, Restarted().line, G.Materialized)
    ensures NextView(feed, Restarted(), G.Materialized).rows == map[0 := LIVE_POINT, 6 := OFFLINE_POINT]
  {
    SecondPoint(B.Gap(6_000_000, G.RESTARTED));
    assert Restarted().line.gaps[..0] == [];
    assert G.OpenGap(Restarted().line.gaps) == Some(B.Gap(6_000_000, G.RESTARTED));
  }

  lemma MovedOn(e: Engine, w: World, next: World)
    requires Agrees(e, w) && Counted(next) == Counted(w) && RowsOf(next.tables.samples, CHART) != RowsOf(w.tables.samples, CHART)
    ensures !Agrees(e, next)
  {
  }

  /** The second frame's point is on the chart already and is left out; the process dies before
      the frame is marked; the restart opens a gap; the retry forces a point that says OFFLINE,
      which the run without the crash never has, while the current row goes on to say LIVE. */
  lemma CrashLeavesATrace() returns (run: seq<World>, steps: seq<G.Step>)
    ensures IsGapEngine(GapEngine()) && IsRun(GapEngine(), run, steps)
    ensures steps == TO_SECOND + DIES + [G.Materialized]
    ensures run[7].committed && Agrees(GapEngine(), run[7]) && !Agrees(GapEngine(), run[8])
    ensures Core(run[8].tables) == Core(run[7].tables)
    ensures RowsOf(run[7].tables.samples, CHART) == map[0 := LIVE_POINT]
    ensures RowsOf(run[8].tables.samples, CHART) == map[0 := LIVE_POINT, 6 := OFFLINE_POINT]
  {
    GapEngineIsLawful();
    run, steps := TraceOf(GapEngine());
  }

  lemma TraceOf(e: Engine) returns (run: seq<World>, steps: seq<G.Step>)
    requires IsGapEngine(e)
    ensures IsRun(e, run, steps) && steps == TO_SECOND + DIES + [G.Materialized]
    ensures run[7].committed && Agrees(e, run[7]) && !Agrees(e, run[8])
    ensures Core(run[8].tables) == Core(run[7].tables)
    ensures RowsOf(run[7].tables.samples, CHART) == map[0 := LIVE_POINT]
    ensures RowsOf(run[8].tables.samples, CHART) == map[0 := LIVE_POINT, 6 := OFFLINE_POINT]
  {
    var before := ToSecond(e);
    DiesView(e.feed);
    before := Play(e, before, TO_SECOND, SecondArrived(), DIES, true);
    RetriedView(e.feed);
    run := Then(e, before, TO_SECOND + DIES, Restarted(), G.Materialized, true);
    steps := TO_SECOND + DIES + [G.Materialized];
    assert run[7] == run[..|before|][7] == before[7];
    RetryIsNoOp(e, run, steps, 7);
    OnlyOfSix(LIVE_POINT, OFFLINE_POINT);
    assert Follows(e, run[7], steps[7], run[8]);
    MovedOn(e, run[7], run[8]);
  }

  lemma OnlyOfSix(a: Sample, b: Sample)
    ensures map[0 := a, 6 := b] != map[0 := a]
  {
    assert 6 in map[0 := a, 6 := b];
  }

  // ---------------------------------------------------------------- announcements of a restart

  const GONE := StreamRow("q", "OFFLINE")
  const BACK := StreamRow("qq", "LIVE")

  lemma {:induction false} StraightIsSilent(e: Engine, n: nat)
    requires IsGapEngine(e)
    ensures Straight(e, n).tables.stream == [] && PreviousCursor(Straight(e, n), 1) in {None, Some(CursorWith(None))}
  {
    if n > 0 {
      StraightIsSilent(e, n - 1);
      var v := Straight(e, n - 1);
      var r := ReadyAt(e, n - 1);
      StraightHolds(e, n - 1);
      ReadyHolds(e, v);
      StraightHasNoRow(e, n - 1);
      FirstView(e, r, ViewOf(r));
      var next := Next(e, r, G.Materialized);
      QuietView(e, next, ViewOf(next), G.MarkProcessed);
      NextStraight(e, n - 1);
    }
  }

  /** As left by the crash and the restart, and when the third frame has come in. */
  function Reopened(): View { Restarted().(committed := false) }

  function ThirdArrived(rows: map<int, Sample>): View {
    View(G.Line([THE_GAP.(end := Some(12_000_000))], None, true, false, 0, true, true, false, 2), false,
         Some(CursorWith(Some(B.Gap(6_000_000, G.RESTARTED)))), rows, [GONE])
  }

  lemma ReopenedView(feed: G.Feed)
    ensures var v := SecondArrived();
            Able(feed, v, [G.Crash, RESTART]) && After(feed, v, [G.Crash, RESTART]) == Reopened()
  {
    var v := SecondArrived();
    var b := v.(line := v.line.(alive := false, orphan := true, live := false));
    assert NextView(feed, v, G.Crash) == b && NextView(feed, b, RESTART) == Reopened();
    ThenAfter(feed, b, RESTART, []);
    ThenAfter(feed, v, G.Crash, [RESTART] + []);
    assert [G.Crash] + ([RESTART] + []) == [G.Crash, RESTART];
  }

  lemma GapIsOpen()
    ensures G.OpenGap([THE_GAP]) == Some(B.Gap(6_000_000, G.RESTARTED))
    ensures G.OpenGap([THE_GAP.(end := Some(12_000_000))]) == None
  {
    assert [THE_GAP][..0] == [] && [THE_GAP.(end := Some(12_000_000))][..0] == [];
  }

  lemma AppendOne(stream: seq<StreamRow>, row: StreamRow)
    requires !HasKey(stream, row.eventKey)
    ensures AppendEvents(stream, [row]) == stream + [row]
  {
    assert [row][..0] == [];
  }

  lemma ThirdView(feed: G.Feed)
    requires G.NeverLost(feed) && feed.connected(2) == 12_000_000
    ensures var v, steps := Reopened(), [G.Materialized, G.MarkProcessed, G.Arrive];
            var rows := PutSample(v.rows, PointAt(1, v.prior, Some(B.Gap(6_000_000, G.RESTARTED))));
            Able(feed, v, steps) && After(feed, v, steps) == ThirdArrived(rows)
  {
    assert feed.losses(2) == [];
    GapIsOpen();
    AppendOne([], GONE);
    var v, steps := Reopened(), [G.Materialized, G.MarkProcessed, G.Arrive];
    var rows := PutSample(v.rows, PointAt(1, v.prior, Some(B.Gap(6_000_000, G.RESTARTED))));
    assert seq(1, i => 'q') == "q";
    var a := View(v.line.(ran := true), true, ThirdArrived(rows).prior, rows, [GONE]);
    assert NextView(feed, v, G.Materialized) == a;
    var b := a.(line := a.line.(arrived := false, ran := false, done := 2), committed := false);
    assert NextView(feed, a, G.MarkProcessed) == b && NextView(feed, b, G.Arrive) == ThirdArrived(rows);
    ThenAfter(feed, b, G.Arrive, []);
    ThenAfter(feed, a, G.MarkProcessed, [G.Arrive] + []);
    ThenAfter(feed, v, G.Materialized, [G.MarkProcessed] + ([G.Arrive] + []));
    assert [G.Materialized] + ([G.MarkProcessed] + ([G.Arrive] + [])) == steps;
  }

  lemma BackView(feed: G.Feed, rows: map<int, Sample>)
    ensures G.LineEnabled(feed, ThirdArrived(rows).line, G.Materialized)
    ensures NextView(feed, ThirdArrived(rows), G.Materialized).stream == [GONE, BACK]
  {
    GapIsOpen();
    assert seq(2, i => 'q') == "qq" && |"q"| != |"qq"|;
    AppendOne([GONE], BACK);
  }

  lemma WithoutOf(e: Engine) returns (run: seq<World>)
    requires IsGapEngine(e) && e.feed.connected(2) == 12_000_000
    ensures IsRun(e, run, TO_SECOND + [G.Crash, RESTART] + [G.Materialized, G.MarkProcessed, G.Arrive] + [G.Materialized])
    ensures run[10].tables.stream == [GONE, BACK] && Counted(run[10]) == 3
  {
    run := ToSecond(e);
    ReopenedView(e.feed);
    run := Play(e, run, TO_SECOND, SecondArrived(), [G.Crash, RESTART], false);
    ThirdView(e.feed);
    run := Play(e, run, TO_SECOND + [G.Crash, RESTART], Reopened(), [G.Materialized, G.MarkProcessed, G.Arrive], false);
    var v := Reopened();
    var rows := PutSample(v.rows, PointAt(1, v.prior, Some(B.Gap(6_000_000, G.RESTARTED))));
    BackView(e.feed, rows);
    run := Then(e, run, TO_SECOND + [G.Crash, RESTART] + [G.Materialized, G.MarkProcessed, G.Arrive], ThirdArrived(rows), G.Materialized, false);
  }

  /** The process dies after the second frame is stored and before it is committed. The outbox ends
      with two announcements, of a source that goes and comes back, which a run without the crash
      does not make. */
  lemma RestartIsAnnounced() returns (run: seq<World>, steps: seq<G.Step>)
    ensures IsGapEngine(GapEngine()) && IsRun(GapEngine(), run, steps)
    ensures steps == TO_SECOND + [G.Crash, RESTART] + [G.Materialized, G.MarkProcessed, G.Arrive] + [G.Materialized]
    ensures Counted(run[10]) == 3 && run[10].tables.stream == [GONE, BACK]
    ensures Straight(GapEngine(), 3).tables.stream == []
  {
    GapEngineIsLawful();
    steps := TO_SECOND + [G.Crash, RESTART] + [G.Materialized, G.MarkProcessed, G.Arrive] + [G.Materialized];
    run := WithoutOf(GapEngine());
    StraightIsSilent(GapEngine(), 3);
  }
}
