/** When a run of the metric runner with crashes and restarts leaves what a run without them
    leaves: the event cursor, the outbox, and every table. */
module MetricRestart {
  import opened Common
  import opened MetricStore
  import opened MetricRuns
  import opened MetricChart
  import opened MetricScopes
  import opened MetricReplay
  import opened MetricRetry
  import opened ParsedJson
  import B = BoundaryState
  import E = MetricEvidence
  import G = IngestGaps

  // ---------------------------------------------------------------- without crashes

  ghost predicate Between(e: Engine, v: World, n: nat) {
    v.line.done == n && v.line.lost == 0 && G.Waiting(e.feed, v.line) && !v.committed
  }

  /** Up to the next frame. */
  function Ready(e: Engine, v: World): World
    requires G.Waiting(e.feed, v.line)
  {
    v.(line := G.Ready(e.feed, v.line))
  }

  function OneFrame(e: Engine, v: World): World
    requires G.Waiting(e.feed, v.line)
  {
    Next(e, Next(e, Ready(e, v), G.Materialized), G.MarkProcessed)
  }

  /** The first `n` frames, each stored, evaluated once and marked, by one worker. */
  function Straight(e: Engine, n: nat): (v: World)
    ensures Between(e, v, n)
  {
    if n == 0 then START else OneFrame(e, Straight(e, n - 1))
  }

  lemma ReadyHolds(e: Engine, v: World)
    requires Inv(e, v) && G.Waiting(e.feed, v.line) && !v.committed
    ensures Inv(e, Ready(e, v)) && PreviousCursor(Ready(e, v), e.version) == PreviousCursor(v, e.version)
  {
  }

  lemma FrameHolds(e: Engine, v: World)
    requires Lawful(e) && Inv(e, v) && G.Waiting(e.feed, v.line) && !v.committed
    ensures Inv(e, OneFrame(e, v))
  {
    ReadyHolds(e, v);
    StepKeepsInv(e, Ready(e, v), G.Materialized);
    StepKeepsInv(e, Next(e, Ready(e, v), G.Materialized), G.MarkProcessed);
  }

  lemma {:induction false} StraightHolds(e: Engine, n: nat)
    requires Lawful(e)
    ensures Inv(e, Straight(e, n))
  {
    if n > 0 {
      StraightHolds(e, n - 1);
      FrameHolds(e, Straight(e, n - 1));
    }
  }

  /** The gap rows a frame finds when no worker dies. */
  function CrashFreeGaps(e: Engine, n: nat): seq<G.GapRow> { Ready(e, Straight(e, n)).line.gaps }

  // ---------------------------------------------------------------- the cursor and the outbox

  /** The event cursor stored, and every announcement in the outbox, as without crashes. */
  ghost predicate SpeaksAlike(e: Engine, w: World) {
    var v := Straight(e, Counted(w));
    w.tables.runner == v.tables.runner && Announced(e, w.tables.stream) == Announced(e, v.tables.stream)
  }

  /** The frame in hand finds the gap open that it would have found. */
  ghost predicate SameGap(e: Engine, w: World) {
    G.OpenGap(w.line.gaps) == G.OpenGap(CrashFreeGaps(e, w.line.done))
  }

  predicate SameSaying(e: Engine, a: Write<Json>, b: Write<Json>) {
    && a.state.Some? && b.state.Some? && a.state.value.cursor == b.state.value.cursor
    && Announced(e, a.events) == Announced(e, b.events)
  }

  ghost predicate SameSayings(e: Engine, a: seq<Write<Json>>, b: seq<Write<Json>>) {
    |a| == |b| && forall i :: 0 <= i < |a| ==> SameSaying(e, a[i], b[i])
  }

  lemma {:induction false} AnnouncedHas(e: Engine, stream: seq<StreamRow>, key: string)
    requires !e.alert(key)
    ensures HasKey(Announced(e, stream), key) <==> HasKey(stream, key)
  {
    if stream != [] {
      var init, last := stream[..|stream| - 1], stream[|stream| - 1];
      AnnouncedHas(e, init, key);
      HasKeySnoc(init, last, key);
      HasKeySnoc(Announced(e, init), last, key);
      assert stream == init + [last];
    }
  }

  lemma HasKeySnoc(init: seq<StreamRow>, last: StreamRow, key: string)
    ensures HasKey(init + [last], key) <==> HasKey(init, key) || last.eventKey == key
  {
    if HasKey(init, key) {
      var i :| 0 <= i < |init| && init[i].eventKey == key;
      assert (init + [last])[i].eventKey == key;
    }
    if last.eventKey == key { assert (init + [last])[|init|].eventKey == key; }
  }

  lemma {:induction false} AnnouncedAppend(e: Engine, stream: seq<StreamRow>, events: seq<StreamRow>)
    ensures Announced(e, AppendEvents(stream, events)) == AppendEvents(Announced(e, stream), Announced(e, events))
  {
    if events != [] {
      var init, last := events[..|events| - 1], events[|events| - 1];
      var before := AppendEvents(stream, init);
      AnnouncedAppend(e, stream, init);
      assert (before + [last])[..|before + [last]| - 1] == before;
      if IsAnnounced(e, last) {
        AnnouncedHas(e, before, last.eventKey);
        var kept := Announced(e, init) + [last];
        assert kept[..|kept| - 1] == Announced(e, init);
      }
    }
  }

  /** Logs that say the same leave the same cursor and the same announcements. */
  lemma {:induction false} SameSayingsRun(e: Engine, a: seq<Write<Json>>, b: seq<Write<Json>>)
    requires Lawful(e) && LogOk(e, a) && LogOk(e, b) && AllSound(a) && AllSound(b) && SameSayings(e, a, b)
    ensures Run(a).runner == Run(b).runner && Announced(e, Run(a).stream) == Announced(e, Run(b).stream)
  {
    RunnerIsLast(e, a);
    RunnerIsLast(e, b);
    if a != [] {
      var n := |a| - 1;
      LogPrefix(e, a, n);
      LogPrefix(e, b, n);
      SameSayingsRun(e, a[..n], b[..n]);
      StreamStep(e, a);
      StreamStep(e, b);
      AnnouncedAppend(e, Run(a[..n]).stream, a[n].events);
      AnnouncedAppend(e, Run(b[..n]).stream, b[n].events);
      EntryFacts(e, a, n);
      EntryFacts(e, b, n);
      assert SameSaying(e, a[n], b[n]);
    }
  }

  /** A frame's first evaluation. */
  lemma FirstWrite(e: Engine, w: World)
    requires Lawful(e) && Inv(e, w) && !w.committed && Enabled(e, w, G.Materialized)
    ensures var next := Next(e, w, G.Materialized);
            && next.log == w.log + [NextWrite(e, w)] && next.tables == Written(w.tables, NextWrite(e, w))
            && Inv(e, next) && Counted(next) == w.line.done + 1 == |w.log| + 1
    ensures PreviousCursor(w, e.version) == CursorOf(w.log, |w.log|)
  {
    StepKeepsInv(e, w, G.Materialized);
    CursorIs(e, w);
  }

  lemma MarkedFrame(e: Engine, v: World)
    requires G.Waiting(e.feed, v.line)
    ensures OneFrame(e, v).log == Next(e, Ready(e, v), G.Materialized).log
    ensures OneFrame(e, v).tables == Next(e, Ready(e, v), G.Materialized).tables
  {
  }

  /** The run without crashes, just before frame `k` is evaluated. */
  lemma ReadyAt(e: Engine, k: nat) returns (r: World)
    requires Lawful(e)
    ensures r == Ready(e, Straight(e, k)) && r.line.done == k && r.line.gaps == CrashFreeGaps(e, k)
    ensures r.tables == Straight(e, k).tables && r.log == Straight(e, k).log && |r.log| == k
    ensures Inv(e, r) && !r.committed && Enabled(e, r, G.Materialized)
    ensures PreviousCursor(r, e.version) == CursorOf(r.log, k)
    ensures Straight(e, k + 1).log == r.log + [NextWrite(e, r)]
    ensures Straight(e, k + 1).tables == Written(r.tables, NextWrite(e, r))
  {
    var v := Straight(e, k);
    StraightHolds(e, k);
    ReadyHolds(e, v);
    r := Ready(e, v);
    MarkedFrame(e, v);
    NextStraight(e, k);
    FirstWrite(e, r);
  }

  lemma NextStraight(e: Engine, k: nat)
    ensures Straight(e, k + 1) == OneFrame(e, Straight(e, k))
  {
  }

  lemma SayingsSpeakAlike(e: Engine, w: World)
    requires Lawful(e) && Inv(e, w) && SameSayings(e, w.log, Straight(e, Counted(w)).log)
    ensures SpeaksAlike(e, w)
  {
    var v := Straight(e, Counted(w));
    StraightHolds(e, Counted(w));
    SameSayingsRun(e, w.log, v.log);
    assert w.tables.runner == Core(w.tables).runner && v.tables.runner == Core(v.tables).runner;
    assert w.tables.stream == Core(w.tables).stream && v.tables.stream == Core(v.tables).stream;
  }

  lemma SameCursorBefore(e: Engine, a: seq<Write<Json>>, b: seq<Write<Json>>)
    requires SameSayings(e, a, b)
    ensures CursorOf(a, |a|) == CursorOf(b, |b|)
  {
    if a != [] { assert SameSaying(e, a[|a| - 1], b[|b| - 1]); }
  }

  lemma WritesSayTheSame(e: Engine, k: nat, p: Option<B.Boundary>, t: Tables<Json>, g: seq<G.GapRow>, u: Tables<Json>, h: seq<G.GapRow>)
    requires Lawful(e) && Steady(e) && G.OpenGap(g) == G.OpenGap(h)
    ensures SameSaying(e, WriteOf(e, k, p, t, g), WriteOf(e, k, p, u, h))
  {
    assert LawfulAt(e, k) && SteadyAt(e, k);
    var x, y := e.evaluate(k, p, t, g).cursor, e.evaluate(k, p, u, h).cursor;
    assert CursorOk(x, g) && CursorOk(y, h) && SameButGap(x, y);
    assert x == x.(sourceGap := None).(sourceGap := x.sourceGap) && y == y.(sourceGap := None).(sourceGap := y.sourceGap);
  }

  lemma FirstSaysTheSame(e: Engine, w: World)
    requires Lawful(e) && Steady(e) && Inv(e, w) && !w.committed && Enabled(e, w, G.Materialized)
    requires SameSayings(e, w.log, Straight(e, w.line.done).log) && SameGap(e, w)
    ensures SameSayings(e, Next(e, w, G.Materialized).log, Straight(e, w.line.done + 1).log)
  {
    var k := w.line.done;
    var r := ReadyAt(e, k);
    FirstWrite(e, w);
    SameCursorBefore(e, w.log, r.log);
    WritesSayTheSame(e, k, PreviousCursor(w, e.version), w.tables, w.line.gaps, r.tables, r.line.gaps);
    SayingsGrow(e, w.log, r.log, NextWrite(e, w), NextWrite(e, r));
  }

  lemma SayingsGrow(e: Engine, a: seq<Write<Json>>, b: seq<Write<Json>>, x: Write<Json>, y: Write<Json>)
    requires SameSayings(e, a, b) && SameSaying(e, x, y)
    ensures SameSayings(e, a + [x], b + [y])
  {
    forall i | 0 <= i < |a| + 1 ensures SameSaying(e, (a + [x])[i], (b + [y])[i]) {
      if i < |a| { assert SameSaying(e, a[i], b[i]); }
    }
  }

  /** A first evaluation that finds another gap. */
  ghost predicate OtherGap(e: Engine, w: World, s: G.Step) { s.Materialized? && !w.committed && !SameGap(e, w) }

  lemma StepSaysTheSame(e: Engine, w: World, s: G.Step)
    requires Lawful(e) && Steady(e) && Inv(e, w) && Enabled(e, w, s) && !OtherGap(e, w, s)
    requires SameSayings(e, w.log, Straight(e, Counted(w)).log)
    ensures SameSayings(e, Next(e, w, s).log, Straight(e, Counted(Next(e, w, s))).log)
  {
    if s.Materialized? && !w.committed {
      FirstSaysTheSame(e, w);
    } else {
      OthersCountAlike(e, w, s);
    }
  }

  lemma OthersCountAlike(e: Engine, w: World, s: G.Step)
    requires Inv(e, w) && Enabled(e, w, s) && !(s.Materialized? && !w.committed)
    ensures Next(e, w, s).log == w.log && Counted(Next(e, w, s)) == Counted(w)
    ensures !s.Materialized? ==> Next(e, w, s).tables == w.tables
  {
  }

  lemma {:induction false} SaysTheSame(e: Engine, run: seq<World>, steps: seq<G.Step>, k: nat)
    requires Lawful(e) && Steady(e) && IsRun(e, run, steps) && k < |run|
    requires forall i :: 0 <= i < k ==> !OtherGap(e, run[i], steps[i])
    ensures SameSayings(e, run[k].log, Straight(e, Counted(run[k])).log)
  {
    if k > 0 {
      SaysTheSame(e, run, steps, k - 1);
      RunKeepsInv(e, run, steps, k - 1);
      assert !OtherGap(e, run[k - 1], steps[k - 1]) && Follows(e, run[k - 1], steps[k - 1], run[k]);
      StepSaysTheSame(e, run[k - 1], steps[k - 1]);
    }
  }

  /** The cursor stored by the last frame names the gap that frame found. */
  lemma StoredGap(e: Engine, w: World, g: seq<G.GapRow>, t: Tables<Json>)
    requires Lawful(e) && Inv(e, w) && w.log != []
    requires w.log[|w.log| - 1] == WriteOf(e, |w.log| - 1, CursorOf(w.log, |w.log| - 1), t, g)
    ensures w.tables.runner.Some?
    ensures B.Deserialize(w.tables.runner.value.value).Some?
    ensures B.Deserialize(w.tables.runner.value.value).value.sourceGap == G.OpenGap(g)
  {
    var n := |w.log| - 1;
    RunnerIsLast(e, w.log);
    assert w.tables.runner == Core(w.tables).runner;
    assert LawfulAt(e, n);
    var cursor := e.evaluate(n, CursorOf(w.log, n), t, g).cursor;
    assert CursorOk(cursor, g);
    B.BoundaryRoundTrip(cursor);
  }

  lemma OtherGapShows(e: Engine, w: World)
    requires Lawful(e) && Inv(e, w) && Enabled(e, w, G.Materialized) && OtherGap(e, w, G.Materialized)
    ensures !SpeaksAlike(e, Next(e, w, G.Materialized))
  {
    var k, next := w.line.done, Next(e, w, G.Materialized);
    var r := ReadyAt(e, k);
    FirstWrite(e, w);
    StraightHolds(e, k + 1);
    LastOf(w.log, NextWrite(e, w));
    LastOf(r.log, NextWrite(e, r));
    StoredGap(e, next, w.line.gaps, w.tables);
    StoredGap(e, Straight(e, k + 1), r.line.gaps, r.tables);
  }

  lemma LastOf(log: seq<Write<Json>>, w: Write<Json>)
    ensures (log + [w])[|log|] == w && CursorOf(log + [w], |log|) == CursorOf(log, |log|)
  {
  }

  /** With any number of crashes and restarts: at every moment the stored event cursor and every
      announcement in the outbox are those of the run without them, exactly when every frame, at
      its first evaluation, finds the gap open that it would have found without them. */
  lemma RestartsGoUnheardExactly(e: Engine, run: seq<World>, steps: seq<G.Step>)
    requires Lawful(e) && Steady(e) && IsRun(e, run, steps)
    ensures (forall i :: 0 <= i < |run| ==> SpeaksAlike(e, run[i])) <==>
            (forall i :: 0 <= i < |steps| ==> !OtherGap(e, run[i], steps[i]))
  {
    if forall i :: 0 <= i < |steps| ==> !OtherGap(e, run[i], steps[i]) {
      forall i | 0 <= i < |run| ensures SpeaksAlike(e, run[i]) {
        SaysTheSame(e, run, steps, i);
        RunKeepsInv(e, run, steps, i);
        SayingsSpeakAlike(e, run[i]);
      }
    }
    if i :| 0 <= i < |steps| && OtherGap(e, run[i], steps[i]) {
      RunKeepsInv(e, run, steps, i);
      assert Follows(e, run[i], steps[i], run[i + 1]);
      OtherGapShows(e, run[i]);
      assert !SpeaksAlike(e, run[i + 1]);
    }
  }

  // ---------------------------------------------------------------- where the source is never lost

  lemma {:induction false} RunKeepsOneGap(e: Engine, run: seq<World>, steps: seq<G.Step>, k: nat)
    requires G.NeverLost(e.feed) && IsRun(e, run, steps) && k < |run|
    ensures G.OneGap(run[k].line)
  {
    if k > 0 {
      RunKeepsOneGap(e, run, steps, k - 1);
      assert Follows(e, run[k - 1], steps[k - 1], run[k]);
      G.StepKeepsOneGap(e.feed, run[k - 1].line, steps[k - 1]);
    }
  }

  ghost predicate HasNoRow(v: World) { v.line.gaps == [] && v.line.pending.None? }

  lemma {:induction false} StraightHasNoRow(e: Engine, n: nat)
    requires G.NeverLost(e.feed)
    ensures HasNoRow(Straight(e, n)) && CrashFreeGaps(e, n) == []
  {
    if n > 0 {
      StraightHasNoRow(e, n - 1);
      FrameHasNoRow(e, Straight(e, n - 1));
      NextStraight(e, n - 1);
    }
    G.FrameKeepsNoRow(e.feed, Straight(e, n).line);
  }

  lemma FrameHasNoRow(e: Engine, v: World)
    requires G.NeverLost(e.feed) && G.Waiting(e.feed, v.line) && HasNoRow(v)
    ensures HasNoRow(OneFrame(e, v))
  {
    G.FrameKeepsNoRow(e.feed, v.line);
  }

  /** A frame evaluated first by another run of the worker than the one it came in by. */
  predicate FirstByAnother(w: World, s: G.Step) { s.Materialized? && !w.committed && !w.line.live }

  /** Where no connection is ever lost, this is to be seen on the steps alone: cursor and
      announcements are those of the run without crashes exactly when no worker dies between
      storing a frame and committing its evaluation. */
  lemma UnheardWhenFresh(e: Engine, run: seq<World>, steps: seq<G.Step>)
    requires Lawful(e) && Steady(e) && G.NeverLost(e.feed) && IsRun(e, run, steps)
    ensures (forall i :: 0 <= i < |run| ==> SpeaksAlike(e, run[i])) <==>
            (forall i :: 0 <= i < |steps| ==> !FirstByAnother(run[i], steps[i]))
  {
    RestartsGoUnheardExactly(e, run, steps);
    forall i | 0 <= i < |steps| ensures OtherGap(e, run[i], steps[i]) <==> FirstByAnother(run[i], steps[i]) {
      RunKeepsOneGap(e, run, steps, i);
      StraightHasNoRow(e, run[i].line.done);
      assert Follows(e, run[i], steps[i], run[i + 1]);
      if steps[i].Materialized? { G.OpenExactlyWhenReplayed(run[i].line); }
    }
  }

  // ---------------------------------------------------------------- every table

  ghost predicate Agrees(e: Engine, w: World) { w.tables == Straight(e, Counted(w)).tables }

  lemma AgreesSpeaksAlike(e: Engine, w: World)
    ensures Agrees(e, w) ==> SpeaksAlike(e, w)
  {
  }

  /** The gap rows of this run let the frame in hand write what it would have written on those of
      the run without crashes. */
  ghost predicate GapsReadAlike(e: Engine, w: World) {
    Written(w.tables, NextWrite(e, w))
    == Written(w.tables, WriteOf(e, w.line.done, PreviousCursor(w, e.version), w.tables, CrashFreeGaps(e, w.line.done)))
  }

  /** A first evaluation that its gap rows change, or a retry that moves a chart. */
  ghost predicate Departs(e: Engine, w: World, s: G.Step) {
    s.Materialized? && if w.committed then MovesChart(e, w) else !GapsReadAlike(e, w)
  }

  lemma SameTablesSameCursor(e: Engine, w: World, v: World)
    requires Lawful(e) && Inv(e, w) && Inv(e, v) && w.tables == v.tables
    ensures PreviousCursor(w, e.version) == PreviousCursor(v, e.version)
  {
    CursorIs(e, w);
    CursorIs(e, w.(memory := None));
    CursorIs(e, v);
    CursorIs(e, v.(memory := None));
  }

  lemma FirstDepartsExactly(e: Engine, w: World)
    requires Lawful(e) && Inv(e, w) && !w.committed && Enabled(e, w, G.Materialized) && Agrees(e, w)
    ensures Agrees(e, Next(e, w, G.Materialized)) <==> GapsReadAlike(e, w)
  {
    var r := ReadyAt(e, w.line.done);
    FirstWrite(e, w);
    SameTablesSameCursor(e, w, r);
  }

  lemma StepDepartsExactly(e: Engine, w: World, s: G.Step)
    requires Lawful(e) && Inv(e, w) && Enabled(e, w, s) && Agrees(e, w)
    ensures Agrees(e, Next(e, w, s)) <==> !Departs(e, w, s)
  {
    if s.Materialized? && !w.committed {
      FirstDepartsExactly(e, w);
    } else {
      OthersCountAlike(e, w, s);
      if s.Materialized? { RetryIsNoOpExactly(e, w); }
    }
  }

  lemma {:induction false} NoDepartureAgrees(e: Engine, run: seq<World>, steps: seq<G.Step>, k: nat)
    requires Lawful(e) && IsRun(e, run, steps) && k < |run|
    requires forall i :: 0 <= i < k ==> !Departs(e, run[i], steps[i])
    ensures Agrees(e, run[k])
  {
    if k > 0 {
      NoDepartureAgrees(e, run, steps, k - 1);
      RunKeepsInv(e, run, steps, k - 1);
      assert !Departs(e, run[k - 1], steps[k - 1]) && Follows(e, run[k - 1], steps[k - 1], run[k]);
      StepDepartsExactly(e, run[k - 1], steps[k - 1]);
    }
  }

  /** At every moment every table, charts included, is that of the run without crashes, exactly
      when no first evaluation is changed by the gap rows it finds and no retry moves a chart. */
  lemma CrashesLeaveNoTraceExactly(e: Engine, run: seq<World>, steps: seq<G.Step>)
    requires Lawful(e) && IsRun(e, run, steps)
    ensures (forall i :: 0 <= i < |run| ==> Agrees(e, run[i])) <==>
            (forall i :: 0 <= i < |steps| ==> !Departs(e, run[i], steps[i]))
  {
    if forall i :: 0 <= i < |steps| ==> !Departs(e, run[i], steps[i]) {
      forall i | 0 <= i < |run| ensures Agrees(e, run[i]) {
        NoDepartureAgrees(e, run, steps, i);
      }
    }
    if i :| 0 <= i < |steps| && Departs(e, run[i], steps[i]) {
      RunKeepsInv(e, run, steps, i);
      assert Follows(e, run[i], steps[i], run[i + 1]);
      if Agrees(e, run[i]) { StepDepartsExactly(e, run[i], steps[i]); }
      assert !(Agrees(e, run[i]) && Agrees(e, run[i + 1]));
    }
  }

  /** Where the rows are the same nothing is changed; where another gap is open something is. */
  lemma GapsShow(e: Engine, w: World)
    requires Lawful(e) && Inv(e, w) && !w.committed && Enabled(e, w, G.Materialized) && Agrees(e, w)
    ensures w.line.gaps == CrashFreeGaps(e, w.line.done) ==> GapsReadAlike(e, w)
    ensures GapsReadAlike(e, w) ==> SameGap(e, w)
  {
    FirstDepartsExactly(e, w);
    if !SameGap(e, w) { OtherGapShows(e, w); }
  }

  // ---------------------------------------------------------------- what the gap rows are read for

  function Outages(gaps: seq<G.GapRow>): seq<E.Outage> {
    seq(|gaps|, i requires 0 <= i < |gaps| => E.Outage(gaps[i].start, if gaps[i].end.Some? then Some(gaps[i].end.value) else None))
  }

  ghost predicate SpoiltAlike(g: seq<G.GapRow>, h: seq<G.GapRow>, laps: set<(int, int)>) {
    forall lap :: lap in laps ==> (E.NoGap(Outages(g), lap.0, lap.1) <==> E.NoGap(Outages(h), lap.0, lap.1))
  }

  /** Beside the open gap, an evaluation asks of the gap rows only which laps they meet. */
  ghost predicate ReadsLaps(e: Engine, laps: nat -> set<(int, int)>) {
    forall k, p, t, g, h :: G.OpenGap(g) == G.OpenGap(h) && SpoiltAlike(g, h, laps(k)) ==>
      e.evaluate(k, p, t, g) == e.evaluate(k, p, t, h)
  }

  lemma LapsReadAlike(e: Engine, w: World, laps: nat -> set<(int, int)>)
    requires ReadsLaps(e, laps) && SameGap(e, w) && SpoiltAlike(w.line.gaps, CrashFreeGaps(e, w.line.done), laps(w.line.done))
    ensures GapsReadAlike(e, w)
  {
    var k, p, g, h := w.line.done, PreviousCursor(w, e.version), w.line.gaps, CrashFreeGaps(e, w.line.done);
    assert e.evaluate(k, p, w.tables, g) == e.evaluate(k, p, w.tables, h);
    assert NextWrite(e, w) == WriteOf(e, k, p, w.tables, h);
  }

  /** No gap row meets a lap that the frame in hand judges. */
  ghost predicate NoLapSpoilt(w: World, laps: nat -> set<(int, int)>) {
    forall lap :: lap in laps(w.line.done) ==> E.NoGap(Outages(w.line.gaps), lap.0, lap.1)
  }

  /** A first evaluation by another run, or with a lap that a restart's gap meets; or a retry that
      moves a chart. */
  ghost predicate MayDepart(e: Engine, w: World, s: G.Step, laps: nat -> set<(int, int)>) {
    s.Materialized? && if w.committed then MovesChart(e, w) else !w.line.live || !NoLapSpoilt(w, laps)
  }

  /** Where no connection is ever lost, workers may die between frames as often as they like:
      every table is that of the run without crashes while no lap judged later lies across the
      gap that the restart leaves. */
  lemma NoTraceWhenFresh(e: Engine, run: seq<World>, steps: seq<G.Step>, laps: nat -> set<(int, int)>)
    requires Lawful(e) && ReadsLaps(e, laps) && G.NeverLost(e.feed) && IsRun(e, run, steps)
    requires forall i :: 0 <= i < |steps| ==> !MayDepart(e, run[i], steps[i], laps)
    ensures forall i :: 0 <= i < |run| ==> Agrees(e, run[i])
  {
    forall i | 0 <= i < |steps| ensures !Departs(e, run[i], steps[i]) {
      assert !MayDepart(e, run[i], steps[i], laps) && Follows(e, run[i], steps[i], run[i + 1]);
      if steps[i].Materialized? && !run[i].committed { FreshReadsAlike(e, run, steps, i, laps); }
    }
    CrashesLeaveNoTraceExactly(e, run, steps);
  }

  lemma FreshReadsAlike(e: Engine, run: seq<World>, steps: seq<G.Step>, i: nat, laps: nat -> set<(int, int)>)
    requires ReadsLaps(e, laps) && G.NeverLost(e.feed) && IsRun(e, run, steps) && i < |steps|
    requires steps[i].Materialized? && run[i].line.live && NoLapSpoilt(run[i], laps)
    ensures GapsReadAlike(e, run[i])
  {
    assert Follows(e, run[i], steps[i], run[i + 1]);
    RunKeepsOneGap(e, run, steps, i);
    StraightHasNoRow(e, run[i].line.done);
    G.OpenExactlyWhenReplayed(run[i].line);
    LapsReadAlike(e, run[i], laps);
  }
}
