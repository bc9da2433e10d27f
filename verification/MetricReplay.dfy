/** The metric runner over a session's frames, with crashes and restarts anywhere: what each frame
    leaves behind once, whatever gaps the restarts open. */
module MetricReplay {
  import opened Common
  import opened MetricStore
  import opened MetricRuns
  import opened MetricChart
  import opened MetricScopes
  import opened ParsedJson
  import B = BoundaryState
  import G = IngestGaps

  /** One scope's values as the engine evaluates them; `history` is what a chart keeps. */
  datatype Reading = Reading(scope: Scope, values: string, history: string)
  datatype Evaluation = Evaluation(cursor: B.Boundary, readings: seq<Reading>, hash: string, events: seq<StreamRow>)

  /** The metric engine on the frames of one heat. An evaluation reads the facts of its frame,
      the previous event cursor, every metric table (the stored totals that stand in for a full
      scan, the runner state, the session's chart) and the gap rows. */
  datatype Engine = Engine(
    version: int,
    observed: nat -> nat,
    message: nat -> Option<int>,
    key: nat -> string,
    frame: nat -> int,
    alert: string -> bool,
    feed: G.Feed,
    evaluate: (nat, Option<B.Boundary>, Tables<Json>, seq<G.GapRow>) -> Evaluation)

  function CandidatesOf(ev: Evaluation, previous: Option<B.Boundary>): seq<Candidate> {
    var forced := EventScopes(previous, ev.cursor);
    seq(|ev.readings|, i requires 0 <= i < |ev.readings| =>
      Candidate(ev.readings[i].scope, ev.readings[i].values, ev.readings[i].history, ev.readings[i].scope in forced))
  }

  function WriteOf(e: Engine, k: nat, previous: Option<B.Boundary>, t: Tables<Json>, gaps: seq<G.GapRow>): Write<Json> {
    var ev := e.evaluate(k, previous, t, gaps);
    Write(e.observed(k), e.message(k), e.key(k), e.version, CandidatesOf(ev, previous),
          Some(RunnerCandidate(e.frame(k), ev.hash, B.Serialize(ev.cursor))), ev.events)
  }

  function FrameRank(e: Engine, k: nat): Rank { Rank(e.observed(k), e.frame(k), e.key(k)) }

  predicate SameScopes(a: seq<Reading>, b: seq<Reading>) {
    |a| == |b| && forall i :: 0 <= i < |a| ==> a[i].scope == b[i].scope
  }

  /** What is asked of the engine for a frame: writes that are accepted, cursors that can be
      stored and that name the open gap, and the same scopes whatever the tables and gaps hold.
      Values, cursors and events may differ. */
  ghost predicate LawfulAt(e: Engine, k: nat) {
    && (forall p, t, g :: Sound(WriteOf(e, k, p, t, g)))
    && (forall p, t, g :: CursorOk(e.evaluate(k, p, t, g).cursor, g))
    && (forall p, t, g, q, u, h :: SameScopes(e.evaluate(k, p, t, g).readings, e.evaluate(k, q, u, h).readings))
  }

  predicate CursorOk(cursor: B.Boundary, gaps: seq<G.GapRow>) {
    B.WellFormed(cursor) && cursor.sourceGap == G.OpenGap(gaps)
  }

  /** Frames come in rank order. */
  ghost predicate RanksRise(e: Engine) {
    forall j: nat, k: nat :: j < k ==> RankLess(FrameRank(e, j), FrameRank(e, k))
  }

  ghost predicate Lawful(e: Engine) {
    RanksRise(e) && forall k: nat :: LawfulAt(e, k)
  }

  /** The tables after a write; an error leaves them. */
  function Written<C>(t: Tables<C>, w: Write<C>): Tables<C> {
    var after := Materialize(t, w);
    if after.Some? then after.value else t
  }

  /** Everything but the charts: current rows, ticks, runner state and outbox. */
  function Core<C>(t: Tables<C>): Tables<C> { t.(samples := map[]) }

  // ---------------------------------------------------------------- a run with crashes

  /** `line` is the ingest worker and its gap rows; `memory` the runner's cursor, lost with the
      process; `committed`: the frame in hand has been materialized. `log` is the first write of
      each frame so far, which the code does not keep. */
  datatype World = World(
    line: G.Line,
    tables: Tables<Json>,
    memory: Option<B.Boundary>,
    committed: bool,
    log: seq<Write<Json>>)

  /** The cursor a frame is compared with: the one in memory, or the stored one. */
  function PreviousCursor(w: World, version: int): Option<B.Boundary> {
    if w.memory.Some? then w.memory
    else if w.tables.runner.Some? && w.tables.runner.value.version == version then B.Deserialize(w.tables.runner.value.value)
    else None
  }

  /** What the process writes for the frame in hand. */
  function NextWrite(e: Engine, w: World): Write<Json> {
    WriteOf(e, w.line.done, PreviousCursor(w, e.version), w.tables, w.line.gaps)
  }

  predicate Enabled(e: Engine, w: World, s: G.Step) { G.LineEnabled(e.feed, w.line, s) }

  /** Only a materialization touches the metric tables, and only the worker moves the line. */
  function Next(e: Engine, w: World, s: G.Step): World
    requires Enabled(e, w, s)
  {
    var line := G.LineNext(e.feed, w.line, s);
    match s
    case Materialized =>
      var previous := PreviousCursor(w, e.version);
      var write := NextWrite(e, w);
      var cursor := e.evaluate(w.line.done, previous, w.tables, w.line.gaps).cursor;
      World(line, Written(w.tables, write), if StateWritten(w.tables, write) then Some(cursor) else previous, true,
            if w.committed then w.log else w.log + [write])
    case MarkProcessed => w.(line := line, committed := false)
    case Stop(_) => w.(line := line, memory := None)
    case Crash => w.(line := line, memory := None)
    case _ => w.(line := line)
  }

  function Counted(w: World): nat { w.line.done + if w.committed then 1 else 0 }

  const START := World(G.FIRST_LINE, Empty(), None, false, [])

  ghost predicate Follows(e: Engine, w: World, s: G.Step, v: World) { Enabled(e, w, s) && v == Next(e, w, s) }

  ghost predicate IsRun(e: Engine, run: seq<World>, steps: seq<G.Step>)
  {
    && |run| == |steps| + 1
    && run[0] == START
    && forall i :: 0 <= i < |steps| ==> Follows(e, run[i], steps[i], run[i + 1])
  }

  // ---------------------------------------------------------------- the log

  /** The cursor stored by the frame before frame `n`. */
  function CursorOf(log: seq<Write<Json>>, n: nat): Option<B.Boundary>
    requires n <= |log|
  {
    if n == 0 || log[n - 1].state.None? then None else B.Deserialize(log[n - 1].state.value.cursor)
  }

  /** Entry `i` is what frame `i` writes, compared with the cursor of the frame before it. */
  ghost predicate IsEntry(e: Engine, log: seq<Write<Json>>, i: nat)
    requires i < |log|
  {
    exists t, g :: log[i] == WriteOf(e, i, CursorOf(log, i), t, g)
  }

  ghost predicate LogOk(e: Engine, log: seq<Write<Json>>) {
    forall i :: 0 <= i < |log| ==> IsEntry(e, log, i)
  }

  lemma EntryFacts(e: Engine, log: seq<Write<Json>>, i: nat)
    requires Lawful(e) && i < |log| && IsEntry(e, log, i)
    ensures Sound(log[i]) && TickRank(log[i]) == FrameRank(e, i) && log[i].version == e.version
    ensures CursorOf(log, i + 1).Some?
  {
    var t, g :| log[i] == WriteOf(e, i, CursorOf(log, i), t, g);
    assert LawfulAt(e, i);
    assert Sound(WriteOf(e, i, CursorOf(log, i), t, g));
    var cursor := e.evaluate(i, CursorOf(log, i), t, g).cursor;
    assert CursorOk(cursor, g);
    B.BoundaryRoundTrip(cursor);
  }

  lemma LogIsSound(e: Engine, log: seq<Write<Json>>)
    requires Lawful(e) && LogOk(e, log)
    ensures AllSound(log)
  {
    forall i | 0 <= i < |log| ensures Sound(log[i]) {
      EntryFacts(e, log, i);
    }
  }

  lemma LogGrows(e: Engine, log: seq<Write<Json>>, w: Write<Json>, t: Tables<Json>, g: seq<G.GapRow>)
    requires LogOk(e, log) && w == WriteOf(e, |log|, CursorOf(log, |log|), t, g)
    ensures LogOk(e, log + [w])
  {
    var more := log + [w];
    forall i | 0 <= i < |more| ensures IsEntry(e, more, i) {
      assert CursorOf(more, i) == CursorOf(log, i);
      if i < |log| {
        assert IsEntry(e, log, i);
      }
    }
  }

  /** The frame after a log outranks its last entry. */
  lemma NextOutranks(e: Engine, log: seq<Write<Json>>)
    requires Lawful(e) && LogOk(e, log) && log != []
    ensures log[|log| - 1].state.Some? && log[|log| - 1].version == e.version
    ensures RankLess(TickRank(log[|log| - 1]), FrameRank(e, |log|))
  {
    EntryFacts(e, log, |log| - 1);
    assert RankLess(FrameRank(e, |log| - 1), FrameRank(e, |log|));
  }

  lemma SoundWrite<C>(t: Tables<C>, w: Write<C>)
    requires Sound(w)
    ensures Materialize(t, w).Some?
    ensures Written(t, w).runner == Some(Winner(t.runner, StateOffer(w)))
    ensures Written(t, w).stream == if StateWritten(t, w) then AppendEvents(t.stream, w.events) else t.stream
    ensures Written(t, w) == PutState(PutCandidates(t, w, w.candidates), w)
  {
    WriteEffect(t, w, w.candidates, Scope("", ""));
  }

  lemma RunSnoc<C>(log: seq<Write<C>>)
    requires AllSound(log) && log != []
    ensures AllSound(log[..|log| - 1]) && Run(log) == Written(Run(log[..|log| - 1]), log[|log| - 1])
  {
    SoundWrite(Run(log[..|log| - 1]), log[|log| - 1]);
  }

  lemma LastEntryIsLater(e: Engine, log: seq<Write<Json>>)
    requires Lawful(e) && LogOk(e, log) && AllSound(log) && log != []
    requires var init := log[..|log| - 1];
             Run(init).runner == if init == [] then None else Some(StateOffer(init[|init| - 1]))
    ensures StateWritten(Run(log[..|log| - 1]), log[|log| - 1])
  {
    var n := |log| - 1;
    EntryFacts(e, log, n);
    LogPrefix(e, log, n);
    if n > 0 { NextOutranks(e, log[..n]); }
  }

  /** The runner state is the last frame's. */
  lemma {:induction false} RunnerIsLast(e: Engine, log: seq<Write<Json>>)
    requires Lawful(e) && LogOk(e, log)
    ensures AllSound(log)
    ensures Run(log).runner == if log == [] then None else Some(StateOffer(log[|log| - 1]))
  {
    LogIsSound(e, log);
    if log != [] {
      var n := |log| - 1;
      LogPrefix(e, log, n);
      RunnerIsLast(e, log[..n]);
      RunSnoc(log);
      SoundWrite(Run(log[..n]), log[n]);
      LastEntryIsLater(e, log);
    }
  }

  lemma LogPrefix(e: Engine, log: seq<Write<Json>>, n: nat)
    requires LogOk(e, log) && n <= |log|
    ensures LogOk(e, log[..n])
  {
    forall i | 0 <= i < n ensures IsEntry(e, log[..n], i) {
      assert IsEntry(e, log, i);
      assert CursorOf(log[..n], i) == CursorOf(log, i);
    }
  }

  // ---------------------------------------------------------------- the core does not read the charts

  lemma {:induction false} CoreCandidates<C>(t: Tables<C>, u: Tables<C>, w: Write<C>, cs: seq<Candidate>)
    requires Core(t) == Core(u)
    ensures Core(PutCandidates(t, w, cs)) == Core(PutCandidates(u, w, cs))
  {
    if cs != [] {
      CoreCandidates(t, u, w, cs[..|cs| - 1]);
    }
  }

  lemma CoreStep<C>(t: Tables<C>, u: Tables<C>, w: Write<C>)
    requires Core(t) == Core(u)
    ensures Core(Written(t, w)) == Core(Written(u, w)) && (StateWritten(t, w) <==> StateWritten(u, w))
  {
    CoreCandidates(t, u, w, w.candidates);
  }

  // ---------------------------------------------------------------- a retry keeps the core

  /** Two writes of one frame: the same stamp and the same scopes. */
  ghost predicate SameFrame<C>(w: Write<C>, again: Write<C>) {
    && Sound(w) && Sound(again)
    && CurrentRank(again) == CurrentRank(w) && TickRank(again) == TickRank(w)
    && again.version == w.version && again.observed == w.observed
    && |again.candidates| == |w.candidates|
    && forall i :: 0 <= i < |w.candidates| ==> again.candidates[i].scope == w.candidates[i].scope
  }

  lemma RetryOffer<V>(existing: Option<Ranked<V>>, o: Ranked<V>, again: Ranked<V>)
    requires again.rank == o.rank && again.version == o.version
    ensures Winner(Some(Winner(existing, o)), again) == Winner(existing, o) && !Later(Winner(existing, o), again)
  {
    LaterOrder(o, o);
  }

  ghost predicate HoldsRow<C>(t: Tables<C>, w: Write<C>, c: Candidate) {
    c.scope in t.current && Winner(Some(t.current[c.scope]), OfferOf(w, c)) == t.current[c.scope]
  }

  lemma {:induction false} NothingToPut<C>(t: Tables<C>, w: Write<C>, cs: seq<Candidate>)
    requires forall i :: 0 <= i < |cs| ==> HoldsRow(t, w, cs[i])
    ensures Core(PutCandidates(t, w, cs)) == Core(t)
  {
    if cs != [] {
      NothingToPut(t, w, cs[..|cs| - 1]);
      assert HoldsRow(t, w, cs[|cs| - 1]);
    }
  }

  lemma {:induction false} CandidateAt(cs: seq<Candidate>, i: nat)
    requires i < |cs| && DistinctScopes(cs)
    ensures CandidateFor(cs, cs[i].scope) == Some(cs[i])
  {
    if i < |cs| - 1 {
      CandidateAt(cs[..|cs| - 1], i);
    }
  }

  lemma RetryRows<C>(t: Tables<C>, w: Write<C>, again: Write<C>, u: Tables<C>)
    requires SameFrame(w, again) && u.current == PutCandidates(t, w, w.candidates).current
    ensures forall i :: 0 <= i < |again.candidates| ==> HoldsRow(u, again, again.candidates[i])
  {
    forall i | 0 <= i < |again.candidates| ensures HoldsRow(u, again, again.candidates[i]) {
      var c := w.candidates[i];
      CandidateAt(w.candidates, i);
      WriteEffect(t, w, w.candidates, c.scope);
      RetryOffer(CurrentOf(t.current, c.scope), OfferOf(w, c), OfferOf(again, again.candidates[i]));
    }
  }

  lemma RetryState<C>(t: Tables<C>, w: Write<C>, again: Write<C>, u: Tables<C>)
    requires SameFrame(w, again) && Core(u) == Core(PutState(t, w))
    ensures Core(PutState(u, again)) == Core(u) && !StateWritten(u, again)
  {
    RetryOffer(t.runner, StateOffer(w), StateOffer(again));
    RankOrder(TickRank(w), TickRank(w));
  }

  /** Whatever was committed before, and whatever the charts have come to hold: a frame
      materialized again leaves current rows, ticks, runner state and outbox as they are. */
  lemma RetryKeepsCore<C>(t: Tables<C>, w: Write<C>, again: Write<C>, u: Tables<C>)
    requires SameFrame(w, again) && Core(u) == Core(Written(t, w))
    ensures Materialize(u, again).Some? && !StateWritten(u, again)
    ensures Core(Written(u, again)) == Core(u) && Written(u, again).samples == PutCandidates(u, again, again.candidates).samples
  {
    var put := PutCandidates(t, w, w.candidates);
    WriteEffect(t, w, w.candidates, Scope("", ""));
    assert Written(t, w) == PutState(put, w);
    RetryState(put, w, again, u);
    RetryRows(t, w, again, u);
    NothingToPut(u, again, again.candidates);
    CoreState(u, PutCandidates(u, again, again.candidates), again);
  }

  lemma CoreState<C>(u: Tables<C>, v: Tables<C>, w: Write<C>)
    requires w.state.Some? && Core(u) == Core(v)
    ensures Core(PutState(u, w)) == Core(PutState(v, w)) && (StateWritten(u, w) <==> StateWritten(v, w))
  {
  }

  lemma SameFrameOf(e: Engine, k: nat, p: Option<B.Boundary>, t: Tables<Json>, g: seq<G.GapRow>,
                    q: Option<B.Boundary>, u: Tables<Json>, h: seq<G.GapRow>)
    requires Lawful(e)
    ensures SameFrame(WriteOf(e, k, p, t, g), WriteOf(e, k, q, u, h))
  {
    assert LawfulAt(e, k);
    assert Sound(WriteOf(e, k, p, t, g)) && Sound(WriteOf(e, k, q, u, h));
    assert SameScopes(e.evaluate(k, p, t, g).readings, e.evaluate(k, q, u, h).readings);
  }

  // ---------------------------------------------------------------- the invariant

  ghost predicate HasCharts<C>(t: Tables<C>, w: Write<C>) {
    forall i :: 0 <= i < |w.candidates| ==> w.candidates[i].scope in t.samples
  }

  ghost predicate Inv(e: Engine, w: World) {
    && LogOk(e, w.log) && |w.log| == Counted(w) && AllSound(w.log)
    && Core(w.tables) == Core(Run(w.log))
    && (w.memory.Some? ==> w.memory == CursorOf(w.log, |w.log|))
    && (w.line.ran ==> w.committed) && (w.committed ==> w.line.arrived)
    && (w.committed ==> HasCharts(w.tables, w.log[|w.log| - 1]))
  }

  lemma CursorIs(e: Engine, w: World)
    requires Lawful(e) && Inv(e, w)
    ensures PreviousCursor(w, e.version) == CursorOf(w.log, |w.log|)
  {
    RunnerIsLast(e, w.log);
    if w.log != [] {
      EntryFacts(e, w.log, |w.log| - 1);
    }
  }

  lemma PutsCharts<C>(t: Tables<C>, w: Write<C>)
    requires Sound(w)
    ensures Materialize(t, w).Some? && Written(t, w).samples == PutCandidates(t, w, w.candidates).samples
    ensures HasCharts(Written(t, w), w)
  {
    SoundWrite(t, w);
    forall i | 0 <= i < |w.candidates| ensures w.candidates[i].scope in PutCandidates(t, w, w.candidates).samples {
      CandidateAt(w.candidates, i);
      WriteEffect(t, w, w.candidates, w.candidates[i].scope);
    }
  }

  lemma StateIsNew(e: Engine, w: World, write: Write<Json>)
    requires Lawful(e) && Inv(e, w) && !w.committed && Sound(write)
    requires TickRank(write) == FrameRank(e, w.line.done) && write.version == e.version
    ensures StateWritten(w.tables, write)
  {
    RunnerIsLast(e, w.log);
    if w.log != [] { NextOutranks(e, w.log); }
  }

  lemma FirstStep(e: Engine, w: World)
    requires Lawful(e) && Inv(e, w) && !w.committed && Enabled(e, w, G.Materialized)
    ensures Inv(e, Next(e, w, G.Materialized))
  {
    var write := NextWrite(e, w);
    CursorIs(e, w);
    LogGrows(e, w.log, write, w.tables, w.line.gaps);
    var more := w.log + [write];
    assert more[..|w.log|] == w.log;
    EntryFacts(e, more, |w.log|);
    LogIsSound(e, more);
    StateIsNew(e, w, write);
    PutsCharts(w.tables, write);
    CoreStep(w.tables, Run(w.log), write);
    var cursor := e.evaluate(w.line.done, PreviousCursor(w, e.version), w.tables, w.line.gaps).cursor;
    assert LawfulAt(e, w.line.done) && CursorOk(cursor, w.line.gaps);
    B.BoundaryRoundTrip(cursor);
  }

  lemma RetrySameFrame(e: Engine, w: World)
    requires Lawful(e) && Inv(e, w) && w.committed
    ensures SameFrame(w.log[w.line.done], NextWrite(e, w))
  {
    var n := w.line.done;
    var t, g :| w.log[n] == WriteOf(e, n, CursorOf(w.log, n), t, g) by { assert IsEntry(e, w.log, n); }
    SameFrameOf(e, n, CursorOf(w.log, n), t, g, PreviousCursor(w, e.version), w.tables, w.line.gaps);
  }

  /** What a retry of the frame in hand does to the tables. */
  lemma RetryIsCoreNoOp(e: Engine, w: World)
    requires Lawful(e) && Inv(e, w) && w.committed
    ensures var write := NextWrite(e, w);
            && !StateWritten(w.tables, write) && Core(Written(w.tables, write)) == Core(w.tables)
            && Written(w.tables, write).samples == PutCandidates(w.tables, write, write.candidates).samples
            && SameFrame(w.log[w.line.done], write)
  {
    var n := w.line.done;
    RetrySameFrame(e, w);
    RunSnoc(w.log);
    RetryKeepsCore(Run(w.log[..n]), w.log[n], NextWrite(e, w), w.tables);
  }

  lemma {:induction false} KeysGrow<C>(t: Tables<C>, w: Write<C>, cs: seq<Candidate>)
    ensures t.samples.Keys <= PutCandidates(t, w, cs).samples.Keys
  {
    if cs != [] {
      KeysGrow(t, w, cs[..|cs| - 1]);
    }
  }

  lemma RetryStep(e: Engine, w: World)
    requires Lawful(e) && Inv(e, w) && w.committed && Enabled(e, w, G.Materialized)
    ensures Inv(e, Next(e, w, G.Materialized))
  {
    CursorIs(e, w);
    RetryIsCoreNoOp(e, w);
    KeysGrow(w.tables, NextWrite(e, w), NextWrite(e, w).candidates);
  }

  lemma StepKeepsInv(e: Engine, w: World, s: G.Step)
    requires Lawful(e) && Inv(e, w) && Enabled(e, w, s)
    ensures Inv(e, Next(e, w, s))
  {
    if s.Materialized? {
      if w.committed { RetryStep(e, w); } else { FirstStep(e, w); }
    }
  }

  lemma {:induction false} RunKeepsInv(e: Engine, run: seq<World>, steps: seq<G.Step>, k: nat)
    requires Lawful(e) && IsRun(e, run, steps) && k < |run|
    ensures Inv(e, run[k])
  {
    if k > 0 {
      RunKeepsInv(e, run, steps, k - 1);
      assert Follows(e, run[k - 1], steps[k - 1], run[k]);
      StepKeepsInv(e, run[k - 1], steps[k - 1]);
    }
  }

  // ---------------------------------------------------------------- exactly once

  /** For any number of crashes and restarts, anywhere, whatever gap rows they leave: current rows,
      ticks, runner state and outbox are those of one write per frame, each frame's first, in
      order; and the next frame is compared with the cursor that the last of them stored. */
  lemma ExactlyOnce(e: Engine, run: seq<World>, steps: seq<G.Step>, k: nat)
    requires Lawful(e) && IsRun(e, run, steps) && k < |run|
    ensures LogOk(e, run[k].log) && |run[k].log| == Counted(run[k]) && AllSound(run[k].log)
    ensures Core(run[k].tables) == Core(Run(run[k].log))
    ensures PreviousCursor(run[k], e.version) == CursorOf(run[k].log, |run[k].log|)
  {
    RunKeepsInv(e, run, steps, k);
    CursorIs(e, run[k]);
  }

  /** In any run, a frame materialized again after its commit changes none of them. */
  lemma RetryIsNoOp(e: Engine, run: seq<World>, steps: seq<G.Step>, k: nat)
    requires Lawful(e) && IsRun(e, run, steps) && k < |steps| && steps[k].Materialized? && run[k].committed
    ensures Core(run[k + 1].tables) == Core(run[k].tables) && run[k + 1].log == run[k].log
  {
    RunKeepsInv(e, run, steps, k);
    assert Follows(e, run[k], steps[k], run[k + 1]);
    RetryIsCoreNoOp(e, run[k]);
  }

  // ---------------------------------------------------------------- the outbox

  ghost predicate OutboxHolds(stream: seq<StreamRow>, log: seq<Write<Json>>) {
    && DistinctKeys(stream)
    && (forall k :: 0 <= k < |log| ==> Published(stream, log[k].events))
    && (forall r :: r in stream ==> IsEventOf(r, log))
  }

  ghost predicate Published(stream: seq<StreamRow>, events: seq<StreamRow>) {
    forall x :: x in events ==> HasKey(stream, x.eventKey)
  }

  ghost predicate IsEventOf(r: StreamRow, log: seq<Write<Json>>) {
    exists k :: 0 <= k < |log| && r in log[k].events
  }

  lemma StreamStep(e: Engine, log: seq<Write<Json>>)
    requires Lawful(e) && LogOk(e, log) && AllSound(log) && log != []
    ensures Run(log).stream == AppendEvents(Run(log[..|log| - 1]).stream, log[|log| - 1].events)
  {
    var n := |log| - 1;
    LogPrefix(e, log, n);
    RunnerIsLast(e, log[..n]);
    LastEntryIsLater(e, log);
    RunSnoc(log);
    SoundWrite(Run(log[..n]), log[n]);
  }

  lemma PublishedStays(stream: seq<StreamRow>, more: seq<StreamRow>, events: seq<StreamRow>)
    requires Published(stream, events) && stream <= more
    ensures Published(more, events)
  {
    forall x | x in events ensures HasKey(more, x.eventKey) {
      var i :| 0 <= i < |stream| && stream[i].eventKey == x.eventKey;
      assert more[i] == stream[i];
    }
  }

  lemma OutboxNext(stream: seq<StreamRow>, init: seq<Write<Json>>, w: Write<Json>)
    requires OutboxHolds(stream, init)
    ensures OutboxHolds(AppendEvents(stream, w.events), init + [w])
  {
    var more, log := AppendEvents(stream, w.events), init + [w];
    EventsAppendOnce(stream, w.events);
    forall k | 0 <= k < |log| ensures Published(more, log[k].events) {
      if k < |init| { PublishedStays(stream, more, init[k].events); }
    }
    forall r | r in more ensures IsEventOf(r, log) {
      if r in stream {
        var k :| 0 <= k < |init| && r in init[k].events;
        assert log[k] == init[k];
      } else {
        assert r in log[|init|].events;
      }
    }
  }

  lemma {:induction false} LogOutbox(e: Engine, log: seq<Write<Json>>)
    requires Lawful(e) && LogOk(e, log) && AllSound(log)
    ensures OutboxHolds(Run(log).stream, log)
  {
    if log != [] {
      var n := |log| - 1;
      LogPrefix(e, log, n);
      LogOutbox(e, log[..n]);
      StreamStep(e, log);
      assert log[..n] + [log[n]] == log;
      OutboxNext(Run(log[..n]).stream, log[..n], log[n]);
    }
  }

  /** In any run: no event of a committed frame's first evaluation is left out of the outbox,
      none is there twice, and nothing else is. */
  lemma OutboxHoldsEveryEvent(e: Engine, run: seq<World>, steps: seq<G.Step>, k: nat)
    requires Lawful(e) && IsRun(e, run, steps) && k < |run|
    ensures OutboxHolds(run[k].tables.stream, run[k].log)
  {
    RunKeepsInv(e, run, steps, k);
    LogOutbox(e, run[k].log);
    assert run[k].tables.stream == Core(run[k].tables).stream;
  }
}
