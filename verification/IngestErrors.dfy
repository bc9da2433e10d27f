/** Frames whose processing raises: the process survives, with the reducer as the error left it, and
    goes on. When the reducer still tells the history, and when it does not. */
module IngestErrors {
  import opened Common
  import opened ResultGrid
  import opened GridCheckpoint
  import opened RawIngest
  import opened IngestSafety

  /** A reducer saved with frame `at`. */
  datatype Anchor = Anchor(at: nat, reducer: Reducer)

  /** The decoded frames in id order, and which are marked processed; the saved reducer with the
      newest anchor; the reducer in memory; whether the worker has gone on to live frames. */
  datatype Session = Session(frames: seq<seq<Incoming>>, marked: seq<bool>, saved: Option<Anchor>, memory: Option<Reducer>, live: bool)

  /** `left`: how many of its messages a frame that raises has brought to the reducer. */
  datatype Step =
    | GoLive
    | Take(messages: seq<Incoming>, save: bool)
    | Raise(messages: seq<Incoming>, left: nat)
    | Replay(save: bool)
    | RaiseAgain(left: nat)
    | Restart

  function Waiting(marked: seq<bool>): Option<nat> {
    if marked == [] then None
    else
      var before := Waiting(marked[..|marked| - 1]);
      if before.Some? then before else if marked[|marked| - 1] then None else Some(|marked| - 1)
  }

  /** The messages of the marked frames from `from` on. */
  function Told(frames: seq<seq<Incoming>>, marked: seq<bool>, from: nat): seq<Incoming>
    requires |frames| == |marked|
  {
    if |frames| <= from then []
    else
      var n := |frames| - 1;
      Told(frames[..n], marked[..n], from) + if marked[n] then frames[n] else []
  }

  function History(frames: seq<seq<Incoming>>): seq<Incoming> {
    if frames == [] then [] else History(frames[..|frames| - 1]) + frames[|frames| - 1]
  }

  /** The reducer used for a frame: the one in memory, or the saved one with the marked tail. */
  function ReducerOf(s: Session): Reducer
    requires |s.frames| == |s.marked|
  {
    if s.memory.Some? then s.memory.value
    else if s.saved.Some? then ReduceAll(s.saved.value.reducer, Told(s.frames, s.marked, s.saved.value.at + 1))
    else ReduceAll(FRESH_REDUCER, Told(s.frames, s.marked, 0))
  }

  predicate Enabled(s: Session, step: Step) {
    && |s.frames| == |s.marked|
    && match step
       case GoLive => !s.live && Waiting(s.marked).None?
       case Take(_, _) => s.live
       case Raise(messages, left) => s.live && left <= |messages|
       case Replay(_) => !s.live && Waiting(s.marked).Some? && Waiting(s.marked).value < |s.frames|
       case RaiseAgain(left) =>
         !s.live && Waiting(s.marked).Some? && Waiting(s.marked).value < |s.frames| && left <= |s.frames[Waiting(s.marked).value]|
       case Restart => true
  }

  /** Of two saved reducers the one with the newer anchor is restored. */
  function Saved(s: Session, save: bool, at: nat, r: Reducer): Option<Anchor> {
    if save && (s.saved.None? || s.saved.value.at <= at) then Some(Anchor(at, r)) else s.saved
  }

  function Next(s: Session, step: Step): Session
    requires Enabled(s, step)
  {
    match step
    case GoLive => s.(live := true)
    case Take(messages, save) =>
      var r := ReduceAll(ReducerOf(s), messages);
      Session(s.frames + [messages], s.marked + [true], Saved(s, save, |s.frames|, r), Some(r), true)
    case Raise(messages, left) =>
      Session(s.frames + [messages], s.marked + [false], s.saved, Some(ReduceAll(ReducerOf(s), messages[..left])), true)
    case Replay(save) =>
      var i := Waiting(s.marked).value;
      var r := ReduceAll(ReducerOf(s), s.frames[i]);
      Session(s.frames, s.marked[i := true], Saved(s, save, i, r), Some(r), false)
    case RaiseAgain(left) =>
      s.(memory := Some(ReduceAll(ReducerOf(s), s.frames[Waiting(s.marked).value][..left])))
    case Restart => s.(memory := None, live := false)
  }

  const NEW_SESSION_STATE := Session([], [], None, None, false)

  ghost predicate Follows(s: Session, step: Step, t: Session) { Enabled(s, step) && t == Next(s, step) }

  ghost predicate IsRun(run: seq<Session>, steps: seq<Step>) {
    && |run| == |steps| + 1 && run[0] == NEW_SESSION_STATE
    && forall i :: 0 <= i < |steps| ==> Follows(run[i], steps[i], run[i + 1])
  }

  // ---------------------------------------------------------------- errors that end the process

  predicate Raises(step: Step) { step.Raise? || step.RaiseAgain? }

  /** After an error nothing is done before the process is started again. */
  predicate Dies(steps: seq<Step>, i: nat) { i + 1 < |steps| && Raises(steps[i]) ==> steps[i + 1].Restart? }

  /** What the process is to show: everything, but for a last frame that is not marked. */
  function Done(s: Session): seq<Incoming> {
    if s.marked != [] && s.frames != [] && !s.marked[|s.marked| - 1] then History(s.frames[..|s.frames| - 1]) else History(s.frames)
  }

  ghost predicate AllMarked(marked: seq<bool>) { forall i :: 0 <= i < |marked| ==> marked[i] }

  ghost predicate AllButLast(marked: seq<bool>) { marked != [] ==> AllMarked(marked[..|marked| - 1]) }

  ghost predicate AnchorOk(s: Session, a: Anchor)
    requires |s.frames| == |s.marked|
  {
    a.at < |s.frames| && s.marked[a.at] && a.reducer == ReduceAll(FRESH_REDUCER, History(s.frames[..a.at + 1]))
  }

  ghost predicate Good(s: Session, raised: bool) {
    && |s.frames| == |s.marked| && AllButLast(s.marked)
    && (s.live && !raised ==> AllMarked(s.marked))
    && (s.saved.Some? ==> AnchorOk(s, s.saved.value))
    && (!raised && s.memory.Some? ==> s.memory.value == ReduceAll(FRESH_REDUCER, Done(s)))
  }

  lemma {:induction false} WaitingNone(marked: seq<bool>)
    requires AllMarked(marked)
    ensures Waiting(marked).None?
  {
    if marked != [] {
      WaitingNone(marked[..|marked| - 1]);
    }
  }

  lemma WaitingIsLast(marked: seq<bool>)
    requires AllButLast(marked)
    ensures Waiting(marked) == if marked != [] && !marked[|marked| - 1] then Some(|marked| - 1) else None
  {
    if marked != [] {
      WaitingNone(marked[..|marked| - 1]);
    }
  }

  ghost predicate MarkedFrom(marked: seq<bool>, from: nat) { forall i :: from <= i < |marked| ==> marked[i] }

  lemma Regroup(a: seq<Incoming>, b: seq<Incoming>, c: seq<Incoming>)
    ensures a + (b + c) == (a + b) + c
  {
  }

  lemma {:induction false} ToldIsHistory(frames: seq<seq<Incoming>>, marked: seq<bool>, from: nat)
    requires |frames| == |marked| && from <= |frames| && MarkedFrom(marked, from)
    ensures History(frames) == History(frames[..from]) + Told(frames, marked, from)
  {
    if |frames| == from {
      assert frames[..from] == frames;
    } else {
      var n := |frames| - 1;
      ToldIsHistory(frames[..n], marked[..n], from);
      assert frames[..n][..from] == frames[..from];
      Regroup(History(frames[..from]), Told(frames[..n], marked[..n], from), frames[n]);
    }
  }

  /** A frame that is not marked tells nothing. */
  lemma ToldIsDone(frames: seq<seq<Incoming>>, marked: seq<bool>, from: nat, n: nat)
    requires |frames| == |marked| == n + 1 && from <= n && !marked[n] && AllMarked(marked[..n])
    ensures History(frames[..n]) == History(frames[..from]) + Told(frames, marked, from)
  {
    ToldIsHistory(frames[..n], marked[..n], from);
    assert frames[..n][..from] == frames[..from];
    assert Told(frames, marked, from) == Told(frames[..n], marked[..n], from) + [];
  }

  lemma DoneFrom(s: Session, from: nat)
    requires |s.frames| == |s.marked| && AllButLast(s.marked) && from <= |s.frames|
    requires s.frames != [] && from == |s.frames| ==> s.marked[from - 1]
    ensures Done(s) == History(s.frames[..from]) + Told(s.frames, s.marked, from)
  {
    var n := |s.frames|;
    if n > 0 && !s.marked[n - 1] {
      ToldIsDone(s.frames, s.marked, from, n - 1);
    } else {
      assert forall i :: 0 <= i < n - 1 ==> s.marked[i] == s.marked[..n - 1][i];
      ToldIsHistory(s.frames, s.marked, from);
    }
  }

  lemma ReducerIsDone(s: Session)
    requires Good(s, false)
    ensures ReducerOf(s) == ReduceAll(FRESH_REDUCER, Done(s))
  {
    if s.memory.None? {
      var from := if s.saved.Some? then s.saved.value.at + 1 else 0;
      DoneFrom(s, from);
      ReduceAllSplit(FRESH_REDUCER, History(s.frames[..from]), Told(s.frames, s.marked, from));
    }
  }

  lemma HistorySnoc(frames: seq<seq<Incoming>>, messages: seq<Incoming>)
    ensures History(frames + [messages]) == History(frames) + messages
  {
    assert (frames + [messages])[..|frames|] == frames;
  }

  lemma AnchorStays(s: Session, t: Session, a: Anchor)
    requires |s.frames| == |s.marked| && |t.frames| == |t.marked| && AnchorOk(s, a)
    requires s.frames <= t.frames && (t.marked[a.at] == s.marked[a.at] || t.marked[a.at])
    ensures AnchorOk(t, a)
  {
    assert t.frames[..a.at + 1] == s.frames[..a.at + 1];
  }

  lemma TakeKeeps(s: Session, messages: seq<Incoming>, save: bool)
    requires Good(s, false) && Enabled(s, Take(messages, save))
    ensures Good(Next(s, Take(messages, save)), false)
  {
    var t := Next(s, Take(messages, save));
    assert t.marked[..|s.marked|] == s.marked;
    ReducerIsDone(s);
    HistorySnoc(s.frames, messages);
    ReduceAllSplit(FRESH_REDUCER, History(s.frames), messages);
    assert t.frames[..|t.frames|] == t.frames;
    if s.saved.Some? { AnchorStays(s, t, s.saved.value); }
  }

  lemma RaiseKeeps(s: Session, messages: seq<Incoming>, left: nat)
    requires Good(s, false) && Enabled(s, Raise(messages, left))
    ensures Good(Next(s, Raise(messages, left)), true)
  {
    var t := Next(s, Raise(messages, left));
    assert t.marked[..|s.marked|] == s.marked;
    if s.saved.Some? { AnchorStays(s, t, s.saved.value); }
  }

  lemma ReplayKeeps(s: Session, save: bool)
    requires Good(s, false) && Enabled(s, Replay(save))
    ensures Good(Next(s, Replay(save)), false)
  {
    WaitingIsLast(s.marked);
    var n := |s.frames| - 1;
    var t := Next(s, Replay(save));
    assert t.marked[..n] == s.marked[..n];
    ReducerIsDone(s);
    ReduceAllSplit(FRESH_REDUCER, History(s.frames[..n]), s.frames[n]);
    assert t.frames[..n + 1] == t.frames;
    if s.saved.Some? { AnchorStays(s, t, s.saved.value); }
  }

  lemma StepKeepsGood(s: Session, step: Step, raised: bool)
    requires Good(s, raised) && Enabled(s, step) && (raised ==> step.Restart?)
    ensures Good(Next(s, step), Raises(step))
  {
    match step
    case GoLive => WaitingIsLast(s.marked);
      assert forall i :: 0 <= i < |s.marked| - 1 ==> s.marked[i] == s.marked[..|s.marked| - 1][i];
    case Take(messages, save) => TakeKeeps(s, messages, save);
    case Raise(messages, left) => RaiseKeeps(s, messages, left);
    case Replay(save) => ReplayKeeps(s, save);
    case RaiseAgain(_) =>
    case Restart =>
  }

  ghost predicate RaisedBefore(steps: seq<Step>, k: nat) { 0 < k <= |steps| && Raises(steps[k - 1]) }

  /** Where every error ends the process, what it uses for the next frame is at every moment the
      reducer of everything done, in order, each frame once. */
  lemma {:induction false} ErrorsAreCrashes(run: seq<Session>, steps: seq<Step>, k: nat)
    requires IsRun(run, steps) && k < |run| && forall i :: 0 <= i < |steps| ==> Dies(steps, i)
    ensures Good(run[k], RaisedBefore(steps, k))
    ensures !RaisedBefore(steps, k) ==> ReducerOf(run[k]) == ReduceAll(FRESH_REDUCER, Done(run[k]))
  {
    if k > 0 {
      ErrorsAreCrashes(run, steps, k - 1);
      assert Follows(run[k - 1], steps[k - 1], run[k]);
      assert RaisedBefore(steps, k - 1) ==> Dies(steps, k - 2);
      StepKeepsGood(run[k - 1], steps[k - 1], RaisedBefore(steps, k - 1));
    }
    if !RaisedBefore(steps, k) { ReducerIsDone(run[k]); }
  }

  // ---------------------------------------------------------------- errors that do not

  function Cell(row: int, text: string): Change { [Int(row), Int(0), Text(text)] }
  function Shows(row: int, text: string): seq<Incoming> { [ForGrid(Changes([Cell(row, text)]))] }

  const LAYOUT: seq<Incoming> := [ForGrid(Snapshot(Some([Column("NR", None, None)]), []))]

  function CellOf(r: Reducer, row: nat): Option<OrderedJson> {
    var slot := CellAt(r.grid, row, 0);
    if slot.Some? then Some(slot.value.value) else None
  }

  ghost predicate IsReady(r: Reducer) { Wf(r.grid) && r.grid.Ready() }

  lemma LayoutIsReady()
    ensures IsReady(ReduceAll(FRESH_REDUCER, LAYOUT)) && ReduceAll(FRESH_REDUCER, LAYOUT).grid.rows == map[]
  {
    assert LAYOUT[..0] == [];
    FreshIsWf(LAYOUT);
    assert SchemaConflicts([Column("NR", None, None)]) == map[];
  }

  lemma ShowsOne(r: Reducer, row: nat, text: string, other: nat)
    requires IsReady(r)
    ensures IsReady(ReduceAll(r, Shows(row, text)))
    ensures CellOf(ReduceAll(r, Shows(row, text)), other) == if other == row then Some(Text(text)) else CellOf(r, other)
  {
    var changes := [Cell(row, text)];
    assert Shows(row, text)[..0] == [] && changes[..0] == [];
    assert ReduceAll(r, Shows(row, text)) == Reduce(r, ForGrid(Changes(changes)));
    ReduceKeepsWf(r, ForGrid(Changes(changes)));
    ChangesAreLastWriter(r.grid, changes, other, 0);
    FoldShaped(r.grid, changes);
  }

  function AfterLayout(): Reducer { ReduceAll(FRESH_REDUCER, LAYOUT) }

  lemma {:induction false} WaitingAt(marked: seq<bool>, i: nat)
    requires i < |marked| && !marked[i] && AllMarked(marked[..i])
    ensures Waiting(marked) == Some(i)
  {
    var n := |marked| - 1;
    if i == n {
      WaitingNone(marked[..n]);
    } else {
      assert marked[..n][..i] == marked[..i];
      WaitingAt(marked[..n], i);
    }
  }

  const BACK := [true, false, true]

  lemma BackWaits()
    ensures Waiting(BACK) == Some(1)
  {
    WaitingAt(BACK, 1);
  }

  /** Of three frames the second is not marked. */
  lemma ToldWithout(a: seq<Incoming>, b: seq<Incoming>, c: seq<Incoming>)
    ensures Told([a, b, c], BACK, 0) == a + c
  {
    var frames := [a, b, c];
    assert frames[..2][..1] == [a] && BACK[..2][..1] == [true] && [a][..0] == [];
    assert Told(frames[..2][..1], BACK[..2][..1], 0) == [] + a;
    assert Told(frames[..2], BACK[..2], 0) == a + [];
  }

  lemma HistoryOfThree(a: seq<Incoming>, b: seq<Incoming>, c: seq<Incoming>)
    ensures History([a, b, c]) == a + b + c
  {
    var frames := [a, b, c];
    assert frames[..2][..1] == [a] && [a][..0] == [];
    assert History(frames[..2][..1]) == [] + a;
    assert History(frames[..2]) == a + b;
  }

  /** The layout, then a row, then another. */
  lemma TwoWrites(row: nat, text: string, other: nat, otherText: string, at: nat)
    ensures CellOf(ReduceAll(FRESH_REDUCER, LAYOUT + Shows(row, text) + Shows(other, otherText)), at)
         == if at == other then Some(Text(otherText)) else if at == row then Some(Text(text)) else None
  {
    LayoutIsReady();
    ReduceAllSplit(FRESH_REDUCER, LAYOUT + Shows(row, text), Shows(other, otherText));
    ReduceAllSplit(FRESH_REDUCER, LAYOUT, Shows(row, text));
    ShowsOne(AfterLayout(), row, text, at);
    ShowsOne(ReduceAll(AfterLayout(), Shows(row, text)), other, otherText, at);
  }

  /** The three frames are there, and the second has raised after `left` messages. */
  lemma ToRaised(left: nat, row: int, save: bool) returns (run: seq<Session>, steps: seq<Step>)
    requires left <= 1
    ensures IsRun(run, steps)
    ensures steps == [GoLive, Take(LAYOUT, false), Raise(Shows(0, "x"), left), Take(Shows(row, "y"), save)]
    ensures run[4].frames == [LAYOUT, Shows(0, "x"), Shows(row, "y")] && run[4].marked == BACK
    ensures run[4].saved == if save then Some(Anchor(2, ReduceAll(ReduceAll(AfterLayout(), Shows(0, "x")[..left]), Shows(row, "y")))) else None
  {
    var s0 := NEW_SESSION_STATE;
    var s1 := Next(s0, GoLive);
    var s2 := Next(s1, Take(LAYOUT, false));
    assert s2.memory == Some(AfterLayout());
    var s3 := Next(s2, Raise(Shows(0, "x"), left));
    var s4 := Next(s3, Take(Shows(row, "y"), save));
    run := [s0, s1, s2, s3, s4];
    steps := [GoLive, Take(LAYOUT, false), Raise(Shows(0, "x"), left), Take(Shows(row, "y"), save)];
    assert Follows(run[0], steps[0], run[1]) && Follows(run[1], steps[1], run[2]) && Follows(run[2], steps[2], run[3]);
    assert Follows(run[3], steps[3], run[4]);
  }

  lemma Then(run: seq<Session>, steps: seq<Step>, step: Step) returns (more: seq<Session>)
    requires IsRun(run, steps) && Enabled(run[|steps|], step)
    ensures IsRun(more, steps + [step]) && more[|run|] == Next(run[|steps|], step)
  {
    more := run + [Next(run[|steps|], step)];
    var all := steps + [step];
    forall i | 0 <= i < |all| ensures Follows(more[i], all[i], more[i + 1]) {
      if i < |steps| { assert Follows(run[i], steps[i], run[i + 1]); }
    }
  }

  lemma SecondComesLast()
    ensures CellOf(ReduceAll(ReduceAll(FRESH_REDUCER, LAYOUT + Shows(0, "y")), Shows(0, "x")), 0) == Some(Text("x"))
    ensures CellOf(ReduceAll(FRESH_REDUCER, History([LAYOUT, Shows(0, "x"), Shows(0, "y")])), 0) == Some(Text("y"))
  {
    ReduceAllSplit(FRESH_REDUCER, LAYOUT + Shows(0, "y"), Shows(0, "x"));
    TwoWrites(0, "y", 0, "x", 0);
    HistoryOfThree(LAYOUT, Shows(0, "x"), Shows(0, "y"));
    TwoWrites(0, "x", 0, "y", 0);
  }

  lemma SecondComesBack(s: Session)
    requires s == Session([LAYOUT, Shows(0, "x"), Shows(0, "y")], BACK, None, None, false)
    ensures Enabled(s, Replay(false))
    ensures var t := Next(s, Replay(false));
            t.frames == s.frames && t.marked == [true, true, true] && CellOf(ReducerOf(t), 0) == Some(Text("x"))
  {
    BackWaits();
    ToldWithout(LAYOUT, Shows(0, "x"), Shows(0, "y"));
    SecondComesLast();
  }

  /** Frames 1 and 2 write one cell. Frame 1 raises, frame 2 does not; after a restart frame 1 is
      taken up again. All are marked, and the cell shows what frame 1 wrote. */
  lemma RaisedFrameComesLast() returns (run: seq<Session>, steps: seq<Step>)
    ensures IsRun(run, steps)
    ensures steps == [GoLive, Take(LAYOUT, false), Raise(Shows(0, "x"), 1), Take(Shows(0, "y"), false)] + [Restart] + [Replay(false)]
    ensures var s := run[6];
            && s.frames == [LAYOUT, Shows(0, "x"), Shows(0, "y")] && s.marked == [true, true, true]
            && CellOf(ReducerOf(s), 0) == Some(Text("x"))
            && CellOf(ReduceAll(FRESH_REDUCER, History(s.frames)), 0) == Some(Text("y"))
  {
    run, steps := ToRaised(1, 0, false);
    run := Then(run, steps, Restart);
    steps := steps + [Restart];
    SecondComesBack(run[5]);
    run := Then(run, steps, Replay(false));
    steps := steps + [Replay(false)];
    SecondComesLast();
  }

  lemma SecondIsForgotten()
    ensures CellOf(ReduceAll(ReduceAll(AfterLayout(), Shows(0, "x")[..0]), Shows(1, "y")), 0) == None
    ensures CellOf(ReduceAll(FRESH_REDUCER, History([LAYOUT, Shows(0, "x"), Shows(1, "y")])), 0) == Some(Text("x"))
  {
    LayoutIsReady();
    assert Shows(0, "x")[..0] == [];
    ShowsOne(AfterLayout(), 1, "y", 0);
    HistoryOfThree(LAYOUT, Shows(0, "x"), Shows(1, "y"));
    TwoWrites(0, "x", 1, "y", 0);
  }

  /** Frame 1 raises before it reaches the reducer, and frame 2 saves the reducer. Frame 1 is taken up
      again after a restart, marked, and saved with; the next restart restores the newer anchor,
      which does not know it. What it wrote is lost, although every frame is marked. */
  lemma RaisedFrameIsForgotten() returns (run: seq<Session>, steps: seq<Step>)
    ensures IsRun(run, steps)
    ensures steps == [GoLive, Take(LAYOUT, false), Raise(Shows(0, "x"), 0), Take(Shows(1, "y"), true)] + [Restart] + [Replay(true)] + [Restart]
    ensures var s := run[7];
            && s.frames == [LAYOUT, Shows(0, "x"), Shows(1, "y")] && s.marked == [true, true, true]
            && CellOf(ReducerOf(s), 0) == None
            && CellOf(ReduceAll(FRESH_REDUCER, History(s.frames)), 0) == Some(Text("x"))
  {
    run, steps := ToRaised(0, 1, true);
    run := Then(run, steps, Restart);
    steps := steps + [Restart];
    BackWaits();
    run := Then(run, steps, Replay(true));
    steps := steps + [Replay(true)];
    run := Then(run, steps, Restart);
    steps := steps + [Restart];
    SecondIsForgotten();
  }

  // ---------------------------------------------------------------- a frame on top of the history

  /** The saved reducer knows every frame up to its anchor, marked or not, and all after it are
      marked: an error before it came after the reducer was done with the frame. */
  ghost predicate KnowsAll(s: Session) {
    && |s.frames| == |s.marked| && s.saved.Some? && s.saved.value.at < |s.frames|
    && s.saved.value.reducer == ReduceAll(FRESH_REDUCER, History(s.frames[..s.saved.value.at + 1]))
    && MarkedFrom(s.marked, s.saved.value.at + 1)
  }

  lemma RestoredIsHistory(s: Session)
    requires KnowsAll(s) && s.memory.None?
    ensures ReducerOf(s) == ReduceAll(FRESH_REDUCER, History(s.frames))
  {
    var from := s.saved.value.at + 1;
    ToldIsHistory(s.frames, s.marked, from);
    ReduceAllSplit(FRESH_REDUCER, History(s.frames[..from]), Told(s.frames, s.marked, from));
  }

  /** Taken up again after a restart, such a frame is reduced on top of the whole history. */
  lemma BackOnTop(s: Session, i: nat)
    requires KnowsAll(s) && s.memory.None? && Enabled(s, Replay(false)) && Waiting(s.marked) == Some(i)
    ensures Next(s, Replay(false)).memory == Some(ReduceAll(ReduceAll(FRESH_REDUCER, History(s.frames)), s.frames[i]))
  {
    RestoredIsHistory(s);
  }

  ghost predicate StillShows(g: Grid, changes: seq<Change>) {
    forall row: nat, column: nat :: LastCell(changes, row, column).Some? ==> CellAt(g, row, column) == LastCell(changes, row, column)
  }

  lemma CellsAreRows(a: Grid, b: Grid)
    requires CellsShaped(a.rows) && CellsShaped(b.rows) && forall row: nat, column: nat :: CellAt(a, row, column) == CellAt(b, row, column)
    ensures SameRows(a.rows, b.rows)
  {
    forall row | row in a.rows ensures row in b.rows { HasACell(a, row); }
    forall row | row in b.rows ensures row in a.rows { HasACell(b, row); }
    forall row, column: nat | row in a.rows ensures Get(a.rows[row], column) == Get(b.rows[row], column) {
      assert CellAt(a, row, column) == CellAt(b, row, column);
    }
  }

  lemma HasACell(g: Grid, row: nat)
    requires row in g.rows && g.rows[row] != []
    ensures exists column: nat :: CellAt(g, row, column).Some?
  {
    var cells := g.rows[row];
    assert CellAt(g, row, cells[|cells| - 1].column).Some?;
  }

  /** Cell changes that are reduced again leave the grid as it is exactly when every cell they write
      still shows what they wrote in it last. */
  lemma SameAgainExactly(g: Grid, changes: seq<Change>)
    requires Wf(g) && g.Ready() && NotCells(changes) == []
    ensures Same(ApplyChanges(g, changes), g) <==> StillShows(g, changes)
  {
    var after := ApplyChanges(g, changes);
    FoldShaped(g, changes);
    FoldMetadata(g, changes);
    forall row: nat, column: nat
      ensures CellAt(after, row, column) == if LastCell(changes, row, column).Some? then LastCell(changes, row, column) else CellAt(g, row, column)
    {
      ChangesAreLastWriter(g, changes, row, column);
    }
    if StillShows(g, changes) {
      CellsAreRows(after, g);
    }
    if Same(after, g) {
      forall row: nat, column: nat | LastCell(changes, row, column).Some? ensures CellAt(g, row, column) == LastCell(changes, row, column) {
        assert CellAt(after, row, column) == CellAt(g, row, column);
      }
    }
  }

  /** So a frame of cell changes that comes back on top of the history does no harm exactly when no
      later frame has changed what it wrote. */
  lemma ComesBackExactly(s: Session, i: nat, changes: seq<Change>)
    requires KnowsAll(s) && s.memory.None? && Enabled(s, Replay(false)) && Waiting(s.marked) == Some(i)
    requires s.frames[i] == [ForGrid(Changes(changes))] && NotCells(changes) == []
    requires ReduceAll(FRESH_REDUCER, History(s.frames)).grid.Ready()
    ensures var told := ReduceAll(FRESH_REDUCER, History(s.frames));
            SameReducer(ReducerOf(Next(s, Replay(false))), told) <==> StillShows(told.grid, changes)
  {
    var told := ReduceAll(FRESH_REDUCER, History(s.frames));
    BackOnTop(s, i);
    FreshIsWf(History(s.frames));
    assert s.frames[i][..0] == [];
    assert ReduceAll(told, s.frames[i]) == Reduce(told, ForGrid(Changes(changes)));
    SameAgainExactly(told.grid, changes);
  }
}
