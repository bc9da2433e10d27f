/** One analysis session's raw evidence: frames, runtime checkpoints, the retention floor, and
    the worker that decodes, reduces and checkpoints them. Each step is one write transaction
    of the database, or the reducer's work between two of them. */
module RawIngest {
  import opened Common
  import opened ResultGrid
  import opened GridCheckpoint
  import opened GridOrder

  // ---------------------------------------------------------------- the reducer

  /** A decoded invocation. `HeatInit` is `h_i` with the provider's heat start, if it has one. */
  datatype Incoming = HeatInit(start: Option<int>) | ForGrid(message: Message) | Unrelated

  datatype Reducer = Reducer(grid: Grid, start: Option<int>)

  const FRESH_REDUCER := Reducer(EMPTY_GRID, None)

  function Reduce(r: Reducer, m: Incoming): Reducer {
    match m
    case HeatInit(start) =>
      if start.None? then r
      else if r.start.Some? && r.start != start then Reducer(EMPTY_GRID, start)
      else Reducer(r.grid, start)
    case ForGrid(message) => r.(grid := Apply(r.grid, message))
    case Unrelated => r
  }

  function ReduceAll(r: Reducer, ms: seq<Incoming>): Reducer {
    if ms == [] then r else Reduce(ReduceAll(r, ms[..|ms| - 1]), ms[|ms| - 1])
  }

  ghost predicate SameReducer(a: Reducer, b: Reducer) {
    a.start == b.start && Same(a.grid, b.grid)
  }

  /** No layout update depends on an order that a checkpoint forgets; `SafeMessageExactly` says
      which updates, on which cells, that leaves out. */
  ghost predicate Tidy(r: Reducer, ms: seq<Incoming>) {
    ms == [] || (
      var init, last := ms[..|ms| - 1], ms[|ms| - 1];
      Tidy(r, init) && (last.ForGrid? ==> SafeMessage(ReduceAll(r, init).grid, last.message)))
  }

  // ---------------------------------------------------------------- tables

  datatype Decode = Pending | Decoded(messages: seq<Incoming>) | Failed
  datatype Frame = Frame(decode: Decode, processed: bool, receivedAt: int)
  datatype Payload = Payload(grid: State, start: Option<int>)

  /** `valid`: hash, format and provenance checks pass. `anchor` is set to NULL when its frame goes. */
  datatype Checkpoint = Checkpoint(anchor: Option<nat>, valid: bool, payload: Payload)
  datatype Floor = Floor(through: nat, receivedThrough: int, checkpoint: nat)
  datatype Db = Db(frames: map<nat, Frame>, checkpoints: map<nat, Checkpoint>, floor: Option<Floor>)

  function Retained(frames: map<nat, Frame>): map<nat, Decode> {
    map id | id in frames :: frames[id].decode
  }

  function Processed(frames: map<nat, Frame>): map<nat, Decode> {
    map id | id in frames && frames[id].processed :: frames[id].decode
  }

  function MessagesAt(h: map<nat, Decode>, id: nat): seq<Incoming> {
    if id in h && h[id].Decoded? then h[id].messages else []
  }

  /** The decoded messages of the frames with ids in (after, upTo], in id order. */
  function Between(h: map<nat, Decode>, after: nat, upTo: nat): seq<Incoming> {
    if upTo <= after then [] else Between(h, after, upTo - 1) + MessagesAt(h, upTo)
  }

  // ---------------------------------------------------------------- restore

  /** A row `runtime_checkpoint_rows` returns: its anchor is retained, processed and above the floor. */
  predicate Offered(db: Db, c: nat) {
    && c in db.checkpoints
    && db.checkpoints[c].anchor.Some?
    && db.checkpoints[c].anchor.value in db.frames
    && db.frames[db.checkpoints[c].anchor.value].processed
    && (db.floor.Some? ==> db.checkpoints[c].anchor.value > db.floor.value.through)
  }

  function AnchorOf(db: Db, c: nat): nat
    requires c in db.checkpoints && db.checkpoints[c].anchor.Some?
  {
    db.checkpoints[c].anchor.value
  }

  /** The first offered row, newest anchor first, whose payload is accepted. */
  ghost predicate IsNewestValid(db: Db, choice: Option<nat>) {
    match choice
    case Some(c) =>
      && Offered(db, c) && db.checkpoints[c].valid
      && forall d :: Offered(db, d) && db.checkpoints[d].valid ==> AnchorOf(db, d) <= AnchorOf(db, c)
    case None =>
      forall d :: Offered(db, d) ==> !db.checkpoints[d].valid
  }

  function RestorePayload(p: Payload): Option<Reducer> {
    match Restore(p.grid)
    case Ok(grid) => Some(Reducer(grid, p.start))
    case Err(_) => None
  }

  /** `_prime`: restore a checkpoint and replay the processed tail, or replay everything when
      nothing was ever deleted, or refuse. `replay` is the rebuild's reducer, which looks at
      neither checkpoints nor floor. */
  function Prime(db: Db, top: nat, choice: Option<nat>, replay: bool): Option<Reducer> {
    if replay then Some(ReduceAll(FRESH_REDUCER, Between(Processed(db.frames), 0, top)))
    else if choice.Some? && choice.value in db.checkpoints && db.checkpoints[choice.value].anchor.Some? then
      var restored := RestorePayload(db.checkpoints[choice.value].payload);
      if restored.None? then None
      else Some(ReduceAll(restored.value, Between(Processed(db.frames), AnchorOf(db, choice.value), top)))
    else if db.floor.Some? then None
    else Some(ReduceAll(FRESH_REDUCER, Between(Processed(db.frames), 0, top)))
  }

  // ---------------------------------------------------------------- retention

  datatype Sweep = Sweep(db: Db, through: Option<nat>, receivedThrough: int)

  /** The guards of one DELETE: processed, old enough, and an anchored checkpoint strictly above. */
  predicate Deletable(db: Db, id: nat, before: int) {
    && id in db.frames
    && db.frames[id].processed
    && db.frames[id].receivedAt < before
    && exists c :: c in db.checkpoints && AnchorsAbove(db, c, id)
  }

  predicate AnchorsAbove(db: Db, c: nat, id: nat)
    requires c in db.checkpoints
  {
    var anchor := db.checkpoints[c].anchor;
    anchor.Some? && anchor.value in db.frames && db.frames[anchor.value].processed && anchor.value > id
  }

  /** Delete one frame; a checkpoint anchored there loses its anchor. */
  function DropFrame(db: Db, id: nat): Db {
    Db(map i | i in db.frames && i != id :: db.frames[i],
       map c | c in db.checkpoints ::
         if db.checkpoints[c].anchor == Some(id) then db.checkpoints[c].(anchor := None) else db.checkpoints[c],
       db.floor)
  }

  function MaxId(a: Option<nat>, b: nat): nat {
    if a.Some? && a.value > b then a.value else b
  }

  /** `allowed`: the session is stopped or aborted, and every heat has a playback snapshot. */
  function SweepOne(s: Sweep, id: nat, before: int, allowed: bool): Sweep {
    if !allowed || !Deletable(s.db, id, before) then s
    else
      var at := s.db.frames[id].receivedAt;
      Sweep(DropFrame(s.db, id), Some(MaxId(s.through, id)),
            if s.through.Some? && s.receivedThrough > at then s.receivedThrough else at)
  }

  function SweepFrames(db: Db, plan: seq<nat>, before: int, allowed: bool): Sweep {
    if plan == [] then Sweep(db, None, 0)
    else SweepOne(SweepFrames(db, plan[..|plan| - 1], before, allowed), plan[|plan| - 1], before, allowed)
  }

  /** The floor written after a sweep; an older floor that reaches further stays. */
  function RaisedFloor(previous: Option<Floor>, through: nat, receivedThrough: int, checkpoint: nat): Floor {
    if previous.Some? && previous.value.through >= through then previous.value
    else
      var received := if previous.Some? && previous.value.receivedThrough > receivedThrough
                      then previous.value.receivedThrough else receivedThrough;
      Floor(through, received, checkpoint)
  }

  /** `apply_retention` for the raw frames of one session; `None` rolls the transaction back.
      `choice` is the newest compatible checkpoint after the deletes. */
  function RetentionPass(db: Db, plan: seq<nat>, before: int, allowed: bool, choice: Option<nat>): Option<Db> {
    var swept := SweepFrames(db, plan, before, allowed);
    if swept.through.None? then Some(db)
    else if choice.None? || choice.value !in swept.db.checkpoints then None
    else
      var anchor := swept.db.checkpoints[choice.value].anchor;
      if anchor.None? || anchor.value <= swept.through.value then None
      else
        var floor := RaisedFloor(db.floor, swept.through.value, swept.receivedThrough, choice.value);
        Some(swept.db.(floor := Some(floor)))
  }

  // ---------------------------------------------------------------- rebuild

  /** `_session_plan`'s conditions on the recording itself. */
  predicate CanRebuild(db: Db, gaps: nat) {
    && db.floor.None?
    && (exists id :: id in db.frames && db.frames[id].decode.Decoded?)
    && (forall id :: id in db.frames ==> db.frames[id].decode.Decoded?)
    && gaps == 0
  }

  /** `_reset_derived_state`: the heats go, and their checkpoints with them; every decoded frame
      is work again. */
  function ResetDerived(db: Db): Db {
    Db(map id | id in db.frames :: db.frames[id].(processed := db.frames[id].processed && !db.frames[id].decode.Decoded?),
       map[], db.floor)
  }

  // ---------------------------------------------------------------- the worker and the world

  /** `undecoded`: persisted, not yet decoded. `ahead`: reduced and written, not yet marked. */
  datatype Worker =
    | Down
    | Alive(replay: bool, reducer: Option<Reducer>, undecoded: Option<nat>, ahead: Option<nat>)

  /** `history` is every frame ever stored, deleted or not; `top` the largest id ever used;
      decoded frames up to `done` are processed. The code stores none of these three. */
  datatype World = World(db: Db, active: bool, worker: Worker, history: map<nat, Decode>, top: nat, done: nat)

  datatype Step =
    | Start
    | Persist(id: nat, receivedAt: int)
    | DecodeFrame(id: nat, outcome: Decode)
    | Process(id: nat, choice: Option<nat>)
    | MarkEmpty(id: nat)
    | Mark(id: nat, checkpoint: Option<(nat, State)>)
    | Crash
    | SetActive(active: bool)
    | Retain(plan: seq<nat>, before: int, archived: bool, choice: Option<nat>)
    | Rebuild(gaps: nat)
    | Corrupt(row: nat)

  predicate Waiting(db: Db, id: nat) {
    id in db.frames && db.frames[id].decode.Decoded? && !db.frames[id].processed
  }

  /** The oldest decoded frame still to be processed. */
  predicate IsNext(db: Db, id: nat) {
    Waiting(db, id) && forall j :: j in db.frames && Waiting(db, j) ==> id <= j
  }

  function NewWorker(replay: bool): Worker { Alive(replay, None, None, None) }

  function MarkedFrames(db: Db, id: nat): map<nat, Frame>
    requires id in db.frames
  {
    db.frames[id := db.frames[id].(processed := true)]
  }

  function Persisted(w: World, id: nat, at: int): World
    requires w.worker.Alive?
  {
    World(Db(w.db.frames[id := Frame(Pending, false, at)], w.db.checkpoints, w.db.floor), w.active,
          w.worker.(undecoded := Some(id)), w.history[id := Pending], id, w.done)
  }

  function DecodedAs(w: World, id: nat, outcome: Decode): World
    requires w.worker.Alive? && id in w.db.frames
  {
    var frame := Frame(outcome, outcome.Failed?, w.db.frames[id].receivedAt);
    World(Db(w.db.frames[id := frame], w.db.checkpoints, w.db.floor), w.active,
          w.worker.(undecoded := None), w.history[id := outcome], w.top, w.done)
  }

  /** Mark a frame processed and save the given checkpoints in the same transaction. */
  function Marked(w: World, id: nat, checkpoints: map<nat, Checkpoint>): World
    requires w.worker.Alive? && id in w.db.frames
  {
    World(Db(MarkedFrames(w.db, id), checkpoints, w.db.floor), w.active, w.worker.(ahead := None), w.history, w.top, id)
  }

  /** The reducer used for a frame: the one in memory, or a primed one. */
  function ReducerFor(w: World, choice: Option<nat>): Option<Reducer>
    requires w.worker.Alive?
  {
    if w.worker.reducer.Some? then w.worker.reducer else Prime(w.db, w.top, choice, w.worker.replay)
  }

  ghost predicate CanPersist(w: World, id: nat) {
    && w.worker.Alive? && !w.worker.replay && w.worker.ahead.None? && w.worker.undecoded.None?
    && (forall j :: j in w.db.frames ==> !Waiting(w.db, j))
    && 0 < id && (forall j :: j in w.db.frames ==> j < id)
  }

  /** The worker stands between two frames and `id` is the one to take. */
  ghost predicate CanTake(w: World, id: nat) {
    w.worker.Alive? && w.worker.undecoded.None? && w.worker.ahead.None? && IsNext(w.db, id)
  }

  ghost predicate Enabled(w: World, s: Step) {
    match s
    case Start => w.worker.Down? && w.active
    case Persist(id, _) => CanPersist(w, id)
    case DecodeFrame(id, outcome) =>
      && w.worker.Alive? && w.worker.undecoded == Some(id) && id in w.db.frames && !outcome.Pending?
      && Tidy(FRESH_REDUCER, Between(w.history[id := outcome], 0, id))
    case Process(id, choice) =>
      && CanTake(w, id) && w.db.frames[id].decode.messages != []
      && (w.worker.reducer.None? ==> IsNewestValid(w.db, choice))
    case MarkEmpty(id) => CanTake(w, id) && w.db.frames[id].decode.messages == []
    case Mark(id, checkpoint) =>
      && w.worker.Alive? && w.worker.ahead == Some(id) && id in w.db.frames && w.worker.reducer.Some?
      && (checkpoint.Some? ==> !w.worker.replay && checkpoint.value.0 !in w.db.checkpoints
                               && Describes(checkpoint.value.1, w.worker.reducer.value.grid))
    case Crash => w.worker.Alive?
    case SetActive(_) => true
    case Retain(plan, before, archived, choice) =>
      IsNewestValid(SweepFrames(w.db, plan, before, !w.active && archived).db, choice)
    case Rebuild(gaps) => !w.active && w.worker.Down? && CanRebuild(w.db, gaps)
    case Corrupt(c) => c in w.db.checkpoints
  }

  ghost function Next(w: World, s: Step): World
    requires Enabled(w, s)
  {
    match s
    case Start => w.(worker := NewWorker(false))
    case Persist(id, at) => Persisted(w, id, at)
    case DecodeFrame(id, outcome) => DecodedAs(w, id, outcome)
    case Process(id, choice) =>
      var reducer := ReducerFor(w, choice);
      if reducer.None? then w.(worker := Down)
      else w.(worker := w.worker.(reducer := Some(ReduceAll(reducer.value, w.db.frames[id].decode.messages)), ahead := Some(id)))
    case MarkEmpty(id) => Marked(w, id, w.db.checkpoints)
    case Mark(id, checkpoint) =>
      if checkpoint.None? then Marked(w, id, w.db.checkpoints)
      else
        var payload := Payload(checkpoint.value.1, w.worker.reducer.value.start);
        Marked(w, id, w.db.checkpoints[checkpoint.value.0 := Checkpoint(Some(id), true, payload)])
    case Crash => w.(worker := Down)
    case SetActive(active) => w.(active := active)
    case Retain(plan, before, archived, choice) =>
      var after := RetentionPass(w.db, plan, before, !w.active && archived, choice);
      if after.None? then w else w.(db := after.value)
    case Rebuild(_) => w.(db := ResetDerived(w.db), worker := NewWorker(true), done := 0)
    case Corrupt(c) => w.(db := w.db.(checkpoints := w.db.checkpoints[c := w.db.checkpoints[c].(valid := false)]))
  }

  const NEW_SESSION := World(Db(map[], map[], None), true, Down, map[], 0, 0)

  /** The worlds a session passes through. */
  ghost predicate IsRun(run: seq<World>, steps: seq<Step>) {
    && |run| == |steps| + 1
    && run[0] == NEW_SESSION
    && forall i :: 0 <= i < |steps| ==> Enabled(run[i], steps[i]) && run[i + 1] == Next(run[i], steps[i])
  }
}
