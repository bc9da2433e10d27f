/** What every run of one session keeps: a restart rebuilds the reducer the whole history
    gives, whatever retention has deleted. */
module IngestSafety {
  import opened Common
  import opened ResultGrid
  import opened GridCheckpoint
  import opened GridOrder
  import opened RawIngest

  // ---------------------------------------------------------------- folding messages

  lemma {:induction false} ReduceAllSplit(r: Reducer, x: seq<Incoming>, y: seq<Incoming>)
    ensures ReduceAll(r, x + y) == ReduceAll(ReduceAll(r, x), y)
  {
    if y == [] {
      assert x + y == x;
    } else {
      ReduceAllSplit(r, x, y[..|y| - 1]);
      assert (x + y)[..|x + y| - 1] == x + y[..|y| - 1];
    }
  }

  lemma {:induction false} TidySplit(r: Reducer, x: seq<Incoming>, y: seq<Incoming>)
    ensures Tidy(r, x + y) <==> Tidy(r, x) && Tidy(ReduceAll(r, x), y)
  {
    if y == [] {
      assert x + y == x;
    } else {
      TidySplit(r, x, y[..|y| - 1]);
      ReduceAllSplit(r, x, y[..|y| - 1]);
      assert (x + y)[..|x + y| - 1] == x + y[..|y| - 1];
    }
  }

  lemma ReduceKeepsWf(r: Reducer, m: Incoming)
    requires Wf(r.grid)
    ensures Wf(Reduce(r, m).grid)
  {
    if m.ForGrid? {
      ApplyKeepsWf(r.grid, m.message);
    }
  }

  /** Reducers that differ only in dict order stay so over tidy messages. */
  lemma {:induction false} ReduceAllSame(a: Reducer, b: Reducer, ms: seq<Incoming>)
    requires Wf(a.grid) && Wf(b.grid) && SameReducer(a, b) && Tidy(a, ms)
    ensures SameReducer(ReduceAll(a, ms), ReduceAll(b, ms))
    ensures Wf(ReduceAll(a, ms).grid) && Wf(ReduceAll(b, ms).grid)
  {
    if ms != [] {
      var init, last := ms[..|ms| - 1], ms[|ms| - 1];
      ReduceAllSame(a, b, init);
      var x, y := ReduceAll(a, init), ReduceAll(b, init);
      ReduceKeepsWf(x, last);
      ReduceKeepsWf(y, last);
      if last.ForGrid? {
        ApplyRespectsSame(x.grid, y.grid, last.message);
      }
    }
  }

  lemma {:induction false} FreshIsWf(ms: seq<Incoming>)
    ensures Wf(ReduceAll(FRESH_REDUCER, ms).grid)
  {
    if ms != [] {
      FreshIsWf(ms[..|ms| - 1]);
      ReduceKeepsWf(ReduceAll(FRESH_REDUCER, ms[..|ms| - 1]), ms[|ms| - 1]);
    }
  }

  // ---------------------------------------------------------------- ranges of frames

  lemma {:induction false} BetweenSplit(h: map<nat, Decode>, a: nat, b: nat, c: nat)
    requires a <= b <= c
    ensures Between(h, a, c) == Between(h, a, b) + Between(h, b, c)
    decreases c
  {
    if c > b {
      BetweenSplit(h, a, b, c - 1);
    }
  }

  ghost predicate Agree(h: map<nat, Decode>, g: map<nat, Decode>, a: nat, n: nat) {
    forall id: nat :: a < id <= n ==> MessagesAt(h, id) == MessagesAt(g, id)
  }

  lemma {:induction false} BetweenAgree(h: map<nat, Decode>, g: map<nat, Decode>, a: nat, n: nat)
    requires Agree(h, g, a, n)
    ensures Between(h, a, n) == Between(g, a, n)
    decreases n
  {
    if n > a {
      BetweenAgree(h, g, a, n - 1);
    }
  }

  lemma {:induction false} BetweenQuiet(h: map<nat, Decode>, a: nat, n: nat)
    requires forall id: nat :: a < id <= n ==> MessagesAt(h, id) == []
    ensures Between(h, a, n) == []
    decreases n
  {
    if n > a {
      BetweenQuiet(h, a, n - 1);
    }
  }

  /** The reducer every frame up to `n` gives. */
  function Past(h: map<nat, Decode>, n: nat): Reducer {
    ReduceAll(FRESH_REDUCER, Between(h, 0, n))
  }

  lemma PastSplit(h: map<nat, Decode>, a: nat, n: nat)
    requires a <= n
    ensures Past(h, n) == ReduceAll(Past(h, a), Between(h, a, n))
  {
    BetweenSplit(h, 0, a, n);
    ReduceAllSplit(FRESH_REDUCER, Between(h, 0, a), Between(h, a, n));
  }

  lemma TidyTail(h: map<nat, Decode>, a: nat, n: nat, top: nat)
    requires a <= n <= top && Tidy(FRESH_REDUCER, Between(h, 0, top))
    ensures Tidy(Past(h, a), Between(h, a, n)) && Tidy(FRESH_REDUCER, Between(h, 0, n))
  {
    BetweenSplit(h, 0, n, top);
    TidySplit(FRESH_REDUCER, Between(h, 0, n), Between(h, n, top));
    BetweenSplit(h, 0, a, n);
    TidySplit(FRESH_REDUCER, Between(h, 0, a), Between(h, a, n));
  }

  // ---------------------------------------------------------------- the invariant

  ghost predicate Ids(w: World) {
    && w.done <= w.top
    && (w.top == 0 || w.top in w.history)
    && (w.done == 0 || (w.done in w.history && w.history[w.done].Decoded?))
    && (forall id :: id in w.history ==> 0 < id <= w.top)
    && (forall id :: id in w.db.frames ==> id in w.history && w.db.frames[id].decode == w.history[id])
  }

  /** Every frame that is gone is at or below the floor. */
  ghost predicate FloorCovers(w: World) {
    forall id :: id in w.history && id !in w.db.frames ==> w.db.floor.Some? && id <= w.db.floor.value.through
  }

  /** The floor's checkpoint anchors a retained, processed frame strictly above the floor. */
  ghost predicate FloorAnchored(db: Db) {
    db.floor.Some? ==> db.floor.value.checkpoint in db.checkpoints && AnchorsAbove(db, db.floor.value.checkpoint, db.floor.value.through)
  }

  ghost predicate Marks(w: World) {
    forall id :: id in w.db.frames ==>
      match w.db.frames[id].decode
      case Decoded(_) => w.db.frames[id].processed <==> id <= w.done
      case Failed => w.db.frames[id].processed
      case Pending => !w.db.frames[id].processed
  }

  /** The payload is a document of the reducer that the frames up to `a` give. */
  ghost predicate Faithful(p: Payload, h: map<nat, Decode>, a: nat) {
    exists g :: Wf(g) && Describes(p.grid, g) && SameReducer(Past(h, a), Reducer(g, p.start))
  }

  ghost predicate SavedRow(w: World, c: nat)
    requires c in w.db.checkpoints
  {
    var row := w.db.checkpoints[c];
    row.anchor.Some? ==>
      && row.anchor.value in w.db.frames
      && w.db.frames[row.anchor.value].decode.Decoded?
      && row.anchor.value <= w.done
      && (row.valid ==> Faithful(row.payload, w.history, row.anchor.value))
  }

  ghost predicate Saved(w: World) {
    forall c :: c in w.db.checkpoints ==> SavedRow(w, c)
  }

  ghost predicate ReducerCurrent(r: Reducer, h: map<nat, Decode>, n: nat) {
    Wf(r.grid) && SameReducer(Past(h, n), r)
  }

  ghost predicate WorkerOk(w: World) {
    w.worker.Alive? ==>
      && (w.worker.replay ==> w.db.checkpoints == map[] && w.db.floor.None?)
      && (w.worker.undecoded.Some? ==>
            && w.worker.undecoded.value == w.top && w.top in w.db.frames && w.top in w.history && w.history[w.top].Pending?
            && w.worker.ahead.None? && forall j :: j in w.db.frames ==> !Waiting(w.db, j))
      && (w.worker.ahead.Some? ==> w.worker.reducer.Some? && IsNext(w.db, w.worker.ahead.value))
      && (w.worker.reducer.Some? ==>
            ReducerCurrent(w.worker.reducer.value, w.history,
                           if w.worker.ahead.Some? then w.worker.ahead.value else w.done))
  }

  ghost predicate Tables(w: World) {
    Ids(w) && FloorCovers(w) && FloorAnchored(w.db) && Marks(w)
  }

  ghost predicate Inv(w: World) {
    && Tables(w) && Saved(w) && WorkerOk(w)
    && Tidy(FRESH_REDUCER, Between(w.history, 0, w.top))
  }

  // ---------------------------------------------------------------- restore equals history

  lemma RestoredPayload(p: Payload, h: map<nat, Decode>, a: nat)
    requires Faithful(p, h, a)
    ensures RestorePayload(p).Some? && ReducerCurrent(RestorePayload(p).value, h, a)
  {
    var g :| Wf(g) && Describes(p.grid, g) && SameReducer(Past(h, a), Reducer(g, p.start));
    CheckpointRoundTrip(g, p.grid);
  }

  /** Whatever has happened before, and whichever offered row is taken: restoring it and
      replaying the frames still stored above its anchor shows what every decoded frame ever
      stored shows, up to any frame. */
  lemma RestoreEqualsHistory(w: World, c: nat, n: nat)
    requires Inv(w) && Offered(w.db, c) && w.db.checkpoints[c].valid && AnchorOf(w.db, c) <= n <= w.top
    ensures RestorePayload(w.db.checkpoints[c].payload).Some?
    ensures ReducerCurrent(ReduceAll(RestorePayload(w.db.checkpoints[c].payload).value, Between(Retained(w.db.frames), AnchorOf(w.db, c), n)), w.history, n)
  {
    var a := AnchorOf(w.db, c);
    assert SavedRow(w, c);
    RestoredPayload(w.db.checkpoints[c].payload, w.history, a);
    var r := RestorePayload(w.db.checkpoints[c].payload).value;
    assert Agree(Retained(w.db.frames), w.history, a, n);
    BetweenAgree(Retained(w.db.frames), w.history, a, n);
    TidyTail(w.history, a, n, w.top);
    FreshIsWf(Between(w.history, 0, a));
    ReduceAllSame(Past(w.history, a), r, Between(w.history, a, n));
    PastSplit(w.history, a, n);
  }

  lemma ProcessedTail(w: World, a: nat)
    requires Inv(w) && a <= w.done && (w.db.floor.Some? ==> a >= w.db.floor.value.through)
    ensures Between(Processed(w.db.frames), a, w.top) == Between(Retained(w.db.frames), a, w.done)
    ensures Between(Processed(w.db.frames), a, w.top) == Between(w.history, a, w.done)
  {
    var processed, retained := Processed(w.db.frames), Retained(w.db.frames);
    BetweenSplit(processed, a, w.done, w.top);
    BetweenQuiet(processed, w.done, w.top);
    assert Agree(processed, retained, a, w.done);
    BetweenAgree(processed, retained, a, w.done);
    assert Agree(retained, w.history, a, w.done);
    BetweenAgree(retained, w.history, a, w.done);
  }

  /** A worker that restarts, or a rebuild that starts over, gets the reducer of everything
      processed so far; it refuses exactly when frames are gone and no offered row is valid. */
  lemma PrimeIsCurrent(w: World, choice: Option<nat>, replay: bool)
    requires Inv(w) && IsNewestValid(w.db, choice) && (replay ==> w.db.floor.None?)
    ensures Prime(w.db, w.top, choice, replay).None? <==> !replay && choice.None? && w.db.floor.Some?
    ensures Prime(w.db, w.top, choice, replay).Some? ==> ReducerCurrent(Prime(w.db, w.top, choice, replay).value, w.history, w.done)
  {
    if !replay && choice.Some? {
      assert SavedRow(w, choice.value);
      RestoreEqualsHistory(w, choice.value, w.done);
      ProcessedTail(w, AnchorOf(w.db, choice.value));
    } else if w.db.floor.None? {
      ProcessedTail(w, 0);
      FreshIsWf(Between(w.history, 0, w.done));
    }
  }

  // ---------------------------------------------------------------- steps keep the invariant

  /** A change of the history above `n` does not change what the frames up to `n` give. */
  lemma PastUnchanged(h: map<nat, Decode>, g: map<nat, Decode>, n: nat)
    requires Agree(h, g, 0, n)
    ensures Past(h, n) == Past(g, n)
  {
    BetweenAgree(h, g, 0, n);
  }

  /** Row `c` is the same checkpoint, or one that has lost its anchor or its validity. */
  ghost predicate NoNewRow(w: World, v: World, c: nat)
    requires c in v.db.checkpoints
  {
    && c in w.db.checkpoints
    && var before, after := w.db.checkpoints[c], v.db.checkpoints[c];
       after.anchor.Some? ==>
         && after.anchor == before.anchor && after.payload == before.payload && (after.valid ==> before.valid)
         && (after.anchor.value in w.db.frames && w.db.frames[after.anchor.value].decode.Decoded? ==>
               after.anchor.value in v.db.frames && v.db.frames[after.anchor.value].decode.Decoded?)
  }

  lemma RowKept(w: World, v: World, c: nat)
    requires c in v.db.checkpoints && NoNewRow(w, v, c) && SavedRow(w, c)
    requires w.done <= v.done && Agree(w.history, v.history, 0, w.done)
    ensures SavedRow(v, c)
  {
    var row := v.db.checkpoints[c];
    if row.anchor.Some? && row.valid {
      PastUnchanged(w.history, v.history, row.anchor.value);
    }
  }

  lemma RowsKept(w: World, v: World)
    requires Saved(w) && w.done <= v.done && Agree(w.history, v.history, 0, w.done)
    requires forall c :: c in v.db.checkpoints ==> NoNewRow(w, v, c)
    ensures Saved(v)
  {
    forall c | c in v.db.checkpoints ensures SavedRow(v, c) {
      assert NoNewRow(w, v, c) && SavedRow(w, c);
      RowKept(w, v, c);
    }
  }

  /** New ids are never reused, although the table is not AUTOINCREMENT: retention leaves an
      anchor above everything it deletes. */
  lemma FreshIdsAreNew(w: World, id: nat)
    requires Tables(w) && 0 < id && forall j :: j in w.db.frames ==> j < id
    ensures id !in w.history && w.top < id
    ensures forall j :: j in w.history ==> j < id
  {
    forall j | j in w.history ensures j < id {
      if j !in w.db.frames {
        assert AnchorsAbove(w.db, w.db.floor.value.checkpoint, w.db.floor.value.through);
      }
    }
  }

  lemma PersistTables(w: World, id: nat, at: int)
    requires Tables(w) && CanPersist(w, id)
    ensures Tables(Persisted(w, id, at))
  {
    FreshIdsAreNew(w, id);
  }

  /** A new, still undecoded frame adds no messages. */
  lemma ExtendQuietly(h: map<nat, Decode>, top: nat, id: nat)
    requires top < id && forall j :: j in h ==> j <= top
    ensures Between(h[id := Pending], 0, id) == Between(h, 0, top)
  {
    var g := h[id := Pending];
    assert Agree(h, g, 0, top);
    BetweenAgree(h, g, 0, top);
    BetweenSplit(g, 0, top, id);
    BetweenQuiet(g, top, id);
  }

  lemma PersistKeeps(w: World, id: nat, at: int)
    requires Inv(w) && CanPersist(w, id)
    ensures Inv(Persisted(w, id, at))
  {
    var v := Persisted(w, id, at);
    PersistTables(w, id, at);
    FreshIdsAreNew(w, id);
    ExtendQuietly(w.history, w.top, id);
    assert Agree(w.history, v.history, 0, w.done);
    RowsKept(w, v);
    PastUnchanged(w.history, v.history, w.done);
  }

  lemma DecodeTables(w: World, id: nat, outcome: Decode)
    requires Tables(w) && w.worker.Alive? && id in w.db.frames && id == w.top && w.history[id].Pending? && !outcome.Pending?
    ensures Tables(DecodedAs(w, id, outcome)) && w.done < id
  {
  }

  lemma DecodeKeeps(w: World, id: nat, outcome: Decode)
    requires Inv(w) && Enabled(w, DecodeFrame(id, outcome))
    ensures Inv(DecodedAs(w, id, outcome))
  {
    var v := DecodedAs(w, id, outcome);
    DecodeTables(w, id, outcome);
    assert Agree(w.history, v.history, 0, w.done);
    RowsKept(w, v);
    PastUnchanged(w.history, v.history, w.done);
  }

  lemma FloorBelowDone(w: World)
    requires Tables(w) && Saved(w)
    ensures w.db.floor.Some? ==> w.db.floor.value.through < w.done
  {
    assert w.db.floor.Some? ==> SavedRow(w, w.db.floor.value.checkpoint);
  }

  /** Between the last processed frame and the next one to process there are no messages. */
  lemma NextIsAdjacent(w: World, id: nat)
    requires Tables(w) && Saved(w) && IsNext(w.db, id)
    ensures w.done < id <= w.top
    ensures Between(w.history, w.done, id) == w.db.frames[id].decode.messages
  {
    FloorBelowDone(w);
    assert forall j :: j in w.history && w.done < j ==> j in w.db.frames;
    assert forall j :: j in w.db.frames && w.done < j && w.db.frames[j].decode.Decoded? ==> Waiting(w.db, j);
    BetweenQuiet(w.history, w.done, id - 1);
  }

  lemma ReduceNext(w: World, r: Reducer, id: nat)
    requires Inv(w) && IsNext(w.db, id) && ReducerCurrent(r, w.history, w.done)
    ensures ReducerCurrent(ReduceAll(r, w.db.frames[id].decode.messages), w.history, id)
  {
    NextIsAdjacent(w, id);
    TidyTail(w.history, w.done, id, w.top);
    PastSplit(w.history, w.done, id);
    FreshIsWf(Between(w.history, 0, w.done));
    ReduceAllSame(Past(w.history, w.done), r, w.db.frames[id].decode.messages);
  }

  lemma ReducerForIsCurrent(w: World, id: nat, choice: Option<nat>)
    requires Inv(w) && CanTake(w, id)
    requires w.worker.reducer.None? ==> IsNewestValid(w.db, choice)
    ensures ReducerFor(w, choice).Some? ==> ReducerCurrent(ReducerFor(w, choice).value, w.history, w.done)
  {
    if w.worker.reducer.None? {
      PrimeIsCurrent(w, choice, w.worker.replay);
    }
  }

  lemma AheadKeeps(w: World, id: nat, r: Reducer)
    requires Inv(w) && CanTake(w, id) && ReducerCurrent(r, w.history, id)
    ensures Inv(w.(worker := w.worker.(reducer := Some(r), ahead := Some(id))))
  {
    var v := w.(worker := w.worker.(reducer := Some(r), ahead := Some(id)));
    RowsKept(w, v);
  }

  lemma ProcessKeeps(w: World, id: nat, choice: Option<nat>)
    requires Inv(w) && Enabled(w, Process(id, choice))
    ensures Inv(Next(w, Process(id, choice)))
  {
    ReducerForIsCurrent(w, id, choice);
    if ReducerFor(w, choice).Some? {
      ReduceNext(w, ReducerFor(w, choice).value, id);
      AheadKeeps(w, id, ReduceAll(ReducerFor(w, choice).value, w.db.frames[id].decode.messages));
    } else {
      DownKeeps(w);
    }
  }

  lemma DownKeeps(w: World)
    requires Inv(w)
    ensures Inv(w.(worker := Down))
  {
    RowsKept(w, w.(worker := Down));
  }

  lemma MarkTables(w: World, id: nat, checkpoints: map<nat, Checkpoint>)
    requires Tables(w) && w.worker.Alive? && IsNext(w.db, id) && w.done < id
    requires forall c :: c in w.db.checkpoints ==> c in checkpoints && checkpoints[c] == w.db.checkpoints[c]
    ensures Tables(Marked(w, id, checkpoints))
  {
    assert forall j :: j in w.db.frames && j < id && w.db.frames[j].decode.Decoded? ==> !Waiting(w.db, j);
  }

  /** A frame reduced from the current state may be marked; so may one without messages. */
  lemma MarkKeeps(w: World, id: nat)
    requires Inv(w) && w.worker.Alive? && w.worker.undecoded.None? && IsNext(w.db, id)
    requires w.worker.ahead == Some(id) || (w.worker.ahead.None? && w.db.frames[id].decode.messages == [])
    ensures Inv(Marked(w, id, w.db.checkpoints))
  {
    var v := Marked(w, id, w.db.checkpoints);
    NextIsAdjacent(w, id);
    MarkTables(w, id, w.db.checkpoints);
    RowsKept(w, v);
    if w.worker.ahead.None? {
      BetweenSplit(w.history, 0, w.done, id);
      assert Between(w.history, 0, id) == Between(w.history, 0, w.done);
    }
  }

  lemma CheckpointKeeps(w: World, id: nat, c: nat, doc: State)
    requires Inv(w) && w.worker.Alive? && w.worker.ahead == Some(id) && !w.worker.replay && c !in w.db.checkpoints
    requires Describes(doc, w.worker.reducer.value.grid)
    ensures Inv(Marked(w, id, w.db.checkpoints[c := Checkpoint(Some(id), true, Payload(doc, w.worker.reducer.value.start))]))
  {
    var payload := Payload(doc, w.worker.reducer.value.start);
    var rows := w.db.checkpoints[c := Checkpoint(Some(id), true, payload)];
    var plain, v := Marked(w, id, w.db.checkpoints), Marked(w, id, rows);
    MarkKeeps(w, id);
    NextIsAdjacent(w, id);
    MarkTables(w, id, rows);
    FaithfulNow(payload, w.worker.reducer.value, w.history, id);
    forall d | d in rows ensures SavedRow(v, d) {
      if d != c {
        assert SavedRow(plain, d);
      }
    }
  }

  lemma FaithfulNow(p: Payload, r: Reducer, h: map<nat, Decode>, a: nat)
    requires ReducerCurrent(r, h, a) && Describes(p.grid, r.grid) && p.start == r.start
    ensures Faithful(p, h, a)
  {
    assert Reducer(r.grid, p.start) == r;
  }

  // ---------------------------------------------------------------- retention

  /** What a sweep has done so far. */
  ghost predicate Swept(db: Db, s: Sweep) {
    && s.db.floor == db.floor
    && (forall id :: id in s.db.frames ==> id in db.frames && s.db.frames[id] == db.frames[id])
    && (forall id :: id in db.frames && id !in s.db.frames ==> db.frames[id].processed && s.through.Some? && id <= s.through.value)
    && (s.through.Some? ==> s.through.value in db.frames && s.through.value !in s.db.frames)
    && s.db.checkpoints.Keys == db.checkpoints.Keys
    && (forall c :: c in db.checkpoints ==> SweptRow(db, s.db, c))
  }

  /** A row keeps its payload, and its anchor exactly while the anchor's frame is stored. */
  ghost predicate SweptRow(db: Db, after: Db, c: nat)
    requires c in db.checkpoints && c in after.checkpoints
  {
    var a, b := db.checkpoints[c], after.checkpoints[c];
    && b.valid == a.valid && b.payload == a.payload
    && b.anchor == if a.anchor.Some? && a.anchor.value in db.frames && a.anchor.value !in after.frames then None else a.anchor
  }

  lemma {:induction false} SweepDoes(db: Db, plan: seq<nat>, before: int, allowed: bool)
    ensures Swept(db, SweepFrames(db, plan, before, allowed))
  {
    if plan != [] {
      var s, id := SweepFrames(db, plan[..|plan| - 1], before, allowed), plan[|plan| - 1];
      SweepDoes(db, plan[..|plan| - 1], before, allowed);
      if allowed && Deletable(s.db, id, before) {
        var t := SweepOne(s, id, before, allowed);
        forall c | c in db.checkpoints ensures SweptRow(db, t.db, c) {
          assert SweptRow(db, s.db, c);
        }
      }
    }
  }

  lemma SweepNothing(db: Db, plan: seq<nat>, before: int, allowed: bool)
    requires db.checkpoints == map[]
    ensures SweepFrames(db, plan, before, allowed) == Sweep(db, None, 0)
  {
    if plan != [] {
      SweepNothing(db, plan[..|plan| - 1], before, allowed);
    }
  }

  /** A pass that deletes keeps the floor's promise: everything gone is at or below it, and its
      checkpoint stands strictly above. */
  lemma RetainTables(w: World, plan: seq<nat>, before: int, allowed: bool, choice: Option<nat>)
    requires Tables(w) && IsNewestValid(SweepFrames(w.db, plan, before, allowed).db, choice)
    ensures RetentionPass(w.db, plan, before, allowed, choice).Some? ==> Tables(w.(db := RetentionPass(w.db, plan, before, allowed, choice).value))
  {
    SweepDoes(w.db, plan, before, allowed);
    var swept := SweepFrames(w.db, plan, before, allowed);
    var after := RetentionPass(w.db, plan, before, allowed, choice);
    if after.Some? && swept.through.Some? && w.db.floor.Some? && w.db.floor.value.through >= swept.through.value {
      var c := w.db.floor.value.checkpoint;
      assert SweptRow(w.db, swept.db, c);
    }
  }

  lemma RetainRows(w: World, plan: seq<nat>, before: int, allowed: bool, choice: Option<nat>)
    requires Saved(w) && RetentionPass(w.db, plan, before, allowed, choice).Some?
    ensures Saved(w.(db := RetentionPass(w.db, plan, before, allowed, choice).value))
  {
    SweepDoes(w.db, plan, before, allowed);
    var v := w.(db := RetentionPass(w.db, plan, before, allowed, choice).value);
    forall c | c in v.db.checkpoints ensures NoNewRow(w, v, c) {
      assert SavedRow(w, c) && SweptRow(w.db, SweepFrames(w.db, plan, before, allowed).db, c);
    }
    RowsKept(w, v);
  }

  lemma RetainKeeps(w: World, plan: seq<nat>, before: int, archived: bool, choice: Option<nat>)
    requires Inv(w) && Enabled(w, Retain(plan, before, archived, choice))
    ensures Inv(Next(w, Retain(plan, before, archived, choice)))
  {
    var allowed := !w.active && archived;
    var after := RetentionPass(w.db, plan, before, allowed, choice);
    RetainTables(w, plan, before, allowed, choice);
    SweepDoes(w.db, plan, before, allowed);
    if w.worker.Alive? && w.worker.replay {
      SweepNothing(w.db, plan, before, allowed);
    }
    if after.Some? {
      RetainRows(w, plan, before, allowed, choice);
      WaitingStays(w.db, after.value);
    }
  }

  /** Frames still to be processed are never deleted. */
  lemma WaitingStays(db: Db, after: Db)
    requires forall id :: id in after.frames ==> id in db.frames && after.frames[id] == db.frames[id]
    requires forall id :: id in db.frames && id !in after.frames ==> db.frames[id].processed
    ensures forall id :: Waiting(after, id) <==> Waiting(db, id)
    ensures forall id :: IsNext(db, id) ==> IsNext(after, id)
  {
  }

  /** A pass rolls back exactly when it deleted a frame and no valid checkpoint is left
      strictly above everything it deleted; otherwise it keeps every frame it may not delete. */
  lemma PassRollsBackExactly(db: Db, plan: seq<nat>, before: int, allowed: bool, choice: Option<nat>)
    requires IsNewestValid(SweepFrames(db, plan, before, allowed).db, choice)
    ensures RetentionPass(db, plan, before, allowed, choice).None? <==>
      SweepFrames(db, plan, before, allowed).through.Some?
      && !exists c :: Offered(SweepFrames(db, plan, before, allowed).db, c) && SweepFrames(db, plan, before, allowed).db.checkpoints[c].valid
                      && AnchorOf(SweepFrames(db, plan, before, allowed).db, c) > SweepFrames(db, plan, before, allowed).through.value
  {
  }

  // ---------------------------------------------------------------- rebuild and the rest

  /** A rebuild that is let through still has every frame ever stored. */
  lemma RebuildReplaysEverything(w: World, gaps: nat)
    requires Inv(w) && CanRebuild(w.db, gaps)
    ensures Retained(ResetDerived(w.db).frames) == w.history
  {
  }

  lemma RebuildKeeps(w: World, gaps: nat)
    requires Inv(w) && Enabled(w, Rebuild(gaps))
    ensures Inv(Next(w, Rebuild(gaps)))
  {
  }

  lemma CorruptKeeps(w: World, c: nat)
    requires Inv(w) && c in w.db.checkpoints
    ensures Inv(Next(w, Corrupt(c)))
  {
    var v := Next(w, Corrupt(c));
    assert Tables(v);
    RowsKept(w, v);
  }

  lemma StartKeeps(w: World)
    requires Inv(w)
    ensures Inv(w.(worker := NewWorker(false)))
  {
    RowsKept(w, w.(worker := NewWorker(false)));
  }

  lemma SetActiveKeeps(w: World, active: bool)
    requires Inv(w)
    ensures Inv(w.(active := active))
  {
    RowsKept(w, w.(active := active));
  }

  lemma StepKeepsInv(w: World, s: Step)
    requires Inv(w) && Enabled(w, s)
    ensures Inv(Next(w, s))
  {
    match s {
      case Start => StartKeeps(w);
      case Persist(id, at) => PersistKeeps(w, id, at);
      case DecodeFrame(id, outcome) => DecodeKeeps(w, id, outcome);
      case Process(id, choice) => ProcessKeeps(w, id, choice);
      case MarkEmpty(id) => MarkKeeps(w, id);
      case Mark(id, checkpoint) =>
        if checkpoint.None? { MarkKeeps(w, id); } else { CheckpointKeeps(w, id, checkpoint.value.0, checkpoint.value.1); }
      case Crash => DownKeeps(w);
      case SetActive(active) => SetActiveKeeps(w, active);
      case Retain(plan, before, archived, choice) => RetainKeeps(w, plan, before, archived, choice);
      case Rebuild(gaps) => RebuildKeeps(w, gaps);
      case Corrupt(c) => CorruptKeeps(w, c);
    }
  }

  lemma {:induction false} RunKeepsInv(run: seq<World>, steps: seq<Step>)
    requires IsRun(run, steps)
    ensures Inv(run[|steps|])
  {
    if steps != [] {
      var n := |steps| - 1;
      RunKeepsInv(run[..|steps|], steps[..n]);
      StepKeepsInv(run[n], steps[n]);
    }
  }

  // ---------------------------------------------------------------- main results over runs

  /** Over every run: deleted frames are at or below the floor, whose checkpoint anchors a
      retained, processed frame strictly above it. */
  lemma RetentionFloorHolds(run: seq<World>, steps: seq<Step>)
    requires IsRun(run, steps)
    ensures FloorCovers(run[|steps|]) && FloorAnchored(run[|steps|].db)
  {
    RunKeepsInv(run, steps);
  }

  /** Over every run: each row a restart may be offered, with the frames stored above it,
      gives what every decoded frame ever stored gives. */
  lemma EveryCheckpointEqualsHistory(run: seq<World>, steps: seq<Step>, c: nat)
    requires IsRun(run, steps) && Offered(run[|steps|].db, c) && run[|steps|].db.checkpoints[c].valid
    ensures RestorePayload(run[|steps|].db.checkpoints[c].payload).Some?
    ensures var w := run[|steps|];
            var r := RestorePayload(w.db.checkpoints[c].payload).value;
            SameReducer(Past(w.history, w.top), ReduceAll(r, Between(Retained(w.db.frames), AnchorOf(w.db, c), w.top)))
  {
    RunKeepsInv(run, steps);
    var w := run[|steps|];
    assert SavedRow(w, c);
    RestoreEqualsHistory(w, c, w.top);
  }

  /** Over every run: the reducer in memory is the one that every frame processed so far gives. */
  lemma WorkerEqualsHistory(run: seq<World>, steps: seq<Step>)
    requires IsRun(run, steps) && run[|steps|].worker.Alive? && run[|steps|].worker.reducer.Some?
    ensures var w := run[|steps|];
            SameReducer(Past(w.history, if w.worker.ahead.Some? then w.worker.ahead.value else w.done), w.worker.reducer.value)
  {
    RunKeepsInv(run, steps);
  }

  /** Over every run: a worker can start again unless frames are gone and every offered row
      has gone bad; then it refuses rather than replaying a partial recording. */
  lemma RestartRefusesExactly(run: seq<World>, steps: seq<Step>, choice: Option<nat>)
    requires IsRun(run, steps) && IsNewestValid(run[|steps|].db, choice)
    ensures Prime(run[|steps|].db, run[|steps|].top, choice, false).None? <==>
      run[|steps|].db.floor.Some? && forall d :: Offered(run[|steps|].db, d) ==> !run[|steps|].db.checkpoints[d].valid
    ensures run[|steps|].worker.Alive? && !run[|steps|].worker.replay ==>
      (ReducerFor(run[|steps|], choice).None? <==>
        run[|steps|].worker.reducer.None? && Prime(run[|steps|].db, run[|steps|].top, choice, false).None?)
  {
    RunKeepsInv(run, steps);
    PrimeIsCurrent(run[|steps|], choice, false);
  }
}
