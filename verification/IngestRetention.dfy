/** Which frames a retention pass deletes, and what its receive-time mark covers. */
module IngestRetention {
  import opened Common
  import opened RawIngest

  /** Deleting one frame decides nothing about another: its own checkpoint stands above both. */
  lemma DropKeepsDeletable(db: Db, x: nat, id: nat, before: int)
    requires Deletable(db, x, before) && id != x
    ensures Deletable(DropFrame(db, x), id, before) <==> Deletable(db, id, before)
  {
    var after := DropFrame(db, x);
    if Deletable(after, id, before) {
      var c :| c in after.checkpoints && AnchorsAbove(after, c, id);
      assert AnchorsAbove(db, c, id);
    }
    if Deletable(db, id, before) {
      var c :| c in db.checkpoints && AnchorsAbove(db, c, id);
      var d :| d in db.checkpoints && AnchorsAbove(db, d, x);
      assert AnchorsAbove(after, c, id) || AnchorsAbove(after, d, id);
    }
  }

  predicate Gone(db: Db, after: Db, id: nat) { id in db.frames && id !in after.frames }

  /** A pass deletes exactly the planned frames that were deletable before it, in any order. */
  lemma {:induction false} SweepDeletesExactly(db: Db, plan: seq<nat>, before: int, allowed: bool, id: nat)
    ensures var after := SweepFrames(db, plan, before, allowed).db;
            && (Gone(db, after, id) <==> allowed && id in plan && Deletable(db, id, before))
            && (id in after.frames ==> id in db.frames && after.frames[id] == db.frames[id]
                                       && (Deletable(after, id, before) <==> Deletable(db, id, before)))
  {
    if plan != [] {
      var init, x := plan[..|plan| - 1], plan[|plan| - 1];
      var s := SweepFrames(db, init, before, allowed);
      assert id in plan <==> id in init || id == x by { assert plan == init + [x]; }
      SweepDeletesExactly(db, init, before, allowed, id);
      SweepDeletesExactly(db, init, before, allowed, x);
      if allowed && Deletable(s.db, x, before) && id != x {
        DropKeepsDeletable(s.db, x, id, before);
      }
    }
  }

  /** What a sweep reports: the largest deleted id and the latest receive time deleted. */
  ghost predicate Reports(db: Db, s: Sweep) {
    && (s.through.None? ==> forall id: nat :: !Gone(db, s.db, id))
    && (s.through.Some? ==>
         && Gone(db, s.db, s.through.value)
         && (forall id: nat :: Gone(db, s.db, id) ==> id <= s.through.value && db.frames[id].receivedAt <= s.receivedThrough)
         && exists id: nat :: Gone(db, s.db, id) && db.frames[id].receivedAt == s.receivedThrough)
  }

  lemma OneMoreReported(db: Db, s: Sweep, x: nat, before: int)
    requires Reports(db, s) && x in db.frames && x in s.db.frames && s.db.frames[x] == db.frames[x]
    requires Deletable(s.db, x, before)
    ensures Reports(db, SweepOne(s, x, before, true))
  {
    var t := SweepOne(s, x, before, true);
    forall id: nat ensures Gone(db, t.db, id) <==> Gone(db, s.db, id) || id == x {
    }
    assert Gone(db, t.db, x);
  }

  lemma {:induction false} SweepReports(db: Db, plan: seq<nat>, before: int, allowed: bool)
    ensures Reports(db, SweepFrames(db, plan, before, allowed))
  {
    if plan != [] {
      var init, x := plan[..|plan| - 1], plan[|plan| - 1];
      var s := SweepFrames(db, init, before, allowed);
      SweepReports(db, init, before, allowed);
      SweepDeletesExactly(db, init, before, allowed, x);
      if allowed && Deletable(s.db, x, before) {
        OneMoreReported(db, s, x, before);
      }
    }
  }

  /** The floor's receive time is meant as a high-water mark. It covers what a pass deleted
      exactly when the pass reached beyond the old floor, or deleted nothing received after the
      old mark. Neither half of a floor ever falls. */
  lemma MarkCoversExactly(db: Db, plan: seq<nat>, before: int, allowed: bool, choice: Option<nat>)
    requires RetentionPass(db, plan, before, allowed, choice).Some?
    requires exists id: nat :: Gone(db, RetentionPass(db, plan, before, allowed, choice).value, id)
    ensures var after := RetentionPass(db, plan, before, allowed, choice).value;
            && after.floor.Some?
            && (db.floor.Some? ==> db.floor.value.through <= after.floor.value.through
                                   && db.floor.value.receivedThrough <= after.floor.value.receivedThrough)
            && ((forall id: nat :: Gone(db, after, id) ==> db.frames[id].receivedAt <= after.floor.value.receivedThrough) <==>
                  || db.floor.None?
                  || (exists id: nat :: Gone(db, after, id) && db.floor.value.through < id)
                  || (forall id: nat :: Gone(db, after, id) ==> db.frames[id].receivedAt <= db.floor.value.receivedThrough))
  {
    var after, swept := RetentionPass(db, plan, before, allowed, choice).value, SweepFrames(db, plan, before, allowed);
    SweepReports(db, plan, before, allowed);
    assert swept.through.Some?;
    assert forall id: nat :: Gone(db, after, id) <==> Gone(db, swept.db, id);
  }

  /** Frame 3 was received after frame 5: a reconnect set the clock back. */
  function LateClock(p: Payload): Db {
    Db(map[3 := Frame(Decoded([]), true, 200), 5 := Frame(Decoded([]), true, 100), 10 := Frame(Decoded([]), true, 400)],
       map[1 := Checkpoint(Some(10), true, p)], None)
  }

  /** A first pass deletes frame 5 and sets the mark to 100; a later one deletes frame 3,
      received at 200, and the mark stays at 100. */
  lemma LateFrameEscapesTheMark(p: Payload)
    ensures var first := RetentionPass(LateClock(p), [3, 5], 150, true, Some(1));
            && first.Some? && first.value.floor == Some(Floor(5, 100, 1)) && 3 in first.value.frames
            && var second := RetentionPass(first.value, [3], 300, true, Some(1));
               && second.Some? && 3 !in second.value.frames && first.value.frames[3].receivedAt == 200
               && second.value.floor == Some(Floor(5, 100, 1))
  {
    var db := LateClock(p);
    assert [3, 5][..1] == [3] && [3][..0] == [] && [3, 5][1] == 5;
    assert SweepFrames(db, [3], 150, true) == Sweep(db, None, 0);
    assert AnchorsAbove(db, 1, 5);
    var swept := SweepFrames(db, [3, 5], 150, true);
    assert swept == Sweep(DropFrame(db, 5), Some(5), 100);
    var first := RetentionPass(db, [3, 5], 150, true, Some(1)).value;
    assert AnchorsAbove(first, 1, 3);
    assert SweepFrames(first, [3], 300, true) == Sweep(DropFrame(first, 3), Some(3), 200);
  }
}
