/** The raw store as the worker and the retention job use it: tables updated in place, each
    method one write transaction. */
module IngestStore {
  import opened Common
  import opened ResultGrid
  import opened GridCheckpoint
  import opened RawIngest
  import opened IngestSafety

  datatype MarkError = FrameNotFound | NotDecoded

  /** `sorted(set(...))`. */
  ghost predicate InOrder(order: seq<nat>, ids: set<nat>) {
    (forall id :: id in order <==> id in ids) && forall i, j :: 0 <= i < j < |order| ==> order[i] < order[j]
  }

  lemma InOrderNext(order: seq<nat>, ids: set<nat>, todo: set<nat>, id: nat)
    requires id in todo && todo <= ids && InOrder(order, ids - todo)
    requires (forall x :: x in todo ==> id <= x) && forall i, x :: 0 <= i < |order| && x in todo ==> order[i] < x
    ensures InOrder(order + [id], ids - (todo - {id}))
    ensures forall i, x :: 0 <= i < |order + [id]| && x in todo - {id} ==> (order + [id])[i] < x
  {
    forall x ensures x in order + [id] <==> x in ids - (todo - {id}) {
      assert x in order + [id] <==> x in order || x == id;
    }
  }

  class TimingDb {
    var frames: map<nat, Frame>
    var checkpoints: map<nat, Checkpoint>
    var floor: Option<Floor>

    ghost function Contents(): Db
      reads this
    {
      Db(frames, checkpoints, floor)
    }

    constructor ()
      ensures Contents() == NEW_SESSION.db
    {
      frames, checkpoints, floor := map[], map[], None;
    }

    /** `raw` is what decoding the stored text gives today. A frame decoded before keeps the
        messages committed then, whatever decoding would give now. */
    method DecodeFrame(id: nat, raw: Decode) returns (messages: Option<seq<Incoming>>)
      requires !raw.Pending?
      modifies this
      ensures messages.None? <==> id !in old(frames)
      ensures messages.Some? ==> messages.value == MessagesAt(Retained(frames), id)
      ensures id in old(frames) && old(frames)[id].decode.Pending? ==>
        frames == old(frames)[id := old(frames)[id].(decode := raw, processed := old(frames)[id].processed || raw.Failed?)]
      ensures id !in old(frames) || !old(frames)[id].decode.Pending? ==> frames == old(frames)
      ensures checkpoints == old(checkpoints) && floor == old(floor)
    {
      if id !in frames {
        return None;
      }
      var frame := frames[id];
      match frame.decode {
        case Failed => messages := Some([]);
        case Decoded(stored) => messages := Some(stored);
        case Pending =>
          frames := frames[id := frame.(decode := raw, processed := frame.processed || raw.Failed?)];
          messages := Some(if raw.Decoded? then raw.messages else []);
      }
    }

    /** The marker and the checkpoint commit together, and only for a decoded frame that is not
        processed yet; a repeated call writes nothing. */
    method MarkProcessed(id: nat, checkpoint: Option<(nat, Payload)>) returns (error: Option<MarkError>)
      requires checkpoint.Some? ==> checkpoint.value.0 !in checkpoints
      modifies this
      ensures error == if id !in old(frames) then Some(FrameNotFound)
                       else if !old(frames)[id].decode.Decoded? then Some(NotDecoded) else None
      ensures error.None? && !old(frames)[id].processed ==>
        Contents() == Db(MarkedFrames(old(Contents()), id),
                         if checkpoint.None? then old(checkpoints)
                         else old(checkpoints)[checkpoint.value.0 := Checkpoint(Some(id), true, checkpoint.value.1)],
                         old(floor))
      ensures error.Some? || old(frames)[id].processed ==> Contents() == old(Contents())
    {
      if id !in frames {
        return Some(FrameNotFound);
      }
      if !frames[id].decode.Decoded? {
        return Some(NotDecoded);
      }
      error := None;
      if frames[id].processed {
        return;
      }
      if checkpoint.Some? {
        checkpoints := checkpoints[checkpoint.value.0 := Checkpoint(Some(id), true, checkpoint.value.1)];
      }
      frames := frames[id := frames[id].(processed := true)];
    }

    /** The replay backlog: exactly the decoded, unprocessed frames, oldest first. */
    method PendingDecodedFrames() returns (ids: seq<nat>)
      ensures forall id :: id in ids <==> Waiting(Contents(), id)
      ensures forall i, j :: 0 <= i < j < |ids| ==> ids[i] < ids[j]
      ensures ids != [] ==> IsNext(Contents(), ids[0])
    {
      ids := [];
      var todo := frames.Keys;
      while todo != {}
        invariant todo <= frames.Keys
        invariant forall id :: id in ids <==> id !in todo && Waiting(Contents(), id)
        invariant forall i, j :: 0 <= i < j < |ids| ==> ids[i] < ids[j]
        invariant forall i, id :: 0 <= i < |ids| && id in todo ==> ids[i] < id
      {
        var id := Smallest(todo);
        if frames[id].decode.Decoded? && !frames[id].processed {
          ids := ids + [id];
        }
        todo := todo - {id};
      }
      assert forall i :: 0 <= i < |ids| ==> ids[i] in ids;
      assert forall id :: Waiting(Contents(), id) ==> id in ids;
    }

    static method Smallest(ids: set<nat>) returns (m: nat)
      requires ids != {}
      ensures m in ids && forall id :: id in ids ==> m <= id
    {
      m :| m in ids;
      var todo := ids - {m};
      while todo != {}
        invariant todo <= ids && m in ids
        invariant forall id :: id in ids && id !in todo ==> m <= id
      {
        var id :| id in todo;
        if id < m { m := id; }
        todo := todo - {id};
      }
    }

    /** The newest offered row whose payload is accepted. */
    method NewestCompatible() returns (choice: Option<nat>)
      ensures IsNewestValid(Contents(), choice)
    {
      choice := None;
      var todo := checkpoints.Keys;
      while todo != {}
        invariant todo <= checkpoints.Keys
        invariant choice.Some? ==> Offered(Contents(), choice.value) && checkpoints[choice.value].valid
        invariant forall d :: Offered(Contents(), d) && checkpoints[d].valid && d !in todo ==>
          choice.Some? && checkpoints[d].anchor.value <= checkpoints[choice.value].anchor.value
      {
        var c :| c in todo;
        todo := todo - {c};
        var row := checkpoints[c];
        if row.valid && row.anchor.Some? && row.anchor.value in frames && frames[row.anchor.value].processed
           && (floor.None? || row.anchor.value > floor.value.through)
           && (choice.None? || checkpoints[choice.value].anchor.value < row.anchor.value)
        {
          choice := Some(c);
        }
      }
    }

    /** One DELETE with its guards, and the running maxima of what went. */
    method DeleteFrame(id: nat, before: int, allowed: bool, through: Option<nat>, receivedThrough: int)
      returns (newThrough: Option<nat>, newReceived: int)
      modifies this
      ensures Sweep(Contents(), newThrough, newReceived) == SweepOne(Sweep(old(Contents()), through, receivedThrough), id, before, allowed)
    {
      newThrough, newReceived := through, receivedThrough;
      var anchored := AnchoredAbove(id);
      if allowed && id in frames && frames[id].processed && frames[id].receivedAt < before && anchored {
        var at := frames[id].receivedAt;
        newReceived := if through.Some? && receivedThrough > at then receivedThrough else at;
        newThrough := Some(if through.Some? && through.value > id then through.value else id);
        checkpoints := map c | c in checkpoints ::
          if checkpoints[c].anchor == Some(id) then checkpoints[c].(anchor := None) else checkpoints[c];
        frames := map i | i in frames && i != id :: frames[i];
      }
    }

    method DeletePlanned(planned: set<nat>, before: int, allowed: bool)
      returns (through: Option<nat>, receivedThrough: int, ghost plan: seq<nat>)
      modifies this
      ensures InOrder(plan, planned)
      ensures SweepFrames(old(Contents()), plan, before, allowed) == Sweep(Contents(), through, receivedThrough)
    {
      var todo := planned;
      through, receivedThrough := None, 0;
      plan := [];
      while todo != {}
        invariant todo <= planned && InOrder(plan, planned - todo)
        invariant forall i, id :: 0 <= i < |plan| && id in todo ==> plan[i] < id
        invariant SweepFrames(old(Contents()), plan, before, allowed) == Sweep(Contents(), through, receivedThrough)
      {
        var id := Smallest(todo);
        InOrderNext(plan, planned, todo, id);
        todo := todo - {id};
        assert (plan + [id])[..|plan|] == plan;
        plan := plan + [id];
        through, receivedThrough := DeleteFrame(id, before, allowed, through, receivedThrough);
      }
      assert planned - todo == planned;
    }

    /** Deletes what the plan still allows, in id order, then writes the floor, or rolls the
        whole transaction back. */
    method ApplyRetention(planned: set<nat>, before: int, allowed: bool) returns (rolledBack: bool, ghost plan: seq<nat>, ghost choice: Option<nat>)
      modifies this
      ensures InOrder(plan, planned)
      ensures IsNewestValid(SweepFrames(old(Contents()), plan, before, allowed).db, choice)
      ensures rolledBack <==> RetentionPass(old(Contents()), plan, before, allowed, choice).None?
      ensures Contents() == if rolledBack then old(Contents()) else RetentionPass(old(Contents()), plan, before, allowed, choice).value
    {
      ghost var start := Contents();
      var savedFrames, savedCheckpoints := frames, checkpoints;
      var through, receivedThrough;
      through, receivedThrough, plan := DeletePlanned(planned, before, allowed);
      rolledBack := false;
      var newest := NewestCompatible();
      choice := newest;
      SweepDoes(start, plan, before, allowed);
      if through.None? {
        SweepUntouched(start, plan, before, allowed);
      } else if newest.None? || checkpoints[newest.value].anchor.value <= through.value {
        frames, checkpoints := savedFrames, savedCheckpoints;
        rolledBack := true;
      } else if floor.None? || floor.value.through < through.value {
        if floor.Some? && floor.value.receivedThrough > receivedThrough {
          receivedThrough := floor.value.receivedThrough;
        }
        floor := Some(Floor(through.value, receivedThrough, newest.value));
      }
    }

    method AnchoredAbove(id: nat) returns (found: bool)
      ensures found <==> exists c :: c in checkpoints && AnchorsAbove(Contents(), c, id)
    {
      found := false;
      var todo := checkpoints.Keys;
      while todo != {}
        invariant todo <= checkpoints.Keys
        invariant found <==> exists c :: c in checkpoints && c !in todo && AnchorsAbove(Contents(), c, id)
      {
        var c :| c in todo;
        todo := todo - {c};
        var anchor := checkpoints[c].anchor;
        if anchor.Some? && anchor.value in frames && frames[anchor.value].processed && anchor.value > id {
          assert AnchorsAbove(Contents(), c, id);
          found := true;
        }
      }
    }

    static lemma {:induction false} SweepUntouched(db: Db, plan: seq<nat>, before: int, allowed: bool)
      ensures SweepFrames(db, plan, before, allowed).through.None? ==> SweepFrames(db, plan, before, allowed).db == db
    {
      if plan != [] {
        SweepUntouched(db, plan[..|plan| - 1], before, allowed);
      }
    }
  }
}
