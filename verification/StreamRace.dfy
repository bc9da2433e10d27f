/** When a late registration of one stream costs another a row for good. */
module StreamRace {
  import opened Common
  import opened StreamOutbox
  import opened StreamProtocol
  import opened StreamGapFree

  /** The steps in order; `None` when one of them is not possible. */
  ghost function Exec(s: Server, steps: seq<Step>): Option<Server>
    decreases |steps|
  {
    if steps == [] then Some(s)
    else if Enabled(s, steps[0]) then Exec(Next(s, steps[0]), steps[1..])
    else None
  }

  ghost predicate NoRegister(steps: seq<Step>) {
    forall i :: 0 <= i < |steps| ==> !steps[i].Register?
  }

  /** The steps lead from `s` to `t` without any registration. */
  ghost predicate LeadsTo(s: Server, steps: seq<Step>, t: Server) {
    NoRegister(steps) && Exec(s, steps) == Some(t)
  }

  ghost predicate Gap(t: Server, k: nat) {
    k in t.clients && t.clients[k].Streaming() && !GapFree(t, t.clients[k])
  }

  lemma {:induction false} ExecAppend(s: Server, x: seq<Step>, y: seq<Step>)
    requires Exec(s, x).Some?
    ensures Exec(s, x + y) == Exec(Exec(s, x).value, y)
    decreases |x|
  {
    if x == [] {
      assert x + y == y;
    } else {
      assert (x + y)[0] == x[0] && (x + y)[1..] == x[1..] + y;
      ExecAppend(Next(s, x[0]), x[1..], y);
    }
  }

  lemma LeadsOn(s: Server, x: seq<Step>, t: Server, y: seq<Step>, u: Server)
    requires LeadsTo(s, x, t) && LeadsTo(t, y, u)
    ensures LeadsTo(s, x + y, u)
  {
    ExecAppend(s, x, y);
  }

  lemma OneStep(s: Server, step: Step)
    requires Enabled(s, step) && !step.Register?
    ensures LeadsTo(s, [step], Next(s, step))
  {
    assert [step][1..] == [];
  }

  // ---------------------------------------------------------------- without violation

  lemma {:induction false} ExecKeepsInv(s: Server, steps: seq<Step>)
    requires Inv(s) && NoRegister(steps) && Exec(s, steps).Some?
    ensures Inv(Exec(s, steps).value)
    decreases |steps|
  {
    if steps != [] {
      StepKeepsInvariant(s, steps[0]);
      ExecKeepsInv(Next(s, steps[0]), steps[1..]);
    }
  }

  lemma InvHasNoGap(t: Server, k: nat)
    requires Inv(t)
    ensures !Gap(t, k)
  {
    if k in t.clients && t.clients[k].Streaming() {
      var client := t.clients[k];
      assert ClientOk(t.outbox, client, Pending(t), Reach(t));
      BetweenIncreasing(t.outbox, client.session, client.start, client.delivered);
    }
  }

  // ---------------------------------------------------------------- a lost row

  /** No row of another heat. */
  ghost predicate Native(c: Client, rows: seq<Event>) {
    forall x :: x in rows && x.session == c.session ==> !ForeignHeat(c.activeHeat, x)
  }

  /** Nothing that the stream holds or that is on its way to it makes it start over with a full
      state: no replay at its limit, no row of another heat in queue, replay, batch in flight or
      above the reading, and a queue that takes a whole batch. */
  ghost predicate OpenRoad(s: Server, max: nat, k: nat)
    requires k in s.clients
  {
    var client := s.clients[k];
    && s.batchSize <= s.queueSize
    && (forall x :: x in client.queue && x.Delta? ==> !ForeignHeat(client.activeHeat, x.event))
    && (client.phase.Replaying? ==>
         && client.phase.replayed + |client.phase.batch| < REPLAY_LIMIT
         && forall x :: x in client.phase.batch ==> !ForeignHeat(client.activeHeat, x))
    && Native(client, Pending(s))
    && (forall x :: x in s.outbox && x.session == client.session && max < x.id ==> !ForeignHeat(client.activeHeat, x))
  }

  /** What the stream holds, and that it has not come to `e`. */
  ghost predicate Before(c: Client, e: Event) {
    && e.session == c.session && Listening(c)
    && c.start <= c.delivered < e.id && c.barrier < e.id && (c.phase.Opened? ==> c.delivered == c.barrier)
    && (forall x :: x in c.received ==> x.id <= c.delivered)
    && (forall x :: x in c.queue ==> !x.ResetRequired?)
    && (forall x :: x in c.queue && x.Delta? ==> x.event.id < e.id && !ForeignHeat(c.activeHeat, x.event))
    && (c.phase.Replaying? ==>
         && c.phase.done && c.phase.replayed + |c.phase.batch| < REPLAY_LIMIT
         && forall x :: x in c.phase.batch ==> x.id < e.id && !ForeignHeat(c.activeHeat, x))
  }

  /** Row `e` is behind the broker, the stream is before it, the batch in flight too, and no row to
      come is of another heat. */
  ghost predicate Passed(t: Server, k: nat, e: Event) {
    && k in t.clients && Before(t.clients[k], e) && e in t.outbox
    && Increasing(t.outbox) && 1 <= t.batchSize <= t.queueSize
    && e.id <= t.cursor <= LastId(t.outbox)
    && |Pending(t)| <= t.batchSize && (forall x :: x in Pending(t) ==> x.id < e.id) && Native(t.clients[k], Pending(t))
    && (forall x :: x in t.outbox && x.session == e.session && t.cursor < x.id ==> !ForeignHeat(t.clients[k].activeHeat, x))
  }

  lemma SameIdSameRow(outbox: seq<Event>, x: Event, y: Event)
    requires Increasing(outbox) && x in outbox && y in outbox
    ensures x.id == y.id ==> x == y
  {
    if x.id == y.id { IdsIdentify(outbox, x, y); }
  }

  lemma QueueIsBefore(s: Server, max: nat, k: nat, e: Event)
    requires Inv(s) && k in s.clients && Lost(s, max, k, e)
    ensures forall x :: x in s.clients[k].queue ==> !x.ResetRequired?
    ensures forall x :: x in s.clients[k].queue && x.Delta? ==> x.event.id < e.id
  {
    var c := s.clients[k];
    assert ClientOk(s.outbox, c, Pending(s), Reach(s));
    forall x | x in c.queue ensures !x.ResetRequired? && (x.Delta? ==> x.event.id < e.id) {
      var j :| 0 <= j < |c.queue| && c.queue[j] == x;
      if x.Delta? { SameIdSameRow(s.outbox, x.event, e); }
    }
  }

  lemma BatchIsBefore(s: Server, max: nat, k: nat, e: Event)
    requires Inv(s) && k in s.clients && Lost(s, max, k, e) && s.clients[k].phase.Replaying?
    ensures s.clients[k].phase.done && forall x :: x in s.clients[k].phase.batch ==> x.id < e.id
  {
    var c := s.clients[k];
    assert ClientOk(s.outbox, c, Pending(s), Reach(s));
    var batch := c.phase.batch;
    var hi := if batch == [] then 0 else batch[|batch| - 1].id;
    assert InWindow(e, c.session, c.delivered, hi) <==> e.id <= hi;
    forall x | x in batch ensures x.id < e.id {
      var j :| 0 <= j < |batch| && batch[j] == x;
    }
  }

  lemma LostIsBefore(s: Server, max: nat, k: nat, e: Event)
    requires Inv(s) && k in s.clients && Lost(s, max, k, e) && OpenRoad(s, max, k)
    ensures Before(s.clients[k], e)
  {
    var client := s.clients[k];
    assert ClientOk(s.outbox, client, Pending(s), Reach(s));
    QueueIsBefore(s, max, k, e);
    if client.phase.Replaying? { BatchIsBefore(s, max, k, e); }
    forall x | x in client.received ensures x.id <= client.delivered {
      assert x in Between(s.outbox, client.session, client.start, client.delivered);
    }
  }

  /** The batch in flight ends below a row that it does not hold and that is above its start. */
  lemma PendingIsBefore(s: Server, max: nat, k: nat, e: Event)
    requires Inv(s) && k in s.clients && Lost(s, max, k, e)
    ensures |Pending(s)| <= s.batchSize && forall x :: x in Pending(s) ==> x.id < e.id
  {
    forall x | x in Pending(s) ensures x.id < e.id {
      var j :| 0 <= j < |Pending(s)| && Pending(s)[j] == x;
    }
  }

  lemma LostIsPassed(s: Server, c: nat, k: nat, e: Event)
    requires Inv(s) && Enabled(s, Register(c)) && k in s.clients
    requires Lost(s, s.clients[c].phase.max, k, e) && OpenRoad(s, s.clients[c].phase.max, k)
    ensures Passed(Next(s, Register(c)), k, e)
  {
    var t := Next(s, Register(c));
    assert ClientOk(s.outbox, s.clients[c], Pending(s), Reach(s));
    PendingIsBefore(s, s.clients[c].phase.max, k, e);
    LostIsBefore(s, s.clients[c].phase.max, k, e);
    assert t.clients[k] == s.clients[k] && Pending(t) == Pending(s);
  }

  // ---------------------------------------------------------------- the stream comes to its queue's end

  lemma DecidePasses(t: Server, k: nat, e: Event)
    requires Passed(t, k, e) && t.clients[k].phase.Opened?
    ensures Passed(Next(t, Decide(k, None)), k, e) && Next(t, Decide(k, None)).clients[k].phase.Live?
  {
  }

  lemma ReplayPasses(t: Server, k: nat, e: Event)
    requires Passed(t, k, e) && t.clients[k].phase.Replaying? && t.clients[k].phase.batch != []
    ensures Passed(Next(t, ReplayNext(k)), k, e)
    ensures Next(t, ReplayNext(k)).clients[k].phase.Replaying?
    ensures Next(t, ReplayNext(k)).clients[k].phase.batch == t.clients[k].phase.batch[1..]
  {
    var c := t.clients[k];
    assert c.phase.batch[0] in c.phase.batch;
    assert forall x :: x in c.phase.batch[1..] ==> x in c.phase.batch;
  }

  lemma EndPasses(t: Server, k: nat, e: Event)
    requires Passed(t, k, e) && t.clients[k].phase.Replaying? && t.clients[k].phase.batch == []
    ensures Passed(Next(t, ReplayEnd(k)), k, e) && Next(t, ReplayEnd(k)).clients[k].phase.Live?
  {
  }

  lemma PopPasses(t: Server, k: nat, e: Event)
    requires Passed(t, k, e) && t.clients[k].phase.Live? && t.clients[k].queue != []
    ensures Passed(Next(t, Pop(k)), k, e) && Next(t, Pop(k)).clients[k].phase.Live?
    ensures Next(t, Pop(k)).clients[k].queue == t.clients[k].queue[1..]
  {
    var c := t.clients[k];
    assert c.queue[0] in c.queue;
    assert forall x :: x in c.queue[1..] ==> x in c.queue;
  }

  lemma {:induction false} ReplaysOut(t: Server, k: nat, e: Event) returns (steps: seq<Step>, u: Server)
    requires Passed(t, k, e) && t.clients[k].phase.Replaying?
    ensures LeadsTo(t, steps, u) && Passed(u, k, e) && u.clients[k].phase.Live?
    decreases |t.clients[k].phase.batch|
  {
    if t.clients[k].phase.batch == [] {
      EndPasses(t, k, e);
      OneStep(t, ReplayEnd(k));
      steps, u := [ReplayEnd(k)], Next(t, ReplayEnd(k));
    } else {
      ReplayPasses(t, k, e);
      OneStep(t, ReplayNext(k));
      steps, u := ReplaysOut(Next(t, ReplayNext(k)), k, e);
      LeadsOn(t, [ReplayNext(k)], Next(t, ReplayNext(k)), steps, u);
      steps := [ReplayNext(k)] + steps;
    }
  }

  lemma ComesLive(t: Server, k: nat, e: Event) returns (steps: seq<Step>, u: Server)
    requires Passed(t, k, e)
    ensures LeadsTo(t, steps, u) && Passed(u, k, e) && u.clients[k].phase.Live?
  {
    if t.clients[k].phase.Opened? {
      DecidePasses(t, k, e);
      OneStep(t, Decide(k, None));
      steps, u := [Decide(k, None)], Next(t, Decide(k, None));
    } else if t.clients[k].phase.Replaying? {
      steps, u := ReplaysOut(t, k, e);
    } else {
      steps, u := [], t;
    }
  }

  lemma {:induction false} EmptiesQueue(t: Server, k: nat, e: Event) returns (steps: seq<Step>, u: Server)
    requires Passed(t, k, e) && t.clients[k].phase.Live?
    ensures LeadsTo(t, steps, u) && Passed(u, k, e) && u.clients[k].phase.Live? && u.clients[k].queue == []
    ensures u.inflight == t.inflight
    decreases |t.clients[k].queue|
  {
    if t.clients[k].queue == [] {
      steps, u := [], t;
    } else {
      PopPasses(t, k, e);
      OneStep(t, Pop(k));
      steps, u := EmptiesQueue(Next(t, Pop(k)), k, e);
      LeadsOn(t, [Pop(k)], Next(t, Pop(k)), steps, u);
      steps := [Pop(k)] + steps;
    }
  }

  // ---------------------------------------------------------------- the broker catches up

  /** The session's rows of a batch, as they are queued. */
  function Deltas(events: seq<Event>, session: string): seq<Item> {
    if events == [] then []
    else (if events[0].session == session then [Delta(events[0])] else []) + Deltas(events[1..], session)
  }

  lemma {:induction false} DeltasHas(events: seq<Event>, session: string)
    ensures |Deltas(events, session)| <= |events|
    ensures forall x :: x in Deltas(events, session) ==> x.Delta? && x.event in events && x.event.session == session
    ensures Deltas(events, session) == [] ==> forall x :: x in events ==> x.session != session
  {
    if events != [] {
      DeltasHas(events[1..], session);
      assert events == [events[0]] + events[1..];
    }
  }

  /** A batch that fits is queued whole and in order. */
  lemma {:induction false} DeliverQueues(s: Server, events: seq<Event>, k: nat)
    requires k in s.clients && s.clients[k].Subscribed() && |s.clients[k].queue| + |events| <= s.queueSize
    ensures var t, c := Deliver(s, events), s.clients[k];
            && k in t.clients && t.clients[k] == c.(queue := c.queue + Deltas(events, c.session))
            && t.outbox == s.outbox && t.inflight == s.inflight && t.queueSize == s.queueSize && t.batchSize == s.batchSize
    decreases |events|
  {
    var c := s.clients[k];
    if events == [] {
      assert c.queue + [] == c.queue;
    } else {
      var e := events[0];
      var s' := s.(cursor := Max(s.cursor, e.id), clients := Fanout(s.clients, e.session, Delta(e), s.queueSize));
      var one := if e.session == c.session then [Delta(e)] else [];
      assert s'.clients[k] == c.(queue := c.queue + one);
      DeliverQueues(s', events[1..], k);
      assert c.queue + one + Deltas(events[1..], c.session) == c.queue + Deltas(events, c.session);
    }
  }

  lemma {:induction false} DeliverRaises(s: Server, events: seq<Event>)
    ensures s.cursor <= Deliver(s, events).cursor && forall x :: x in events ==> x.id <= Deliver(s, events).cursor
    decreases |events|
  {
    if events != [] {
      var e := events[0];
      assert events == [e] + events[1..];
      DeliverRaises(s.(cursor := Max(s.cursor, e.id), clients := Fanout(s.clients, e.session, Delta(e), s.queueSize)), events[1..]);
    }
  }

  lemma {:induction false} DeliverBelow(s: Server, events: seq<Event>, id: nat)
    requires s.cursor < id && forall x :: x in events ==> x.id < id
    ensures Deliver(s, events).cursor < id
    decreases |events|
  {
    if events != [] {
      var e := events[0];
      assert events == [e] + events[1..] && e in events;
      DeliverBelow(s.(cursor := Max(s.cursor, e.id), clients := Fanout(s.clients, e.session, Delta(e), s.queueSize)), events[1..], id);
    }
  }

  /** The batch in flight is fanned out. */
  lemma FlushPasses(t: Server, k: nat, e: Event)
    requires Passed(t, k, e) && t.clients[k].phase.Live? && t.clients[k].queue == [] && t.inflight.Some?
    ensures Passed(Next(t, PollFanout), k, e) && Next(t, PollFanout).clients[k].phase.Live? && Next(t, PollFanout).inflight.None?
  {
    var u, c, events := t.(inflight := None), t.clients[k], t.inflight.value.events;
    DeliverQueues(u, events, k);
    DeltasHas(events, c.session);
    DeliverRaises(u, events);
    DeliverBelow(u, events, t.cursor + 1);
    assert c.queue + Deltas(events, c.session) == Deltas(events, c.session);
  }

  lemma Flushes(t: Server, k: nat, e: Event) returns (steps: seq<Step>, u: Server)
    requires Passed(t, k, e) && t.clients[k].phase.Live? && t.clients[k].queue == []
    ensures LeadsTo(t, steps, u) && Passed(u, k, e) && u.clients[k].phase.Live? && u.inflight.None?
  {
    if t.inflight.None? {
      steps, u := [], t;
    } else {
      OneStep(t, PollFanout);
      FlushPasses(t, k, e);
      steps, u := [PollFanout], Next(t, PollFanout);
    }
  }

  /** The stream has taken all it holds, and a further row of its session is committed that the
      broker has not polled yet. */
  ghost predicate Coming(t: Server, k: nat, e: Event, f: Event) {
    && Passed(t, k, e) && t.clients[k].phase.Live? && t.clients[k].queue == [] && t.inflight.None?
    && f in t.outbox && f.session == e.session && t.cursor < f.id
  }

  lemma Commits(t: Server, k: nat, e: Event) returns (f: Event, steps: seq<Step>, u: Server)
    requires Passed(t, k, e) && t.clients[k].phase.Live? && t.clients[k].queue == [] && t.inflight.None?
    ensures LeadsTo(t, steps, u) && Coming(u, k, e, f)
  {
    LatestBounds(t.outbox, e.session);
    f := Event(LastId(t.outbox) + 1, e.session, None);
    OneStep(t, Append(f));
    steps, u := [Append(f)], Next(t, Append(f));
    assert u.outbox == t.outbox + [f];
  }

  /** The first row in the stream's queue is past the lost one. */
  ghost predicate Arrived(t: Server, k: nat, e: Event) {
    && k in t.clients && Before(t.clients[k].(queue := []), e) && t.clients[k].phase.Live? && e in t.outbox
    && t.clients[k].queue != [] && t.clients[k].queue[0].Delta?
    && var g := t.clients[k].queue[0].event;
       g in t.outbox && g.session == e.session && e.id < g.id && !ForeignHeat(t.clients[k].activeHeat, g)
  }

  /** What one poll reads while a row is coming. */
  lemma PollReads(t: Server, k: nat, e: Event, f: Event, events: seq<Event>)
    requires Coming(t, k, e, f) && events == FirstAfter(t.outbox, t.cursor, t.batchSize)
    ensures events != [] && |events| <= t.batchSize && forall x :: x in events ==> x in t.outbox && t.cursor < x.id
    ensures f !in events ==> forall x :: x in events ==> x.id < f.id
  {
    FirstAfterIsContiguous(t.outbox, t.cursor, t.batchSize);
    assert |events| < t.batchSize ==> f in events;
    assert f.id <= events[|events| - 1].id ==> f in events;
    if f !in events {
      forall x | x in events ensures x.id < f.id {
        var j :| 0 <= j < |events| && events[j] == x;
      }
    }
  }

  /** A poll that brings rows of the session queues one past the lost row. */
  lemma PollBrings(t: Server, k: nat, e: Event, f: Event, events: seq<Event>)
    requires Coming(t, k, e, f) && Deltas(events, e.session) != []
    requires |events| <= t.batchSize && forall x :: x in events ==> x in t.outbox && t.cursor < x.id
    ensures Deliver(t, events).outbox == t.outbox && Arrived(Deliver(t, events), k, e)
  {
    var c, queued := t.clients[k], Deltas(events, e.session);
    DeliverQueues(t, events, k);
    DeltasHas(events, c.session);
    assert c.queue + queued == queued && queued[0] in queued;
  }

  /** One that does not brings the broker nearer to the row that is coming. */
  lemma PollSkips(t: Server, k: nat, e: Event, f: Event, events: seq<Event>)
    requires Coming(t, k, e, f) && Deltas(events, e.session) == [] && events != []
    requires |events| <= t.batchSize && forall x :: x in events ==> x in t.outbox && t.cursor < x.id < f.id
    ensures Deliver(t, events).outbox == t.outbox && Coming(Deliver(t, events), k, e, f) && t.cursor < Deliver(t, events).cursor
  {
    var c := t.clients[k];
    DeliverQueues(t, events, k);
    assert c.queue + [] == c.queue;
    DeliverRaises(t, events);
    DeliverBelow(t, events, f.id);
    assert events[0] in events;
    LatestBounds(t.outbox, e.session);
  }

  lemma PollTurn(t: Server, k: nat, e: Event, f: Event) returns (u: Server)
    requires Coming(t, k, e, f)
    ensures LeadsTo(t, [PollRead, PollFanout], u) && u.outbox == t.outbox
    ensures Arrived(u, k, e) || (Coming(u, k, e, f) && t.cursor < u.cursor)
  {
    var events := FirstAfter(t.outbox, t.cursor, t.batchSize);
    PollReads(t, k, e, f, events);
    assert t.clients[k].Subscribed();
    OneStep(t, PollRead);
    var mid := Next(t, PollRead);
    OneStep(mid, PollFanout);
    assert [PollRead] + [PollFanout] == [PollRead, PollFanout];
    LeadsOn(t, [PollRead], mid, [PollFanout], Next(mid, PollFanout));
    assert mid.(inflight := None) == t;
    u := Deliver(t, events);
    if Deltas(events, e.session) != [] {
      PollBrings(t, k, e, f, events);
    } else {
      DeltasHas(events, e.session);
      PollSkips(t, k, e, f, events);
    }
  }

  lemma {:induction false} Polls(t: Server, k: nat, e: Event, f: Event) returns (steps: seq<Step>, u: Server)
    requires Coming(t, k, e, f)
    ensures LeadsTo(t, steps, u) && Arrived(u, k, e)
    decreases f.id - t.cursor
  {
    u := PollTurn(t, k, e, f);
    steps := [PollRead, PollFanout];
    if !Arrived(u, k, e) {
      var mid, first := u, steps;
      steps, u := Polls(mid, k, e, f);
      LeadsOn(t, first, mid, steps, u);
      steps := first + steps;
    }
  }

  /** The newer row is sent, and the lost one is not. */
  lemma ArrivedGap(t: Server, k: nat, e: Event)
    requires Arrived(t, k, e)
    ensures Enabled(t, Pop(k)) && Gap(Next(t, Pop(k)), k)
  {
    var c := t.clients[k];
    var g := c.queue[0].event;
    var u := Next(t, Pop(k));
    assert u.clients[k].received == c.received + [g] && u.clients[k].delivered == g.id;
    assert InWindow(e, c.session, c.start, g.id);
    assert e in Between(t.outbox, c.session, c.start, g.id);
    assert e !in c.received + [g];
  }

  // ---------------------------------------------------------------- main result

  lemma ComesToRest(t: Server, k: nat, e: Event) returns (steps: seq<Step>, u: Server)
    requires Passed(t, k, e)
    ensures LeadsTo(t, steps, u) && Passed(u, k, e) && u.clients[k].phase.Live? && u.clients[k].queue == []
  {
    var a, b: seq<Step>;
    var v: Server;
    a, v := ComesLive(t, k, e);
    b, u := EmptiesQueue(v, k, e);
    LeadsOn(t, a, v, b, u);
    steps := a + b;
  }

  /** Everything sent or on its way is taken; nothing is in flight. */
  lemma ComesToNothing(t: Server, k: nat, e: Event) returns (steps: seq<Step>, u: Server)
    requires Passed(t, k, e)
    ensures LeadsTo(t, steps, u) && Passed(u, k, e) && u.clients[k].phase.Live? && u.clients[k].queue == [] && u.inflight.None?
  {
    var a, b, c: seq<Step>;
    var v, w: Server;
    a, v := ComesToRest(t, k, e);
    b, w := Flushes(v, k, e);
    c, u := EmptiesQueue(w, k, e);
    LeadsOn(t, a, v, b, w);
    LeadsOn(t, a + b, w, c, u);
    steps := a + b + c;
  }

  lemma NewRowArrives(t: Server, k: nat, e: Event) returns (steps: seq<Step>, u: Server)
    requires Passed(t, k, e) && t.clients[k].phase.Live? && t.clients[k].queue == [] && t.inflight.None?
    ensures LeadsTo(t, steps, u) && Arrived(u, k, e)
  {
    var a, b: seq<Step>;
    var v: Server;
    var f: Event;
    f, a, v := Commits(t, k, e);
    b, u := Polls(v, k, e, f);
    LeadsOn(t, a, v, b, u);
    steps := a + b;
  }

  /** A registration that takes a row from a stream whose road is open can be followed, without
      any further registration, by a delivery with that row missing. */
  lemma LostRowMakesAGap(s: Server, c: nat, k: nat, e: Event) returns (steps: seq<Step>, u: Server)
    requires Inv(s) && Enabled(s, Register(c)) && k in s.clients
    requires Lost(s, s.clients[c].phase.max, k, e) && OpenRoad(s, s.clients[c].phase.max, k)
    ensures LeadsTo(Next(s, Register(c)), steps, u) && Gap(u, k)
  {
    LostIsPassed(s, c, k, e);
    steps, u := PassedMakesAGap(Next(s, Register(c)), k, e);
  }

  lemma PassedMakesAGap(t: Server, k: nat, e: Event) returns (steps: seq<Step>, u: Server)
    requires Passed(t, k, e)
    ensures LeadsTo(t, steps, u) && Gap(u, k)
  {
    var a, b: seq<Step>;
    var v, w: Server;
    a, v := ComesToNothing(t, k, e);
    b, w := NewRowArrives(v, k, e);
    LeadsOn(t, a, v, b, w);
    ArrivedGap(w, k, e);
    OneStep(w, Pop(k));
    u := Next(w, Pop(k));
    LeadsOn(t, a + b, w, [Pop(k)], u);
    steps := a + b + [Pop(k)];
  }

  /** In a state of a safe run in which every stream's road is open: a registration is safe
      exactly when no continuation without further registrations has a gap, for any stream. */
  lemma SafeExactlyWhenNoGapFollows(s: Server, c: nat)
    requires Inv(s) && Enabled(s, Register(c))
    requires forall k :: k in s.clients && Listening(s.clients[k]) ==> OpenRoad(s, s.clients[c].phase.max, k)
    ensures CursorMoveSafe(s, Register(c)) <==>
      !exists steps, u, k :: LeadsTo(Next(s, Register(c)), steps, u) && Gap(u, k)
  {
    if CursorMoveSafe(s, Register(c)) {
      forall steps, u, k | LeadsTo(Next(s, Register(c)), steps, u) ensures !Gap(u, k) {
        RegisterOk(s, c);
        ExecKeepsInv(Next(s, Register(c)), steps);
        InvHasNoGap(u, k);
      }
    } else {
      var k, e :| k in s.clients && Lost(s, s.clients[c].phase.max, k, e);
      var steps, u := LostRowMakesAGap(s, c, k, e);
    }
  }
}
