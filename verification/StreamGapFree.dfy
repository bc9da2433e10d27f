/** Gap-free delivery for every interleaving of the stream protocol. */
module StreamGapFree {
  import opened Common
  import opened StreamOutbox
  import opened StreamProtocol

  // ---------------------------------------------------------------- invariant

  /** Rows at or below the floor have reached the browser or its last full state. */
  function Floor(c: Client): nat { Max(c.barrier, c.delivered) }

  /** A session row a stream still owes its browser. */
  ghost predicate Owed(outbox: seq<Event>, c: Client, e: Event) {
    e in outbox && e.session == c.session && Floor(c) < e.id
  }

  ghost predicate QueueShape(outbox: seq<Event>, c: Client) {
    && (forall i :: 0 < i < |c.queue| ==> !c.queue[i].ResetRequired?)
    && (forall i :: 0 <= i < |c.queue| && c.queue[i].Delta? ==>
          c.queue[i].event in outbox && c.queue[i].event.session == c.session)
  }

  predicate ResetPending(c: Client) {
    c.queue != [] && c.queue[0].ResetRequired?
  }

  /** The replay will still come to the row: it is in the batch, or there is more to read. */
  predicate StillReplays(c: Client, e: Event) {
    c.phase.Replaying? && (e in c.phase.batch || !c.phase.done)
  }

  /** Every owed row up to `hi` is queued, in the polled batch not yet fanned out, or still to be
      replayed. */
  ghost predicate Covered(outbox: seq<Event>, c: Client, pending: seq<Event>, hi: nat) {
    forall e :: Owed(outbox, c, e) && e.id <= hi ==> Delta(e) in c.queue || e in pending || StillReplays(c, e)
  }

  /** No queued row overtakes an owed row of its session. */
  ghost predicate Ordered(outbox: seq<Event>, c: Client) {
    forall j, e :: 0 <= j < |c.queue| && c.queue[j].Delta? && Owed(outbox, c, e) && e.id < c.queue[j].event.id
      ==> Delta(e) in c.queue[..j] || StillReplays(c, e)
  }

  ghost predicate Seen(outbox: seq<Event>, c: Client) {
    && c.start <= c.delivered <= LastId(outbox) && c.barrier <= LastId(outbox)
    && c.received == Between(outbox, c.session, c.start, c.delivered)
  }

  /** Every session row with an id in `(lo, hi]` is in `rows`. */
  ghost predicate AllIn(outbox: seq<Event>, session: string, lo: nat, hi: nat, rows: seq<Event>) {
    forall e :: e in outbox && InWindow(e, session, lo, hi) ==> e in rows
  }

  ghost predicate ReplayShape(outbox: seq<Event>, c: Client)
    requires c.phase.Replaying?
  {
    var Replaying(batch, done, _) := c.phase;
    && Increasing(batch)
    && (forall e :: e in batch ==> e in outbox && e.session == c.session && c.delivered < e.id)
    && (batch != [] ==> AllIn(outbox, c.session, c.delivered, batch[|batch| - 1].id, batch))
    && (done ==> AllIn(outbox, c.session, c.delivered, c.barrier, batch))
  }

  /** The stream relies on what its queue and its replay will bring, not on a full state to come. */
  predicate Listening(c: Client) { c.phase.Opened? || c.phase.Replaying? || c.phase.Live? }

  ghost predicate ClientOk(outbox: seq<Event>, c: Client, pending: seq<Event>, hi: nat) {
    && QueueShape(outbox, c)
    && (c.phase.Opened? || c.Streaming() ==> Seen(outbox, c))
    && (Listening(c) ==> ResetPending(c) || (Covered(outbox, c, pending, hi) && Ordered(outbox, c)))
    && (c.phase.Replaying? ==> ReplayShape(outbox, c))
    && (c.phase.Live? ==> AllIn(outbox, c.session, c.delivered, c.barrier, []))
    && (c.phase.Opened? ==> c.delivered == c.barrier)
    && (c.phase.HasMax? ==> c.phase.max <= LastId(outbox))
  }

  function Pending(s: Server): seq<Event> { if s.inflight.Some? then s.inflight.value.events else [] }

  function Reach(s: Server): nat { if s.inflight.Some? then Max(s.cursor, s.inflight.value.after) else s.cursor }

  ghost predicate BatchOk(outbox: seq<Event>, after: nat, events: seq<Event>) {
    && Increasing(events)
    && after <= LastId(outbox)
    && (forall e :: e in events ==> e in outbox && after < e.id)
    && (events != [] ==> forall e :: e in outbox && after < e.id <= events[|events| - 1].id ==> e in events)
  }

  ghost predicate Base(s: Server) {
    && Increasing(s.outbox)
    && s.cursor <= LastId(s.outbox)
    && 1 <= s.queueSize && 1 <= s.batchSize
    && (s.inflight.Some? ==> BatchOk(s.outbox, s.inflight.value.after, s.inflight.value.events) && |s.inflight.value.events| <= s.batchSize)
  }

  ghost predicate Inv(s: Server) {
    && Base(s)
    && forall c :: c in s.clients ==> ClientOk(s.outbox, s.clients[c], Pending(s), Reach(s))
  }

  // ---------------------------------------------------------------- queue lemmas

  lemma PushKeepsShape(outbox: seq<Event>, c: Client, item: Item, capacity: nat)
    requires QueueShape(outbox, c) && 1 <= capacity && !item.ResetRequired?
    requires item.Delta? ==> item.event in outbox && item.event.session == c.session
    ensures QueueShape(outbox, c.(queue := Push(c.queue, item, capacity)))
  {
  }

  /** A row pushed in outbox order keeps the queue ordered. */
  lemma PushKeepsOrder(outbox: seq<Event>, c: Client, item: Item, capacity: nat)
    requires Ordered(outbox, c) && |c.queue| < capacity && !item.ResetRequired?
    requires item.Delta? ==> forall e :: Owed(outbox, c, e) && e.id < item.event.id ==> Delta(e) in c.queue || StillReplays(c, e)
    ensures Ordered(outbox, c.(queue := Push(c.queue, item, capacity)))
  {
    var c' := c.(queue := Push(c.queue, item, capacity));
    forall j, e | 0 <= j < |c'.queue| && c'.queue[j].Delta? && Owed(outbox, c', e) && e.id < c'.queue[j].event.id
      ensures Delta(e) in c'.queue[..j] || StillReplays(c', e)
    {
      assert Owed(outbox, c, e);
      if j < |c.queue| {
        assert c'.queue[j] == c.queue[j];
        assert c'.queue[..j] == c.queue[..j];
      } else {
        assert c'.queue[..j] == c.queue;
      }
    }
  }

  /** Taking the first item off keeps order and coverage of whatever is still owed. */
  lemma DropKeepsQueue(outbox: seq<Event>, c: Client, c': Client, pending: seq<Event>, hi: nat)
    requires QueueShape(outbox, c) && c.queue != [] && !ResetPending(c)
    requires Covered(outbox, c, pending, hi) && Ordered(outbox, c)
    requires c.phase.Live? && c'.phase.Live?
    requires c'.queue == c.queue[1..] && c'.session == c.session && Floor(c) <= Floor(c')
    requires c.queue[0].Delta? ==> c.queue[0].event.id <= Floor(c')
    ensures QueueShape(outbox, c') && !ResetPending(c')
    ensures Covered(outbox, c', pending, hi) && Ordered(outbox, c')
  {
    forall i | 0 <= i < |c'.queue| ensures c'.queue[i] == c.queue[i + 1] {}
    forall e | Owed(outbox, c', e) && e.id <= hi ensures Delta(e) in c'.queue || e in pending {
      assert Owed(outbox, c, e);
      if Delta(e) in c.queue {
        var k :| 0 <= k < |c.queue| && c.queue[k] == Delta(e);
        assert k != 0;
        assert c'.queue[k - 1] == Delta(e);
      }
    }
    forall j, e | 0 <= j < |c'.queue| && c'.queue[j].Delta? && Owed(outbox, c', e) && e.id < c'.queue[j].event.id
      ensures Delta(e) in c'.queue[..j]
    {
      assert Owed(outbox, c, e) && c.queue[j + 1] == c'.queue[j];
      assert Delta(e) in c.queue[..j + 1];
      var k :| 0 <= k < j + 1 && c.queue[k] == Delta(e);
      assert k != 0;
      assert c'.queue[..j][k - 1] == Delta(e);
    }
  }

  /** After a full state taken now nothing committed is owed, whatever the queue holds. */
  lemma SnapshotSettles(outbox: seq<Event>, c: Client, heat: Option<nat>, pending: seq<Event>, hi: nat)
    requires Increasing(outbox) && QueueShape(outbox, c)
    ensures var c' := Snapshot(c, outbox, heat);
      && QueueShape(outbox, c') && Seen(outbox, c')
      && Covered(outbox, c', pending, hi) && Ordered(outbox, c')
      && c'.delivered == c'.barrier
      && forall e :: e in outbox && e.session == c.session ==> e.id <= c'.delivered
  {
    LatestBounds(outbox, c.session);
    var b := LatestOf(outbox, c.session);
    BetweenNone(outbox, c.session, b, b);
  }

  // ---------------------------------------------------------------- handler steps

  lemma SendNext(outbox: seq<Event>, c: Client, e: Event)
    requires Increasing(outbox) && Seen(outbox, c)
    requires e in outbox && e.session == c.session && c.delivered < e.id
    requires forall x :: x in outbox && x.session == c.session ==> !(c.delivered < x.id < e.id)
    ensures Seen(outbox, Send(c, e))
  {
    LatestBounds(outbox, c.session);
    BetweenSplit(outbox, c.session, c.start, c.delivered, e.id);
    BetweenNext(outbox, c.session, c.delivered, e);
  }

  /** A live stream's first queued row, if it is new, is the very next row of the session. */
  lemma FirstQueuedIsNext(outbox: seq<Event>, c: Client, e: Event)
    requires c.phase.Live? && Ordered(outbox, c) && AllIn(outbox, c.session, c.delivered, c.barrier, [])
    requires c.queue != [] && c.queue[0] == Delta(e)
    ensures forall x :: x in outbox && x.session == c.session ==> !(c.delivered < x.id < e.id)
  {
    forall x | x in outbox && x.session == c.session && c.delivered < x.id ensures e.id <= x.id {
      var inBarrier := InWindow(x, c.session, c.delivered, c.barrier);
      var owed := Owed(outbox, c, x);
      var before := c.queue[..0];
    }
  }

  lemma HandleOk(outbox: seq<Event>, c: Client, pending: seq<Event>, hi: nat)
    requires Increasing(outbox) && ClientOk(outbox, c, pending, hi) && c.phase.Live? && c.queue != []
    ensures ClientOk(outbox, Handle(c), pending, hi)
  {
    var rest := c.(queue := c.queue[1..]);
    var c' := Handle(c);
    assert QueueShape(outbox, rest) by {
      forall i | 0 <= i < |rest.queue| ensures rest.queue[i] == c.queue[i + 1] {}
    }
    match c.queue[0] {
      case ResetRequired =>
      case Quality => DropKeepsQueue(outbox, c, c', pending, hi);
      case Delta(e) =>
        if e.id <= c.delivered {
          DropKeepsQueue(outbox, c, c', pending, hi);
        } else if !ForeignHeat(c.activeHeat, e) {
          FirstQueuedIsNext(outbox, c, e);
          SendNext(outbox, rest, e);
          DropKeepsQueue(outbox, c, c', pending, hi);
        }
    }
  }

  lemma RefreshedOk(outbox: seq<Event>, c: Client, heat: Option<nat>, pending: seq<Event>, hi: nat)
    requires Increasing(outbox) && ClientOk(outbox, c, pending, hi) && c.phase.Refreshing?
    ensures ClientOk(outbox, Refreshed(c, outbox, heat), pending, hi)
  {
    SnapshotSettles(outbox, c, heat, pending, hi);
  }

  lemma FloorRises(outbox: seq<Event>, c: Client, c': Client, pending: seq<Event>, hi: nat)
    requires Covered(outbox, c, pending, hi) && Ordered(outbox, c)
    requires c'.queue == c.queue && c'.session == c.session && Floor(c) <= Floor(c')
    requires forall e :: Owed(outbox, c', e) && StillReplays(c, e) ==> StillReplays(c', e)
    ensures Covered(outbox, c', pending, hi) && Ordered(outbox, c')
  {
    forall e | Owed(outbox, c', e) ensures Owed(outbox, c, e) {}
  }

  /** The rest of a replay batch stays the contiguous run above the row just sent. */
  lemma BatchAdvances(outbox: seq<Event>, c: Client, c': Client)
    requires c.phase.Replaying? && ReplayShape(outbox, c) && c.phase.batch != []
    requires c'.phase.Replaying? && c'.phase.batch == c.phase.batch[1..] && c'.phase.done == c.phase.done
    requires c'.session == c.session && c'.barrier == c.barrier && c'.delivered == c.phase.batch[0].id
    ensures ReplayShape(outbox, c')
  {
    var batch := c.phase.batch;
    assert batch == [batch[0]] + batch[1..];
    forall x | x in batch[1..] ensures x in batch && batch[0].id < x.id {
      var k :| 0 <= k < |batch[1..]| && batch[1..][k] == x;
      assert batch[k + 1] == x;
    }
    forall x, hi: nat | AllIn(outbox, c.session, c.delivered, hi, batch) && x in outbox && InWindow(x, c.session, batch[0].id, hi)
      ensures x in batch[1..]
    {
      assert InWindow(x, c.session, c.delivered, hi);
    }
  }

  /** A replay batch starts with the very next row of the session. */
  lemma FirstInBatchIsNext(outbox: seq<Event>, c: Client)
    requires c.phase.Replaying? && ReplayShape(outbox, c) && c.phase.batch != []
    ensures forall x :: x in outbox && x.session == c.session ==> !(c.delivered < x.id < c.phase.batch[0].id)
  {
    var batch := c.phase.batch;
    forall x | x in outbox && x.session == c.session && c.delivered < x.id ensures batch[0].id <= x.id {
      if x.id <= batch[|batch| - 1].id {
        assert InWindow(x, c.session, c.delivered, batch[|batch| - 1].id);
      }
    }
  }

  lemma ReplayOneOk(outbox: seq<Event>, c: Client, pending: seq<Event>, hi: nat)
    requires Increasing(outbox) && ClientOk(outbox, c, pending, hi)
    requires c.phase.Replaying? && c.phase.batch != []
    ensures ClientOk(outbox, ReplayOne(c), pending, hi)
  {
    var e := c.phase.batch[0];
    assert e in c.phase.batch;
    var c' := ReplayOne(c);
    if !ForeignHeat(c.activeHeat, e) {
      FirstInBatchIsNext(outbox, c);
      SendNext(outbox, c, e);
      BatchAdvances(outbox, c, c');
      if !ResetPending(c) {
        assert c.phase.batch == [e] + c.phase.batch[1..];
        FloorRises(outbox, c, c', pending, hi);
      }
    }
  }

  lemma ReadReplayOk(outbox: seq<Event>, c: Client, pending: seq<Event>, hi: nat)
    requires Increasing(outbox) && ClientOk(outbox, c, pending, hi)
    requires c.phase.Replaying? && c.phase.batch == []
    ensures ClientOk(outbox, ReadReplay(c, outbox), pending, hi)
  {
    FirstOfSessionIsContiguous(outbox, c.session, c.delivered, DEFAULT_BATCH_SIZE);
    var c' := ReadReplay(c, outbox);
    if !ResetPending(c) {
      FloorRises(outbox, c, c', pending, hi);
    }
  }

  lemma FinishReplayOk(outbox: seq<Event>, c: Client, pending: seq<Event>, hi: nat)
    requires Increasing(outbox) && ClientOk(outbox, c, pending, hi)
    requires c.phase.Replaying? && c.phase.batch == []
    requires c.phase.done || c.phase.replayed >= REPLAY_LIMIT
    ensures ClientOk(outbox, FinishReplay(c), pending, hi)
  {
    if c.phase.replayed < REPLAY_LIMIT && !ResetPending(c) {
      FloorRises(outbox, c, FinishReplay(c), pending, hi);
    }
  }

  lemma DecideOk(outbox: seq<Event>, c: Client, requested: Option<nat>, pending: seq<Event>, hi: nat)
    requires Increasing(outbox) && ClientOk(outbox, c, pending, hi) && c.phase.Opened?
    ensures ClientOk(outbox, DecideStart(c, outbox, requested), pending, hi)
  {
    LatestBounds(outbox, c.session);
    var c' := DecideStart(c, outbox, requested);
    BetweenNone(outbox, c.session, c'.start, c'.start);
    if !ResetPending(c) {
      FloorRises(outbox, c, c', pending, hi);
    }
  }

  lemma OpenOk(outbox: seq<Event>, c: Client, heat: Option<nat>, pending: seq<Event>, hi: nat)
    requires Increasing(outbox) && ClientOk(outbox, c, pending, hi)
    ensures ClientOk(outbox, Snapshot(c, outbox, heat).(phase := Opened), pending, hi)
  {
    SnapshotSettles(outbox, c, heat, pending, hi);
  }

  // ---------------------------------------------------------------- producer and broker steps

  lemma AppendQueueOk(outbox: seq<Event>, e: Event, c: Client, pending: seq<Event>, hi: nat)
    requires Increasing(outbox) && LastId(outbox) < e.id && hi <= LastId(outbox)
    requires QueueShape(outbox, c) && Covered(outbox, c, pending, hi) && Ordered(outbox, c)
    ensures Covered(outbox + [e], c, pending, hi) && Ordered(outbox + [e], c)
  {
    LatestBounds(outbox, c.session);
    forall x | Owed(outbox + [e], c, x) && x != e ensures Owed(outbox, c, x) {}
  }

  lemma AppendReplayOk(outbox: seq<Event>, e: Event, c: Client)
    requires Increasing(outbox) && LastId(outbox) < e.id && c.barrier <= LastId(outbox)
    requires c.phase.Replaying? && ReplayShape(outbox, c)
    ensures ReplayShape(outbox + [e], c)
  {
    LatestBounds(outbox, c.session);
    if c.phase.batch != [] {
      assert c.phase.batch[|c.phase.batch| - 1] in c.phase.batch;
    }
  }

  lemma AppendOk(outbox: seq<Event>, e: Event, c: Client, pending: seq<Event>, hi: nat)
    requires Increasing(outbox) && LastId(outbox) < e.id && hi <= LastId(outbox)
    requires ClientOk(outbox, c, pending, hi)
    ensures ClientOk(outbox + [e], c, pending, hi)
  {
    if c.phase.Opened? || c.Streaming() {
      BetweenCommit(outbox, e, c.session, c.start, c.delivered);
    }
    if Listening(c) && !ResetPending(c) {
      AppendQueueOk(outbox, e, c, pending, hi);
    }
    if c.phase.Replaying? {
      AppendReplayOk(outbox, e, c);
    }
  }

  lemma BatchOkGrows(outbox: seq<Event>, e: Event, after: nat, events: seq<Event>)
    requires Increasing(outbox) && LastId(outbox) < e.id && BatchOk(outbox, after, events)
    ensures BatchOk(outbox + [e], after, events)
  {
    if events != [] {
      assert events[|events| - 1] in events;
      LatestBounds(outbox, e.session);
    }
  }

  /** Fanning out the next polled row to one stream. */
  lemma FanoutOneOk(outbox: seq<Event>, c: Client, e: Event, rest: seq<Event>, cursor: nat, after: nat, capacity: nat)
    requires Increasing(outbox) && 1 <= capacity && BatchOk(outbox, after, [e] + rest)
    requires ClientOk(outbox, c, [e] + rest, Max(cursor, after))
    ensures ClientOk(outbox, PushTo(c, e.session, Delta(e), capacity), rest, Max(Max(cursor, e.id), e.id))
  {
    var c' := PushTo(c, e.session, Delta(e), capacity);
    var pending := [e] + rest;
    assert e == pending[0] && e in pending;
    if c.Subscribed() && c.session == e.session {
      PushKeepsShape(outbox, c, Delta(e), capacity);
    }
    if Listening(c) && !ResetPending(c') {
      BatchHeadIsNext(outbox, e, rest, after);
      forall x | Owed(outbox, c, x) && x.id <= Max(cursor, e.id) ensures Delta(x) in c'.queue || x in rest || StillReplays(c', x) {
        if x.id <= Max(cursor, after) {
          assert Delta(x) in c.queue || x in pending || StillReplays(c, x);
        } else {
          assert x.id == e.id;
          IdsIdentify(outbox, x, e);
        }
      }
      if c.session == e.session {
        forall x | Owed(outbox, c, x) && x.id < e.id ensures Delta(x) in c.queue || StillReplays(c, x) {
          assert x.id <= Max(cursor, after);
          assert x !in pending;
        }
        PushKeepsOrder(outbox, c, Delta(e), capacity);
      }
    }
  }

  lemma HeadIsLeast(e: Event, rest: seq<Event>)
    requires Increasing([e] + rest)
    ensures Increasing(rest)
    ensures forall x :: x in rest ==> e.id < x.id
  {
    var pending := [e] + rest;
    forall i, j | 0 <= i < j < |rest| ensures rest[i].id < rest[j].id {
      assert pending[i + 1] == rest[i] && pending[j + 1] == rest[j];
    }
    forall x | x in rest ensures e.id < x.id {
      var k :| 0 <= k < |rest| && rest[k] == x;
      assert pending[0] == e && pending[k + 1] == x;
    }
  }

  lemma BatchHeadIsNext(outbox: seq<Event>, e: Event, rest: seq<Event>, after: nat)
    requires Increasing(outbox) && BatchOk(outbox, after, [e] + rest)
    ensures forall x :: x in outbox && after < x.id ==> e.id <= x.id
    ensures forall x :: x in [e] + rest ==> e.id <= x.id
    ensures BatchOk(outbox, e.id, rest)
  {
    var pending := [e] + rest;
    HeadIsLeast(e, rest);
    assert forall x :: x in pending <==> x == e || x in rest;
    assert e in pending && pending[|pending| - 1] in pending;
    LatestBounds(outbox, e.session);
    if rest != [] {
      assert rest[|rest| - 1] == pending[|pending| - 1];
    }
    forall x | x in outbox && after < x.id ensures e.id <= x.id {
      assert x.id <= pending[|pending| - 1].id ==> x in pending;
    }
  }

  lemma {:induction false} DeliverOk(s: Server, events: seq<Event>, after: nat)
    requires Base(s) && s.inflight.None? && BatchOk(s.outbox, after, events)
    requires forall c :: c in s.clients ==> ClientOk(s.outbox, s.clients[c], events, Max(s.cursor, after))
    ensures Inv(Deliver(s, events))
    decreases |events|
  {
    if events == [] {
      forall c | c in s.clients ensures ClientOk(s.outbox, s.clients[c], [], s.cursor) {
        assert ClientOk(s.outbox, s.clients[c], events, Max(s.cursor, after));
      }
    } else {
      var e, rest := events[0], events[1..];
      assert events == [e] + rest;
      var s' := s.(cursor := Max(s.cursor, e.id),
                   clients := Fanout(s.clients, e.session, Delta(e), s.queueSize));
      BatchHeadIsNext(s.outbox, e, rest, after);
      assert e in events;
      LatestBounds(s.outbox, e.session);
      forall c | c in s'.clients ensures ClientOk(s'.outbox, s'.clients[c], rest, Max(s'.cursor, e.id)) {
        FanoutOneOk(s.outbox, s.clients[c], e, rest, s.cursor, after, s.queueSize);
      }
      DeliverOk(s', rest, e.id);
    }
  }

  lemma QualityOk(outbox: seq<Event>, c: Client, session: string, pending: seq<Event>, hi: nat, capacity: nat)
    requires 1 <= capacity && ClientOk(outbox, c, pending, hi)
    ensures ClientOk(outbox, PushTo(c, session, Quality, capacity), pending, hi)
  {
    var c' := PushTo(c, session, Quality, capacity);
    if c.Subscribed() && c.session == session {
      PushKeepsShape(outbox, c, Quality, capacity);
      if Listening(c) && !ResetPending(c') {
        forall x | Owed(outbox, c, x) && x.id <= hi ensures Delta(x) in c'.queue || x in pending || StillReplays(c', x) {}
        PushKeepsOrder(outbox, c, Quality, capacity);
      }
    }
  }

  // ---------------------------------------------------------------- every step, every run

  lemma InitOk(s: Server)
    requires Init(s)
    ensures Inv(s)
  {
  }

  /** The two steps that change the broker's view of the outbox. */
  lemma PollReadOk(s: Server)
    requires Inv(s) && Enabled(s, PollRead)
    ensures Inv(Next(s, PollRead))
  {
    FirstAfterIsContiguous(s.outbox, s.cursor, s.batchSize);
    var s' := Next(s, PollRead);
    forall c | c in s'.clients ensures ClientOk(s'.outbox, s'.clients[c], Pending(s'), Reach(s')) {
      assert ClientOk(s.outbox, s.clients[c], [], s.cursor);
    }
  }

  /** A registration that assigns `max` to the shared cursor takes row `e` from stream `k`: the
      stream owes it and relies on the broker for it, and no later poll will bring it. */
  ghost predicate Lost(s: Server, max: nat, k: nat, e: Event)
    requires k in s.clients
  {
    var client := s.clients[k];
    && Listening(client) && !ResetPending(client)
    && Owed(s.outbox, client, e) && Reach(s) < e.id <= max
    && Delta(e) !in client.queue && e !in Pending(s) && !StillReplays(client, e)
  }

  /** `subscribe` assigns a reading of the newest id made before an await. That is harmless
      exactly while it takes no row from any stream. */
  ghost predicate CursorMoveSafe(s: Server, step: Step)
    requires Enabled(s, step)
  {
    step.Register? ==> forall k, e :: k in s.clients ==> !Lost(s, s.clients[step.c].phase.max, k, e)
  }

  ghost predicate SafeRun(states: seq<Server>, steps: seq<Step>) {
    && Run(states, steps)
    && forall i :: 0 <= i < |steps| ==> CursorMoveSafe(states[i], steps[i])
  }

  lemma RegisterOk(s: Server, c: nat)
    requires Inv(s) && Enabled(s, Register(c)) && CursorMoveSafe(s, Register(c))
    ensures Inv(Next(s, Register(c)))
  {
    var s' := Next(s, Register(c));
    forall k | k in s'.clients ensures ClientOk(s'.outbox, s'.clients[k], Pending(s'), Reach(s')) {
      var client := s.clients[k];
      assert ClientOk(s.outbox, client, Pending(s), Reach(s));
      if k != c && Listening(client) && !ResetPending(client) {
        forall e | Owed(s.outbox, client, e) && e.id <= Reach(s')
          ensures Delta(e) in client.queue || e in Pending(s) || StillReplays(client, e)
        {
          assert !Lost(s, s.clients[c].phase.max, k, e);
        }
      }
    }
  }

  lemma AppendInvOk(s: Server, e: Event)
    requires Inv(s) && Enabled(s, Append(e))
    ensures Inv(Next(s, Append(e)))
  {
    var s' := Next(s, Append(e));
    LatestBounds(s.outbox, e.session);
    if s.inflight.Some? {
      BatchOkGrows(s.outbox, e, s.inflight.value.after, s.inflight.value.events);
    }
    forall c | c in s'.clients ensures ClientOk(s'.outbox, s'.clients[c], Pending(s'), Reach(s')) {
      AppendOk(s.outbox, e, s.clients[c], Pending(s), Reach(s));
    }
  }

  lemma ClientStepOk(s: Server, step: Step)
    requires Inv(s) && Enabled(s, step)
    requires step.TakeSnapshot? || step.Decide? || step.ReplayRead? || step.ReplayNext? || step.ReplayEnd? || step.Pop? || step.Refresh?
    ensures Inv(Next(s, step))
  {
    var client, pending, hi := s.clients[step.c], Pending(s), Reach(s);
    assert ClientOk(s.outbox, client, pending, hi);
    match step {
      case TakeSnapshot(_, heat) => OpenOk(s.outbox, client, heat, pending, hi);
      case Decide(_, requested) => DecideOk(s.outbox, client, requested, pending, hi);
      case ReplayRead(_) => ReadReplayOk(s.outbox, client, pending, hi);
      case ReplayNext(_) => ReplayOneOk(s.outbox, client, pending, hi);
      case ReplayEnd(_) => FinishReplayOk(s.outbox, client, pending, hi);
      case Pop(_) => HandleOk(s.outbox, client, pending, hi);
      case Refresh(_, heat) => RefreshedOk(s.outbox, client, heat, pending, hi);
    }
  }

  /** Every step that does not drag the shared cursor past a registered stream keeps the
      whole no-gap invariant, for every stream at once. */
  lemma StepKeepsInvariant(s: Server, step: Step)
    requires Inv(s) && Enabled(s, step) && CursorMoveSafe(s, step)
    ensures Inv(Next(s, step))
  {
    match step {
      case Append(e) => AppendInvOk(s, e);
      case Register(c) => RegisterOk(s, c);
      case PollRead => PollReadOk(s);
      case PollFanout =>
        var b := s.inflight.value;
        var s' := s.(inflight := None);
        forall c | c in s'.clients ensures ClientOk(s'.outbox, s'.clients[c], b.events, Max(s'.cursor, b.after)) {
          assert ClientOk(s.outbox, s.clients[c], Pending(s), Reach(s));
        }
        DeliverOk(s', b.events, b.after);
      case QualityTick(session) =>
        var s' := Next(s, step);
        forall c | c in s'.clients ensures ClientOk(s'.outbox, s'.clients[c], Pending(s'), Reach(s')) {
          QualityOk(s.outbox, s.clients[c], session, Pending(s), Reach(s), s.queueSize);
        }
      case SubscribeIdle(_, _) =>
      case SubscribeBusy(_, _) =>
      case ReadMax(_) =>
      case Leave(_) =>
      case _ => ClientStepOk(s, step);
    }
  }

  lemma {:induction false} RunKeepsInvariant(states: seq<Server>, steps: seq<Step>, k: nat)
    requires SafeRun(states, steps) && k < |states|
    ensures Inv(states[k])
  {
    if k == 0 {
      InitOk(states[0]);
    } else {
      RunKeepsInvariant(states, steps, k - 1);
      StepKeepsInvariant(states[k - 1], steps[k - 1]);
    }
  }

  // ---------------------------------------------------------------- results

  /** What a streaming browser holds: exactly the session's rows since its last full state
      or accepted cursor, each once, in increasing id. */
  ghost predicate GapFree(s: Server, c: Client) {
    && c.received == Between(s.outbox, c.session, c.start, c.delivered)
    && Increasing(c.received)
  }

  /** Gap-free delivery over every run, at every moment, for every stream. */
  lemma GapFreeDelivery(states: seq<Server>, steps: seq<Step>, k: nat, c: nat)
    requires SafeRun(states, steps) && k < |states|
    requires c in states[k].clients && states[k].clients[c].Streaming()
    ensures GapFree(states[k], states[k].clients[c])
  {
    RunKeepsInvariant(states, steps, k);
    var client := states[k].clients[c];
    assert ClientOk(states[k].outbox, client, Pending(states[k]), Reach(states[k]));
    BetweenIncreasing(states[k].outbox, client.session, client.start, client.delivered);
  }

  /** Where a committed row above `delivered` can be: behind a pending reset, queued, in the
      polled batch, above the broker cursor, still to be replayed, or in the full state being
      read. */
  ghost predicate Accounted(s: Server, c: Client, e: Event) {
    || ResetPending(c)
    || Delta(e) in c.queue
    || e in Pending(s)
    || s.cursor < e.id
    || StillReplays(c, e)
    || c.phase.Refreshing?
  }

  lemma UndeliveredIsAccounted(states: seq<Server>, steps: seq<Step>, k: nat, c: nat, e: Event)
    requires SafeRun(states, steps) && k < |states|
    requires c in states[k].clients && states[k].clients[c].Streaming()
    requires e in states[k].outbox && e.session == states[k].clients[c].session && states[k].clients[c].delivered < e.id
    ensures Accounted(states[k], states[k].clients[c], e)
  {
    RunKeepsInvariant(states, steps, k);
    var s, client := states[k], states[k].clients[c];
    assert ClientOk(s.outbox, client, Pending(s), Reach(s));
    if !ResetPending(client) && !client.phase.Refreshing? {
      if Floor(client) < e.id {
        assert Owed(s.outbox, client, e);
      } else {
        assert InWindow(e, client.session, client.delivered, client.barrier);
      }
    }
  }

  /** A live stream with an empty queue and a caught-up broker has sent everything. */
  lemma QuietStreamIsCurrent(states: seq<Server>, steps: seq<Step>, k: nat, c: nat)
    requires SafeRun(states, steps) && k < |states|
    requires c in states[k].clients && states[k].clients[c].phase.Live? && states[k].clients[c].queue == []
    requires states[k].inflight.None? && states[k].cursor == LastId(states[k].outbox)
    ensures var s, client := states[k], states[k].clients[c];
      && LatestOf(s.outbox, client.session) <= client.delivered
      && client.received == Between(s.outbox, client.session, client.start, LastId(s.outbox))
  {
    GapFreeDelivery(states, steps, k, c);
    RunKeepsInvariant(states, steps, k);
    var s, client := states[k], states[k].clients[c];
    assert ClientOk(s.outbox, client, Pending(s), Reach(s));
    LatestBounds(s.outbox, client.session);
    forall e | e in s.outbox && e.session == client.session ensures e.id <= client.delivered {
      if client.delivered < e.id {
        UndeliveredIsAccounted(states, steps, k, c, e);
      }
    }
    BetweenSplit(s.outbox, client.session, client.start, client.delivered, LastId(s.outbox));
    BetweenNone(s.outbox, client.session, client.delivered, LastId(s.outbox));
  }

  // ---------------------------------------------------------------- the subscribe race

  /** In any state of a safe run, whatever is in flight and however many streams there are: the
      registration keeps every stream's coverage exactly when it takes no row from any. */
  lemma RegisterCostsExactly(s: Server, c: nat)
    requires Inv(s) && Enabled(s, Register(c))
    ensures Inv(Next(s, Register(c))) <==> CursorMoveSafe(s, Register(c))
  {
    var max, s' := s.clients[c].phase.max, Next(s, Register(c));
    if CursorMoveSafe(s, Register(c)) {
      RegisterOk(s, c);
    } else {
      var k, e :| k in s.clients && Lost(s, max, k, e);
      assert s'.clients[k] == s.clients[k];
      assert !Covered(s'.outbox, s'.clients[k], Pending(s'), Reach(s'));
    }
  }

  const FIRST_ROW := Event(1, "s", None)
  const SECOND_ROW := Event(2, "s", None)

  /** Two browsers open at once; the second assigns its late reading of the global cursor
      while a row the first one is owed has not been polled yet. */
  function RaceSteps(): seq<Step> {
    [SubscribeIdle(0, "s"), SubscribeIdle(1, "s"), ReadMax(0), Register(0),
     TakeSnapshot(0, None), Decide(0, None), Append(FIRST_ROW), ReadMax(1), Register(1),
     Append(SECOND_ROW), PollRead, PollFanout, Pop(0)]
  }

  const SETTLED := Client("s", Live, [], 0, None, 0, 0, [])

  function RaceServer(outbox: seq<Event>, cursor: nat, inflight: Option<Batch>, clients: map<nat, Client>): Server {
    Server(outbox, cursor, inflight, 128, 128, clients)
  }

  const SECOND := NewClient("s", Checked)
  const LATE := NewClient("s", HasMax(1))
  const QUEUED := [Delta(SECOND_ROW)]

  function RaceState(i: nat): Server
    requires i < 14
  {
    var one, both := [FIRST_ROW], [FIRST_ROW, SECOND_ROW];
    match i
    case 0 => RaceServer([], 0, None, map[])
    case 1 => RaceServer([], 0, None, map[0 := NewClient("s", Checked)])
    case 2 => RaceServer([], 0, None, map[0 := NewClient("s", Checked), 1 := SECOND])
    case 3 => RaceServer([], 0, None, map[0 := NewClient("s", HasMax(0)), 1 := SECOND])
    case 4 => RaceServer([], 0, None, map[0 := NewClient("s", Registered), 1 := SECOND])
    case 5 => RaceServer([], 0, None, map[0 := NewClient("s", Opened), 1 := SECOND])
    case 6 => RaceServer([], 0, None, map[0 := SETTLED, 1 := SECOND])
    case 7 => RaceServer(one, 0, None, map[0 := SETTLED, 1 := SECOND])
    case 8 => RaceServer(one, 0, None, map[0 := SETTLED, 1 := LATE])
    case 9 => RaceServer(one, 1, None, map[0 := SETTLED, 1 := NewClient("s", Registered)])
    case 10 => RaceServer(both, 1, None, map[0 := SETTLED, 1 := NewClient("s", Registered)])
    case 11 => RaceServer(both, 1, Some(Batch(1, [SECOND_ROW])), map[0 := SETTLED, 1 := NewClient("s", Registered)])
    case 12 => RaceServer(both, 2, None,
      map[0 := SETTLED.(queue := QUEUED), 1 := NewClient("s", Registered).(queue := QUEUED)])
    case _ => RaceServer(both, 2, None,
      map[0 := SETTLED.(delivered := 2, received := [SECOND_ROW]), 1 := NewClient("s", Registered).(queue := QUEUED)])
  }

  ghost predicate RaceHop(i: nat) {
    i < 13 && Enabled(RaceState(i), RaceSteps()[i]) && Next(RaceState(i), RaceSteps()[i]) == RaceState(i + 1)
  }

  lemma RaceSubscribes()
    ensures RaceHop(0) && RaceHop(1)
  {
    assert RaceSteps()[0] == SubscribeIdle(0, "s") && RaceSteps()[1] == SubscribeIdle(1, "s");
    assert Next(RaceState(0), SubscribeIdle(0, "s")).clients == RaceState(1).clients;
    assert Next(RaceState(1), SubscribeIdle(1, "s")).clients == RaceState(2).clients;
  }

  lemma RaceFirstRegisters()
    ensures RaceHop(2) && RaceHop(3)
  {
    assert RaceSteps()[2] == ReadMax(0) && RaceSteps()[3] == Register(0);
    assert Next(RaceState(2), ReadMax(0)).clients == RaceState(3).clients;
    assert Next(RaceState(3), Register(0)).clients == RaceState(4).clients;
  }

  lemma RaceFirstOpens()
    ensures RaceHop(4) && RaceHop(5)
  {
    assert RaceSteps()[4] == TakeSnapshot(0, None) && RaceSteps()[5] == Decide(0, None);
    assert Next(RaceState(4), TakeSnapshot(0, None)).clients == RaceState(5).clients;
    assert Next(RaceState(5), Decide(0, None)).clients == RaceState(6).clients;
  }

  lemma RaceSecondReads()
    ensures RaceHop(6) && RaceHop(7)
  {
    assert RaceSteps()[6] == Append(FIRST_ROW) && RaceSteps()[7] == ReadMax(1);
    assert Next(RaceState(7), ReadMax(1)).clients == RaceState(8).clients;
  }

  lemma RaceSecondOvertakes()
    ensures RaceHop(8) && RaceHop(9)
  {
    assert RaceSteps()[8] == Register(1) && RaceSteps()[9] == Append(SECOND_ROW);
    assert Next(RaceState(8), Register(1)).clients == RaceState(9).clients;
  }

  lemma RaceIsUnsafe()
    ensures Enabled(RaceState(8), Register(1)) && !CursorMoveSafe(RaceState(8), Register(1))
  {
    var s8 := RaceState(8);
    assert Owed(s8.outbox, s8.clients[0], FIRST_ROW) && Lost(s8, 1, 0, FIRST_ROW);
  }

  lemma RacePolls()
    ensures RaceHop(10)
  {
    assert RaceSteps()[10] == PollRead;
    assert RaceState(10).clients[0].Subscribed();
    var both := RaceState(10).outbox;
    assert both[1..] == [SECOND_ROW] && Above(both, 1) == Above(both[1..], 1);
  }

  lemma RaceFansOut()
    ensures RaceHop(11)
  {
    assert RaceSteps()[11] == PollFanout;
    var s11, s12 := RaceState(11), RaceState(12);
    var out := Fanout(s11.clients, "s", Delta(SECOND_ROW), 128);
    assert out[0] == s12.clients[0] && out[1] == s12.clients[1];
    assert out == s12.clients;
    assert [SECOND_ROW][1..] == [];
  }

  lemma RaceFirstReceives()
    ensures RaceHop(12)
  {
    assert RaceSteps()[12] == Pop(0);
    var client := RaceState(12).clients[0];
    assert client.queue[1..] == [];
    assert Handle(client) == RaceState(13).clients[0];
    assert Next(RaceState(12), Pop(0)).clients == RaceState(13).clients;
  }

  lemma RaceHopsAll(i: nat)
    requires i < 13
    ensures RaceHop(i)
  {
    if i < 2 {
      RaceSubscribes();
    } else if i < 4 {
      RaceFirstRegisters();
    } else if i < 6 {
      RaceFirstOpens();
    } else if i < 8 {
      RaceSecondReads();
    } else if i < 10 {
      RaceSecondOvertakes();
    } else if i < 12 {
      RacePolls();
      RaceFansOut();
    } else {
      RaceFirstReceives();
    }
  }

  lemma RaceIsARun(states: seq<Server>)
    requires |states| == 14 && forall i :: 0 <= i < 14 ==> states[i] == RaceState(i)
    ensures Run(states, RaceSteps())
  {
    var steps := RaceSteps();
    forall i | 0 <= i < |steps| ensures Enabled(states[i], steps[i]) && states[i + 1] == Next(states[i], steps[i]) {
      RaceHopsAll(i);
    }
  }

  /** The run exists, and it breaks gap-free delivery: the first browser is sent row 2 and
      never row 1. So the guard of `SafeRun` cannot be dropped. */
  lemma SubscribeRaceLosesARow() returns (states: seq<Server>)
    ensures Run(states, RaceSteps()) && !SafeRun(states, RaceSteps())
    ensures var s := states[|states| - 1]; 0 in s.clients && s.clients[0].phase.Live? && !GapFree(s, s.clients[0])
  {
    states := seq(14, i requires 0 <= i < 14 => RaceState(i));
    RaceIsARun(states);
    RaceIsUnsafe();
    UnsafeStep(states, RaceSteps(), 8);
    RaceEndHasGap();
    assert states[13] == RaceState(13);
  }

  lemma UnsafeStep(states: seq<Server>, steps: seq<Step>, i: nat)
    requires Run(states, steps) && i < |steps| && !CursorMoveSafe(states[i], steps[i])
    ensures !SafeRun(states, steps)
  {
  }

  lemma RaceEndHasGap()
    ensures !GapFree(RaceState(13), RaceState(13).clients[0])
  {
    var s := RaceState(13);
    assert FIRST_ROW in Between(s.outbox, "s", 0, 2);
    assert FIRST_ROW !in [SECOND_ROW];
  }
}
