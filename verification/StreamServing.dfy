/** The broker object and the per-request stream object, written as the loops they are and
    proved against the protocol's step functions. */
module StreamServing {
  import opened Common
  import opened StreamOutbox
  import opened StreamProtocol

  datatype Subscription = Subscription(session: string, items: seq<Item>)

  /** The queues the broker sees: those of the registered streams. */
  function QueuesOf(clients: map<nat, Client>): map<nat, Subscription> {
    map c | c in clients && clients[c].Subscribed() :: Subscription(clients[c].session, clients[c].queue)
  }

  function Offer(sub: Subscription, session: string, item: Item, capacity: nat): Subscription {
    if sub.session == session then sub.(items := Push(sub.items, item, capacity)) else sub
  }

  lemma OfferIsFanout(clients: map<nat, Client>, session: string, item: Item, capacity: nat, offered: map<nat, Subscription>)
    requires offered.Keys == QueuesOf(clients).Keys
    requires forall c :: c in offered ==> offered[c] == Offer(QueuesOf(clients)[c], session, item, capacity)
    ensures offered == QueuesOf(Fanout(clients, session, item, capacity))
  {
    var after := QueuesOf(Fanout(clients, session, item, capacity));
    assert after.Keys == offered.Keys;
  }

  class TimingStreamBroker {
    const queueSize: nat
    var queues: map<nat, Subscription>
    var lastEventId: nat

    constructor (queueSize: nat, lastGlobalId: nat)
      requires 1 <= queueSize
      ensures this.queueSize == queueSize && queues == map[] && lastEventId == lastGlobalId
    {
      this.queueSize := queueSize;
      queues := map[];
      lastEventId := lastGlobalId;
    }

    ghost predicate Serves(s: Server)
      reads this
    {
      queueSize == s.queueSize && queues == QueuesOf(s.clients) && lastEventId == s.cursor
    }

    /** The synchronous tail of `subscribe`: assign the cursor read earlier, if the caller saw
        no subscribers, and register an empty queue. */
    method Register(c: nat, session: string, readMax: Option<nat>, ghost s: Server)
      requires Serves(s)
      requires readMax.Some? ==>
        c in s.clients && s.clients[c].session == session && s.clients[c].queue == [] && s.clients[c].phase == HasMax(readMax.value)
      requires readMax.None? ==> Enabled(s, SubscribeBusy(c, session))
      modifies this
      ensures Serves(Next(s, if readMax.Some? then Step.Register(c) else SubscribeBusy(c, session)))
      ensures queues == old(queues)[c := Subscription(session, [])]
    {
      if readMax.Some? {
        lastEventId := readMax.value;
      }
      queues := queues[c := Subscription(session, [])];
    }

    method Unsubscribe(c: nat, ghost s: Server)
      requires Serves(s) && c in s.clients
      modifies this
      ensures Serves(Next(s, Leave(c)))
    {
      queues := queues - {c};
    }

    /** Offer one item to every queue of a session; a full queue is drained down to a marker. */
    method FanOut(session: string, item: Item, ghost s: Server)
      requires Serves(s) && 1 <= queueSize
      modifies `queues
      ensures Serves(s.(clients := Fanout(s.clients, session, item, s.queueSize)))
    {
      var todo := queues.Keys;
      var offered: map<nat, Subscription> := queues;
      while todo != {}
        invariant todo <= offered.Keys == queues.Keys
        invariant forall c :: c in queues ==> offered[c] == if c in todo then queues[c] else Offer(queues[c], session, item, queueSize)
        decreases todo
      {
        var c :| c in todo;
        var queue := offered[c];
        if queue.session == session {
          if |queue.items| < queueSize {
            offered := offered[c := queue.(items := queue.items + [item])];
          } else {
            offered := offered[c := queue.(items := [ResetRequired])];
          }
        }
        todo := todo - {c};
      }
      OfferIsFanout(s.clients, session, item, queueSize, offered);
      queues := offered;
    }

    /** The body of one poll: walk the batch in order, moving the cursor before each fan-out. */
    method PollBatch(events: seq<Event>, ghost s: Server)
      requires Serves(s) && 1 <= queueSize
      modifies this
      ensures Serves(Deliver(s, events))
    {
      ghost var now := s;
      var i := 0;
      while i < |events|
        invariant 0 <= i <= |events|
        invariant Serves(now) && Deliver(s, events) == Deliver(now, events[i..])
      {
        var e := events[i];
        lastEventId := if lastEventId < e.id then e.id else lastEventId;
        FanOut(e.session, Delta(e), now.(cursor := Max(now.cursor, e.id)));
        now := now.(cursor := Max(now.cursor, e.id), clients := Fanout(now.clients, e.session, Delta(e), now.queueSize));
        assert events[i..][1..] == events[i + 1..];
        i := i + 1;
      }
    }
  }

  /** Replaying one database batch to its end, or to the row that cuts it short. */
  function DrainBatch(client: Client): (r: Client)
    requires client.phase.Replaying?
    ensures r.phase.Refreshing? || (r.phase.Replaying? && r.phase.batch == [])
    decreases |client.phase.batch|
  {
    if client.phase.batch == [] then client
    else
      var next := ReplayOne(client);
      if next.phase.Replaying? then DrainBatch(next) else next
  }

  /** The local variables of `event_stream` and what it has yielded since its last full state. */
  class EventStream {
    const session: string
    var queue: seq<Item>
    var barrier: nat
    var delivered: nat
    var activeHeat: Option<nat>
    var replayed: nat
    var start: nat
    var yielded: seq<Event>

    constructor (session: string, queue: seq<Item>, barrier: nat, heat: Option<nat>, cursor: Option<nat>)
      ensures this.session == session && this.queue == queue && replayed == 0
      ensures Model(Live) == Client(session, Live, queue, barrier, heat,
                                    if cursor.Some? then cursor.value else barrier,
                                    if cursor.Some? then cursor.value else barrier, [])
    {
      this.session := session;
      this.queue := queue;
      this.barrier := barrier;
      activeHeat := heat;
      replayed := 0;
      delivered := if cursor.Some? then cursor.value else barrier;
      start := if cursor.Some? then cursor.value else barrier;
      yielded := [];
    }

    ghost function Model(phase: Phase): Client
      reads this
    {
      Client(session, phase, queue, barrier, activeHeat, start, delivered, yielded)
    }

    /** Yield a `reset` with a fresh full state. */
    method YieldReset(outbox: seq<Event>, heat: Option<nat>, ghost replaying: bool)
      modifies this
      ensures Model(if replaying then Replaying([], true, replayed) else Live)
           == Refreshed(old(Model(Refreshing(replaying, replayed))), outbox, heat)
      ensures replayed == old(replayed) && queue == old(queue)
    {
      barrier := LatestOf(outbox, session);
      activeHeat := heat;
      start := barrier;
      delivered := barrier;
      yielded := [];
    }

    method YieldEvent(e: Event, ghost phase: Phase)
      modifies `delivered, `yielded
      ensures Model(phase) == Send(old(Model(phase)), e)
    {
      delivered := e.id;
      yielded := yielded + [e];
    }

    /** The inner replay loop over one batch read from the outbox. A row of another heat cuts it
        short, for a `reset`. */
    method ReplayBatch(events: seq<Event>) returns (cut: bool)
      modifies `delivered, `yielded, `replayed
      ensures Model(if cut then Refreshing(true, replayed) else Replaying([], |events| < DEFAULT_BATCH_SIZE, replayed))
           == DrainBatch(old(Model(Replaying(events, |events| < DEFAULT_BATCH_SIZE, replayed))))
    {
      var done := |events| < DEFAULT_BATCH_SIZE;
      ghost var before := Model(Replaying(events, done, replayed));
      var i := 0;
      while i < |events|
        invariant 0 <= i <= |events|
        invariant DrainBatch(before) == DrainBatch(Model(Replaying(events[i..], done, replayed)))
      {
        var e := events[i];
        assert events[i..][0] == e && events[i..][1..] == events[i + 1..];
        if e.id <= delivered {
          i := i + 1;
          continue;
        }
        replayed := replayed + 1;
        if activeHeat.Some? && e.heat.Some? && e.heat != activeHeat {
          return true;
        }
        YieldEvent(e, Replaying([], done, replayed));
        i := i + 1;
      }
      cut := false;
    }

    /** One item of the live loop; `reset` calls for a full state. */
    method HandleItem() returns (reset: bool)
      requires queue != []
      modifies `queue, `delivered, `yielded
      ensures Model(if reset then Refreshing(false, 0) else Live) == Handle(old(Model(Live)))
    {
      var item := queue[0];
      queue := queue[1..];
      reset := false;
      match item {
        case ResetRequired => reset := true;
        case Quality =>
        case Delta(e) =>
          if e.id <= delivered {
          } else if activeHeat.Some? && e.heat.Some? && e.heat != activeHeat {
            reset := true;
          } else {
            YieldEvent(e, Live);
          }
      }
    }
  }
}
