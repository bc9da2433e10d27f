/** One timing API process: the outbox, the broker that polls it, and every
    browser stream. Each step is one stretch of code between two awaits. */
module StreamProtocol {
  import opened Common
  import opened StreamOutbox

  const DEFAULT_BATCH_SIZE: nat := 128
  const REPLAY_LIMIT: nat := 1024

  /** What a subscriber queue holds. `Quality` carries id 0 and never moves a cursor. */
  datatype Item = Delta(event: Event) | Quality | ResetRequired

  /** Where one request handler stands.
      - `Checked`: saw no subscribers, has not read the global cursor yet
      - `HasMax`: has read it, has not registered its queue yet
      - `Registered`: queue registered, no snapshot yet
      - `Opened`: snapshot taken, replay decision still open
      - `Replaying`: rest of the current replay batch; `done` when the loop will not read again
      - `Refreshing`: gave up its place, the full state is being read; back to the replay's end
        afterwards if that is where it was, else to the queue
      - `Live`: taking items from the queue */
  datatype Phase =
    | Checked
    | HasMax(max: nat)
    | Registered
    | Opened
    | Replaying(batch: seq<Event>, done: bool, replayed: nat)
    | Refreshing(replaying: bool, replayed: nat)
    | Live

  /** One stream. `start` and `received` are what its browser has seen: the barrier or
      cursor of its last full state, and the deltas sent since. */
  datatype Client = Client(
    session: string,
    phase: Phase,
    queue: seq<Item>,
    barrier: nat,
    activeHeat: Option<nat>,
    start: nat,
    delivered: nat,
    received: seq<Event>)
  {
    predicate Subscribed() {
      !phase.Checked? && !phase.HasMax?
    }

    predicate Streaming() {
      phase.Replaying? || phase.Refreshing? || phase.Live?
    }
  }

  datatype Batch = Batch(after: nat, events: seq<Event>)

  datatype Server = Server(
    outbox: seq<Event>,
    cursor: nat,
    inflight: Option<Batch>,
    batchSize: nat,
    queueSize: nat,
    clients: map<nat, Client>)

  datatype Step =
    | Append(event: Event)
    | SubscribeIdle(c: nat, session: string)
    | ReadMax(c: nat)
    | Register(c: nat)
    | SubscribeBusy(c: nat, session: string)
    | TakeSnapshot(c: nat, heat: Option<nat>)
    | Decide(c: nat, requested: Option<nat>)
    | ReplayRead(c: nat)
    | ReplayNext(c: nat)
    | ReplayEnd(c: nat)
    | Pop(c: nat)
    | Refresh(c: nat, heat: Option<nat>)
    | Leave(c: nat)
    | PollRead
    | PollFanout
    | QualityTick(session: string)

  // ---------------------------------------------------------------- broker

  /** `put_nowait`, or drain and leave one reset marker when the queue is full. */
  function Push(queue: seq<Item>, item: Item, capacity: nat): seq<Item> {
    if |queue| < capacity then queue + [item] else [ResetRequired]
  }

  function PushTo(client: Client, session: string, item: Item, capacity: nat): Client {
    if client.Subscribed() && client.session == session
    then client.(queue := Push(client.queue, item, capacity))
    else client
  }

  function Fanout(clients: map<nat, Client>, session: string, item: Item, capacity: nat): map<nat, Client> {
    map c | c in clients :: PushTo(clients[c], session, item, capacity)
  }

  /** The loop over one polled batch: advance the cursor, then fan out, row by row. */
  function Deliver(s: Server, events: seq<Event>): Server
    decreases |events|
  {
    if events == [] then s
    else
      var e := events[0];
      var s' := s.(cursor := Max(s.cursor, e.id),
                   clients := Fanout(s.clients, e.session, Delta(e), s.queueSize));
      Deliver(s', events[1..])
  }

  predicate AnySubscriber(clients: map<nat, Client>) {
    exists c :: c in clients && clients[c].Subscribed()
  }

  // ---------------------------------------------------------------- handler

  function NewClient(session: string, phase: Phase): Client {
    Client(session, phase, [], 0, None, 0, 0, [])
  }

  /** A full state from the read model: its barrier is the session's newest row. */
  function Snapshot(client: Client, outbox: seq<Event>, heat: Option<nat>): Client {
    var barrier := LatestOf(outbox, client.session);
    client.(barrier := barrier, activeHeat := heat, start := barrier, delivered := barrier, received := [])
  }

  predicate ForeignHeat(activeHeat: Option<nat>, e: Event) {
    activeHeat.Some? && e.heat.Some? && e.heat != activeHeat
  }

  function Send(client: Client, e: Event): Client {
    client.(delivered := e.id, received := client.received + [e])
  }

  /** The cursor checks of the endpoint when no row has ever been deleted. */
  predicate CursorAccepted(outbox: seq<Event>, session: string, activeHeat: Option<nat>, cursor: nat) {
    && 0 < cursor <= LatestOf(outbox, session)
    && exists e :: e in outbox && e.session == session && e.id == cursor && !ForeignHeat(activeHeat, e)
  }

  function DecideStart(client: Client, outbox: seq<Event>, requested: Option<nat>): Client {
    if requested.Some? && CursorAccepted(outbox, client.session, client.activeHeat, requested.value)
    then client.(phase := Replaying([], false, 0), start := requested.value,
                 delivered := requested.value, received := [])
    else client.(phase := Live, start := client.barrier, delivered := client.barrier, received := [])
  }

  function ReadReplay(client: Client, outbox: seq<Event>): Client
    requires client.phase.Replaying?
  {
    var batch := FirstOfSession(outbox, client.session, client.delivered, DEFAULT_BATCH_SIZE);
    client.(phase := Replaying(batch, |batch| < DEFAULT_BATCH_SIZE, client.phase.replayed))
  }

  /** One turn of the inner replay loop. A row of another heat calls for a full state. */
  function ReplayOne(client: Client): Client
    requires client.phase.Replaying? && client.phase.batch != []
  {
    var Replaying(batch, done, replayed) := client.phase;
    var e := batch[0];
    if e.id <= client.delivered then client.(phase := Replaying(batch[1..], done, replayed))
    else if ForeignHeat(client.activeHeat, e) then client.(phase := Refreshing(true, replayed + 1))
    else Send(client, e).(phase := Replaying(batch[1..], done, replayed + 1))
  }

  function FinishReplay(client: Client): Client
    requires client.phase.Replaying?
  {
    client.(phase := if client.phase.replayed >= REPLAY_LIMIT then Refreshing(false, 0) else Live)
  }

  /** One turn of the live loop on the queue's first item. */
  function Handle(client: Client): Client
    requires client.phase.Live? && client.queue != []
  {
    var item := client.queue[0];
    var rest := client.(queue := client.queue[1..]);
    match item
    case ResetRequired => rest.(phase := Refreshing(false, 0))
    case Quality => rest
    case Delta(e) =>
      if e.id <= client.delivered then rest
      else if ForeignHeat(client.activeHeat, e) then rest.(phase := Refreshing(false, 0))
      else Send(rest, e)
  }

  /** The full state has been read and is sent. */
  function Refreshed(client: Client, outbox: seq<Event>, heat: Option<nat>): Client
    requires client.phase.Refreshing?
  {
    var Refreshing(replaying, replayed) := client.phase;
    Snapshot(client, outbox, heat).(phase := if replaying then Replaying([], true, replayed) else Live)
  }

  // ---------------------------------------------------------------- steps

  predicate Enabled(s: Server, step: Step) {
    match step
    case Append(e) => LastId(s.outbox) < e.id
    case SubscribeIdle(c, _) => c !in s.clients && !AnySubscriber(s.clients)
    case SubscribeBusy(c, _) => c !in s.clients && AnySubscriber(s.clients)
    case ReadMax(c) => c in s.clients && s.clients[c].phase.Checked?
    case Register(c) => c in s.clients && s.clients[c].phase.HasMax?
    case TakeSnapshot(c, _) => c in s.clients && s.clients[c].phase.Registered?
    case Decide(c, _) => c in s.clients && s.clients[c].phase.Opened?
    case ReplayRead(c) =>
      && c in s.clients && s.clients[c].phase.Replaying?
      && s.clients[c].phase.batch == [] && !s.clients[c].phase.done
      && s.clients[c].phase.replayed < REPLAY_LIMIT
    case ReplayNext(c) => c in s.clients && s.clients[c].phase.Replaying? && s.clients[c].phase.batch != []
    case ReplayEnd(c) =>
      && c in s.clients && s.clients[c].phase.Replaying? && s.clients[c].phase.batch == []
      && (s.clients[c].phase.done || s.clients[c].phase.replayed >= REPLAY_LIMIT)
    case Pop(c) => c in s.clients && s.clients[c].phase.Live? && s.clients[c].queue != []
    case Refresh(c, _) => c in s.clients && s.clients[c].phase.Refreshing?
    case Leave(c) => c in s.clients
    case PollRead => s.inflight.None? && AnySubscriber(s.clients)
    case PollFanout => s.inflight.Some?
    case QualityTick(_) => true
  }

  function Next(s: Server, step: Step): Server
    requires Enabled(s, step)
  {
    match step
    case Append(e) => s.(outbox := s.outbox + [e])
    case SubscribeIdle(c, session) => s.(clients := s.clients[c := NewClient(session, Checked)])
    case SubscribeBusy(c, session) => s.(clients := s.clients[c := NewClient(session, Registered)])
    case ReadMax(c) => Put(s, c, s.clients[c].(phase := HasMax(LastId(s.outbox))))
    case Register(c) => Put(s, c, s.clients[c].(phase := Registered)).(cursor := s.clients[c].phase.max)
    case TakeSnapshot(c, heat) => Put(s, c, Snapshot(s.clients[c], s.outbox, heat).(phase := Opened))
    case Decide(c, requested) => Put(s, c, DecideStart(s.clients[c], s.outbox, requested))
    case ReplayRead(c) => Put(s, c, ReadReplay(s.clients[c], s.outbox))
    case ReplayNext(c) => Put(s, c, ReplayOne(s.clients[c]))
    case ReplayEnd(c) => Put(s, c, FinishReplay(s.clients[c]))
    case Pop(c) => Put(s, c, Handle(s.clients[c]))
    case Refresh(c, heat) => Put(s, c, Refreshed(s.clients[c], s.outbox, heat))
    case Leave(c) => s.(clients := s.clients - {c})
    case PollRead => s.(inflight := Some(Batch(s.cursor, FirstAfter(s.outbox, s.cursor, s.batchSize))))
    case PollFanout => Deliver(s.(inflight := None), s.inflight.value.events)
    case QualityTick(session) => s.(clients := Fanout(s.clients, session, Quality, s.queueSize))
  }

  function Put(s: Server, c: nat, client: Client): Server {
    s.(clients := s.clients[c := client])
  }

  /** A process that has just started its broker. */
  ghost predicate Init(s: Server) {
    && Increasing(s.outbox)
    && s.cursor == LastId(s.outbox)
    && s.inflight.None? && s.clients == map[]
    && 1 <= s.batchSize <= DEFAULT_BATCH_SIZE && 1 <= s.queueSize
  }

  ghost predicate Run(states: seq<Server>, steps: seq<Step>) {
    && |states| == |steps| + 1
    && Init(states[0])
    && forall i :: 0 <= i < |steps| ==> Enabled(states[i], steps[i]) && states[i + 1] == Next(states[i], steps[i])
  }
}
