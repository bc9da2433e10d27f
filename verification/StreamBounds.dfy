/** What bounds a stream in every run, safe or not: its queue, its replay, and the heat it shows. */
module StreamBounds {
  import opened Common
  import opened StreamOutbox
  import opened StreamProtocol

  /** Every delta since the last full state belongs to the heat that state showed, or to none. */
  ghost predicate OneHeat(c: Client) {
    forall e :: e in c.received ==> c.activeHeat.None? || e.heat.None? || e.heat == c.activeHeat
  }

  /** A replay counts what it sends, in whole batches until the last one. */
  ghost predicate ReplayCounted(c: Client) {
    c.phase.Replaying? ==>
      && Increasing(c.phase.batch) && (forall e :: e in c.phase.batch ==> c.delivered < e.id)
      && |c.received| <= c.phase.replayed && c.phase.replayed + |c.phase.batch| <= 1_024
      && (!c.phase.done ==> (c.phase.replayed + |c.phase.batch|) % 128 == 0)
  }

  ghost predicate RefreshCounted(c: Client) { c.phase.Refreshing? ==> c.phase.replayed <= 1_024 }

  ghost predicate Bounded(c: Client, capacity: nat) {
    |c.queue| <= capacity && OneHeat(c) && ReplayCounted(c) && RefreshCounted(c)
  }

  ghost predicate AllBounded(s: Server) {
    Increasing(s.outbox) && 1 <= s.queueSize && forall c :: c in s.clients ==> Bounded(s.clients[c], s.queueSize)
  }

  lemma FanoutBounded(clients: map<nat, Client>, session: string, item: Item, capacity: nat)
    requires 1 <= capacity && forall c :: c in clients ==> Bounded(clients[c], capacity)
    ensures var after := Fanout(clients, session, item, capacity);
            forall c :: c in after ==> Bounded(after[c], capacity)
  {
  }

  lemma {:induction false} DeliverBounded(s: Server, events: seq<Event>)
    requires AllBounded(s)
    ensures AllBounded(Deliver(s, events))
    decreases |events|
  {
    if events != [] {
      FanoutBounded(s.clients, events[0].session, Delta(events[0]), s.queueSize);
      var e := events[0];
      DeliverBounded(s.(cursor := Max(s.cursor, e.id), clients := Fanout(s.clients, e.session, Delta(e), s.queueSize)), events[1..]);
    }
  }

  lemma ReadBounded(c: Client, outbox: seq<Event>, capacity: nat)
    requires Increasing(outbox) && Bounded(c, capacity) && c.phase.Replaying?
    requires c.phase.batch == [] && !c.phase.done && c.phase.replayed < REPLAY_LIMIT
    ensures Bounded(ReadReplay(c, outbox), capacity)
  {
    FirstOfSessionIsContiguous(outbox, c.session, c.delivered, DEFAULT_BATCH_SIZE);
  }

  lemma ReplayOneBounded(c: Client, capacity: nat)
    requires Bounded(c, capacity) && c.phase.Replaying? && c.phase.batch != []
    ensures Bounded(ReplayOne(c), capacity)
  {
    var after, e := ReplayOne(c), c.phase.batch[0];
    assert e in c.phase.batch;
    forall x | x in c.phase.batch[1..] ensures x in c.phase.batch && e.id < x.id {
    }
  }

  lemma StepBounded(s: Server, step: Step)
    requires AllBounded(s) && Enabled(s, step)
    ensures AllBounded(Next(s, step))
  {
    match step {
      case PollFanout => DeliverBounded(s.(inflight := None), s.inflight.value.events);
      case QualityTick(session) => FanoutBounded(s.clients, session, Quality, s.queueSize);
      case ReplayRead(c) => ReadBounded(s.clients[c], s.outbox, s.queueSize);
      case ReplayNext(c) => ReplayOneBounded(s.clients[c], s.queueSize);
      case _ =>
    }
  }

  lemma {:induction false} RunBounded(states: seq<Server>, steps: seq<Step>, k: nat)
    requires Run(states, steps) && k < |states|
    ensures AllBounded(states[k])
  {
    if k > 0 {
      RunBounded(states, steps, k - 1);
      StepBounded(states[k - 1], steps[k - 1]);
    }
  }

  /** In every run, at every moment: no queue outgrows its size, and a replay sends at most
      1,024 rows before it gives way to a full state. */
  lemma StreamsAreBounded(states: seq<Server>, steps: seq<Step>, k: nat, c: nat)
    requires Run(states, steps) && k < |states| && c in states[k].clients
    ensures var client := states[k].clients[c];
            && |client.queue| <= states[k].queueSize
            && (client.phase.Replaying? ==> |client.received| <= client.phase.replayed <= 1_024)
  {
    RunBounded(states, steps, k);
  }

  /** In every run, at every moment: a browser is never sent a delta of another heat than the
      one its last full state showed. */
  lemma NoForeignHeat(states: seq<Server>, steps: seq<Step>, k: nat, c: nat, e: Event)
    requires Run(states, steps) && k < |states| && c in states[k].clients && e in states[k].clients[c].received
    ensures states[k].clients[c].activeHeat.None? || e.heat.None? || e.heat == states[k].clients[c].activeHeat
  {
    RunBounded(states, steps, k);
  }
}
