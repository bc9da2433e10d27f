/** Materialisation of one metric tick: ranked current rows, sparse chart history, the runner
    state and the outbox, in one write transaction, for one source heat. */
module MetricStore {
  import opened Common

  const SECOND_US: int := 1_000_000
  const SAMPLE_INTERVAL_US: int := 5_000_000

  // ---------------------------------------------------------------- ranks

  /** String order, as Python and SQLite compare text. */
  predicate TextLess(a: string, b: string) {
    if b == "" then false
    else if a == "" then true
    else a[0] < b[0] || (a[0] == b[0] && TextLess(a[1..], b[1..]))
  }

  lemma {:induction false} TextOrder(a: string, b: string)
    ensures !(TextLess(a, b) && TextLess(b, a)) && !TextLess(a, a)
    ensures a == b || TextLess(a, b) || TextLess(b, a)
  {
    if a != "" && b != "" {
      TextOrder(a[1..], b[1..]);
      TextOrder(a[1..], a[1..]);
      assert a == [a[0]] + a[1..] && b == [b[0]] + b[1..];
    } else if a != "" {
      TextOrder(a[1..], a[1..]);
    }
  }

  lemma {:induction false} TextTransitive(a: string, b: string, c: string)
    requires TextLess(a, b) && TextLess(b, c)
    ensures TextLess(a, c)
  {
    if a != "" && a[0] == b[0] && b[0] == c[0] {
      TextTransitive(a[1..], b[1..], c[1..]);
    }
  }

  /** `second` is the source message id (-1 for none) or the frame id. */
  datatype Rank = Rank(observed: int, second: int, key: string)

  predicate RankLess(a: Rank, b: Rank) {
    || a.observed < b.observed
    || (a.observed == b.observed && a.second < b.second)
    || (a.observed == b.observed && a.second == b.second && TextLess(a.key, b.key))
  }

  lemma RankOrder(a: Rank, b: Rank)
    ensures !(RankLess(a, b) && RankLess(b, a)) && !RankLess(a, a)
    ensures a == b || RankLess(a, b) || RankLess(b, a)
  {
    TextOrder(a.key, b.key);
    TextOrder(a.key, a.key);
  }

  lemma RankTransitive(a: Rank, b: Rank, c: Rank)
    requires RankLess(a, b) && RankLess(b, c)
    ensures RankLess(a, c)
  {
    if TextLess(a.key, b.key) && TextLess(b.key, c.key) {
      TextTransitive(a.key, b.key, c.key);
    }
  }

  /** A last-writer-wins row. */
  datatype Ranked<+V> = Ranked(rank: Rank, version: int, value: V)

  predicate Later<V>(a: Ranked<V>, b: Ranked<V>) {
    RankLess(a.rank, b.rank) || (a.rank == b.rank && a.version < b.version)
  }

  /** Insert, replace by a later row, or keep. */
  function Winner<V>(existing: Option<Ranked<V>>, incoming: Ranked<V>): Ranked<V> {
    if existing.None? || Later(existing.value, incoming) then incoming else existing.value
  }

  // ---------------------------------------------------------------- tables

  datatype Scope = Scope(kind: string, key: string)

  /** A chart point. The code does not store `forced`, whether its tick was an event boundary. */
  datatype Sample = Sample(observed: int, key: string, version: int, values: string, forced: bool)
  datatype StreamRow = StreamRow(eventKey: string, payload: string)

  /** `samples[scope][second]`, `ticks[second]`; the outbox in id order. */
  datatype Tables<C> = Tables(
    current: map<Scope, Ranked<string>>,
    samples: map<Scope, map<int, Sample>>,
    ticks: map<int, (Rank, string)>,
    runner: Option<Ranked<C>>,
    stream: seq<StreamRow>)

  datatype Candidate = Candidate(scope: Scope, values: string, history: string, boundary: bool)

  /** `cursor` is the boundary state that goes with the tick. */
  datatype RunnerCandidate<C> = RunnerCandidate(frame: int, hash: string, cursor: C)

  datatype Write<C> = Write(
    observed: nat,
    message: Option<int>,
    key: string,
    version: int,
    candidates: seq<Candidate>,
    state: Option<RunnerCandidate<C>>,
    events: seq<StreamRow>)

  function CurrentRank<C>(w: Write<C>): Rank {
    Rank(w.observed, if w.message.Some? then w.message.value else -1, w.key)
  }

  function TickRank<C>(w: Write<C>): Rank
    requires w.state.Some?
  {
    Rank(w.observed, w.state.value.frame, w.key)
  }

  // ---------------------------------------------------------------- chart history

  predicate IsMaxBelow(s: set<int>, n: int, m: int) {
    m in s && m < n && forall x :: x in s && x < n ==> x <= m
  }

  /** The largest element below `n`. */
  function MaxBelow(s: set<int>, n: int): (r: Option<int>)
    ensures r.None? ==> forall x :: x in s ==> x >= n
    ensures r.Some? ==> IsMaxBelow(s, n, r.value)
  {
    if exists x :: x in s && x < n then
      MaxBelowExists(s, n);
      var m :| m in s && IsMaxBelow(s, n, m);
      Some(m)
    else None
  }

  lemma {:induction false} MaxBelowExists(s: set<int>, n: int)
    requires exists x :: x in s && x < n
    ensures exists m :: IsMaxBelow(s, n, m)
    decreases s
  {
    var y :| y in s && y < n;
    assert forall x :: x in s && x < n ==> x == y || x in s - {y};
    if z :| z in s - {y} && z < n {
      MaxBelowExists(s - {y}, n);
      var m :| IsMaxBelow(s - {y}, n, m);
      assert IsMaxBelow(s, n, if m < y then y else m);
    } else {
      assert IsMaxBelow(s, n, y);
    }
  }

  function Previous(rows: map<int, Sample>, second: int): Option<Sample> {
    var at := MaxBelow(rows.Keys, second);
    if at.Some? then Some(rows[at.value]) else None
  }

  function Exact(rows: map<int, Sample>, second: int): Option<Sample> {
    if second in rows then Some(rows[second]) else None
  }

  predicate Unchanged(exact: Option<Sample>, previous: Option<Sample>, version: int, values: string) {
    var shown := if exact.Some? then exact else previous;
    shown.Some? && shown.value.version == version && shown.value.values == values
  }

  /** A chart point may be written at an event boundary, in a later bucket, or for a new version. */
  predicate Admitted(previous: Option<Sample>, point: Sample) {
    || point.forced
    || previous.None?
    || point.observed / SAMPLE_INTERVAL_US > previous.value.observed / SAMPLE_INTERVAL_US
    || previous.value.version != point.version
  }

  predicate PointLess(a: Sample, b: Sample) {
    a.observed < b.observed || (a.observed == b.observed && TextLess(a.key, b.key))
  }

  function PutSample(rows: map<int, Sample>, point: Sample): map<int, Sample> {
    var second := point.observed / SECOND_US;
    var exact, previous := Exact(rows, second), Previous(rows, second);
    if Unchanged(exact, previous, point.version, point.values) then rows
    else if !Admitted(previous, point) then rows
    else if exact.Some? && !PointLess(exact.value, point) then rows
    else rows[second := point]
  }

  // ---------------------------------------------------------------- one tick

  function RowsOf(samples: map<Scope, map<int, Sample>>, scope: Scope): map<int, Sample> {
    if scope in samples then samples[scope] else map[]
  }

  function CurrentOf(current: map<Scope, Ranked<string>>, scope: Scope): Option<Ranked<string>> {
    if scope in current then Some(current[scope]) else None
  }

  function PointOf<C>(w: Write<C>, c: Candidate): Sample {
    Sample(w.observed, w.key, w.version, c.history, c.boundary)
  }

  function OfferOf<C>(w: Write<C>, c: Candidate): Ranked<string> {
    Ranked(CurrentRank(w), w.version, c.values)
  }

  function PutCandidate<C>(t: Tables<C>, w: Write<C>, c: Candidate): Tables<C> {
    t.(current := t.current[c.scope := Winner(CurrentOf(t.current, c.scope), OfferOf(w, c))],
       samples := t.samples[c.scope := PutSample(RowsOf(t.samples, c.scope), PointOf(w, c))])
  }

  function PutCandidates<C>(t: Tables<C>, w: Write<C>, cs: seq<Candidate>): Tables<C> {
    if cs == [] then t
    else PutCandidate(PutCandidates(t, w, cs[..|cs| - 1]), w, cs[|cs| - 1])
  }

  predicate HasKey(stream: seq<StreamRow>, key: string) {
    exists i :: 0 <= i < |stream| && stream[i].eventKey == key
  }

  /** `INSERT OR IGNORE` on the event key. */
  function AppendEvents(stream: seq<StreamRow>, events: seq<StreamRow>): seq<StreamRow> {
    if events == [] then stream
    else
      var before := AppendEvents(stream, events[..|events| - 1]);
      var last := events[|events| - 1];
      if HasKey(before, last.eventKey) then before else before + [last]
  }

  function StateOffer<C>(w: Write<C>): Ranked<C>
    requires w.state.Some?
  {
    Ranked(TickRank(w), w.version, w.state.value.cursor)
  }

  predicate StateWritten<C>(t: Tables<C>, w: Write<C>) {
    w.state.Some? && (t.runner.None? || Later(t.runner.value, StateOffer(w)))
  }

  predicate DistinctScopes(cs: seq<Candidate>) {
    forall i, j :: 0 <= i < j < |cs| ==> cs[i].scope != cs[j].scope
  }

  predicate DistinctKeys(events: seq<StreamRow>) {
    forall i, j :: 0 <= i < j < |events| ==> events[i].eventKey != events[j].eventKey
  }

  /** What is rejected before the transaction starts. */
  predicate Accepted<C>(w: Write<C>) {
    && w.version >= 1 && w.key != "" && (w.message.Some? ==> w.message.value > 0)
    && (w.state.Some? ==> w.state.value.frame > 0)
    && (w.events != [] ==> w.state.Some?)
    && DistinctScopes(w.candidates)
  }

  function PutState<C>(t: Tables<C>, w: Write<C>): Tables<C>
    requires w.state.Some?
  {
    var second := w.observed / SECOND_US;
    var ticks := if second in t.ticks && !RankLess(t.ticks[second].0, TickRank(w)) then t.ticks
                 else t.ticks[second := (TickRank(w), w.state.value.hash)];
    t.(ticks := ticks,
       runner := Some(Winner(t.runner, StateOffer(w))),
       stream := if StateWritten(t, w) then AppendEvents(t.stream, w.events) else t.stream)
  }

  /** `materialize_metric_samples`; `None` is a raised error, which changes nothing. Events are
      checked for repeated keys only when they are going to be written. */
  function Materialize<C>(t: Tables<C>, w: Write<C>): Option<Tables<C>> {
    if !Accepted(w) then None
    else if w.candidates == [] then Some(t)
    else if w.state.None? then Some(PutCandidates(t, w, w.candidates))
    else if StateWritten(t, w) && !DistinctKeys(w.events) then None
    else Some(PutState(PutCandidates(t, w, w.candidates), w))
  }

  /** Appending keeps what was there, adds no key twice and leaves no event's key out. */
  lemma {:induction false} EventsAppendOnce(stream: seq<StreamRow>, events: seq<StreamRow>)
    requires DistinctKeys(stream)
    ensures stream <= AppendEvents(stream, events) && DistinctKeys(AppendEvents(stream, events))
    ensures forall e :: e in events ==> HasKey(AppendEvents(stream, events), e.eventKey)
    ensures forall r :: r in AppendEvents(stream, events) ==> r in stream || r in events
  {
    if events != [] {
      var init, last := events[..|events| - 1], events[|events| - 1];
      EventsAppendOnce(stream, init);
      var before, after := AppendEvents(stream, init), AppendEvents(stream, events);
      assert events == init + [last];
      assert forall i :: 0 <= i < |before| ==> after[i] == before[i];
      assert HasKey(after, last.eventKey) by {
        if !HasKey(before, last.eventKey) { assert after[|before|].eventKey == last.eventKey; }
      }
    }
  }

  // ---------------------------------------------------------------- convergence

  function Settle<V>(offers: seq<Ranked<V>>): Option<Ranked<V>> {
    if offers == [] then None
    else Some(Winner(Settle(offers[..|offers| - 1]), offers[|offers| - 1]))
  }

  lemma LaterOrder<V>(a: Ranked<V>, b: Ranked<V>)
    ensures !(Later(a, b) && Later(b, a)) && !Later(a, a)
    ensures (a.rank == b.rank && a.version == b.version) || Later(a, b) || Later(b, a)
  {
    RankOrder(a.rank, b.rank);
    RankOrder(a.rank, a.rank);
  }

  lemma LaterTransitive<V>(a: Ranked<V>, b: Ranked<V>, c: Ranked<V>)
    requires !Later(a, b) && Later(a, c)
    ensures Later(b, c)
  {
    RankOrder(a.rank, b.rank);
    RankOrder(a.rank, c.rank);
    if a.rank != b.rank && RankLess(b.rank, a.rank) && RankLess(a.rank, c.rank) {
      RankTransitive(b.rank, a.rank, c.rank);
    }
  }

  /** A table row ends at an offered row that no offer is later than. */
  lemma {:induction false} SettlesAtLatest<V>(offers: seq<Ranked<V>>)
    requires offers != []
    ensures Settle(offers).Some? && Settle(offers).value in offers
    ensures forall o :: o in offers ==> !Later(Settle(offers).value, o)
  {
    var init, last := offers[..|offers| - 1], offers[|offers| - 1];
    LaterOrder(last, last);
    if init != [] {
      SettlesAtLatest(init);
      var held := Settle(init).value;
      if Later(held, last) {
        forall o | o in init ensures !Later(last, o) {
          if Later(last, o) {
            LaterOrder(held, o);
            LaterOrder(last, held);
            LaterTransitive(last, held, o);
          }
        }
      }
      forall o | o in offers ensures o == last || o in init {
        var i :| 0 <= i < |offers| && offers[i] == o;
        if i < |init| { assert init[i] == o; }
      }
    }
  }

  /** Equal rank and version carry equal values. */
  ghost predicate Coherent<V>(offers: seq<Ranked<V>>) {
    forall a, b :: a in offers && b in offers && a.rank == b.rank && a.version == b.version ==> a == b
  }

  /** Any two orders, with any repetitions, of the same offers settle at the same row. */
  lemma Convergence<V>(xs: seq<Ranked<V>>, ys: seq<Ranked<V>>)
    requires (forall o :: o in xs <==> o in ys) && Coherent(xs)
    ensures Settle(xs) == Settle(ys)
  {
    assert ys != [] ==> ys[0] in ys;
    if xs != [] {
      assert xs[0] in ys;
      SettlesAtLatest(xs);
      SettlesAtLatest(ys);
      LaterOrder(Settle(xs).value, Settle(ys).value);
    }
  }
}
