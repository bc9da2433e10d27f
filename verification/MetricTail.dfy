/** Metric input from a bounded tail: the last 72 LAST facts of a car, plus totals stored at
    the previous tick, against a scan of the whole heat. One car, whose timing facts are all
    raw LAST facts and whose best lap the grid does not supply. */
module MetricTail {
  import opened Common

  const TAIL_LAPS: nat := 72
  const ON_TRACK: string := "ON_TRACK"

  /** The lap a LAST cell is linked to: with a stored clean verdict, or with its own interval
      (`ok`: no in-lap, out-lap or pit lap by its own record), or no usable link. */
  datatype Link = Explicit(clean: bool) | Timed(ok: bool, from: int, to: int) | Unlinked

  datatype Last = Last(frame: nat, observed: int, duration: int, sectors: map<string, int>, link: Link)
  datatype StateFact = StateFact(frame: nat, kind: string)

  /** Facts in stored order; frame ids never go down. */
  datatype History = History(facts: seq<Last>, states: seq<StateFact>)

  /** Whether an interval holds no completed pit stop, no gap, only Green. */
  type Quiet = (int, int) -> bool

  datatype Lap = Lap(fact: Last, clean: bool, sequence: nat)

  // ---------------------------------------------------------------- laps from facts

  /** The STATE in force at a frame: the last one up to and including it. */
  function Governing(states: seq<StateFact>, frame: nat): Option<string> {
    if states == [] then None
    else if states[|states| - 1].frame <= frame then Some(states[|states| - 1].kind)
    else Governing(states[..|states| - 1], frame)
  }

  predicate CleanOf(quiet: Quiet, previous: Option<int>, fact: Last, kind: Option<string>) {
    match fact.link
    case Explicit(clean) => clean
    case Timed(ok, from, to) => ok && kind == Some(ON_TRACK) && quiet(from, to)
    case Unlinked => previous.Some? && kind == Some(ON_TRACK) && quiet(previous.value, fact.observed)
  }

  function PreviousAt(facts: seq<Last>, i: nat): Option<int>
    requires i < |facts|
  {
    if i == 0 then None else Some(facts[i - 1].observed)
  }

  function LapAt(quiet: Quiet, facts: seq<Last>, states: seq<StateFact>, i: nat): Lap
    requires i < |facts|
  {
    Lap(facts[i], CleanOf(quiet, PreviousAt(facts, i), facts[i], Governing(states, facts[i].frame)), i + 1)
  }

  function Laps(quiet: Quiet, facts: seq<Last>, states: seq<StateFact>): seq<Lap> {
    seq(|facts|, i requires 0 <= i < |facts| => LapAt(quiet, facts, states, i))
  }

  predicate FramesRise(states: seq<StateFact>) {
    forall i, j :: 0 <= i < j < |states| ==> states[i].frame <= states[j].frame
  }

  predicate FactsRise(facts: seq<Last>) {
    forall i, j :: 0 <= i < j < |facts| ==> facts[i].frame <= facts[j].frame
  }

  lemma {:induction false} GoverningPrefix(states: seq<StateFact>, n: nat, frame: nat)
    requires n <= |states| && FramesRise(states) && (n < |states| ==> states[n].frame > frame)
    ensures Governing(states, frame) == Governing(states[..n], frame)
  {
    if n < |states| {
      GoverningPrefix(states[..|states| - 1], n, frame);
      assert states[..|states| - 1][..n] == states[..n];
    } else {
      assert states[..n] == states;
    }
  }

  /** The loader: one pass over both lists, consuming each STATE cell once. */
  method LoadLaps(quiet: Quiet, facts: seq<Last>, states: seq<StateFact>) returns (laps: seq<Lap>)
    requires FramesRise(states) && FactsRise(facts)
    ensures laps == Laps(quiet, facts, states)
  {
    laps := [];
    var previous: Option<int>, kind: Option<string> := None, None;
    var index := 0;
    for k := 0 to |facts|
      invariant 0 <= index <= |states|
      invariant kind == if index == 0 then None else Some(states[index - 1].kind)
      invariant forall i :: 0 <= i < index ==> k > 0 && states[i].frame <= facts[k - 1].frame
      invariant previous == if k == 0 then None else Some(facts[k - 1].observed)
      invariant laps == Laps(quiet, facts, states)[..k]
    {
      var fact := facts[k];
      while index < |states| && states[index].frame <= fact.frame
        invariant 0 <= index <= |states|
        invariant kind == if index == 0 then None else Some(states[index - 1].kind)
        invariant forall i :: 0 <= i < index ==> states[i].frame <= fact.frame
      {
        kind := Some(states[index].kind);
        index := index + 1;
      }
      GoverningPrefix(states, index, fact.frame);
      assert kind == Governing(states[..index], fact.frame) by {
        if index > 0 { assert states[..index][index - 1].frame <= fact.frame; }
      }
      laps := laps + [Lap(fact, CleanOf(quiet, previous, fact, kind), k + 1)];
      previous := Some(fact.observed);
    }
  }

  // ---------------------------------------------------------------- totals

  function CountClean(laps: seq<Lap>): nat {
    if laps == [] then 0
    else CountClean(laps[..|laps| - 1]) + if laps[|laps| - 1].clean then 1 else 0
  }

  function CleanDurations(laps: seq<Lap>): seq<int> {
    if laps == [] then []
    else
      var init, last := CleanDurations(laps[..|laps| - 1]), laps[|laps| - 1];
      if last.clean then init + [last.fact.duration] else init
  }

  /** The newest non-empty sector map, or the stored one. */
  function LastSectors(facts: seq<Last>, stored: map<string, int>): map<string, int> {
    if facts == [] then stored
    else if facts[|facts| - 1].sectors != map[] then facts[|facts| - 1].sectors
    else LastSectors(facts[..|facts| - 1], stored)
  }

  function Lower(a: map<string, int>, b: map<string, int>): map<string, int> {
    map k | k in a.Keys + b.Keys ::
      if k !in a then b[k] else if k !in b then a[k] else if b[k] < a[k] then b[k] else a[k]
  }

  /** Per sector, the least of the stored best and every value. */
  function BestSectors(facts: seq<Last>, stored: map<string, int>): map<string, int> {
    if facts == [] then stored
    else Lower(BestSectors(facts[..|facts| - 1], stored), facts[|facts| - 1].sectors)
  }

  function BestLap(facts: seq<Last>, stored: Option<int>): Option<int> {
    if facts == [] then stored
    else
      var best, last := BestLap(facts[..|facts| - 1], stored), facts[|facts| - 1].duration;
      if best.Some? && best.value <= last then best else Some(last)
  }

  /** What a tick stores for the car. */
  datatype Values = Values(observed: int, clean: int, last: map<string, int>, best: map<string, int>, bestLap: Option<int>)

  function FullValues(quiet: Quiet, h: History): Values {
    Values(|h.facts|, CountClean(Laps(quiet, h.facts, h.states)), LastSectors(h.facts, map[]),
           BestSectors(h.facts, map[]), BestLap(h.facts, None))
  }

  // ---------------------------------------------------------------- the bounded path

  function LastFacts(facts: seq<Last>): seq<Last> {
    if |facts| <= TAIL_LAPS then facts else facts[|facts| - TAIL_LAPS..]
  }

  function LastStates(states: seq<StateFact>): seq<StateFact> {
    if |states| <= TAIL_LAPS + 1 then states else states[|states| - TAIL_LAPS - 1..]
  }

  function TailLaps(quiet: Quiet, h: History): seq<Lap> {
    Laps(quiet, LastFacts(h.facts), LastStates(h.states))
  }

  /** The laps of frames up to the checkpoint, and those after it. */
  function Old(laps: seq<Lap>, checkpoint: nat): seq<Lap> {
    if laps == [] then []
    else
      var init, last := Old(laps[..|laps| - 1], checkpoint), laps[|laps| - 1];
      if last.fact.frame <= checkpoint then init + [last] else init
  }

  function NewFacts(facts: seq<Last>, checkpoint: nat): seq<Last> {
    if facts == [] then []
    else
      var init, last := NewFacts(facts[..|facts| - 1], checkpoint), facts[|facts| - 1];
      if last.frame > checkpoint then init + [last] else init
  }

  function AtLeastZero(n: int): int { if n < 0 then 0 else n }

  /** The number a tail lap gets within the whole capture. */
  function RestoredSequence(stored: Values, before: nat, index: nat): int {
    AtLeastZero(stored.observed - before) + index + 1
  }

  function TailValues(quiet: Quiet, h: History, stored: Values, checkpoint: nat): Values {
    var laps := TailLaps(quiet, h);
    var before := Old(laps, checkpoint);
    var recent := NewFacts(LastFacts(h.facts), checkpoint);
    Values(AtLeastZero(stored.observed - |before|) + |laps|,
           AtLeastZero(stored.clean - CountClean(before)) + CountClean(laps),
           LastSectors(recent, stored.last),
           BestSectors(recent, stored.best),
           BestLap(LastFacts(h.facts), stored.bestLap))
  }

  // ---------------------------------------------------------------- splitting lists

  lemma {:induction false} CountSplit(x: seq<Lap>, y: seq<Lap>)
    ensures CountClean(x + y) == CountClean(x) + CountClean(y)
  {
    if y == [] {
      assert x + y == x;
    } else {
      CountSplit(x, y[..|y| - 1]);
      assert (x + y)[..|x + y| - 1] == x + y[..|y| - 1];
    }
  }

  lemma {:induction false} DurationsSplit(x: seq<Lap>, y: seq<Lap>)
    ensures CleanDurations(x + y) == CleanDurations(x) + CleanDurations(y)
  {
    if y == [] {
      assert x + y == x;
    } else {
      DurationsSplit(x, y[..|y| - 1]);
      assert (x + y)[..|x + y| - 1] == x + y[..|y| - 1];
    }
  }

  lemma {:induction false} LastSectorsSplit(x: seq<Last>, y: seq<Last>, stored: map<string, int>)
    ensures LastSectors(x + y, stored) == LastSectors(y, LastSectors(x, stored))
  {
    if y == [] {
      assert x + y == x;
    } else {
      LastSectorsSplit(x, y[..|y| - 1], stored);
      assert (x + y)[..|x + y| - 1] == x + y[..|y| - 1];
    }
  }

  lemma {:induction false} BestSectorsSplit(x: seq<Last>, y: seq<Last>, stored: map<string, int>)
    ensures BestSectors(x + y, stored) == BestSectors(y, BestSectors(x, stored))
  {
    if y == [] {
      assert x + y == x;
    } else {
      BestSectorsSplit(x, y[..|y| - 1], stored);
      assert (x + y)[..|x + y| - 1] == x + y[..|y| - 1];
    }
  }

  lemma {:induction false} BestLapSplit(x: seq<Last>, y: seq<Last>, stored: Option<int>)
    ensures BestLap(x + y, stored) == BestLap(y, BestLap(x, stored))
  {
    if y == [] {
      assert x + y == x;
    } else {
      BestLapSplit(x, y[..|y| - 1], stored);
      assert (x + y)[..|x + y| - 1] == x + y[..|y| - 1];
    }
  }

  lemma {:induction false} BestLapHeld(x: seq<Last>, best: int)
    requires forall i :: 0 <= i < |x| ==> best <= x[i].duration
    ensures BestLap(x, Some(best)) == Some(best)
  {
    if x != [] {
      BestLapHeld(x[..|x| - 1], best);
    }
  }

  /** Counting some laps twice does not change the least duration. */
  lemma BestLapAgain(x: seq<Last>, y: seq<Last>, stored: Option<int>)
    requires forall i :: 0 <= i < |x| ==> stored.Some? && stored.value <= x[i].duration
    ensures BestLap(x + y, stored) == BestLap(y, stored)
  {
    BestLapSplit(x, y, stored);
    if stored.Some? {
      BestLapHeld(x, stored.value);
    }
  }

  lemma {:induction false} BestLapBelow(facts: seq<Last>)
    ensures forall f :: f in facts ==> BestLap(facts, None).Some? && BestLap(facts, None).value <= f.duration
  {
    if facts != [] {
      BestLapBelow(facts[..|facts| - 1]);
      assert facts == facts[..|facts| - 1] + [facts[|facts| - 1]];
    }
  }

  /** `BestSectors` is the pointwise minimum. */
  lemma {:induction false} BestSectorsIsLeast(facts: seq<Last>, k: string)
    ensures k in BestSectors(facts, map[]) <==> exists f :: f in facts && k in f.sectors
    ensures k in BestSectors(facts, map[]) ==> exists f :: f in facts && k in f.sectors && f.sectors[k] == BestSectors(facts, map[])[k]
    ensures forall f :: f in facts && k in f.sectors ==> BestSectors(facts, map[])[k] <= f.sectors[k]
  {
    if facts != [] {
      var init, last := facts[..|facts| - 1], facts[|facts| - 1];
      BestSectorsIsLeast(init, k);
      assert facts == init + [last];
      assert last in facts;
    }
  }
}
