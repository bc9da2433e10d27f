/** Lap boundaries of each car, one per finish-line passing, and the laps between them. */
module CanonicalLaps {
  import opened Common

  const START_SIGNAL_WINDOW_US: int := 5_000_000

  /** A tracker observation; `tracked` when it came in a `t_p` message. */
  datatype Observation = Observation(
    id: nat,
    tracked: bool,
    car: Option<string>,
    provider: Option<int>,
    startMm: Option<int>,
    stopMm: Option<int>,
    sector: Option<int>,
    inPit: Option<bool>,
    observedAt: int)

  datatype Green = Green(provider: int, observedAt: int)

  /** What the database holds when a passing is recorded; passings by provider time, then id. */
  datatype Facts = Facts(green: Option<Green>, passings: seq<Observation>)

  datatype Kind = HeatStart | CoverageStart | MainFinish | PitFinish
  datatype Boundary = Boundary(ordinal: nat, kind: Kind, passing: Option<nat>, corroborating: Option<nat>, provider: int, observedAt: int)

  datatype Role = Finish | Sector1End | Sector2End | StartCorroboration | PitPath | Other
  datatype LapPassing = LapPassing(observation: Observation, role: Role)
  datatype Sector = Sector(from: Option<int>, to: Option<int>, duration: Option<int>)

  /** `last` is the LAST cell the lap is attached to. */
  datatype Lap = Lap(
    ordinal: nat,
    number: Option<nat>,
    start: Boundary,
    finish: Boundary,
    duration: int,
    isPit: bool,
    passings: seq<LapPassing>,
    sectors: seq<Sector>,
    last: Option<nat>)

  datatype Chain = Chain(boundaries: seq<Boundary>, laps: seq<Lap>)

  const NO_CHAIN := Chain([], [])

  // ---------------------------------------------------------------- the first boundary

  function TrackLength(passings: seq<Observation>): Option<int> {
    if passings == [] then None
    else
      var init, stop := TrackLength(passings[..|passings| - 1]), passings[|passings| - 1].stopMm;
      if stop.None? || stop.value <= 0 || (init.Some? && init.value >= stop.value) then init else stop
  }

  function Distance(a: int, b: int): int { if a < b then b - a else a - b }

  /** A passing of the whole loop, on track, near the green flag. */
  predicate IsStartSignal(o: Observation, car: string, length: int, green: int) {
    && o.tracked && o.car == Some(car) && o.provider.Some? && o.provider.value > 0
    && o.startMm == Some(0) && o.stopMm == Some(length) && o.inPit == Some(false)
    && Distance(o.provider.value, green) <= START_SIGNAL_WINDOW_US
  }

  function StartSignal(passings: seq<Observation>, car: string, length: int, green: int): Option<Observation> {
    if passings == [] then None
    else
      var best, o := StartSignal(passings[..|passings| - 1], car, length, green), passings[|passings| - 1];
      if !IsStartSignal(o, car, length, green) then best
      else if best.Some? && best.value.provider.Some? && Closer(best.value, o, green) then best
      else Some(o)
  }

  predicate Closer(a: Observation, b: Observation, green: int)
    requires a.provider.Some? && b.provider.Some?
  {
    var x, y := Distance(a.provider.value, green), Distance(b.provider.value, green);
    x < y || (x == y && a.id < b.id)
  }

  /** A finish-line observation of a car: the ones that can make a boundary. */
  predicate AtLine(o: Observation) {
    o.tracked && o.car.Some? && o.provider.Some? && o.provider.value > 0 && o.startMm == Some(0)
  }

  /** `_initial_boundary` for a car without one. */
  function FirstBoundary(facts: Facts, o: Observation): Boundary
    requires AtLine(o)
  {
    var length := TrackLength(facts.passings);
    var signal := if facts.green.Some? && length.Some?
                  then StartSignal(facts.passings, o.car.value, length.value, facts.green.value.provider) else None;
    if signal.Some? then Boundary(0, HeatStart, None, Some(signal.value.id), facts.green.value.provider, facts.green.value.observedAt)
    else Boundary(0, CoverageStart, Some(o.id), None, o.provider.value, o.observedAt)
  }

  function WithFirst(chain: Chain, facts: Facts, o: Observation): Chain
    requires AtLine(o)
  {
    if chain.boundaries != [] then chain else Chain([FirstBoundary(facts, o)], chain.laps)
  }

  // ---------------------------------------------------------------- one lap

  predicate InWindow(o: Observation, car: string, after: int, upTo: int) {
    o.tracked && o.car == Some(car) && o.provider.Some? && after < o.provider.value <= upTo
  }

  function RoleOf(o: Observation, finish: nat, length: Option<int>): Role {
    if o.id == finish then Finish
    else if o.sector == Some(1) then Sector1End
    else if o.sector == Some(2) then Sector2End
    else if length.Some? && o.startMm == Some(0) && o.stopMm == length then StartCorroboration
    else if o.inPit == Some(true) || (o.sector.Some? && o.sector.value < 0) then PitPath
    else Other
  }

  /** The passings with provider time in (after, upTo], in order, with their roles. */
  function LapPassings(passings: seq<Observation>, car: string, after: int, upTo: int, finish: nat, length: Option<int>)
    : (r: seq<LapPassing>)
    ensures forall p :: p in r ==> InWindow(p.observation, car, after, upTo)
  {
    if passings == [] then []
    else
      var init, o := LapPassings(passings[..|passings| - 1], car, after, upTo, finish, length), passings[|passings| - 1];
      if InWindow(o, car, after, upTo) then init + [LapPassing(o, RoleOf(o, finish, length))] else init
  }

  function FirstOfSector(passings: seq<LapPassing>, sector: int): Option<Observation> {
    if passings == [] then None
    else if passings[0].observation.sector == Some(sector) then Some(passings[0].observation)
    else FirstOfSector(passings[1..], sector)
  }

  function SectorOf(from: Option<int>, to: Option<int>): Sector {
    Sector(from, to, if from.Some? && to.Some? && to.value > from.value then Some(to.value - from.value) else None)
  }

  function ProviderOf(o: Option<Observation>): Option<int> {
    if o.Some? then o.value.provider else None
  }

  /** `_write_sector_rows`. */
  function SectorsOf(start: Boundary, finish: Boundary, passings: seq<LapPassing>): (r: seq<Sector>)
    ensures |r| == 3
  {
    var first, second := ProviderOf(FirstOfSector(passings, 1)), ProviderOf(FirstOfSector(passings, 2));
    [SectorOf(Some(start.provider), first), SectorOf(first, second), SectorOf(second, Some(finish.provider))]
  }

  function NewLap(chain: Chain, facts: Facts, o: Observation): Lap
    requires AtLine(o) && chain.boundaries != []
  {
    var previous, ordinal := chain.boundaries[|chain.boundaries| - 1], |chain.boundaries|;
    var kind := if o.inPit == Some(true) then PitFinish else MainFinish;
    var finish := Boundary(ordinal, kind, Some(o.id), None, o.provider.value, o.observedAt);
    var complete := previous.kind == HeatStart || chain.boundaries[0].kind == HeatStart;
    var passings := LapPassings(facts.passings, o.car.value, previous.provider, o.provider.value, o.id, TrackLength(facts.passings));
    Lap(ordinal, if complete then Some(ordinal) else None, previous, finish, o.provider.value - previous.provider,
        kind == PitFinish || exists p :: p in passings && p.observation.inPit == Some(true),
        passings, SectorsOf(previous, finish, passings), None)
  }

  /** The CHECK constraints of the tables: durations of at least one millisecond. */
  predicate Storable(lap: Lap) {
    && lap.duration >= 1_000
    && forall s :: s in lap.sectors && s.duration.Some? ==> s.duration.value >= 1_000
  }

  /** `record_tracker_passing` for one car; `None` is a failed constraint, which undoes the frame. */
  function Record(chain: Chain, facts: Facts, o: Observation): Option<Chain> {
    if !AtLine(o) then Some(chain)
    else
      var c := WithFirst(chain, facts, o);
      var length := TrackLength(facts.passings);
      if length.Some? && o.stopMm == length && o.inPit == Some(false) then Some(c)
      else if c.boundaries[|c.boundaries| - 1].provider >= o.provider.value then Some(c)
      else if exists b :: b in c.boundaries && b.passing == Some(o.id) then Some(c)
      else
        var lap := NewLap(c, facts, o);
        if Storable(lap) then Some(Chain(c.boundaries + [lap.finish], c.laps + [lap])) else None
  }

  // ---------------------------------------------------------------- the chain

  predicate IsStart(k: Kind) { k == HeatStart || k == CoverageStart }

  /** Boundaries are numbered from 0 in strictly increasing provider time. */
  ghost predicate BoundariesOk(bs: seq<Boundary>) {
    && (forall i :: 0 <= i < |bs| ==> bs[i].ordinal == i && (IsStart(bs[i].kind) <==> i == 0))
    && (forall i, j :: 0 <= i < j < |bs| ==> bs[i].provider < bs[j].provider)
  }

  function Total(sectors: seq<Sector>): int {
    if sectors == [] then 0
    else Total(sectors[..|sectors| - 1]) + if sectors[|sectors| - 1].duration.Some? then sectors[|sectors| - 1].duration.value else 0
  }

  ghost predicate AllPresent(sectors: seq<Sector>) {
    |sectors| == 3 && forall i :: 0 <= i < 3 ==> sectors[i].duration.Some?
  }

  /** Lap `i` (from 1) spans boundaries i-1 to i; its number is known exactly when the first
      boundary is the heat start; its passings lie inside it; full sectors add up to it. */
  ghost predicate LapOk(bs: seq<Boundary>, lap: Lap, i: nat)
    requires 0 < i < |bs|
  {
    && lap.ordinal == i && lap.start == bs[i - 1] && lap.finish == bs[i]
    && lap.duration == bs[i].provider - bs[i - 1].provider
    && lap.number == (if bs[0].kind == HeatStart then Some(i) else None)
    && (forall p :: p in lap.passings ==> p.observation.provider.Some? && bs[i - 1].provider < p.observation.provider.value <= bs[i].provider)
    && (AllPresent(lap.sectors) ==> Total(lap.sectors) == lap.duration)
    && Storable(lap)
  }

  ghost predicate ChainOk(c: Chain) {
    && BoundariesOk(c.boundaries)
    && |c.laps| == (if c.boundaries == [] then 0 else |c.boundaries| - 1)
    && forall i :: 0 <= i < |c.laps| ==> LapOk(c.boundaries, c.laps[i], i + 1)
  }

  lemma SectorsAddUp(start: Boundary, finish: Boundary, passings: seq<LapPassing>)
    ensures AllPresent(SectorsOf(start, finish, passings)) ==> Total(SectorsOf(start, finish, passings)) == finish.provider - start.provider
  {
    var s := SectorsOf(start, finish, passings);
    assert s[..2] == [s[0], s[1]] && s[..2][..1] == [s[0]] && [s[0]][..0] == [];
    assert Total([s[0]]) == if s[0].duration.Some? then s[0].duration.value else 0;
    assert Total(s) == Total(s[..2]) + if s[2].duration.Some? then s[2].duration.value else 0;
    assert Total(s[..2]) == Total(s[..2][..1]) + if s[1].duration.Some? then s[1].duration.value else 0;
  }

  lemma WithFirstKeeps(c: Chain, facts: Facts, o: Observation)
    requires ChainOk(c) && AtLine(o)
    ensures ChainOk(WithFirst(c, facts, o))
  {
  }

  lemma NewLapOk(c: Chain, facts: Facts, o: Observation)
    requires ChainOk(c) && c.boundaries != [] && AtLine(o)
    requires c.boundaries[|c.boundaries| - 1].provider < o.provider.value && Storable(NewLap(c, facts, o))
    ensures var lap := NewLap(c, facts, o);
            BoundariesOk(c.boundaries + [lap.finish]) && LapOk(c.boundaries + [lap.finish], lap, |c.boundaries|)
  {
    var lap := NewLap(c, facts, o);
    SectorsAddUp(lap.start, lap.finish, lap.passings);
  }

  lemma LapStaysOk(bs: seq<Boundary>, more: Boundary, lap: Lap, i: nat)
    requires 0 < i < |bs| && LapOk(bs, lap, i)
    ensures LapOk(bs + [more], lap, i)
  {
  }

  lemma AppendLapOk(c: Chain, facts: Facts, o: Observation)
    requires ChainOk(c) && c.boundaries != [] && AtLine(o)
    requires c.boundaries[|c.boundaries| - 1].provider < o.provider.value && Storable(NewLap(c, facts, o))
    ensures ChainOk(Chain(c.boundaries + [NewLap(c, facts, o).finish], c.laps + [NewLap(c, facts, o)]))
  {
    var lap := NewLap(c, facts, o);
    NewLapOk(c, facts, o);
    forall i | 0 <= i < |c.laps| ensures LapOk(c.boundaries + [lap.finish], c.laps[i], i + 1) {
      LapStaysOk(c.boundaries, lap.finish, c.laps[i], i + 1);
    }
  }

  lemma RecordKeepsChain(c: Chain, facts: Facts, o: Observation)
    requires ChainOk(c)
    ensures Record(c, facts, o).Some? ==> ChainOk(Record(c, facts, o).value)
  {
    if AtLine(o) {
      var d := WithFirst(c, facts, o);
      WithFirstKeeps(c, facts, o);
      if Record(c, facts, o).Some? && Record(c, facts, o).value != d {
        AppendLapOk(d, facts, o);
      }
    }
  }

  /** A passing to record, with what the database holds at that moment. */
  datatype Passing = Passing(facts: Facts, observation: Observation)

  function ChainOf(chains: map<string, Chain>, car: string): Chain {
    if car in chains then chains[car] else NO_CHAIN
  }

  /** A failed constraint leaves everything as it was. */
  function RecordAll(passings: seq<Passing>): map<string, Chain> {
    if passings == [] then map[]
    else
      var before, p := RecordAll(passings[..|passings| - 1]), passings[|passings| - 1];
      if p.observation.car.None? then before
      else
        var after := Record(ChainOf(before, p.observation.car.value), p.facts, p.observation);
        if after.None? then before else before[p.observation.car.value := after.value]
  }

  /** After any passings, in any order, whatever facts arrive in between, every car's laps form
      one chain. */
  lemma {:induction false} EveryChainHolds(passings: seq<Passing>, car: string)
    ensures ChainOk(ChainOf(RecordAll(passings), car))
  {
    if passings != [] {
      var p := passings[|passings| - 1];
      EveryChainHolds(passings[..|passings| - 1], car);
      if p.observation.car == Some(car) {
        RecordKeepsChain(ChainOf(RecordAll(passings[..|passings| - 1]), car), p.facts, p.observation);
      }
    }
  }

  function Sum(laps: seq<Lap>): int {
    if laps == [] then 0 else Sum(laps[..|laps| - 1]) + laps[|laps| - 1].duration
  }

  lemma ShorterChain(c: Chain)
    requires ChainOk(c) && c.laps != []
    ensures ChainOk(Chain(c.boundaries[..|c.laps|], c.laps[..|c.laps| - 1]))
  {
    var d := Chain(c.boundaries[..|c.laps|], c.laps[..|c.laps| - 1]);
    forall i | 0 <= i < |d.laps| ensures LapOk(d.boundaries, d.laps[i], i + 1) {
      assert LapOk(c.boundaries, c.laps[i], i + 1);
    }
  }

  /** Lap durations add up to the time from the first boundary to the last. */
  lemma {:induction false} DurationsTelescope(c: Chain)
    requires ChainOk(c) && c.boundaries != []
    ensures Sum(c.laps) == c.boundaries[|c.boundaries| - 1].provider - c.boundaries[0].provider
    decreases |c.laps|
  {
    if c.laps != [] {
      var n := |c.laps|;
      ShorterChain(c);
      DurationsTelescope(Chain(c.boundaries[..n], c.laps[..n - 1]));
      assert LapOk(c.boundaries, c.laps[n - 1], n);
    }
  }

  /** The start signal is a signal, and no signal is closer to the green flag. */
  lemma {:induction false} StartSignalIsClosest(passings: seq<Observation>, car: string, length: int, green: int)
    ensures var best := StartSignal(passings, car, length, green);
            && (best.Some? ==> best.value in passings && IsStartSignal(best.value, car, length, green))
            && (forall o :: o in passings && IsStartSignal(o, car, length, green) ==> best.Some? && !Closer(o, best.value, green))
  {
    if passings != [] {
      var init, last := passings[..|passings| - 1], passings[|passings| - 1];
      assert forall o :: o in passings <==> o in init || o == last by { assert passings == init + [last]; }
      StartSignalIsClosest(init, car, length, green);
    }
  }
}
