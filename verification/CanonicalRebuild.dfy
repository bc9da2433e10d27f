/** What the laps of a rebuilt heat say about the stored passings: nothing invented, nothing left out. */
module CanonicalRebuild {
  import opened Common
  import opened CanonicalLaps
  import opened CanonicalMatch

  /** The order in which the rebuild reads the passings: provider time, then id. */
  predicate ByTime(passings: seq<Observation>) {
    forall i, j :: 0 <= i < j < |passings| && passings[i].provider.Some? && passings[j].provider.Some? ==>
      passings[i].provider.value <= passings[j].provider.value
  }

  predicate DistinctIds(passings: seq<Observation>) {
    forall i, j :: 0 <= i < j < |passings| ==> passings[i].id != passings[j].id
  }

  /** The track length is the longest distance any passing stopped at. */
  lemma {:induction false} TrackLengthIsLargest(passings: seq<Observation>)
    ensures TrackLength(passings).None? <==> forall o :: o in passings && o.stopMm.Some? ==> o.stopMm.value <= 0
    ensures TrackLength(passings).Some? ==> exists o :: o in passings && o.stopMm == TrackLength(passings)
    ensures TrackLength(passings).Some? ==>
      forall o :: o in passings && o.stopMm.Some? ==> o.stopMm.value <= TrackLength(passings).value
  {
    if passings != [] {
      var init, last := passings[..|passings| - 1], passings[|passings| - 1];
      TrackLengthIsLargest(init);
      assert forall o :: o in passings <==> o in init || o == last by { assert passings == init + [last]; }
    }
  }

  // ---------------------------------------------------------------- one lap

  predicate Within(o: Observation, car: string, lap: Lap) {
    InWindow(o, car, lap.start.provider, lap.finish.provider)
  }

  ghost predicate Holds(lap: Lap, o: Observation) {
    exists p :: p in lap.passings && p.observation == o
  }

  /** `at` is the first time the car ended this sector during the lap. */
  ghost predicate FirstCrossing(passings: seq<Observation>, car: string, lap: Lap, sector: int, at: Option<int>) {
    && (at.None? <==> forall o :: o in passings && Within(o, car, lap) ==> o.sector != Some(sector))
    && (at.Some? ==>
         && (exists o :: o in passings && Within(o, car, lap) && o.sector == Some(sector) && o.provider == at)
         && (forall o :: o in passings && Within(o, car, lap) && o.sector == Some(sector) ==> at.value <= o.provider.value))
  }

  ghost predicate Measures(s: Sector) {
    forall d :: s.duration == Some(d) <==> d > 0 && s.from.Some? && s.to.Some? && s.to.value == s.from.value + d
  }

  ghost predicate SectorsTold(passings: seq<Observation>, car: string, lap: Lap) {
    && |lap.sectors| == 3
    && lap.sectors[0].from == Some(lap.start.provider) && lap.sectors[2].to == Some(lap.finish.provider)
    && lap.sectors[1].from == lap.sectors[0].to && lap.sectors[2].from == lap.sectors[1].to
    && FirstCrossing(passings, car, lap, 1, lap.sectors[0].to)
    && FirstCrossing(passings, car, lap, 2, lap.sectors[1].to)
    && Measures(lap.sectors[0]) && Measures(lap.sectors[1]) && Measures(lap.sectors[2])
  }

  /** The lap holds exactly the car's passings of its time, only its finish as FINISH; it is a
      pit lap exactly when one of them was in the pit. */
  ghost predicate PassingsTold(passings: seq<Observation>, car: string, lap: Lap) {
    && (forall o :: Holds(lap, o) <==> o in passings && Within(o, car, lap))
    && (forall p :: p in lap.passings ==> (p.role == Finish <==> Some(p.observation.id) == lap.finish.passing))
    && (lap.isPit <==> exists o :: o in passings && Within(o, car, lap) && o.inPit == Some(true))
    && (exists o :: Holds(lap, o) && Some(o.id) == lap.finish.passing && o.provider == Some(lap.finish.provider)
                    && (lap.finish.kind == PitFinish <==> o.inPit == Some(true)))
  }

  ghost predicate LapTold(passings: seq<Observation>, car: string, lap: Lap) {
    PassingsTold(passings, car, lap) && SectorsTold(passings, car, lap)
  }

  lemma {:induction false} CollectsExactly(passings: seq<Observation>, car: string, after: int, upTo: int, finish: nat, length: Option<int>)
    ensures var r := LapPassings(passings, car, after, upTo, finish, length);
            && (forall o :: o in passings && InWindow(o, car, after, upTo) ==> LapPassing(o, RoleOf(o, finish, length)) in r)
            && (forall p :: p in r ==> p.observation in passings && p.role == RoleOf(p.observation, finish, length))
  {
    if passings != [] {
      var init, last := passings[..|passings| - 1], passings[|passings| - 1];
      CollectsExactly(init, car, after, upTo, finish, length);
      assert forall o :: o in passings <==> o in init || o == last by { assert passings == init + [last]; }
    }
  }

  ghost predicate InOrder(r: seq<LapPassing>) {
    && (forall p :: p in r ==> p.observation.provider.Some?)
    && (forall i, j :: 0 <= i < j < |r| ==> r[i].observation.provider.value <= r[j].observation.provider.value)
  }

  lemma {:induction false} CollectsInOrder(passings: seq<Observation>, car: string, after: int, upTo: int, finish: nat, length: Option<int>)
    requires ByTime(passings)
    ensures InOrder(LapPassings(passings, car, after, upTo, finish, length))
  {
    if passings != [] {
      var init, last := passings[..|passings| - 1], passings[|passings| - 1];
      var r := LapPassings(init, car, after, upTo, finish, length);
      CollectsInOrder(init, car, after, upTo, finish, length);
      CollectsExactly(init, car, after, upTo, finish, length);
      forall i | 0 <= i < |r| && last.provider.Some? ensures r[i].observation.provider.value <= last.provider.value {
        assert r[i] in r;
        var k :| 0 <= k < |init| && init[k] == r[i].observation;
        assert passings[k] == init[k];
      }
    }
  }

  lemma {:induction false} FirstOfSectorIsFirst(r: seq<LapPassing>, sector: int)
    requires InOrder(r)
    ensures FirstOfSector(r, sector).None? <==> forall p :: p in r ==> p.observation.sector != Some(sector)
    ensures var first := FirstOfSector(r, sector);
            first.Some? ==>
              && (exists p :: p in r && p.observation == first.value) && first.value.sector == Some(sector)
              && forall p :: p in r && p.observation.sector == Some(sector) ==> first.value.provider.value <= p.observation.provider.value
  {
    if r != [] && r[0].observation.sector != Some(sector) {
      FirstOfSectorIsFirst(r[1..], sector);
      assert forall p :: p in r <==> p == r[0] || p in r[1..] by { assert r == [r[0]] + r[1..]; }
    }
  }

  lemma CrossingFound(passings: seq<Observation>, car: string, lap: Lap, finish: nat, length: Option<int>, sector: int)
    requires ByTime(passings)
    requires lap.passings == LapPassings(passings, car, lap.start.provider, lap.finish.provider, finish, length)
    ensures FirstCrossing(passings, car, lap, sector, ProviderOf(FirstOfSector(lap.passings, sector)))
  {
    var first := FirstOfSector(lap.passings, sector);
    CollectsExactly(passings, car, lap.start.provider, lap.finish.provider, finish, length);
    CollectsInOrder(passings, car, lap.start.provider, lap.finish.provider, finish, length);
    FirstOfSectorIsFirst(lap.passings, sector);
    forall o | o in passings && Within(o, car, lap) ensures Holds(lap, o) {
      assert LapPassing(o, RoleOf(o, finish, length)) in lap.passings;
    }
    if first.Some? {
      assert Within(first.value, car, lap);
    }
  }

  lemma NewLapSectors(chain: Chain, facts: Facts, o: Observation)
    requires AtLine(o) && chain.boundaries != [] && ByTime(facts.passings)
    ensures SectorsTold(facts.passings, o.car.value, NewLap(chain, facts, o))
  {
    var lap, length := NewLap(chain, facts, o), TrackLength(facts.passings);
    CrossingFound(facts.passings, o.car.value, lap, o.id, length, 1);
    CrossingFound(facts.passings, o.car.value, lap, o.id, length, 2);
  }

  lemma NewLapHolds(chain: Chain, facts: Facts, o: Observation, x: Observation)
    requires AtLine(o) && chain.boundaries != []
    ensures Holds(NewLap(chain, facts, o), x) <==> x in facts.passings && Within(x, o.car.value, NewLap(chain, facts, o))
  {
    var lap, length := NewLap(chain, facts, o), TrackLength(facts.passings);
    CollectsExactly(facts.passings, o.car.value, lap.start.provider, lap.finish.provider, o.id, length);
    if x in facts.passings && Within(x, o.car.value, lap) {
      assert LapPassing(x, RoleOf(x, o.id, length)) in lap.passings;
    }
  }

  lemma NewLapPassings(chain: Chain, facts: Facts, o: Observation)
    requires AtLine(o) && chain.boundaries != [] && o in facts.passings
    requires chain.boundaries[|chain.boundaries| - 1].provider < o.provider.value
    ensures PassingsTold(facts.passings, o.car.value, NewLap(chain, facts, o))
  {
    var lap, length := NewLap(chain, facts, o), TrackLength(facts.passings);
    CollectsExactly(facts.passings, o.car.value, lap.start.provider, lap.finish.provider, o.id, length);
    forall x ensures Holds(lap, x) <==> x in facts.passings && Within(x, o.car.value, lap) {
      NewLapHolds(chain, facts, o, x);
    }
    assert Within(o, o.car.value, lap) && Holds(lap, o);
    assert lap.isPit <==> exists x :: x in facts.passings && Within(x, o.car.value, lap) && x.inPit == Some(true);
  }

  // ---------------------------------------------------------------- one car

  /** A whole loop on track, which is a start signal and never a finish. */
  predicate IsWholeLoop(passings: seq<Observation>, o: Observation) {
    TrackLength(passings).Some? && o.stopMm == TrackLength(passings) && o.inPit == Some(false)
  }

  predicate LineOf(o: Observation, car: string) { AtLine(o) && o.car == Some(car) }

  predicate FinishOf(passings: seq<Observation>, o: Observation, car: string) {
    LineOf(o, car) && !IsWholeLoop(passings, o)
  }

  ghost predicate HasSignal(facts: Facts, car: string, s: Observation) {
    && s in facts.passings && facts.green.Some? && TrackLength(facts.passings).Some?
    && IsStartSignal(s, car, TrackLength(facts.passings).value, facts.green.value.provider)
  }

  /** The first boundary is the green flag when a start signal corroborates it, and otherwise the
      car's first time at the line. */
  ghost predicate FirstTold(facts: Facts, car: string, n: nat, first: Boundary)
    requires n <= |facts.passings|
  {
    && (first.kind == HeatStart <==> exists s :: HasSignal(facts, car, s))
    && (first.kind == HeatStart ==>
         && facts.green.Some? && first.provider == facts.green.value.provider && first.passing.None?
         && exists s :: HasSignal(facts, car, s) && first.corroborating == Some(s.id)
                        && forall x :: HasSignal(facts, car, x) ==> !Closer(x, s, facts.green.value.provider))
    && (first.kind != HeatStart ==>
         && (exists k :: 0 <= k < n && LineOf(facts.passings[k], car) && first.passing == Some(facts.passings[k].id)
                         && facts.passings[k].provider == Some(first.provider))
         && (forall k :: 0 <= k < n && LineOf(facts.passings[k], car) ==> first.provider <= facts.passings[k].provider.value))
  }

  ghost predicate IsBoundaryTime(bs: seq<Boundary>, t: int) {
    exists i :: 0 <= i < |bs| && bs[i].provider == t
  }

  ghost predicate IsFinishRow(facts: Facts, car: string, n: nat, b: Boundary)
    requires n <= |facts.passings|
  {
    exists k :: 0 <= k < n && FinishOf(facts.passings, facts.passings[k], car)
                && b.passing == Some(facts.passings[k].id) && facts.passings[k].provider == Some(b.provider)
  }

  /** A finish is a boundary, unless it is not later than the first one. */
  ghost predicate FinishKnown(facts: Facts, car: string, bs: seq<Boundary>, k: nat)
    requires k < |facts.passings|
  {
    FinishOf(facts.passings, facts.passings[k], car) ==>
      && bs != []
      && (facts.passings[k].provider.value <= bs[0].provider || IsBoundaryTime(bs, facts.passings[k].provider.value))
  }

  /** Of the first `n` passings: every later boundary is a finish, and every finish after the
      first boundary is a boundary. */
  ghost predicate BoundariesTold(facts: Facts, car: string, n: nat, bs: seq<Boundary>)
    requires n <= |facts.passings|
  {
    && (bs == [] <==> forall k :: 0 <= k < n ==> !LineOf(facts.passings[k], car))
    && (bs != [] ==> FirstTold(facts, car, n, bs[0]))
    && (forall i :: 0 < i < |bs| ==> IsFinishRow(facts, car, n, bs[i]))
    && (forall k :: 0 <= k < n ==> FinishKnown(facts, car, bs, k))
  }

  ghost predicate ChainTold(facts: Facts, car: string, n: nat, c: Chain)
    requires n <= |facts.passings|
  {
    && ChainOk(c) && BoundariesTold(facts, car, n, c.boundaries)
    && LapsTold(facts.passings, car, c.laps)
  }

  ghost predicate LapsTold(passings: seq<Observation>, car: string, laps: seq<Lap>) {
    forall i :: 0 <= i < |laps| ==> LapTold(passings, car, laps[i])
  }

  lemma FirstFound(facts: Facts, car: string, n: nat)
    requires n < |facts.passings| && LineOf(facts.passings[n], car)
    requires forall k :: 0 <= k < n ==> !LineOf(facts.passings[k], car)
    ensures FirstTold(facts, car, n + 1, FirstBoundary(facts, facts.passings[n]))
  {
    var length := TrackLength(facts.passings);
    if facts.green.Some? && length.Some? {
      var green := facts.green.value.provider;
      var best := StartSignal(facts.passings, car, length.value, green);
      StartSignalIsClosest(facts.passings, car, length.value, green);
      if best.Some? { assert HasSignal(facts, car, best.value); }
    }
  }

  lemma FirstStays(facts: Facts, car: string, n: nat, first: Boundary)
    requires n < |facts.passings| && ByTime(facts.passings) && FirstTold(facts, car, n, first)
    ensures FirstTold(facts, car, n + 1, first)
  {
  }

  /** A passing that is not this car's at the line changes nothing. */
  lemma OtherPassing(facts: Facts, car: string, n: nat, bs: seq<Boundary>)
    requires n < |facts.passings| && ByTime(facts.passings) && !LineOf(facts.passings[n], car)
    requires BoundariesTold(facts, car, n, bs)
    ensures BoundariesTold(facts, car, n + 1, bs)
  {
    if bs != [] { FirstStays(facts, car, n, bs[0]); }
    forall i | 0 < i < |bs| ensures IsFinishRow(facts, car, n + 1, bs[i]) {
      RowStays(facts, car, n, bs[i]);
    }
  }

  lemma RowStays(facts: Facts, car: string, n: nat, b: Boundary)
    requires n < |facts.passings| && IsFinishRow(facts, car, n, b)
    ensures IsFinishRow(facts, car, n + 1, b)
  {
  }

  /** The boundaries once the car has a first one, with passing `n` still to be judged. */
  ghost predicate Opened(facts: Facts, car: string, n: nat, bs: seq<Boundary>)
    requires n < |facts.passings|
  {
    && bs != [] && FirstTold(facts, car, n + 1, bs[0])
    && (forall i :: 0 < i < |bs| ==> IsFinishRow(facts, car, n, bs[i]))
    && (forall k :: 0 <= k < n ==> FinishKnown(facts, car, bs, k))
  }

  lemma FirstOpens(facts: Facts, car: string, n: nat, c: Chain)
    requires n < |facts.passings| && ByTime(facts.passings) && LineOf(facts.passings[n], car)
    requires BoundariesTold(facts, car, n, c.boundaries)
    ensures Opened(facts, car, n, WithFirst(c, facts, facts.passings[n]).boundaries)
  {
    if c.boundaries == [] {
      FirstFound(facts, car, n);
    } else {
      FirstStays(facts, car, n, c.boundaries[0]);
    }
  }

  lemma RowsStay(facts: Facts, car: string, n: nat, bs: seq<Boundary>)
    requires n < |facts.passings| && Opened(facts, car, n, bs)
    ensures forall i :: 0 < i < |bs| ==> IsFinishRow(facts, car, n + 1, bs[i])
  {
    forall i | 0 < i < |bs| ensures IsFinishRow(facts, car, n + 1, bs[i]) {
      RowStays(facts, car, n, bs[i]);
    }
  }

  /** A finish at or before the last boundary is one already, or precedes the first. */
  lemma KnownFinish(facts: Facts, car: string, n: nat, bs: seq<Boundary>)
    requires n < |facts.passings| && ByTime(facts.passings) && Opened(facts, car, n, bs)
    requires LineOf(facts.passings[n], car) && bs[|bs| - 1].provider >= facts.passings[n].provider.value
    ensures FinishKnown(facts, car, bs, n)
  {
    var m := |bs| - 1;
    if m > 0 { assert IsFinishRow(facts, car, n, bs[m]); }
    assert m > 0 ==> bs[m].provider == facts.passings[n].provider.value;
  }

  lemma NotARowYet(facts: Facts, car: string, n: nat, b: Boundary)
    requires n < |facts.passings| && DistinctIds(facts.passings)
    ensures IsFinishRow(facts, car, n, b) ==> b.passing != Some(facts.passings[n].id)
  {
  }

  /** A passing that already is a boundary is the first one. */
  lemma RecordedIsFirst(facts: Facts, car: string, n: nat, bs: seq<Boundary>)
    requires n < |facts.passings| && DistinctIds(facts.passings) && Opened(facts, car, n, bs)
    requires LineOf(facts.passings[n], car)
    ensures (exists b :: b in bs && b.passing == Some(facts.passings[n].id)) ==>
      facts.passings[n].provider.value <= bs[0].provider
  {
    forall i | 0 < i < |bs| ensures bs[i].passing != Some(facts.passings[n].id) {
      NotARowYet(facts, car, n, bs[i]);
    }
  }

  lemma OpenedIsTold(facts: Facts, car: string, n: nat, bs: seq<Boundary>)
    requires n < |facts.passings| && Opened(facts, car, n, bs) && LineOf(facts.passings[n], car)
    requires FinishKnown(facts, car, bs, n)
    ensures BoundariesTold(facts, car, n + 1, bs)
  {
    RowsStay(facts, car, n, bs);
  }

  lemma FinishIsTold(facts: Facts, car: string, n: nat, bs: seq<Boundary>, b: Boundary)
    requires n < |facts.passings| && Opened(facts, car, n, bs) && FinishOf(facts.passings, facts.passings[n], car)
    requires b.passing == Some(facts.passings[n].id) && facts.passings[n].provider == Some(b.provider)
    ensures BoundariesTold(facts, car, n + 1, bs + [b])
  {
    var after := bs + [b];
    RowsStay(facts, car, n, bs);
    assert IsFinishRow(facts, car, n + 1, b);
    forall t | IsBoundaryTime(bs, t) ensures IsBoundaryTime(after, t) {
      var i :| 0 <= i < |bs| && bs[i].provider == t;
      assert after[i].provider == t;
    }
    assert IsBoundaryTime(after, b.provider) by { assert after[|bs|] == b; }
    forall k | 0 <= k <= n ensures FinishKnown(facts, car, after, k) {
      assert k < n ==> FinishKnown(facts, car, bs, k);
    }
  }

  function Extended(d: Chain, lap: Lap): Chain { Chain(d.boundaries + [lap.finish], d.laps + [lap]) }

  ghost predicate Skips(d: Chain, facts: Facts, o: Observation)
    requires AtLine(o) && d.boundaries != []
  {
    || IsWholeLoop(facts.passings, o)
    || d.boundaries[|d.boundaries| - 1].provider >= o.provider.value
    || exists b :: b in d.boundaries && b.passing == Some(o.id)
  }

  lemma RecordEither(c: Chain, facts: Facts, o: Observation)
    requires AtLine(o) && Record(c, facts, o).Some?
    ensures var d := WithFirst(c, facts, o);
            Record(c, facts, o).value == if Skips(d, facts, o) then d else Extended(d, NewLap(d, facts, o))
  {
  }

  lemma NewLapEnds(d: Chain, facts: Facts, o: Observation)
    requires AtLine(o) && d.boundaries != []
    ensures NewLap(d, facts, o).finish.passing == Some(o.id) && o.provider == Some(NewLap(d, facts, o).finish.provider)
  {
  }

  lemma SkippedIsTold(facts: Facts, car: string, n: nat, d: Chain)
    requires n < |facts.passings| && ByTime(facts.passings) && DistinctIds(facts.passings)
    requires Opened(facts, car, n, d.boundaries) && LineOf(facts.passings[n], car) && Skips(d, facts, facts.passings[n])
    ensures BoundariesTold(facts, car, n + 1, d.boundaries)
  {
    var o := facts.passings[n];
    RecordedIsFirst(facts, car, n, d.boundaries);
    if d.boundaries[|d.boundaries| - 1].provider >= o.provider.value {
      KnownFinish(facts, car, n, d.boundaries);
    }
    OpenedIsTold(facts, car, n, d.boundaries);
  }

  lemma RecordBoundaries(facts: Facts, car: string, n: nat, c: Chain)
    requires n < |facts.passings| && ByTime(facts.passings) && DistinctIds(facts.passings)
    requires BoundariesTold(facts, car, n, c.boundaries) && LineOf(facts.passings[n], car)
    requires Record(c, facts, facts.passings[n]).Some?
    ensures BoundariesTold(facts, car, n + 1, Record(c, facts, facts.passings[n]).value.boundaries)
  {
    var o := facts.passings[n];
    var d := WithFirst(c, facts, o);
    FirstOpens(facts, car, n, c);
    RecordEither(c, facts, o);
    if Skips(d, facts, o) {
      SkippedIsTold(facts, car, n, d);
    } else {
      NewLapEnds(d, facts, o);
      FinishIsTold(facts, car, n, d.boundaries, NewLap(d, facts, o).finish);
    }
  }

  lemma NewLapTold(d: Chain, facts: Facts, o: Observation)
    requires ByTime(facts.passings) && o in facts.passings && AtLine(o) && d.boundaries != [] && !Skips(d, facts, o)
    ensures LapTold(facts.passings, o.car.value, NewLap(d, facts, o))
  {
    NewLapPassings(d, facts, o);
    NewLapSectors(d, facts, o);
  }

  lemma RecordLaps(facts: Facts, c: Chain, o: Observation)
    requires ByTime(facts.passings) && o in facts.passings && AtLine(o) && Record(c, facts, o).Some?
    requires LapsTold(facts.passings, o.car.value, c.laps)
    ensures LapsTold(facts.passings, o.car.value, Record(c, facts, o).value.laps)
  {
    var d := WithFirst(c, facts, o);
    RecordEither(c, facts, o);
    if !Skips(d, facts, o) {
      NewLapTold(d, facts, o);
    }
  }

  lemma RecordIsTold(facts: Facts, car: string, n: nat, c: Chain, after: Chain)
    requires n < |facts.passings| && ByTime(facts.passings) && DistinctIds(facts.passings)
    requires ChainTold(facts, car, n, c) && LineOf(facts.passings[n], car)
    requires Record(c, facts, facts.passings[n]) == Some(after)
    ensures ChainTold(facts, car, n + 1, after)
  {
    RecordKeepsChain(c, facts, facts.passings[n]);
    RecordBoundaries(facts, car, n, c);
    RecordLaps(facts, c, facts.passings[n]);
  }

  lemma EachStep(facts: Facts, car: string, n: nat)
    requires n < |facts.passings| && RecordEach(facts, n + 1).Some?
    ensures RecordEach(facts, n).Some?
    ensures var before, after := ChainOf(RecordEach(facts, n).value, car), ChainOf(RecordEach(facts, n + 1).value, car);
            var o := facts.passings[n];
            if LineOf(o, car) then Record(before, facts, o) == Some(after) else after == before
  {
  }

  lemma NextIsTold(facts: Facts, car: string, n: nat, before: Chain, after: Chain)
    requires n < |facts.passings| && ByTime(facts.passings) && DistinctIds(facts.passings)
    requires ChainTold(facts, car, n, before)
    requires if LineOf(facts.passings[n], car) then Record(before, facts, facts.passings[n]) == Some(after) else after == before
    ensures ChainTold(facts, car, n + 1, after)
  {
    if LineOf(facts.passings[n], car) {
      RecordIsTold(facts, car, n, before, after);
    } else {
      OtherPassing(facts, car, n, before.boundaries);
    }
  }

  lemma {:induction false} RecordEachIsTold(facts: Facts, car: string, n: nat)
    requires n <= |facts.passings| && ByTime(facts.passings) && DistinctIds(facts.passings)
    requires RecordEach(facts, n).Some?
    ensures ChainTold(facts, car, n, ChainOf(RecordEach(facts, n).value, car))
  {
    if n == 0 {
      NothingIsTold(facts, car);
    } else {
      EachStep(facts, car, n - 1);
      RecordEachIsTold(facts, car, n - 1);
      NextIsTold(facts, car, n - 1, ChainOf(RecordEach(facts, n - 1).value, car), ChainOf(RecordEach(facts, n).value, car));
    }
  }

  lemma NothingIsTold(facts: Facts, car: string)
    ensures ChainTold(facts, car, 0, NO_CHAIN)
  {
  }

  // ---------------------------------------------------------------- the rebuilt heat

  /** Attaching LAST cells changes nothing else about a chain. */
  ghost predicate SameButLinks(a: Chain, b: Chain) {
    && a.boundaries == b.boundaries && |a.laps| == |b.laps|
    && forall i :: 0 <= i < |a.laps| ==> a.laps[i].(last := None) == b.laps[i].(last := None)
  }

  lemma {:induction false} MatchingKeepsChains(chains: map<string, Chain>, ledger: seq<Entry>, car: string)
    ensures SameButLinks(ChainOf(MatchAll(chains, ledger).chains, car), ChainOf(chains, car))
  {
    if ledger != [] {
      MatchingKeepsChains(chains, ledger[..|ledger| - 1], car);
      MatchForIs(MatchAll(chains, ledger[..|ledger| - 1]).chains, ledger[|ledger| - 1]);
    }
  }

  lemma UnlinkedIsTold(passings: seq<Observation>, car: string, a: Lap, b: Lap)
    requires LapTold(passings, car, a) && a.(last := None) == b.(last := None)
    ensures LapTold(passings, car, b)
  {
    forall o ensures Holds(a, o) <==> Holds(b, o) {
    }
    assert PassingsTold(passings, car, b) && SectorsTold(passings, car, b);
  }

  lemma LinksKeepTold(facts: Facts, car: string, a: Chain, b: Chain)
    requires ChainTold(facts, car, |facts.passings|, a) && SameButLinks(b, a)
    ensures ChainTold(facts, car, |facts.passings|, b)
  {
    forall i | 0 <= i < |b.laps| ensures LapOk(b.boundaries, b.laps[i], i + 1) && LapTold(facts.passings, car, b.laps[i]) {
      assert LapOk(a.boundaries, a.laps[i], i + 1);
      UnlinkedIsTold(facts.passings, car, a.laps[i], b.laps[i]);
    }
  }

  /** The boundaries of a rebuilt heat are the car's finishes, and its laps hold exactly the
      passings, sectors and pit visits of their time. */
  lemma RebuildTellsThePassings(facts: Facts, h: Heat, car: string)
    requires ByTime(facts.passings) && DistinctIds(facts.passings) && Rebuild(facts, h).Some?
    ensures ChainTold(facts, car, |facts.passings|, ChainOf(Rebuild(facts, h).value.chains, car))
  {
    var chains := RecordEach(facts, |facts.passings|).value;
    RecordEachIsTold(facts, car, |facts.passings|);
    MatchingKeepsChains(chains, h.ledger, car);
    LinksKeepTold(facts, car, ChainOf(chains, car), ChainOf(MatchAll(chains, h.ledger).chains, car));
  }

  lemma {:induction false} LapAround(bs: seq<Boundary>, t: int) returns (i: nat)
    requires bs != [] && bs[0].provider < t <= bs[|bs| - 1].provider
    ensures 0 < i < |bs| && bs[i - 1].provider < t <= bs[i].provider
  {
    if bs[|bs| - 2].provider < t {
      i := |bs| - 1;
    } else {
      i := LapAround(bs[..|bs| - 1], t);
    }
  }

  lemma OnlyOneAround(bs: seq<Boundary>, t: int, i: nat, j: nat)
    requires BoundariesOk(bs) && i + 1 < |bs| && j + 1 < |bs| && i != j
    requires bs[i].provider < t <= bs[i + 1].provider
    ensures !(bs[j].provider < t <= bs[j + 1].provider)
  {
    assert i + 1 < j ==> bs[i + 1].provider < bs[j].provider;
    assert j + 1 < i ==> bs[j + 1].provider < bs[i].provider;
  }

  lemma LapHoldsItsTime(facts: Facts, car: string, c: Chain, j: nat, o: Observation)
    requires ChainTold(facts, car, |facts.passings|, c) && j < |c.laps|
    ensures Holds(c.laps[j], o) <==>
      o in facts.passings && InWindow(o, car, c.boundaries[j].provider, c.boundaries[j + 1].provider)
  {
    assert LapOk(c.boundaries, c.laps[j], j + 1) && LapTold(facts.passings, car, c.laps[j]);
  }

  lemma ToldShape(facts: Facts, car: string, c: Chain)
    requires ChainTold(facts, car, |facts.passings|, c)
    ensures BoundariesOk(c.boundaries) && (c.boundaries != [] ==> |c.laps| + 1 == |c.boundaries|)
  {
  }

  /** `o` is in lap `i` of the chain and in no other. */
  ghost predicate InOnlyLap(c: Chain, o: Observation, i: nat) {
    forall j :: 0 <= j < |c.laps| ==> (Holds(c.laps[j], o) <==> j == i)
  }

  /** Every passing between the first and the last boundary is in one lap, and in no other. */
  lemma EveryPassingInOneLap(facts: Facts, car: string, c: Chain, o: Observation)
    requires ChainTold(facts, car, |facts.passings|, c) && o in facts.passings && c.boundaries != []
    requires InWindow(o, car, c.boundaries[0].provider, c.boundaries[|c.boundaries| - 1].provider)
    ensures exists i :: 0 <= i < |c.laps| && InOnlyLap(c, o, i)
  {
    var k := LapAround(c.boundaries, o.provider.value);
    PassingOnlyIn(facts, car, c, o, k - 1);
  }

  lemma PassingOnlyIn(facts: Facts, car: string, c: Chain, o: Observation, i: nat)
    requires ChainTold(facts, car, |facts.passings|, c) && o in facts.passings && i + 1 < |c.boundaries|
    requires InWindow(o, car, c.boundaries[i].provider, c.boundaries[i + 1].provider)
    ensures i < |c.laps| && InOnlyLap(c, o, i)
  {
    ToldShape(facts, car, c);
    forall j | 0 <= j < |c.laps| ensures Holds(c.laps[j], o) <==> j == i {
      LapHoldsItsTime(facts, car, c, j, o);
      if j != i { OnlyOneAround(c.boundaries, o.provider.value, i, j); }
    }
  }

  // ---------------------------------------------------------------- the constraints

  /** Any two different times of one car, and of the green flag, are a millisecond apart. */
  ghost predicate Spaced(facts: Facts) {
    forall car, s, t :: IsTimeOf(facts, car, s) && IsTimeOf(facts, car, t) && s < t ==> t - s >= 1_000
  }

  ghost predicate IsTimeOf(facts: Facts, car: string, t: int) {
    || (facts.green.Some? && facts.green.value.provider == t)
    || exists o :: o in facts.passings && o.tracked && o.car == Some(car) && o.provider == Some(t)
  }

  lemma OpenedTimes(facts: Facts, car: string, n: nat, bs: seq<Boundary>)
    requires n < |facts.passings| && Opened(facts, car, n, bs)
    ensures IsTimeOf(facts, car, bs[|bs| - 1].provider)
  {
    var m := |bs| - 1;
    if m > 0 { assert IsFinishRow(facts, car, n, bs[m]); }
  }

  lemma CrossingTime(facts: Facts, car: string, lap: Lap, sector: int, at: Option<int>)
    requires FirstCrossing(facts.passings, car, lap, sector, at)
    ensures at.Some? ==> IsTimeOf(facts, car, at.value)
  {
  }

  lemma NewLapStorable(facts: Facts, car: string, n: nat, d: Chain)
    requires n < |facts.passings| && ByTime(facts.passings) && Spaced(facts) && LineOf(facts.passings[n], car)
    requires Opened(facts, car, n, d.boundaries)
    requires d.boundaries[|d.boundaries| - 1].provider < facts.passings[n].provider.value
    ensures Storable(NewLap(d, facts, facts.passings[n]))
  {
    var o := facts.passings[n];
    var lap := NewLap(d, facts, o);
    NewLapSectors(d, facts, o);
    OpenedTimes(facts, car, n, d.boundaries);
    assert IsTimeOf(facts, car, lap.finish.provider);
    CrossingTime(facts, car, lap, 1, lap.sectors[0].to);
    CrossingTime(facts, car, lap, 2, lap.sectors[1].to);
    forall s | s in lap.sectors && s.duration.Some? ensures s.duration.value >= 1_000 {
      SpacedSector(facts, car, s);
    }
  }

  lemma SpacedSector(facts: Facts, car: string, s: Sector)
    requires Spaced(facts) && Measures(s) && s.duration.Some?
    requires s.from.Some? ==> IsTimeOf(facts, car, s.from.value)
    requires s.to.Some? ==> IsTimeOf(facts, car, s.to.value)
    ensures s.duration.value >= 1_000
  {
    assert s.duration == Some(s.duration.value);
  }

  lemma NextIsStorable(facts: Facts, car: string, n: nat, before: Chain)
    requires n < |facts.passings| && ByTime(facts.passings) && Spaced(facts) && LineOf(facts.passings[n], car)
    requires BoundariesTold(facts, car, n, before.boundaries)
    ensures Record(before, facts, facts.passings[n]).Some?
  {
    var o := facts.passings[n];
    var d := WithFirst(before, facts, o);
    FirstOpens(facts, car, n, before);
    if d.boundaries[|d.boundaries| - 1].provider < o.provider.value {
      NewLapStorable(facts, car, n, d);
    }
  }

  lemma {:induction false} SpacedIsRecorded(facts: Facts, n: nat)
    requires n <= |facts.passings| && ByTime(facts.passings) && DistinctIds(facts.passings) && Spaced(facts)
    ensures RecordEach(facts, n).Some?
  {
    if n > 0 {
      SpacedIsRecorded(facts, n - 1);
      var o := facts.passings[n - 1];
      if AtLine(o) {
        RecordEachIsTold(facts, o.car.value, n - 1);
        NextIsStorable(facts, o.car.value, n - 1, ChainOf(RecordEach(facts, n - 1).value, o.car.value));
      }
    }
  }

  /** A heat whose times are apart is always rebuilt. */
  lemma SpacedHeatIsRebuilt(facts: Facts, h: Heat)
    requires ByTime(facts.passings) && DistinctIds(facts.passings) && Spaced(facts)
    ensures Rebuild(facts, h).Some?
  {
    SpacedIsRecorded(facts, |facts.passings|);
  }
}
