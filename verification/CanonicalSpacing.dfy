/** When the constraints on durations let a heat be rebuilt. */
module CanonicalSpacing {
  import opened Common
  import opened CanonicalLaps
  import opened CanonicalMatch
  import opened CanonicalRebuild

  // ---------------------------------------------------------------- what the facts say

  ghost predicate EverAtLine(facts: Facts, car: string) {
    exists o :: o in facts.passings && LineOf(o, car)
  }

  /** The green flag where a start signal corroborates it, else the car's first time at the line. */
  ghost predicate IsFirstTime(facts: Facts, car: string, t: int) {
    if exists s :: HasSignal(facts, car, s) then facts.green.Some? && t == facts.green.value.provider
    else
      && (exists o :: o in facts.passings && LineOf(o, car) && o.provider == Some(t))
      && (forall o :: o in facts.passings && LineOf(o, car) ==> t <= o.provider.value)
  }

  ghost predicate IsFinishTime(facts: Facts, car: string, t: int) {
    exists o :: o in facts.passings && FinishOf(facts.passings, o, car) && o.provider == Some(t)
  }

  /** `s` and `t` are two boundary times of the car with none between. */
  ghost predicate IsLapTime(facts: Facts, car: string, s: int, t: int) {
    && s < t && EverAtLine(facts, car) && IsFinishTime(facts, car, t)
    && (IsFirstTime(facts, car, s) || (IsFinishTime(facts, car, s) && forall f :: IsFirstTime(facts, car, f) ==> f < s))
    && (forall f :: IsFirstTime(facts, car, f) ==> f <= s)
    && (forall u :: IsFinishTime(facts, car, u) ==> u <= s || t <= u)
  }

  /** `at` is the first time the car ended this sector in (s, t]. */
  ghost predicate Crosses(passings: seq<Observation>, car: string, s: int, t: int, sector: int, at: Option<int>) {
    && (at.None? <==> forall o :: o in passings && InWindow(o, car, s, t) ==> o.sector != Some(sector))
    && (at.Some? ==>
         && (exists o :: o in passings && InWindow(o, car, s, t) && o.sector == Some(sector) && o.provider == at)
         && (forall o :: o in passings && InWindow(o, car, s, t) && o.sector == Some(sector) ==> at.value <= o.provider.value))
  }

  /** Not between nothing and a millisecond apart. */
  predicate FarEnough(from: Option<int>, to: Option<int>) {
    from.Some? && to.Some? && from.value < to.value ==> to.value - from.value >= 1_000
  }

  /** The lap and each of its sectors is at least a millisecond long. */
  ghost predicate LongEnough(facts: Facts, car: string, s: int, t: int) {
    && t - s >= 1_000
    && forall first, second ::
         Crosses(facts.passings, car, s, t, 1, first) && Crosses(facts.passings, car, s, t, 2, second) ==>
         FarEnough(Some(s), first) && FarEnough(first, second) && FarEnough(second, Some(t))
  }

  ghost predicate Storables(facts: Facts) {
    forall car, s, t :: IsLapTime(facts, car, s, t) ==> LongEnough(facts, car, s, t)
  }

  // ---------------------------------------------------------------- one lap

  lemma CrossesIs(facts: Facts, car: string, lap: Lap, sector: int, at: Option<int>)
    ensures FirstCrossing(facts.passings, car, lap, sector, at)
        <==> Crosses(facts.passings, car, lap.start.provider, lap.finish.provider, sector, at)
  {
  }

  lemma CrossesOnce(passings: seq<Observation>, car: string, s: int, t: int, sector: int, a: Option<int>, b: Option<int>)
    requires Crosses(passings, car, s, t, sector, a) && Crosses(passings, car, s, t, sector, b)
    ensures a == b
  {
  }

  lemma MeasuredIsLong(s: Sector)
    requires Measures(s)
    ensures (s.duration.Some? ==> s.duration.value >= 1_000) <==> FarEnough(s.from, s.to)
  {
    if s.duration.Some? {
      assert s.duration == Some(s.duration.value);
    } else if s.from.Some? && s.to.Some? {
      assert s.duration != Some(s.to.value - s.from.value);
    }
  }

  lemma StorableExactly(facts: Facts, car: string, lap: Lap)
    requires SectorsTold(facts.passings, car, lap) && lap.duration == lap.finish.provider - lap.start.provider
    ensures Storable(lap) <==> LongEnough(facts, car, lap.start.provider, lap.finish.provider)
  {
    var s, t := lap.start.provider, lap.finish.provider;
    var first, second := lap.sectors[0].to, lap.sectors[1].to;
    CrossesIs(facts, car, lap, 1, first);
    CrossesIs(facts, car, lap, 2, second);
    MeasuredIsLong(lap.sectors[0]);
    MeasuredIsLong(lap.sectors[1]);
    MeasuredIsLong(lap.sectors[2]);
    assert lap.sectors == [lap.sectors[0], lap.sectors[1], lap.sectors[2]];
    forall a, b | Crosses(facts.passings, car, s, t, 1, a) && Crosses(facts.passings, car, s, t, 2, b)
      ensures a == first && b == second
    {
      CrossesOnce(facts.passings, car, s, t, 1, a, first);
      CrossesOnce(facts.passings, car, s, t, 2, b, second);
    }
  }

  // ---------------------------------------------------------------- boundaries and times

  lemma FirstIsFirstTime(facts: Facts, car: string, n: nat, first: Boundary)
    requires n <= |facts.passings| && ByTime(facts.passings) && FirstTold(facts, car, n, first)
    ensures forall f :: IsFirstTime(facts, car, f) <==> f == first.provider
    ensures EverAtLine(facts, car) || first.kind == HeatStart
  {
    if !exists s :: HasSignal(facts, car, s) {
      var k :| 0 <= k < n && LineOf(facts.passings[k], car) && facts.passings[k].provider == Some(first.provider);
      assert facts.passings[k] in facts.passings;
      forall o | o in facts.passings && LineOf(o, car) ensures first.provider <= o.provider.value {
        var j :| 0 <= j < |facts.passings| && facts.passings[j] == o;
        assert k <= j ==> facts.passings[k].provider.value <= facts.passings[j].provider.value;
      }
    }
  }

  lemma RowIsFinishTime(facts: Facts, car: string, n: nat, b: Boundary)
    requires n <= |facts.passings| && IsFinishRow(facts, car, n, b)
    ensures IsFinishTime(facts, car, b.provider)
  {
    var k :| 0 <= k < n && FinishOf(facts.passings, facts.passings[k], car)
             && b.passing == Some(facts.passings[k].id) && facts.passings[k].provider == Some(b.provider);
    assert facts.passings[k] in facts.passings;
  }

  /** The last boundary and a finish still to be recorded are neighbours among the car's times. */
  lemma NextIsLapTime(facts: Facts, car: string, n: nat, bs: seq<Boundary>)
    requires n < |facts.passings| && ByTime(facts.passings) && BoundariesOk(bs) && Opened(facts, car, n, bs)
    requires FinishOf(facts.passings, facts.passings[n], car) && bs[|bs| - 1].provider < facts.passings[n].provider.value
    ensures IsLapTime(facts, car, bs[|bs| - 1].provider, facts.passings[n].provider.value)
  {
    var m, o := |bs| - 1, facts.passings[n];
    var s, t := bs[m].provider, o.provider.value;
    FirstIsFirstTime(facts, car, n + 1, bs[0]);
    assert o in facts.passings;
    if m > 0 {
      RowIsFinishTime(facts, car, n, bs[m]);
    }
    forall u | IsFinishTime(facts, car, u) ensures u <= s || t <= u {
      var x :| x in facts.passings && FinishOf(facts.passings, x, car) && x.provider == Some(u);
      var k :| 0 <= k < |facts.passings| && facts.passings[k] == x;
      if k < n {
        assert FinishKnown(facts, car, bs, k);
        KnownIsBefore(bs, u);
      }
    }
  }

  lemma KnownIsBefore(bs: seq<Boundary>, u: int)
    requires bs != [] && BoundariesOk(bs)
    ensures u <= bs[0].provider || IsBoundaryTime(bs, u) ==> u <= bs[|bs| - 1].provider
  {
    assert forall i :: 0 <= i < |bs| ==> bs[i].provider <= bs[|bs| - 1].provider;
  }

  lemma LineMakesAChain(facts: Facts, car: string, c: Chain)
    requires ChainTold(facts, car, |facts.passings|, c) && EverAtLine(facts, car)
    ensures c.boundaries != []
  {
    var o :| o in facts.passings && LineOf(o, car);
    var k :| 0 <= k < |facts.passings| && facts.passings[k] == o;
  }

  /** A finish after the first boundary is one of the boundaries. */
  lemma PlaceOf(facts: Facts, car: string, c: Chain, t: int) returns (i: nat)
    requires ChainTold(facts, car, |facts.passings|, c) && IsFinishTime(facts, car, t)
    requires c.boundaries != [] && c.boundaries[0].provider < t
    ensures 0 < i < |c.boundaries| && c.boundaries[i].provider == t
  {
    var o :| o in facts.passings && FinishOf(facts.passings, o, car) && o.provider == Some(t);
    var k :| 0 <= k < |facts.passings| && facts.passings[k] == o;
    assert FinishKnown(facts, car, c.boundaries, k);
    i :| 0 <= i < |c.boundaries| && c.boundaries[i].provider == t;
  }

  lemma BoundaryTimes(facts: Facts, car: string, c: Chain)
    requires ChainTold(facts, car, |facts.passings|, c) && ByTime(facts.passings) && c.boundaries != []
    ensures BoundariesOk(c.boundaries) && |c.laps| + 1 == |c.boundaries|
    ensures forall f :: IsFirstTime(facts, car, f) <==> f == c.boundaries[0].provider
    ensures forall i :: 0 < i < |c.boundaries| ==> IsFinishTime(facts, car, c.boundaries[i].provider)
  {
    FirstIsFirstTime(facts, car, |facts.passings|, c.boundaries[0]);
    forall i | 0 < i < |c.boundaries| ensures IsFinishTime(facts, car, c.boundaries[i].provider) {
      RowIsFinishTime(facts, car, |facts.passings|, c.boundaries[i]);
    }
  }

  /** Two neighbouring times of a finished chain are the bounds of one of its laps. */
  lemma LapTimeIsALap(facts: Facts, car: string, c: Chain, s: int, t: int) returns (i: nat)
    requires ChainTold(facts, car, |facts.passings|, c) && ByTime(facts.passings) && IsLapTime(facts, car, s, t)
    ensures i + 1 < |c.boundaries| && c.boundaries[i].provider == s && c.boundaries[i + 1].provider == t
  {
    var bs := c.boundaries;
    LineMakesAChain(facts, car, c);
    BoundaryTimes(facts, car, c);
    assert IsFirstTime(facts, car, bs[0].provider);
    var k := PlaceOf(facts, car, c, t);
    i := k - 1;
    assert i > 0 ==> IsFinishTime(facts, car, bs[i].provider);
    assert bs[i].provider < t && bs[i].provider <= s;
    if IsFirstTime(facts, car, s) {
      InOrder(bs, 0, i);
    } else {
      var j := PlaceOf(facts, car, c, s);
      InOrder(bs, j, k);
      InOrder(bs, i, j);
      InOrder(bs, j, i);
      InOrder(bs, k, j);
    }
  }

  lemma InOrder(bs: seq<Boundary>, a: nat, b: nat)
    requires BoundariesOk(bs) && a < |bs| && b < |bs|
    ensures a < b ==> bs[a].provider < bs[b].provider
    ensures bs[a].provider < bs[b].provider ==> a < b
  {
  }

  // ---------------------------------------------------------------- exactly when

  lemma RebuiltIsLong(facts: Facts, car: string, s: int, t: int)
    requires ByTime(facts.passings) && DistinctIds(facts.passings) && RecordEach(facts, |facts.passings|).Some?
    requires IsLapTime(facts, car, s, t)
    ensures LongEnough(facts, car, s, t)
  {
    var c := ChainOf(RecordEach(facts, |facts.passings|).value, car);
    RecordEachIsTold(facts, car, |facts.passings|);
    var i := LapTimeIsALap(facts, car, c, s, t);
    LapIsLong(facts, car, c, i);
  }

  lemma LapIsLong(facts: Facts, car: string, c: Chain, i: nat)
    requires ChainTold(facts, car, |facts.passings|, c) && i + 1 < |c.boundaries|
    ensures LongEnough(facts, car, c.boundaries[i].provider, c.boundaries[i + 1].provider)
  {
    ToldShape(facts, car, c);
    assert LapOk(c.boundaries, c.laps[i], i + 1) && LapTold(facts.passings, car, c.laps[i]);
    StorableExactly(facts, car, c.laps[i]);
  }

  lemma NewIsStorable(facts: Facts, car: string, n: nat, d: Chain)
    requires n < |facts.passings| && ByTime(facts.passings) && Storables(facts)
    requires BoundariesOk(d.boundaries) && Opened(facts, car, n, d.boundaries) && FinishOf(facts.passings, facts.passings[n], car)
    requires d.boundaries[|d.boundaries| - 1].provider < facts.passings[n].provider.value
    ensures Storable(NewLap(d, facts, facts.passings[n]))
  {
    var o := facts.passings[n];
    NextIsLapTime(facts, car, n, d.boundaries);
    NewLapSectors(d, facts, o);
    StorableExactly(facts, car, NewLap(d, facts, o));
  }

  lemma NextIsLong(facts: Facts, car: string, n: nat, before: Chain)
    requires n < |facts.passings| && ByTime(facts.passings) && Storables(facts) && LineOf(facts.passings[n], car)
    requires ChainOk(before) && BoundariesTold(facts, car, n, before.boundaries)
    ensures Record(before, facts, facts.passings[n]).Some?
  {
    var o := facts.passings[n];
    var d := WithFirst(before, facts, o);
    FirstOpens(facts, car, n, before);
    WithFirstKeeps(before, facts, o);
    if !IsWholeLoop(facts.passings, o) && d.boundaries[|d.boundaries| - 1].provider < o.provider.value {
      NewIsStorable(facts, car, n, d);
    }
  }

  lemma {:induction false} LongIsRecorded(facts: Facts, n: nat)
    requires n <= |facts.passings| && ByTime(facts.passings) && DistinctIds(facts.passings) && Storables(facts)
    ensures RecordEach(facts, n).Some?
  {
    if n > 0 {
      LongIsRecorded(facts, n - 1);
      var o := facts.passings[n - 1];
      if AtLine(o) {
        RecordEachIsTold(facts, o.car.value, n - 1);
        NextIsLong(facts, o.car.value, n - 1, ChainOf(RecordEach(facts, n - 1).value, o.car.value));
      }
    }
  }

  /** A heat is rebuilt exactly when, between any two neighbouring boundary times of a car, the lap
      and every sector that the crossings in it measure is at least a millisecond long. */
  lemma RebuildSucceedsExactly(facts: Facts, h: Heat)
    requires ByTime(facts.passings) && DistinctIds(facts.passings)
    ensures Rebuild(facts, h).Some? <==> Storables(facts)
  {
    if Rebuild(facts, h).Some? {
      forall car, s, t | IsLapTime(facts, car, s, t) ensures LongEnough(facts, car, s, t) {
        RebuiltIsLong(facts, car, s, t);
      }
    }
    if Storables(facts) {
      LongIsRecorded(facts, |facts.passings|);
    }
  }
}
