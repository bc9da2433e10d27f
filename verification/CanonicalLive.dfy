/** Laps recorded while a heat is running, with the facts stored so far, against the rebuild. */
module CanonicalLive {
  import opened Common
  import opened CanonicalLaps
  import opened CanonicalMatch
  import opened CanonicalRebuild

  /** What is stored when passing `k` is recorded: the passings up to it, and the green flag once
      `greenAt` passings have come in. */
  function SoFar(facts: Facts, k: nat, greenAt: nat): Facts
    requires k < |facts.passings|
  {
    Facts(if greenAt <= k then facts.green else None, facts.passings[..k + 1])
  }

  /** The first `n` passings in the order they come in, each with the facts of its moment. */
  function LiveOrder(facts: Facts, n: nat, greenAt: nat): seq<Passing>
    requires n <= |facts.passings|
  {
    if n == 0 then []
    else LiveOrder(facts, n - 1, greenAt) + [Passing(SoFar(facts, n - 1, greenAt), facts.passings[n - 1])]
  }

  /** A passing of the same car, at the same provider time, is stored later. */
  ghost predicate LaterAtSameTime(facts: Facts, k: nat)
    requires k < |facts.passings|
  {
    exists j :: k < j < |facts.passings| && facts.passings[j].tracked
                && facts.passings[j].car == facts.passings[k].car && facts.passings[j].provider == facts.passings[k].provider
  }

  ghost predicate IsSignal(facts: Facts, car: string, i: nat)
    requires i < |facts.passings|
  {
    && facts.green.Some? && TrackLength(facts.passings).Some?
    && IsStartSignal(facts.passings[i], car, TrackLength(facts.passings).value, facts.green.value.provider)
  }

  /** The green flag is known, and no start signal still to come is closer to it. */
  ghost predicate StartSettled(facts: Facts, k: nat, greenAt: nat)
    requires k < |facts.passings| && facts.passings[k].car.Some?
  {
    var car := facts.passings[k].car.value;
    && (facts.green.Some? ==> greenAt <= k)
    && forall j: nat :: k < j < |facts.passings| && IsSignal(facts, car, j) ==>
         exists i: nat :: i <= k && IsSignal(facts, car, i) && Closer(facts.passings[i], facts.passings[j], facts.green.value.provider)
  }

  /** Whatever decides about the passing is stored when it is recorded. */
  ghost predicate Settled(facts: Facts, k: nat, greenAt: nat)
    requires k < |facts.passings|
  {
    var o := facts.passings[k];
    AtLine(o) ==>
      && TrackLength(facts.passings[..k + 1]) == TrackLength(facts.passings)
      && !LaterAtSameTime(facts, k)
      && ((forall i :: 0 <= i < k ==> !LineOf(facts.passings[i], o.car.value)) ==> StartSettled(facts, k, greenAt))
  }

  // ---------------------------------------------------------------- one lap

  lemma {:induction false} LapPassingsSplit(x: seq<Observation>, y: seq<Observation>, car: string, after: int, upTo: int, finish: nat, length: Option<int>)
    ensures LapPassings(x + y, car, after, upTo, finish, length)
         == LapPassings(x, car, after, upTo, finish, length) + LapPassings(y, car, after, upTo, finish, length)
  {
    if y == [] {
      assert x + y == x;
    } else {
      assert (x + y)[..|x + y| - 1] == x + y[..|y| - 1];
      LapPassingsSplit(x, y[..|y| - 1], car, after, upTo, finish, length);
    }
  }

  lemma LaterPassings(facts: Facts, k: nat, after: int, length: Option<int>)
    requires k < |facts.passings| && ByTime(facts.passings) && AtLine(facts.passings[k]) && after < facts.passings[k].provider.value
    ensures var o := facts.passings[k];
            LapPassings(facts.passings[k + 1..], o.car.value, after, o.provider.value, o.id, length) == [] <==> !LaterAtSameTime(facts, k)
  {
    var o, later := facts.passings[k], facts.passings[k + 1..];
    var r := LapPassings(later, o.car.value, after, o.provider.value, o.id, length);
    CollectsExactly(later, o.car.value, after, o.provider.value, o.id, length);
    if r != [] {
      assert r[0] in r;
      var j :| 0 <= j < |later| && later[j] == r[0].observation;
      assert facts.passings[k + 1 + j] == later[j];
    }
    if LaterAtSameTime(facts, k) {
      var j :| k < j < |facts.passings| && facts.passings[j].tracked
               && facts.passings[j].car == o.car && facts.passings[j].provider == o.provider;
      assert later[j - k - 1] == facts.passings[j] && facts.passings[j] in later;
      assert LapPassing(facts.passings[j], RoleOf(facts.passings[j], o.id, length)) in r;
    }
  }

  /** With the track length settled, a lap is what the rebuild makes of it exactly when no passing
      of its last instant is stored later. */
  lemma LapIsFinalExactly(chain: Chain, facts: Facts, k: nat, greenAt: nat)
    requires k < |facts.passings| && ByTime(facts.passings) && AtLine(facts.passings[k]) && chain.boundaries != []
    requires chain.boundaries[|chain.boundaries| - 1].provider < facts.passings[k].provider.value
    requires TrackLength(facts.passings[..k + 1]) == TrackLength(facts.passings)
    ensures NewLap(chain, SoFar(facts, k, greenAt), facts.passings[k]) == NewLap(chain, facts, facts.passings[k])
        <==> !LaterAtSameTime(facts, k)
  {
    var o, after := facts.passings[k], chain.boundaries[|chain.boundaries| - 1].provider;
    var length := TrackLength(facts.passings);
    LaterPassings(facts, k, after, length);
    LapPassingsSplit(facts.passings[..k + 1], facts.passings[k + 1..], o.car.value, after, o.provider.value, o.id, length);
    assert facts.passings[..k + 1] + facts.passings[k + 1..] == facts.passings;
    var early := LapPassings(facts.passings[..k + 1], o.car.value, after, o.provider.value, o.id, length);
    var rest := LapPassings(facts.passings[k + 1..], o.car.value, after, o.provider.value, o.id, length);
    assert |early + rest| == |early| + |rest|;
    if rest == [] { assert early + rest == early; }
    assert NewLap(chain, SoFar(facts, k, greenAt), o).passings == early && NewLap(chain, facts, o).passings == early + rest;
  }

  // ---------------------------------------------------------------- the first boundary

  lemma OneIsCloser(a: Observation, b: Observation, green: int)
    requires a.provider.Some? && b.provider.Some? && !Closer(a, b, green) && !Closer(b, a, green)
    ensures a.id == b.id
  {
  }

  lemma SameIdSame(passings: seq<Observation>, a: Observation, b: Observation)
    requires DistinctIds(passings) && a in passings && b in passings && a.id == b.id
    ensures a == b
  {
    var i :| 0 <= i < |passings| && passings[i] == a;
    var j :| 0 <= j < |passings| && passings[j] == b;
  }

  /** The signal found among the passings so far is the one found among all of them. */
  lemma SignalIsSettled(facts: Facts, k: nat, greenAt: nat)
    requires k < |facts.passings| && DistinctIds(facts.passings) && facts.passings[k].car.Some?
    requires StartSettled(facts, k, greenAt) && facts.green.Some? && TrackLength(facts.passings).Some?
    ensures var car, length, green := facts.passings[k].car.value, TrackLength(facts.passings).value, facts.green.value.provider;
            StartSignal(facts.passings[..k + 1], car, length, green) == StartSignal(facts.passings, car, length, green)
  {
    var car, length, green := facts.passings[k].car.value, TrackLength(facts.passings).value, facts.green.value.provider;
    var early := facts.passings[..k + 1];
    var a, b := StartSignal(early, car, length, green), StartSignal(facts.passings, car, length, green);
    StartSignalIsClosest(early, car, length, green);
    StartSignalIsClosest(facts.passings, car, length, green);
    if a.Some? {
      assert a.value in facts.passings;
    }
    forall j: nat | k < j < |facts.passings| && IsSignal(facts, car, j) ensures b != Some(facts.passings[j]) {
      var i: nat :| i <= k && IsSignal(facts, car, i) && Closer(facts.passings[i], facts.passings[j], green);
      assert facts.passings[i] in facts.passings;
    }
    if b.Some? {
      var j :| 0 <= j < |facts.passings| && facts.passings[j] == b.value;
      assert IsSignal(facts, car, j);
      assert early[j] == b.value && b.value in early;
      OneIsCloser(a.value, b.value, green);
      SameIdSame(facts.passings, a.value, b.value);
    }
  }

  lemma FirstIsSettled(facts: Facts, k: nat, greenAt: nat)
    requires k < |facts.passings| && DistinctIds(facts.passings) && AtLine(facts.passings[k])
    requires TrackLength(facts.passings[..k + 1]) == TrackLength(facts.passings) && StartSettled(facts, k, greenAt)
    ensures FirstBoundary(SoFar(facts, k, greenAt), facts.passings[k]) == FirstBoundary(facts, facts.passings[k])
  {
    if facts.green.Some? && TrackLength(facts.passings).Some? {
      SignalIsSettled(facts, k, greenAt);
    }
  }

  // ---------------------------------------------------------------- the whole heat

  lemma RecordIsSettled(c: Chain, facts: Facts, k: nat, greenAt: nat)
    requires k < |facts.passings| && ByTime(facts.passings) && DistinctIds(facts.passings) && Settled(facts, k, greenAt)
    requires facts.passings[k].car.Some? && ChainTold(facts, facts.passings[k].car.value, k, c)
    ensures Record(c, SoFar(facts, k, greenAt), facts.passings[k]) == Record(c, facts, facts.passings[k])
  {
    var o, early := facts.passings[k], SoFar(facts, k, greenAt);
    if AtLine(o) {
      if c.boundaries == [] {
        assert forall i :: 0 <= i < k ==> !LineOf(facts.passings[i], o.car.value);
        FirstIsSettled(facts, k, greenAt);
      }
      var d := WithFirst(c, facts, o);
      assert WithFirst(c, early, o) == d;
      if d.boundaries[|d.boundaries| - 1].provider < o.provider.value {
        LapIsFinalExactly(d, facts, k, greenAt);
      }
    }
  }

  /** Recording live, each passing with what is stored at its moment, gives the chains of the
      rebuild when everything that decides about a passing is stored by then. */
  lemma {:induction false} LiveIsRebuild(facts: Facts, n: nat, greenAt: nat)
    requires n <= |facts.passings| && ByTime(facts.passings) && DistinctIds(facts.passings)
    requires RecordEach(facts, n).Some? && forall k :: 0 <= k < n ==> Settled(facts, k, greenAt)
    ensures RecordAll(LiveOrder(facts, n, greenAt)) == RecordEach(facts, n).value
  {
    if n > 0 {
      LiveIsRebuild(facts, n - 1, greenAt);
      var live, o := LiveOrder(facts, n, greenAt), facts.passings[n - 1];
      assert live[..|live| - 1] == LiveOrder(facts, n - 1, greenAt);
      assert Settled(facts, n - 1, greenAt);
      if o.car.Some? {
        RecordEachIsTold(facts, o.car.value, n - 1);
        RecordIsSettled(ChainOf(RecordEach(facts, n - 1).value, o.car.value), facts, n - 1, greenAt);
      }
    }
  }

  // ---------------------------------------------------------------- a passing that comes too late

  function Line(id: nat, at: int): Observation {
    Observation(id, true, Some("7"), Some(at), Some(0), Some(400), None, Some(false), at)
  }

  /** A sector of the same instant as the finish, stored after it. */
  const LATE_SECTOR := Observation(3, true, Some("7"), Some(61_000_000), Some(300), Some(900), Some(2), Some(false), 61_000_000)
  const LATE_FACTS := Facts(None, [Line(1, 1_000_000), Line(2, 61_000_000), LATE_SECTOR])
  const FIRST_LINE := Chain([Boundary(0, CoverageStart, Some(1), None, 1_000_000, 1_000_000)], [])

  lemma EarlyLapLacksIt(early: Facts, o: Observation)
    requires early.passings == [Line(1, 1_000_000), o] && o == Line(2, 61_000_000)
    ensures NewLap(FIRST_LINE, early, o).sectors[1].to == None
  {
    var lap := NewLap(FIRST_LINE, early, o);
    NewLapSectors(FIRST_LINE, early, o);
    assert FirstCrossing(early.passings, "7", lap, 2, lap.sectors[1].to);
    assert forall x :: x in early.passings ==> x.sector == None;
  }

  lemma RebuiltLapHasIt(facts: Facts, o: Observation)
    requires facts == LATE_FACTS && o == Line(2, 61_000_000)
    ensures NewLap(FIRST_LINE, facts, o).sectors[1].to == Some(61_000_000)
  {
    var lap := NewLap(FIRST_LINE, facts, o);
    NewLapSectors(FIRST_LINE, facts, o);
    assert FirstCrossing(facts.passings, "7", lap, 2, lap.sectors[1].to);
    assert facts.passings[2] == LATE_SECTOR && LATE_SECTOR in facts.passings && Within(LATE_SECTOR, "7", lap);
    assert forall x :: x in facts.passings && x.sector == Some(2) ==> x == LATE_SECTOR;
  }

  /** The lap recorded at the finish lacks a sector that the rebuild finds. */
  lemma LateSectorIsMissed()
    ensures ByTime(LATE_FACTS.passings) && DistinctIds(LATE_FACTS.passings)
    ensures NewLap(FIRST_LINE, SoFar(LATE_FACTS, 1, 0), Line(2, 61_000_000)).sectors[1].to == None
    ensures NewLap(FIRST_LINE, LATE_FACTS, Line(2, 61_000_000)).sectors[1].to == Some(61_000_000)
  {
    var o := Line(2, 61_000_000);
    assert LATE_FACTS.passings[..2] == [Line(1, 1_000_000), o];
    EarlyLapLacksIt(SoFar(LATE_FACTS, 1, 0), o);
    RebuiltLapHasIt(LATE_FACTS, o);
  }
}
