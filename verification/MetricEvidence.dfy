/** What the clean verdict of a lap rests on beside its own cells, and when a bounded tail may
    keep the verdicts of earlier ticks. */
module MetricEvidence {
  import opened Common
  import opened GreenCoverage
  import opened MetricTail

  datatype Outage = Outage(start: int, end: Option<int>)
  datatype PitStop = PitStop(number: int, entered: int, exited: Option<int>, completed: bool)

  /** What is stored at a tick: the current flag with its start (a table of its own), the flag
      periods, ingest gaps and pit stops, and what each LAST cell of the car is linked to. */
  datatype Evidence = Evidence(
    current: Option<(string, int)>,
    flags: seq<Period>,
    gaps: seq<Outage>,
    pits: seq<PitStop>,
    links: nat -> Link)

  predicate Meets(started: int, ended: int, from: int, to: Option<int>) {
    from < ended && (to.None? || to.value > started)
  }

  ghost predicate Green(flags: seq<Period>, a: int, b: int) {
    a < b && GreenThroughout(flags, a, b) && NoOther(flags, a, b)
  }

  ghost predicate NoGap(gaps: seq<Outage>, a: int, b: int) {
    forall i :: 0 <= i < |gaps| ==> !Meets(a, b, gaps[i].start, gaps[i].end)
  }

  ghost predicate NoPit(pits: seq<PitStop>, a: int, b: int) {
    forall i :: 0 <= i < |pits| && pits[i].completed ==> !Meets(a, b, pits[i].entered, pits[i].exited)
  }

  /** No completed pit stop, no gap, and Green throughout. */
  ghost predicate QuietIn(e: Evidence, a: int, b: int) {
    Green(e.flags, a, b) && NoGap(e.gaps, a, b) && NoPit(e.pits, a, b)
  }

  ghost function QuietOf(e: Evidence): Quiet { (a, b) => QuietIn(e, a, b) }

  // ---------------------------------------------------------------- the guard

  /** The start of the open gap that began last. */
  function OpenGap(gaps: seq<Outage>): Option<int> {
    if gaps == [] then None
    else
      var best, last := OpenGap(gaps[..|gaps| - 1]), gaps[|gaps| - 1];
      if last.end.Some? || (best.Some? && best.value > last.start) then best else Some(last.start)
  }

  /** `_checkpoint_dependencies_unchanged`, as far as it concerns the laps of one car without LAPS:
      of the flags it compares the current one, of the gaps the open one, and no links. */
  predicate DependenciesUnchanged(before: Evidence, now: Evidence) {
    && before.current == now.current
    && OpenGap(before.gaps) == OpenGap(now.gaps)
    && before.pits == now.pits
  }

  // ---------------------------------------------------------------- one lap

  function Later(a: int, b: int): int { if a < b then b else a }
  function Sooner(end: Option<int>, b: int): int { if end.Some? && end.value < b then end.value else b }

  /** The part of a period that lies in an interval. */
  function Clip(p: Period, a: int, b: int): Period { Period(p.flag, Later(p.start, a), Some(Sooner(p.end, b))) }

  /** The periods as an interval sees them. */
  function Within(flags: seq<Period>, a: int, b: int): set<Period> {
    set i | 0 <= i < |flags| && Overlaps(a, b, flags[i]) :: Clip(flags[i], a, b)
  }

  lemma GreenAsSeen(flags: seq<Period>, a: int, b: int, t: int)
    requires a <= t < b
    ensures IsGreenAt(flags, t) <==> exists p :: p in Within(flags, a, b) && p.flag == GREEN && Contains(p, t)
  {
    if IsGreenAt(flags, t) {
      var i :| 0 <= i < |flags| && flags[i].flag == GREEN && Contains(flags[i], t);
      assert Overlaps(a, b, flags[i]) && Contains(Clip(flags[i], a, b), t);
    }
    if p :| p in Within(flags, a, b) && p.flag == GREEN && Contains(p, t) {
      var i :| 0 <= i < |flags| && Overlaps(a, b, flags[i]) && p == Clip(flags[i], a, b);
      assert flags[i].flag == GREEN && Contains(flags[i], t);
    }
  }

  lemma OtherAsSeen(flags: seq<Period>, a: int, b: int)
    ensures NoOther(flags, a, b) <==> forall p :: p in Within(flags, a, b) ==> p.flag == GREEN
  {
    if i :| 0 <= i < |flags| && flags[i].flag != GREEN && Overlaps(a, b, flags[i]) {
      assert Clip(flags[i], a, b) in Within(flags, a, b);
    }
  }

  /** An interval sees the same periods as before, whatever became of the rest of them, and is met
      by a gap if it was before. */
  ghost predicate Undisturbed(before: Evidence, now: Evidence, a: int, b: int) {
    Within(before.flags, a, b) == Within(now.flags, a, b) && (NoGap(before.gaps, a, b) <==> NoGap(now.gaps, a, b))
  }

  /** Rows may be inserted, cut and moved, also in the past. The guard is enough for the verdict on
      an interval while its own part of the periods and the gaps across it are undisturbed. */
  lemma GuardKeepsVerdicts(before: Evidence, now: Evidence, a: int, b: int)
    requires DependenciesUnchanged(before, now) && Undisturbed(before, now, a, b)
    ensures QuietIn(before, a, b) <==> QuietIn(now, a, b)
  {
    OtherAsSeen(before.flags, a, b);
    OtherAsSeen(now.flags, a, b);
    forall t | a <= t < b ensures IsGreenAt(before.flags, t) <==> IsGreenAt(now.flags, t) {
      GreenAsSeen(before.flags, a, b, t);
      GreenAsSeen(now.flags, a, b, t);
    }
  }

  function NoLink(): nat -> Link { i => Unlinked }

  const OPEN_GREEN: seq<Period> := [Period("GREEN", 0, None)]

  lemma GreenAll(flags: seq<Period>, i: nat, a: int, b: int)
    requires i < |flags| && flags[i].flag == GREEN && flags[i].start <= a && (flags[i].end.None? || b <= flags[i].end.value)
    ensures GreenThroughout(flags, a, b)
  {
    forall t | a <= t < b ensures IsGreenAt(flags, t) {
      assert Contains(flags[i], t);
    }
  }

  /** A stop entered within a lap and completed after it: the lap was clean, and no longer is; the
      guard sees it. */
  lemma CompletedStopIsSeen()
    ensures var before := Evidence(Some(("GREEN", 0)), OPEN_GREEN, [], [PitStop(1, 50, None, false)], NoLink());
            var now := Evidence(Some(("GREEN", 0)), OPEN_GREEN, [], [PitStop(1, 50, Some(130), true)], NoLink());
            !DependenciesUnchanged(before, now) && QuietIn(before, 0, 60) && !QuietIn(now, 0, 60)
  {
    GreenAll(OPEN_GREEN, 0, 0, 60);
    var now := Evidence(Some(("GREEN", 0)), OPEN_GREEN, [], [PitStop(1, 50, Some(130), true)], NoLink());
    assert now.pits[0].completed && Meets(0, 60, now.pits[0].entered, now.pits[0].exited);
  }

  /** In seconds: Green to 1000, a safety car to 1100, and Green since, as they were seen live. */
  function SeenLive(): Evidence {
    Evidence(Some(("GREEN", 1100)), [Period("GREEN", 0, Some(1000)), Period("SAFETY_CAR", 1000, Some(1100)), Period("GREEN", 1100, None)],
             [], [], NoLink())
  }

  /** The same after the provider's history has named a red flag from 500 to 560: a row inserted,
      and the Green before it cut. */
  function LateRed(): Evidence {
    Evidence(Some(("GREEN", 1100)),
             [Period("GREEN", 0, Some(500)), Period("RED", 500, Some(560)), Period("SAFETY_CAR", 1000, Some(1100)), Period("GREEN", 1100, None)],
             [], [], NoLink())
  }

  /** The lap from 400 to 600 was clean and no longer is, and the guard does not see it. */
  lemma LateRedPassesTheGuard()
    ensures DependenciesUnchanged(SeenLive(), LateRed())
    ensures QuietIn(SeenLive(), 400, 600) && !QuietIn(LateRed(), 400, 600)
  {
    GreenAll(SeenLive().flags, 0, 400, 600);
    var others := SeenLive().flags;
    assert NoOther(others, 400, 600);
    var red := LateRed().flags;
    assert red[1].flag != GREEN && Overlaps(400, 600, red[1]) by { assert red[1].flag[0] != GREEN[0]; }
  }

  // ---------------------------------------------------------------- the laps of a tick

  /** The LAST cells with what they are linked to now. */
  function Linked(facts: seq<Last>, links: nat -> Link): seq<Last> {
    seq(|facts|, i requires 0 <= i < |facts| => facts[i].(link := links(i)))
  }

  /** A lap's link is what it was, and the interval that its verdict rests on is undisturbed. */
  ghost predicate LapStands(before: Evidence, now: Evidence, facts: seq<Last>, i: nat)
    requires i < |facts|
  {
    && now.links(i) == before.links(i)
    && (now.links(i).Timed? ==> Undisturbed(before, now, now.links(i).from, now.links(i).to))
    && (now.links(i).Unlinked? && i > 0 ==> Undisturbed(before, now, facts[i - 1].observed, facts[i].observed))
  }

  lemma SameLap(before: Evidence, now: Evidence, facts: seq<Last>, states: seq<StateFact>, i: nat)
    requires i < |facts| && DependenciesUnchanged(before, now) && LapStands(before, now, facts, i)
    ensures LapAt(QuietOf(before), Linked(facts, before.links), states, i) == LapAt(QuietOf(now), Linked(facts, now.links), states, i)
  {
    if now.links(i).Timed? {
      GuardKeepsVerdicts(before, now, now.links(i).from, now.links(i).to);
    } else if now.links(i).Unlinked? && i > 0 {
      GuardKeepsVerdicts(before, now, facts[i - 1].observed, facts[i].observed);
    }
  }

  /** The laps so far, judged on the evidence of a tick. */
  ghost function JudgedLaps(e: Evidence, facts: seq<Last>, states: seq<StateFact>): seq<Lap> {
    Laps(QuietOf(e), Linked(facts, e.links), states)
  }

  ghost predicate AllStand(before: Evidence, now: Evidence, facts: seq<Last>) {
    forall i :: 0 <= i < |facts| ==> LapStands(before, now, facts, i)
  }

  /** As many laps are clean now as then, when every lap stands. */
  lemma SameLaps(before: Evidence, now: Evidence, facts: seq<Last>, states: seq<StateFact>)
    requires DependenciesUnchanged(before, now) && AllStand(before, now, facts)
    ensures CountClean(JudgedLaps(before, facts, states)) == CountClean(JudgedLaps(now, facts, states))
  {
    forall i | 0 <= i < |facts|
      ensures LapAt(QuietOf(before), Linked(facts, before.links), states, i).clean
           == LapAt(QuietOf(now), Linked(facts, now.links), states, i).clean
    {
      SameLap(before, now, facts, states, i);
    }
    SameCleanCount(JudgedLaps(before, facts, states), JudgedLaps(now, facts, states));
  }

  lemma {:induction false} SameCleanCount(x: seq<Lap>, y: seq<Lap>)
    requires |x| == |y| && forall i :: 0 <= i < |x| ==> x[i].clean == y[i].clean
    ensures CountClean(x) == CountClean(y)
  {
    if x != [] {
      SameCleanCount(x[..|x| - 1], y[..|y| - 1]);
    }
  }
}
