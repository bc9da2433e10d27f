/** Green coverage of a lap: one pass over flag periods sorted by start. */
module GreenCoverage {
  import opened Common

  /** A flag period [start, end), open-ended when `end` is None. */
  datatype Period = Period(flag: string, start: int, end: Option<int>)

  const GREEN: string := "GREEN"

  predicate Contains(p: Period, instant: int) {
    p.start <= instant && (p.end.None? || instant < p.end.value)
  }

  /** `_interval_overlaps`, as coded. */
  predicate Overlaps(started: int, ended: int, p: Period) {
    p.start < ended && (p.end.None? || p.end.value > started)
  }

  ghost predicate SortedByStart(periods: seq<Period>) {
    forall i, j :: 0 <= i < j < |periods| ==> periods[i].start <= periods[j].start
  }

  predicate IsGreenAt(periods: seq<Period>, instant: int) {
    exists i :: 0 <= i < |periods| && periods[i].flag == GREEN && Contains(periods[i], instant)
  }

  ghost predicate GreenThroughout(periods: seq<Period>, started: int, ended: int) {
    forall t :: started <= t < ended ==> IsGreenAt(periods, t)
  }

  ghost predicate NoOther(periods: seq<Period>, started: int, ended: int) {
    forall i :: 0 <= i < |periods| && periods[i].flag != GREEN ==> !Overlaps(started, ended, periods[i])
  }

  /** `_green_covers_interval`. For periods of any length, sorted by start, it accepts exactly a
      non-empty interval that is Green at every instant and that no other period overlaps. */
  method GreenCovers(periods: seq<Period>, started: int, ended: int) returns (covers: bool)
    requires SortedByStart(periods)
    ensures covers <==> started < ended && GreenThroughout(periods, started, ended) && NoOther(periods, started, ended)
  {
    if ended <= started {
      return false;
    }
    for i := 0 to |periods|
      invariant NoOther(periods[..i], started, ended)
    {
      if periods[i].flag != GREEN && Overlaps(started, ended, periods[i]) {
        return false;
      }
    }
    var cursor := started;
    for i := 0 to |periods|
      invariant started <= cursor < ended
      invariant GreenThroughout(periods, started, cursor)
      invariant forall j :: 0 <= j < i && periods[j].flag == GREEN ==> !Contains(periods[j], cursor)
    {
      var p := periods[i];
      if p.flag != GREEN || p.start > cursor {
        continue;
      }
      if p.end.Some? && p.end.value <= cursor {
        continue;
      }
      var reach := if p.end.Some? then p.end.value else ended;
      assert forall t :: cursor <= t < reach ==> Contains(p, t);
      cursor := if reach > cursor then reach else cursor;
      if cursor >= ended {
        return true;
      }
    }
    assert !IsGreenAt(periods, cursor);
    return false;
  }

  /** A period of positive length overlaps exactly when some instant is in both; one of zero or
      negative length has no instant, yet one that lies strictly inside still rejects the lap. */
  lemma OverlapIsSharedInstant(started: int, ended: int, p: Period)
    requires started < ended
    ensures (exists t :: started <= t < ended && Contains(p, t)) <==> Overlaps(started, ended, p) && (p.end.None? || p.start < p.end.value)
  {
    var first := if p.start < started then started else p.start;
    if Overlaps(started, ended, p) && (p.end.None? || p.start < p.end.value) {
      assert started <= first < ended && Contains(p, first);
    }
  }

  /** Green from 0 to 100 with a period of no length at 50: every instant is Green and nothing
      else, and yet the lap is not accepted. */
  lemma ZeroLengthPeriodRejects()
    ensures var periods := [Period(GREEN, 0, None), Period("YELLOW", 50, Some(50))];
            GreenThroughout(periods, 0, 100) && OnlyGreen(periods, 0, 100) && !NoOther(periods, 0, 100)
  {
    var periods := [Period(GREEN, 0, None), Period("YELLOW", 50, Some(50))];
    assert periods[0].flag == GREEN && periods[1].flag[0] != GREEN[0];
    forall t | 0 <= t < 100 ensures IsGreenAt(periods, t) {
      assert Contains(periods[0], t);
    }
    assert Overlaps(0, 100, periods[1]);
  }

  ghost predicate OnlyGreen(periods: seq<Period>, started: int, ended: int) {
    forall i, t :: 0 <= i < |periods| && periods[i].flag != GREEN && started <= t < ended ==> !Contains(periods[i], t)
  }

  /** With periods of positive length the sweep means: Green at every instant, nothing else at any. */
  lemma SweepMeansOnlyGreen(periods: seq<Period>, started: int, ended: int)
    requires forall i :: 0 <= i < |periods| && periods[i].end.Some? ==> periods[i].start < periods[i].end.value
    requires started < ended
    ensures NoOther(periods, started, ended) <==> OnlyGreen(periods, started, ended)
  {
    forall i | 0 <= i < |periods| && periods[i].flag != GREEN
      ensures Overlaps(started, ended, periods[i]) <==> exists t :: started <= t < ended && Contains(periods[i], t)
    {
      OverlapIsSharedInstant(started, ended, periods[i]);
    }
  }
}
