/** What one scope's chart keeps over ticks in order. */
module MetricChart {
  import opened Common
  import opened MetricStore

  function Chart(points: seq<Sample>): map<int, Sample> {
    if points == [] then map[]
    else PutSample(Chart(points[..|points| - 1]), points[|points| - 1])
  }

  /** Ticks by receive time, then source key: the order the chart itself uses. */
  ghost predicate InOrder(points: seq<Sample>) {
    forall i, j :: 0 <= i < j < |points| ==> PointLess(points[i], points[j])
  }

  function SecondOf(point: Sample): int { point.observed / SECOND_US }

  lemma SecondsFollow(a: int, b: int)
    requires a <= b
    ensures a / SECOND_US <= b / SECOND_US
  {
  }

  lemma {:induction false} ChartRows(points: seq<Sample>)
    ensures forall s :: s in Chart(points) ==> Chart(points)[s] in points && SecondOf(Chart(points)[s]) == s
  {
    if points != [] {
      ChartRows(points[..|points| - 1]);
    }
  }

  lemma PreviousBelow(rows: map<int, Sample>, more: map<int, Sample>, second: int)
    requires forall s :: s < second ==> (s in rows <==> s in more) && (s in rows ==> rows[s] == more[s])
    ensures Previous(rows, second) == Previous(more, second)
  {
    var a, b := MaxBelow(rows.Keys, second), MaxBelow(more.Keys, second);
    if a.Some? {
      assert a.value in more.Keys;
    }
    if b.Some? {
      assert b.value in rows.Keys;
    }
  }

  /** Two points with none between them. */
  ghost predicate Neighbours(rows: map<int, Sample>, s: int, u: int) {
    s in rows && u in rows && s < u && forall x :: x in rows ==> x <= s || u <= x
  }

  predicate LaterBucket(a: Sample, b: Sample) { a.observed / 5_000_000 < b.observed / 5_000_000 }

  lemma NeighbourIsPrevious(rows: map<int, Sample>, s: int, u: int)
    requires Neighbours(rows, s, u)
    ensures Previous(rows, u) == Some(rows[s])
  {
  }

  lemma {:induction false} KeptIsAdmitted(points: seq<Sample>)
    requires InOrder(points)
    ensures forall s :: s in Chart(points) ==> Admitted(Previous(Chart(points), s), Chart(points)[s])
  {
    if points != [] {
      var init, last := points[..|points| - 1], points[|points| - 1];
      var rows, after := Chart(init), Chart(points);
      KeptIsAdmitted(init);
      ChartRows(init);
      var second := SecondOf(last);
      forall s | s in rows ensures s <= second {
        SecondsFollow(rows[s].observed, last.observed);
      }
      forall s | s in after ensures Admitted(Previous(after, s), after[s]) {
        PreviousBelow(rows, after, s);
      }
    }
  }

  /** Of two neighbouring points the second is in a later bucket, or was forced by an event
      boundary, or has another version: nothing else is ever kept. */
  lemma ChartIsSparse(points: seq<Sample>)
    requires InOrder(points)
    ensures forall s, u :: Neighbours(Chart(points), s, u) ==>
      var a, b := Chart(points)[s], Chart(points)[u];
      b.forced || LaterBucket(a, b) || a.version != b.version
  {
    KeptIsAdmitted(points);
    forall s, u | Neighbours(Chart(points), s, u)
      ensures Admitted(Some(Chart(points)[s]), Chart(points)[u])
    {
      NeighbourIsPrevious(Chart(points), s, u);
    }
  }

  /** The chart's newest point at the time of a tick. */
  function Shown(rows: map<int, Sample>, second: int): Option<Sample> {
    if second in rows then Some(rows[second]) else Previous(rows, second)
  }

  predicate Shows(rows: map<int, Sample>, point: Sample) {
    var newest := Shown(rows, SecondOf(point));
    newest.Some? && newest.value.values == point.values && newest.value.version == point.version
  }

  /** After a tick the chart shows the tick's values exactly when it showed them already, or
      the tick is admitted and is later than the point it would replace. */
  lemma TickIsShownExactly(rows: map<int, Sample>, point: Sample)
    ensures Shows(PutSample(rows, point), point) <==>
      || Shows(rows, point)
      || (Admitted(Previous(rows, SecondOf(point)), point)
          && (SecondOf(point) in rows ==> PointLess(rows[SecondOf(point)], point)))
  {
  }

  /** `point` is an event boundary, or in a later bucket than the newest point before its second. */
  ghost predicate Due(rows: map<int, Sample>, point: Sample) {
    || point.forced
    || forall s :: s in rows && s < SecondOf(point) && (forall x :: x in rows ==> x <= s || SecondOf(point) <= x) ==>
         LaterBucket(rows[s], point)
  }

  lemma DueIsAdmitted(rows: map<int, Sample>, point: Sample)
    requires Due(rows, point)
    ensures Admitted(Previous(rows, SecondOf(point)), point)
  {
    var at := MaxBelow(rows.Keys, SecondOf(point));
    assert at.Some? ==> IsMaxBelow(rows.Keys, SecondOf(point), at.value);
  }

  /** In order, every event boundary, and every tick in a later bucket than the newest point
      before its second, is what the chart shows next. */
  lemma {:induction false} BoundaryTickIsShown(points: seq<Sample>)
    requires InOrder(points) && points != []
    requires Due(Chart(points[..|points| - 1]), points[|points| - 1])
    ensures Shows(Chart(points), points[|points| - 1])
    ensures forall s :: s in Chart(points) ==> s <= SecondOf(points[|points| - 1])
  {
    var init, last := points[..|points| - 1], points[|points| - 1];
    ChartRows(init);
    DueIsAdmitted(Chart(init), last);
    TickIsShownExactly(Chart(init), last);
    ChartRows(points);
    forall s | s in Chart(points) ensures s <= SecondOf(last) {
      SecondsFollow(Chart(points)[s].observed, last.observed);
    }
  }

  const NINTH: Sample := Sample(7_000_000, "c:9", 1, "a", true)
  const TENTH: Sample := Sample(7_000_000, "c:10", 1, "b", true)

  /** The chart compares source keys as text, the current table compares message ids first. Two
      event-boundary frames stamped with the same instant, numbers 9 and 10 of a connection:
      the current row moves to the tenth, the chart stays at the ninth. */
  lemma SameInstantKeepsTheNinth()
    ensures Chart([NINTH, TENTH]) == map[7 := NINTH] && !Shows(Chart([NINTH, TENTH]), TENTH)
    ensures Winner(Some(Ranked(Rank(7_000_000, 9, "c:9"), 1, "a")), Ranked(Rank(7_000_000, 10, "c:10"), 1, "b")).value == "b"
  {
    assert [NINTH, TENTH][..1] == [NINTH] && [NINTH][..0] == [];
    var none: map<int, Sample> := map[];
    assert Chart([]) == none && Exact(none, 7) == None && Previous(none, 7) == None;
    assert Chart([NINTH]) == map[7 := NINTH];
    assert "c:9"[0] == "c:10"[0];
    assert "c:9"[1..][0] == "c:10"[1..][0];
    assert "c:9"[1..][1..] == "9" && "c:10"[1..][1..] == "10";
    assert !TextLess("c:9"[1..][1..], "c:10"[1..][1..]);
    assert !TextLess("c:9"[1..], "c:10"[1..]);
    assert !PointLess(NINTH, TENTH);
    assert Previous(map[7 := NINTH], 7) == None;
  }
}
