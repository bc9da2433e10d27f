/** When a retried frame moves a chart: of one point, of one retry, and which points a restart
    forces. */
module MetricRetry {
  import opened Common
  import opened MetricStore
  import opened MetricRuns
  import opened MetricChart
  import opened MetricScopes
  import opened MetricReplay
  import opened ParsedJson
  import B = BoundaryState
  import G = IngestGaps

  // ---------------------------------------------------------------- one point

  /** The tick is due, and later than what its second holds. */
  predicate InTurn(rows: map<int, Sample>, q: Sample) {
    && Admitted(Previous(rows, SecondOf(q)), q)
    && (SecondOf(q) in rows ==> PointLess(rows[SecondOf(q)], q))
  }

  /** The chart does not show the point's values yet, and the point is in turn. */
  predicate PointWritten(rows: map<int, Sample>, q: Sample) { !Shows(rows, q) && InTurn(rows, q) }

  lemma PutSampleChangesExactly(rows: map<int, Sample>, q: Sample)
    ensures PutSample(rows, q) == (if PointWritten(rows, q) then rows[SecondOf(q) := q] else rows)
    ensures PutSample(rows, q) != rows <==> PointWritten(rows, q)
  {
    TextOrder(q.key, q.key);
  }

  /** A frame's point, then the same frame's point again. The second moves the chart exactly when
      the first was left out and the second is not shown and in turn. If the second is not forced,
      this is when the first was left out because its values were shown already and the second has
      other values; a forced one is also written where the first was not due. */
  lemma RetryPointExactly(rows: map<int, Sample>, p: Sample, q: Sample)
    requires q.observed == p.observed && q.key == p.key && q.version == p.version
    ensures PutSample(PutSample(rows, p), q) != PutSample(rows, p) <==>
      (Shows(rows, p) || !Admitted(Previous(rows, SecondOf(p)), p)) && !Shows(rows, q) && InTurn(rows, q)
    ensures !q.forced ==>
      (PutSample(PutSample(rows, p), q) != PutSample(rows, p) <==> Shows(rows, p) && q.values != p.values && InTurn(rows, q))
  {
    var second := SecondOf(p);
    TextOrder(p.key, p.key);
    PutSampleChangesExactly(rows, p);
    PutSampleChangesExactly(PutSample(rows, p), q);
    PreviousBelow(rows, rows[second := p], second);
  }

  // ---------------------------------------------------------------- one retry

  /** Some point of the frame in hand would be written. */
  ghost predicate MovesChart(e: Engine, w: World) {
    var write := NextWrite(e, w);
    exists i :: 0 <= i < |write.candidates| && ScopeMoves(w.tables, write, write.candidates[i])
  }

  predicate ScopeMoves<C>(t: Tables<C>, w: Write<C>, c: Candidate) {
    PointWritten(RowsOf(t.samples, c.scope), PointOf(w, c))
  }

  lemma {:induction false} ChartsStay<C>(t: Tables<C>, w: Write<C>, cs: seq<Candidate>)
    requires forall i :: 0 <= i < |cs| ==> cs[i].scope in t.samples && !ScopeMoves(t, w, cs[i])
    ensures PutCandidates(t, w, cs).samples == t.samples
  {
    if cs != [] {
      var c := cs[|cs| - 1];
      ChartsStay(t, w, cs[..|cs| - 1]);
      PutSampleChangesExactly(t.samples[c.scope], PointOf(w, c));
      assert !ScopeMoves(t, w, c);
    }
  }

  lemma ChartsMove<C>(t: Tables<C>, w: Write<C>, cs: seq<Candidate>, i: nat)
    requires DistinctScopes(cs) && i < |cs| && ScopeMoves(t, w, cs[i])
    ensures PutCandidates(t, w, cs).samples != t.samples
  {
    CandidateAt(cs, i);
    WriteEffect(t, w, cs, cs[i].scope);
    PutSampleChangesExactly(RowsOf(t.samples, cs[i].scope), PointOf(w, cs[i]));
    assert RowsOf(PutCandidates(t, w, cs).samples, cs[i].scope) != RowsOf(t.samples, cs[i].scope);
  }

  lemma SameByCharts<C>(t: Tables<C>, u: Tables<C>)
    requires Core(t) == Core(u)
    ensures t == u <==> t.samples == u.samples
  {
    assert t == Core(t).(samples := t.samples) && u == Core(u).(samples := u.samples);
  }

  lemma CommittedCharts(e: Engine, w: World)
    requires Inv(e, w) && w.committed && SameFrame(w.log[w.line.done], NextWrite(e, w))
    ensures HasCharts(w.tables, NextWrite(e, w))
  {
    var write := NextWrite(e, w);
    forall i | 0 <= i < |write.candidates| ensures write.candidates[i].scope in w.tables.samples {
      assert write.candidates[i].scope == w.log[w.line.done].candidates[i].scope;
    }
  }

  /** A frame materialized again leaves every table as it is exactly when none of its points
      would be written to the charts as they are. */
  lemma RetryIsNoOpExactly(e: Engine, w: World)
    requires Lawful(e) && Inv(e, w) && w.committed && Enabled(e, w, G.Materialized)
    ensures Next(e, w, G.Materialized).tables == w.tables <==> !MovesChart(e, w)
  {
    var write := NextWrite(e, w);
    RetryIsCoreNoOp(e, w);
    SameByCharts(Written(w.tables, write), w.tables);
    if MovesChart(e, w) {
      var i :| 0 <= i < |write.candidates| && ScopeMoves(w.tables, write, write.candidates[i]);
      ChartsMove(w.tables, write, write.candidates, i);
    } else {
      CommittedCharts(e, w);
      ChartsStay(w.tables, write, write.candidates);
    }
  }

  // ---------------------------------------------------------------- what a retry forces

  predicate SameButGap(x: B.Boundary, y: B.Boundary) { x.(sourceGap := None) == y.(sourceGap := None) }

  predicate IsAnnounced(e: Engine, r: StreamRow) { !e.alert(r.eventKey) }

  /** The outbox rows other than alerts, whose text is of values. */
  function Announced(e: Engine, stream: seq<StreamRow>): seq<StreamRow> {
    if stream == [] then []
    else
      var init, last := Announced(e, stream[..|stream| - 1]), stream[|stream| - 1];
      if IsAnnounced(e, last) then init + [last] else init
  }

  /** What cursors and announcements are made of: the frame's facts, the open gap, and the cursor
      before. The stored totals and the lap verdicts show in values only. */
  ghost predicate SteadyAt(e: Engine, k: nat) {
    && (forall p, t, g, q, u, h :: SameButGap(e.evaluate(k, p, t, g).cursor, e.evaluate(k, q, u, h).cursor))
    && (forall p, t, g, u, h :: e.evaluate(k, p, t, g).cursor == e.evaluate(k, p, u, h).cursor ==>
          Announced(e, e.evaluate(k, p, t, g).events) == Announced(e, e.evaluate(k, p, u, h).events))
  }

  ghost predicate Steady(e: Engine) { forall k: nat :: SteadyAt(e, k) }

  /** An entry stores the cursor of its evaluation, with the gap open then. */
  lemma EntryCursor(e: Engine, log: seq<Write<Json>>, i: nat) returns (t: Tables<Json>, g: seq<G.GapRow>)
    requires Lawful(e) && LogOk(e, log) && i < |log|
    ensures log[i] == WriteOf(e, i, CursorOf(log, i), t, g)
    ensures CursorOf(log, i + 1) == Some(e.evaluate(i, CursorOf(log, i), t, g).cursor)
    ensures CursorOf(log, i + 1).value.sourceGap == G.OpenGap(g)
  {
    assert IsEntry(e, log, i) && LawfulAt(e, i);
    t, g :| log[i] == WriteOf(e, i, CursorOf(log, i), t, g);
    var cursor := e.evaluate(i, CursorOf(log, i), t, g).cursor;
    assert CursorOk(cursor, g);
    B.BoundaryRoundTrip(cursor);
  }

  lemma RetryCursor(e: Engine, w: World) returns (prior: B.Boundary)
    requires Lawful(e) && Steady(e) && Inv(e, w) && w.committed
    ensures PreviousCursor(w, e.version) == Some(prior)
    ensures e.evaluate(w.line.done, Some(prior), w.tables, w.line.gaps).cursor == prior.(sourceGap := G.OpenGap(w.line.gaps))
  {
    var k := w.line.done;
    var t, g := EntryCursor(e, w.log, k);
    CursorIs(e, w);
    prior := PreviousCursor(w, e.version).value;
    var now := e.evaluate(k, Some(prior), w.tables, w.line.gaps).cursor;
    assert LawfulAt(e, k) && SteadyAt(e, k) && CursorOk(now, w.line.gaps);
    assert SameButGap(prior, now);
    assert now == prior.(sourceGap := now.sourceGap);
  }

  lemma ForcedAre(e: Engine, w: World, forced: set<Scope>)
    requires var previous := PreviousCursor(w, e.version);
             forced == EventScopes(previous, e.evaluate(w.line.done, previous, w.tables, w.line.gaps).cursor)
    ensures forall c :: c in NextWrite(e, w).candidates ==> (c.boundary <==> c.scope in forced)
  {
  }

  /** A retry forces no point while the gap is as it was at the frame's first evaluation; with
      another gap, as a restart may leave it, it forces the session's point and no other. */
  lemma RetryForcesOnlySession(e: Engine, w: World)
    requires Lawful(e) && Steady(e) && Inv(e, w) && w.committed
    ensures PreviousCursor(w, e.version).Some?
    ensures var prior := PreviousCursor(w, e.version).value;
            forall c :: c in NextWrite(e, w).candidates ==>
              (c.boundary <==> G.OpenGap(w.line.gaps) != prior.sourceGap && c.scope == SessionScope(prior))
  {
    var prior := RetryCursor(e, w);
    var gap := G.OpenGap(w.line.gaps);
    GapForcesSession(prior, gap);
    ForcedAre(e, w, When(gap != prior.sourceGap, SessionScope(prior)));
  }
}
