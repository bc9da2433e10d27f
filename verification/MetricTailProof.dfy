/** What the bounded tail stores at one tick, against a full scan; and when its rolling pace
    windows agree. */
module MetricTailProof {
  import opened Common
  import opened MetricTail

  // ---------------------------------------------------------------- which states a tail keeps

  /** The kept STATE cells reach back to the frame. */
  predicate Covered(states: seq<StateFact>, frame: nat) {
    |states| <= TAIL_LAPS + 1 || states[|states| - TAIL_LAPS - 1].frame <= frame
  }

  lemma {:induction false} GoverningNone(states: seq<StateFact>, frame: nat)
    requires forall i :: 0 <= i < |states| ==> states[i].frame > frame
    ensures Governing(states, frame).None?
  {
    if states != [] {
      GoverningNone(states[..|states| - 1], frame);
    }
  }

  lemma {:induction false} GoverningSuffix(states: seq<StateFact>, d: nat, frame: nat)
    requires d <= |states| && FramesRise(states)
    ensures Governing(states[d..], frame) ==
      if d == |states| || states[d].frame > frame then None else Governing(states, frame)
  {
    if d == |states| {
    } else if states[d].frame > frame {
      GoverningNone(states[d..], frame);
    } else if states[|states| - 1].frame > frame {
      GoverningSuffix(states[..|states| - 1], d, frame);
      assert states[d..][..|states| - d - 1] == states[..|states| - 1][d..];
    }
  }

  /** The tail knows the STATE of a LAST cell exactly when it reaches back to its frame, or there
      was none yet. */
  lemma StateTailExact(states: seq<StateFact>, frame: nat)
    requires FramesRise(states)
    ensures Governing(LastStates(states), frame) == Governing(states, frame) <==> Covered(states, frame) || Governing(states, frame).None?
    ensures Governing(LastStates(states), frame).Some? ==> Governing(LastStates(states), frame) == Governing(states, frame)
  {
    if |states| > TAIL_LAPS + 1 {
      var d := |states| - TAIL_LAPS - 1;
      assert LastStates(states) == states[d..] && d < |states|;
      GoverningSuffix(states, d, frame);
    }
  }

  // ---------------------------------------------------------------- one tick

  /** `h` extends `h0` by facts and states of later frames. */
  ghost predicate Extends(h0: History, h: History, facts: seq<Last>, states: seq<StateFact>, checkpoint: nat) {
    && h == History(h0.facts + facts, h0.states + states)
    && FactsRise(h.facts) && FramesRise(h.states)
    && (forall f :: f in h0.facts ==> f.frame <= checkpoint)
    && (forall f :: f in facts ==> f.frame > checkpoint)
    && (forall s :: s in h0.states ==> s.frame <= checkpoint)
    && (forall s :: s in states ==> s.frame > checkpoint)
  }

  /** How many facts of the earlier history the tail no longer holds. */
  function Dropped(h: History): nat { if |h.facts| <= TAIL_LAPS then 0 else |h.facts| - TAIL_LAPS }

  lemma TailIs(h0: History, h: History, facts: seq<Last>, states: seq<StateFact>, checkpoint: nat)
    requires Extends(h0, h, facts, states, checkpoint) && |facts| < TAIL_LAPS
    ensures Dropped(h) <= |h0.facts| && (Dropped(h) == |h0.facts| ==> h0.facts == [])
    ensures LastFacts(h.facts) == h.facts[Dropped(h)..] == h0.facts[Dropped(h)..] + facts
  {
  }

  lemma {:induction false} OldIs(x: seq<Lap>, y: seq<Lap>, checkpoint: nat)
    requires forall l :: l in x ==> l.fact.frame <= checkpoint
    requires forall l :: l in y ==> l.fact.frame > checkpoint
    ensures Old(x + y, checkpoint) == x
  {
    if y != [] {
      assert (x + y)[..|x + y| - 1] == x + y[..|y| - 1];
      OldIs(x, y[..|y| - 1], checkpoint);
    } else if x != [] {
      assert x + y == x && x == x[..|x| - 1] + [x[|x| - 1]];
      OldIs(x[..|x| - 1], y, checkpoint);
      assert x[..|x| - 1] + y == x[..|x| - 1];
    }
  }

  lemma {:induction false} NewIs(x: seq<Last>, y: seq<Last>, checkpoint: nat)
    requires forall f :: f in x ==> f.frame <= checkpoint
    requires forall f :: f in y ==> f.frame > checkpoint
    ensures NewFacts(x + y, checkpoint) == y
  {
    if y != [] {
      assert (x + y)[..|x + y| - 1] == x + y[..|y| - 1] && y == y[..|y| - 1] + [y[|y| - 1]];
      NewIs(x, y[..|y| - 1], checkpoint);
    } else if x != [] {
      assert x + y == x && x == x[..|x| - 1] + [x[|x| - 1]];
      NewIs(x[..|x| - 1], y, checkpoint);
      assert x[..|x| - 1] + y == x[..|x| - 1];
    }
  }

  /** The tail knows the fact's STATE and its predecessor. */
  ghost predicate JudgedAlike(h: History, i: nat)
    requires i < |h.facts|
  {
    && Governing(LastStates(h.states), h.facts[i].frame) == Governing(h.states, h.facts[i].frame)
    && (i > Dropped(h) || Dropped(h) == 0)
  }

  /** Lap for lap: each fact's verdict in the tail, against the full scan. */
  lemma TailVerdict(quiet: Quiet, h: History, i: nat)
    requires FramesRise(h.states) && Dropped(h) <= i < |h.facts|
    ensures var tail, full := TailLaps(quiet, h)[i - Dropped(h)], Laps(quiet, h.facts, h.states)[i];
            && tail.fact == full.fact
            && (tail.clean ==> full.clean)
            && (JudgedAlike(h, i) ==> tail.clean == full.clean)
  {
    var d := Dropped(h);
    assert LastFacts(h.facts) == h.facts[d..];
    StateTailExact(h.states, h.facts[i].frame);
  }

  /** The earlier laps are judged as they were at the checkpoint. */
  lemma EarlierLapsStand(quiet: Quiet, h0: History, h: History, facts: seq<Last>, states: seq<StateFact>, checkpoint: nat)
    requires Extends(h0, h, facts, states, checkpoint)
    ensures Laps(quiet, h.facts, h.states)[..|h0.facts|] == Laps(quiet, h0.facts, h0.states)
  {
    forall i | 0 <= i < |h0.facts|
      ensures Laps(quiet, h.facts, h.states)[i] == Laps(quiet, h0.facts, h0.states)[i]
    {
      assert h0.facts[i] in h0.facts && h.facts[i] == h0.facts[i];
      assert |h0.states| < |h.states| ==> h.states[|h0.states|] == states[0] && states[0] in states;
      GoverningPrefix(h.states, |h0.states|, h.facts[i].frame);
      assert h.states[..|h0.states|] == h0.states;
    }
  }

  ghost predicate SameVerdicts(x: seq<Lap>, y: seq<Lap>) {
    |x| == |y| && forall i :: 0 <= i < |x| ==> x[i].fact == y[i].fact && x[i].clean == y[i].clean
  }

  lemma {:induction false} SameVerdictsCount(x: seq<Lap>, y: seq<Lap>)
    requires SameVerdicts(x, y)
    ensures CountClean(x) == CountClean(y) && CleanDurations(x) == CleanDurations(y)
  {
    if x != [] {
      SameVerdictsCount(x[..|x| - 1], y[..|y| - 1]);
    }
  }

  lemma {:induction false} FewerClean(x: seq<Lap>, y: seq<Lap>)
    requires |x| == |y| && forall i :: 0 <= i < |x| ==> x[i].clean ==> y[i].clean
    ensures CountClean(x) <= CountClean(y)
  {
    if x != [] {
      FewerClean(x[..|x| - 1], y[..|y| - 1]);
    }
  }

  /** The tail still has the STATE of every new LAST cell. */
  ghost predicate NewStatesKept(h: History, facts: seq<Last>) {
    forall f :: f in facts ==> Governing(LastStates(h.states), f.frame) == Governing(h.states, f.frame)
  }

  lemma TailFacts(quiet: Quiet, h0: History, h: History, facts: seq<Last>, states: seq<StateFact>, checkpoint: nat)
    requires Extends(h0, h, facts, states, checkpoint) && |facts| < TAIL_LAPS
    ensures var laps, n := TailLaps(quiet, h), |h0.facts| - Dropped(h);
            && |laps| == n + |facts|
            && (forall l :: l in laps[..n] ==> l.fact.frame <= checkpoint)
            && (forall l :: l in laps[n..] ==> l.fact.frame > checkpoint)
  {
    var laps, n, tail := TailLaps(quiet, h), |h0.facts| - Dropped(h), LastFacts(h.facts);
    TailIs(h0, h, facts, states, checkpoint);
    forall i | 0 <= i < n ensures laps[i].fact.frame <= checkpoint {
      assert laps[i].fact == tail[i] == h0.facts[Dropped(h) + i];
      assert tail[i] in h0.facts;
    }
    forall i | n <= i < |laps| ensures laps[i].fact.frame > checkpoint {
      assert laps[i].fact == tail[i] == facts[i - n];
      assert tail[i] in facts;
    }
  }

  lemma OldIsPrefix(quiet: Quiet, h0: History, h: History, facts: seq<Last>, states: seq<StateFact>, checkpoint: nat)
    requires Extends(h0, h, facts, states, checkpoint) && |facts| < TAIL_LAPS
    ensures |TailLaps(quiet, h)| == |h0.facts| - Dropped(h) + |facts|
    ensures Old(TailLaps(quiet, h), checkpoint) == TailLaps(quiet, h)[..|h0.facts| - Dropped(h)]
  {
    var laps, n := TailLaps(quiet, h), |h0.facts| - Dropped(h);
    TailFacts(quiet, h0, h, facts, states, checkpoint);
    OldIs(laps[..n], laps[n..], checkpoint);
    assert laps[..n] + laps[n..] == laps;
  }

  lemma OldNotOvercounted(quiet: Quiet, h: History, n: nat)
    requires FramesRise(h.states) && Dropped(h) <= n <= |h.facts|
    ensures CountClean(TailLaps(quiet, h)[..n - Dropped(h)]) <= CountClean(Laps(quiet, h.facts, h.states)[Dropped(h)..n])
  {
    var d, laps, full := Dropped(h), TailLaps(quiet, h), Laps(quiet, h.facts, h.states);
    forall i | 0 <= i < n - d ensures laps[i].clean ==> full[d + i].clean {
      TailVerdict(quiet, h, d + i);
    }
    FewerClean(laps[..n - d], full[d..n]);
  }

  lemma JudgedFrom(quiet: Quiet, h: History, n: nat)
    requires FramesRise(h.states) && Dropped(h) <= n <= |h.facts|
    requires forall i :: n <= i < |h.facts| ==> JudgedAlike(h, i)
    ensures SameVerdicts(TailLaps(quiet, h)[n - Dropped(h)..], Laps(quiet, h.facts, h.states)[n..])
  {
    var y, c := TailLaps(quiet, h)[n - Dropped(h)..], Laps(quiet, h.facts, h.states)[n..];
    forall i | 0 <= i < |y| ensures y[i].fact == c[i].fact && y[i].clean == c[i].clean {
      TailVerdict(quiet, h, n + i);
    }
  }

  lemma NewJudgedAlike(h0: History, h: History, facts: seq<Last>, states: seq<StateFact>, checkpoint: nat)
    requires Extends(h0, h, facts, states, checkpoint) && |facts| < TAIL_LAPS && NewStatesKept(h, facts)
    ensures forall i :: |h0.facts| <= i < |h.facts| ==> JudgedAlike(h, i)
  {
    TailIs(h0, h, facts, states, checkpoint);
    forall i | |h0.facts| <= i < |h.facts| ensures JudgedAlike(h, i) {
      var f := facts[i - |h0.facts|];
      assert h.facts[i] == f && f in facts;
    }
  }

  lemma CountPrefix(laps: seq<Lap>, n: nat)
    requires n <= |laps|
    ensures CountClean(laps) == CountClean(laps[..n]) + CountClean(laps[n..])
  {
    assert laps[..n] + laps[n..] == laps;
    CountSplit(laps[..n], laps[n..]);
  }

  lemma CleanCountExact(quiet: Quiet, h0: History, h: History, facts: seq<Last>, states: seq<StateFact>, checkpoint: nat)
    requires Extends(h0, h, facts, states, checkpoint) && |facts| < TAIL_LAPS && NewStatesKept(h, facts)
    ensures |Old(TailLaps(quiet, h), checkpoint)| == |h0.facts| - Dropped(h)
    ensures CountClean(Laps(quiet, h0.facts, h0.states)) >= CountClean(Old(TailLaps(quiet, h), checkpoint))
    ensures CountClean(Laps(quiet, h0.facts, h0.states)) - CountClean(Old(TailLaps(quiet, h), checkpoint))
          + CountClean(TailLaps(quiet, h)) == CountClean(Laps(quiet, h.facts, h.states))
  {
    var d, n0 := Dropped(h), |h0.facts|;
    var laps, full := TailLaps(quiet, h), Laps(quiet, h.facts, h.states);
    TailIs(h0, h, facts, states, checkpoint);
    OldIsPrefix(quiet, h0, h, facts, states, checkpoint);
    EarlierLapsStand(quiet, h0, h, facts, states, checkpoint);
    CountPrefix(full, n0);
    CountPrefix(full[..n0], d);
    assert full[..n0][d..] == full[d..n0];
    CountPrefix(laps, n0 - d);
    OldNotOvercounted(quiet, h, n0);
    NewJudgedAlike(h0, h, facts, states, checkpoint);
    JudgedFrom(quiet, h, n0);
    SameVerdictsCount(laps[n0 - d..], full[n0..]);
  }

  lemma TailExtremes(h0: History, h: History, facts: seq<Last>, states: seq<StateFact>, checkpoint: nat)
    requires Extends(h0, h, facts, states, checkpoint) && |facts| < TAIL_LAPS
    ensures NewFacts(LastFacts(h.facts), checkpoint) == facts
    ensures LastSectors(facts, LastSectors(h0.facts, map[])) == LastSectors(h.facts, map[])
    ensures BestSectors(facts, BestSectors(h0.facts, map[])) == BestSectors(h.facts, map[])
    ensures BestLap(LastFacts(h.facts), BestLap(h0.facts, None)) == BestLap(h.facts, None)
  {
    var kept := h0.facts[Dropped(h)..];
    TailIs(h0, h, facts, states, checkpoint);
    assert forall i :: 0 <= i < |kept| ==> kept[i] in h0.facts;
    NewIs(kept, facts, checkpoint);
    LastSectorsSplit(h0.facts, facts, map[]);
    BestSectorsSplit(h0.facts, facts, map[]);
    BestLapSplit(h0.facts, facts, None);
    BestLapBelow(h0.facts);
    BestLapAgain(kept, facts, BestLap(h0.facts, None));
  }

  /** The values the bounded path stores are those of a full scan, whichever laps the tail has
      lost and however it judges the oldest ones. */
  lemma TailEqualsFull(quiet: Quiet, h0: History, h: History, facts: seq<Last>, states: seq<StateFact>, checkpoint: nat)
    requires Extends(h0, h, facts, states, checkpoint) && |facts| < TAIL_LAPS && NewStatesKept(h, facts)
    ensures TailValues(quiet, h, FullValues(quiet, h0), checkpoint) == FullValues(quiet, h)
  {
    CleanCountExact(quiet, h0, h, facts, states, checkpoint);
    OldIsPrefix(quiet, h0, h, facts, states, checkpoint);
    TailExtremes(h0, h, facts, states, checkpoint);
  }

  /** Every tail lap gets the number the full scan gives it. */
  lemma SequencesRestored(quiet: Quiet, h0: History, h: History, facts: seq<Last>, states: seq<StateFact>, checkpoint: nat, i: nat)
    requires Extends(h0, h, facts, states, checkpoint) && |facts| < TAIL_LAPS && NewStatesKept(h, facts)
    requires i < |TailLaps(quiet, h)|
    ensures RestoredSequence(FullValues(quiet, h0), |Old(TailLaps(quiet, h), checkpoint)|, i)
         == Laps(quiet, h.facts, h.states)[Dropped(h) + i].sequence
  {
    CleanCountExact(quiet, h0, h, facts, states, checkpoint);
    TailIs(h0, h, facts, states, checkpoint);
  }

  // ---------------------------------------------------------------- rolling pace

  function Insert(x: real, s: seq<real>): seq<real> {
    if s == [] then [x] else if x <= s[0] then [x] + s else [s[0]] + Insert(x, s[1..])
  }

  function Sorted(s: seq<real>): seq<real> {
    if s == [] then [] else Insert(s[0], Sorted(s[1..]))
  }

  function Reals(s: seq<int>): seq<real> { seq(|s|, i requires 0 <= i < |s| => s[i] as real) }

  ghost predicate Ascending(s: seq<real>) {
    forall i, j :: 0 <= i < j < |s| ==> s[i] <= s[j]
  }

  lemma {:induction false} InsertHas(x: real, s: seq<real>)
    ensures |Insert(x, s)| == |s| + 1 && multiset(Insert(x, s)) == multiset(s) + multiset{x}
  {
    if s != [] && x > s[0] {
      InsertHas(x, s[1..]);
      assert s == [s[0]] + s[1..];
    }
  }

  /** Inserting above a lower bound stays above it. */
  lemma {:induction false} InsertAbove(x: real, s: seq<real>, low: real)
    requires low <= x && forall i :: 0 <= i < |s| ==> low <= s[i]
    ensures forall i :: 0 <= i < |Insert(x, s)| ==> low <= Insert(x, s)[i]
  {
    if s != [] && x > s[0] {
      InsertAbove(x, s[1..], low);
    }
  }

  lemma {:induction false} InsertAscends(x: real, s: seq<real>)
    requires Ascending(s)
    ensures Ascending(Insert(x, s))
  {
    if s != [] && x > s[0] {
      InsertAscends(x, s[1..]);
      InsertAbove(x, s[1..], s[0]);
    }
  }

  lemma {:induction false} SortedIs(s: seq<real>)
    ensures Ascending(Sorted(s)) && multiset(Sorted(s)) == multiset(s) && |Sorted(s)| == |s|
  {
    if s != [] {
      SortedIs(s[1..]);
      InsertHas(s[0], Sorted(s[1..]));
      InsertAscends(s[0], Sorted(s[1..]));
      assert s == [s[0]] + s[1..];
    }
  }

  function Median(s: seq<real>): Option<real> {
    SortedIs(s);
    var ordered, middle := Sorted(s), |s| / 2;
    if s == [] then None
    else if |s| % 2 == 1 then Some(ordered[middle])
    else Some((ordered[middle - 1] + ordered[middle]) / 2.0)
  }

  function Distance(a: real, b: real): real { if a < b then b - a else a - b }

  function Mad(s: seq<real>): Option<real> {
    var center := Median(s);
    if center.None? then None
    else Median(seq(|s|, i requires 0 <= i < |s| => Distance(s[i], center.value)))
  }

  /** Nearest rank: the percentile in tenths, `ceil(tenths * n / 10)`, clamped to the list. */
  function NearestRank(tenths: nat, n: nat): nat {
    var rank := (tenths * n + 9) / 10;
    if rank < 1 then 1 else if rank > n then n else rank
  }

  function Percentile(s: seq<real>, tenths: nat): Option<real>
    requires tenths <= 10
  {
    SortedIs(s);
    if s == [] then None else Some(Sorted(s)[NearestRank(tenths, |s|) - 1])
  }

  datatype Pace = Pace(
    pace3: Option<real>, pace5: Option<real>, pace10: Option<real>, consistency10: Option<real>, range10: Option<real>)

  function Recent(durations: seq<int>, n: nat): seq<int> {
    if |durations| <= n then durations else durations[|durations| - n..]
  }

  function WindowMedian(durations: seq<int>, window: nat): Option<real> {
    if |durations| >= window then Median(Reals(Recent(durations, window))) else None
  }

  /** `calculate_pace_metrics` on the clean durations, without its slow-lap list. */
  function PaceOf(durations: seq<int>): Pace {
    var last10 := Reals(Recent(durations, 10));
    var full := |durations| >= 10;
    var mad := if full then Mad(last10) else None;
    var p10, p90 := if full then Percentile(last10, 1) else None, if full then Percentile(last10, 9) else None;
    Pace(WindowMedian(durations, 3), WindowMedian(durations, 5), WindowMedian(durations, 10),
         if mad.Some? then Some(1.4826 * mad.value) else None,
         if p10.Some? && p90.Some? then Some(p90.value - p10.value) else None)
  }

  lemma PaceFromLastTen(x: seq<int>, y: seq<int>)
    requires |x| >= 10 && |y| >= 10 && Recent(x, 10) == Recent(y, 10)
    ensures PaceOf(x) == PaceOf(y)
  {
    assert Recent(x, 3) == Recent(Recent(x, 10), 3) && Recent(y, 3) == Recent(Recent(y, 10), 3);
    assert Recent(x, 5) == Recent(Recent(x, 10), 5) && Recent(y, 5) == Recent(Recent(y, 10), 5);
  }

  /** The kept STATE cells reach back to every lap the tail judges with a predecessor. */
  ghost predicate StatesReachBack(h: History) {
    forall i :: 0 <= i < |h.facts| && (i > Dropped(h) || Dropped(h) == 0) ==>
      Governing(LastStates(h.states), h.facts[i].frame) == Governing(h.states, h.facts[i].frame)
  }

  /** When the whole capture fits, so do all windows. */
  lemma PaceAgreesOnWhole(quiet: Quiet, h: History)
    requires FramesRise(h.states) && |h.facts| <= TAIL_LAPS && StatesReachBack(h)
    ensures PaceOf(CleanDurations(TailLaps(quiet, h))) == PaceOf(CleanDurations(Laps(quiet, h.facts, h.states)))
  {
    forall i | 0 <= i < |h.facts| ensures JudgedAlike(h, i) {
    }
    JudgedFrom(quiet, h, 0);
    SameVerdictsCount(TailLaps(quiet, h)[0..], Laps(quiet, h.facts, h.states)[0..]);
    assert TailLaps(quiet, h)[0..] == TailLaps(quiet, h);
    assert Laps(quiet, h.facts, h.states)[0..] == Laps(quiet, h.facts, h.states);
  }

  lemma RecentOfSplit(x: seq<int>, y: seq<int>, n: nat)
    requires |y| >= n
    ensures Recent(x + y, n) == Recent(y, n)
  {
  }

  lemma {:induction false} DurationsCounted(laps: seq<Lap>)
    ensures |CleanDurations(laps)| == CountClean(laps)
  {
    if laps != [] {
      DurationsCounted(laps[..|laps| - 1]);
    }
  }

  /** When the tail has lost laps: ten clean ones after its first are enough. */
  lemma PaceAgreesOnTail(quiet: Quiet, h: History)
    requires FramesRise(h.states) && |h.facts| > TAIL_LAPS && StatesReachBack(h)
    requires CountClean(TailLaps(quiet, h)[1..]) >= 10
    ensures PaceOf(CleanDurations(TailLaps(quiet, h))) == PaceOf(CleanDurations(Laps(quiet, h.facts, h.states)))
  {
    var n := Dropped(h) + 1;
    var laps, full := TailLaps(quiet, h), Laps(quiet, h.facts, h.states);
    forall i | n <= i < |h.facts| ensures JudgedAlike(h, i) {
    }
    JudgedFrom(quiet, h, n);
    SameVerdictsCount(laps[1..], full[n..]);
    assert laps == laps[..1] + laps[1..] && full == full[..n] + full[n..];
    DurationsSplit(laps[..1], laps[1..]);
    DurationsSplit(full[..n], full[n..]);
    DurationsCounted(laps[1..]);
    RecentOfSplit(CleanDurations(laps[..1]), CleanDurations(laps[1..]), 10);
    RecentOfSplit(CleanDurations(full[..n]), CleanDurations(full[n..]), 10);
    PaceFromLastTen(CleanDurations(laps), CleanDurations(full));
  }

  lemma CleanOfOne(lap: Lap)
    ensures CleanDurations([lap]) == if lap.clean then [lap.fact.duration] else []
  {
    assert [lap][..0] == [];
  }

  /** The clean durations of the tail are those of the full scan without some of the oldest. */
  lemma TailIsSuffix(quiet: Quiet, h: History) returns (lost: seq<int>)
    requires FramesRise(h.states) && StatesReachBack(h)
    requires var tail, full := TailLaps(quiet, h), Laps(quiet, h.facts, h.states);
             CountClean(tail) >= 10 || CountClean(tail) == CountClean(full)
    ensures var tail, full := CleanDurations(TailLaps(quiet, h)), CleanDurations(Laps(quiet, h.facts, h.states));
            |tail| == CountClean(TailLaps(quiet, h)) && |full| == CountClean(Laps(quiet, h.facts, h.states))
            && (full == lost + tail || (|tail| >= 10 && Recent(tail, 10) == Recent(full, 10)))
  {
    var laps, full := TailLaps(quiet, h), Laps(quiet, h.facts, h.states);
    DurationsCounted(laps);
    DurationsCounted(full);
    lost := [];
    if Dropped(h) == 0 {
      forall i | 0 <= i < |h.facts| ensures JudgedAlike(h, i) {
      }
      JudgedFrom(quiet, h, 0);
      SameVerdictsCount(laps[0..], full[0..]);
      assert laps[0..] == laps && full[0..] == full;
      assert CleanDurations(full) == [] + CleanDurations(laps);
    } else {
      lost := DroppedSuffix(quiet, h);
    }
  }

  lemma DurationsOfThree(x: seq<Lap>, y: seq<Lap>, z: seq<Lap>)
    ensures CleanDurations(x + y + z) == CleanDurations(x) + CleanDurations(y) + CleanDurations(z)
  {
    DurationsSplit(x + y, z);
    DurationsSplit(x, y);
  }

  lemma AroundOne(laps: seq<Lap>, d: nat)
    requires d < |laps|
    ensures laps == laps[..d] + [laps[d]] + laps[d + 1..]
  {
  }

  lemma DurationsAround(laps: seq<Lap>, d: nat)
    requires d < |laps|
    ensures CleanDurations(laps) == CleanDurations(laps[..d]) + CleanDurations([laps[d]]) + CleanDurations(laps[d + 1..])
  {
    AroundOne(laps, d);
    DurationsOfThree(laps[..d], [laps[d]], laps[d + 1..]);
  }

  /** The oldest lap of the tail may be judged as not clean; the others are judged alike. */
  lemma OldestInTail(quiet: Quiet, h: History)
    requires FramesRise(h.states) && StatesReachBack(h) && Dropped(h) > 0
    ensures var laps, full, d := TailLaps(quiet, h), Laps(quiet, h.facts, h.states), Dropped(h);
            && CleanDurations(laps[1..]) == CleanDurations(full[d + 1..])
            && |CleanDurations([full[d]])| <= 1
            && (CleanDurations([laps[0]]) == CleanDurations([full[d]]) || CleanDurations([laps[0]]) == [])
  {
    var laps, full, d := TailLaps(quiet, h), Laps(quiet, h.facts, h.states), Dropped(h);
    forall i | d + 1 <= i < |h.facts| ensures JudgedAlike(h, i) {
    }
    JudgedFrom(quiet, h, d + 1);
    SameVerdictsCount(laps[1..], full[d + 1..]);
    TailVerdict(quiet, h, d);
    CleanOfOne(laps[0]);
    CleanOfOne(full[d]);
  }

  lemma DroppedSuffix(quiet: Quiet, h: History) returns (lost: seq<int>)
    requires FramesRise(h.states) && StatesReachBack(h) && Dropped(h) > 0
    requires var tail, full := TailLaps(quiet, h), Laps(quiet, h.facts, h.states);
             CountClean(tail) >= 10 || CountClean(tail) == CountClean(full)
    ensures var tail, full := CleanDurations(TailLaps(quiet, h)), CleanDurations(Laps(quiet, h.facts, h.states));
            full == lost + tail || (|tail| >= 10 && Recent(tail, 10) == Recent(full, 10))
  {
    var laps, full, d := TailLaps(quiet, h), Laps(quiet, h.facts, h.states), Dropped(h);
    OldestInTail(quiet, h);
    DurationsAround(laps, 0);
    DurationsAround(full, d);
    assert CleanDurations(laps[..0]) == [];
    DurationsCounted(laps);
    DurationsCounted(full);
    SplitWindows(CleanDurations(full[..d]), CleanDurations([full[d]]), CleanDurations([laps[0]]), CleanDurations(laps[1..]));
    lost := CleanDurations(full[..d]);
  }

  /** `a`, then one lap that the tail may have judged as not clean, then laps judged alike. */
  lemma SplitWindows(a: seq<int>, f: seq<int>, t: seq<int>, r: seq<int>)
    requires |f| <= 1 && (t == f || t == []) && (|t + r| >= 10 || |t + r| == |a + f + r|)
    ensures a + f + r == a + (t + r) || (|t + r| >= 10 && Recent(t + r, 10) == Recent(a + f + r, 10))
  {
    if t == f {
      assert a + f + r == a + (f + r);
    } else if |r| >= 10 {
      assert t + r == r;
      RecentOfSplit(a + f, r, 10);
    } else {
      assert false;
    }
  }

  /** The last ten clean laps of the tail are those of the full scan exactly when the tail has ten,
      or every one there is. Then all windows agree. */
  lemma WindowAgreesExactly(quiet: Quiet, h: History)
    requires FramesRise(h.states) && StatesReachBack(h)
    ensures var tail, full := TailLaps(quiet, h), Laps(quiet, h.facts, h.states);
            var enough := CountClean(tail) >= 10 || CountClean(tail) == CountClean(full);
            && (Recent(CleanDurations(tail), 10) == Recent(CleanDurations(full), 10) <==> enough)
            && (enough ==> PaceOf(CleanDurations(tail)) == PaceOf(CleanDurations(full)))
  {
    var tail, full := TailLaps(quiet, h), Laps(quiet, h.facts, h.states);
    var x, y := CleanDurations(tail), CleanDurations(full);
    DurationsCounted(tail);
    DurationsCounted(full);
    if |x| >= 10 || |x| == |y| {
      var lost := TailIsSuffix(quiet, h);
      if |x| >= 10 {
        if y == lost + x { RecentOfSplit(lost, x, 10); }
        FewerInTail(x, y);
        PaceFromLastTen(x, y);
      } else {
        assert lost == [] && y == x;
      }
    }
  }

  lemma FewerInTail(x: seq<int>, y: seq<int>)
    requires |x| >= 10 && Recent(x, 10) == Recent(y, 10)
    ensures |y| >= 10
  {
  }

  // ---------------------------------------------------------------- a pace the tail gets wrong

  function Always(): Quiet { (a, b) => true }

  /** Three laps with a stored verdict, then one that depends on its STATE. */
  const FOUR_LAPS: seq<Last> := [
    Last(1, 100, 100, map[], Explicit(true)), Last(2, 300, 200, map[], Explicit(true)),
    Last(3, 600, 300, map[], Explicit(true)), Last(4, 1000, 400, map[], Unlinked)]

  /** On track throughout: one STATE cell before the laps, and 73 after them. */
  function ManyStates(): seq<StateFact> { [StateFact(1, ON_TRACK)] + seq(73, i => StateFact(5, ON_TRACK)) }

  function CrowdedHistory(): History { History(FOUR_LAPS, ManyStates()) }

  lemma CrowdedVerdicts()
    ensures var h := CrowdedHistory();
            && CleanDurations(Laps(Always(), h.facts, h.states)) == [100, 200, 300, 400]
            && CleanDurations(TailLaps(Always(), h)) == [100, 200, 300]
  {
    var h := CrowdedHistory();
    var states := h.states;
    assert LastStates(states) == states[1..];
    GoverningNone(states[1..], 4);
    GoverningPrefix(states, 1, 4);
    assert states[..1] == [StateFact(1, ON_TRACK)];
    assert Governing(states[..1], 4) == Some(ON_TRACK);
    FourLaps(Laps(Always(), h.facts, h.states), true);
    FourLaps(TailLaps(Always(), h), false);
  }

  lemma {:induction false} FourLaps(laps: seq<Lap>, lastClean: bool)
    requires |laps| == 4 && forall i :: 0 <= i < 4 ==> laps[i].fact == FOUR_LAPS[i] && laps[i].clean == (i < 3 || lastClean)
    ensures CleanDurations(laps) == if lastClean then [100, 200, 300, 400] else [100, 200, 300]
  {
    assert laps[..3][..2] == laps[..2] && laps[..2][..1] == laps[..1] && laps[..1][..0] == [];
    assert CleanDurations(laps[..1]) == [100];
    assert CleanDurations(laps[..2]) == [100, 200];
    assert CleanDurations(laps[..3]) == [100, 200, 300];
  }

  lemma SortedThree(a: real, b: real, c: real)
    requires a < b < c
    ensures Median([a, b, c]) == Some(b)
  {
    assert [a, b, c][1..] == [b, c] && [b, c][1..] == [c] && [c][1..] == [];
    assert Sorted([c]) == [c];
    assert Sorted([b, c]) == [b, c];
    assert Sorted([a, b, c]) == [a, b, c];
  }

  /** The bounded path keeps 73 STATE cells. Here the whole capture fits in the tail, yet the
      cell that puts the car on track does not: Pace3 comes out as 200 instead of 300. */
  lemma CrowdedStatesChangePace()
    ensures var h := CrowdedHistory();
            && FramesRise(h.states) && FactsRise(h.facts) && |h.facts| <= TAIL_LAPS
            && PaceOf(CleanDurations(Laps(Always(), h.facts, h.states))).pace3 == Some(300.0)
            && PaceOf(CleanDurations(TailLaps(Always(), h))).pace3 == Some(200.0)
  {
    CrowdedVerdicts();
    assert Recent([100, 200, 300, 400], 3) == [200, 300, 400];
    assert Reals([200, 300, 400]) == [200.0, 300.0, 400.0] && Reals([100, 200, 300]) == [100.0, 200.0, 300.0];
    SortedThree(200.0, 300.0, 400.0);
    SortedThree(100.0, 200.0, 300.0);
  }

  // ---------------------------------------------------------------- what the order statistics mean

  function CountAtMost(s: seq<real>, bound: real): nat {
    if s == [] then 0 else CountAtMost(s[..|s| - 1], bound) + if s[|s| - 1] <= bound then 1 else 0
  }

  lemma {:induction false} AtMostInOrder(s: seq<real>, k: nat)
    requires Ascending(s) && k < |s|
    ensures CountAtMost(s, s[k]) >= k + 1
  {
    if k == |s| - 1 {
      AllAtMost(s, s[k]);
    } else {
      AtMostInOrder(s[..|s| - 1], k);
    }
  }

  lemma {:induction false} AllAtMost(s: seq<real>, bound: real)
    requires forall i :: 0 <= i < |s| ==> s[i] <= bound
    ensures CountAtMost(s, bound) == |s|
  {
    if s != [] {
      AllAtMost(s[..|s| - 1], bound);
    }
  }

  lemma {:induction false} CountByMultiset(s: seq<real>, t: seq<real>, bound: real)
    requires multiset(s) == multiset(t)
    ensures CountAtMost(s, bound) == CountAtMost(t, bound)
  {
    if s == [] {
      assert |multiset(t)| == 0;
    } else {
      var x := s[|s| - 1];
      assert s == s[..|s| - 1] + [x];
      assert x in multiset(t);
      var k :| 0 <= k < |t| && t[k] == x;
      var rest := t[..k] + t[k + 1..];
      assert t == t[..k] + [x] + t[k + 1..];
      assert multiset(t) == multiset(t[..k]) + multiset{x} + multiset(t[k + 1..]);
      assert multiset(s) == multiset(s[..|s| - 1] + [x]) == multiset(s[..|s| - 1]) + multiset{x};
      assert multiset(rest) == multiset(t) - multiset{x};
      assert multiset(rest) == multiset(s[..|s| - 1]);
      CountByMultiset(s[..|s| - 1], rest, bound);
      RemoveOne(t, k, bound);
    }
  }

  lemma {:induction false} RemoveOne(t: seq<real>, k: nat, bound: real)
    requires k < |t|
    ensures CountAtMost(t, bound) == CountAtMost(t[..k] + t[k + 1..], bound) + if t[k] <= bound then 1 else 0
  {
    if k == |t| - 1 {
      assert t[..k] + t[k + 1..] == t[..|t| - 1];
    } else {
      RemoveOne(t[..|t| - 1], k, bound);
      var rest := t[..k] + t[k + 1..];
      assert t[k + 1..] == t[..|t| - 1][k + 1..] + [t[|t| - 1]] && t[..k] == t[..|t| - 1][..k];
      assert rest == (t[..k] + t[..|t| - 1][k + 1..]) + [t[|t| - 1]];
      assert rest[..|rest| - 1] == t[..|t| - 1][..k] + t[..|t| - 1][k + 1..];
    }
  }

  lemma {:induction false} AtMostGrows(s: seq<real>, low: real, high: real)
    requires low <= high
    ensures CountAtMost(s, low) <= CountAtMost(s, high) <= |s|
  {
    if s != [] {
      AtMostGrows(s[..|s| - 1], low, high);
    }
  }

  /** At least half of the values are at or below the median. */
  lemma MedianReachesHalf(s: seq<real>)
    requires s != []
    ensures 2 * CountAtMost(s, Median(s).value) >= |s|
  {
    SortedIs(s);
    var ordered, m := Sorted(s), Median(s).value;
    CountByMultiset(s, ordered, m);
    if |s| % 2 == 1 {
      AtMostInOrder(ordered, |s| / 2);
    } else {
      AtMostInOrder(ordered, |s| / 2 - 1);
      AtMostGrows(ordered, ordered[|s| / 2 - 1], m);
    }
  }

  lemma NearestRankReaches(tenths: nat, n: nat)
    requires n > 0 && tenths <= 10
    ensures 1 <= NearestRank(tenths, n) <= n && 10 * NearestRank(tenths, n) >= tenths * n
  {
    assert (10 - tenths) * n >= 0;
  }

  /** At least the given share of the values is at or below a percentile, and it is one of them. */
  lemma PercentileIsNearestRank(s: seq<real>, tenths: nat)
    requires s != [] && tenths <= 10
    ensures Percentile(s, tenths).value in s
    ensures CountAtMost(s, Percentile(s, tenths).value) >= NearestRank(tenths, |s|)
    ensures 10 * NearestRank(tenths, |s|) >= tenths * |s|
  {
    SortedIs(s);
    NearestRankReaches(tenths, |s|);
    var ordered, k := Sorted(s), NearestRank(tenths, |s|) - 1;
    assert ordered[k] in multiset(ordered);
    AtMostInOrder(ordered, k);
    CountByMultiset(s, ordered, ordered[k]);
  }
}
