/** Whole runs of metric ticks: when what the bounded path stores is what a full scan stores, and
    which values always are. */
module MetricTicks {
  import opened Common
  import opened GreenCoverage
  import opened MetricTail
  import opened MetricEvidence
  import opened MetricTailProof

  /** One metric tick: a frame's new cells, what clean verdicts rest on at that moment, and whether
      the loader takes the bounded path. The link of a new cell is the evidence's. */
  datatype Tick = Tick(frame: nat, facts: seq<Last>, states: seq<StateFact>, evidence: Evidence, bounded: bool)

  /** Frames come in order, any of them any number of times; a frame that comes again has nothing
      new. What is stored beside the cells may have changed in any way. */
  ghost predicate Ticks(ts: seq<Tick>) {
    && (forall i, j :: 0 <= i < j < |ts| ==>
          ts[i].frame < ts[j].frame || (ts[i].frame == ts[j].frame && ts[j].facts == [] && ts[j].states == []))
    && (forall i, f :: 0 <= i < |ts| && f in ts[i].facts ==> f.frame == ts[i].frame)
    && (forall i, s :: 0 <= i < |ts| && s in ts[i].states ==> s.frame == ts[i].frame)
    && (forall i :: 0 <= i < |ts| && ts[i].bounded ==>
          i > 0 && |ts[i].facts| < TAIL_LAPS && DependenciesUnchanged(ts[i - 1].evidence, ts[i].evidence))
  }

  function HistoryAfter(ts: seq<Tick>): History {
    if ts == [] then History([], [])
    else
      var before, last := HistoryAfter(ts[..|ts| - 1]), ts[|ts| - 1];
      History(before.facts + last.facts, before.states + last.states)
  }

  function Relinked(h: History, e: Evidence): History { History(Linked(h.facts, e.links), h.states) }

  /** A full scan of the heat so far, on the evidence of the last tick. */
  ghost function FullAfter(ts: seq<Tick>): Values
    requires ts != []
  {
    var e := ts[|ts| - 1].evidence;
    FullValues(QuietOf(e), Relinked(HistoryAfter(ts), e))
  }

  /** What is stored after the ticks, each building on the values stored by the one before. */
  ghost function StoredAfter(ts: seq<Tick>): Values
    requires ts != []
  {
    var n := |ts| - 1;
    if n == 0 || !ts[n].bounded then FullAfter(ts)
    else
      var e := ts[n].evidence;
      TailValues(QuietOf(e), Relinked(HistoryAfter(ts), e), StoredAfter(ts[..n]), ts[n - 1].frame)
  }

  lemma FactsRiseOn(x: seq<Last>, y: seq<Last>, frame: nat)
    requires FactsRise(x) && (forall f :: f in x ==> f.frame <= frame) && (forall f :: f in y ==> f.frame == frame)
    ensures FactsRise(x + y) && forall f :: f in x + y ==> f.frame <= frame
  {
    assert forall i :: 0 <= i < |x| ==> x[i] in x;
    assert forall i :: 0 <= i < |y| ==> y[i] in y;
  }

  lemma StatesRiseOn(x: seq<StateFact>, y: seq<StateFact>, frame: nat)
    requires FramesRise(x) && (forall s :: s in x ==> s.frame <= frame) && (forall s :: s in y ==> s.frame == frame)
    ensures FramesRise(x + y) && forall s :: s in x + y ==> s.frame <= frame
  {
    assert forall i :: 0 <= i < |x| ==> x[i] in x;
    assert forall i :: 0 <= i < |y| ==> y[i] in y;
  }

  lemma {:induction false} HistoryRises(ts: seq<Tick>)
    requires Ticks(ts)
    ensures FactsRise(HistoryAfter(ts).facts) && FramesRise(HistoryAfter(ts).states)
    ensures forall f :: f in HistoryAfter(ts).facts ==> ts != [] && f.frame <= ts[|ts| - 1].frame
    ensures forall s :: s in HistoryAfter(ts).states ==> ts != [] && s.frame <= ts[|ts| - 1].frame
  {
    if ts != [] {
      var init, last := ts[..|ts| - 1], ts[|ts| - 1];
      TicksPrefix(ts, |ts| - 1);
      HistoryRises(init);
      FactsRiseOn(HistoryAfter(init).facts, last.facts, last.frame);
      StatesRiseOn(HistoryAfter(init).states, last.states, last.frame);
    }
  }

  lemma NewestStateKept(h: History, facts: seq<Last>, frame: nat)
    requires (forall f :: f in facts ==> f.frame == frame) && (forall s :: s in h.states ==> s.frame <= frame)
    ensures NewStatesKept(h, facts)
  {
    if h.states != [] {
      assert h.states[|h.states| - 1] in h.states;
      assert LastStates(h.states)[|LastStates(h.states)| - 1] == h.states[|h.states| - 1];
    }
  }

  lemma LinkedFrames(facts: seq<Last>, links: nat -> Link, low: nat, high: nat)
    requires forall f :: f in facts ==> low <= f.frame <= high
    ensures forall f :: f in Linked(facts, links) ==> low <= f.frame <= high
  {
    forall f | f in Linked(facts, links) ensures low <= f.frame <= high {
      var i :| 0 <= i < |facts| && Linked(facts, links)[i] == f;
      assert facts[i] in facts;
    }
  }

  lemma LinkedSplit(x: seq<Last>, y: seq<Last>, links: nat -> Link, shifted: nat -> Link)
    requires forall i: nat :: shifted(i) == links(|x| + i)
    ensures Linked(x + y, links) == Linked(x, links) + Linked(y, shifted)
  {
  }

  /** The last tick adds a frame's cells to the heat before it, all with the links of now. */
  lemma TickExtends(ts: seq<Tick>) returns (facts: seq<Last>)
    requires Ticks(ts) && |ts| > 1 && ts[|ts| - 1].bounded
    ensures var n, e := |ts| - 1, ts[|ts| - 1].evidence;
            var h0, h := Relinked(HistoryAfter(ts[..|ts| - 1]), e), Relinked(HistoryAfter(ts), e);
            Extends(h0, h, facts, ts[n].states, ts[n - 1].frame) && |facts| < TAIL_LAPS && NewStatesKept(h, facts)
  {
    var n, last := |ts| - 1, ts[|ts| - 1];
    var links, h0, h := last.evidence.links, HistoryAfter(ts[..|ts| - 1]), HistoryAfter(ts);
    TicksPrefix(ts, n);
    HistoryRises(ts[..n]);
    HistoryRises(ts);
    assert ts[n - 1].frame < last.frame || (last.facts == [] && last.states == []);
    var shifted := (i: nat) => links(|h0.facts| + i);
    LinkedSplit(h0.facts, last.facts, links, shifted);
    facts := Linked(last.facts, shifted);
    LinkedFrames(h0.facts, links, 0, ts[n - 1].frame);
    LinkedFrames(last.facts, shifted, last.frame, last.frame);
    NewestStateKept(Relinked(h, last.evidence), facts, last.frame);
  }

  lemma TicksPrefix(ts: seq<Tick>, k: nat)
    requires Ticks(ts) && k <= |ts|
    ensures Ticks(ts[..k])
  {
    forall i | 0 <= i < k && ts[..k][i].bounded
      ensures i > 0 && |ts[..k][i].facts| < TAIL_LAPS && DependenciesUnchanged(ts[..k][i - 1].evidence, ts[..k][i].evidence)
    {
      assert ts[..k][i] == ts[i] && (i > 0 ==> ts[..k][i - 1] == ts[i - 1]);
    }
  }

  // ---------------------------------------------------------------- all but the clean count

  lemma {:induction false} LinksDoNotCount(facts: seq<Last>, links: nat -> Link)
    ensures LastSectors(Linked(facts, links), map[]) == LastSectors(facts, map[])
    ensures BestSectors(Linked(facts, links), map[]) == BestSectors(facts, map[])
    ensures BestLap(Linked(facts, links), None) == BestLap(facts, None)
  {
    if facts != [] {
      LinksDoNotCount(facts[..|facts| - 1], links);
      assert Linked(facts, links)[..|facts| - 1] == Linked(facts[..|facts| - 1], links);
    }
  }

  /** The values other than the clean count: of the cells alone. */
  function CellValues(v: Values): Values { v.(clean := 0) }

  lemma SameCellValues(p: Quiet, q: Quiet, h: History, a: Evidence, b: Evidence)
    ensures CellValues(FullValues(p, Relinked(h, a))) == CellValues(FullValues(q, Relinked(h, b)))
  {
    LinksDoNotCount(h.facts, a.links);
    LinksDoNotCount(h.facts, b.links);
  }

  lemma TailByCells(quiet: Quiet, h: History, x: Values, y: Values, checkpoint: nat)
    requires CellValues(x) == CellValues(y)
    ensures CellValues(TailValues(quiet, h, x, checkpoint)) == CellValues(TailValues(quiet, h, y, checkpoint))
  {
    assert x == CellValues(x).(clean := x.clean) && y == CellValues(y).(clean := y.clean);
  }

  /** Along any run, whatever becomes of flag periods, gaps and links, and whichever ticks the guard
      lets take the bounded path: the stored number of laps, the last and best sectors and the best
      lap are those of a full scan of the heat so far. */
  lemma {:induction false} CellsEqualFullScan(ts: seq<Tick>)
    requires Ticks(ts) && ts != []
    ensures CellValues(StoredAfter(ts)) == CellValues(FullAfter(ts))
  {
    var n := |ts| - 1;
    if n > 0 && ts[n].bounded {
      var e, was, states, checkpoint := ts[n].evidence, ts[n - 1].evidence, ts[n].states, ts[n - 1].frame;
      var quiet, h0, h := QuietOf(e), HistoryAfter(ts[..n]), HistoryAfter(ts);
      TicksPrefix(ts, n);
      CellsEqualFullScan(ts[..n]);
      var facts := TickExtends(ts);
      SameCellValues(QuietOf(was), quiet, h0, was, e);
      TailEqualsFull(quiet, Relinked(h0, e), Relinked(h, e), facts, states, checkpoint);
      TailByCells(quiet, Relinked(h, e), StoredAfter(ts[..n]), FullValues(quiet, Relinked(h0, e)), checkpoint);
    }
  }

  // ---------------------------------------------------------------- the clean count

  /** How many of the laps before the last tick are clean, on given evidence. */
  ghost function CleanBefore(ts: seq<Tick>, e: Evidence): nat
    requires ts != []
  {
    var h0 := HistoryAfter(ts[..|ts| - 1]);
    CountClean(JudgedLaps(e, h0.facts, h0.states))
  }

  /** And how many of them the tail counts again, on the evidence of now. */
  ghost function CleanInTail(ts: seq<Tick>): nat
    requires |ts| > 1
  {
    var e := ts[|ts| - 1].evidence;
    CountClean(Old(TailLaps(QuietOf(e), Relinked(HistoryAfter(ts), e)), ts[|ts| - 2].frame))
  }

  lemma ClampedCount(stored: int, k: nat, now: nat, more: nat)
    requires k <= now
    ensures AtLeastZero(stored - k) + k + more == now + more <==> stored == now || (stored < now && k == now)
  {
  }

  lemma TailCleanOf(quiet: Quiet, h0: History, h: History, facts: seq<Last>, states: seq<StateFact>, checkpoint: nat, stored: Values)
    requires Extends(h0, h, facts, states, checkpoint) && |facts| < TAIL_LAPS && NewStatesKept(h, facts)
    ensures var now, k := CountClean(Laps(quiet, h0.facts, h0.states)), CountClean(Old(TailLaps(quiet, h), checkpoint));
            && k <= now
            && (TailValues(quiet, h, stored, checkpoint).clean == FullValues(quiet, h).clean <==>
                stored.clean == now || (stored.clean < now && k == now))
  {
    CleanCountExact(quiet, h0, h, facts, states, checkpoint);
    OldIsPrefix(quiet, h0, h, facts, states, checkpoint);
    var now, k := CountClean(Laps(quiet, h0.facts, h0.states)), CountClean(Old(TailLaps(quiet, h), checkpoint));
    CountPrefix(TailLaps(quiet, h), |h0.facts| - Dropped(h));
    ClampedCount(stored.clean, k, now, CountClean(TailLaps(quiet, h)) - k);
  }

  /** Whatever was stored, the bounded path takes the tail's old laps off, no further than zero, and
      puts them on again with the new ones. It stores the full scan's count exactly when what was
      stored is the number of old laps that are clean now, or less and the tail has all of those. */
  lemma TailCleanExactly(ts: seq<Tick>, stored: Values)
    requires Ticks(ts) && |ts| > 1 && ts[|ts| - 1].bounded
    ensures var e := ts[|ts| - 1].evidence;
            var now, k := CleanBefore(ts, e), CleanInTail(ts);
            var clean := TailValues(QuietOf(e), Relinked(HistoryAfter(ts), e), stored, ts[|ts| - 2].frame).clean;
            k <= now && (clean == FullAfter(ts).clean <==> stored.clean == now || (stored.clean < now && k == now))
  {
    var n, e := |ts| - 1, ts[|ts| - 1].evidence;
    var h0, h := Relinked(HistoryAfter(ts[..n]), e), Relinked(HistoryAfter(ts), e);
    var facts := TickExtends(ts);
    TailCleanOf(QuietOf(e), h0, h, facts, ts[n].states, ts[n - 1].frame, stored);
  }

  /** The old laps that are clean now are as many as were clean at the tick before; or more, and all
      of them are in the tail. */
  ghost predicate CountCarries(ts: seq<Tick>)
    requires |ts| > 1
  {
    var before, now := CleanBefore(ts, ts[|ts| - 2].evidence), CleanBefore(ts, ts[|ts| - 1].evidence);
    before == now || (before < now && CleanInTail(ts) == now)
  }

  ghost predicate StoresFull(ts: seq<Tick>)
    requires ts != []
  {
    StoredAfter(ts) == FullAfter(ts)
  }

  lemma FullBefore(ts: seq<Tick>)
    requires |ts| > 1
    ensures FullAfter(ts[..|ts| - 1]).clean == CleanBefore(ts, ts[|ts| - 2].evidence)
  {
  }

  lemma CellsDecide(x: Values, y: Values)
    requires CellValues(x) == CellValues(y)
    ensures x == y <==> x.clean == y.clean
  {
    assert x == CellValues(x).(clean := x.clean) && y == CellValues(y).(clean := y.clean);
  }

  lemma StoresFullExactly(ts: seq<Tick>)
    requires Ticks(ts) && |ts| > 1 && ts[|ts| - 1].bounded && StoresFull(ts[..|ts| - 1])
    ensures StoresFull(ts) <==> CountCarries(ts)
  {
    FullBefore(ts);
    TailCleanExactly(ts, StoredAfter(ts[..|ts| - 1]));
    CellsEqualFullScan(ts);
    CellsDecide(StoredAfter(ts), FullAfter(ts));
  }

  ghost predicate StoresFullAt(ts: seq<Tick>, k: nat) { 0 < k <= |ts| ==> StoresFull(ts[..k]) }
  ghost predicate CarriesAt(ts: seq<Tick>, k: nat) { 1 < k <= |ts| && ts[k - 1].bounded ==> CountCarries(ts[..k]) }

  lemma ScansInFull(ts: seq<Tick>)
    requires ts != [] && (|ts| == 1 || !ts[|ts| - 1].bounded)
    ensures StoresFull(ts)
  {
  }

  lemma AtTick(ts: seq<Tick>, k: nat)
    requires Ticks(ts) && 0 < k <= |ts|
    ensures k == 1 || !ts[k - 1].bounded ==> StoresFull(ts[..k])
    ensures k > 1 && ts[k - 1].bounded && StoresFull(ts[..k - 1]) ==> (StoresFull(ts[..k]) <==> CountCarries(ts[..k]))
  {
    if k == 1 || !ts[k - 1].bounded {
      ScansInFull(ts[..k]);
    } else if StoresFull(ts[..k - 1]) {
      TicksPrefix(ts, k);
      assert ts[..k][..k - 1] == ts[..k - 1];
      StoresFullExactly(ts[..k]);
    }
  }

  lemma {:induction false} CarriesToFull(ts: seq<Tick>, k: nat)
    requires Ticks(ts) && 0 < k <= |ts| && forall i :: 0 <= i <= k ==> CarriesAt(ts, i)
    ensures StoresFull(ts[..k])
  {
    if k > 1 { CarriesToFull(ts, k - 1); }
    AtTick(ts, k);
    assert CarriesAt(ts, k);
  }

  /** Along any run: at every tick the stored values are those of a full scan, exactly when at every
      tick that takes the bounded path the count carries over. */
  lemma BoundedTailEqualsFullScanExactly(ts: seq<Tick>)
    requires Ticks(ts)
    ensures (forall k :: 0 <= k <= |ts| ==> StoresFullAt(ts, k)) <==> (forall k :: 0 <= k <= |ts| ==> CarriesAt(ts, k))
  {
    if forall k :: 0 <= k <= |ts| ==> CarriesAt(ts, k) {
      forall k | 0 <= k <= |ts| ensures StoresFullAt(ts, k) {
        if k > 0 { CarriesToFull(ts, k); }
      }
    }
    if forall k :: 0 <= k <= |ts| ==> StoresFullAt(ts, k) {
      forall k | 0 <= k <= |ts| ensures CarriesAt(ts, k) {
        if k > 1 {
          AtTick(ts, k);
          assert StoresFullAt(ts, k - 1) && StoresFullAt(ts, k);
        }
      }
    }
  }

  /** Every lap before the last tick stands. */
  ghost predicate LapsStand(ts: seq<Tick>)
    requires |ts| > 1
  {
    AllStand(ts[|ts| - 2].evidence, ts[|ts| - 1].evidence, HistoryAfter(ts[..|ts| - 1]).facts)
  }

  lemma StandingCarries(ts: seq<Tick>)
    requires Ticks(ts) && |ts| > 1 && ts[|ts| - 1].bounded && LapsStand(ts)
    ensures CountCarries(ts)
  {
    var h0 := HistoryAfter(ts[..|ts| - 1]);
    SameLaps(ts[|ts| - 2].evidence, ts[|ts| - 1].evidence, h0.facts, h0.states);
  }

  /** Where, between a bounded tick and the one before it, nothing rewrites a period that an earlier
      lap lies in, a gap across one or its link, everything stored is as by a full scan. */
  lemma BoundedTailEqualsFullScan(ts: seq<Tick>)
    requires Ticks(ts) && ts != []
    requires forall k :: 0 <= k <= |ts| ==> StandsAt(ts, k)
    ensures StoresFull(ts)
  {
    forall k | 0 <= k <= |ts| ensures CarriesAt(ts, k) {
      assert StandsAt(ts, k);
      if 1 < k && ts[k - 1].bounded {
        TicksPrefix(ts, k);
        StandingCarries(ts[..k]);
      }
    }
    CarriesToFull(ts, |ts|);
    assert ts[..|ts|] == ts;
  }

  ghost predicate StandsAt(ts: seq<Tick>, k: nat) { 1 < k <= |ts| && ts[k - 1].bounded ==> LapsStand(ts[..k]) }

  // ---------------------------------------------------------------- a lap that history takes back

  const TWO_LAPS: seq<Last> := [Last(1, 400, 200, map[], Unlinked), Last(1, 600, 200, map[], Unlinked)]
  const ON: seq<StateFact> := [StateFact(1, ON_TRACK)]

  /** Two LAST cells, at 400 and 600 seconds, and then the late red flag. */
  function LateRedTicks(): seq<Tick> {
    [Tick(1, TWO_LAPS, ON, SeenLive(), false), Tick(2, [], [], LateRed(), true)]
  }

  lemma TwoLapsJudged(quiet: Quiet, facts: seq<Last>)
    requires facts == TWO_LAPS
    ensures CountClean(Laps(quiet, facts, ON)) == if quiet(400, 600) then 1 else 0
  {
    var laps := Laps(quiet, facts, ON);
    assert Governing(ON, 1) == Some(ON_TRACK);
    assert laps[..1][..0] == [] && |laps[..1]| == 1;
    assert CountClean(laps[..1]) == 0;
  }

  lemma LateRedHistory()
    ensures HistoryAfter(LateRedTicks()[..1]) == HistoryAfter(LateRedTicks()) == History(TWO_LAPS, ON)
  {
    var ts := LateRedTicks();
    assert ts[..1][..0] == [] && HistoryAfter(ts[..1]) == History([] + TWO_LAPS, [] + ON);
    assert HistoryAfter(ts) == History(TWO_LAPS + [], ON + []);
  }

  lemma LateRedTicksAre()
    ensures Ticks(LateRedTicks())
  {
    LateRedPassesTheGuard();
  }

  lemma LateRedTail()
    requires HistoryAfter(LateRedTicks()) == History(TWO_LAPS, ON) && !QuietIn(LateRed(), 400, 600)
    ensures var h := Relinked(HistoryAfter(LateRedTicks()), LateRed());
            forall stored: Values :: stored.clean == 1 ==> TailValues(QuietOf(LateRed()), h, stored, 1).clean == 1
  {
    var h := Relinked(HistoryAfter(LateRedTicks()), LateRed());
    var quiet := QuietOf(LateRed());
    var laps := TailLaps(quiet, h);
    assert laps == Laps(quiet, h.facts, ON);
    TwoLapsJudged(quiet, h.facts);
    OldIs(laps, [], 1);
    assert laps + [] == laps;
  }

  lemma LateRedFull()
    ensures FullAfter(LateRedTicks()[..1]).clean == 1 && FullAfter(LateRedTicks()).clean == 0
  {
    LateRedPassesTheGuard();
    LateRedHistory();
    TwoLapsJudged(QuietOf(SeenLive()), Linked(TWO_LAPS, NoLink()));
    TwoLapsJudged(QuietOf(LateRed()), Linked(TWO_LAPS, NoLink()));
  }

  lemma LateRedStored()
    requires FullAfter(LateRedTicks()[..1]).clean == 1
    ensures StoredAfter(LateRedTicks()).clean == 1
  {
    LateRedPassesTheGuard();
    LateRedHistory();
    LateRedTail();
    var before := StoredAfter(LateRedTicks()[..1]);
    assert before == FullAfter(LateRedTicks()[..1]);
  }

  /** The stored count keeps the lap that crossed the red flag; a full scan does not count it. */
  lemma LateRedIsMissed()
    ensures var ts := LateRedTicks();
            Ticks(ts) && FullAfter(ts[..1]).clean == 1 && StoredAfter(ts).clean == 1 && FullAfter(ts).clean == 0
  {
    LateRedTicksAre();
    LateRedFull();
    LateRedStored();
  }
}
