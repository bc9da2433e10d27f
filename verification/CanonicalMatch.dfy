/** LAST cells attached to canonical laps by exact duration, and the rebuild of one heat. */
module CanonicalMatch {
  import opened Common
  import opened CanonicalLaps

  const LAST_MATCH_WINDOW_US: int := 5_000_000

  /** `duration` is the parsed source duration, absent below one second or when open-ended. */
  datatype Cell = Cell(id: nat, car: string, duration: Option<int>, observedAt: int)

  datatype Reason = SourceLapBoundary | DirectFirst | DirectChanged | AmbiguousEqual | TrackerMatch | NotALap

  /** One row of the LAST ledger, in source order. `link` names a lap by car and position. */
  datatype Entry = Entry(cell: Cell, reason: Reason, confirmed: bool, link: Option<(string, nat)>)

  datatype Heat = Heat(chains: map<string, Chain>, ledger: seq<Entry>)

  // ---------------------------------------------------------------- matching one cell

  predicate Qualifies(lap: Lap, cell: Cell) {
    && cell.duration == Some(lap.duration)
    && Distance(lap.finish.observedAt, cell.observedAt) <= LAST_MATCH_WINDOW_US
  }

  predicate Pending(lap: Lap, cell: Cell) { lap.last.None? && Qualifies(lap, cell) }

  /** `match_last_cell`: the one pending lap of the car that fits, if there is exactly one. */
  method MatchLastCell(laps: seq<Lap>, cell: Cell) returns (match_: Option<nat>)
    ensures match_ == Match(laps, cell)
  {
    match_ := None;
    var found := 0;
    for i := 0 to |laps|
      invariant found == 0 ==> match_ == None && forall k :: 0 <= k < i ==> !Pending(laps[k], cell)
      invariant found == 1 ==> match_.Some? && match_.value < i && Pending(laps[match_.value], cell)
                               && forall k :: 0 <= k < i && k != match_.value ==> !Pending(laps[k], cell)
      invariant found >= 2 ==> exists j, k :: 0 <= j < k < i && Pending(laps[j], cell) && Pending(laps[k], cell)
      invariant found >= 0
    {
      if Pending(laps[i], cell) {
        found := found + 1;
        if found == 1 { match_ := Some(i); }
      }
    }
    MatchExactly(laps, cell);
    if found != 1 {
      match_ := None;
    } else {
      OnlyPending(laps, cell, match_.value);
    }
  }

  predicate OneIsPending(laps: seq<Lap>, cell: Cell, i: nat) {
    i < |laps| && Pending(laps[i], cell) && forall k :: 0 <= k < |laps| && k != i ==> !Pending(laps[k], cell)
  }

  function Match(laps: seq<Lap>, cell: Cell): Option<nat> {
    if exists i :: 0 <= i < |laps| && OneIsPending(laps, cell, i) then
      var i :| 0 <= i < |laps| && OneIsPending(laps, cell, i);
      Some(i)
    else None
  }

  lemma MatchExactly(laps: seq<Lap>, cell: Cell)
    ensures forall i: nat :: Match(laps, cell) == Some(i) <==> OneIsPending(laps, cell, i)
  {
  }

  lemma OnlyPending(laps: seq<Lap>, cell: Cell, i: nat)
    requires OneIsPending(laps, cell, i)
    ensures Match(laps, cell) == Some(i)
  {
  }

  // ---------------------------------------------------------------- the rebuild

  /** Every passing of the heat, recorded with all facts at hand; `None` if a constraint fails. */
  function RecordEach(facts: Facts, n: nat): Option<map<string, Chain>>
    requires n <= |facts.passings|
  {
    if n == 0 then Some(map[])
    else
      var before, o := RecordEach(facts, n - 1), facts.passings[n - 1];
      if before.None? || o.car.None? then before
      else
        var after := Record(ChainOf(before.value, o.car.value), facts, o);
        if after.None? then None else Some(before.value[o.car.value := after.value])
  }

  function Attached(chains: map<string, Chain>, car: string, i: nat, cell: nat): map<string, Chain>
    requires car in chains && i < |chains[car].laps|
  {
    var c := chains[car];
    chains[car := c.(laps := c.laps[i := c.laps[i].(last := Some(cell))])]
  }

  function MatchFor(chains: map<string, Chain>, e: Entry): Option<nat> {
    if e.reason == NotALap || e.cell.car !in chains then None else Match(chains[e.cell.car].laps, e.cell)
  }

  lemma MatchForIs(chains: map<string, Chain>, e: Entry)
    ensures var m := MatchFor(chains, e);
            m.Some? ==> e.cell.car in chains && OneIsPending(chains[e.cell.car].laps, e.cell, m.value)
    ensures MatchFor(chains, e).None? && e.reason != NotALap && e.cell.car in chains ==>
      forall i: nat :: !OneIsPending(chains[e.cell.car].laps, e.cell, i)
  {
    if e.cell.car in chains {
      MatchExactly(chains[e.cell.car].laps, e.cell);
    }
  }

  /** One ledger row: matched rows become confirmed and linked, the others stay, unlinked. */
  function MatchEntry(h: Heat, e: Entry): Heat {
    MatchForIs(h.chains, e);
    var m := MatchFor(h.chains, e);
    if m.None? then Heat(h.chains, h.ledger + [e.(link := None)])
    else Heat(Attached(h.chains, e.cell.car, m.value, e.cell.id), h.ledger + [Entry(e.cell, TrackerMatch, true, Some((e.cell.car, m.value)))])
  }

  function MatchAll(chains: map<string, Chain>, ledger: seq<Entry>): Heat {
    if ledger == [] then Heat(chains, [])
    else MatchEntry(MatchAll(chains, ledger[..|ledger| - 1]), ledger[|ledger| - 1])
  }

  /** `rebuild_canonical_heat`: deleting the boundaries deletes the laps and clears their links. */
  function Rebuild(facts: Facts, h: Heat): Option<Heat> {
    var chains := RecordEach(facts, |facts.passings|);
    if chains.None? then None else Some(MatchAll(chains.value, h.ledger))
  }

  // ---------------------------------------------------------------- rebuilding again

  /** Rows that the matching treats alike. */
  ghost predicate SameInput(a: seq<Entry>, b: seq<Entry>) {
    |a| == |b| && forall k :: 0 <= k < |a| ==>
      && a[k].cell == b[k].cell
      && (a[k].reason == NotALap <==> b[k].reason == NotALap)
  }

  lemma {:induction false} MatchAllRows(chains: map<string, Chain>, ledger: seq<Entry>)
    ensures SameInput(MatchAll(chains, ledger).ledger, ledger)
  {
    if ledger != [] {
      MatchAllRows(chains, ledger[..|ledger| - 1]);
    }
  }

  /** A linked row is a confirmed lap of exactly its duration, seen at most five seconds away;
      any other row keeps its classification. */
  ghost predicate RowSettled(h: Heat, was: Entry, now: Entry) {
    && now.cell == was.cell
    && (now.link.None? ==> now == was.(link := None))
    && (now.link.Some? ==>
         && now.confirmed && now.reason == TrackerMatch && LapAt(h, now.link.value.0, now.link.value.1)
         && var lap := h.chains[now.link.value.0].laps[now.link.value.1];
            now.link.value.0 == now.cell.car && now.cell.duration == Some(lap.duration)
            && lap.finish.observedAt <= now.cell.observedAt + 5_000_000 && now.cell.observedAt <= lap.finish.observedAt + 5_000_000)
  }

  lemma {:induction false} RowsSettle(chains: map<string, Chain>, ledger: seq<Entry>, k: nat)
    requires k < |ledger|
    ensures var h := MatchAll(chains, ledger);
            |h.ledger| == |ledger| && RowSettled(h, ledger[k], h.ledger[k])
  {
    var init := ledger[..|ledger| - 1];
    MatchAllRows(chains, ledger);
    MatchAllRows(chains, init);
    var before := MatchAll(chains, init);
    if k < |init| {
      RowsSettle(chains, init, k);
      RowStaysSettled(before, ledger[|ledger| - 1], ledger[k], k);
    } else {
      NewRowSettles(before, ledger[k]);
    }
  }

  lemma RowStaysSettled(h: Heat, e: Entry, was: Entry, k: nat)
    requires k < |h.ledger| && RowSettled(h, was, h.ledger[k])
    ensures k < |MatchEntry(h, e).ledger| && RowSettled(MatchEntry(h, e), was, MatchEntry(h, e).ledger[k])
  {
    MatchEntryExtends(h, e);
    assert MatchEntry(h, e).ledger[k] == h.ledger[k];
  }

  lemma NewRowSettles(h: Heat, e: Entry)
    ensures RowSettled(MatchEntry(h, e), e, MatchEntry(h, e).ledger[|h.ledger|])
  {
    MatchForIs(h.chains, e);
  }

  lemma {:induction false} MatchAllAgain(chains: map<string, Chain>, ledger: seq<Entry>)
    ensures MatchAll(chains, MatchAll(chains, ledger).ledger) == MatchAll(chains, ledger)
  {
    if ledger != [] {
      var init := ledger[..|ledger| - 1];
      var once := MatchAll(chains, ledger).ledger;
      MatchAllAgain(chains, init);
      MatchAllRows(chains, init);
      assert once[..|once| - 1] == MatchAll(chains, init).ledger;
    }
  }

  /** Rebuilding twice leaves what rebuilding once leaves. */
  lemma RebuildIsIdempotent(facts: Facts, h: Heat)
    requires Rebuild(facts, h).Some?
    ensures Rebuild(facts, Rebuild(facts, h).value) == Rebuild(facts, h)
  {
    MatchAllAgain(RecordEach(facts, |facts.passings|).value, h.ledger);
  }

  // ---------------------------------------------------------------- links

  predicate DistinctCells(ledger: seq<Entry>) {
    forall j, k :: 0 <= j < k < |ledger| ==> ledger[j].cell.id != ledger[k].cell.id
  }

  predicate LapAt(h: Heat, car: string, i: nat) { car in h.chains && i < |h.chains[car].laps| }

  /** Row `k` is linked to this lap of its own car, whose duration it has and which it is near. */
  predicate LinkHolds(h: Heat, k: nat, car: string, i: nat)
    requires k < |h.ledger|
  {
    && car == h.ledger[k].cell.car && LapAt(h, car, i)
    && h.chains[car].laps[i].last == Some(h.ledger[k].cell.id)
    && Qualifies(h.chains[car].laps[i], h.ledger[k].cell)
  }

  /** A lap that qualifies for row `k` was taken by an earlier row. */
  ghost predicate TakenBefore(h: Heat, k: nat, car: string, i: nat)
    requires k < |h.ledger| && LapAt(h, car, i)
  {
    exists j :: 0 <= j < k && h.ledger[j].link == Some((car, i))
  }

  /** Every other lap that fits row `k` had been taken when row `k` was matched. */
  ghost predicate Unambiguous(h: Heat, k: nat, i: nat)
    requires k < |h.ledger|
  {
    var cell := h.ledger[k].cell;
    forall other: nat :: other != i && LapAt(h, cell.car, other) && Qualifies(h.chains[cell.car].laps[other], cell)
      ==> TakenBefore(h, k, cell.car, other)
  }

  /** The lap was the one pending lap that fitted the row. */
  ghost predicate OnlyFree(h: Heat, k: nat, i: nat)
    requires k < |h.ledger|
  {
    var cell := h.ledger[k].cell;
    LapAt(h, cell.car, i) && Qualifies(h.chains[cell.car].laps[i], cell) && !TakenBefore(h, k, cell.car, i) && Unambiguous(h, k, i)
  }

  /** A row is linked exactly to the one lap that was free and fitted. */
  ghost predicate RowLinked(h: Heat, k: nat)
    requires k < |h.ledger|
  {
    var e := h.ledger[k];
    && (e.link.Some? ==> e.reason != NotALap && LinkHolds(h, k, e.link.value.0, e.link.value.1))
    && (e.reason != NotALap ==> forall i: nat :: e.link == Some((e.cell.car, i)) <==> OnlyFree(h, k, i))
  }

  ghost predicate LapLinked(h: Heat, car: string, i: nat)
    requires LapAt(h, car, i)
  {
    h.chains[car].laps[i].last.Some? ==>
      exists k :: 0 <= k < |h.ledger| && h.ledger[k].link == Some((car, i))
                  && h.chains[car].laps[i].last == Some(h.ledger[k].cell.id)
  }

  ghost predicate Linked(h: Heat) {
    && (forall k :: 0 <= k < |h.ledger| ==> RowLinked(h, k))
    && (forall car, i: nat :: LapAt(h, car, i) ==> LapLinked(h, car, i))
  }

  ghost predicate NoneAttached(chains: map<string, Chain>) {
    forall car, i :: car in chains && 0 <= i < |chains[car].laps| ==> chains[car].laps[i].last.None?
  }

  lemma {:induction false} RecordedUnattached(facts: Facts, n: nat)
    requires n <= |facts.passings| && RecordEach(facts, n).Some?
    ensures NoneAttached(RecordEach(facts, n).value)
  {
    if n > 0 {
      RecordedUnattached(facts, n - 1);
      var before, o := RecordEach(facts, n - 1).value, facts.passings[n - 1];
      if o.car.Some? {
        RecordAttachesNothing(ChainOf(before, o.car.value), facts, o);
      }
    }
  }

  lemma RecordAttachesNothing(c: Chain, facts: Facts, o: Observation)
    requires forall i :: 0 <= i < |c.laps| ==> c.laps[i].last.None?
    ensures Record(c, facts, o).Some? ==> forall i :: 0 <= i < |Record(c, facts, o).value.laps| ==> Record(c, facts, o).value.laps[i].last.None?
  {
  }

  /** Attaching a lap leaves every lap's other fields, and every other lap. */
  lemma AttachedLaps(chains: map<string, Chain>, car: string, i: nat, cell: nat)
    requires car in chains && i < |chains[car].laps|
    ensures var after := Attached(chains, car, i, cell);
            && after.Keys == chains.Keys
            && forall c, k :: c in chains && 0 <= k < |chains[c].laps| ==>
                 && k < |after[c].laps|
                 && after[c].laps[k] == if c == car && k == i then chains[c].laps[k].(last := Some(cell)) else chains[c].laps[k]
    ensures forall c :: c in chains ==> |Attached(chains, car, i, cell)[c].laps| == |chains[c].laps|
  {
  }

  lemma TakenIffAttached(h: Heat, car: string, i: nat)
    requires Linked(h) && LapAt(h, car, i)
    ensures h.chains[car].laps[i].last.Some? <==> exists j :: 0 <= j < |h.ledger| && h.ledger[j].link == Some((car, i))
  {
    assert LapLinked(h, car, i);
    forall j | 0 <= j < |h.ledger| && h.ledger[j].link == Some((car, i)) ensures h.chains[car].laps[i].last.Some? {
      assert RowLinked(h, j);
    }
  }

  /** `g` extends `h` by one row, changing no lap but its attachment. */
  ghost predicate Extends(h: Heat, g: Heat) {
    && |g.ledger| == |h.ledger| + 1 && g.ledger[..|h.ledger|] == h.ledger
    && (forall car, i: nat :: LapAt(g, car, i) <==> LapAt(h, car, i))
    && (forall car, i: nat :: LapAt(h, car, i) ==>
          g.chains[car].laps[i] == h.chains[car].laps[i].(last := g.chains[car].laps[i].last))
    && (forall car, i: nat :: LapAt(h, car, i) && h.chains[car].laps[i].last.Some? ==>
          g.chains[car].laps[i].last == h.chains[car].laps[i].last)
  }

  lemma RowStays(h: Heat, g: Heat, k: nat)
    requires Extends(h, g) && k < |h.ledger| && RowLinked(h, k)
    ensures RowLinked(g, k)
  {
    var e := h.ledger[k];
    assert forall j :: 0 <= j < |h.ledger| ==> g.ledger[j] == h.ledger[j];
    forall car, i: nat | LapAt(h, car, i) ensures TakenBefore(g, k, car, i) <==> TakenBefore(h, k, car, i) {
    }
    forall i: nat ensures OnlyFree(g, k, i) <==> OnlyFree(h, k, i) {
      assert Unambiguous(g, k, i) <==> Unambiguous(h, k, i);
    }
  }

  lemma MatchEntryExtends(h: Heat, e: Entry)
    ensures Extends(h, MatchEntry(h, e))
  {
    MatchForIs(h.chains, e);
    var m := MatchFor(h.chains, e);
    if m.Some? {
      AttachedLaps(h.chains, e.cell.car, m.value, e.cell.id);
    }
  }

  /** For the row just matched: pending means fitting and not taken. */
  lemma NewRowLinked(h: Heat, e: Entry)
    requires Linked(h)
    ensures RowLinked(MatchEntry(h, e), |h.ledger|)
  {
    var g, k := MatchEntry(h, e), |h.ledger|;
    var car := e.cell.car;
    MatchForIs(h.chains, e);
    MatchEntryExtends(h, e);
    forall i: nat | LapAt(h, car, i) ensures TakenBefore(g, k, car, i) <==> h.chains[car].laps[i].last.Some? {
      TakenIffAttached(h, car, i);
      assert forall j :: 0 <= j < k ==> g.ledger[j] == h.ledger[j];
    }
    if car in h.chains {
      MatchExactly(h.chains[car].laps, e.cell);
      forall i: nat ensures OnlyFree(g, k, i) <==> OneIsPending(h.chains[car].laps, e.cell, i) {
        FreeIsPending(h, g, k, e.cell, i);
      }
    }
    if MatchFor(h.chains, e).Some? {
      AttachedLaps(h.chains, car, MatchFor(h.chains, e).value, e.cell.id);
    }
  }

  lemma FreeIsPending(h: Heat, g: Heat, k: nat, cell: Cell, i: nat)
    requires Extends(h, g) && k == |h.ledger| && g.ledger[k].cell == cell && cell.car in h.chains
    requires forall x: nat :: LapAt(h, cell.car, x) ==> (TakenBefore(g, k, cell.car, x) <==> h.chains[cell.car].laps[x].last.Some?)
    ensures OnlyFree(g, k, i) <==> OneIsPending(h.chains[cell.car].laps, cell, i)
  {
    var laps := h.chains[cell.car].laps;
    if LapAt(h, cell.car, i) {
      assert Unambiguous(g, k, i) <==> forall x: nat :: x != i && LapAt(h, cell.car, x) && Qualifies(laps[x], cell) ==> laps[x].last.Some?;
    }
  }

  lemma LapStays(h: Heat, e: Entry, car: string, i: nat)
    requires Linked(h) && LapAt(h, car, i)
    ensures LapAt(MatchEntry(h, e), car, i) && LapLinked(MatchEntry(h, e), car, i)
  {
    var g := MatchEntry(h, e);
    MatchForIs(h.chains, e);
    MatchEntryExtends(h, e);
    assert LapLinked(h, car, i);
    if h.chains[car].laps[i].last.Some? {
      var k :| 0 <= k < |h.ledger| && h.ledger[k].link == Some((car, i)) && h.chains[car].laps[i].last == Some(h.ledger[k].cell.id);
      assert g.ledger[k] == h.ledger[k];
    } else if g.chains[car].laps[i].last.Some? {
      AttachedLaps(h.chains, e.cell.car, MatchFor(h.chains, e).value, e.cell.id);
      assert g.ledger[|h.ledger|].link == Some((car, i));
    }
  }

  lemma {:induction false} MatchedIsLinked(chains: map<string, Chain>, ledger: seq<Entry>)
    requires NoneAttached(chains)
    ensures Linked(MatchAll(chains, ledger))
  {
    if ledger != [] {
      var h, e := MatchAll(chains, ledger[..|ledger| - 1]), ledger[|ledger| - 1];
      MatchedIsLinked(chains, ledger[..|ledger| - 1]);
      var g := MatchEntry(h, e);
      MatchEntryExtends(h, e);
      forall k | 0 <= k < |g.ledger| ensures RowLinked(g, k) {
        if k < |h.ledger| {
          assert RowLinked(h, k);
          RowStays(h, g, k);
        } else {
          NewRowLinked(h, e);
        }
      }
      forall car, i: nat | LapAt(g, car, i) ensures LapLinked(g, car, i) {
        LapStays(h, e, car, i);
      }
    }
  }

  /** After a rebuild: every link joins a cell to a lap of its own car, of exactly its duration,
      at most five seconds apart; a cell is linked exactly when one such lap was still free,
      never while two were; and no two cells share a lap. */
  lemma RebuildLinks(facts: Facts, h: Heat)
    requires Rebuild(facts, h).Some? && DistinctCells(h.ledger)
    ensures Linked(Rebuild(facts, h).value)
    ensures var g := Rebuild(facts, h).value;
            forall j, k :: 0 <= j < k < |g.ledger| && g.ledger[j].link.Some? ==> g.ledger[j].link != g.ledger[k].link
    ensures var g := Rebuild(facts, h).value;
            |g.ledger| == |h.ledger| && forall k :: 0 <= k < |h.ledger| ==> RowSettled(g, h.ledger[k], g.ledger[k])
  {
    MatchAllRows(RecordEach(facts, |facts.passings|).value, h.ledger);
    forall k | 0 <= k < |h.ledger|
      ensures RowSettled(Rebuild(facts, h).value, h.ledger[k], Rebuild(facts, h).value.ledger[k])
    {
      RowsSettle(RecordEach(facts, |facts.passings|).value, h.ledger, k);
    }
    RecordedUnattached(facts, |facts.passings|);
    var chains := RecordEach(facts, |facts.passings|).value;
    MatchedIsLinked(chains, h.ledger);
    var g := MatchAll(chains, h.ledger);
    forall j, k | 0 <= j < k < |g.ledger| && g.ledger[j].link.Some? ensures g.ledger[j].link != g.ledger[k].link {
      assert RowLinked(g, j) && RowLinked(g, k);
      assert g.ledger[j].cell == h.ledger[j].cell && g.ledger[k].cell == h.ledger[k].cell;
    }
  }
}
