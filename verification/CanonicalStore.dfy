/** The canonical tables of one heat, updated in place by each passing and by the rebuild. */
module CanonicalStore {
  import opened Common
  import opened CanonicalLaps
  import opened CanonicalMatch

  class CanonicalDb {
    var chains: map<string, Chain>
    var ledger: seq<Entry>

    function Contents(): Heat
      reads this
    {
      Heat(chains, ledger)
    }

    constructor ()
      ensures Contents() == Heat(map[], [])
    {
      chains, ledger := map[], [];
    }

    /** The passings of the lap that ends here, each with its role. */
    static method CollectPassings(passings: seq<Observation>, car: string, after: int, upTo: int, finish: nat, length: Option<int>)
      returns (found: seq<LapPassing>)
      ensures found == LapPassings(passings, car, after, upTo, finish, length)
    {
      found := [];
      for i := 0 to |passings|
        invariant found == LapPassings(passings[..i], car, after, upTo, finish, length)
      {
        var o := passings[i];
        assert passings[..i + 1][..i] == passings[..i];
        if o.tracked && o.car == Some(car) && o.provider.Some? && after < o.provider.value <= upTo {
          found := found + [LapPassing(o, RoleOf(o, finish, length))];
        }
      }
      assert passings[..|passings|] == passings;
    }

    /** The lap from the car's last boundary to this finish. */
    static method BuildLap(current: Chain, facts: Facts, o: Observation) returns (lap: Lap)
      requires AtLine(o) && current.boundaries != []
      ensures lap == NewLap(current, facts, o)
    {
      var boundaries := current.boundaries;
      var previous := boundaries[|boundaries| - 1];
      var kind := if o.inPit == Some(true) then PitFinish else MainFinish;
      var finish := Boundary(|boundaries|, kind, Some(o.id), None, o.provider.value, o.observedAt);
      var complete := previous.kind == HeatStart || boundaries[0].kind == HeatStart;
      var passings := CollectPassings(facts.passings, o.car.value, previous.provider, o.provider.value, o.id, TrackLength(facts.passings));
      var crossesPit := kind == PitFinish || exists p :: p in passings && p.observation.inPit == Some(true);
      lap := Lap(|boundaries|, if complete then Some(|boundaries|) else None, previous, finish,
                 o.provider.value - previous.provider, crossesPit, passings, SectorsOf(previous, finish, passings), None);
    }

    /** The first boundary if the car has none, then the boundary and the lap of a new finish. */
    static method RecordOn(chain: Chain, facts: Facts, o: Observation) returns (after: Option<Chain>)
      ensures after == Record(chain, facts, o)
    {
      if !o.tracked || o.car.None? || o.provider.None? || o.provider.value <= 0 || o.startMm != Some(0) {
        return Some(chain);
      }
      var current := if chain.boundaries == [] then Chain([FirstBoundary(facts, o)], chain.laps) else chain;
      var length := TrackLength(facts.passings);
      if length.Some? && o.stopMm == length && o.inPit == Some(false) {
        return Some(current);
      }
      if current.boundaries[|current.boundaries| - 1].provider >= o.provider.value {
        return Some(current);
      }
      if exists b :: b in current.boundaries && b.passing == Some(o.id) {
        return Some(current);
      }
      var lap := BuildLap(current, facts, o);
      after := if Storable(lap) then Some(Chain(current.boundaries + [lap.finish], current.laps + [lap])) else None;
    }

    /** A failed constraint undoes both inserts. */
    method RecordTrackerPassing(facts: Facts, o: Observation) returns (ok: bool)
      modifies this`chains
      ensures ok <==> o.car.None? || Record(ChainOf(old(chains), o.car.value), facts, o).Some?
      ensures chains == if ok && o.car.Some? then old(chains)[o.car.value := Record(ChainOf(old(chains), o.car.value), facts, o).value]
                        else old(chains)
    {
      if o.car.None? {
        return true;
      }
      var after := RecordOn(ChainOf(chains, o.car.value), facts, o);
      ok := after.Some?;
      if ok {
        chains := chains[o.car.value := after.value];
      }
    }

    method RebuildCanonicalHeat(facts: Facts) returns (ok: bool)
      modifies this
      ensures ok <==> Rebuild(facts, old(Contents())).Some?
      ensures Contents() == if ok then Rebuild(facts, old(Contents())).value else old(Contents())
    {
      var saved := chains;
      chains := map[];
      for n := 0 to |facts.passings|
        invariant RecordEach(facts, n) == Some(chains) && ledger == old(ledger)
      {
        var o := facts.passings[n];
        ok := RecordTrackerPassing(facts, o);
        if !ok {
          RecordStops(facts, n + 1, |facts.passings|);
          chains := saved;
          return;
        }
      }
      var rows: seq<Entry> := [];
      ghost var recorded := chains;
      for k := 0 to |ledger|
        invariant ledger == old(ledger)
        invariant Heat(chains, rows) == MatchAll(recorded, ledger[..k])
      {
        var e := ledger[k];
        assert ledger[..k + 1][..k] == ledger[..k];
        MatchForIs(chains, e);
        var m: Option<nat> := None;
        if e.reason != NotALap && e.cell.car in chains {
          m := MatchLastCell(chains[e.cell.car].laps, e.cell);
        }
        if m.None? {
          rows := rows + [e.(link := None)];
        } else {
          chains := Attached(chains, e.cell.car, m.value, e.cell.id);
          rows := rows + [Entry(e.cell, TrackerMatch, true, Some((e.cell.car, m.value)))];
        }
      }
      assert ledger[..|ledger|] == ledger;
      ledger := rows;
      ok := true;
    }

    static lemma {:induction false} RecordStops(facts: Facts, n: nat, m: nat)
      requires n <= m <= |facts.passings| && RecordEach(facts, n).None?
      ensures RecordEach(facts, m).None?
    {
      if n < m {
        RecordStops(facts, n, m - 1);
      }
    }
  }
}
