/** The sparse result grid: provider rows and columns, with headers that move at run time.

    A Python dict keeps insertion order and `apply_layout_update` iterates over it, so a row
    is a list of slots in insertion order with distinct column indexes, not a plain map. */
module ResultGrid {
  import opened Common

  /** A decoded JSON value whose objects keep their members in text order, because the order of
      a checkpoint decides the order of the cells it restores. */
  datatype OrderedJson =
    | Null
    | Bool(b: bool)
    | Int(i: int)
    | Text(s: string)
    | Array(items: seq<OrderedJson>)
    | Object(members: seq<Member>)
  datatype Member = Member(name: string, value: OrderedJson)

  /** A recognized field name; the alias table holds no empty one. */
  type Key = s: string | s != "" witness "position"

  /** One header of a layout: its source name, its parameter, and the recognized key, if any. */
  datatype Column = Column(name: string, parameter: Option<string>, key: Option<Key>)
  datatype Identity = Canonical(key: Key) | Raw(name: string, parameter: Option<string>)
  datatype Slot = Slot(column: nat, value: OrderedJson, presentation: seq<OrderedJson>)

  type Change = seq<OrderedJson>
  type Cells = seq<Slot>

  const METADATA_LIMIT: nat := 200

  /** The reducer state. `columns` is what the code keeps beside the layout. */
  datatype Grid = Grid(
    layout: Option<seq<Column>>,
    columns: seq<Column>,
    rows: map<nat, Cells>,
    metadata: seq<Change>,
    generation: nat,
    pending: bool,
    conflicts: map<Key, seq<nat>>)
  {
    predicate Ready() {
      layout.Some? && !pending && conflicts == map[]
    }
  }

  const EMPTY_GRID := Grid(None, [], map[], [], 0, true, map[])

  // ---------------------------------------------------------------- columns

  function ColumnsOf(layout: Option<seq<Column>>): seq<Column> {
    if layout.Some? then layout.value else []
  }

  function IdentityOf(c: Column): Identity {
    if c.key.Some? then Canonical(c.key.value) else Raw(c.name, c.parameter)
  }

  /** The indexes carrying an identity, in order. */
  function IndexesOf(columns: seq<Column>, id: Identity): (r: seq<nat>)
    ensures forall i: nat :: i in r <==> i < |columns| && IdentityOf(columns[i]) == id
    ensures forall a, b :: 0 <= a < b < |r| ==> r[a] < r[b]
  {
    if columns == [] then []
    else
      var n: nat := |columns| - 1;
      var rest := IndexesOf(columns[..n], id);
      assert forall i: nat :: i in rest ==> i < n;
      assert forall a :: 0 <= a < |rest| ==> rest[a] in rest;
      if IdentityOf(columns[n]) == id then rest + [n] else rest
  }

  function KeysOf(columns: seq<Column>): set<Key> {
    set c: Column | c in columns && c.key.Some? :: c.key.value
  }

  /** Canonical keys named by more than one header. */
  function SchemaConflicts(columns: seq<Column>): map<Key, seq<nat>> {
    map key | key in KeysOf(columns) && |IndexesOf(columns, Canonical(key))| > 1 :: IndexesOf(columns, Canonical(key))
  }

  /** Where a cell of a previous column goes under the next headers. */
  function Target(prev: seq<Column>, next: seq<Column>, column: nat): Option<nat> {
    if column >= |prev| then None
    else
      var candidates := IndexesOf(next, IdentityOf(prev[column]));
      if |candidates| == 1 then Some(candidates[0]) else None
  }

  // ---------------------------------------------------------------- cells

  ghost predicate Distinct(cells: Cells) {
    forall i, j :: 0 <= i < j < |cells| ==> cells[i].column != cells[j].column
  }

  function Get(cells: Cells, column: nat): Option<Slot> {
    if cells == [] then None
    else if cells[|cells| - 1].column == column then Some(cells[|cells| - 1])
    else Get(cells[..|cells| - 1], column)
  }

  /** `cells[column] = ...` on an ordered dict: overwrite in place, or append. */
  function Put(cells: Cells, slot: Slot): Cells {
    if cells == [] then [slot]
    else if cells[|cells| - 1].column == slot.column then cells[..|cells| - 1] + [slot]
    else if Get(cells[..|cells| - 1], slot.column).Some? then Put(cells[..|cells| - 1], slot) + [cells[|cells| - 1]]
    else cells + [slot]
  }

  function Remap(cells: Cells, prev: seq<Column>, next: seq<Column>): Cells {
    if cells == [] then []
    else
      var last := cells[|cells| - 1];
      var done := Remap(cells[..|cells| - 1], prev, next);
      match Target(prev, next, last.column)
      case None => done
      case Some(j) => Put(done, last.(column := j))
  }

  function RemapRows(rows: map<nat, Cells>, prev: seq<Column>, next: seq<Column>): map<nat, Cells> {
    map r | r in rows && Remap(rows[r], prev, next) != [] :: Remap(rows[r], prev, next)
  }

  // ---------------------------------------------------------------- the reducer's operations

  function SetLayout(g: Grid, layout: Option<seq<Column>>): Grid {
    Grid(layout, ColumnsOf(layout), map[], g.metadata, g.generation + 1, true, SchemaConflicts(ColumnsOf(layout)))
  }

  function ApplyLayoutUpdate(g: Grid, layout: Option<seq<Column>>): Grid {
    var next := ColumnsOf(layout);
    var conflicts := SchemaConflicts(next);
    var rows := if g.Ready() && conflicts == map[] then RemapRows(g.rows, g.columns, next) else map[];
    Grid(layout, next, rows, g.metadata, g.generation + 1, false, conflicts)
  }

  predicate IsCell(change: Change) {
    |change| >= 3 && change[0].Int? && change[1].Int? && change[0].i >= 0 && change[1].i >= 0
  }

  function ApplyChange(g: Grid, change: Change): Grid {
    if !IsCell(change) then g.(metadata := g.metadata + [change])
    else if !g.Ready() then g
    else
      var row, slot := change[0].i as nat, Slot(change[1].i as nat, change[2], change[3..]);
      g.(rows := g.rows[row := Put(if row in g.rows then g.rows[row] else [], slot)])
  }

  function FoldChanges(g: Grid, changes: seq<Change>): Grid {
    if changes == [] then g
    else ApplyChange(FoldChanges(g, changes[..|changes| - 1]), changes[|changes| - 1])
  }

  function LastMetadata(metadata: seq<Change>): seq<Change> {
    if |metadata| <= METADATA_LIMIT then metadata else metadata[|metadata| - METADATA_LIMIT..]
  }

  function ApplyChanges(g: Grid, changes: seq<Change>): Grid {
    var after := FoldChanges(g, changes);
    after.(metadata := LastMetadata(after.metadata))
  }

  /** `r_i`: replace the cells, and the layout when the payload carries one. */
  function ApplySnapshot(g: Grid, layout: Option<seq<Column>>, changes: seq<Change>): Grid {
    var g1 := if layout.Some? then SetLayout(g, layout) else g;
    var g2 := g1.(rows := map[], metadata := []);
    if g2.layout.None? then g2.(pending := true)
    else ApplyChanges(g2.(pending := false), changes)
  }

  function RemovedRows(changes: seq<Change>): set<nat> {
    set c: Change | c in changes && c != [] && c[0].Int? && c[0].i >= 0 :: c[0].i as nat
  }

  function RemoveRows(g: Grid, changes: seq<Change>): Grid {
    g.(rows := map r | r in g.rows && r !in RemovedRows(changes) :: g.rows[r])
  }

  /** The provider messages that reach the grid; `BadSnapshot` is an `r_i` whose payload is
      not an object. */
  datatype Message =
    | LayoutUpdate(layout: Option<seq<Column>>)
    | Snapshot(snapshotLayout: Option<seq<Column>>, cells: seq<Change>)
    | BadSnapshot
    | Changes(changes: seq<Change>)
    | Removals(removed: seq<Change>)

  function Apply(g: Grid, m: Message): Grid {
    match m
    case LayoutUpdate(layout) => ApplyLayoutUpdate(g, layout)
    case Snapshot(layout, cells) => ApplySnapshot(g, layout, cells)
    case BadSnapshot => g
    case Changes(changes) => ApplyChanges(g, changes)
    case Removals(removed) => RemoveRows(g, removed)
  }

  function ApplyAll(g: Grid, ms: seq<Message>): Grid {
    if ms == [] then g else Apply(ApplyAll(g, ms[..|ms| - 1]), ms[|ms| - 1])
  }

  // ---------------------------------------------------------------- cell lemmas

  lemma {:induction false} GetInCells(cells: Cells, column: nat)
    ensures Get(cells, column).Some? ==> Get(cells, column).value in cells && Get(cells, column).value.column == column
    ensures Get(cells, column).None? ==> forall s :: s in cells ==> s.column != column
  {
    if cells != [] {
      assert cells == cells[..|cells| - 1] + [cells[|cells| - 1]];
      GetInCells(cells[..|cells| - 1], column);
    }
  }

  lemma {:induction false} PutGets(cells: Cells, slot: Slot, column: nat)
    requires Distinct(cells)
    ensures Get(Put(cells, slot), column) == if column == slot.column then Some(slot) else Get(cells, column)
  {
    if cells != [] {
      var init, last := cells[..|cells| - 1], cells[|cells| - 1];
      PutGets(init, slot, column);
      GetInCells(init, slot.column);
      assert (init + [slot])[..|init|] == init && (cells + [slot])[..|cells|] == cells;
      assert (Put(init, slot) + [last])[..|Put(init, slot)|] == Put(init, slot);
      GetInCells(init, column);
    }
  }

  lemma {:induction false} PutDistinct(cells: Cells, slot: Slot)
    requires Distinct(cells)
    ensures Distinct(Put(cells, slot)) && Put(cells, slot) != []
    ensures forall s :: s in Put(cells, slot) ==> s == slot || s in cells
  {
    if cells != [] {
      var init, last := cells[..|cells| - 1], cells[|cells| - 1];
      assert cells == init + [last];
      PutDistinct(init, slot);
      GetInCells(init, slot.column);
      forall s | s in init ensures s.column != last.column {
        var k :| 0 <= k < |init| && init[k] == s;
        assert cells[k] == s;
      }
    }
  }

  /** The last slot, in insertion order, that the remap sends to index `j`. */
  function LastTo(cells: Cells, prev: seq<Column>, next: seq<Column>, j: nat): Option<Slot> {
    if cells == [] then None
    else if Target(prev, next, cells[|cells| - 1].column) == Some(j) then Some(cells[|cells| - 1].(column := j))
    else LastTo(cells[..|cells| - 1], prev, next, j)
  }

  lemma {:induction false} RemapGets(cells: Cells, prev: seq<Column>, next: seq<Column>, j: nat)
    ensures Distinct(Remap(cells, prev, next))
    ensures Get(Remap(cells, prev, next), j) == LastTo(cells, prev, next, j)
  {
    if cells != [] {
      var init, last := cells[..|cells| - 1], cells[|cells| - 1];
      RemapGets(init, prev, next, j);
      match Target(prev, next, last.column) {
        case None =>
        case Some(k) =>
          PutGets(Remap(init, prev, next), last.(column := k), j);
          PutDistinct(Remap(init, prev, next), last.(column := k));
      }
    }
  }

  // ---------------------------------------------------------------- layout updates keep meaning

  /** No two previous columns are sent to the same new index. */
  ghost predicate TargetsInjective(prev: seq<Column>, next: seq<Column>) {
    forall a: nat, b: nat :: a < b < |prev| && Target(prev, next, a).Some? ==> Target(prev, next, a) != Target(prev, next, b)
  }

  lemma {:induction false} LastToOnlySource(cells: Cells, prev: seq<Column>, next: seq<Column>, i: nat, j: nat)
    requires Distinct(cells) && Target(prev, next, i) == Some(j)
    requires forall k: nat :: Target(prev, next, k) == Some(j) ==> k == i
    ensures LastTo(cells, prev, next, j)
         == if Get(cells, i).Some? then Some(Get(cells, i).value.(column := j)) else None
  {
    if cells != [] {
      LastToOnlySource(cells[..|cells| - 1], prev, next, i, j);
    }
  }

  /** Every cell of a column whose identity is unique before and after moves with its header,
      and an empty such column stays empty. */
  lemma UniqueIdentityMoves(cells: Cells, prev: seq<Column>, next: seq<Column>, i: nat, j: nat)
    requires Distinct(cells) && i < |prev|
    requires IndexesOf(prev, IdentityOf(prev[i])) == [i] && IndexesOf(next, IdentityOf(prev[i])) == [j]
    ensures Get(Remap(cells, prev, next), j)
         == if Get(cells, i).Some? then Some(Get(cells, i).value.(column := j)) else None
  {
    var id := IdentityOf(prev[i]);
    forall k: nat | Target(prev, next, k) == Some(j) ensures k == i {
      assert j in IndexesOf(next, IdentityOf(prev[k]));
      assert j in IndexesOf(next, id);
      assert k in IndexesOf(prev, id);
    }
    RemapGets(cells, prev, next, j);
    LastToOnlySource(cells, prev, next, i, j);
  }

  /** The value a row shows for a canonical key, when one header carries the key. */
  function CanonicalValue(g: Grid, row: nat, key: Key): Option<OrderedJson> {
    var at := IndexesOf(g.columns, Canonical(key));
    if row !in g.rows || |at| != 1 then None
    else
      var slot := Get(g.rows[row], at[0]);
      if slot.Some? then Some(slot.value.value) else None
  }

  lemma NoConflictIsUnique(columns: seq<Column>, key: Key)
    requires SchemaConflicts(columns) == map[]
    ensures |IndexesOf(columns, Canonical(key))| <= 1
  {
    var at := IndexesOf(columns, Canonical(key));
    assert key in KeysOf(columns) ==> key !in SchemaConflicts(columns).Keys ==> |at| <= 1;
    if at != [] {
      assert at[0] in at && columns[at[0]].key == Some(key);
    }
  }

  /** A layout update to an unambiguous layout keeps every canonical key's value that still
      has a header, drops the others, and shows nothing it did not show before. */
  lemma LayoutUpdateKeepsCanonical(g: Grid, layout: seq<Column>, row: nat, key: Key)
    requires Wf(g) && g.Ready() && SchemaConflicts(layout) == map[]
    ensures CanonicalValue(ApplyLayoutUpdate(g, Some(layout)), row, key)
         == if IndexesOf(layout, Canonical(key)) == [] then None else CanonicalValue(g, row, key)
  {
    NoConflictIsUnique(g.columns, key);
    NoConflictIsUnique(layout, key);
    var before, after := IndexesOf(g.columns, Canonical(key)), IndexesOf(layout, Canonical(key));
    if after != [] && row in g.rows {
      var j := after[0];
      RemapGets(g.rows[row], g.columns, layout, j);
      assert j in after;
      if before != [] {
        assert before[0] in before;
        UniqueIdentityMoves(g.rows[row], g.columns, layout, before[0], j);
      } else {
        NothingSentTo(g.rows[row], g.columns, layout, Canonical(key), j);
      }
      GetInCells(Remap(g.rows[row], g.columns, layout), j);
    }
  }

  lemma {:induction false} NothingSentTo(cells: Cells, prev: seq<Column>, next: seq<Column>, id: Identity, j: nat)
    requires j < |next| && IdentityOf(next[j]) == id && IndexesOf(prev, id) == []
    ensures LastTo(cells, prev, next, j).None?
  {
    if cells != [] {
      var last := cells[|cells| - 1];
      NothingSentTo(cells[..|cells| - 1], prev, next, id, j);
      if last.column < |prev| {
        assert last.column !in IndexesOf(prev, id);
        assert j !in IndexesOf(next, IdentityOf(prev[last.column]));
      }
    }
  }

  /** `moved` is `s` under its own identity's one new index. */
  ghost predicate MovedFrom(s: Slot, moved: Slot, prev: seq<Column>, next: seq<Column>) {
    && s.column < |prev|
    && IndexesOf(next, IdentityOf(prev[s.column])) == [moved.column]
    && moved == s.(column := moved.column)
  }

  /** Nothing is invented: each remapped cell is an old cell of the same identity, and that
      identity names exactly one new header. */
  lemma {:induction false} RemapInventsNothing(cells: Cells, prev: seq<Column>, next: seq<Column>, j: nat)
    requires Get(Remap(cells, prev, next), j).Some?
    ensures exists s :: s in cells && MovedFrom(s, Get(Remap(cells, prev, next), j).value, prev, next)
  {
    RemapGets(cells, prev, next, j);
    var last := cells[|cells| - 1];
    if Target(prev, next, last.column) == Some(j) {
      var candidates := IndexesOf(next, IdentityOf(prev[last.column]));
      assert candidates == [j] && j in candidates;
      assert last in cells;
    } else {
      RemapGets(cells[..|cells| - 1], prev, next, j);
      RemapInventsNothing(cells[..|cells| - 1], prev, next, j);
    }
  }

  // ---------------------------------------------------------------- reachable grids

  /** What every reachable grid satisfies: derived fields agree with the layout, cells only
      when the schema is ready, bounded metadata, no empty row. */
  ghost predicate Wf(g: Grid) {
    && g.columns == ColumnsOf(g.layout)
    && g.conflicts == SchemaConflicts(g.columns)
    && (g.rows != map[] ==> g.Ready())
    && (forall r :: r in g.rows ==> g.rows[r] != [] && Distinct(g.rows[r]))
    && |g.metadata| <= METADATA_LIMIT
    && (g.layout.None? ==> g.rows == map[])
  }

  /** `Wf` without the bound that only `ApplyChanges` restores. */
  ghost predicate Shaped(g: Grid) { Wf(g.(metadata := [])) }

  lemma {:induction false} FoldShaped(g: Grid, changes: seq<Change>)
    requires Shaped(g)
    ensures Shaped(FoldChanges(g, changes))
    ensures FoldChanges(g, changes).layout == g.layout && FoldChanges(g, changes).pending == g.pending
    ensures FoldChanges(g, changes).generation == g.generation
    ensures FoldChanges(g, changes).columns == g.columns && FoldChanges(g, changes).conflicts == g.conflicts
  {
    if changes != [] {
      var before := FoldChanges(g, changes[..|changes| - 1]);
      var change := changes[|changes| - 1];
      FoldShaped(g, changes[..|changes| - 1]);
      if IsCell(change) && before.Ready() {
        var row := change[0].i as nat;
        PutDistinct(if row in before.rows then before.rows[row] else [], Slot(change[1].i as nat, change[2], change[3..]));
      }
    }
  }

  lemma ApplyKeepsWf(g: Grid, m: Message)
    requires Wf(g)
    ensures Wf(Apply(g, m))
  {
    match m {
      case LayoutUpdate(layout) =>
        forall r | r in g.rows ensures Distinct(Remap(g.rows[r], g.columns, ColumnsOf(layout))) {
          RemapGets(g.rows[r], g.columns, ColumnsOf(layout), 0);
        }
        if layout.None? {
          forall r | r in g.rows ensures Remap(g.rows[r], g.columns, []) == [] {
            RemapToNothing(g.rows[r], g.columns);
          }
        }
      case Snapshot(layout, cells) =>
        var g1 := if layout.Some? then SetLayout(g, layout) else g;
        FoldShaped(g1.(rows := map[], metadata := [], pending := false), cells);
      case Changes(changes) => FoldShaped(g, changes);
      case _ =>
    }
  }

  lemma {:induction false} RemapToNothing(cells: Cells, prev: seq<Column>)
    ensures Remap(cells, prev, []) == []
  {
    if cells != [] {
      RemapToNothing(cells[..|cells| - 1], prev);
    }
  }

  lemma {:induction false} ReachableIsWf(ms: seq<Message>)
    ensures Wf(ApplyAll(EMPTY_GRID, ms))
  {
    if ms != [] {
      ReachableIsWf(ms[..|ms| - 1]);
      ApplyKeepsWf(ApplyAll(EMPTY_GRID, ms[..|ms| - 1]), ms[|ms| - 1]);
    }
  }

  // ---------------------------------------------------------------- what the cells mean

  /** The newest change of a cell, as the cell it leaves. */
  function LastCell(changes: seq<Change>, row: nat, column: nat): Option<Slot> {
    if changes == [] then None
    else
      var last := changes[|changes| - 1];
      if IsCell(last) && last[0].i == row && last[1].i == column then Some(Slot(column, last[2], last[3..]))
      else LastCell(changes[..|changes| - 1], row, column)
  }

  function CellAt(g: Grid, row: nat, column: nat): Option<Slot> {
    if row in g.rows then Get(g.rows[row], column) else None
  }

  /** Under a ready schema each cell holds its newest change, or what it held; under any other
      no change reaches a cell. */
  lemma {:induction false} ChangesAreLastWriter(g: Grid, changes: seq<Change>, row: nat, column: nat)
    requires Shaped(g)
    ensures CellAt(FoldChanges(g, changes), row, column)
         == if g.Ready() && LastCell(changes, row, column).Some? then LastCell(changes, row, column) else CellAt(g, row, column)
  {
    if changes != [] {
      var init, change := changes[..|changes| - 1], changes[|changes| - 1];
      ChangesAreLastWriter(g, init, row, column);
      FoldShaped(g, init);
      var before := FoldChanges(g, init);
      if IsCell(change) && before.Ready() && change[0].i == row {
        PutGets(if row in before.rows then before.rows[row] else [], Slot(change[1].i, change[2], change[3..]), column);
      }
    }
  }

  /** A full snapshot shows exactly its own cells, whatever the grid held; it shows none while
      its headers are ambiguous or no layout is known. */
  lemma SnapshotShowsItsCells(g: Grid, layout: Option<seq<Column>>, changes: seq<Change>, row: nat, column: nat)
    requires Wf(g)
    ensures CellAt(ApplySnapshot(g, layout, changes), row, column)
         == if ApplySnapshot(g, layout, changes).Ready() then LastCell(changes, row, column) else None
  {
    var g1 := if layout.Some? then SetLayout(g, layout) else g;
    var start := g1.(rows := map[], metadata := [], pending := false);
    ChangesAreLastWriter(start, changes, row, column);
    FoldShaped(start, changes);
  }

  /** `r_d` takes away the rows its entries name, and no other. */
  lemma RemovalsRemoveExactly(g: Grid, changes: seq<Change>, row: nat)
    ensures var after := RemoveRows(g, changes);
            (row in after.rows <==> row in g.rows && forall i :: 0 <= i < |changes| && changes[i] != [] ==> changes[i][0] != Int(row))
            && (row in after.rows ==> after.rows[row] == g.rows[row])
  {
    if i :| 0 <= i < |changes| && changes[i] != [] && changes[i][0] == Int(row) {
      assert changes[i] in changes && changes[i][0].i == row;
    }
  }

  function NotCells(changes: seq<Change>): seq<Change> {
    if changes == [] then []
    else
      var init, last := NotCells(changes[..|changes| - 1]), changes[|changes| - 1];
      if IsCell(last) then init else init + [last]
  }

  lemma {:induction false} FoldMetadata(g: Grid, changes: seq<Change>)
    ensures FoldChanges(g, changes).metadata == g.metadata + NotCells(changes)
  {
    if changes != [] {
      FoldMetadata(g, changes[..|changes| - 1]);
    }
  }

  lemma CutThenAppend(kept: seq<Change>, more: seq<Change>)
    ensures LastMetadata(LastMetadata(kept) + more) == LastMetadata(kept + more)
  {
    var k := |kept| - |LastMetadata(kept)|;
    assert LastMetadata(kept) == kept[k..];
    var cut := kept[k..] + more;
    assert (kept + more)[k..] == cut;
    if |cut| > METADATA_LIMIT {
      assert cut[|cut| - METADATA_LIMIT..] == (kept + more)[k..][|cut| - METADATA_LIMIT..];
    } else {
      assert k == 0 || |kept + more| - METADATA_LIMIT == k;
    }
  }

  /** Cutting to the newest 200 after each batch keeps the newest 200 of all. */
  lemma MetadataIsNewest(g: Grid, xs: seq<Change>, ys: seq<Change>)
    ensures var all := g.metadata + NotCells(xs) + NotCells(ys);
            ApplyChanges(ApplyChanges(g, xs), ys).metadata == if |all| <= 200 then all else all[|all| - 200..]
  {
    FoldMetadata(g, xs);
    FoldMetadata(ApplyChanges(g, xs), ys);
    CutThenAppend(g.metadata + NotCells(xs), NotCells(ys));
  }
}
