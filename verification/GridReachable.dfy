/** Which grids a run can reach, and which checkpoint documents restore one of them. */
module GridReachable {
  import opened Common
  import opened ResultGrid
  import opened GridCheckpoint
  import opened GridOrder

  ghost predicate Reachable(g: Grid) {
    exists ms :: ApplyAll(EMPTY_GRID, ms) == g
  }

  /** Beside `Wf`: a pending schema has no layout yet, a grid that never had one is still
      pending, and no metadata entry is a cell. */
  ghost predicate Grown(g: Grid) {
    && (g.pending ==> g.layout.None?)
    && (g.generation == 0 ==> g.pending)
    && (forall c :: c in g.metadata ==> !IsCell(c))
  }

  // ---------------------------------------------------------------- every run

  lemma {:induction false} NotCellsAreNot(changes: seq<Change>)
    ensures forall c :: c in NotCells(changes) ==> !IsCell(c) && c in changes
  {
    if changes != [] {
      assert changes == changes[..|changes| - 1] + [changes[|changes| - 1]];
      NotCellsAreNot(changes[..|changes| - 1]);
    }
  }

  lemma ChangesKeepGrown(g: Grid, changes: seq<Change>)
    requires Wf(g) && Grown(g)
    ensures Grown(ApplyChanges(g, changes))
  {
    FoldShaped(g, changes);
    FoldMetadata(g, changes);
    NotCellsAreNot(changes);
    var all := FoldChanges(g, changes).metadata;
    forall c | c in LastMetadata(all) ensures c in all {
    }
  }

  lemma ApplyKeepsGrown(g: Grid, m: Message)
    requires Wf(g) && Grown(g)
    ensures Grown(Apply(g, m))
  {
    match m {
      case Snapshot(layout, cells) =>
        var g1 := if layout.Some? then SetLayout(g, layout) else g;
        var start := g1.(rows := map[], metadata := [], pending := false);
        if g1.layout.Some? { ChangesKeepGrown(start, cells); }
      case Changes(changes) => ChangesKeepGrown(g, changes);
      case _ =>
    }
  }

  lemma {:induction false} ReachedIsGrown(ms: seq<Message>)
    ensures Wf(ApplyAll(EMPTY_GRID, ms)) && Grown(ApplyAll(EMPTY_GRID, ms))
  {
    ReachableIsWf(ms);
    if ms != [] {
      ReachedIsGrown(ms[..|ms| - 1]);
      ApplyKeepsGrown(ApplyAll(EMPTY_GRID, ms[..|ms| - 1]), ms[|ms| - 1]);
    }
  }

  // ---------------------------------------------------------------- a run for every such grid

  lemma ApplyOneMore(g: Grid, ms: seq<Message>, m: Message)
    ensures ApplyAll(g, ms + [m]) == Apply(ApplyAll(g, ms), m)
  {
    assert (ms + [m])[..|ms|] == ms;
  }

  function Bare(layout: Option<seq<Column>>, generation: nat): Grid {
    Grid(layout, ColumnsOf(layout), map[], [], generation, false, SchemaConflicts(ColumnsOf(layout)))
  }

  /** The same layout announced `n` times. */
  lemma {:induction false} LayoutRun(layout: Option<seq<Column>>, n: nat) returns (ms: seq<Message>)
    requires n > 0
    ensures ApplyAll(EMPTY_GRID, ms) == Bare(layout, n)
  {
    var before: seq<Message> := [];
    if n > 1 {
      before := LayoutRun(layout, n - 1);
    }
    ms := before + [LayoutUpdate(layout)];
    ApplyOneMore(EMPTY_GRID, before, LayoutUpdate(layout));
  }

  lemma {:induction false} FoldNotCells(g: Grid, changes: seq<Change>)
    requires forall c :: c in changes ==> !IsCell(c)
    ensures FoldChanges(g, changes) == g.(metadata := g.metadata + changes)
  {
    if changes != [] {
      FoldNotCells(g, changes[..|changes| - 1]);
    } else {
      assert g.metadata + changes == g.metadata;
    }
  }

  function CellChange(row: nat, slot: Slot): Change { [Int(row), Int(slot.column), slot.value] + slot.presentation }

  function RowChanges(row: nat, cells: Cells): seq<Change> {
    seq(|cells|, i requires 0 <= i < |cells| => CellChange(row, cells[i]))
  }

  /** `g` with the first cells of one more row. */
  function WithRow(g: Grid, row: nat, cells: Cells): Grid {
    if cells == [] then g else g.(rows := g.rows[row := cells])
  }

  lemma CellWritten(g: Grid, row: nat, cells: Cells, slot: Slot)
    requires g.Ready() && row !in g.rows && Distinct(cells + [slot])
    ensures ApplyChange(WithRow(g, row, cells), CellChange(row, slot)) == WithRow(g, row, cells + [slot])
  {
    var change := CellChange(row, slot);
    assert change[3..] == slot.presentation && IsCell(change);
    assert forall t :: t in cells ==> t.column != slot.column by {
      var all := cells + [slot];
      assert forall i :: 0 <= i < |cells| ==> all[i] == cells[i] && all[i].column != all[|cells|].column;
    }
    assert Distinct(cells) by { assert forall i :: 0 <= i < |cells| ==> cells[i] == (cells + [slot])[i]; }
    PutNew(cells, slot);
  }

  lemma {:induction false} FoldRow(g: Grid, row: nat, cells: Cells)
    requires g.Ready() && row !in g.rows && Distinct(cells)
    ensures FoldChanges(g, RowChanges(row, cells)) == WithRow(g, row, cells)
  {
    if cells != [] {
      var init, last, changes := cells[..|cells| - 1], cells[|cells| - 1], RowChanges(row, cells);
      assert init + [last] == cells;
      assert changes[..|changes| - 1] == RowChanges(row, init);
      FoldRow(g, row, init);
      CellWritten(g, row, init, last);
    }
  }

  /** The rows of a ready grid, written one row at a time. */
  lemma {:induction false} RowsRun(g: Grid, rows: map<nat, Cells>) returns (ms: seq<Message>)
    requires g.Ready() && g.rows == map[] && |g.metadata| <= METADATA_LIMIT
    requires forall r :: r in rows ==> rows[r] != [] && Distinct(rows[r])
    ensures ApplyAll(g, ms) == g.(rows := rows)
    decreases rows.Keys
  {
    if rows.Keys == {} {
      ms := [];
      assert rows == map[];
    } else {
      var r :| r in rows.Keys;
      var rest := rows - {r};
      assert r !in rest.Keys && rest.Keys < rows.Keys;
      var before := RowsRun(g, rest);
      ms := before + [Changes(RowChanges(r, rows[r]))];
      ApplyOneMore(g, before, Changes(RowChanges(r, rows[r])));
      FoldRow(g.(rows := rest), r, rows[r]);
      assert rest[r := rows[r]] == rows;
    }
  }

  lemma MetadataRun(g: Grid, metadata: seq<Change>)
    requires g.metadata == [] && |metadata| <= METADATA_LIMIT && forall c :: c in metadata ==> !IsCell(c)
    ensures Apply(g, Changes(metadata)) == g.(metadata := metadata)
  {
    FoldNotCells(g, metadata);
    assert g.metadata + metadata == metadata;
  }

  /** The layout, the pending mark and the generation of `g`, with nothing in it yet. */
  lemma SchemaRun(g: Grid) returns (ms: seq<Message>)
    requires Wf(g) && Grown(g)
    ensures ApplyAll(EMPTY_GRID, ms) == g.(rows := map[], metadata := [])
  {
    if g.generation == 0 {
      ms := [];
      assert SchemaConflicts([]) == map[];
    } else {
      ms := LayoutRun(g.layout, g.generation);
      if g.pending {
        ApplyOneMore(EMPTY_GRID, ms, Snapshot(None, []));
        ms := ms + [Snapshot(None, [])];
      }
    }
  }

  lemma GrownIsReached(g: Grid)
    requires Wf(g) && Grown(g)
    ensures Reachable(g)
  {
    var first := SchemaRun(g);
    var second := first + [Changes(g.metadata)];
    ApplyOneMore(EMPTY_GRID, first, Changes(g.metadata));
    MetadataRun(g.(rows := map[], metadata := []), g.metadata);
    var base := g.(rows := map[]);
    assert ApplyAll(EMPTY_GRID, second) == base;
    if g.rows == map[] {
      assert base == g;
    } else {
      var third := RowsRun(base, g.rows);
      ApplyAllSplit(EMPTY_GRID, second, third);
      assert ApplyAll(EMPTY_GRID, second + third) == g;
    }
  }

  /** Exactly these grids are reached by some run of provider messages. */
  lemma ReachableExactly(g: Grid)
    ensures Reachable(g) <==> Wf(g) && Grown(g)
  {
    if Reachable(g) {
      var ms :| ApplyAll(EMPTY_GRID, ms) == g;
      ReachedIsGrown(ms);
    }
    if Wf(g) && Grown(g) {
      GrownIsReached(g);
    }
  }

  // ---------------------------------------------------------------- documents

  /** A later member of the object names the same row, as "1" and "01" do. */
  ghost predicate Overridden(members: seq<Member>, i: nat)
    requires i < |members|
  {
    exists j :: i < j < |members| && ParseDecimal(members[j].name) == ParseDecimal(members[i].name)
  }

  predicate IsEmptyRow(m: Member) { m.value == Object([]) }

  predicate IsCellItem(item: OrderedJson) { item.Array? && IsCell(item.items) }

  /** Read off the document: nothing in it that no run leaves behind. */
  ghost predicate Plausible(state: State)
    requires Restore(state).Ok?
  {
    && (state.pending == Bool(true) ==> state.layout.None?)
    && (ParseIndex(state.generation) == Some(0) ==> state.pending == Bool(true))
    && (forall item :: item in state.metadata.items ==> !IsCellItem(item))
    && (state.rows.members != [] ==> state.conflicts.members == [])
    && (forall i :: 0 <= i < |state.rows.members| && IsEmptyRow(state.rows.members[i]) ==> Overridden(state.rows.members, i))
  }

  lemma {:induction false} RestoredCellsEmpty(members: seq<Member>)
    requires RestoreCells(members).Ok?
    ensures RestoreCells(members).value == [] <==> members == []
  {
    if members != [] {
      var last := members[|members| - 1];
      RestoredCellsDistinct(members[..|members| - 1]);
      PutDistinct(RestoreCells(members[..|members| - 1]).value,
                  Slot(ParseDecimal(last.name).value, last.value.items[0], last.value.items[1..]));
    }
  }

  ghost predicate IsLastOf(members: seq<Member>, i: nat, row: nat)
    requires i < |members|
  {
    && ParseDecimal(members[i].name) == Some(row)
    && forall j :: i < j < |members| ==> ParseDecimal(members[j].name) != Some(row)
  }

  ghost predicate FromLast(members: seq<Member>, row: nat, cells: Cells) {
    exists i :: 0 <= i < |members| && IsLastOf(members, i, row) && RestoreRow(members[i]) == Ok(Row(row, cells))
  }

  lemma LastStays(members: seq<Member>, row: nat, cells: Cells)
    requires members != [] && FromLast(members[..|members| - 1], row, cells)
    requires ParseDecimal(members[|members| - 1].name) != Some(row)
    ensures FromLast(members, row, cells)
  {
    var init := members[..|members| - 1];
    var i :| 0 <= i < |init| && IsLastOf(init, i, row) && RestoreRow(init[i]) == Ok(Row(row, cells));
    assert members[i] == init[i];
    forall j | i < j < |members| ensures ParseDecimal(members[j].name) != Some(row) {
      assert j < |init| ==> members[j] == init[j];
    }
    assert IsLastOf(members, i, row);
  }

  lemma LastIsNew(members: seq<Member>)
    requires members != [] && RestoreRow(members[|members| - 1]).Ok?
    ensures var last := RestoreRow(members[|members| - 1]).value;
            ParseDecimal(members[|members| - 1].name) == Some(last.index) && FromLast(members, last.index, last.cells)
  {
    assert IsLastOf(members, |members| - 1, RestoreRow(members[|members| - 1]).value.index);
  }

  /** Every restored row comes from the last member that names it. */
  lemma {:induction false} RestoredRowIsLast(members: seq<Member>)
    requires RestoreRows(members).Ok?
    ensures forall row :: row in RestoreRows(members).value ==> FromLast(members, row, RestoreRows(members).value[row])
  {
    if members != [] {
      var n := |members| - 1;
      RestoredRowIsLast(members[..n]);
      LastIsNew(members);
      var before, after := RestoreRows(members[..n]).value, RestoreRows(members).value;
      forall row | row in after ensures FromLast(members, row, after[row]) {
        if row != RestoreRow(members[n]).value.index {
          LastStays(members, row, before[row]);
        }
      }
    }
  }

  lemma {:induction false} EveryMemberRestored(members: seq<Member>, i: nat)
    requires RestoreRows(members).Ok? && i < |members|
    ensures RestoreRow(members[i]).Ok? && RestoreRow(members[i]).value.index in RestoreRows(members).value
  {
    if i < |members| - 1 {
      EveryMemberRestored(members[..|members| - 1], i);
    }
  }

  lemma EmptyMember(members: seq<Member>, i: nat)
    requires RestoreRows(members).Ok? && i < |members|
    ensures RestoreRow(members[i]).Ok? && (IsEmptyRow(members[i]) <==> RestoreRow(members[i]).value.cells == [])
  {
    EveryMemberRestored(members, i);
    RestoredCellsEmpty(members[i].value.members);
  }

  lemma RowIsEmptyExactly(members: seq<Member>, row: nat)
    requires RestoreRows(members).Ok? && row in RestoreRows(members).value
    ensures RestoreRows(members).value[row] == [] <==>
      exists i :: 0 <= i < |members| && IsLastOf(members, i, row) && IsEmptyRow(members[i])
  {
    var cells := RestoreRows(members).value[row];
    RestoredRowIsLast(members);
    assert FromLast(members, row, cells);
    var i :| 0 <= i < |members| && IsLastOf(members, i, row) && RestoreRow(members[i]) == Ok(Row(row, cells));
    EmptyMember(members, i);
    forall k | 0 <= k < |members| && IsLastOf(members, k, row) ensures k == i {
    }
  }

  lemma EmptyRowsExactly(members: seq<Member>)
    requires RestoreRows(members).Ok?
    ensures (forall row :: row in RestoreRows(members).value ==> RestoreRows(members).value[row] != []) <==>
      (forall i :: 0 <= i < |members| && IsEmptyRow(members[i]) ==> Overridden(members, i))
  {
    var rows := RestoreRows(members).value;
    if forall i :: 0 <= i < |members| && IsEmptyRow(members[i]) ==> Overridden(members, i) {
      forall row | row in rows ensures rows[row] != [] {
        RowIsEmptyExactly(members, row);
      }
    }
    if forall row :: row in rows ==> rows[row] != [] {
      forall i | 0 <= i < |members| && IsEmptyRow(members[i]) ensures Overridden(members, i) {
        EveryMemberRestored(members, i);
        RowIsEmptyExactly(members, RestoreRow(members[i]).value.index);
      }
    }
  }

  lemma {:induction false} NoConflictMembers(members: seq<Member>)
    requires RestoreConflicts(members).Some?
    ensures RestoreConflicts(members).value == map[] <==> members == []
  {
    if members != [] {
      assert members[|members| - 1].name in RestoreConflicts(members).value;
    }
  }

  lemma {:induction false} RestoredMetadataIs(items: seq<OrderedJson>)
    requires RestoreMetadata(items).Some?
    ensures |RestoreMetadata(items).value| == |items|
    ensures forall i :: 0 <= i < |items| ==> items[i].Array? && RestoreMetadata(items).value[i] == items[i].items
  {
    if items != [] {
      RestoredMetadataIs(items[..|items| - 1]);
    }
  }

  lemma MetadataExactly(items: seq<OrderedJson>)
    requires RestoreMetadata(items).Some?
    ensures (forall c :: c in RestoreMetadata(items).value ==> !IsCell(c)) <==>
      (forall item :: item in items ==> !IsCellItem(item))
  {
    RestoredMetadataIs(items);
    var metadata := RestoreMetadata(items).value;
    if forall c :: c in metadata ==> !IsCell(c) {
      forall item | item in items ensures !IsCellItem(item) {
        var i :| 0 <= i < |items| && items[i] == item;
        assert metadata[i] in metadata;
      }
    }
    if forall item :: item in items ==> !IsCellItem(item) {
      forall c | c in metadata ensures !IsCell(c) {
        var i :| 0 <= i < |metadata| && metadata[i] == c;
        assert items[i] in items;
      }
    }
  }

  /** Of the documents a strict restore accepts, exactly the plausible ones give a grid that a
      run of provider messages could have reached. */
  lemma AcceptedIsReachableExactly(state: State)
    requires Restore(state).Ok?
    ensures Reachable(Restore(state).value) <==> Plausible(state)
  {
    var g := Restore(state).value;
    ReachableExactly(g);
    AcceptedIsWfExactly(state);
    EmptyRowsExactly(state.rows.members);
    if state.rows.members != [] { EveryMemberRestored(state.rows.members, 0); }
    NoConflictMembers(state.conflicts.members);
    MetadataExactly(state.metadata.items);
  }

  // ---------------------------------------------------------------- documents no run leaves behind

  const NOTE := Column("Note", None, None)
  const GAP := Column("Gap", None, Some("gap"))

  /** A row without cells. */
  const EMPTY_ROW := State(Some([NOTE]), Int(1), Bool(false), Object([]), Array([]), Object([Member("0", Object([]))]))

  /** A cell under two headers for the same field. */
  const UNDER_CONFLICT := State(Some([GAP, GAP]), Int(1), Bool(false),
    Object([Member("gap", Array([Int(0), Int(1)]))]), Array([]),
    Object([Member("0", Object([Member("0", Array([Int(7)]))]))]))

  /** No layout was ever announced, and yet the schema is not pending. */
  const NEVER_STARTED := State(None, Int(0), Bool(false), Object([]), Array([]), Object([]))

  lemma EmptyRowIsAccepted()
    ensures Restore(EMPTY_ROW).Ok?
  {
    assert [Member("0", Object([]))][..0] == [];
    assert ParseDecimal("0") == Some(0);
    assert RestoreRow(Member("0", Object([]))) == Ok(Row(0, []));
    assert IndexesOf([NOTE], Canonical("gap")) == [];
    assert SchemaConflicts([NOTE]) == map[];
  }

  lemma GapIndexes(both: seq<Column>)
    requires both == [GAP, GAP]
    ensures IndexesOf(both, Canonical("gap")) == [0, 1]
  {
    assert both[..1] == [GAP];
    assert [GAP][..0] == [];
    assert IndexesOf([GAP], Canonical("gap")) == [0];
  }

  lemma GapConflicts()
    ensures SchemaConflicts([GAP, GAP]) == map["gap" := [0, 1]]
  {
    var both := [GAP, GAP];
    GapIndexes(both);
    assert GAP in both && KeysOf(both) == {"gap"};
    assert SchemaConflicts(both).Keys == {"gap"};
  }

  lemma UnderConflictIsAccepted()
    ensures Restore(UNDER_CONFLICT).Ok?
  {
    GapConflicts();
    var conflicts := UNDER_CONFLICT.conflicts.members;
    IndexesRestore([0, 1]);
    assert IndexesJson([0, 1]).items == [Int(0), Int(1)];
    assert conflicts[..0] == [];
    assert RestoreConflicts(conflicts) == Some(map["gap" := [0, 1]]);
    var cells, rows := [Member("0", Array([Int(7)]))], UNDER_CONFLICT.rows.members;
    assert ParseDecimal("0") == Some(0);
    assert cells[..0] == [] && rows[..0] == [];
    assert RestoreCells(cells).Ok?;
    assert RestoreRow(rows[0]).Ok?;
  }

  /** Each of these is accepted by a strict restore, and no run reaches what it restores to. */
  lemma AcceptedButUnreachable()
    ensures Restore(EMPTY_ROW).Ok? && !Reachable(Restore(EMPTY_ROW).value)
    ensures Restore(UNDER_CONFLICT).Ok? && !Reachable(Restore(UNDER_CONFLICT).value)
    ensures Restore(NEVER_STARTED).Ok? && !Reachable(Restore(NEVER_STARTED).value)
  {
    EmptyRowIsAccepted();
    UnderConflictIsAccepted();
    assert SchemaConflicts([]) == map[];
    AcceptedIsReachableExactly(EMPTY_ROW);
    AcceptedIsReachableExactly(UNDER_CONFLICT);
    AcceptedIsReachableExactly(NEVER_STARTED);
    assert IsEmptyRow(EMPTY_ROW.rows.members[0]) && !Overridden(EMPTY_ROW.rows.members, 0);
  }
}
