/** The result grid as the worker holds it: one object whose fields every message updates. */
module GridReducer {
  import opened Common
  import opened Grids = ResultGrid
  import opened GridCheckpoint

  class ResultGrid {
    var layout: Option<seq<Column>>
    var columns: seq<Column>
    var rows: map<nat, Cells>
    var metadataChanges: seq<Change>
    var layoutGeneration: nat
    var schemaPending: bool
    var schemaConflicts: map<Key, seq<nat>>

    function Model(): Grid
      reads this
    {
      Grid(layout, columns, rows, metadataChanges, layoutGeneration, schemaPending, schemaConflicts)
    }

    constructor ()
      ensures Model() == EMPTY_GRID
    {
      layout, columns, rows, metadataChanges := None, [], map[], [];
      layoutGeneration, schemaPending, schemaConflicts := 0, true, map[];
    }

    method SetLayout(next: Option<seq<Column>>)
      modifies this
      ensures Model() == Grids.SetLayout(old(Model()), next)
    {
      layout := next;
      columns := ColumnsOf(next);
      rows := map[];
      schemaPending := true;
      schemaConflicts := SchemaConflicts(columns);
      layoutGeneration := layoutGeneration + 1;
    }

    method ApplyLayoutUpdate(nextLayout: Option<seq<Column>>)
      modifies this
      ensures Model() == Grids.ApplyLayoutUpdate(old(Model()), nextLayout)
    {
      var previous := if Model().Ready() then rows else map[];
      var nextColumns := ColumnsOf(nextLayout);
      var nextConflicts := SchemaConflicts(nextColumns);
      var remapped: map<nat, Cells> := map[];
      if nextConflicts == map[] {
        var todo := previous.Keys;
        ghost var done: map<nat, Cells> := map[];
        while todo != {}
          invariant todo <= previous.Keys && done.Keys == previous.Keys - todo
          invariant forall row :: row in done ==> done[row] == previous[row]
          invariant remapped == RemapRows(done, columns, nextColumns)
          invariant Model() == old(Model())
        {
          var row :| row in todo;
          var cells := RemapCells(previous[row], columns, nextColumns);
          RemapOneMore(done, row, previous[row], columns, nextColumns);
          done := done[row := previous[row]];
          if cells != [] {
            remapped := remapped[row := cells];
          }
          todo := todo - {row};
        }
        assert done == previous;
      }
      assert remapped == if nextConflicts == map[] then RemapRows(previous, columns, nextColumns) else map[];
      layout, columns, rows := nextLayout, nextColumns, remapped;
      schemaPending, schemaConflicts := false, nextConflicts;
      layoutGeneration := layoutGeneration + 1;
    }

    static lemma RemapOneMore(done: map<nat, Cells>, row: nat, cells: Cells, prev: seq<Column>, next: seq<Column>)
      requires row !in done
      ensures RemapRows(done[row := cells], prev, next)
           == if Remap(cells, prev, next) == [] then RemapRows(done, prev, next)
              else RemapRows(done, prev, next)[row := Remap(cells, prev, next)]
    {
    }

    static method RemapCells(cells: Cells, prev: seq<Column>, next: seq<Column>) returns (moved: Cells)
      ensures moved == Remap(cells, prev, next)
    {
      moved := [];
      for i := 0 to |cells|
        invariant moved == Remap(cells[..i], prev, next)
      {
        assert cells[..i + 1][..i] == cells[..i];
        var slot := cells[i];
        if slot.column < |prev| {
          var candidates := IndexesOf(next, IdentityOf(prev[slot.column]));
          if |candidates| == 1 {
            moved := Put(moved, slot.(column := candidates[0]));
          }
        }
      }
      assert cells[..|cells|] == cells;
    }

    method ApplyChanges(changes: seq<Change>)
      modifies this
      ensures Model() == Grids.ApplyChanges(old(Model()), changes)
    {
      for k := 0 to |changes|
        invariant Model() == FoldChanges(old(Model()), changes[..k])
      {
        assert changes[..k + 1][..k] == changes[..k];
        var change := changes[k];
        if |change| < 3 || !change[0].Int? || !change[1].Int? || change[0].i < 0 || change[1].i < 0 {
          metadataChanges := metadataChanges + [change];
        } else if layout.Some? && !schemaPending && schemaConflicts == map[] {
          var row: nat := change[0].i;
          var cells := if row in rows then rows[row] else [];
          rows := rows[row := Put(cells, Slot(change[1].i, change[2], change[3..]))];
        }
      }
      assert changes[..|changes|] == changes;
      if |metadataChanges| > METADATA_LIMIT {
        metadataChanges := metadataChanges[|metadataChanges| - METADATA_LIMIT..];
      }
    }

    method ApplySnapshot(next: Option<seq<Column>>, changes: seq<Change>)
      modifies this
      ensures Model() == Grids.ApplySnapshot(old(Model()), next, changes)
    {
      if next.Some? {
        SetLayout(next);
      }
      rows, metadataChanges := map[], [];
      if layout.None? {
        schemaPending := true;
        return;
      }
      schemaPending := false;
      ApplyChanges(changes);
    }

    method RemoveRows(changes: seq<Change>)
      modifies this
      ensures Model() == Grids.RemoveRows(old(Model()), changes)
    {
      for k := 0 to |changes|
        invariant Model() == Grids.RemoveRows(old(Model()), changes[..k])
      {
        var change := changes[k];
        assert changes[..k + 1] == changes[..k] + [change];
        if change != [] && change[0].Int? && change[0].i >= 0 {
          rows := rows - {change[0].i as nat};
        }
      }
      assert changes[..|changes|] == changes;
    }

    /** The document describes the grid exactly; `CheckpointRoundTrip` says what restoring it gives. */
    method Snapshot() returns (doc: State)
      requires Wf(Model())
      ensures Describes(doc, Model())
    {
      var members: seq<Member> := [];
      ghost var order: seq<nat> := [];
      var todo := rows.Keys;
      while todo != {}
        invariant todo <= rows.Keys
        invariant RowMembers(members, rows, order)
        invariant forall row :: row in rows ==> (row in order <==> row !in todo)
      {
        var row :| row in todo;
        var cells := CellMembers(rows[row]);
        members := members + [Member(Decimal(row), Object(cells))];
        order := order + [row];
        todo := todo - {row};
      }
      assert RowsDoc(members, rows, order);
      var conflicts := ConflictMembers(schemaConflicts);
      doc := State(layout, Int(layoutGeneration), Bool(schemaPending), Object(conflicts), MetadataJson(metadataChanges), Object(members));
    }

    static method CellMembers(cells: Cells) returns (members: seq<Member>)
      requires Distinct(cells)
      ensures CellsDoc(members, cells)
    {
      members := [];
      for i := 0 to |cells|
        invariant |members| == i && forall k :: 0 <= k < i ==> members[k] == CellMember(cells[k])
      {
        members := members + [CellMember(cells[i])];
      }
      assert CellsInOrder(members, cells);
    }

    static method ConflictMembers(conflicts: map<Key, seq<nat>>) returns (members: seq<Member>)
      ensures ConflictsDoc(members, conflicts)
    {
      members := [];
      var todo := conflicts.Keys;
      while todo != {}
        invariant todo <= conflicts.Keys && DistinctNames(members)
        invariant forall m :: m in members ==> m.name in conflicts && m.name !in todo && m.value == IndexesJson(conflicts[m.name])
        invariant forall key :: key in conflicts && key !in todo ==> Member(key, IndexesJson(conflicts[key])) in members
      {
        var key :| key in todo;
        members := members + [Member(key, IndexesJson(conflicts[key]))];
        todo := todo - {key};
      }
    }

    /** Replaces every field, or reports why not and changes nothing. */
    method RestoreSnapshot(state: State) returns (failure: Option<RestoreError>)
      modifies this
      ensures failure == match Restore(state) case Ok(_) => None case Err(e) => Some(e)
      ensures Model() == match Restore(state) case Ok(g) => g case Err(_) => old(Model())
    {
      match Restore(state) {
        case Err(e) => failure := Some(e);
        case Ok(g) =>
          failure := None;
          layout, columns, rows, metadataChanges := g.layout, g.columns, g.rows, g.metadata;
          layoutGeneration, schemaPending, schemaConflicts := g.generation, g.pending, g.conflicts;
      }
    }
  }
}
