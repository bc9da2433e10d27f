/** Checkpoints of the result grid: the JSON document, the strict restore, and what survives. */
module GridCheckpoint {
  import opened Common
  import opened ResultGrid

  datatype RestoreError =
    | NotAnObject
    | BadGeneration
    | BadPending
    | BadConflicts
    | ConflictMismatch
    | BadMetadata
    | TooMuchMetadata
    | BadMetadataItem
    | BadRows
    | BadRowIndex
    | BadRowCells
    | BadColumnIndex
    | BadCell
    | RowsWithoutLayout
    | RowsWhilePending

  datatype Result<T> = Ok(value: T) | Err(error: RestoreError)

  /** A checkpoint document. The layout is kept as the columns read from it; a missing
      member is `Null`. */
  datatype State =
    | NotMapping
    | State(layout: Option<seq<Column>>, generation: OrderedJson, pending: OrderedJson, conflicts: OrderedJson, metadata: OrderedJson, rows: OrderedJson)

  // ---------------------------------------------------------------- decimal keys

  function Digit(d: nat): char
    requires d < 10
  {
    '0' + d as char
  }

  function Decimal(n: nat): string {
    if n < 10 then [Digit(n)] else Decimal(n / 10) + [Digit(n % 10)]
  }

  function ParseDecimal(s: string): Option<nat> {
    if s == "" then None
    else
      var last := s[|s| - 1];
      if !('0' <= last <= '9') then None
      else if |s| == 1 then Some((last - '0') as nat)
      else
        var init := ParseDecimal(s[..|s| - 1]);
        if init.None? then None else Some(10 * init.value + (last - '0') as nat)
  }

  lemma {:induction false} DecimalRoundTrip(n: nat)
    ensures ParseDecimal(Decimal(n)) == Some(n)
  {
    if n >= 10 {
      DecimalRoundTrip(n / 10);
      var s := Decimal(n);
      assert s[..|s| - 1] == Decimal(n / 10) && |Decimal(n / 10)| > 0;
    }
  }

  /** `_checkpoint_non_negative_integer`. */
  function ParseIndex(j: OrderedJson): Option<nat> {
    match j
    case Int(i) => if i >= 0 then Some(i) else None
    case Text(s) => ParseDecimal(s)
    case _ => None
  }

  // ---------------------------------------------------------------- restore

  function RestoreCells(members: seq<Member>): Result<Cells> {
    if members == [] then Ok([])
    else
      var init, last := RestoreCells(members[..|members| - 1]), members[|members| - 1];
      if init.Err? then init
      else if ParseDecimal(last.name).None? then Err(BadColumnIndex)
      else if !last.value.Array? || last.value.items == [] then Err(BadCell)
      else Ok(Put(init.value, Slot(ParseDecimal(last.name).value, last.value.items[0], last.value.items[1..])))
  }

  datatype Row = Row(index: nat, cells: Cells)

  function RestoreRow(m: Member): Result<Row> {
    if ParseDecimal(m.name).None? then Err(BadRowIndex)
    else if !m.value.Object? then Err(BadRowCells)
    else
      var cells := RestoreCells(m.value.members);
      if cells.Err? then Err(cells.error) else Ok(Row(ParseDecimal(m.name).value, cells.value))
  }

  function RestoreRows(members: seq<Member>): Result<map<nat, Cells>> {
    if members == [] then Ok(map[])
    else
      var init := RestoreRows(members[..|members| - 1]);
      if init.Err? then init
      else
        var last := RestoreRow(members[|members| - 1]);
        if last.Err? then Err(last.error) else Ok(init.value[last.value.index := last.value.cells])
  }

  function RestoreIndexes(items: seq<OrderedJson>): Option<seq<nat>> {
    if items == [] then Some([])
    else
      var init, last := RestoreIndexes(items[..|items| - 1]), ParseIndex(items[|items| - 1]);
      if init.None? || last.None? then None else Some(init.value + [last.value])
  }

  /** `_checkpoint_conflicts`. */
  function RestoreConflicts(members: seq<Member>): Option<map<Key, seq<nat>>> {
    if members == [] then Some(map[])
    else
      var init, last := RestoreConflicts(members[..|members| - 1]), members[|members| - 1];
      if init.None? || last.name == "" || !last.value.Array? then None
      else
        var indexes := RestoreIndexes(last.value.items);
        if indexes.None? || |indexes.value| < 2 then None else Some(init.value[last.name := indexes.value])
  }

  function RestoreMetadata(items: seq<OrderedJson>): Option<seq<Change>> {
    if items == [] then Some([])
    else
      var init, last := RestoreMetadata(items[..|items| - 1]), items[|items| - 1];
      if init.None? || !last.Array? then None else Some(init.value + [last.items])
  }

  /** `restore_snapshot`: every derivable field is recomputed from the layout. */
  function Restore(state: State): Result<Grid> {
    if state.NotMapping? then Err(NotAnObject)
    else if ParseIndex(state.generation).None? then Err(BadGeneration)
    else if !state.pending.Bool? then Err(BadPending)
    else
      var columns := ColumnsOf(state.layout);
      var conflicts := if state.conflicts.Object? then RestoreConflicts(state.conflicts.members) else None;
      if conflicts.None? then Err(BadConflicts)
      else if conflicts.value != SchemaConflicts(columns) then Err(ConflictMismatch)
      else if !state.metadata.Array? then Err(BadMetadata)
      else if |state.metadata.items| > METADATA_LIMIT then Err(TooMuchMetadata)
      else
        var metadata := RestoreMetadata(state.metadata.items);
        if metadata.None? then Err(BadMetadataItem)
        else if !state.rows.Object? then Err(BadRows)
        else
          var rows := RestoreRows(state.rows.members);
          if rows.Err? then Err(rows.error)
          else if state.layout.None? && rows.value != map[] then Err(RowsWithoutLayout)
          else if state.pending.b && rows.value != map[] then Err(RowsWhilePending)
          else Ok(Grid(state.layout, columns, rows.value, metadata.value, ParseIndex(state.generation).value,
                       state.pending.b, conflicts.value))
  }

  // ---------------------------------------------------------------- snapshot

  function CellMember(slot: Slot): Member {
    Member(Decimal(slot.column), Array([slot.value] + slot.presentation))
  }

  ghost predicate DistinctNames(members: seq<Member>) {
    forall i, j :: 0 <= i < j < |members| ==> members[i].name != members[j].name
  }

  ghost predicate CellsInOrder(members: seq<Member>, order: Cells) {
    && |members| == |order|
    && Distinct(order)
    && forall i :: 0 <= i < |order| ==> members[i] == CellMember(order[i])
  }

  ghost predicate SameSlots(a: Cells, b: Cells) {
    forall s :: s in a <==> s in b
  }

  /** `members` is `cells` as a JSON object, in any order. */
  ghost predicate CellsDoc(members: seq<Member>, cells: Cells) {
    exists order :: CellsInOrder(members, order) && SameSlots(order, cells)
  }

  ghost predicate RowDoc(m: Member, rows: map<nat, Cells>, row: nat) {
    row in rows && m.name == Decimal(row) && m.value.Object? && CellsDoc(m.value.members, rows[row])
  }

  ghost predicate NoRepeats(order: seq<nat>) {
    forall i, j :: 0 <= i < j < |order| ==> order[i] != order[j]
  }

  /** Member `i` is row `order[i]`. */
  ghost predicate RowMembers(members: seq<Member>, rows: map<nat, Cells>, order: seq<nat>) {
    && |order| == |members|
    && NoRepeats(order)
    && forall i :: 0 <= i < |order| ==> RowDoc(members[i], rows, order[i])
  }

  /** `members` is `rows` as a JSON object, its members in the given order. */
  ghost predicate RowsDoc(members: seq<Member>, rows: map<nat, Cells>, order: seq<nat>) {
    RowMembers(members, rows, order) && forall row :: row in rows ==> row in order
  }

  function IndexesJson(indexes: seq<nat>): OrderedJson { Array(seq(|indexes|, i requires 0 <= i < |indexes| => Int(indexes[i]))) }

  ghost predicate ConflictsDoc(members: seq<Member>, conflicts: map<Key, seq<nat>>) {
    && DistinctNames(members)
    && (forall m :: m in members ==> m.name != "" && m.name in conflicts && m.value == IndexesJson(conflicts[m.name]))
    && (forall key :: key in conflicts ==> Member(key, IndexesJson(conflicts[key])) in members)
  }

  function MetadataJson(metadata: seq<Change>): OrderedJson {
    Array(seq(|metadata|, i requires 0 <= i < |metadata| => Array(metadata[i])))
  }

  /** `doc` is what `snapshot()` stores for `g`, whatever order the JSON text gives its members. */
  ghost predicate Describes(doc: State, g: Grid) {
    && doc.State?
    && doc.layout == g.layout
    && doc.generation == Int(g.generation)
    && doc.pending == Bool(g.pending)
    && doc.conflicts.Object? && ConflictsDoc(doc.conflicts.members, g.conflicts)
    && doc.metadata == MetadataJson(g.metadata)
    && doc.rows.Object? && exists order :: RowsDoc(doc.rows.members, g.rows, order)
  }

  // ---------------------------------------------------------------- equal up to the order of a row's cells

  ghost predicate SameCells(a: Cells, b: Cells) {
    forall column: nat :: Get(a, column) == Get(b, column)
  }

  ghost predicate SameRows(a: map<nat, Cells>, b: map<nat, Cells>) {
    a.Keys == b.Keys && forall row :: row in a ==> SameCells(a[row], b[row])
  }

  /** The two grids answer every question alike; only dict order may differ. */
  ghost predicate Same(a: Grid, b: Grid) {
    a.(rows := map[]) == b.(rows := map[]) && SameRows(a.rows, b.rows)
  }

  // ---------------------------------------------------------------- round trip

  lemma {:induction false} CellsRestore(members: seq<Member>, order: Cells)
    requires CellsInOrder(members, order)
    ensures RestoreCells(members) == Ok(order)
  {
    if members != [] {
      var n := |members| - 1;
      CellsRestore(members[..n], order[..n]);
      DecimalRoundTrip(order[n].column);
      assert members[n].value.items[1..] == order[n].presentation;
      PutNew(order[..n], order[n]);
      assert order == order[..n] + [order[n]];
    }
  }

  lemma {:induction false} PutNew(cells: Cells, slot: Slot)
    requires Distinct(cells) && forall t :: t in cells ==> t.column != slot.column
    ensures Put(cells, slot) == cells + [slot] && Distinct(cells + [slot])
  {
    GetInCells(cells, slot.column);
    if cells != [] {
      var init := cells[..|cells| - 1];
      assert cells == init + [cells[|cells| - 1]];
      GetInCells(init, slot.column);
    }
  }

  lemma {:induction false} SameMembersSameCells(a: Cells, b: Cells, column: nat)
    requires Distinct(a) && Distinct(b) && SameSlots(a, b)
    ensures Get(a, column) == Get(b, column)
  {
    GetInCells(a, column);
    GetInCells(b, column);
    DistinctIsFunctional(b, column);
    DistinctIsFunctional(a, column);
  }

  lemma DistinctIsFunctional(cells: Cells, column: nat)
    requires Distinct(cells)
    ensures forall s, t :: s in cells && t in cells && s.column == column && t.column == column ==> s == t
  {
  }

  function MapOf(entries: seq<Row>): map<nat, Cells> {
    if entries == [] then map[]
    else
      var last := entries[|entries| - 1];
      MapOf(entries[..|entries| - 1])[last.index := last.cells]
  }

  lemma {:induction false} MapOfHas(entries: seq<Row>)
    requires forall i, j :: 0 <= i < j < |entries| ==> entries[i].index != entries[j].index
    ensures forall i :: 0 <= i < |entries| ==> entries[i].index in MapOf(entries) && MapOf(entries)[entries[i].index] == entries[i].cells
    ensures forall row :: row in MapOf(entries) ==> exists i :: 0 <= i < |entries| && entries[i].index == row
  {
    if entries != [] {
      var n := |entries| - 1;
      MapOfHas(entries[..n]);
      forall row | row in MapOf(entries) ensures exists i :: 0 <= i < |entries| && entries[i].index == row {
        if row == entries[n].index {
        } else {
          var i :| 0 <= i < n && entries[..n][i].index == row;
          assert entries[i].index == row;
        }
      }
    }
  }

  lemma {:induction false} RowsRestore(members: seq<Member>, entries: seq<Row>)
    requires |entries| == |members|
    requires forall i :: 0 <= i < |entries| ==> RestoreRow(members[i]) == Ok(entries[i])
    ensures RestoreRows(members) == Ok(MapOf(entries))
  {
    if members != [] {
      var n := |members| - 1;
      RowsRestore(members[..n], entries[..n]);
    }
  }

  ghost predicate CellsShaped(rows: map<nat, Cells>) {
    forall row :: row in rows ==> rows[row] != [] && Distinct(rows[row])
  }

  ghost predicate RowRestored(restored: Cells, cells: Cells) {
    restored != [] && Distinct(restored) && SameCells(restored, cells)
  }

  lemma RowRestores(m: Member, rows: map<nat, Cells>, row: nat)
    requires RowDoc(m, rows, row) && CellsShaped(rows)
    ensures RestoreRow(m).Ok? && RestoreRow(m).value.index == row && RowRestored(RestoreRow(m).value.cells, rows[row])
  {
    DecimalRoundTrip(row);
    var cells :| CellsInOrder(m.value.members, cells) && SameSlots(cells, rows[row]);
    CellsRestore(m.value.members, cells);
    forall column: nat ensures Get(cells, column) == Get(rows[row], column) {
      SameMembersSameCells(cells, rows[row], column);
    }
    assert rows[row][0] in cells;
  }

  lemma {:induction false} IndexesRestore(indexes: seq<nat>)
    ensures RestoreIndexes(IndexesJson(indexes).items) == Some(indexes)
  {
    if indexes != [] {
      var n := |indexes| - 1;
      IndexesRestore(indexes[..n]);
      assert IndexesJson(indexes).items[..n] == IndexesJson(indexes[..n]).items;
      assert indexes == indexes[..n] + [indexes[n]];
    }
  }

  lemma {:induction false} ConflictsRestore(members: seq<Member>, conflicts: map<Key, seq<nat>>)
    requires DistinctNames(members)
    requires forall m :: m in members ==> m.name != "" && m.name in conflicts && m.value == IndexesJson(conflicts[m.name])
    requires forall key :: key in conflicts ==> |conflicts[key]| >= 2
    ensures RestoreConflicts(members).Some?
    ensures forall key :: key in RestoreConflicts(members).value ==> key in conflicts && RestoreConflicts(members).value[key] == conflicts[key]
    ensures forall m :: m in members ==> m.name in RestoreConflicts(members).value
  {
    if members != [] {
      var init, last := members[..|members| - 1], members[|members| - 1];
      assert members == init + [last];
      ConflictsRestore(init, conflicts);
      IndexesRestore(conflicts[last.name]);
    }
  }

  lemma {:induction false} MetadataRestores(metadata: seq<Change>)
    ensures RestoreMetadata(MetadataJson(metadata).items) == Some(metadata)
  {
    if metadata != [] {
      var n := |metadata| - 1;
      MetadataRestores(metadata[..n]);
      assert MetadataJson(metadata).items[..n] == MetadataJson(metadata[..n]).items;
      assert metadata == metadata[..n] + [metadata[n]];
    }
  }

  lemma ConflictsRoundTrip(members: seq<Member>, columns: seq<Column>)
    requires ConflictsDoc(members, SchemaConflicts(columns))
    ensures RestoreConflicts(members) == Some(SchemaConflicts(columns))
  {
    var conflicts := SchemaConflicts(columns);
    ConflictsRestore(members, conflicts);
    var restored := RestoreConflicts(members).value;
    forall key | key in conflicts ensures key in restored {
      assert Member(key, IndexesJson(conflicts[key])) in members;
    }
    assert restored == conflicts;
  }

  ghost predicate EntriesOf(entries: seq<Row>, rows: map<nat, Cells>, order: seq<nat>) {
    && |entries| == |order|
    && forall i :: 0 <= i < |order| ==>
         entries[i].index == order[i] && order[i] in rows && RowRestored(entries[i].cells, rows[order[i]])
  }

  lemma {:induction false} RowEntries(members: seq<Member>, rows: map<nat, Cells>, order: seq<nat>) returns (entries: seq<Row>)
    requires RowMembers(members, rows, order) && CellsShaped(rows)
    ensures EntriesOf(entries, rows, order)
    ensures forall i :: 0 <= i < |order| ==> RestoreRow(members[i]) == Ok(entries[i])
  {
    if members == [] {
      entries := [];
    } else {
      var n := |members| - 1;
      var before := RowEntries(members[..n], rows, order[..n]);
      RowRestores(members[n], rows, order[n]);
      entries := before + [RestoreRow(members[n]).value];
    }
  }

  lemma EntriesAreRows(entries: seq<Row>, rows: map<nat, Cells>, order: seq<nat>)
    requires EntriesOf(entries, rows, order) && NoRepeats(order) && forall row :: row in rows ==> row in order
    ensures MapOf(entries).Keys == rows.Keys
    ensures forall row :: row in rows ==> RowRestored(MapOf(entries)[row], rows[row])
  {
    MapOfHas(entries);
    forall row | row in rows ensures row in MapOf(entries) && RowRestored(MapOf(entries)[row], rows[row]) {
      var i :| 0 <= i < |order| && order[i] == row;
      assert entries[i].index == row;
    }
  }

  lemma RowsRoundTrip(members: seq<Member>, rows: map<nat, Cells>, order: seq<nat>)
    requires RowsDoc(members, rows, order) && CellsShaped(rows)
    ensures RestoreRows(members).Ok?
    ensures SameRows(RestoreRows(members).value, rows) && CellsShaped(RestoreRows(members).value)
  {
    var entries := RowEntries(members, rows, order);
    RowsRestore(members, entries);
    EntriesAreRows(entries, rows, order);
  }

  /** Every reachable grid restores from its own checkpoint, in whatever order the document
      lists its members; only the order of cells inside a row may change. */
  lemma CheckpointRoundTrip(g: Grid, doc: State)
    requires Wf(g) && Describes(doc, g)
    ensures Restore(doc).Ok? && Same(Restore(doc).value, g) && Wf(Restore(doc).value)
  {
    ConflictsRoundTrip(doc.conflicts.members, g.columns);
    MetadataRestores(g.metadata);
    var order :| RowsDoc(doc.rows.members, g.rows, order);
    RowsRoundTrip(doc.rows.members, g.rows, order);
    var rows := RestoreRows(doc.rows.members).value;
    assert rows.Keys == {} ==> rows == map[];
    assert g.rows == map[] ==> rows == map[];
    assert Restore(doc) == Ok(Grid(g.layout, g.columns, rows, g.metadata, g.generation, g.pending, g.conflicts));
  }

  // ---------------------------------------------------------------- what a restore can let in

  lemma {:induction false} RestoredCellsDistinct(members: seq<Member>)
    requires RestoreCells(members).Ok?
    ensures Distinct(RestoreCells(members).value)
  {
    if members != [] {
      var last := members[|members| - 1];
      RestoredCellsDistinct(members[..|members| - 1]);
      PutDistinct(RestoreCells(members[..|members| - 1]).value,
                  Slot(ParseDecimal(last.name).value, last.value.items[0], last.value.items[1..]));
    }
  }

  lemma {:induction false} RestoredRowsDistinct(members: seq<Member>)
    requires RestoreRows(members).Ok?
    ensures forall row :: row in RestoreRows(members).value ==> Distinct(RestoreRows(members).value[row])
  {
    if members != [] {
      RestoredRowsDistinct(members[..|members| - 1]);
      RestoredCellsDistinct(members[|members| - 1].value.members);
    }
  }

  lemma {:induction false} RestoredMetadataLength(items: seq<OrderedJson>)
    requires RestoreMetadata(items).Some?
    ensures |RestoreMetadata(items).value| == |items|
  {
    if items != [] {
      RestoredMetadataLength(items[..|items| - 1]);
    }
  }

  /** A restored grid keeps the reducer's invariant unless it has an empty row, or rows under
      conflicting headers. */
  lemma AcceptedIsWfExactly(state: State)
    requires Restore(state).Ok?
    ensures Wf(Restore(state).value) <==>
      (Restore(state).value.rows == map[] || Restore(state).value.conflicts == map[])
      && (forall row :: row in Restore(state).value.rows ==> Restore(state).value.rows[row] != [])
  {
    RestoredRowsDistinct(state.rows.members);
    RestoredMetadataLength(state.metadata.items);
  }
}
