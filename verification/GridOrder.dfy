/** What replay after a checkpoint depends on: dict order inside a row, and how layout
    updates and cell changes commute. */
module GridOrder {
  import opened Common
  import opened ResultGrid
  import opened GridCheckpoint

  // ---------------------------------------------------------------- layout updates and dict order

  lemma {:induction false} LastToNobody(cells: Cells, prev: seq<Column>, next: seq<Column>, j: nat)
    requires forall k: nat :: Target(prev, next, k) != Some(j)
    ensures LastTo(cells, prev, next, j).None?
  {
    if cells != [] {
      LastToNobody(cells[..|cells| - 1], prev, next, j);
    }
  }

  lemma InjectiveRemapSame(x: Cells, y: Cells, prev: seq<Column>, next: seq<Column>)
    requires Distinct(x) && Distinct(y) && SameCells(x, y) && TargetsInjective(prev, next)
    ensures SameCells(Remap(x, prev, next), Remap(y, prev, next))
  {
    forall j: nat ensures Get(Remap(x, prev, next), j) == Get(Remap(y, prev, next), j) {
      RemapGets(x, prev, next, j);
      RemapGets(y, prev, next, j);
      if i: nat :| Target(prev, next, i) == Some(j) {
        LastToOnlySource(x, prev, next, i, j);
        LastToOnlySource(y, prev, next, i, j);
      } else {
        LastToNobody(x, prev, next, j);
        LastToNobody(y, prev, next, j);
      }
    }
  }

  ghost predicate RemapIgnoresOrder(prev: seq<Column>, next: seq<Column>) {
    forall x, y :: Distinct(x) && Distinct(y) && SameCells(x, y) ==> SameCells(Remap(x, prev, next), Remap(y, prev, next))
  }

  function Pair(a: nat, b: nat): Cells { [Slot(a, Int(0), []), Slot(b, Int(1), [])] }
  function Swapped(a: nat, b: nat): Cells { [Slot(b, Int(1), []), Slot(a, Int(0), [])] }

  lemma PairSwapped(a: nat, b: nat)
    requires a != b
    ensures Distinct(Pair(a, b)) && Distinct(Swapped(a, b)) && SameCells(Pair(a, b), Swapped(a, b))
  {
    assert Pair(a, b)[..1] == [Slot(a, Int(0), [])] && Swapped(a, b)[..1] == [Slot(b, Int(1), [])];
  }

  /** A layout update ignores dict order exactly when no two previous headers share an
      identity that the next layout carries once. */
  lemma OrderInsensitiveExactly(prev: seq<Column>, next: seq<Column>)
    ensures RemapIgnoresOrder(prev, next) <==> TargetsInjective(prev, next)
  {
    if TargetsInjective(prev, next) {
      forall x, y | Distinct(x) && Distinct(y) && SameCells(x, y)
        ensures SameCells(Remap(x, prev, next), Remap(y, prev, next))
      {
        InjectiveRemapSame(x, y, prev, next);
      }
    } else {
      var a: nat, b: nat :| a < b < |prev| && Target(prev, next, a).Some? && Target(prev, next, a) == Target(prev, next, b);
      var j := Target(prev, next, a).value;
      PairSwapped(a, b);
      RemapGets(Pair(a, b), prev, next, j);
      RemapGets(Swapped(a, b), prev, next, j);
      assert Get(Remap(Pair(a, b), prev, next), j) != Get(Remap(Swapped(a, b), prev, next), j);
    }
  }

  // ---------------------------------------------------------------- the cells of one row

  /** Cells that the next layout puts in one column hold the same. */
  ghost predicate TwinsAgree(cells: Cells, prev: seq<Column>, next: seq<Column>) {
    forall s :: s in cells ==> LikeAll(s, cells, prev, next)
  }

  ghost predicate LikeAll(s: Slot, cells: Cells, prev: seq<Column>, next: seq<Column>) {
    forall t :: t in cells ==> AreAlike(s, t, prev, next)
  }

  predicate AreAlike(s: Slot, t: Slot, prev: seq<Column>, next: seq<Column>) {
    var a, b := Target(prev, next, s.column), Target(prev, next, t.column);
    a.Some? && a == b ==> s.value == t.value && s.presentation == t.presentation
  }

  lemma {:induction false} LastToHas(cells: Cells, prev: seq<Column>, next: seq<Column>, j: nat)
    ensures LastTo(cells, prev, next, j).Some? ==>
      exists s :: s in cells && Target(prev, next, s.column) == Some(j) && LastTo(cells, prev, next, j) == Some(s.(column := j))
    ensures LastTo(cells, prev, next, j).None? ==> forall s :: s in cells ==> Target(prev, next, s.column) != Some(j)
  {
    if cells != [] {
      var init, last := cells[..|cells| - 1], cells[|cells| - 1];
      assert cells == init + [last];
      LastToHas(init, prev, next, j);
      if Target(prev, next, last.column) == Some(j) { assert last in cells; }
    }
  }

  lemma {:induction false} GetsItself(cells: Cells, s: Slot)
    requires Distinct(cells) && s in cells
    ensures Get(cells, s.column) == Some(s)
  {
    var init, last := cells[..|cells| - 1], cells[|cells| - 1];
    assert cells == init + [last];
    if last != s {
      var i :| 0 <= i < |init| && init[i] == s;
      assert cells[i].column != last.column;
      GetsItself(init, s);
    }
  }

  lemma SameSlots(x: Cells, y: Cells, s: Slot)
    requires Distinct(x) && SameCells(x, y) && s in x
    ensures s in y
  {
    GetsItself(x, s);
    GetInCells(y, s.column);
  }

  lemma SameTarget(x: Cells, y: Cells, prev: seq<Column>, next: seq<Column>, j: nat)
    requires Distinct(x) && Distinct(y) && SameCells(x, y) && TwinsAgree(x, prev, next)
    ensures LastTo(x, prev, next, j) == LastTo(y, prev, next, j)
  {
    LastToHas(x, prev, next, j);
    LastToHas(y, prev, next, j);
    if LastTo(x, prev, next, j).Some? {
      var s :| s in x && Target(prev, next, s.column) == Some(j) && LastTo(x, prev, next, j) == Some(s.(column := j));
      SameSlots(x, y, s);
      var t :| t in y && Target(prev, next, t.column) == Some(j) && LastTo(y, prev, next, j) == Some(t.(column := j));
      SameSlots(y, x, t);
      assert LikeAll(s, x, prev, next) && AreAlike(s, t, prev, next);
    } else if t :| t in y && Target(prev, next, t.column) == Some(j) {
      SameSlots(y, x, t);
    }
  }

  lemma TwinsRemapSame(x: Cells, y: Cells, prev: seq<Column>, next: seq<Column>)
    requires Distinct(x) && Distinct(y) && SameCells(x, y) && TwinsAgree(x, prev, next)
    ensures SameCells(Remap(x, prev, next), Remap(y, prev, next))
  {
    forall j: nat ensures Get(Remap(x, prev, next), j) == Get(Remap(y, prev, next), j) {
      RemapGets(x, prev, next, j);
      RemapGets(y, prev, next, j);
      SameTarget(x, y, prev, next, j);
    }
  }

  /** The same cells with one of them put in last. */
  function MovedLast(cells: Cells, i: nat): Cells
    requires i < |cells|
  {
    cells[..i] + cells[i + 1..] + [cells[i]]
  }

  lemma MovedLastHas(cells: Cells, i: nat)
    requires Distinct(cells) && i < |cells|
    ensures Distinct(MovedLast(cells, i)) && SameCells(cells, MovedLast(cells, i))
  {
    var moved := MovedLast(cells, i);
    forall column: nat ensures Get(cells, column) == Get(moved, column) {
      GetInCells(cells, column);
      GetInCells(moved, column);
      if s :| s in cells && s.column == column {
        assert s in moved;
        GetsItself(cells, s);
        GetsItself(moved, s);
      }
    }
  }

  lemma LastWins(cells: Cells, i: nat, prev: seq<Column>, next: seq<Column>, j: nat)
    requires Distinct(cells) && i < |cells| && Target(prev, next, cells[i].column) == Some(j)
    ensures Get(Remap(MovedLast(cells, i), prev, next), j) == Some(cells[i].(column := j))
  {
    RemapGets(MovedLast(cells, i), prev, next, j);
  }

  ghost predicate RowIgnoresOrder(cells: Cells, prev: seq<Column>, next: seq<Column>) {
    forall y :: Distinct(y) && SameCells(cells, y) ==> SameCells(Remap(cells, prev, next), Remap(y, prev, next))
  }

  lemma TwinsMatter(cells: Cells, prev: seq<Column>, next: seq<Column>) returns (i: nat)
    requires Distinct(cells) && !TwinsAgree(cells, prev, next)
    ensures i < |cells| && Target(prev, next, cells[i].column).Some?
    ensures var j := Target(prev, next, cells[i].column).value;
            Get(Remap(cells, prev, next), j) != Get(Remap(MovedLast(cells, i), prev, next), j)
  {
    var s :| s in cells && !LikeAll(s, cells, prev, next);
    var t :| t in cells && !AreAlike(s, t, prev, next);
    var a :| 0 <= a < |cells| && cells[a] == s;
    var b :| 0 <= b < |cells| && cells[b] == t;
    var j := Target(prev, next, s.column).value;
    LastWins(cells, a, prev, next, j);
    LastWins(cells, b, prev, next, j);
    i := if Get(Remap(cells, prev, next), j) == Some(s.(column := j)) then b else a;
  }

  /** What a row becomes does not depend on the order of its cells exactly when cells that go to
      one column hold the same: twin headers do no harm while their cells are alike or absent. */
  lemma RowOrderInsensitiveExactly(cells: Cells, prev: seq<Column>, next: seq<Column>)
    requires Distinct(cells)
    ensures RowIgnoresOrder(cells, prev, next) <==> TwinsAgree(cells, prev, next)
  {
    if TwinsAgree(cells, prev, next) {
      forall y | Distinct(y) && SameCells(cells, y) ensures SameCells(Remap(cells, prev, next), Remap(y, prev, next)) {
        TwinsRemapSame(cells, y, prev, next);
      }
    } else {
      var i := TwinsMatter(cells, prev, next);
      MovedLastHas(cells, i);
      assert !SameCells(Remap(cells, prev, next), Remap(MovedLast(cells, i), prev, next));
    }
  }

  // ---------------------------------------------------------------- replay from a checkpoint

  lemma SameEmpty(x: Cells, y: Cells)
    requires SameCells(x, y) && x == []
    ensures y == []
  {
    if y != [] {
      GetInCells(y, y[|y| - 1].column);
    }
  }

  /** In no row do two cells that hold different things go to one column. */
  ghost predicate RowsAgree(rows: map<nat, Cells>, prev: seq<Column>, next: seq<Column>) {
    forall row :: row in rows ==> TwinsAgree(rows[row], prev, next)
  }

  lemma SameRemapRow(x: Cells, y: Cells, prev: seq<Column>, next: seq<Column>)
    requires Distinct(x) && Distinct(y) && SameCells(x, y) && TwinsAgree(x, prev, next)
    ensures SameCells(Remap(x, prev, next), Remap(y, prev, next))
    ensures Remap(x, prev, next) == [] <==> Remap(y, prev, next) == []
  {
    TwinsRemapSame(x, y, prev, next);
    if Remap(x, prev, next) == [] { SameEmpty(Remap(x, prev, next), Remap(y, prev, next)); }
    if Remap(y, prev, next) == [] { SameEmpty(Remap(y, prev, next), Remap(x, prev, next)); }
  }

  lemma SameRemapRows(a: map<nat, Cells>, b: map<nat, Cells>, prev: seq<Column>, next: seq<Column>)
    requires SameRows(a, b) && CellsShaped(a) && CellsShaped(b) && RowsAgree(a, prev, next)
    ensures SameRows(RemapRows(a, prev, next), RemapRows(b, prev, next))
  {
    forall row | row in a
      ensures SameCells(Remap(a[row], prev, next), Remap(b[row], prev, next))
      ensures Remap(a[row], prev, next) == [] <==> Remap(b[row], prev, next) == []
    {
      SameRemapRow(a[row], b[row], prev, next);
    }
  }

  lemma SameChange(a: Grid, b: Grid, change: Change)
    requires Shaped(a) && Shaped(b) && Same(a, b)
    ensures Same(ApplyChange(a, change), ApplyChange(b, change))
  {
    if IsCell(change) && a.Ready() {
      var row, slot := change[0].i as nat, Slot(change[1].i as nat, change[2], change[3..]);
      var x, y := if row in a.rows then a.rows[row] else [], if row in b.rows then b.rows[row] else [];
      forall column: nat ensures Get(Put(x, slot), column) == Get(Put(y, slot), column) {
        PutGets(x, slot, column);
        PutGets(y, slot, column);
      }
    }
  }

  lemma {:induction false} SameFold(a: Grid, b: Grid, changes: seq<Change>)
    requires Shaped(a) && Shaped(b) && Same(a, b)
    ensures Same(FoldChanges(a, changes), FoldChanges(b, changes))
  {
    if changes != [] {
      var init := changes[..|changes| - 1];
      SameFold(a, b, init);
      FoldShaped(a, init);
      FoldShaped(b, init);
      SameChange(FoldChanges(a, init), FoldChanges(b, init), changes[|changes| - 1]);
    }
  }

  /** The message does not ask for an order the checkpoint has lost. */
  ghost predicate SafeMessage(g: Grid, m: Message) {
    m.LayoutUpdate? && g.Ready() && SchemaConflicts(ColumnsOf(m.layout)) == map[] ==>
      RowsAgree(g.rows, g.columns, ColumnsOf(m.layout))
  }

  lemma ApplyRespectsSame(a: Grid, b: Grid, m: Message)
    requires Wf(a) && Wf(b) && Same(a, b) && SafeMessage(a, m)
    ensures Same(Apply(a, m), Apply(b, m))
  {
    match m {
      case LayoutUpdate(layout) =>
        if a.Ready() && SchemaConflicts(ColumnsOf(layout)) == map[] {
          SameRemapRows(a.rows, b.rows, a.columns, ColumnsOf(layout));
        }
      case Snapshot(layout, cells) =>
        var a1, b1 := if layout.Some? then SetLayout(a, layout) else a, if layout.Some? then SetLayout(b, layout) else b;
        SameFold(a1.(rows := map[], metadata := [], pending := false), b1.(rows := map[], metadata := [], pending := false), cells);
      case Changes(changes) => SameFold(a, b, changes);
      case _ =>
    }
  }

  lemma UnsafeRow(cells: Cells, prev: seq<Column>, next: seq<Column>) returns (moved: Cells)
    requires Distinct(cells) && !TwinsAgree(cells, prev, next)
    ensures Distinct(moved) && moved != [] && SameCells(cells, moved)
    ensures Remap(cells, prev, next) != [] && Remap(moved, prev, next) != []
    ensures !SameCells(Remap(cells, prev, next), Remap(moved, prev, next))
  {
    var i := TwinsMatter(cells, prev, next);
    var j := Target(prev, next, cells[i].column).value;
    MovedLastHas(cells, i);
    moved := MovedLast(cells, i);
    RemapGets(cells, prev, next, j);
    LastWins(cells, i, prev, next, j);
    LastToHas(cells, prev, next, j);
  }

  lemma UnsafeMessage(a: Grid, layout: Option<seq<Column>>, row: nat) returns (b: Grid)
    requires Wf(a) && a.Ready() && SchemaConflicts(ColumnsOf(layout)) == map[]
    requires row in a.rows && !TwinsAgree(a.rows[row], a.columns, ColumnsOf(layout))
    ensures Wf(b) && Same(a, b) && !Same(Apply(a, LayoutUpdate(layout)), Apply(b, LayoutUpdate(layout)))
  {
    var next := ColumnsOf(layout);
    var moved := UnsafeRow(a.rows[row], a.columns, next);
    b := a.(rows := a.rows[row := moved]);
    var x, y := RemapRows(a.rows, a.columns, next), RemapRows(b.rows, a.columns, next);
    assert x[row] == Remap(a.rows[row], a.columns, next) && y[row] == Remap(moved, a.columns, next);
    assert !SameRows(x, y);
  }

  /** A message treats every grid with the same cells alike exactly when it is safe. */
  lemma SafeMessageExactly(a: Grid, m: Message)
    requires Wf(a)
    ensures SafeMessage(a, m) <==> forall b :: Wf(b) && Same(a, b) ==> Same(Apply(a, m), Apply(b, m))
  {
    if SafeMessage(a, m) {
      forall b | Wf(b) && Same(a, b) ensures Same(Apply(a, m), Apply(b, m)) {
        ApplyRespectsSame(a, b, m);
      }
    } else {
      var row :| row in a.rows && !TwinsAgree(a.rows[row], a.columns, ColumnsOf(m.layout));
      var b := UnsafeMessage(a, m.layout, row);
    }
  }

  ghost predicate SafeReplay(g: Grid, ms: seq<Message>) {
    ms == [] || (SafeReplay(g, ms[..|ms| - 1]) && SafeMessage(ApplyAll(g, ms[..|ms| - 1]), ms[|ms| - 1]))
  }

  lemma {:induction false} WfKept(g: Grid, ms: seq<Message>)
    requires Wf(g)
    ensures Wf(ApplyAll(g, ms))
  {
    if ms != [] {
      WfKept(g, ms[..|ms| - 1]);
      ApplyKeepsWf(ApplyAll(g, ms[..|ms| - 1]), ms[|ms| - 1]);
    }
  }

  lemma {:induction false} SameReplay(a: Grid, b: Grid, ms: seq<Message>)
    requires Wf(a) && Wf(b) && Same(a, b) && SafeReplay(a, ms)
    ensures Same(ApplyAll(a, ms), ApplyAll(b, ms))
  {
    if ms != [] {
      var init := ms[..|ms| - 1];
      SameReplay(a, b, init);
      WfKept(a, init);
      WfKept(b, init);
      ApplyRespectsSame(ApplyAll(a, init), ApplyAll(b, init), ms[|ms| - 1]);
    }
  }

  lemma {:induction false} ApplyAllSplit(g: Grid, first: seq<Message>, second: seq<Message>)
    ensures ApplyAll(g, first + second) == ApplyAll(ApplyAll(g, first), second)
  {
    if second == [] {
      assert first + second == first;
    } else {
      var n := |second| - 1;
      ApplyAllSplit(g, first, second[..n]);
      assert (first + second)[..|first| + n] == first + second[..n];
    }
  }

  /** Restoring any checkpoint of the history so far and replaying the rest shows the grid
      that the whole history shows. */
  lemma CheckpointThenTail(head: seq<Message>, tail: seq<Message>, doc: State)
    requires Describes(doc, ApplyAll(EMPTY_GRID, head)) && SafeReplay(ApplyAll(EMPTY_GRID, head), tail)
    ensures Restore(doc).Ok? && Same(ApplyAll(Restore(doc).value, tail), ApplyAll(EMPTY_GRID, head + tail))
  {
    ReachableIsWf(head);
    var g := ApplyAll(EMPTY_GRID, head);
    CheckpointRoundTrip(g, doc);
    SameReplay(g, Restore(doc).value, tail);
    ApplyAllSplit(EMPTY_GRID, head, tail);
  }

  ghost predicate DistinctIdentities(columns: seq<Column>) {
    forall a, b :: 0 <= a < b < |columns| ==> IdentityOf(columns[a]) != IdentityOf(columns[b])
  }

  /** Headers that are all different keep every later layout update independent of dict order. */
  lemma DistinctHeadersAreSafe(prev: seq<Column>, next: seq<Column>)
    requires DistinctIdentities(prev)
    ensures TargetsInjective(prev, next)
  {
    forall a: nat, b: nat | a < b < |prev| && Target(prev, next, a).Some?
      ensures Target(prev, next, a) != Target(prev, next, b)
    {
      var j := Target(prev, next, a).value;
      assert j in IndexesOf(next, IdentityOf(prev[a]));
    }
  }

  // ---------------------------------------------------------------- a checkpoint that changes a later update

  const TWIN_HEADERS: seq<Column> := [Column("Note", None, None), Column("Note", None, None)]
  const TWIN_CHANGES: seq<Change> := [[Int(0), Int(1), Text("x")], [Int(0), Int(0), Text("y")]]
  const TWIN_HISTORY: seq<Message> := [Snapshot(Some(TWIN_HEADERS), TWIN_CHANGES)]
  const ONE_HEADER: Message := LayoutUpdate(Some([Column("Note", None, None)]))
  const TWIN_CELLS: Cells := [Slot(1, Text("x"), []), Slot(0, Text("y"), [])]
  const TWIN_GRID: Grid := Grid(Some(TWIN_HEADERS), TWIN_HEADERS, map[0 := TWIN_CELLS], [], 1, false, map[])
  const TWIN_CHECKPOINT: State :=
    State(Some(TWIN_HEADERS), Int(1), Bool(false), Object([]), Array([]),
          Object([Member("0", Object([Member("0", Array([Text("y")])), Member("1", Array([Text("x")]))]))]))

  lemma NoTwinConflicts(columns: seq<Column>)
    requires forall c :: c in columns ==> c.key.None?
    ensures SchemaConflicts(columns) == map[]
  {
  }

  lemma TwinHistoryShows()
    ensures ApplyAll(EMPTY_GRID, TWIN_HISTORY) == TWIN_GRID
  {
    NoTwinConflicts(TWIN_HEADERS);
    var g := SetLayout(EMPTY_GRID, Some(TWIN_HEADERS)).(rows := map[], metadata := [], pending := false);
    var first := ApplyChange(g, TWIN_CHANGES[0]);
    assert TWIN_CHANGES[0][3..] == [] && TWIN_CHANGES[1][3..] == [];
    assert first == g.(rows := map[0 := [Slot(1, Text("x"), [])]]);
    assert Put([Slot(1, Text("x"), [])], Slot(0, Text("y"), [])) == TWIN_CELLS;
    assert TWIN_CHANGES[..1] == [TWIN_CHANGES[0]] && TWIN_CHANGES[..1][..0] == [];
    assert FoldChanges(g, TWIN_CHANGES[..1]) == first;
    assert FoldChanges(g, TWIN_CHANGES) == TWIN_GRID;
    assert TWIN_HISTORY[..0] == [];
  }

  lemma TwinCheckpointDescribes()
    ensures Describes(TWIN_CHECKPOINT, TWIN_GRID)
  {
    NoTwinConflicts(TWIN_HEADERS);
    var members := TWIN_CHECKPOINT.rows.members;
    assert Decimal(0) == "0" && Decimal(1) == "1";
    var none: seq<OrderedJson> := [];
    assert [Text("x")] + none == [Text("x")] && [Text("y")] + none == [Text("y")];
    assert CellMember(TWIN_CELLS[0]) == members[0].value.members[1];
    assert CellMember(TWIN_CELLS[1]) == members[0].value.members[0];
    assert CellsInOrder(members[0].value.members, [TWIN_CELLS[1], TWIN_CELLS[0]]);
    assert CellsDoc(members[0].value.members, TWIN_CELLS);
    assert RowDoc(members[0], TWIN_GRID.rows, 0);
    assert RowsDoc(members, TWIN_GRID.rows, [0]);
  }

  lemma TwinMoves()
    ensures Target(TWIN_HEADERS, [TWIN_HEADERS[0]], 0) == Some(0) && Target(TWIN_HEADERS, [TWIN_HEADERS[0]], 1) == Some(0)
  {
    var id := IdentityOf(TWIN_HEADERS[0]);
    assert [TWIN_HEADERS[0]][..0] == [];
    assert IndexesOf([TWIN_HEADERS[0]], id) == [0];
  }

  lemma TwinCellsRestore(cells: seq<Member>)
    requires cells == [Member("0", Array([Text("y")])), Member("1", Array([Text("x")]))]
    ensures RestoreCells(cells) == Ok([TWIN_CELLS[1], TWIN_CELLS[0]])
  {
    var y, x := TWIN_CELLS[1], TWIN_CELLS[0];
    assert ParseDecimal("0") == Some(0) && ParseDecimal("1") == Some(1);
    assert cells[0].value.items[1..] == [] && cells[1].value.items[1..] == [];
    assert cells[..1] == [cells[0]] && cells[..1][..0] == [];
    assert RestoreCells(cells[..1]) == Ok([y]);
    assert [y][..0] == [];
    assert Put([y], x) == [y, x];
  }

  lemma TwinRowsRestore(rows: seq<Member>)
    requires rows == TWIN_CHECKPOINT.rows.members
    ensures RestoreRows(rows) == Ok(map[0 := [TWIN_CELLS[1], TWIN_CELLS[0]]])
  {
    TwinCellsRestore(rows[0].value.members);
    assert ParseDecimal("0") == Some(0);
    assert rows[..0] == [];
  }

  lemma TwinRestores()
    ensures Restore(TWIN_CHECKPOINT).Ok?
    ensures Restore(TWIN_CHECKPOINT).value == TWIN_GRID.(rows := map[0 := [TWIN_CELLS[1], TWIN_CELLS[0]]])
  {
    TwinCheckpointDescribes();
    TwinHistoryShows();
    ReachableIsWf(TWIN_HISTORY);
    CheckpointRoundTrip(TWIN_GRID, TWIN_CHECKPOINT);
    TwinRowsRestore(TWIN_CHECKPOINT.rows.members);
  }

  lemma TwinRemaps()
    ensures Remap([TWIN_CELLS[0], TWIN_CELLS[1]], TWIN_HEADERS, [TWIN_HEADERS[0]]) == [Slot(0, Text("y"), [])]
    ensures Remap([TWIN_CELLS[1], TWIN_CELLS[0]], TWIN_HEADERS, [TWIN_HEADERS[0]]) == [Slot(0, Text("x"), [])]
  {
    TwinMoves();
    var x, y, next := TWIN_CELLS[0], TWIN_CELLS[1], [TWIN_HEADERS[0]];
    assert [x][..0] == [] && [y][..0] == [];
    assert Remap([x], TWIN_HEADERS, next) == [x.(column := 0)] && Remap([y], TWIN_HEADERS, next) == [y];
    assert [x, y][..1] == [x] && [y, x][..1] == [y];
  }

  lemma OneHeaderOnTwins(rows: map<nat, Cells>, cells: Cells)
    requires rows == map[0 := cells] && Remap(cells, TWIN_HEADERS, [TWIN_HEADERS[0]]) != []
    ensures Apply(TWIN_GRID.(rows := rows), ONE_HEADER).rows == map[0 := Remap(cells, TWIN_HEADERS, [TWIN_HEADERS[0]])]
  {
    NoTwinConflicts([TWIN_HEADERS[0]]);
  }

  /** With two headers of one identity the order is lost for good: this checkpoint is of this
      history, and the layout update that follows shows `x` after a restart, `y` without one. */
  lemma CheckpointForgetsCellOrder()
    ensures Describes(TWIN_CHECKPOINT, ApplyAll(EMPTY_GRID, TWIN_HISTORY)) && Restore(TWIN_CHECKPOINT).Ok?
    ensures Apply(Restore(TWIN_CHECKPOINT).value, ONE_HEADER).rows == map[0 := [Slot(0, Text("x"), [])]]
    ensures Apply(ApplyAll(EMPTY_GRID, TWIN_HISTORY), ONE_HEADER).rows == map[0 := [Slot(0, Text("y"), [])]]
  {
    TwinHistoryShows();
    TwinCheckpointDescribes();
    TwinRestores();
    TwinRemaps();
    OneHeaderOnTwins(map[0 := [TWIN_CELLS[1], TWIN_CELLS[0]]], [TWIN_CELLS[1], TWIN_CELLS[0]]);
    OneHeaderOnTwins(map[0 := TWIN_CELLS], TWIN_CELLS);
  }

  // ---------------------------------------------------------------- changes commute with a moved header

  lemma {:induction false} PutPut(cells: Cells, first: Slot, second: Slot)
    requires Distinct(cells) && first.column == second.column
    ensures Put(Put(cells, first), second) == Put(cells, second)
  {
    if cells != [] {
      var init, last := cells[..|cells| - 1], cells[|cells| - 1];
      PutPut(init, first, second);
      PutGets(init, first, first.column);
      assert (init + [first])[..|init|] == init && (cells + [first])[..|cells|] == cells;
      assert (Put(init, first) + [last])[..|Put(init, first)|] == Put(init, first);
    }
  }

  /** Overwriting a present cell commutes with a write to another column. */
  lemma {:induction false} PutCommutes(cells: Cells, present: Slot, other: Slot)
    requires Distinct(cells) && Get(cells, present.column).Some? && other.column != present.column
    ensures Put(Put(cells, present), other) == Put(Put(cells, other), present)
  {
    var init, last := cells[..|cells| - 1], cells[|cells| - 1];
    GetInCells(init, last.column);
    PutGets(init, present, other.column);
    PutGets(init, other, present.column);
    assert (init + [present])[..|init|] == init && (init + [other])[..|init|] == init && (cells + [other])[..|cells|] == cells;
    assert (Put(init, present) + [last])[..|Put(init, present)|] == Put(init, present);
    assert (Put(init, other) + [last])[..|Put(init, other)|] == Put(init, other);
    if last.column != present.column && Get(init, other.column).Some? {
      PutCommutes(init, present, other);
    }
    if last.column != present.column && last.column == other.column {
      assert (Put(init, present) + [other])[..|Put(init, present)|] == Put(init, present);
    }
    if last.column != present.column {
      assert (Put(init, present) + [last] + [other])[..|Put(init, present)| + 1] == Put(init, present) + [last];
    }
  }

  /** A cell written then moved is the moved row with the cell written at its new index. */
  lemma {:induction false} RemapPut(cells: Cells, slot: Slot, prev: seq<Column>, next: seq<Column>)
    requires Distinct(cells) && TargetsInjective(prev, next) && Target(prev, next, slot.column).Some?
    ensures Remap(Put(cells, slot), prev, next)
         == Put(Remap(cells, prev, next), slot.(column := Target(prev, next, slot.column).value))
  {
    var moved := slot.(column := Target(prev, next, slot.column).value);
    if cells == [] {
      assert [slot][..0] == [];
      assert Remap([slot], prev, next) == Put([], moved);
    } else {
      var init, last := cells[..|cells| - 1], cells[|cells| - 1];
      RemapPut(init, slot, prev, next);
      RemapGets(init, prev, next, moved.column);
      if last.column == slot.column {
        assert (init + [slot])[..|init|] == init;
        PutPut(Remap(init, prev, next), last.(column := moved.column), moved);
      } else if Get(init, slot.column).Some? {
        assert (Put(init, slot) + [last])[..|Put(init, slot)|] == Put(init, slot);
        LastToOnlySource(init, prev, next, slot.column, moved.column);
        if Target(prev, next, last.column).Some? {
          var l := last.(column := Target(prev, next, last.column).value);
          PutCommutes(Remap(init, prev, next), moved, l);
        }
      } else {
        assert (cells + [slot])[..|cells|] == cells;
      }
    }
  }

  function Renumbered(change: Change, prev: seq<Column>, next: seq<Column>): Change {
    if IsCell(change) && Target(prev, next, change[1].i as nat).Some?
    then change[1 := Int(Target(prev, next, change[1].i as nat).value)]
    else change
  }

  function RenumberedAll(changes: seq<Change>, prev: seq<Column>, next: seq<Column>): seq<Change> {
    seq(|changes|, i requires 0 <= i < |changes| => Renumbered(changes[i], prev, next))
  }

  /** Every cell change names a header that the next layout carries once. */
  ghost predicate KeepTheirHeader(changes: seq<Change>, prev: seq<Column>, next: seq<Column>) {
    forall i :: 0 <= i < |changes| && IsCell(changes[i]) ==> Target(prev, next, changes[i][1].i as nat).Some?
  }

  function RowCells(rows: map<nat, Cells>, row: nat): Cells { if row in rows then rows[row] else [] }

  lemma PutThenRemapRows(rows: map<nat, Cells>, row: nat, slot: Slot, prev: seq<Column>, next: seq<Column>)
    requires CellsShaped(rows) && TargetsInjective(prev, next) && Target(prev, next, slot.column).Some?
    ensures RemapRows(rows[row := Put(RowCells(rows, row), slot)], prev, next)
         == RemapRows(rows, prev, next)[row :=
              Put(RowCells(RemapRows(rows, prev, next), row), slot.(column := Target(prev, next, slot.column).value))]
  {
    var cells := RowCells(rows, row);
    var moved := slot.(column := Target(prev, next, slot.column).value);
    RemapPut(cells, slot, prev, next);
    RemapGets(cells, prev, next, 0);
    PutDistinct(Remap(cells, prev, next), moved);
    assert RowCells(RemapRows(rows, prev, next), row) == Remap(cells, prev, next);
  }

  lemma ChangeThenLayout(g: Grid, change: Change, layout: seq<Column>)
    requires Shaped(g) && g.Ready() && SchemaConflicts(layout) == map[] && TargetsInjective(g.columns, layout)
    requires IsCell(change) ==> Target(g.columns, layout, change[1].i as nat).Some?
    ensures ApplyLayoutUpdate(ApplyChange(g, change), Some(layout))
         == ApplyChange(ApplyLayoutUpdate(g, Some(layout)), Renumbered(change, g.columns, layout))
  {
    if IsCell(change) {
      PutThenRemapRows(g.rows, change[0].i, Slot(change[1].i, change[2], change[3..]), g.columns, layout);
      assert Renumbered(change, g.columns, layout)[3..] == change[3..];
    }
  }

  lemma {:induction false} FoldThenLayout(g: Grid, changes: seq<Change>, layout: seq<Column>)
    requires Shaped(g) && g.Ready() && SchemaConflicts(layout) == map[] && TargetsInjective(g.columns, layout)
    requires KeepTheirHeader(changes, g.columns, layout)
    ensures ApplyLayoutUpdate(FoldChanges(g, changes), Some(layout))
         == FoldChanges(ApplyLayoutUpdate(g, Some(layout)), RenumberedAll(changes, g.columns, layout))
  {
    if changes != [] {
      var init := changes[..|changes| - 1];
      FoldThenLayout(g, init, layout);
      FoldShaped(g, init);
      ChangeThenLayout(FoldChanges(g, init), changes[|changes| - 1], layout);
      assert RenumberedAll(changes, g.columns, layout)[..|changes| - 1] == RenumberedAll(init, g.columns, layout);
    }
  }

  /** Cell changes followed by a new layout leave exactly the grid that the new layout followed
      by the same changes under the new numbers leaves. */
  lemma ChangesCommuteWithLayout(g: Grid, changes: seq<Change>, layout: seq<Column>)
    requires Wf(g) && g.Ready() && SchemaConflicts(layout) == map[] && TargetsInjective(g.columns, layout)
    requires KeepTheirHeader(changes, g.columns, layout)
    ensures ApplyLayoutUpdate(ApplyChanges(g, changes), Some(layout))
         == ApplyChanges(ApplyLayoutUpdate(g, Some(layout)), RenumberedAll(changes, g.columns, layout))
  {
    FoldThenLayout(g, changes, layout);
    FoldShaped(g, changes);
  }

  /** Header `i` of `prev` is header `to[i]` of `next`, and nothing else is in `next`. */
  ghost predicate IsPermutation(prev: seq<Column>, next: seq<Column>, to: seq<nat>) {
    && |to| == |prev| == |next|
    && (forall i :: 0 <= i < |to| ==> to[i] < |next| && next[to[i]] == prev[i])
    && (forall j: nat :: j < |next| ==> j in to)
  }

  lemma AscendingDiffers(at: seq<nat>)
    requires forall a, b :: 0 <= a < b < |at| ==> at[a] < at[b]
    ensures |at| > 1 ==> at[0] in at && at[1] in at && at[0] < at[1]
  {
  }

  lemma PermutationTarget(prev: seq<Column>, next: seq<Column>, to: seq<nat>, i: nat)
    requires DistinctIdentities(prev) && IsPermutation(prev, next, to) && i < |prev|
    ensures Target(prev, next, i) == Some(to[i])
  {
    var at := IndexesOf(next, IdentityOf(prev[i]));
    assert to[i] in at;
    forall k: nat | k in at ensures k == to[i] {
      assert k in to;
      var m :| 0 <= m < |to| && to[m] == k;
      assert IdentityOf(prev[m]) == IdentityOf(prev[i]);
    }
    AscendingDiffers(at);
  }

  /** A pure reordering of different headers: the next layout is as unambiguous as the previous
      one, and a change to any of its columns keeps its header, whatever the order. */
  lemma PermutationCommutes(g: Grid, changes: seq<Change>, layout: seq<Column>, to: seq<nat>)
    requires Wf(g) && g.Ready() && DistinctIdentities(g.columns) && IsPermutation(g.columns, layout, to)
    requires forall i :: 0 <= i < |changes| && IsCell(changes[i]) ==> changes[i][1].i < |g.columns|
    ensures ApplyLayoutUpdate(ApplyChanges(g, changes), Some(layout))
         == ApplyChanges(ApplyLayoutUpdate(g, Some(layout)), RenumberedAll(changes, g.columns, layout))
    ensures forall i :: 0 <= i < |changes| && IsCell(changes[i]) ==>
      Renumbered(changes[i], g.columns, layout) == changes[i][1 := Int(to[changes[i][1].i])]
  {
    forall i: nat | i < |g.columns| ensures Target(g.columns, layout, i) == Some(to[i]) {
      PermutationTarget(g.columns, layout, to, i);
    }
    DistinctHeadersAreSafe(g.columns, layout);
    forall key | key in KeysOf(layout) ensures |IndexesOf(layout, Canonical(key))| <= 1 {
      PermutationKeepsKeys(g.columns, layout, to, key);
    }
    ChangesCommuteWithLayout(g, changes, layout);
  }

  lemma PermutationKeepsKeys(prev: seq<Column>, next: seq<Column>, to: seq<nat>, key: Key)
    requires DistinctIdentities(prev) && IsPermutation(prev, next, to) && key in KeysOf(next)
    ensures |IndexesOf(next, Canonical(key))| <= 1
  {
    var c :| c in next && c.key == Some(key);
    var j: nat :| j < |next| && next[j] == c;
    assert j in to;
    var i :| 0 <= i < |to| && to[i] == j;
    PermutationTarget(prev, next, to, i);
    assert IdentityOf(prev[i]) == Canonical(key);
  }
}
