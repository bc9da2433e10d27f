/** The Race Control board: an immutable ledger of operations and a current table that must
    agree with the provider's mutable collection. One heat. */
module RaceControl {
  import opened Common
  import opened ParsedJson
  import opened ScreenMessages

  /** One decoded invocation with its source key. */
  datatype Invocation = Invocation(key: string, handle: string, args: seq<Json>)

  datatype Action = InitialSnapshot | Upserted | Deleted | Cleared | Unrecognized

  /** A ledger row, unique on (source key, change ordinal). */
  datatype Observation = Observation(handle: string, action: Action, id: Option<string>, fields: Fields)
  datatype Row = Row(active: bool, fields: Fields)
  datatype Board = Board(ledger: map<(string, nat), Observation>, current: map<string, Row>)

  const EMPTY_BOARD := Board(map[], map[])

  // ---------------------------------------------------------------- table operations

  /** `INSERT OR IGNORE`. */
  function Insert(b: Board, key: string, ordinal: nat, o: Observation): Board {
    if (key, ordinal) in b.ledger then b else b.(ledger := b.ledger[(key, ordinal) := o])
  }

  /** Only the given fields change. */
  function Merge(fields: Fields, patch: Fields): Fields {
    Fields(if patch.text.Some? then patch.text else fields.text,
           if patch.line.Some? then patch.line else fields.line,
           if patch.modality.Some? then patch.modality else fields.modality,
           if patch.background.Some? then patch.background else fields.background,
           if patch.font.Some? then patch.font else fields.font)
  }

  function UpsertCurrent(b: Board, p: Patch): Board {
    var fields := if p.id in b.current then b.current[p.id].fields else NO_FIELDS;
    b.(current := b.current[p.id := Row(true, Merge(fields, p.fields))])
  }

  /** Inactivate the known rows outside `kept`. */
  function KeepOnly(b: Board, kept: set<string>): Board {
    b.(current := map id | id in b.current :: if id in kept then b.current[id] else b.current[id].(active := false))
  }

  function Remove(b: Board, id: string): Board {
    if id in b.current then b.(current := b.current[id := b.current[id].(active := false)]) else b
  }

  // ---------------------------------------------------------------- one invocation

  function PatchObservation(handle: string, action: Action, p: Patch): Observation {
    Observation(handle, action, Some(p.id), p.fields)
  }

  /** A patch is applied only when its ledger row is new. */
  function ApplyPatch(b: Board, key: string, handle: string, action: Action, p: Patch): Board {
    if (key, p.ordinal) in b.ledger then b
    else UpsertCurrent(Insert(b, key, p.ordinal, PatchObservation(handle, action, p)), p)
  }

  function ApplyPatches(b: Board, key: string, handle: string, patches: seq<Patch>): Board {
    if patches == [] then b
    else ApplyPatch(ApplyPatches(b, key, handle, patches[..|patches| - 1]), key, handle, InitialSnapshot, patches[|patches| - 1])
  }

  function IdsOf(patches: seq<Patch>): set<string> { set p | p in patches :: p.id }

  /** An operation without a patch: its ledger row, and its effect when the row is new. */
  function Operate(b: Board, i: Invocation, o: Observation, effect: Board -> Board): Board {
    if (i.key, 0) in b.ledger then b else effect(Insert(b, i.key, 0, o))
  }

  /** `project_screen_message`. */
  function Project(b: Board, i: Invocation): Board {
    match Parse(i.handle, i.args)
    case Snapshot(patches, complete) =>
      if patches == [] then
        var action := if complete then InitialSnapshot else Unrecognized;
        Operate(b, i, Observation(i.handle, action, None, NO_FIELDS), x => if complete then KeepOnly(x, {}) else x)
      else
        var after := ApplyPatches(b, i.key, i.handle, patches);
        if complete && after.ledger != b.ledger then KeepOnly(after, IdsOf(patches)) else after
    case Upsert(p) => ApplyPatch(b, i.key, i.handle, Upserted, p)
    case Delete(id) => Operate(b, i, Observation(i.handle, Deleted, Some(id), NO_FIELDS), x => Remove(x, id))
    case Reset => Operate(b, i, Observation(i.handle, Cleared, None, NO_FIELDS), x => KeepOnly(x, {}))
    case _ => Operate(b, i, Observation(i.handle, Unrecognized, None, NO_FIELDS), x => x)
  }

  function ProjectAll(run: seq<Invocation>): Board {
    if run == [] then EMPTY_BOARD else Project(ProjectAll(run[..|run| - 1]), run[|run| - 1])
  }

  // ---------------------------------------------------------------- the provider's collection

  /** Create or sparsely update one message. */
  function Put(c: map<string, Fields>, p: Patch): map<string, Fields> {
    c[p.id := Merge(if p.id in c then c[p.id] else NO_FIELDS, p.fields)]
  }

  function PutAll(c: map<string, Fields>, patches: seq<Patch>): map<string, Fields> {
    if patches == [] then c else Put(PutAll(c, patches[..|patches| - 1]), patches[|patches| - 1])
  }

  /** What the browser's collection shows after an invocation. An incomplete snapshot says
      nothing about the messages it leaves out. */
  function Provide(c: map<string, Fields>, u: Update): map<string, Fields> {
    match u
    case Snapshot(patches, complete) => PutAll(if complete then map[] else c, patches)
    case Upsert(p) => Put(c, p)
    case Delete(id) => c - {id}
    case Reset => map[]
    case _ => c
  }

  function Provided(run: seq<Invocation>): map<string, Fields> {
    if run == [] then map[]
    else Provide(Provided(run[..|run| - 1]), Parse(run[|run| - 1].handle, run[|run| - 1].args))
  }

  /** The patches of an invocation, in application order. */
  function PatchesOf(i: Invocation): seq<Patch> {
    match Parse(i.handle, i.args)
    case Snapshot(patches, _) => patches
    case Upsert(p) => [p]
    case _ => []
  }

  /** The last non-null value given for each field of an id, over the whole run. */
  function Given(run: seq<Invocation>): map<string, Fields> {
    if run == [] then map[] else PutAll(Given(run[..|run| - 1]), PatchesOf(run[|run| - 1]))
  }

  // ---------------------------------------------------------------- earlier invocations again

  /** The ledger rows an invocation writes. */
  ghost predicate Recorded(b: Board, i: Invocation) {
    var patches := PatchesOf(i);
    if patches == [] then (i.key, 0) in b.ledger else forall p :: p in patches ==> (i.key, p.ordinal) in b.ledger
  }

  lemma {:induction false} PatchesRecorded(b: Board, key: string, handle: string, patches: seq<Patch>)
    ensures b.ledger.Keys <= ApplyPatches(b, key, handle, patches).ledger.Keys
    ensures forall p :: p in patches ==> (key, p.ordinal) in ApplyPatches(b, key, handle, patches).ledger
  {
    if patches != [] {
      PatchesRecorded(b, key, handle, patches[..|patches| - 1]);
      assert patches == patches[..|patches| - 1] + [patches[|patches| - 1]];
    }
  }

  lemma ProjectRecords(b: Board, i: Invocation)
    ensures Recorded(Project(b, i), i) && b.ledger.Keys <= Project(b, i).ledger.Keys
  {
    match Parse(i.handle, i.args) {
      case Snapshot(patches, complete) => PatchesRecorded(b, i.key, i.handle, patches);
      case Upsert(p) => SingleOrdinal(i);
      case _ =>
    }
  }

  lemma SingleOrdinal(i: Invocation)
    ensures var u := Parse(i.handle, i.args); u.Upsert? ==> u.patch.ordinal == 0
  {
  }

  lemma {:induction false} PatchesIgnored(b: Board, key: string, handle: string, patches: seq<Patch>)
    requires forall p :: p in patches ==> (key, p.ordinal) in b.ledger
    ensures ApplyPatches(b, key, handle, patches) == b
  {
    if patches != [] {
      assert patches == patches[..|patches| - 1] + [patches[|patches| - 1]];
      assert patches[|patches| - 1] in patches;
      PatchesIgnored(b, key, handle, patches[..|patches| - 1]);
    }
  }

  lemma RecordedIsIgnored(b: Board, i: Invocation)
    requires Recorded(b, i)
    ensures Project(b, i) == b
  {
    match Parse(i.handle, i.args) {
      case Snapshot(patches, complete) => PatchesIgnored(b, i.key, i.handle, patches);
      case Upsert(p) => SingleOrdinal(i);
      case _ =>
    }
  }

  lemma {:induction false} RunRecords(run: seq<Invocation>, i: Invocation)
    requires i in run
    ensures Recorded(ProjectAll(run), i)
  {
    var init, last := run[..|run| - 1], run[|run| - 1];
    ProjectRecords(ProjectAll(init), last);
    if i != last {
      assert run == init + [last];
      RunRecords(init, i);
    }
  }

  /** Projecting an earlier invocation again, at any later time, changes nothing. */
  lemma ReprojectionChangesNothing(run: seq<Invocation>, i: Invocation)
    requires i in run
    ensures Project(ProjectAll(run), i) == ProjectAll(run)
  {
    RunRecords(run, i);
    RecordedIsIgnored(ProjectAll(run), i);
  }

  /** The run without the invocations it has seen before. */
  function Firsts(run: seq<Invocation>): (r: seq<Invocation>)
    ensures forall i :: i in r <==> i in run
  {
    if run == [] then []
    else
      var init, last := Firsts(run[..|run| - 1]), run[|run| - 1];
      assert run == run[..|run| - 1] + [last];
      if last in run[..|run| - 1] then init else init + [last]
  }

  lemma {:induction false} RepeatsDropOut(run: seq<Invocation>)
    ensures ProjectAll(run) == ProjectAll(Firsts(run))
  {
    if run != [] {
      var init, last := run[..|run| - 1], run[|run| - 1];
      RepeatsDropOut(init);
      if last in init {
        ReprojectionChangesNothing(init, last);
      } else {
        assert (Firsts(init) + [last])[..|Firsts(init)|] == Firsts(init);
      }
    }
  }

  // ---------------------------------------------------------------- the board agrees with the collection

  function Stored(b: Board): map<string, Fields> { map id | id in b.current :: b.current[id].fields }
  function Active(b: Board): set<string> { set id | id in b.current && b.current[id].active }

  /** Each field the collection has, the row has too. */
  predicate Covers(row: Fields, shown: Fields) {
    && (shown.text.Some? ==> row.text == shown.text)
    && (shown.line.Some? ==> row.line == shown.line)
    && (shown.modality.Some? ==> row.modality == shown.modality)
    && (shown.background.Some? ==> row.background == shown.background)
    && (shown.font.Some? ==> row.font == shown.font)
  }

  ghost predicate Agrees(b: Board, given: map<string, Fields>, shown: map<string, Fields>) {
    && Stored(b) == given
    && Active(b) == shown.Keys
    && forall id :: id in shown ==> id in given && Covers(given[id], shown[id])
  }

  lemma MergeCovers(row: Fields, shown: Fields, patch: Fields)
    requires Covers(row, shown)
    ensures Covers(Merge(row, patch), Merge(shown, patch)) && Covers(Merge(row, patch), Merge(NO_FIELDS, patch))
  {
  }

  lemma UpsertAgrees(b: Board, p: Patch, given: map<string, Fields>, shown: map<string, Fields>)
    requires Agrees(b, given, shown)
    ensures Agrees(UpsertCurrent(b, p), Put(given, p), Put(shown, p))
  {
    var after := UpsertCurrent(b, p);
    assert forall id :: id in b.current <==> id in given;
    MergeCovers(if p.id in given then given[p.id] else NO_FIELDS, if p.id in shown then shown[p.id] else NO_FIELDS, p.fields);
    assert Stored(after) == Put(given, p);
    assert Active(after) == Put(shown, p).Keys;
  }

  predicate NewOrdinals(b: Board, key: string, patches: seq<Patch>) {
    && (forall p :: p in patches ==> (key, p.ordinal) !in b.ledger)
    && forall j, k :: 0 <= j < k < |patches| ==> patches[j].ordinal != patches[k].ordinal
  }

  lemma {:induction false} FreshPatchesApply(b: Board, key: string, handle: string, patches: seq<Patch>, given: map<string, Fields>, shown: map<string, Fields>)
    requires Agrees(b, given, shown) && NewOrdinals(b, key, patches)
    ensures Agrees(ApplyPatches(b, key, handle, patches), PutAll(given, patches), PutAll(shown, patches))
    ensures forall o :: (key, o) in ApplyPatches(b, key, handle, patches).ledger ==> (key, o) in b.ledger || exists p :: p in patches && p.ordinal == o
  {
    if patches != [] {
      var init, last := patches[..|patches| - 1], patches[|patches| - 1];
      assert patches == init + [last];
      FreshPatchesApply(b, key, handle, init, given, shown);
      var mid := ApplyPatches(b, key, handle, init);
      forall p | p in init ensures p.ordinal != last.ordinal {
        var k :| 0 <= k < |init| && init[k] == p;
        assert patches[k] == p;
      }
      assert (key, last.ordinal) !in mid.ledger;
      var inserted := Insert(mid, key, last.ordinal, PatchObservation(handle, InitialSnapshot, last));
      assert Stored(inserted) == Stored(mid) && Active(inserted) == Active(mid);
      UpsertAgrees(inserted, last, PutAll(given, init), PutAll(shown, init));
    }
  }

  lemma {:induction false} PutAllKeys(c: map<string, Fields>, patches: seq<Patch>)
    ensures PutAll(c, patches).Keys == c.Keys + IdsOf(patches)
  {
    if patches != [] {
      PutAllKeys(c, patches[..|patches| - 1]);
      assert patches == patches[..|patches| - 1] + [patches[|patches| - 1]];
    }
  }

  /** Applying patches to any collection covers applying them to an empty one. */
  lemma {:induction false} PutAllCovers(given: map<string, Fields>, patches: seq<Patch>, id: string)
    requires id in IdsOf(patches)
    ensures id in PutAll(given, patches) && id in PutAll(map[], patches)
    ensures Covers(PutAll(given, patches)[id], PutAll(map[], patches)[id])
  {
    var init, last := patches[..|patches| - 1], patches[|patches| - 1];
    assert patches == init + [last];
    PutAllKeys(given, patches);
    PutAllKeys(map[], patches);
    PutAllKeys(map[], init);
    if id in IdsOf(init) {
      PutAllCovers(given, init, id);
    }
    if id == last.id {
      var row := if id in PutAll(given, init) then PutAll(given, init)[id] else NO_FIELDS;
      var shown := if id in PutAll(map[], init) then PutAll(map[], init)[id] else NO_FIELDS;
      MergeCovers(row, shown, last.fields);
    }
  }

  ghost predicate KeyUnused(b: Board, key: string) {
    forall o: nat :: (key, o) !in b.ledger
  }

  lemma KeepOnlyRows(b: Board, kept: set<string>)
    ensures Stored(KeepOnly(b, kept)) == Stored(b) && Active(KeepOnly(b, kept)) == Active(b) * kept
  {
    assert forall id :: id in Active(KeepOnly(b, kept)) <==> id in Active(b) * kept;
  }

  lemma ReconcileAgrees(after: Board, patches: seq<Patch>, given: map<string, Fields>, shown: map<string, Fields>)
    requires Agrees(after, PutAll(given, patches), PutAll(shown, patches))
    ensures Agrees(KeepOnly(after, IdsOf(patches)), PutAll(given, patches), PutAll(map[], patches))
  {
    PutAllKeys(map[], patches);
    PutAllKeys(shown, patches);
    KeepOnlyRows(after, IdsOf(patches));
    forall id | id in IdsOf(patches) ensures id in PutAll(given, patches) && Covers(PutAll(given, patches)[id], PutAll(map[], patches)[id]) {
      PutAllCovers(given, patches, id);
    }
  }

  lemma SnapshotIsNew(b: Board, i: Invocation)
    requires KeyUnused(b, i.key) && Parse(i.handle, i.args).Snapshot?
    ensures NewOrdinals(b, i.key, PatchesOf(i))
    ensures PatchesOf(i) != [] ==> ApplyPatches(b, i.key, i.handle, PatchesOf(i)).ledger != b.ledger
  {
    var patches, payload := PatchesOf(i), Payload(i.args);
    if patches != [] {
      SnapshotOrder(payload.items, |payload.items|);
      assert Descending(patches);
      PatchesRecorded(b, i.key, i.handle, patches);
      assert patches[0] in patches;
    }
  }

  lemma SnapshotAgrees(b: Board, i: Invocation, given: map<string, Fields>, shown: map<string, Fields>)
    requires Agrees(b, given, shown) && KeyUnused(b, i.key)
    requires Parse(i.handle, i.args).Snapshot? && PatchesOf(i) != []
    ensures Agrees(Project(b, i), PutAll(given, PatchesOf(i)), Provide(shown, Parse(i.handle, i.args)))
  {
    var patches := PatchesOf(i);
    SnapshotIsNew(b, i);
    FreshPatchesApply(b, i.key, i.handle, patches, given, shown);
    ReconcileAgrees(ApplyPatches(b, i.key, i.handle, patches), patches, given, shown);
  }

  lemma RemovalAgrees(b: Board, given: map<string, Fields>, shown: map<string, Fields>, id: string)
    requires Agrees(b, given, shown)
    ensures Agrees(Remove(b, id), given, shown - {id}) && Agrees(KeepOnly(b, {}), given, map[])
  {
    KeepOnlyRows(b, {});
    assert Stored(Remove(b, id)) == Stored(b);
    assert forall x :: x in Active(Remove(b, id)) <==> x in Active(b) && x != id;
  }

  lemma InsertAgrees(b: Board, key: string, ordinal: nat, o: Observation, given: map<string, Fields>, shown: map<string, Fields>)
    requires Agrees(b, given, shown)
    ensures Agrees(Insert(b, key, ordinal, o), given, shown)
  {
    assert Stored(Insert(b, key, ordinal, o)) == Stored(b) && Active(Insert(b, key, ordinal, o)) == Active(b);
  }

  /** A new invocation does to the board what it does to the collection. */
  lemma ProjectAgrees(b: Board, i: Invocation, given: map<string, Fields>, shown: map<string, Fields>)
    requires Agrees(b, given, shown) && KeyUnused(b, i.key)
    ensures Agrees(Project(b, i), PutAll(given, PatchesOf(i)), Provide(shown, Parse(i.handle, i.args)))
  {
    match Parse(i.handle, i.args) {
      case Snapshot(patches, complete) =>
        if patches != [] {
          SnapshotAgrees(b, i, given, shown);
        } else {
          var o := Observation(i.handle, if complete then InitialSnapshot else Unrecognized, None, NO_FIELDS);
          InsertAgrees(b, i.key, 0, o, given, shown);
          RemovalAgrees(Insert(b, i.key, 0, o), given, shown, "");
        }
      case Upsert(p) =>
        SingleOrdinal(i);
        InsertAgrees(b, i.key, 0, PatchObservation(i.handle, Upserted, p), given, shown);
        UpsertAgrees(Insert(b, i.key, 0, PatchObservation(i.handle, Upserted, p)), p, given, shown);
        assert [p][..0] == [];
      case Delete(id) =>
        var o := Observation(i.handle, Deleted, Some(id), NO_FIELDS);
        InsertAgrees(b, i.key, 0, o, given, shown);
        RemovalAgrees(Insert(b, i.key, 0, o), given, shown, id);
      case Reset =>
        var o := Observation(i.handle, Cleared, None, NO_FIELDS);
        InsertAgrees(b, i.key, 0, o, given, shown);
        RemovalAgrees(Insert(b, i.key, 0, o), given, shown, "");
      case _ =>
        InsertAgrees(b, i.key, 0, Observation(i.handle, Unrecognized, None, NO_FIELDS), given, shown);
    }
  }

  lemma {:induction false} LedgerKeys(run: seq<Invocation>, key: string, o: nat)
    requires (key, o) in ProjectAll(run).ledger
    ensures exists i :: i in run && i.key == key
  {
    var init, last := run[..|run| - 1], run[|run| - 1];
    assert run == init + [last];
    if (key, o) in ProjectAll(init).ledger {
      LedgerKeys(init, key, o);
    } else {
      ProjectTouchesOwnKey(ProjectAll(init), last, key, o);
      assert last in run;
    }
  }

  lemma {:induction false} PatchesTouchOwnKey(b: Board, key: string, handle: string, patches: seq<Patch>, k: string, o: nat)
    requires k != key
    ensures (k, o) in ApplyPatches(b, key, handle, patches).ledger <==> (k, o) in b.ledger
  {
    if patches != [] {
      PatchesTouchOwnKey(b, key, handle, patches[..|patches| - 1], k, o);
    }
  }

  lemma ProjectTouchesOwnKey(b: Board, i: Invocation, key: string, o: nat)
    requires (key, o) !in b.ledger && (key, o) in Project(b, i).ledger
    ensures i.key == key
  {
    var u := Parse(i.handle, i.args);
    if i.key != key && u.Snapshot? {
      PatchesTouchOwnKey(b, i.key, i.handle, u.patches, key, o);
    }
  }

  ghost predicate DistinctKeys(run: seq<Invocation>) {
    forall j, k :: 0 <= j < k < |run| ==> run[j].key != run[k].key
  }

  /** Over any run of distinct source keys: the active messages are those of the provider's
      collection; every stored field is the last non-null value given for it; and the board has
      every field that the collection shows. */
  lemma {:induction false} BoardRefinesCollection(run: seq<Invocation>)
    requires DistinctKeys(run)
    ensures Active(ProjectAll(run)) == Provided(run).Keys
    ensures Stored(ProjectAll(run)) == Given(run)
    ensures forall id :: id in Provided(run) ==> id in Given(run) && Covers(Given(run)[id], Provided(run)[id])
  {
    if run != [] {
      var init, last := run[..|run| - 1], run[|run| - 1];
      BoardRefinesCollection(init);
      var b := ProjectAll(init);
      forall o: nat ensures (last.key, o) !in b.ledger {
        if (last.key, o) in b.ledger {
          LedgerKeys(init, last.key, o);
          assert false;
        }
      }
      ProjectAgrees(b, last, Given(init), Provided(init));
    }
  }

  /** The same, with earlier invocations projected again in between, at any time. */
  lemma BoardRefinesWithRepeats(run: seq<Invocation>)
    requires DistinctKeys(Firsts(run))
    ensures Active(ProjectAll(run)) == Provided(Firsts(run)).Keys
    ensures Stored(ProjectAll(run)) == Given(Firsts(run))
  {
    RepeatsDropOut(run);
    BoardRefinesCollection(Firsts(run));
  }

  // ---------------------------------------------------------------- what "last given" means

  datatype Part = TextPart | LinePart | ModalityPart | BackgroundPart | FontPart
  datatype Value = Words(s: string) | Number(n: int)

  function ValueOf(f: Fields, part: Part): Option<Value> {
    match part
    case TextPart => if f.text.Some? then Some(Words(f.text.value)) else None
    case LinePart => if f.line.Some? then Some(Number(f.line.value)) else None
    case ModalityPart => if f.modality.Some? then Some(Number(f.modality.value)) else None
    case BackgroundPart => if f.background.Some? then Some(Words(f.background.value)) else None
    case FontPart => if f.font.Some? then Some(Words(f.font.value)) else None
  }

  /** Every patch of the run, in application order. */
  function PatchesIn(run: seq<Invocation>): seq<Patch> {
    if run == [] then [] else PatchesIn(run[..|run| - 1]) + PatchesOf(run[|run| - 1])
  }

  /** The newest patch of the id that gives the part. */
  function LastValue(patches: seq<Patch>, id: string, part: Part): Option<Value> {
    if patches == [] then None
    else
      var last := patches[|patches| - 1];
      if last.id == id && ValueOf(last.fields, part).Some? then ValueOf(last.fields, part)
      else LastValue(patches[..|patches| - 1], id, part)
  }

  lemma {:induction false} PutAllAppends(c: map<string, Fields>, x: seq<Patch>, y: seq<Patch>)
    ensures PutAll(c, x + y) == PutAll(PutAll(c, x), y)
  {
    if y == [] {
      assert x + y == x;
    } else {
      PutAllAppends(c, x, y[..|y| - 1]);
      assert (x + y)[..|x + y| - 1] == x + y[..|y| - 1];
    }
  }

  lemma {:induction false} PutAllIsLast(patches: seq<Patch>, id: string, part: Part)
    ensures id in PutAll(map[], patches) ==> ValueOf(PutAll(map[], patches)[id], part) == LastValue(patches, id, part)
    ensures id !in PutAll(map[], patches) ==> LastValue(patches, id, part).None?
  {
    if patches != [] {
      PutAllIsLast(patches[..|patches| - 1], id, part);
    }
  }

  lemma {:induction false} GivenIsAll(run: seq<Invocation>)
    ensures Given(run) == PutAll(map[], PatchesIn(run))
  {
    if run != [] {
      GivenIsAll(run[..|run| - 1]);
      PutAllAppends(map[], PatchesIn(run[..|run| - 1]), PatchesOf(run[|run| - 1]));
    }
  }

  /** Every stored field of a message is the last non-null value given for it, in application
      order, over the whole run. */
  lemma StoredIsLastGiven(run: seq<Invocation>, id: string, part: Part)
    requires DistinctKeys(run) && id in ProjectAll(run).current
    ensures ValueOf(ProjectAll(run).current[id].fields, part) == LastValue(PatchesIn(run), id, part)
  {
    BoardRefinesCollection(run);
    GivenIsAll(run);
    PutAllIsLast(PatchesIn(run), id, part);
    assert id in Stored(ProjectAll(run));
  }

  /** An incomplete snapshot removes nothing. */
  lemma IncompleteSnapshotKeeps(b: Board, i: Invocation)
    requires var u := Parse(i.handle, i.args); u.Snapshot? && !u.complete
    ensures Active(b) <= Active(Project(b, i))
  {
    PatchesKeepActive(b, i.key, i.handle, PatchesOf(i));
  }

  lemma {:induction false} PatchesKeepActive(b: Board, key: string, handle: string, patches: seq<Patch>)
    ensures Active(b) <= Active(ApplyPatches(b, key, handle, patches))
  {
    if patches != [] {
      PatchesKeepActive(b, key, handle, patches[..|patches| - 1]);
    }
  }

  // ---------------------------------------------------------------- a message that comes back

  /** The update ends whatever the collection showed of the message before: it is deleted, the
      board is cleared, or a complete snapshot starts over. */
  predicate Ends(u: Update, id: string) {
    match u
    case Snapshot(_, complete) => complete
    case Delete(gone) => gone == id
    case Reset => true
    case _ => false
  }

  /** Where the message's present appearance begins: after the last update that ended an earlier
      one, or with it when it is a snapshot. */
  function Appeared(run: seq<Invocation>, id: string): (n: nat)
    ensures n <= |run|
  {
    if run == [] then 0
    else
      var u := Parse(run[|run| - 1].handle, run[|run| - 1].args);
      if !Ends(u, id) then Appeared(run[..|run| - 1], id)
      else if u.Snapshot? then |run| - 1
      else |run|
  }

  ghost predicate Gives(patches: seq<Patch>, id: string, part: Part) {
    exists p :: p in patches && p.id == id && ValueOf(p.fields, part).Some?
  }

  predicate AgreeAt(c: map<string, Fields>, d: map<string, Fields>, id: string) {
    (id in c <==> id in d) && (id in c ==> c[id] == d[id])
  }

  lemma {:induction false} PutAllAgrees(c: map<string, Fields>, d: map<string, Fields>, patches: seq<Patch>, id: string)
    requires AgreeAt(c, d, id)
    ensures AgreeAt(PutAll(c, patches), PutAll(d, patches), id)
  {
    if patches != [] {
      PutAllAgrees(c, d, patches[..|patches| - 1], id);
    }
  }

  lemma OtherUpdatesPut(c: map<string, Fields>, i: Invocation, id: string)
    requires !Ends(Parse(i.handle, i.args), id)
    ensures AgreeAt(Provide(c, Parse(i.handle, i.args)), PutAll(c, PatchesOf(i)), id)
  {
    match Parse(i.handle, i.args) {
      case Upsert(p) => assert [p][..0] == [];
      case _ =>
    }
  }

  lemma PatchesInAppends(run: seq<Invocation>, i: Invocation)
    ensures PatchesIn(run + [i]) == PatchesIn(run) + PatchesOf(i)
  {
    assert (run + [i])[..|run|] == run;
  }

  lemma PatchesInOne(i: Invocation)
    ensures PatchesIn([i]) == PatchesOf(i)
  {
    assert [i][..0] == [];
    assert PatchesIn([i]) == PatchesIn([]) + PatchesOf(i);
  }

  lemma EndedIsSinceAppearance(run: seq<Invocation>, id: string)
    requires run != [] && Ends(Parse(run[|run| - 1].handle, run[|run| - 1].args), id)
    ensures AgreeAt(Provided(run), PutAll(map[], PatchesIn(run[Appeared(run, id)..])), id)
  {
    var last := run[|run| - 1];
    var u := Parse(last.handle, last.args);
    if u.Snapshot? {
      PatchesInOne(last);
      assert run[Appeared(run, id)..] == [last];
    } else {
      assert run[Appeared(run, id)..] == [];
      assert PutAll(map[], []) == map[];
      assert id !in Provided(run);
    }
  }

  /** What the collection shows of a message is what its present appearance has given. */
  lemma {:induction false} ShownIsSinceAppearance(run: seq<Invocation>, id: string)
    ensures AgreeAt(Provided(run), PutAll(map[], PatchesIn(run[Appeared(run, id)..])), id)
  {
    if run != [] {
      var init, last, n := run[..|run| - 1], run[|run| - 1], Appeared(run, id);
      if Ends(Parse(last.handle, last.args), id) {
        EndedIsSinceAppearance(run, id);
      } else {
        ShownIsSinceAppearance(init, id);
        assert run[n..] == init[n..] + [last];
        PatchesInAppends(init[n..], last);
        OtherUpdatesPut(Provided(init), last, id);
        PutAllAgrees(Provided(init), PutAll(map[], PatchesIn(init[n..])), PatchesOf(last), id);
        PutAllAppends(map[], PatchesIn(init[n..]), PatchesOf(last));
      }
    }
  }

  lemma Regroup(a: seq<Patch>, b: seq<Patch>, c: seq<Patch>)
    ensures (a + b) + c == a + (b + c)
  {
  }

  lemma SliceOfInit(run: seq<Invocation>, n: nat)
    requires n < |run|
    ensures run[..|run| - 1][..n] == run[..n] && run[n..] == run[..|run| - 1][n..] + [run[|run| - 1]]
  {
  }

  lemma {:induction false} PatchesInSplits(run: seq<Invocation>, n: nat)
    requires n <= |run|
    ensures PatchesIn(run) == PatchesIn(run[..n]) + PatchesIn(run[n..])
  {
    if n == |run| {
      assert run[..n] == run && run[n..] == [];
    } else {
      var init, last := run[..|run| - 1], run[|run| - 1];
      PatchesInSplits(init, n);
      SliceOfInit(run, n);
      PatchesInAppends(init[n..], last);
      Regroup(PatchesIn(run[..n]), PatchesIn(init[n..]), PatchesOf(last));
    }
  }

  lemma {:induction false} LastValueSplits(x: seq<Patch>, y: seq<Patch>, id: string, part: Part)
    ensures LastValue(x + y, id, part) == if LastValue(y, id, part).Some? then LastValue(y, id, part) else LastValue(x, id, part)
  {
    if y == [] {
      assert x + y == x;
    } else {
      assert (x + y)[..|x + y| - 1] == x + y[..|y| - 1];
      LastValueSplits(x, y[..|y| - 1], id, part);
    }
  }

  lemma {:induction false} LastValueGiven(patches: seq<Patch>, id: string, part: Part)
    ensures LastValue(patches, id, part).Some? <==> Gives(patches, id, part)
  {
    if patches != [] {
      var init, last := patches[..|patches| - 1], patches[|patches| - 1];
      assert forall p :: p in patches <==> p in init || p == last by { assert patches == init + [last]; }
      LastValueGiven(init, id, part);
    }
  }

  lemma SameFieldsExactly(a: Fields, b: Fields)
    ensures a == b <==> forall part :: ValueOf(a, part) == ValueOf(b, part)
  {
    if forall part :: ValueOf(a, part) == ValueOf(b, part) {
      assert ValueOf(a, TextPart) == ValueOf(b, TextPart) && ValueOf(a, LinePart) == ValueOf(b, LinePart);
      assert ValueOf(a, ModalityPart) == ValueOf(b, ModalityPart);
      assert ValueOf(a, BackgroundPart) == ValueOf(b, BackgroundPart) && ValueOf(a, FontPart) == ValueOf(b, FontPart);
    }
  }

  /** One part of a visible message is stale when it was given before, but not since. */
  lemma PartIsStaleExactly(run: seq<Invocation>, id: string, part: Part)
    requires DistinctKeys(run) && id in Provided(run) && id in ProjectAll(run).current
    ensures var since := PatchesIn(run[Appeared(run, id)..]);
            ValueOf(ProjectAll(run).current[id].fields, part) == ValueOf(Provided(run)[id], part) <==>
              (Gives(PatchesIn(run), id, part) ==> Gives(since, id, part))
  {
    var n := Appeared(run, id);
    var earlier, since := PatchesIn(run[..n]), PatchesIn(run[n..]);
    StoredIsLastGiven(run, id, part);
    ShownIsSinceAppearance(run, id);
    PutAllIsLast(since, id, part);
    PatchesInSplits(run, n);
    LastValueSplits(earlier, since, id, part);
    LastValueGiven(PatchesIn(run), id, part);
    LastValueGiven(since, id, part);
  }

  /** A visible message shows exactly the provider's fields when, and only when, every field it
      was ever given has been given again since it last appeared. */
  lemma StaleExactly(run: seq<Invocation>, id: string)
    requires DistinctKeys(run) && id in Provided(run)
    ensures id in ProjectAll(run).current
    ensures var since := PatchesIn(run[Appeared(run, id)..]);
            ProjectAll(run).current[id].fields == Provided(run)[id] <==>
              forall part :: Gives(PatchesIn(run), id, part) ==> Gives(since, id, part)
  {
    BoardRefinesCollection(run);
    assert id in Stored(ProjectAll(run));
    SameFieldsExactly(ProjectAll(run).current[id].fields, Provided(run)[id]);
    forall part ensures
      ValueOf(ProjectAll(run).current[id].fields, part) == ValueOf(Provided(run)[id], part) <==>
        (Gives(PatchesIn(run), id, part) ==> Gives(PatchesIn(run[Appeared(run, id)..]), id, part))
    {
      PartIsStaleExactly(run, id, part);
    }
  }

  function Create(key: string, fields: map<string, Json>): Invocation { Invocation(key, "m_c", [Object(fields)]) }

  const RETURNING: seq<Invocation> := [
    Create("k1", map["Id" := Text("a"), "t" := Text("yellow")]),
    Invocation("k2", "m_d", [Text("a")]),
    Create("k3", map["Id" := Text("a"), "l" := Int(1)])]

  lemma ReturningRuns()
    ensures Provided(RETURNING[..1]) == map["a" := Fields(Some("yellow"), None, None, None, None)] == Given(RETURNING[..1])
    ensures Provided(RETURNING[..2]) == map[] && Given(RETURNING[..2]) == Given(RETURNING[..1])
  {
    assert RETURNING[..1][..0] == [] && RETURNING[..2][..1] == RETURNING[..1];
    assert !IsBlank("a"[0]);
    assert Parse(RETURNING[0].handle, RETURNING[0].args) == Upsert(Patch("a", 0, Fields(Some("yellow"), None, None, None, None)));
    var p := Patch("a", 0, Fields(Some("yellow"), None, None, None, None));
    assert [p][..0] == [] && PatchesOf(RETURNING[0]) == [p];
    var none: map<string, Fields> := map[];
    assert PutAll(none, [p]) == Put(none, p);
    assert Parse(RETURNING[1].handle, RETURNING[1].args) == Delete("a");
  }

  /** Created with a text, deleted, created again with a line alone: the provider shows no text,
      the board still shows the old one. */
  lemma ReturningMessageIsStale()
    ensures Provided(RETURNING) == map["a" := Fields(None, Some(1), None, None, None)]
    ensures "a" in ProjectAll(RETURNING).current
    ensures ProjectAll(RETURNING).current["a"] == Row(true, Fields(Some("yellow"), Some(1), None, None, None))
  {
    ReturningRuns();
    assert RETURNING[..3][..2] == RETURNING[..2];
    assert !IsBlank("a"[0]);
    var p := Patch("a", 0, Fields(None, Some(1), None, None, None));
    assert Parse(RETURNING[2].handle, RETURNING[2].args) == Upsert(p);
    assert [p][..0] == [];
    assert "k1"[1] != "k2"[1] && "k1"[1] != "k3"[1] && "k2"[1] != "k3"[1];
    BoardRefinesCollection(RETURNING);
    assert "a" in Active(ProjectAll(RETURNING)) && "a" in Stored(ProjectAll(RETURNING));
  }

  // ---------------------------------------------------------------- the ledger

  ghost predicate Keeps(a: Board, b: Board) {
    forall k :: k in a.ledger ==> k in b.ledger && b.ledger[k] == a.ledger[k]
  }

  lemma {:induction false} PatchesKeepLedger(b: Board, key: string, handle: string, patches: seq<Patch>)
    ensures Keeps(b, ApplyPatches(b, key, handle, patches))
  {
    if patches != [] {
      PatchesKeepLedger(b, key, handle, patches[..|patches| - 1]);
    }
  }

  /** A ledger row, once written, is never changed. */
  lemma LedgerIsKept(b: Board, i: Invocation)
    ensures Keeps(b, Project(b, i))
  {
    match Parse(i.handle, i.args) {
      case Snapshot(patches, complete) => PatchesKeepLedger(b, i.key, i.handle, patches);
      case _ =>
    }
  }

  // ---------------------------------------------------------------- the two tables, updated in place

  lemma ApplyOneMore(b: Board, key: string, handle: string, patches: seq<Patch>, k: nat)
    requires k < |patches|
    ensures ApplyPatches(b, key, handle, patches[..k + 1])
         == ApplyPatch(ApplyPatches(b, key, handle, patches[..k]), key, handle, InitialSnapshot, patches[k])
    ensures IdsOf(patches[..k + 1]) == IdsOf(patches[..k]) + {patches[k].id}
  {
    assert patches[..k + 1] == patches[..k] + [patches[k]] && patches[..k + 1][..k] == patches[..k];
  }

  class RaceControlTables {
    var ledger: map<(string, nat), Observation>
    var current: map<string, Row>

    function Contents(): Board
      reads this
    {
      Board(ledger, current)
    }

    constructor ()
      ensures Contents() == EMPTY_BOARD
    {
      ledger, current := map[], map[];
    }

    method InsertObservation(key: string, ordinal: nat, o: Observation) returns (inserted: bool)
      modifies this`ledger
      ensures Contents() == Insert(old(Contents()), key, ordinal, o)
      ensures inserted <==> (key, ordinal) !in old(ledger)
    {
      inserted := (key, ordinal) !in ledger;
      if inserted {
        ledger := ledger[(key, ordinal) := o];
      }
    }

    method MarkRemoved(ids: Option<set<string>>)
      modifies this`current
      ensures ids.None? ==> Contents() == KeepOnly(old(Contents()), {})
      ensures forall id :: ids == Some({id}) ==> Contents() == Remove(old(Contents()), id)
    {
      current := map id | id in current ::
        if ids.None? || id in ids.value then current[id].(active := false) else current[id];
    }

    method InsertAndUpsert(key: string, handle: string, action: Action, p: Patch) returns (written: nat)
      modifies this
      ensures Contents() == ApplyPatch(old(Contents()), key, handle, action, p)
      ensures if written == 0 then ledger == old(ledger) else |ledger| > |old(ledger)|
    {
      written := 0;
      var inserted := InsertObservation(key, p.ordinal, PatchObservation(handle, action, p));
      if inserted {
        written := 1;
        var fields := if p.id in current then current[p.id].fields else NO_FIELDS;
        current := current[p.id := Row(true, Merge(fields, p.fields))];
      }
    }

    /** Every patch in application order; counts the new ledger rows. */
    method ApplyEach(key: string, handle: string, patches: seq<Patch>) returns (written: nat, seen: set<string>)
      modifies this
      ensures Contents() == ApplyPatches(old(Contents()), key, handle, patches)
      ensures seen == IdsOf(patches)
      ensures if written == 0 then ledger == old(ledger) else |ledger| > |old(ledger)|
    {
      written, seen := 0, {};
      for k := 0 to |patches|
        invariant Contents() == ApplyPatches(old(Contents()), key, handle, patches[..k])
        invariant seen == IdsOf(patches[..k])
        invariant if written == 0 then ledger == old(ledger) else |ledger| > |old(ledger)|
      {
        ApplyOneMore(old(Contents()), key, handle, patches, k);
        var more := InsertAndUpsert(key, handle, InitialSnapshot, patches[k]);
        written := written + more;
        seen := seen + {patches[k].id};
      }
      assert patches[..|patches|] == patches;
    }

    method ProjectSnapshot(i: Invocation, patches: seq<Patch>, complete: bool)
      requires Parse(i.handle, i.args) == Snapshot(patches, complete) && patches != []
      modifies this
      ensures Contents() == Project(old(Contents()), i)
    {
      var written, seen := ApplyEach(i.key, i.handle, patches);
      if complete && written > 0 {
        current := map id | id in current :: if id in seen then current[id] else current[id].(active := false);
      }
    }

    method ProjectScreenMessage(i: Invocation)
      modifies this
      ensures Contents() == Project(old(Contents()), i)
    {
      var update := Parse(i.handle, i.args);
      match update {
        case Snapshot(patches, complete) =>
          if patches != [] {
            ProjectSnapshot(i, patches, complete);
          } else {
            var inserted := InsertObservation(i.key, 0, Observation(i.handle, if complete then InitialSnapshot else Unrecognized, None, NO_FIELDS));
            if complete && inserted { MarkRemoved(None); }
          }
        case Upsert(p) =>
          var written := InsertAndUpsert(i.key, i.handle, Upserted, p);
        case Delete(id) =>
          var inserted := InsertObservation(i.key, 0, Observation(i.handle, Deleted, Some(id), NO_FIELDS));
          if inserted { MarkRemoved(Some({id})); }
        case Reset =>
          var inserted := InsertObservation(i.key, 0, Observation(i.handle, Cleared, None, NO_FIELDS));
          if inserted { MarkRemoved(None); }
        case _ =>
          var inserted := InsertObservation(i.key, 0, Observation(i.handle, Unrecognized, None, NO_FIELDS));
      }
    }
  }
}
