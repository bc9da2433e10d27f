/** Which EventSource cursors may be replayed, while retention and rebuilds delete rows. */
module CursorWindow {
  import opened Common
  import opened StreamOutbox

  /** What `read_cursor_window` reports for one session and one cursor. */
  datatype Window = Window(deletedThrough: nat, latest: nat, exists_: bool) {
    predicate RequiresReset(cursor: nat) {
      if cursor > latest then true
      else if deletedThrough > 0 && cursor <= deletedThrough then true
      else if cursor == 0 || cursor == latest then false
      else !exists_
    }
  }

  /** `rows` is the table, `history` every row ever committed. `issued` holds each cursor handed
      to a browser with its session; `stale` those handed out before that session's last rebuild. */
  datatype Db = Db(
    rows: seq<Event>,
    floors: map<string, nat>,
    history: seq<Event>,
    issued: set<(string, nat)>,
    stale: set<(string, nat)>)

  function FloorOf(floors: map<string, nat>, session: string): nat {
    if session in floors then floors[session] else 0
  }

  function ReadWindow(db: Db, session: string, cursor: nat): Window {
    Window(FloorOf(db.floors, session), LatestOf(db.rows, session),
           cursor == 0 || exists e :: e in db.rows && e.session == session && e.id == cursor)
  }

  function Keep(rows: seq<Event>, gone: set<nat>): (r: seq<Event>)
    ensures forall e :: e in r <==> e in rows && e.id !in gone
  {
    if rows == [] then []
    else
      assert rows == rows[..|rows| - 1] + [rows[|rows| - 1]];
      Keep(rows[..|rows| - 1], gone) + (if rows[|rows| - 1].id in gone then [] else [rows[|rows| - 1]])
  }

  /** The largest id of the session among the rows about to go, or 0. */
  function MaxGone(rows: seq<Event>, session: string, gone: set<nat>): nat {
    if rows == [] then 0
    else
      var last := rows[|rows| - 1];
      if last.session == session && last.id in gone then last.id else MaxGone(rows[..|rows| - 1], session, gone)
  }

  function RaiseFloor(floors: map<string, nat>, session: string, through: nat): map<string, nat> {
    if through == 0 then floors
    else floors[session := if FloorOf(floors, session) < through then through else FloorOf(floors, session)]
  }

  datatype Step =
    | Append(event: Event)
    | Retain(gone: set<nat>)
    | Rebuild(session: string)
    | IssueBarrier(session: string)
    | IssueEvent(session: string, cursor: nat)

  /** Retention deletes the planned rows that still qualify; `gone` is what it deletes. */
  function RetainRows(db: Db, gone: set<nat>): Db {
    db.(rows := Keep(db.rows, gone),
        floors := map s | s in db.floors.Keys + Sessions(db.rows) && (s in db.floors || MaxGone(db.rows, s, gone) > 0)
                      :: Max(FloorOf(db.floors, s), MaxGone(db.rows, s, gone)))
  }

  function Sessions(rows: seq<Event>): set<string> { set e | e in rows :: e.session }

  function IdsOf(rows: seq<Event>, session: string): set<nat> {
    set e | e in rows && e.session == session :: e.id
  }

  /** The outbox part of `_reset_derived_state`. */
  function ResetSession(db: Db, session: string): Db {
    db.(rows := Keep(db.rows, IdsOf(db.rows, session)),
        floors := RaiseFloor(db.floors, session, LatestOf(db.rows, session)),
        stale := db.stale + set c | c in db.issued && c.0 == session)
  }

  predicate Enabled(db: Db, step: Step) {
    match step
    case Append(e) => LastId(db.history) < e.id
    case IssueEvent(session, cursor) => exists e :: e in db.rows && e.session == session && e.id == cursor
    case _ => true
  }

  function Next(db: Db, step: Step): Db
    requires Enabled(db, step)
  {
    match step
    case Append(e) => db.(rows := db.rows + [e], history := db.history + [e])
    case Retain(gone) => RetainRows(db, gone)
    case Rebuild(session) => ResetSession(db, session)
    case IssueBarrier(session) => db.(issued := db.issued + {(session, LatestOf(db.rows, session))})
    case IssueEvent(session, cursor) => db.(issued := db.issued + {(session, cursor)})
  }

  ghost predicate Run(states: seq<Db>, steps: seq<Step>) {
    && |states| == |steps| + 1
    && states[0] == Db([], map[], [], {}, {})
    && forall i :: 0 <= i < |steps| ==> Enabled(states[i], steps[i]) && states[i + 1] == Next(states[i], steps[i])
  }

  // ---------------------------------------------------------------- invariant

  ghost predicate Inv(db: Db) {
    && Increasing(db.history) && Increasing(db.rows)
    && (forall e :: e in db.rows ==> e in db.history)
    && (forall e :: e in db.history && e !in db.rows ==> e.id <= FloorOf(db.floors, e.session))
    && (forall c :: c in db.issued ==> c.1 <= FloorOf(db.floors, c.0) || c.1 <= LatestOf(db.rows, c.0))
    && (forall c :: c in db.stale ==> c.1 <= FloorOf(db.floors, c.0))
  }

  lemma {:induction false} KeepIncreasing(rows: seq<Event>, gone: set<nat>)
    requires Increasing(rows)
    ensures Increasing(Keep(rows, gone))
  {
    if rows != [] {
      var init := rows[..|rows| - 1];
      KeepIncreasing(init, gone);
      forall e | e in Keep(init, gone) ensures e.id < rows[|rows| - 1].id {
        assert e in init;
      }
    }
  }

  lemma {:induction false} MaxGoneBounds(rows: seq<Event>, session: string, gone: set<nat>)
    requires Increasing(rows)
    ensures forall e :: e in rows && e.session == session && e.id in gone ==> e.id <= MaxGone(rows, session, gone)
    ensures MaxGone(rows, session, gone) == 0
         || exists e :: e in rows && e.session == session && e.id in gone && e.id == MaxGone(rows, session, gone)
  {
    if rows != [] {
      var init, last := rows[..|rows| - 1], rows[|rows| - 1];
      assert rows == init + [last];
      MaxGoneBounds(init, session, gone);
    }
  }

  /** Retention raises a session's floor to the larger of the old floor and its newest deleted row. */
  lemma RetainFloor(db: Db, gone: set<nat>, session: string)
    requires Increasing(db.rows)
    ensures FloorOf(RetainRows(db, gone).floors, session) >= FloorOf(db.floors, session)
    ensures FloorOf(RetainRows(db, gone).floors, session) >= MaxGone(db.rows, session, gone)
  {
    MaxGoneBounds(db.rows, session, gone);
  }

  /** Deleting rows can only lower a session's newest id to the floor or keep it. */
  lemma LatestSurvives(rows: seq<Event>, session: string, gone: set<nat>)
    requires Increasing(rows)
    ensures LatestOf(rows, session) <= MaxGone(rows, session, gone) || LatestOf(rows, session) <= LatestOf(Keep(rows, gone), session)
  {
    LatestBounds(rows, session);
    KeepIncreasing(rows, gone);
    LatestBounds(Keep(rows, gone), session);
    MaxGoneBounds(rows, session, gone);
  }

  lemma RetainKeepsInv(db: Db, gone: set<nat>)
    requires Inv(db)
    ensures Inv(RetainRows(db, gone))
  {
    var db' := RetainRows(db, gone);
    KeepIncreasing(db.rows, gone);
    forall e | e in db'.history && e !in db'.rows ensures e.id <= FloorOf(db'.floors, e.session) {
      RetainFloor(db, gone, e.session);
      MaxGoneBounds(db.rows, e.session, gone);
    }
    forall c | c in db'.issued ensures c.1 <= FloorOf(db'.floors, c.0) || c.1 <= LatestOf(db'.rows, c.0) {
      RetainFloor(db, gone, c.0);
      LatestSurvives(db.rows, c.0, gone);
    }
    forall c | c in db'.stale ensures c.1 <= FloorOf(db'.floors, c.0) {
      RetainFloor(db, gone, c.0);
    }
  }

  lemma ResetKeepsInv(db: Db, session: string)
    requires Inv(db)
    ensures Inv(ResetSession(db, session))
  {
    var db' := ResetSession(db, session);
    KeepIncreasing(db.rows, IdsOf(db.rows, session));
    LatestBounds(db.rows, session);
    forall e | e in db.rows && e !in db'.rows ensures e.session == session {
      OnlySessionGoes(db.rows, session, e);
    }
    forall c | c in db'.issued ensures c.1 <= FloorOf(db'.floors, c.0) || c.1 <= LatestOf(db'.rows, c.0) {
      ResetCovers(db, session, c);
    }
  }

  lemma ResetCovers(db: Db, session: string, c: (string, nat))
    requires Increasing(db.rows) && (c.1 <= FloorOf(db.floors, c.0) || c.1 <= LatestOf(db.rows, c.0))
    ensures var after := ResetSession(db, session);
            c.1 <= FloorOf(after.floors, c.0) || c.1 <= LatestOf(after.rows, c.0)
  {
    if c.0 != session {
      OtherSessionKept(db.rows, session, c.0);
    }
  }

  lemma OnlySessionGoes(rows: seq<Event>, session: string, e: Event)
    requires Increasing(rows) && e in rows && e.id in IdsOf(rows, session)
    ensures e.session == session
  {
    var x :| x in rows && x.session == session && x.id == e.id;
    IdsIdentify(rows, x, e);
  }

  /** Rebuilding one session leaves the newest row of every other session in place. */
  lemma OtherSessionKept(rows: seq<Event>, session: string, other: string)
    requires Increasing(rows) && other != session
    ensures LatestOf(rows, other) <= LatestOf(Keep(rows, IdsOf(rows, session)), other)
  {
    var gone := IdsOf(rows, session);
    LatestBounds(rows, other);
    KeepIncreasing(rows, gone);
    LatestBounds(Keep(rows, gone), other);
    forall e | e in rows && e.id in gone ensures e.session == session {
      OnlySessionGoes(rows, session, e);
    }
  }

  lemma AppendKeepsInv(db: Db, e: Event)
    requires Inv(db) && LastId(db.history) < e.id
    ensures Inv(Next(db, Append(e)))
  {
    LatestBounds(db.history, e.session);
    var db' := Next(db, Append(e));
    forall c | c in db'.issued ensures c.1 <= FloorOf(db'.floors, c.0) || c.1 <= LatestOf(db'.rows, c.0) {
      LatestBounds(db.rows, c.0);
      assert db'.rows[..|db.rows|] == db.rows;
    }
  }

  lemma StepKeepsInv(db: Db, step: Step)
    requires Inv(db) && Enabled(db, step)
    ensures Inv(Next(db, step))
  {
    match step {
      case Append(e) => AppendKeepsInv(db, e);
      case Retain(gone) => RetainKeepsInv(db, gone);
      case Rebuild(session) => ResetKeepsInv(db, session);
      case IssueBarrier(session) =>
      case IssueEvent(session, cursor) => LatestBounds(db.rows, session);
    }
  }

  lemma {:induction false} RunKeepsInv(states: seq<Db>, steps: seq<Step>, k: nat)
    requires Run(states, steps) && k < |states|
    ensures Inv(states[k])
  {
    if k > 0 {
      RunKeepsInv(states, steps, k - 1);
      StepKeepsInv(states[k - 1], steps[k - 1]);
    }
  }

  // ---------------------------------------------------------------- results

  /** A deleted row is never above its session's floor. */
  lemma DeletedIsBelowFloor(states: seq<Db>, steps: seq<Step>, k: nat, e: Event)
    requires Run(states, steps) && k < |states| && e in states[k].history && e !in states[k].rows
    ensures e.id <= ReadWindow(states[k], e.session, 0).deletedThrough
  {
    RunKeepsInv(states, steps, k);
  }

  /** A cursor the window accepts can be replayed exactly: the rows still in the table above
      it are all the rows its session ever had above it. */
  lemma AcceptedCursorMissesNothing(states: seq<Db>, steps: seq<Step>, k: nat, session: string, cursor: nat, hi: nat)
    requires Run(states, steps) && k < |states|
    requires !ReadWindow(states[k], session, cursor).RequiresReset(cursor)
    ensures Between(states[k].rows, session, cursor, hi) == Between(states[k].history, session, cursor, hi)
  {
    RunKeepsInv(states, steps, k);
    var db := states[k];
    forall e | e in db.history && InWindow(e, session, cursor, hi) ensures e in db.rows {}
    SameRowsSameWindow(db.rows, db.history, session, cursor, hi);
  }

  /** A cursor names a row to resume after: it is accepted exactly while that row is stored
      above the floor. Cursor 0 is accepted exactly while the session has no floor. */
  lemma WindowAcceptsExactly(db: Db, session: string, cursor: nat)
    requires Increasing(db.rows)
    ensures !ReadWindow(db, session, cursor).RequiresReset(cursor) <==>
      if cursor == 0 then FloorOf(db.floors, session) == 0
      else FloorOf(db.floors, session) < cursor && exists e :: e in db.rows && e.session == session && e.id == cursor
  {
    LatestBounds(db.rows, session);
  }

  /** The cursor of any row its session ever had is refused only when the floor has reached it. */
  lemma RowCursorIsAcceptedExactly(states: seq<Db>, steps: seq<Step>, k: nat, e: Event)
    requires Run(states, steps) && k < |states| && e in states[k].history && e.id > 0
    ensures !ReadWindow(states[k], e.session, e.id).RequiresReset(e.id) <==> FloorOf(states[k].floors, e.session) < e.id
  {
    RunKeepsInv(states, steps, k);
    WindowAcceptsExactly(states[k], e.session, e.id);
  }

  /** A floor is the id of a row that was deleted. */
  ghost predicate FloorIsARow(db: Db, session: string) {
    FloorOf(db.floors, session) > 0 ==>
      exists e :: e in db.history && e !in db.rows && e.session == session && e.id == FloorOf(db.floors, session)
  }

  lemma {:induction false} MaxGoneIsARow(rows: seq<Event>, session: string, gone: set<nat>)
    ensures MaxGone(rows, session, gone) > 0 ==>
      exists e :: e in rows && e.session == session && e.id in gone && e.id == MaxGone(rows, session, gone)
  {
    if rows != [] {
      var last := rows[|rows| - 1];
      if !(last.session == session && last.id in gone) {
        MaxGoneIsARow(rows[..|rows| - 1], session, gone);
      }
    }
  }

  lemma FloorStaysARow(db: Db, step: Step, session: string)
    requires Inv(db) && Enabled(db, step) && FloorIsARow(db, session)
    ensures FloorIsARow(Next(db, step), session)
  {
    match step {
      case Append(e) => LatestBounds(db.history, session);
      case Retain(gone) => MaxGoneIsARow(db.rows, session, gone);
      case Rebuild(other) => LatestBounds(db.rows, session);
      case _ =>
    }
  }

  /** Floors are no higher than they must be: each is the id of a row that was deleted. */
  lemma {:induction false} FloorsAreDeletedRows(states: seq<Db>, steps: seq<Step>, k: nat, session: string)
    requires Run(states, steps) && k < |states|
    ensures FloorIsARow(states[k], session)
  {
    if k > 0 {
      FloorsAreDeletedRows(states, steps, k - 1, session);
      RunKeepsInv(states, steps, k - 1);
      FloorStaysARow(states[k - 1], steps[k - 1], session);
    }
  }

  lemma SameRowsSameWindow(rows: seq<Event>, all: seq<Event>, session: string, lo: nat, hi: nat)
    requires Increasing(rows) && Increasing(all)
    requires forall e :: e in rows ==> e in all
    requires forall e :: e in all && InWindow(e, session, lo, hi) ==> e in rows
    ensures Between(rows, session, lo, hi) == Between(all, session, lo, hi)
  {
    BetweenIncreasing(rows, session, lo, hi);
    BetweenIncreasing(all, session, lo, hi);
    IncreasingIsUnique(Between(rows, session, lo, hi), Between(all, session, lo, hi));
  }

  /** The endpoint's own rule: cursor 0 always starts from a full state. */
  predicate EndpointResets(db: Db, session: string, cursor: nat) {
    cursor == 0 || ReadWindow(db, session, cursor).RequiresReset(cursor)
  }

  /** At every later moment, each cursor handed out before a rebuild is refused by the endpoint. */
  lemma RebuildExpiresCursors(states: seq<Db>, steps: seq<Step>, k: nat, session: string, cursor: nat)
    requires Run(states, steps) && k < |states| && (session, cursor) in states[k].stale
    ensures EndpointResets(states[k], session, cursor)
  {
    RunKeepsInv(states, steps, k);
    assert (session, cursor).1 <= FloorOf(states[k].floors, (session, cursor).0);
  }

  /** `requires_reset` alone lets a pre-rebuild cursor through in one case only: cursor 0 of a
      session that has no floor. The endpoint's own test for 0 is what closes it. */
  lemma WindowAloneRefusesStaleExactly(states: seq<Db>, steps: seq<Step>, k: nat, session: string, cursor: nat)
    requires Run(states, steps) && k < |states| && (session, cursor) in states[k].stale
    ensures !ReadWindow(states[k], session, cursor).RequiresReset(cursor)
        <==> cursor == 0 && FloorOf(states[k].floors, session) == 0
  {
    RunKeepsInv(states, steps, k);
    assert (session, cursor).1 <= FloorOf(states[k].floors, (session, cursor).0);
  }

  /** A session's snapshot is taken before its first row, so the browser holds cursor 0; the
      session is rebuilt while it still has none, which leaves no floor. */
  function EarlyRebuild(): seq<Db> {
    var start := Db([], map[], [], {}, {});
    [start, start.(issued := {("s", 0)}), start.(issued := {("s", 0)}, stale := {("s", 0)})]
  }

  /** So the stale cursor 0 is accepted by `requires_reset`, and refused by the endpoint. */
  lemma StaleZeroSlipsThrough()
    ensures Run(EarlyRebuild(), [IssueBarrier("s"), Rebuild("s")])
    ensures ("s", 0) in EarlyRebuild()[2].stale
    ensures !ReadWindow(EarlyRebuild()[2], "s", 0).RequiresReset(0) && EndpointResets(EarlyRebuild()[2], "s", 0)
  {
    var states, steps := EarlyRebuild(), [IssueBarrier("s"), Rebuild("s")];
    assert Next(states[0], steps[0]) == states[1];
    assert states[2].stale == states[1].stale + set c | c in states[1].issued && c.0 == "s";
    assert Next(states[1], steps[1]) == states[2];
    assert forall i :: 0 <= i < 2 ==> Enabled(states[i], steps[i]);
  }

  // ---------------------------------------------------------------- the tables as the code updates them

  class StreamTables {
    var rows: seq<Event>
    var floors: map<string, nat>

    constructor ()
      ensures rows == [] && floors == map[]
    {
      rows := [];
      floors := map[];
    }

    ghost predicate Holds(db: Db)
      reads this
    {
      rows == db.rows && floors == db.floors
    }

    method ReadCursorWindow(session: string, cursor: nat, ghost db: Db) returns (window: Window)
      requires Holds(db)
      ensures window == ReadWindow(db, session, cursor)
    {
      window := Window(if session in floors then floors[session] else 0, LatestOf(rows, session),
                       cursor == 0 || exists e :: e in rows && e.session == session && e.id == cursor);
    }

    /** The outbox loop of `apply_retention`: delete each planned row that still qualifies,
        remember the largest deleted id per session, then raise the floors. */
    method ApplyStreamRetention(plan: seq<nat>, eligible: set<nat>, ghost db: Db)
      requires Holds(db) && Increasing(rows)
      modifies this
      ensures Holds(RetainRows(db, Planned(plan, eligible)))
    {
      ghost var rows0, floors0 := rows, floors;
      var deleted: map<string, nat> := map[];
      ghost var gone: set<nat> := {};
      NothingGone(rows);
      assert Tracks(deleted, rows0, gone) && gone == Planned(plan[..0], eligible);
      var i := 0;
      while i < |plan|
        invariant 0 <= i <= |plan|
        invariant gone == Planned(plan[..i], eligible)
        invariant rows == Keep(rows0, gone) && floors == floors0
        invariant Tracks(deleted, rows0, gone)
      {
        var id := plan[i];
        PlannedNext(plan, i, eligible);
        if id in eligible {
          NoteTracks(deleted, rows0, gone, id);
          deleted := Note(deleted, FindRow(rows, id), id);
          KeepTwice(rows0, gone, {id});
          rows := Keep(rows, {id});
          gone := gone + {id};
        }
        i := i + 1;
      }
      assert plan[..i] == plan;
      MergeIsRetain(db, deleted, gone);
      floors := Merge(floors, deleted);
    }
  }

  /** The planned ids that still qualify when the write transaction rechecks them. */
  function Planned(plan: seq<nat>, eligible: set<nat>): set<nat> {
    set id | id in plan && id in eligible
  }

  lemma PlannedNext(plan: seq<nat>, i: nat, eligible: set<nat>)
    requires i < |plan|
    ensures Planned(plan[..i + 1], eligible) == Planned(plan[..i], eligible) + if plan[i] in eligible then {plan[i]} else {}
  {
    assert plan[..i + 1] == plan[..i] + [plan[i]];
  }

  /** `deleted_stream_cursors` after one more deletion. */
  function Note(deleted: map<string, nat>, found: Option<Event>, id: nat): map<string, nat> {
    if found.None? then deleted
    else deleted[found.value.session := Max(FloorOf(deleted, found.value.session), id)]
  }

  function Merge(floors: map<string, nat>, deleted: map<string, nat>): map<string, nat> {
    map s | s in floors.Keys + deleted.Keys :: Max(FloorOf(floors, s), FloorOf(deleted, s))
  }

  ghost predicate Tracks(deleted: map<string, nat>, rows: seq<Event>, gone: set<nat>) {
    && Increasing(rows)
    && (forall s :: s in deleted ==> deleted[s] > 0)
    && (forall s :: FloorOf(deleted, s) == MaxGone(rows, s, gone))
  }

  lemma NoteTracks(deleted: map<string, nat>, rows: seq<Event>, gone: set<nat>, id: nat)
    requires Tracks(deleted, rows, gone)
    ensures Tracks(Note(deleted, FindRow(Keep(rows, gone), id), id), rows, gone + {id})
  {
    var noted := Note(deleted, FindRow(Keep(rows, gone), id), id);
    forall s ensures FloorOf(noted, s) == MaxGone(rows, s, gone + {id}) {
      MaxGoneGrows(rows, s, gone, id, FindRow(Keep(rows, gone), id));
    }
  }

  lemma MergeIsRetain(db: Db, deleted: map<string, nat>, gone: set<nat>)
    requires Tracks(deleted, db.rows, gone)
    ensures Merge(db.floors, deleted) == RetainRows(db, gone).floors
  {
    var target := RetainRows(db, gone).floors;
    forall s ensures s in deleted <==> MaxGone(db.rows, s, gone) > 0 {
      assert FloorOf(deleted, s) == MaxGone(db.rows, s, gone);
    }
    forall s | MaxGone(db.rows, s, gone) > 0 ensures s in Sessions(db.rows) {
      MaxGoneBounds(db.rows, s, gone);
    }
    assert Merge(db.floors, deleted).Keys == target.Keys;
  }

  function FindRow(rows: seq<Event>, id: nat): (r: Option<Event>)
    ensures r.Some? ==> r.value in rows && r.value.id == id
    ensures r.None? ==> forall e :: e in rows ==> e.id != id
  {
    if rows == [] then None
    else
      assert rows == rows[..|rows| - 1] + [rows[|rows| - 1]];
      if rows[|rows| - 1].id == id then Some(rows[|rows| - 1]) else FindRow(rows[..|rows| - 1], id)
  }

  lemma {:induction false} NothingGone(rows: seq<Event>)
    ensures Keep(rows, {}) == rows && forall s :: MaxGone(rows, s, {}) == 0
  {
    forall s ensures MaxGone(rows, s, {}) == 0 {
      MaxGoneIsARow(rows, s, {});
    }
    KeepAll(rows, {});
  }

  lemma {:induction false} KeepAll(rows: seq<Event>, gone: set<nat>)
    requires gone == {}
    ensures Keep(rows, gone) == rows
  {
    if rows != [] {
      KeepAll(rows[..|rows| - 1], gone);
      assert rows[|rows| - 1].id !in gone;
      assert Keep(rows, gone) == rows[..|rows| - 1] + [rows[|rows| - 1]];
    }
  }

  lemma {:induction false} KeepTwice(rows: seq<Event>, a: set<nat>, b: set<nat>)
    ensures Keep(Keep(rows, a), b) == Keep(rows, a + b)
  {
    if rows != [] {
      var init, last := rows[..|rows| - 1], rows[|rows| - 1];
      KeepTwice(init, a, b);
      if last.id !in a {
        assert (Keep(init, a) + [last])[..|Keep(init, a)|] == Keep(init, a);
      } else {
        assert Keep(init, a) + [] == Keep(init, a);
      }
    }
  }

  /** Deleting one more row moves one session's maximum, and no other. */
  lemma MaxGoneGrows(rows: seq<Event>, session: string, gone: set<nat>, id: nat, found: Option<Event>)
    requires Increasing(rows)
    requires found == FindRow(Keep(rows, gone), id)
    ensures MaxGone(rows, session, gone + {id})
         == if found.Some? && found.value.session == session && MaxGone(rows, session, gone) < id then id else MaxGone(rows, session, gone)
  {
    MaxGoneBounds(rows, session, gone);
    MaxGoneBounds(rows, session, gone + {id});
    if found.Some? {
      var x := found.value;
      forall e | e in rows && e.id == id ensures e == x {
        IdsIdentify(rows, e, x);
      }
    } else {
      forall e | e in rows && e.id == id ensures e.id in gone {}
    }
  }
}
