/** The event cursor a metric runner persists: its JSON form, the strict reader, and the
    events derived from two successive cursors. */
module BoundaryState {
  import opened Common
  import opened ParsedJson
  import M = MetricStore

  /** Identity of one GAP or DIFF cell. */
  datatype Pointer = Pointer(a: Option<int>, b: Option<int>, c: Option<int>, kind: Option<string>, value: Option<int>, text: Option<string>)
  datatype Flag = Flag(flag: Option<string>, startedAt: Option<int>, code: Option<string>, caption: Option<string>)
  datatype Gap = Gap(startedAt: int, reason: string)
  datatype Pit = Pit(number: Option<int>, entered: Option<int>, exited: Option<int>, completed: Option<bool>)
  datatype Stint = Stint(number: Option<int>, startedAt: Option<int>, completedLaps: Option<int>)
  datatype ClassOrder = ClassOrder(key: string, members: seq<string>)

  datatype Participant = Participant(
    id: string,
    classKey: Option<string>,
    identity: seq<Option<string>>,
    driverName: Option<string>,
    positionOverall: Option<int>,
    positionClass: Option<int>,
    completedLaps: Option<int>,
    stateKind: Option<string>,
    lastLapMs: Option<int>,
    latestTimingEventId: Option<int>,
    bestLapMs: Option<int>,
    gapPointer: Option<Pointer>,
    diffPointer: Option<Pointer>,
    pits: seq<Pit>,
    activeStint: Option<Stint>)

  datatype Boundary = Boundary(
    sourceHeatId: int,
    session: seq<Option<string>>,
    flag: Option<Flag>,
    sourceGap: Option<Gap>,
    ours: Option<string>,
    participants: seq<Participant>,
    classOrders: seq<ClassOrder>)

  // ---------------------------------------------------------------- encoding

  function FromText(t: Option<string>): Json { if t.Some? then Text(t.value) else Null }
  function FromInt(i: Option<int>): Json { if i.Some? then Int(i.value) else Null }
  function FromBool(b: Option<bool>): Json { if b.Some? then Bool(b.value) else Null }

  function FromTexts(ts: seq<Option<string>>): seq<Json> {
    seq(|ts|, i requires 0 <= i < |ts| => FromText(ts[i]))
  }

  function FromPointer(p: Option<Pointer>): Json {
    if p.None? then Null
    else Array([FromInt(p.value.a), FromInt(p.value.b), FromInt(p.value.c), FromText(p.value.kind), FromInt(p.value.value), FromText(p.value.text)])
  }

  function FromPit(p: Pit): Json {
    Array([FromInt(p.number), FromInt(p.entered), FromInt(p.exited), FromBool(p.completed)])
  }

  function FromPits(ps: seq<Pit>): seq<Json> {
    seq(|ps|, i requires 0 <= i < |ps| => FromPit(ps[i]))
  }

  function FromStint(s: Option<Stint>): Json {
    if s.None? then Null else Array([FromInt(s.value.number), FromInt(s.value.startedAt), FromInt(s.value.completedLaps)])
  }

  /** The members of a participant object, in key order. */
  function ParticipantRecord(v: seq<Json>): map<string, Json>
    requires |v| == 15
  {
    map[
      "active_stint" := v[0],
      "best_lap_ms" := v[1],
      "class_key" := v[2],
      "completed_laps" := v[3],
      "diff_interval_fact_pointer" := v[4],
      "driver_name" := v[5],
      "gap_interval_fact_pointer" := v[6],
      "identity" := v[7],
      "last_lap_ms" := v[8],
      "latest_timing_event_id" := v[9],
      "participant_id" := v[10],
      "pits" := v[11],
      "position_class" := v[12],
      "position_overall" := v[13],
      "state_kind" := v[14]]
  }

  function ParticipantValues(p: Participant): seq<Json> {
    [
      FromStint(p.activeStint), FromInt(p.bestLapMs), FromText(p.classKey),
      FromInt(p.completedLaps), FromPointer(p.diffPointer), FromText(p.driverName),
      FromPointer(p.gapPointer), Array(FromTexts(p.identity)), FromInt(p.lastLapMs),
      FromInt(p.latestTimingEventId), Text(p.id), Array(FromPits(p.pits)),
      FromInt(p.positionClass), FromInt(p.positionOverall), FromText(p.stateKind)]
  }

  function FromParticipant(p: Participant): Json { Object(ParticipantRecord(ParticipantValues(p))) }

  function FromParticipants(ps: seq<Participant>): seq<Json> {
    seq(|ps|, i requires 0 <= i < |ps| => FromParticipant(ps[i]))
  }

  function FromNames(names: seq<string>): seq<Json> {
    seq(|names|, i requires 0 <= i < |names| => Text(names[i]))
  }

  function FromOrder(o: ClassOrder): Json { Array([Text(o.key), Array(FromNames(o.members))]) }

  function FromOrders(os: seq<ClassOrder>): seq<Json> {
    seq(|os|, i requires 0 <= i < |os| => FromOrder(os[i]))
  }

  function FromFlag(f: Option<Flag>): Json {
    if f.None? then Null
    else Array([FromText(f.value.flag), FromInt(f.value.startedAt), FromText(f.value.code), FromText(f.value.caption)])
  }

  function FromGap(g: Option<Gap>): Json {
    if g.None? then Null else Array([Int(g.value.startedAt), Text(g.value.reason)])
  }

  /** `serialize_metric_boundary_state`, keys as written. */
  function Serialize(x: Boundary): Json {
    Object(map[
      "class_order_members" := Array(FromOrders(x.classOrders)),
      "flag" := FromFlag(x.flag),
      "ours_participant_id" := FromText(x.ours),
      "participants" := Array(FromParticipants(x.participants)),
      "session" := Array(FromTexts(x.session)),
      "source_gap" := FromGap(x.sourceGap),
      "source_heat_id" := Int(x.sourceHeatId)])
  }

  // ---------------------------------------------------------------- decoding

  function OptText(j: Json): Option<string> { if j.Text? then Some(j.s) else None }
  function OptInt(j: Json): Option<int> { if j.Int? then Some(j.i) else None }
  function OptBool(j: Json): Option<bool> { if j.Bool? then Some(j.b) else None }
  function AtLeast(j: Json, minimum: int): Option<int> { if j.Int? && j.i >= minimum then Some(j.i) else None }

  function OptTexts(js: seq<Json>): seq<Option<string>> {
    seq(|js|, i requires 0 <= i < |js| => OptText(js[i]))
  }

  /** `None` is a rejected document, `Some(None)` an absent pointer. */
  function ToPointer(j: Json): Option<Option<Pointer>> {
    if j.Null? then Some(None)
    else if !j.Array? || |j.items| != 6 then None
    else
      var v := j.items;
      var p := Pointer(AtLeast(v[0], 1), AtLeast(v[1], 1), AtLeast(v[2], 1), OptText(v[3]), AtLeast(v[4], 0), OptText(v[5]));
      if p == Pointer(None, None, None, None, None, None) then Some(None) else Some(Some(p))
  }

  function ToPit(j: Json): Option<Pit> {
    if !j.Array? || |j.items| != 4 then None
    else Some(Pit(OptInt(j.items[0]), OptInt(j.items[1]), OptInt(j.items[2]), OptBool(j.items[3])))
  }

  function ToPits(js: seq<Json>): Option<seq<Pit>> {
    if js == [] then Some([])
    else
      var init, last := ToPits(js[..|js| - 1]), ToPit(js[|js| - 1]);
      if init.None? || last.None? then None else Some(init.value + [last.value])
  }

  function ToStint(j: Json): Option<Option<Stint>> {
    if j.Null? then Some(None)
    else if !j.Array? || |j.items| != 3 then None
    else Some(Some(Stint(OptInt(j.items[0]), OptInt(j.items[1]), OptInt(j.items[2]))))
  }

  function ToParticipant(j: Json): Option<Participant> {
    if j.Object? then ReadParticipant(j.fields) else None
  }

  function ReadParticipant(m: map<string, Json>): Option<Participant> {
    var id, identity, pits := Field(m, "participant_id"), Field(m, "identity"), Field(m, "pits");
    if !id.Text? || !identity.Array? || |identity.items| != 4 || !pits.Array? then None
    else
      var gap, diff := ToPointer(Field(m, "gap_interval_fact_pointer")), ToPointer(Field(m, "diff_interval_fact_pointer"));
      var pitList, stint := ToPits(pits.items), ToStint(Field(m, "active_stint"));
      if gap.None? || diff.None? || pitList.None? || stint.None? then None
      else Some(Participant(
        id.s, OptText(Field(m, "class_key")), OptTexts(identity.items), OptText(Field(m, "driver_name")),
        OptInt(Field(m, "position_overall")), OptInt(Field(m, "position_class")), OptInt(Field(m, "completed_laps")),
        OptText(Field(m, "state_kind")), OptInt(Field(m, "last_lap_ms")), OptInt(Field(m, "latest_timing_event_id")),
        OptInt(Field(m, "best_lap_ms")), gap.value, diff.value, pitList.value, stint.value))
  }

  function ToParticipants(js: seq<Json>): Option<seq<Participant>> {
    if js == [] then Some([])
    else
      var init, last := ToParticipants(js[..|js| - 1]), ToParticipant(js[|js| - 1]);
      if init.None? || last.None? then None else Some(init.value + [last.value])
  }

  function ToNames(js: seq<Json>): Option<seq<string>> {
    if js == [] then Some([])
    else
      var init, last := ToNames(js[..|js| - 1]), js[|js| - 1];
      if init.None? || !last.Text? then None else Some(init.value + [last.s])
  }

  function ToOrder(j: Json): Option<ClassOrder> {
    if !j.Array? || |j.items| != 2 || !j.items[0].Text? || !j.items[1].Array? then None
    else
      var names := ToNames(j.items[1].items);
      if names.None? then None else Some(ClassOrder(j.items[0].s, names.value))
  }

  function ToOrders(js: seq<Json>): Option<seq<ClassOrder>> {
    if js == [] then Some([])
    else
      var init, last := ToOrders(js[..|js| - 1]), ToOrder(js[|js| - 1]);
      if init.None? || last.None? then None else Some(init.value + [last.value])
  }

  function ToFlag(j: Json): Option<Option<Flag>> {
    if j.Null? then Some(None)
    else if !j.Array? || |j.items| != 4 then None
    else Some(Some(Flag(OptText(j.items[0]), OptInt(j.items[1]), OptText(j.items[2]), OptText(j.items[3]))))
  }

  function ToGap(j: Json): Option<Option<Gap>> {
    if j.Null? then Some(None)
    else if !j.Array? || |j.items| != 2 || AtLeast(j.items[0], 0).None? || !j.items[1].Text? then None
    else Some(Some(Gap(j.items[0].i, j.items[1].s)))
  }

  /** `deserialize_metric_boundary_state` on parsed JSON; `None` is its `ValueError`. */
  function Deserialize(j: Json): Option<Boundary> {
    if j.Object? then ReadBoundary(j.fields) else None
  }

  function ReadBoundary(m: map<string, Json>): Option<Boundary> {
    var session, participants, orders := Field(m, "session"), Field(m, "participants"), Field(m, "class_order_members");
    if AtLeast(Field(m, "source_heat_id"), 1).None? then None
    else if !session.Array? || |session.items| != 5 || !participants.Array? || !orders.Array? then None
    else
      var flag, gap := ToFlag(Field(m, "flag")), ToGap(Field(m, "source_gap"));
      var people, order := ToParticipants(participants.items), ToOrders(orders.items);
      if flag.None? || gap.None? || people.None? || order.None? then None
      else Some(Boundary(
        Field(m, "source_heat_id").i, OptTexts(session.items), flag.value, gap.value,
        OptText(Field(m, "ours_participant_id")), people.value, order.value))
  }

  // ---------------------------------------------------------------- round trip

  predicate PointerOk(p: Option<Pointer>) {
    p.Some? ==>
      && p.value != Pointer(None, None, None, None, None, None)
      && (p.value.a.Some? ==> p.value.a.value >= 1)
      && (p.value.b.Some? ==> p.value.b.value >= 1)
      && (p.value.c.Some? ==> p.value.c.value >= 1)
      && (p.value.value.Some? ==> p.value.value.value >= 0)
  }

  predicate ParticipantOk(p: Participant) {
    |p.identity| == 4 && PointerOk(p.gapPointer) && PointerOk(p.diffPointer)
  }

  function Keep(i: Option<int>, minimum: int): Option<int> { if i.Some? && i.value >= minimum then i else None }

  /** `_interval_fact_pointer`: every pointer the engine builds can be persisted. */
  function BuildPointer(p: Pointer): (r: Option<Pointer>)
    ensures PointerOk(r)
    ensures PointerOk(Some(p)) ==> r == Some(p)
  {
    var kept := Pointer(Keep(p.a, 1), Keep(p.b, 1), Keep(p.c, 1), p.kind, Keep(p.value, 0), p.text);
    if kept == Pointer(None, None, None, None, None, None) then None else Some(kept)
  }

  /** What a persisted cursor must satisfy to come back as it was. */
  predicate WellFormed(x: Boundary) {
    && x.sourceHeatId >= 1
    && |x.session| == 5
    && (x.sourceGap.Some? ==> x.sourceGap.value.startedAt >= 0)
    && forall p :: p in x.participants ==> ParticipantOk(p)
  }

  lemma TextsRoundTrip(ts: seq<Option<string>>)
    ensures OptTexts(FromTexts(ts)) == ts
  {
  }

  lemma PointerRoundTrip(p: Option<Pointer>)
    ensures ToPointer(FromPointer(p)).Some?
    ensures ToPointer(FromPointer(p)) == Some(p) <==> PointerOk(p)
  {
  }

  lemma {:induction false} PitsRoundTrip(ps: seq<Pit>)
    ensures ToPits(FromPits(ps)) == Some(ps)
  {
    if ps != [] {
      PitsRoundTrip(ps[..|ps| - 1]);
      assert ps == ps[..|ps| - 1] + [ps[|ps| - 1]];
      assert FromPits(ps)[..|ps| - 1] == FromPits(ps[..|ps| - 1]);
    }
  }

  lemma {:induction false} NamesRoundTrip(names: seq<string>)
    ensures ToNames(FromNames(names)) == Some(names)
  {
    if names != [] {
      NamesRoundTrip(names[..|names| - 1]);
      assert names == names[..|names| - 1] + [names[|names| - 1]];
      assert FromNames(names)[..|names| - 1] == FromNames(names[..|names| - 1]);
    }
  }

  lemma {:induction false} OrdersRoundTrip(os: seq<ClassOrder>)
    ensures ToOrders(FromOrders(os)) == Some(os)
  {
    if os != [] {
      OrdersRoundTrip(os[..|os| - 1]);
      assert os == os[..|os| - 1] + [os[|os| - 1]];
      NamesRoundTrip(os[|os| - 1].members);
      assert FromOrders(os)[..|os| - 1] == FromOrders(os[..|os| - 1]);
    }
  }

  ghost predicate Holds(m: map<string, Json>, v: seq<Json>)
    requires |v| == 15
  {
    && Field(m, "active_stint") == v[0]
    && Field(m, "best_lap_ms") == v[1]
    && Field(m, "class_key") == v[2]
    && Field(m, "completed_laps") == v[3]
    && Field(m, "diff_interval_fact_pointer") == v[4]
    && Field(m, "driver_name") == v[5]
    && Field(m, "gap_interval_fact_pointer") == v[6]
    && Field(m, "identity") == v[7]
    && Field(m, "last_lap_ms") == v[8]
    && Field(m, "latest_timing_event_id") == v[9]
    && Field(m, "participant_id") == v[10]
    && Field(m, "pits") == v[11]
    && Field(m, "position_class") == v[12]
    && Field(m, "position_overall") == v[13]
    && Field(m, "state_kind") == v[14]
  }

  lemma RecordHolds(v: seq<Json>)
    requires |v| == 15
    ensures Holds(ParticipantRecord(v), v)
  {
  }

  /** What the reader makes of a written pointer. */
  function ReadPointer(p: Option<Pointer>): (r: Option<Pointer>)
    ensures r == p <==> PointerOk(p)
  {
    PointerRoundTrip(p);
    ToPointer(FromPointer(p)).value
  }

  lemma ReadsBack(m: map<string, Json>, p: Participant)
    requires Holds(m, ParticipantValues(p))
    ensures ReadParticipant(m).Some? <==> |p.identity| == 4
    ensures ReadParticipant(m).Some? ==>
      ReadParticipant(m).value == p.(gapPointer := ReadPointer(p.gapPointer), diffPointer := ReadPointer(p.diffPointer))
  {
    TextsRoundTrip(p.identity);
    PitsRoundTrip(p.pits);
    StintRoundTrip(p.activeStint);
    PointerRoundTrip(p.gapPointer);
    PointerRoundTrip(p.diffPointer);
  }

  lemma StintRoundTrip(s: Option<Stint>)
    ensures ToStint(FromStint(s)) == Some(s)
  {
  }

  lemma ParticipantRoundTrip(p: Participant)
    ensures ToParticipant(FromParticipant(p)) == Some(p) <==> ParticipantOk(p)
  {
    RecordHolds(ParticipantValues(p));
    ReadsBack(ParticipantRecord(ParticipantValues(p)), p);
  }

  lemma {:induction false} ReadsAll(js: seq<Json>, ps: seq<Participant>)
    requires |js| == |ps| && forall i :: 0 <= i < |js| ==> (ToParticipant(js[i]) == Some(ps[i]) <==> ParticipantOk(ps[i]))
    ensures ToParticipants(js) == Some(ps) <==> forall i :: 0 <= i < |ps| ==> ParticipantOk(ps[i])
  {
    if js != [] {
      var n := |js| - 1;
      ReadsAll(js[..n], ps[..n]);
      DecodedLength(js[..n]);
      assert ps == ps[..n] + [ps[n]];
    }
  }

  lemma ParticipantsRoundTrip(ps: seq<Participant>)
    ensures ToParticipants(FromParticipants(ps)) == Some(ps) <==> forall p :: p in ps ==> ParticipantOk(p)
  {
    var js := FromParticipants(ps);
    forall i | 0 <= i < |ps| ensures ToParticipant(js[i]) == Some(ps[i]) <==> ParticipantOk(ps[i]) {
      ParticipantRoundTrip(ps[i]);
    }
    ReadsAll(js, ps);
  }

  lemma {:induction false} DecodedLength(js: seq<Json>)
    ensures ToParticipants(js).Some? ==> |ToParticipants(js).value| == |js|
  {
    if js != [] {
      DecodedLength(js[..|js| - 1]);
    }
  }

  lemma StateFields(x: Boundary)
    ensures var m := Serialize(x).fields;
      && Field(m, "flag") == FromFlag(x.flag)
      && Field(m, "ours_participant_id") == FromText(x.ours)
      && Field(m, "session") == Array(FromTexts(x.session))
      && Field(m, "source_gap") == FromGap(x.sourceGap)
      && Field(m, "source_heat_id") == Int(x.sourceHeatId)
    ensures Field(Serialize(x).fields, "participants") == Array(FromParticipants(x.participants))
    ensures Field(Serialize(x).fields, "class_order_members") == Array(FromOrders(x.classOrders))
  {
  }

  lemma HeaderRoundTrip(x: Boundary)
    ensures OptTexts(FromTexts(x.session)) == x.session
    ensures ToFlag(FromFlag(x.flag)) == Some(x.flag)
    ensures ToGap(FromGap(x.sourceGap)) == Some(x.sourceGap) <==> (x.sourceGap.Some? ==> x.sourceGap.value.startedAt >= 0)
    ensures ToGap(FromGap(x.sourceGap)).Some? ==> ToGap(FromGap(x.sourceGap)) == Some(x.sourceGap)
  {
    TextsRoundTrip(x.session);
  }

  /** The lists of a document that read back as `people` and `orders`. */
  lemma StateReadsBack(m: map<string, Json>, x: Boundary, people: seq<Json>, orders: seq<Json>)
    requires Field(m, "flag") == FromFlag(x.flag) && Field(m, "ours_participant_id") == FromText(x.ours)
    requires Field(m, "session") == Array(FromTexts(x.session)) && Field(m, "source_gap") == FromGap(x.sourceGap)
    requires Field(m, "source_heat_id") == Int(x.sourceHeatId)
    requires Field(m, "participants") == Array(people) && Field(m, "class_order_members") == Array(orders)
    requires ToOrders(orders) == Some(x.classOrders)
    ensures ReadBoundary(m) == Some(x) <==>
      && x.sourceHeatId >= 1 && |x.session| == 5
      && (x.sourceGap.Some? ==> x.sourceGap.value.startedAt >= 0)
      && ToParticipants(people) == Some(x.participants)
  {
    HeaderRoundTrip(x);
  }

  /** A cursor survives a restart exactly when it is well formed. */
  lemma BoundaryRoundTrip(x: Boundary)
    ensures Deserialize(Serialize(x)) == Some(x) <==> WellFormed(x)
  {
    StateFields(x);
    OrdersRoundTrip(x.classOrders);
    ParticipantsRoundTrip(x.participants);
    StateReadsBack(Serialize(x).fields, x, FromParticipants(x.participants), FromOrders(x.classOrders));
  }

  lemma {:induction false} DecodedParticipantsOk(js: seq<Json>)
    requires ToParticipants(js).Some?
    ensures forall p :: p in ToParticipants(js).value ==> ParticipantOk(p)
  {
    if js != [] {
      DecodedParticipantsOk(js[..|js| - 1]);
    }
  }

  /** Whatever the reader lets in is well formed, so writing it back loses nothing. */
  lemma AcceptedIsWellFormed(j: Json)
    requires Deserialize(j).Some?
    ensures WellFormed(Deserialize(j).value)
    ensures Deserialize(Serialize(Deserialize(j).value)) == Deserialize(j)
  {
    DecodedParticipantsOk(Field(j.fields, "participants").items);
    BoundaryRoundTrip(Deserialize(j).value);
  }

  // ---------------------------------------------------------------- events between two cursors

  datatype Event =
    | InitialSnapshot
    | SourceHeatChanged
    | SessionLifecycle
    | TrackFlag
    | SourceGap
    | OursIdentity
    | ClassOrderChanged(key: string)
    | Roster(id: string)
    | IdentityChanged(id: string)
    | IntervalFact(id: string, field: string)
    | StateChanged(id: string)
    | LapChanged(id: string)
    | PitOrStint(id: string)
    | PositionChanged(id: string)

  function If(condition: bool, event: Event): seq<Event> { if condition then [event] else [] }

  function OrderEvents(orders: seq<ClassOrder>): seq<Event> {
    seq(|orders|, i requires 0 <= i < |orders| => ClassOrderChanged(orders[i].key))
  }

  function ParticipantEvents(id: string, left: Option<Participant>, right: Option<Participant>): seq<Event> {
    if left.None? || right.None? then [Roster(id)]
    else
      var l, r := left.value, right.value;
      If(l.identity != r.identity || l.driverName != r.driverName || l.classKey != r.classKey, IdentityChanged(id))
      + If(l.gapPointer != r.gapPointer, IntervalFact(id, "GAP"))
      + If(l.diffPointer != r.diffPointer, IntervalFact(id, "DIFF"))
      + If(l.stateKind != r.stateKind, StateChanged(id))
      + If(l.completedLaps != r.completedLaps || l.lastLapMs != r.lastLapMs
           || l.latestTimingEventId != r.latestTimingEventId || l.bestLapMs != r.bestLapMs, LapChanged(id))
      + If(l.pits != r.pits || l.activeStint != r.activeStint, PitOrStint(id))
      + If(l.positionOverall != r.positionOverall || l.positionClass != r.positionClass, PositionChanged(id))
  }

  /** The participant a dict built over the list holds for an id: the last one. */
  function Named(ps: seq<Participant>, id: string): Option<Participant> {
    if ps == [] then None
    else if ps[|ps| - 1].id == id then Some(ps[|ps| - 1])
    else Named(ps[..|ps| - 1], id)
  }

  function RosterEvents(ids: seq<string>, before: seq<Participant>, after: seq<Participant>): seq<Event> {
    if ids == [] then []
    else
      var n := |ids| - 1;
      RosterEvents(ids[..n], before, after) + ParticipantEvents(ids[n], Named(before, ids[n]), Named(after, ids[n]))
  }

  /** `ids` lists every participant of either cursor. */
  ghost predicate ListsBoth(ids: seq<string>, before: seq<Participant>, after: seq<Participant>) {
    forall id :: id in ids <==> Named(before, id).Some? || Named(after, id).Some?
  }

  /** `detect_event_boundaries`; `ids` is the sorted union of both rosters. */
  function DetectEvents(previous: Option<Boundary>, now: Boundary, ids: seq<string>): seq<Event> {
    if previous.None? then [InitialSnapshot]
    else
      var prior := previous.value;
      if prior.sourceHeatId != now.sourceHeatId then [SourceHeatChanged]
      else
        If(prior.session != now.session, SessionLifecycle)
        + If(prior.flag != now.flag, TrackFlag)
        + If(prior.sourceGap != now.sourceGap, SourceGap)
        + If(prior.ours != now.ours, OursIdentity)
        + (if prior.classOrders != now.classOrders then OrderEvents(now.classOrders) else [])
        + RosterEvents(ids, prior.participants, now.participants)
  }

  lemma {:induction false} NamedHas(ps: seq<Participant>, id: string)
    ensures Named(ps, id).Some? ==> Named(ps, id).value in ps && Named(ps, id).value.id == id
    ensures Named(ps, id).None? <==> forall p :: p in ps ==> p.id != id
  {
    if ps != [] {
      assert ps == ps[..|ps| - 1] + [ps[|ps| - 1]];
      NamedHas(ps[..|ps| - 1], id);
    }
  }

  ghost predicate SameRoster(before: seq<Participant>, after: seq<Participant>) {
    forall id :: Named(before, id) == Named(after, id)
  }

  lemma NoParticipantEvents(id: string, left: Option<Participant>, right: Option<Participant>)
    requires (left.Some? ==> left.value.id == id) && (right.Some? ==> right.value.id == id)
    ensures ParticipantEvents(id, left, right) == [] <==> left.Some? && left == right
  {
  }

  lemma {:induction false} NoRosterEvents(ids: seq<string>, before: seq<Participant>, after: seq<Participant>)
    ensures RosterEvents(ids, before, after) == [] <==>
      forall id :: id in ids ==> Named(before, id).Some? && Named(before, id) == Named(after, id)
  {
    if ids != [] {
      var n := |ids| - 1;
      assert ids == ids[..n] + [ids[n]];
      NoRosterEvents(ids[..n], before, after);
      NamedHas(before, ids[n]);
      NamedHas(after, ids[n]);
      NoParticipantEvents(ids[n], Named(before, ids[n]), Named(after, ids[n]));
    }
  }

  /** On any two cursors, whatever their class orders: a change of those is announced by naming
      the present classes. */
  lemma NoEventExactly(prior: Boundary, now: Boundary, ids: seq<string>)
    requires ListsBoth(ids, prior.participants, now.participants)
    ensures DetectEvents(Some(prior), now, ids) == [] <==>
      && prior.(participants := [], classOrders := []) == now.(participants := [], classOrders := [])
      && SameRoster(prior.participants, now.participants)
      && (prior.classOrders == now.classOrders || now.classOrders == [])
  {
    NoRosterEvents(ids, prior.participants, now.participants);
  }

  ghost predicate HasClass(ps: seq<Participant>, key: string) {
    exists p :: p in ps && p.classKey == Some(key)
  }

  ghost predicate HasOrder(orders: seq<ClassOrder>, key: string) {
    exists o :: o in orders && o.key == key
  }

  ghost predicate Ascending(ps: seq<Participant>) {
    forall i, j :: 0 <= i < j < |ps| ==> M.TextLess(ps[i].id, ps[j].id)
  }

  /** What `build_boundary_state` returns: participants sorted by their distinct ids, and an
      order for each class that some participant is in. */
  ghost predicate Built(x: Boundary) {
    Ascending(x.participants) && forall key :: HasOrder(x.classOrders, key) <==> HasClass(x.participants, key)
  }

  lemma LastIsNamed(a: seq<Participant>, b: seq<Participant>)
    requires a != [] && Ascending(b) && SameRoster(a, b)
    ensures b != [] && (a[|a| - 1].id == b[|b| - 1].id || M.TextLess(a[|a| - 1].id, b[|b| - 1].id))
  {
    var x := a[|a| - 1];
    assert Named(a, x.id) == Some(x);
    NamedHas(b, x.id);
    var k :| 0 <= k < |b| && b[k] == x;
  }

  lemma InitIsSame(a: seq<Participant>, b: seq<Participant>)
    requires a != [] && b != [] && Ascending(a) && Ascending(b) && SameRoster(a, b) && a[|a| - 1].id == b[|b| - 1].id
    ensures SameRoster(a[..|a| - 1], b[..|b| - 1])
  {
    var last := a[|a| - 1].id;
    M.TextOrder(last, last);
    NamedHas(a[..|a| - 1], last);
    NamedHas(b[..|b| - 1], last);
    var x, y := a[..|a| - 1], b[..|b| - 1];
    forall id ensures Named(x, id) == Named(y, id) {
      assert Named(a, id) == Named(b, id);
    }
  }

  /** A sorted roster is determined by whom it names. */
  lemma {:induction false} SortedRosterIsUnique(a: seq<Participant>, b: seq<Participant>)
    requires Ascending(a) && Ascending(b) && SameRoster(a, b)
    ensures a == b
  {
    if a != [] {
      LastIsNamed(a, b);
      LastIsNamed(b, a);
      var x, y := a[|a| - 1], b[|b| - 1];
      M.TextOrder(x.id, y.id);
      InitIsSame(a, b);
      SortedRosterIsUnique(a[..|a| - 1], b[..|b| - 1]);
      assert Named(a, x.id) == Some(x) && Named(b, x.id) == Some(y);
      assert a == a[..|a| - 1] + [x] && b == b[..|b| - 1] + [y];
    } else if b != [] {
      LastIsNamed(b, a);
    }
  }

  lemma OrdersGoWithRoster(prior: Boundary, now: Boundary)
    requires Built(prior) && Built(now) && prior.participants == now.participants
    ensures prior.classOrders != [] ==> now.classOrders != []
  {
    if prior.classOrders != [] {
      assert HasOrder(prior.classOrders, prior.classOrders[0].key);
    }
  }

  /** Of cursors the engine builds: no event is announced exactly when nothing has changed. A
      class can only disappear with its participants, and that is announced. */
  lemma SilentExactlyWhenEqual(prior: Boundary, now: Boundary, ids: seq<string>)
    requires Built(prior) && Built(now) && ListsBoth(ids, prior.participants, now.participants)
    ensures DetectEvents(Some(prior), now, ids) == [] <==> prior == now
  {
    NoEventExactly(prior, now, ids);
    if DetectEvents(Some(prior), now, ids) == [] {
      SortedRosterIsUnique(prior.participants, now.participants);
      OrdersGoWithRoster(prior, now);
    }
  }

  /** A frame evaluated again after its own cursor was stored announces nothing. */
  lemma RetryAnnouncesNothing(now: Boundary, ids: seq<string>)
    requires ListsBoth(ids, now.participants, now.participants)
    ensures DetectEvents(Some(now), now, ids) == []
  {
    NoEventExactly(now, now, ids);
  }
}
