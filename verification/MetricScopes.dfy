/** Which charts an event boundary forces a point on. */
module MetricScopes {
  import opened Common
  import opened MetricStore
  import opened BoundaryState

  function SessionScope(x: Boundary): Scope {
    Scope("session", if x.session != [] && x.session[0].Some? then x.session[0].value else "")
  }

  function ClassScope(key: string): Scope { Scope("class", key) }
  function ParticipantScope(id: string): Scope { Scope("participant", id) }

  function ClassKeys(x: Boundary): set<string> { set o | o in x.classOrders :: o.key }
  function Ids(x: Boundary): set<string> { set p | p in x.participants :: p.id }

  /** What a dict built over the orders holds for a class: the last one. */
  function OrderOf(orders: seq<ClassOrder>, key: string): Option<seq<string>> {
    if orders == [] then None
    else if orders[|orders| - 1].key == key then Some(orders[|orders| - 1].members)
    else OrderOf(orders[..|orders| - 1], key)
  }

  function OursClass(x: Boundary): Option<string> {
    var ours := if x.ours.Some? then Named(x.participants, x.ours.value) else None;
    if ours.Some? then ours.value.classKey else None
  }

  function When(condition: bool, scope: Scope): set<Scope> { if condition then {scope} else {} }

  /** A class whose order is not what it was. */
  function ClassChange(prior: Boundary, now: Boundary, key: string): set<Scope> {
    if OrderOf(prior.classOrders, key) == OrderOf(now.classOrders, key) then {}
    else When(key in ClassKeys(now), ClassScope(key)) + When(Some(key) == OursClass(now), SessionScope(now))
  }

  /** A participant that is not what it was: its own chart, its class, and the session when it
      is ours or of our class. */
  function ParticipantChange(prior: Boundary, now: Boundary, id: string): set<Scope> {
    var left, right := Named(prior.participants, id), Named(now.participants, id);
    if left == right then {}
    else if right.Some? then
      {ParticipantScope(id)}
      + (if right.value.classKey.Some? then {ClassScope(right.value.classKey.value)} else {})
      + When(Some(id) == now.ours || right.value.classKey == OursClass(now), SessionScope(now))
    else if left.value.classKey.Some? && left.value.classKey.value in ClassKeys(now) then
      {ClassScope(left.value.classKey.value)} + When(left.value.classKey == OursClass(now), SessionScope(now))
    else {}
  }

  /** `_event_scopes`. */
  function EventScopes(previous: Option<Boundary>, now: Boundary): set<Scope> {
    if previous.None? || previous.value.sourceHeatId != now.sourceHeatId then
      {SessionScope(now)} + (set key | key in ClassKeys(now) :: ClassScope(key)) + (set id | id in Ids(now) :: ParticipantScope(id))
    else
      var prior := previous.value;
      When(prior.session != now.session || prior.flag != now.flag || prior.sourceGap != now.sourceGap || prior.ours != now.ours,
           SessionScope(now))
      + (set key, s | key in ClassKeys(prior) + ClassKeys(now) && s in ClassChange(prior, now, key) :: s)
      + (set id, s | id in Ids(prior) + Ids(now) && s in ParticipantChange(prior, now, id) :: s)
  }

  /** A cursor compared with itself forces no point. */
  lemma QuietForcesNothing(now: Boundary)
    ensures EventScopes(Some(now), now) == {}
  {
  }

  /** An ingest gap that opens or closes forces the session's chart, and no other. */
  lemma GapForcesSession(prior: Boundary, gap: Option<Gap>)
    ensures EventScopes(Some(prior), prior.(sourceGap := gap)) == When(gap != prior.sourceGap, SessionScope(prior))
  {
    var now := prior.(sourceGap := gap);
    assert forall key :: ClassChange(prior, now, key) == {};
    assert forall id :: ParticipantChange(prior, now, id) == {};
  }

  /** Where no event is announced, no point is forced. */
  lemma ForcedIsAnnounced(prior: Boundary, now: Boundary, ids: seq<string>)
    requires Built(prior) && Built(now) && ListsBoth(ids, prior.participants, now.participants)
    requires DetectEvents(Some(prior), now, ids) == []
    ensures EventScopes(Some(prior), now) == {}
  {
    SilentExactlyWhenEqual(prior, now, ids);
    QuietForcesNothing(now);
  }

  /** Within a heat, a participant's chart is forced exactly by a change of that participant:
      what happens to the others forces no point on it. */
  lemma ParticipantForcedExactly(prior: Boundary, now: Boundary, id: string)
    requires prior.sourceHeatId == now.sourceHeatId
    ensures ParticipantScope(id) in EventScopes(Some(prior), now) <==>
      Named(now.participants, id).Some? && Named(prior.participants, id) != Named(now.participants, id)
  {
    NamedHas(now.participants, id);
    if Named(now.participants, id).Some? && Named(prior.participants, id) != Named(now.participants, id) {
      assert id in Ids(now) && ParticipantScope(id) in ParticipantChange(prior, now, id);
    }
  }
}
