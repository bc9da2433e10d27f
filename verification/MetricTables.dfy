/** The metric tables updated in place, one candidate after another, inside one transaction. */
module MetricTables {
  import opened Common
  import opened MetricStore

  class MetricDb<C(==)> {
    var current: map<Scope, Ranked<string>>
    var samples: map<Scope, map<int, Sample>>
    var ticks: map<int, (Rank, string)>
    var runner: Option<Ranked<C>>
    var stream: seq<StreamRow>

    function Contents(): Tables<C>
      reads this
    {
      Tables(current, samples, ticks, runner, stream)
    }

    constructor ()
      ensures Contents() == Tables(map[], map[], map[], None, [])
    {
      current, samples, ticks, runner, stream := map[], map[], map[], None, [];
    }

    /** The ranked row of one scope, then its chart point. */
    method PutOne(w: Write<C>, c: Candidate)
      modifies this
      ensures Contents() == PutCandidate(old(Contents()), w, c)
    {
      var rank := CurrentRank(w);
      if c.scope !in current {
        current := current[c.scope := Ranked(rank, w.version, c.values)];
      } else {
        var held := current[c.scope];
        var upgrade := rank == held.rank && w.version > held.version;
        if RankLess(held.rank, rank) || upgrade {
          current := current[c.scope := Ranked(rank, w.version, c.values)];
        }
      }
      var rows := PutPoint(if c.scope in samples then samples[c.scope] else map[], PointOf(w, c));
      samples := samples[c.scope := rows];
    }

    /** The chart point of one scope, with every guard of the source. */
    static method PutPoint(rows: map<int, Sample>, point: Sample) returns (after: map<int, Sample>)
      ensures after == PutSample(rows, point)
    {
      after := rows;
      var second := point.observed / SECOND_US;
      var exact := Exact(rows, second);
      var previous := Previous(rows, second);
      if exact.Some? && exact.value.version == point.version && exact.value.values == point.values {
        return;
      }
      if exact.None? && previous.Some? && previous.value.version == point.version && previous.value.values == point.values {
        return;
      }
      var periodic := previous.None? || point.observed / SAMPLE_INTERVAL_US > previous.value.observed / SAMPLE_INTERVAL_US;
      var versionChanged := previous.Some? && previous.value.version != point.version;
      if !point.forced && !periodic && !versionChanged {
        return;
      }
      if exact.None? || PointLess(exact.value, point) {
        after := rows[second := point];
      }
    }

    /** `append_stream_events`: insert or ignore, in order; a repeated key in one call is an error
        that the caller's transaction undoes. */
    method Append(events: seq<StreamRow>) returns (ok: bool)
      modifies this`stream
      ensures ok <==> DistinctKeys(events)
      ensures ok ==> stream == AppendEvents(old(stream), events)
    {
      var seen: set<string> := {};
      ok := true;
      for i := 0 to |events|
        invariant seen == set k | 0 <= k < i :: events[k].eventKey
        invariant DistinctKeys(events[..i])
        invariant stream == AppendEvents(old(stream), events[..i])
      {
        var event := events[i];
        assert events[..i + 1][..i] == events[..i];
        if event.eventKey in seen {
          return false;
        }
        seen := seen + {event.eventKey};
        if !HasKey(stream, event.eventKey) {
          stream := stream + [event];
        }
      }
      assert events[..|events|] == events;
    }

    method PutTickAndState(w: Write<C>) returns (written: bool)
      requires w.state.Some?
      modifies this
      ensures written <==> StateWritten(old(Contents()), w)
      ensures Contents() == PutState(old(Contents()), w.(events := [])).(stream := old(stream))
    {
      var second := w.observed / SECOND_US;
      var rank := TickRank(w);
      if second !in ticks || RankLess(ticks[second].0, rank) {
        ticks := ticks[second := (rank, w.state.value.hash)];
      }
      written := runner.None? || RankLess(runner.value.rank, rank)
                 || (rank == runner.value.rank && w.version > runner.value.version);
      if written {
        runner := Some(Ranked(rank, w.version, w.state.value.cursor));
      }
    }

    /** One metric tick; an error leaves every table as it was. */
    method MaterializeSamples(w: Write<C>) returns (ok: bool)
      modifies this
      ensures ok <==> Materialize(old(Contents()), w).Some?
      ensures Contents() == if ok then Materialize(old(Contents()), w).value else old(Contents())
    {
      if !Accepted(w) {
        return false;
      }
      var saved := Contents();
      for i := 0 to |w.candidates|
        invariant Contents() == PutCandidates(old(Contents()), w, w.candidates[..i])
      {
        assert w.candidates[..i + 1][..i] == w.candidates[..i];
        PutOne(w, w.candidates[i]);
      }
      assert w.candidates[..|w.candidates|] == w.candidates;
      ok := true;
      if w.state.Some? && w.candidates != [] {
        ghost var put := Contents();
        PutKeepsState(old(Contents()), w, w.candidates);
        var written := PutTickAndState(w);
        if written {
          ok := Append(w.events);
        }
        if !ok {
          current, samples, ticks, runner, stream := saved.current, saved.samples, saved.ticks, saved.runner, saved.stream;
        }
      }
    }

    static lemma {:induction false} PutKeepsState(t: Tables<C>, w: Write<C>, cs: seq<Candidate>)
      ensures PutCandidates(t, w, cs).runner == t.runner && PutCandidates(t, w, cs).stream == t.stream
    {
      if cs != [] {
        PutKeepsState(t, w, cs[..|cs| - 1]);
      }
    }
  }
}
