/** Whole runs of the metric runner: any order and repetition of writes, crashes and retries,
    and what a chart keeps. */
module MetricRuns {
  import opened Common
  import opened MetricStore
  import B = BoundaryState

  // ---------------------------------------------------------------- effect of one write on one scope

  function CandidateFor(cs: seq<Candidate>, scope: Scope): Option<Candidate> {
    if cs == [] then None
    else if cs[|cs| - 1].scope == scope then Some(cs[|cs| - 1])
    else CandidateFor(cs[..|cs| - 1], scope)
  }

  lemma {:induction false} CandidateForHas(cs: seq<Candidate>, scope: Scope)
    ensures CandidateFor(cs, scope).Some? ==> CandidateFor(cs, scope).value in cs && CandidateFor(cs, scope).value.scope == scope
    ensures CandidateFor(cs, scope).None? <==> forall c :: c in cs ==> c.scope != scope
  {
    if cs != [] {
      CandidateForHas(cs[..|cs| - 1], scope);
      assert cs == cs[..|cs| - 1] + [cs[|cs| - 1]];
    }
  }

  lemma {:induction false} WriteEffect<C>(t: Tables<C>, w: Write<C>, cs: seq<Candidate>, scope: Scope)
    requires DistinctScopes(cs)
    ensures var after := PutCandidates(t, w, cs);
            var c := CandidateFor(cs, scope);
            && CurrentOf(after.current, scope)
               == (if c.Some? then Some(Winner(CurrentOf(t.current, scope), OfferOf(w, c.value))) else CurrentOf(t.current, scope))
            && RowsOf(after.samples, scope)
               == (if c.Some? then PutSample(RowsOf(t.samples, scope), PointOf(w, c.value)) else RowsOf(t.samples, scope))
            && (c.Some? ==> scope in after.current && scope in after.samples)
    ensures PutCandidates(t, w, cs).runner == t.runner && PutCandidates(t, w, cs).stream == t.stream
    ensures PutCandidates(t, w, cs).ticks == t.ticks
  {
    if cs != [] {
      var init, last := cs[..|cs| - 1], cs[|cs| - 1];
      WriteEffect(t, w, init, scope);
      CandidateForHas(init, scope);
      if last.scope == scope {
        assert CandidateFor(init, scope).None?;
      }
    }
  }

  // ---------------------------------------------------------------- any order, any repetition

  predicate Sound<C>(w: Write<C>) {
    Accepted(w) && DistinctKeys(w.events) && w.candidates != [] && w.state.Some?
  }

  predicate AllSound<C>(ws: seq<Write<C>>) {
    forall i :: 0 <= i < |ws| ==> Sound(ws[i])
  }

  function Empty<C>(): Tables<C> { Tables(map[], map[], map[], None, []) }

  function Run<C>(ws: seq<Write<C>>): Tables<C>
    requires AllSound(ws)
  {
    if ws == [] then Empty()
    else Materialize(Run(ws[..|ws| - 1]), ws[|ws| - 1]).value
  }

  function Offers<C>(ws: seq<Write<C>>, scope: Scope): seq<Ranked<string>> {
    if ws == [] then []
    else
      var init, last := Offers(ws[..|ws| - 1], scope), ws[|ws| - 1];
      var c := CandidateFor(last.candidates, scope);
      if c.Some? then init + [OfferOf(last, c.value)] else init
  }

  function StateOffers<C>(ws: seq<Write<C>>): seq<Ranked<C>>
    requires forall i :: 0 <= i < |ws| ==> ws[i].state.Some?
  {
    seq(|ws|, i requires 0 <= i < |ws| => StateOffer(ws[i]))
  }

  /** Each current row, and the runner state, is the settlement of the offers made to it. */
  lemma {:induction false} TablesSettle<C>(ws: seq<Write<C>>, scope: Scope)
    requires AllSound(ws)
    ensures CurrentOf(Run(ws).current, scope) == Settle(Offers(ws, scope))
    ensures Run(ws).runner == Settle(StateOffers(ws))
  {
    if ws != [] {
      var init, last := ws[..|ws| - 1], ws[|ws| - 1];
      TablesSettle(init, scope);
      WriteEffect(Run(init), last, last.candidates, scope);
      assert StateOffers(ws)[..|ws| - 1] == StateOffers(init) && StateOffers(ws)[|ws| - 1] == StateOffer(last);
      assert Run(ws).runner == Some(Winner(Run(init).runner, StateOffer(last)));
      var c := CandidateFor(last.candidates, scope);
      if c.Some? {
        assert Offers(ws, scope)[..|Offers(ws, scope)| - 1] == Offers(init, scope);
      }
    }
  }

  lemma {:induction false} OffersHas<C>(ws: seq<Write<C>>, scope: Scope, o: Ranked<string>)
    ensures o in Offers(ws, scope) <==> exists w :: w in ws && OffersThis(w, scope, o)
  {
    if ws != [] {
      var init, last := ws[..|ws| - 1], ws[|ws| - 1];
      OffersHas(init, scope, o);
      assert forall w :: w in ws <==> w in init || w == last by { assert ws == init + [last]; }
      assert o in Offers(ws, scope) <==> o in Offers(init, scope) || OffersThis(last, scope, o);
    }
  }

  predicate OffersThis<C>(w: Write<C>, scope: Scope, o: Ranked<string>) {
    var c := CandidateFor(w.candidates, scope);
    c.Some? && o == OfferOf(w, c.value)
  }

  ghost predicate CoherentWrites<C(!new)>(ws: seq<Write<C>>) {
    (forall scope :: Coherent(Offers(ws, scope))) && ((forall i :: 0 <= i < |ws| ==> ws[i].state.Some?) ==> Coherent(StateOffers(ws)))
  }

  /** The same writes in any other order, repeated any number of times, leave the same current
      rows and the same runner state. */
  lemma WritesConverge<C(!new)>(xs: seq<Write<C>>, ys: seq<Write<C>>)
    requires AllSound(xs) && AllSound(ys)
    requires (forall w :: w in xs <==> w in ys) && CoherentWrites(xs)
    ensures forall scope :: CurrentOf(Run(xs).current, scope) == CurrentOf(Run(ys).current, scope)
    ensures Run(xs).runner == Run(ys).runner
  {
    forall scope ensures CurrentOf(Run(xs).current, scope) == CurrentOf(Run(ys).current, scope) {
      forall o ensures o in Offers(xs, scope) <==> o in Offers(ys, scope) {
        OffersHas(xs, scope, o);
        OffersHas(ys, scope, o);
      }
      TablesSettle(xs, scope);
      TablesSettle(ys, scope);
      Convergence(Offers(xs, scope), Offers(ys, scope));
    }
    forall o ensures o in StateOffers(xs) <==> o in StateOffers(ys) {
      StateOffersHas(xs, o);
      StateOffersHas(ys, o);
    }
    TablesSettle(xs, Scope("", ""));
    TablesSettle(ys, Scope("", ""));
    Convergence(StateOffers(xs), StateOffers(ys));
  }

  lemma StateOffersHas<C>(ws: seq<Write<C>>, o: Ranked<C>)
    requires forall i :: 0 <= i < |ws| ==> ws[i].state.Some?
    ensures o in StateOffers(ws) <==> exists w :: w in ws && w.state.Some? && StateOffer(w) == o
  {
    var offers := StateOffers(ws);
    if o in offers {
      var i :| 0 <= i < |offers| && offers[i] == o;
      assert ws[i] in ws;
    }
    forall w | w in ws && w.state.Some? && StateOffer(w) == o ensures o in offers {
      var i :| 0 <= i < |ws| && ws[i] == w;
      assert offers[i] == o;
    }
  }
}
