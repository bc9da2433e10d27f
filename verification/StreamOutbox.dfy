/** The durable outbox `stream_events`: immutable rows in commit order.

    Row ids come from an AUTOINCREMENT key under SQLite's single writer, so they
    rise in commit order and are never issued twice. */
module StreamOutbox {

  import opened Common

  /** One row. The payload plays no part in delivery; `heat` is `source_heat_id`. */
  datatype Event = Event(id: nat, session: string, heat: Option<nat>)

  ghost predicate Increasing(es: seq<Event>) {
    && (forall i :: 0 <= i < |es| ==> es[i].id > 0)
    && (forall i, j :: 0 <= i < j < |es| ==> es[i].id < es[j].id)
  }

  predicate InWindow(e: Event, session: string, lo: int, hi: int) {
    e.session == session && lo < e.id <= hi
  }

  /** The session's rows with an id in `(lo, hi]`, in commit order. */
  function Between(es: seq<Event>, session: string, lo: int, hi: int): (r: seq<Event>)
    ensures forall e :: e in r <==> e in es && InWindow(e, session, lo, hi)
  {
    if es == [] then []
    else
      var last := es[|es| - 1];
      var rest := Between(es[..|es| - 1], session, lo, hi);
      assert es == es[..|es| - 1] + [last];
      if InWindow(last, session, lo, hi) then rest + [last] else rest
  }

  /** `MAX(id)` over all rows, or 0. */
  function LastId(es: seq<Event>): nat {
    if es == [] then 0 else es[|es| - 1].id
  }

  /** `MAX(id)` over one session's rows, or 0. */
  function LatestOf(es: seq<Event>, session: string): nat {
    if es == [] then 0
    else if es[|es| - 1].session == session then es[|es| - 1].id
    else LatestOf(es[..|es| - 1], session)
  }

  /** `WHERE id > after ORDER BY id LIMIT limit` over all sessions. */
  function FirstAfter(es: seq<Event>, after: nat, limit: nat): seq<Event> {
    var above := Above(es, after);
    if |above| <= limit then above else above[..limit]
  }

  function Above(es: seq<Event>, after: nat): seq<Event> {
    if es == [] then []
    else if es[0].id > after then es
    else Above(es[1..], after)
  }

  /** The same batch restricted to one session. */
  function FirstOfSession(es: seq<Event>, session: string, after: nat, limit: nat): seq<Event> {
    var above := Between(es, session, after, LastId(es));
    if |above| <= limit then above else above[..limit]
  }

  lemma {:induction false} BetweenIncreasing(es: seq<Event>, session: string, lo: int, hi: int)
    requires Increasing(es)
    ensures Increasing(Between(es, session, lo, hi))
  {
    if es != [] {
      var init := es[..|es| - 1];
      BetweenIncreasing(init, session, lo, hi);
      forall e | e in Between(init, session, lo, hi) ensures e.id < es[|es| - 1].id {
        assert e in init;
      }
    }
  }

  lemma {:induction false} BetweenSplit(es: seq<Event>, session: string, lo: int, mid: int, hi: int)
    requires Increasing(es) && lo <= mid <= hi
    ensures Between(es, session, lo, hi) == Between(es, session, lo, mid) + Between(es, session, mid, hi)
  {
    if es != [] {
      var init, last := es[..|es| - 1], es[|es| - 1];
      BetweenSplit(init, session, lo, mid, hi);
      if last.id <= mid {
        BetweenNone(init, session, mid, hi);
        BetweenNone(es, session, mid, hi);
      }
    }
  }

  lemma {:induction false} BetweenNone(es: seq<Event>, session: string, lo: int, hi: int)
    requires forall e :: e in es && e.session == session ==> !(lo < e.id <= hi)
    ensures Between(es, session, lo, hi) == []
  {
    if es != [] {
      BetweenNone(es[..|es| - 1], session, lo, hi);
    }
  }

  /** Delivering the next row of the session extends the window by exactly that row. */
  lemma {:induction false} BetweenNext(es: seq<Event>, session: string, lo: int, x: Event)
    requires Increasing(es) && x in es && InWindow(x, session, lo, x.id)
    requires forall e :: e in es && e.session == session ==> !(lo < e.id < x.id)
    ensures Between(es, session, lo, x.id) == [x]
  {
    var init, last := es[..|es| - 1], es[|es| - 1];
    assert es == init + [last];
    if last == x {
      BetweenNone(init, session, lo, x.id);
    } else {
      assert x in init && x.id < last.id;
      BetweenNext(init, session, lo, x);
    }
  }

  lemma BetweenCommit(es: seq<Event>, e: Event, session: string, lo: int, hi: int)
    requires e.id > hi
    ensures Between(es + [e], session, lo, hi) == Between(es, session, lo, hi)
  {
    assert (es + [e])[..|es|] == es;
  }

  lemma {:induction false} LatestBounds(es: seq<Event>, session: string)
    requires Increasing(es)
    ensures LatestOf(es, session) <= LastId(es)
    ensures forall e :: e in es ==> e.id <= LastId(es)
    ensures forall e :: e in es && e.session == session ==> e.id <= LatestOf(es, session)
    ensures LatestOf(es, session) == 0 || exists e :: e in es && e.session == session && e.id == LatestOf(es, session)
  {
    if es != [] {
      var init, last := es[..|es| - 1], es[|es| - 1];
      assert es == init + [last];
      LatestBounds(init, session);
    }
  }

  /** A global batch is the contiguous run of rows just above its starting id; when it is
      shorter than the limit it reaches the newest row. */
  lemma {:induction false} FirstAfterIsContiguous(es: seq<Event>, after: nat, limit: nat)
    requires Increasing(es)
    ensures var b := FirstAfter(es, after, limit);
      && Increasing(b)
      && (forall e :: e in b ==> e in es && e.id > after)
      && (forall e :: e in es && after < e.id && b != [] && e.id <= b[|b| - 1].id ==> e in b)
      && |b| <= limit && (|b| < limit ==> forall e :: e in es && after < e.id ==> e in b)
  {
    AboveIsSuffix(es, after);
    var above := Above(es, after);
    var b := FirstAfter(es, after, limit);
    forall e | e in es && after < e.id && b != [] && e.id <= b[|b| - 1].id ensures e in b {
      var k :| 0 <= k < |above| && above[k] == e;
      assert k < |b|;
    }
  }

  lemma {:induction false} AboveIsSuffix(es: seq<Event>, after: nat)
    requires Increasing(es)
    ensures Increasing(Above(es, after))
    ensures forall e :: e in Above(es, after) <==> e in es && e.id > after
  {
    if es != [] {
      if es[0].id > after {
      } else {
        AboveIsSuffix(es[1..], after);
        assert es == [es[0]] + es[1..];
      }
    }
  }

  /** The first rows of a rising list are those up to the last one taken. */
  lemma TakenFirst(all: seq<Event>, taken: seq<Event>)
    requires Increasing(all) && taken <= all
    ensures Increasing(taken)
    ensures forall e :: e in taken ==> e in all
    ensures taken != [] ==> forall e :: e in all && e.id <= taken[|taken| - 1].id ==> e in taken
  {
    assert forall k :: 0 <= k < |taken| ==> taken[k] == all[k];
    forall e | e in all && taken != [] && e.id <= taken[|taken| - 1].id ensures e in taken {
      var k :| 0 <= k < |all| && all[k] == e;
      assert k < |taken|;
    }
  }

  /** A session batch is the contiguous run of that session's rows above its starting id;
      when it is shorter than the limit it reaches the session's newest row. */
  lemma FirstOfSessionIsContiguous(es: seq<Event>, session: string, after: nat, limit: nat)
    requires Increasing(es)
    ensures var b := FirstOfSession(es, session, after, limit);
      && Increasing(b)
      && (forall e :: e in b ==> e in es && e.session == session && e.id > after)
      && (forall e :: e in es && e.session == session && after < e.id && b != [] && e.id <= b[|b| - 1].id ==> e in b)
      && |b| <= limit && (|b| < limit ==> forall e :: e in es && e.session == session && after < e.id ==> e in b)
  {
    var above := Between(es, session, after, LastId(es));
    BetweenIncreasing(es, session, after, LastId(es));
    LatestBounds(es, session);
    var b := FirstOfSession(es, session, after, limit);
    TakenFirst(above, b);
  }

  lemma IdsIdentify(outbox: seq<Event>, x: Event, y: Event)
    requires Increasing(outbox) && x in outbox && y in outbox && x.id == y.id
    ensures x == y
  {
    var i :| 0 <= i < |outbox| && outbox[i] == x;
    var j :| 0 <= j < |outbox| && outbox[j] == y;
  }

  /** Rising rows are determined by which rows they are. */
  lemma {:induction false} IncreasingIsUnique(a: seq<Event>, b: seq<Event>)
    requires Increasing(a) && Increasing(b)
    requires (forall e :: e in a ==> e in b) && (forall e :: e in b ==> e in a)
    ensures a == b
  {
    if a != [] {
      SomeCarriesOver(a, b);
    }
    if b != [] {
      SomeCarriesOver(b, a);
      var x, y := a[|a| - 1], b[|b| - 1];
      var a', b' := a[..|a| - 1], b[..|b| - 1];
      LastIsLargest(a);
      LastIsLargest(b);
      assert x in a && y in b;
      IdsIdentify(a, x, y);
      InitIsOthers(a);
      InitIsOthers(b);
      forall e | e in a' ensures e in b' {
        assert e in b && e != y;
      }
      forall e | e in b' ensures e in a' {
        assert e in a && e != x;
      }
      IncreasingIsUnique(a', b');
      assert a == a' + [x] && b == b' + [y];
    }
  }

  lemma SomeCarriesOver(a: seq<Event>, b: seq<Event>)
    requires a != [] && forall e :: e in a ==> e in b
    ensures b != []
  {
    assert a[0] in a;
  }

  lemma LastIsLargest(a: seq<Event>)
    requires Increasing(a) && a != []
    ensures forall e :: e in a ==> e.id <= a[|a| - 1].id
  {
  }

  lemma InitIsOthers(a: seq<Event>)
    requires Increasing(a) && a != []
    ensures forall e :: e in a[..|a| - 1] <==> e in a && e != a[|a| - 1]
  {
    assert a == a[..|a| - 1] + [a[|a| - 1]];
  }
}
