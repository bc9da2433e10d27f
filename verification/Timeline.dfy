/** A recording's packets on its timeline, its continuous regions, and the same packets without
    the holes between them. Times are in milliseconds. */
module Timeline {
  import opened Common

  const GAP: int := 30_000
  const LATEST_START: int := 500
  /** How far a cut reaches past the last packet of its region. */
  const SLACK: int := 50

  datatype Packet = Packet(id: nat, at: int)
  type Video = seq<Packet>

  /** One more packet: in a region of its own, or at the end of the last one. */
  function Grown(regions: seq<Video>, p: Packet, cut: bool): seq<Video> {
    if cut || regions == [] then regions + [[p]]
    else regions[..|regions| - 1] + [regions[|regions| - 1] + [p]]
  }

  /** `find_regions`, with the packets of each region: a longer gap than the limit starts a new one. */
  function Regions(c: Video): (r: seq<Video>)
    ensures r == [] <==> c == []
  {
    if c == [] then []
    else Grown(Regions(c[..|c| - 1]), c[|c| - 1], CutsLast(c))
  }

  ghost predicate NoneEmpty(regions: seq<Video>) {
    forall k :: 0 <= k < |regions| ==> regions[k] != []
  }

  function Bounds(regions: seq<Video>): seq<(int, int)>
    requires NoneEmpty(regions)
  {
    seq(|regions|, i requires 0 <= i < |regions| => (regions[i][0].at, regions[i][|regions[i]| - 1].at))
  }

  function Flat(regions: seq<Video>): Video {
    if regions == [] then [] else Flat(regions[..|regions| - 1]) + regions[|regions| - 1]
  }

  /** No two neighbours are further apart than the limit. */
  ghost predicate Smooth(c: Video) {
    forall i :: 0 <= i < |c| ==> i == 0 || c[i].at - c[i - 1].at <= GAP
  }

  predicate ApartBy(a: Video, b: Video) { a != [] && b != [] && b[0].at - a[|a| - 1].at > GAP }

  /** Neighbouring regions are further apart than the limit. */
  ghost predicate Apart(regions: seq<Video>) {
    forall k :: 0 <= k < |regions| ==> k == 0 || ApartBy(regions[k - 1], regions[k])
  }

  ghost predicate AllSmooth(regions: seq<Video>) {
    forall k :: 0 <= k < |regions| ==> Smooth(regions[k])
  }

  /** Non-empty continuous regions, apart from each other, that begin and end with these packets. */
  ghost predicate Proper(regions: seq<Video>, first: Packet, last: Packet) {
    && regions != [] && NoneEmpty(regions) && AllSmooth(regions) && Apart(regions)
    && regions[0][0] == first && regions[|regions| - 1][|regions[|regions| - 1]| - 1] == last
  }

  lemma FlatSnoc(regions: seq<Video>, r: Video)
    ensures Flat(regions + [r]) == Flat(regions) + r
  {
    assert (regions + [r])[..|regions|] == regions;
  }

  lemma FlatGrown(regions: seq<Video>, p: Packet, cut: bool)
    ensures Flat(Grown(regions, p, cut)) == Flat(regions) + [p]
  {
    if cut || regions == [] {
      FlatSnoc(regions, [p]);
    } else {
      var init, last := regions[..|regions| - 1], regions[|regions| - 1];
      FlatSnoc(init, last + [p]);
      FlatSnoc(init, last);
      assert init + [last] == regions;
      assert Flat(init) + (last + [p]) == Flat(init) + last + [p];
    }
  }

  lemma SmoothSnoc(c: Video, p: Packet)
    requires Smooth(c) && (c != [] ==> p.at - c[|c| - 1].at <= GAP)
    ensures Smooth(c + [p])
  {
  }

  lemma GrownIsProper(regions: seq<Video>, first: Packet, last: Packet, p: Packet)
    requires Proper(regions, first, last)
    ensures Proper(Grown(regions, p, p.at - last.at > GAP), first, p)
  {
    if p.at - last.at <= GAP {
      SmoothSnoc(regions[|regions| - 1], p);
    } else {
      SmoothSnoc([], p);
      assert [] + [p] == [p];
    }
  }

  lemma FirstIsProper(p: Packet)
    ensures Grown([], p, false) == [[p]] && Proper([[p]], p, p)
  {
  }

  lemma {:induction false} RegionsAreProper(c: Video)
    requires c != []
    ensures Proper(Regions(c), c[0], c[|c| - 1])
  {
    if |c| == 1 {
      FirstIsProper(c[0]);
      assert Regions(c[..0]) == [];
    } else {
      RegionsAreProper(c[..|c| - 1]);
      GrownIsProper(Regions(c[..|c| - 1]), c[0], c[|c| - 2], c[|c| - 1]);
    }
  }

  predicate CutsLast(c: Video) { |c| > 1 && c[|c| - 1].at - c[|c| - 2].at > GAP }

  lemma RegionsUnfold(c: Video)
    requires c != []
    ensures Regions(c) == Grown(Regions(c[..|c| - 1]), c[|c| - 1], CutsLast(c))
  {
  }

  lemma InitAndLast(c: Video)
    requires c != []
    ensures c[..|c| - 1] + [c[|c| - 1]] == c
  {
  }

  lemma {:induction false} RegionsKeepPackets(c: Video)
    ensures Flat(Regions(c)) == c
  {
    if c != [] {
      RegionsKeepPackets(c[..|c| - 1]);
      FlatGrown(Regions(c[..|c| - 1]), c[|c| - 1], CutsLast(c));
      RegionsUnfold(c);
      InitAndLast(c);
    }
  }

  /** The regions are the packets, in order, cut exactly where the gap is longer than the limit. */
  lemma RegionsAreMaximal(c: Video)
    ensures Flat(Regions(c)) == c && NoneEmpty(Regions(c)) && AllSmooth(Regions(c)) && Apart(Regions(c))
  {
    RegionsKeepPackets(c);
    if c != [] {
      RegionsAreProper(c);
    }
  }

  lemma GrownBounds(regions: seq<Video>, p: Packet, cut: bool)
    requires NoneEmpty(regions) && regions != []
    ensures NoneEmpty(Grown(regions, p, cut))
    ensures var before, m := Bounds(regions), |regions| - 1;
            Bounds(Grown(regions, p, cut)) == if cut then before + [(p.at, p.at)] else before[..m] + [(before[m].0, p.at)]
  {
    var m, last := |regions| - 1, regions[|regions| - 1] + [p];
    assert regions[m] != [] && last[0] == regions[m][0] && last[|last| - 1] == p;
  }

  /** The loop, which keeps the start of the region and the packet before. */
  method FindRegions(c: Video) returns (regions: seq<(int, int)>)
    ensures NoneEmpty(Regions(c)) && regions == Bounds(Regions(c))
  {
    regions := [];
    if c == [] {
      return;
    }
    var a, previous := c[0].at, c[0].at;
    FirstRegion(c);
    for i := 1 to |c|
      invariant NoneEmpty(Regions(c[..i])) && Regions(c[..i]) != [] && previous == c[i - 1].at
      invariant Bounds(Regions(c[..i])) == regions + [(a, previous)]
    {
      NextRegion(c, i);
      GrownBounds(Regions(c[..i]), c[i], c[i].at - c[i - 1].at > GAP);
      if c[i].at - previous > GAP {
        regions := regions + [(a, previous)];
        a := c[i].at;
      }
      previous := c[i].at;
    }
    assert c[..|c|] == c;
    regions := regions + [(a, previous)];
  }

  lemma FirstRegion(c: Video)
    requires c != []
    ensures Regions(c[..1]) == [[c[0]]]
  {
    assert c[..1] == [c[0]] && c[..1][..0] == [];
  }

  lemma NextRegion(c: Video, i: nat)
    requires 0 < i < |c|
    ensures Regions(c[..i + 1]) == Grown(Regions(c[..i]), c[i], c[i].at - c[i - 1].at > GAP)
  {
    assert c[..i + 1][..i] == c[..i];
  }

  // ---------------------------------------------------------------- cutting one region out

  ghost predicate Ascending(c: Video) {
    forall i, j :: 0 <= i < j < |c| ==> c[i].at <= c[j].at
  }

  /** The packets a cut from `a` to a little past `b` keeps. */
  function Cut(c: Video, a: int, b: int): Video {
    if c == [] then []
    else
      var init, last := Cut(c[..|c| - 1], a, b), c[|c| - 1];
      if a <= last.at <= b + SLACK then init + [last] else init
  }

  lemma {:induction false} CutSplits(x: Video, y: Video, a: int, b: int)
    ensures Cut(x + y, a, b) == Cut(x, a, b) + Cut(y, a, b)
  {
    if y == [] {
      assert x + y == x;
    } else {
      assert (x + y)[..|x + y| - 1] == x + y[..|y| - 1];
      CutSplits(x, y[..|y| - 1], a, b);
    }
  }

  lemma {:induction false} CutKeeps(x: Video, a: int, b: int)
    requires forall i :: 0 <= i < |x| ==> a <= x[i].at <= b + SLACK
    ensures Cut(x, a, b) == x
  {
    if x != [] {
      CutKeeps(x[..|x| - 1], a, b);
    }
  }

  lemma {:induction false} CutDrops(x: Video, a: int, b: int)
    requires forall i :: 0 <= i < |x| ==> x[i].at < a || b + SLACK < x[i].at
    ensures Cut(x, a, b) == []
  {
    if x != [] {
      CutDrops(x[..|x| - 1], a, b);
    }
  }

  lemma {:induction false} FlatAt(regions: seq<Video>, k: nat) returns (x: Video, y: Video)
    requires k < |regions|
    ensures Flat(regions) == x + regions[k] + y && x == Flat(regions[..k])
    ensures k > 0 ==> x == Flat(regions[..k - 1]) + regions[k - 1]
    ensures k + 1 < |regions| ==> regions[k + 1] <= y
    ensures k + 1 == |regions| ==> y == []
  {
    var m := |regions| - 1;
    if k == m {
      x, y := Flat(regions[..m]), [];
      assert x + regions[k] + y == x + regions[k];
    } else {
      x, y := FlatAt(regions[..m], k);
      assert regions[..m][..k] == regions[..k];
      assert x + regions[k] + y + regions[m] == x + regions[k] + (y + regions[m]);
      if k > 0 { assert regions[..m][..k - 1] == regions[..k - 1]; }
      y := y + regions[m];
    }
    if k > 0 {
      assert regions[..k][..k - 1] == regions[..k - 1];
    }
  }

  lemma RisingAround(x: Video, r: Video, y: Video)
    requires Ascending(x + r + y) && r != []
    ensures forall i :: 0 <= i < |r| ==> r[0].at <= r[i].at <= r[|r| - 1].at
    ensures x != [] ==> forall i :: 0 <= i < |x| ==> x[i].at <= x[|x| - 1].at
    ensures y != [] ==> forall i :: 0 <= i < |y| ==> y[0].at <= y[i].at
  {
    var c, n := x + r + y, |x|;
    assert forall i :: 0 <= i < |x| ==> c[i] == x[i];
    assert forall i :: 0 <= i < |r| ==> c[n + i] == r[i];
    assert forall i :: 0 <= i < |y| ==> c[n + |r| + i] == y[i];
    forall i | 0 <= i < |r| ensures r[0].at <= r[i].at <= r[|r| - 1].at {
      assert c[n].at <= c[n + i].at <= c[n + |r| - 1].at;
    }
    if y != [] {
      forall i | 0 <= i < |y| ensures y[0].at <= y[i].at {
        assert c[n + |r|].at <= c[n + |r| + i].at;
      }
    }
  }

  lemma CutBetween(x: Video, r: Video, y: Video)
    requires Ascending(x + r + y) && r != []
    requires x != [] ==> ApartBy(x, r)
    requires y != [] ==> ApartBy(r, y)
    ensures Cut(x + r + y, r[0].at, r[|r| - 1].at) == r
  {
    var a, b := r[0].at, r[|r| - 1].at;
    RisingAround(x, r, y);
    forall i | 0 <= i < |x| ensures x[i].at < a {
    }
    CutDrops(x, a, b);
    CutKeeps(r, a, b);
    forall i | 0 <= i < |y| ensures b + SLACK < y[i].at {
    }
    CutDrops(y, a, b);
    var xr := x + r;
    CutSplits(xr, y, a, b);
    CutSplits(x, r, a, b);
    NothingAround(r);
  }

  lemma NothingAround(r: Video)
    ensures [] + r == r && r + [] == r
  {
  }

  /** On a rising timeline a cut by a region's bounds keeps exactly its packets. */
  lemma CutIsTheRegion(c: Video, k: nat)
    requires Ascending(c) && k < |Regions(c)|
    ensures var r := Regions(c)[k]; r != [] && Cut(c, r[0].at, r[|r| - 1].at) == r
  {
    RegionsAreMaximal(c);
    var rs := Regions(c);
    var x, y := FlatAt(rs, k);
    assert rs[k] != [];
    if x != [] { FlatNonEmpty(rs[..k]); }
    assert k > 0 ==> ApartBy(rs[k - 1], rs[k]);
    assert k + 1 < |rs| ==> ApartBy(rs[k], rs[k + 1]);
    CutBetween(x, rs[k], y);
  }

  lemma FlatNonEmpty(regions: seq<Video>)
    ensures Flat(regions) != [] ==> regions != []
  {
  }

  // ---------------------------------------------------------------- joining the regions

  /** More than one region, or a late first packet. */
  predicate Broken(c: Video) {
    |Regions(c)| > 1 || (c != [] && c[0].at > LATEST_START)
  }

  function Shifted(r: Video, shift: int): Video {
    seq(|r|, i requires 0 <= i < |r| => Packet(r[i].id, r[i].at + shift))
  }

  /** The regions end to end from `at` on. */
  function Join(regions: seq<Video>, at: int): Video
    requires NoneEmpty(regions)
  {
    if regions == [] then []
    else
      var r := regions[0];
      Shifted(r, at - r[0].at) + Join(regions[1..], at + r[|r| - 1].at - r[0].at + SLACK)
  }

  /** The recording with its regions end to end, from zero. */
  function Closed(c: Video): Video {
    RegionsAreMaximal(c);
    Join(Regions(c), 0)
  }

  function Ids(c: Video): seq<nat> { seq(|c|, i requires 0 <= i < |c| => c[i].id) }

  function FlatFront(regions: seq<Video>): Video {
    if regions == [] then [] else regions[0] + FlatFront(regions[1..])
  }

  lemma {:induction false} FlatBothWays(regions: seq<Video>)
    ensures Flat(regions) == FlatFront(regions)
  {
    if regions != [] {
      var m := |regions| - 1;
      FlatBothWays(regions[1..]);
      FlatPrepend(regions[0], regions[1..]);
      assert [regions[0]] + regions[1..] == regions;
    }
  }

  lemma {:induction false} FlatPrepend(r: Video, regions: seq<Video>)
    ensures Flat([r] + regions) == r + Flat(regions)
  {
    if regions == [] {
      assert [r] + regions == [r] && [r][..0] == [];
    } else {
      var m := |regions| - 1;
      FlatPrepend(r, regions[..m]);
      assert ([r] + regions)[..|[r] + regions| - 1] == [r] + regions[..m];
      assert r + Flat(regions[..m]) + regions[m] == r + (Flat(regions[..m]) + regions[m]);
    }
  }

  lemma {:induction false} JoinKeepsIds(regions: seq<Video>, at: int)
    requires NoneEmpty(regions)
    ensures Ids(Join(regions, at)) == Ids(FlatFront(regions))
  {
    if regions != [] {
      var r := regions[0];
      JoinKeepsIds(regions[1..], at + r[|r| - 1].at - r[0].at + SLACK);
      var rest := Join(regions[1..], at + r[|r| - 1].at - r[0].at + SLACK);
      assert Ids(Shifted(r, at - r[0].at) + rest) == Ids(r) + Ids(rest);
      assert Ids(r + FlatFront(regions[1..])) == Ids(r) + Ids(FlatFront(regions[1..]));
    }
  }

  /** No packet is lost, and their order is kept. */
  lemma ClosedKeepsPackets(c: Video)
    ensures Ids(Closed(c)) == Ids(c)
  {
    RegionsAreMaximal(c);
    FlatBothWays(Regions(c));
    JoinKeepsIds(Regions(c), 0);
  }

  lemma {:induction false} JoinIsSmooth(regions: seq<Video>, at: int)
    requires NoneEmpty(regions) && AllSmooth(regions)
    ensures Smooth(Join(regions, at)) && (regions != [] ==> Join(regions, at) != [] && Join(regions, at)[0].at == at)
  {
    if regions != [] {
      var r := regions[0];
      var next := at + r[|r| - 1].at - r[0].at + SLACK;
      JoinIsSmooth(regions[1..], next);
      var x, y := Shifted(r, at - r[0].at), Join(regions[1..], next);
      var all: Video := x + y;
      forall i | 0 <= i < |all| ensures i == 0 || all[i].at - all[i - 1].at <= GAP {
        if i < |x| {
          assert i == 0 || r[i].at - r[i - 1].at <= GAP;
        } else if i > |x| {
          assert y[i - |x|].at - y[i - |x| - 1].at <= GAP;
        } else {
          assert y[0].at == next;
        }
      }
    }
  }

  lemma {:induction false} SmoothIsOneRegion(c: Video)
    requires Smooth(c) && c != []
    ensures Regions(c) == [c]
  {
    var init, last := c[..|c| - 1], c[|c| - 1];
    assert c == init + [last];
    if init != [] {
      SmoothIsOneRegion(init);
    }
  }

  /** What the check after a rebuild asks for: one region, from the start. So a repaired
      recording is never taken for a broken one. */
  lemma ClosedIsWhole(c: Video)
    ensures !Broken(Closed(c)) && (c != [] ==> Regions(Closed(c)) == [Closed(c)])
  {
    RegionsAreMaximal(c);
    JoinIsSmooth(Regions(c), 0);
    if c != [] {
      SmoothIsOneRegion(Closed(c));
    }
  }

  /** Broken means that some packet is late: the first one, or one after a gap. */
  lemma BrokenExactly(c: Video)
    ensures Broken(c) <==> (c != [] && c[0].at > LATEST_START) || !Smooth(c)
  {
    RegionsAreMaximal(c);
    if Smooth(c) && c != [] {
      SmoothIsOneRegion(c);
    }
    if |Regions(c)| == 1 {
      var r := Regions(c)[0];
      assert Regions(c) == [r] && Flat([r]) == Flat([]) + r;
      assert c == r;
    }
  }
}
