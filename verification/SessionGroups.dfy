/** Grouping recorded parts into sessions by the gaps between them. */
module SessionGroups {
  import opened Common

  /** One recorded part: where it is stored, its date, and the time it covers. */
  datatype Part = Part(key: string, date: string, start: int, end: int)

  ghost predicate SortedByStart(parts: seq<Part>) {
    forall i, j :: 0 <= i < j < |parts| ==> parts[i].start <= parts[j].start
  }

  function LatestEnd(group: seq<Part>): int
    requires group != []
  {
    if |group| == 1 then group[0].end
    else
      var before, last := LatestEnd(group[..|group| - 1]), group[|group| - 1].end;
      if before < last then last else before
  }

  function Flat(groups: seq<seq<Part>>): seq<Part> {
    if groups == [] then [] else Flat(groups[..|groups| - 1]) + groups[|groups| - 1]
  }

  predicate NoEmptyGroup(groups: seq<seq<Part>>) {
    forall g :: 0 <= g < |groups| ==> groups[g] != []
  }

  // ---------------------------------------------------------------- the two loops

  /** `p` joins the last group, or opens one after a gap longer than the limit; with `byDate`,
      also on a new date. */
  function AddPart(groups: seq<seq<Part>>, p: Part, limit: int, byDate: bool): seq<seq<Part>>
    requires NoEmptyGroup(groups)
  {
    if groups == [] then [[p]]
    else
      var n := |groups| - 1;
      var last := groups[n];
      if p.start - LatestEnd(last) > limit || (byDate && p.date != last[|last| - 1].date) then groups + [[p]]
      else groups[..n] + [last + [p]]
  }

  function Groups(parts: seq<Part>, limit: int, byDate: bool): (groups: seq<seq<Part>>)
    ensures NoEmptyGroup(groups) && (groups == [] <==> parts == [])
  {
    if parts == [] then []
    else AddPart(Groups(parts[..|parts| - 1], limit, byDate), parts[|parts| - 1], limit, byDate)
  }

  function Closed(groups: seq<seq<Part>>, cur: seq<Part>): seq<seq<Part>> {
    if cur == [] then groups else groups + [cur]
  }

  predicate Cut(cur: seq<Part>, p: Part, limit: int, byDate: bool)
    requires cur != []
  {
    p.start - LatestEnd(cur) > limit || (byDate && p.date != cur[|cur| - 1].date)
  }

  lemma AddToClosed(groups: seq<seq<Part>>, cur: seq<Part>, p: Part, limit: int, byDate: bool)
    requires NoEmptyGroup(groups) && cur != []
    ensures AddPart(Closed(groups, cur), p, limit, byDate)
         == if Cut(cur, p, limit, byDate) then Closed(groups + [cur], [p]) else Closed(groups, cur + [p])
  {
    assert (groups + [cur])[..|groups|] == groups;
  }

  lemma AddToTail(x: seq<seq<Part>>, y: seq<seq<Part>>, p: Part, limit: int, byDate: bool)
    requires NoEmptyGroup(x) && NoEmptyGroup(y) && y != []
    ensures AddPart(x + y, p, limit, byDate) == x + AddPart(y, p, limit, byDate)
  {
    assert (x + y)[..|x + y| - 1] == x + y[..|y| - 1];
  }

  lemma GroupsStep(parts: seq<Part>, i: nat, limit: int, byDate: bool)
    requires i < |parts|
    ensures Groups(parts[..i + 1], limit, byDate) == AddPart(Groups(parts[..i], limit, byDate), parts[i], limit, byDate)
  {
    assert parts[..i + 1][..i] == parts[..i];
  }

  /** One turn of either loop. */
  lemma Turn(parts: seq<Part>, i: nat, limit: int, byDate: bool, groups: seq<seq<Part>>, cur: seq<Part>)
    requires i < |parts| && NoEmptyGroup(groups) && (cur == [] ==> groups == [])
    requires Closed(groups, cur) == Groups(parts[..i], limit, byDate)
    ensures var cut := cur != [] && Cut(cur, parts[i], limit, byDate);
            Groups(parts[..i + 1], limit, byDate)
            == if cut then Closed(groups + [cur], [] + [parts[i]]) else Closed(groups, cur + [parts[i]])
  {
    GroupsStep(parts, i, limit, byDate);
    var none: seq<Part> := [];
    assert none + [parts[i]] == [parts[i]];
    if cur != [] {
      AddToClosed(groups, cur, parts[i], limit, byDate);
    }
  }

  /** `group_sessions`: the whole current group is searched for its latest end. */
  method GroupSessions(parts: seq<Part>, limit: int) returns (groups: seq<seq<Part>>)
    ensures groups == Groups(parts, limit, false)
  {
    groups := [];
    var cur: seq<Part> := [];
    for i := 0 to |parts|
      invariant NoEmptyGroup(groups) && (cur == [] <==> i == 0) && (i == 0 ==> groups == [])
      invariant Closed(groups, cur) == Groups(parts[..i], limit, false)
    {
      Turn(parts, i, limit, false, groups, cur);
      if cur != [] && parts[i].start - LatestEnd(cur) > limit {
        groups := groups + [cur];
        cur := [];
      }
      cur := cur + [parts[i]];
    }
    assert parts[..|parts|] == parts;
    groups := Closed(groups, cur);
  }

  /** `group_by_gap`: a running maximum, restarted with each group, and a cut at each new date. */
  method GroupByGap(parts: seq<Part>, limit: int) returns (groups: seq<seq<Part>>)
    ensures groups == Groups(parts, limit, true)
  {
    groups := [];
    var cur: seq<Part> := [];
    var curEnd: Option<int> := None;
    for i := 0 to |parts|
      invariant NoEmptyGroup(groups) && (cur == [] <==> i == 0) && (i == 0 ==> groups == [])
      invariant curEnd == if cur == [] then None else Some(LatestEnd(cur))
      invariant Closed(groups, cur) == Groups(parts[..i], limit, true)
    {
      var p := parts[i];
      Turn(parts, i, limit, true, groups, cur);
      if cur != [] && (p.date != cur[|cur| - 1].date || p.start - curEnd.value > limit) {
        groups := groups + [cur];
        cur, curEnd := [], None;
      }
      LatestEndSnoc(cur, p);
      cur := cur + [p];
      curEnd := Some(if curEnd.Some? && curEnd.value > p.end then curEnd.value else p.end);
    }
    assert parts[..|parts|] == parts;
    groups := Closed(groups, cur);
  }

  lemma LatestEndSnoc(cur: seq<Part>, p: Part)
    ensures LatestEnd(cur + [p]) == if cur != [] && LatestEnd(cur) > p.end then LatestEnd(cur) else p.end
  {
    assert (cur + [p])[..|cur|] == cur;
  }

  // ---------------------------------------------------------------- both loops agree within one date

  lemma {:induction false} FlatSnoc(groups: seq<seq<Part>>, g: seq<Part>)
    ensures Flat(groups + [g]) == Flat(groups) + g
  {
    assert (groups + [g])[..|groups|] == groups;
  }

  lemma AddPartFlat(groups: seq<seq<Part>>, p: Part, limit: int, byDate: bool)
    requires NoEmptyGroup(groups)
    ensures Flat(AddPart(groups, p, limit, byDate)) == Flat(groups) + [p]
  {
    FlatSnoc(groups, [p]);
    if groups != [] {
      var m := |groups| - 1;
      FlatSnoc(groups[..m], groups[m] + [p]);
      FlatSnoc(groups[..m], groups[m]);
      assert groups[..m] + [groups[m]] == groups;
    }
  }

  /** The groups are the parts, cut into runs. */
  lemma {:induction false} GroupsKeepParts(parts: seq<Part>, limit: int, byDate: bool)
    ensures Flat(Groups(parts, limit, byDate)) == parts
  {
    if parts != [] {
      var n := |parts| - 1;
      GroupsKeepParts(parts[..n], limit, byDate);
      AddPartFlat(Groups(parts[..n], limit, byDate), parts[n], limit, byDate);
      assert parts == parts[..n] + [parts[n]];
    }
  }

  lemma {:induction false} LastGroupEndsWithLast(parts: seq<Part>, limit: int, byDate: bool)
    requires parts != []
    ensures var groups := Groups(parts, limit, byDate);
            var last := groups[|groups| - 1];
            last[|last| - 1] == parts[|parts| - 1]
  {
  }

  /** Within one date `group_by_gap` makes the same groups as `group_sessions`. */
  lemma {:induction false} SameGroupsWithinOneDate(parts: seq<Part>, limit: int)
    requires forall i, j :: 0 <= i < |parts| && 0 <= j < |parts| ==> parts[i].date == parts[j].date
    ensures Groups(parts, limit, true) == Groups(parts, limit, false)
  {
    if parts != [] {
      SameGroupsWithinOneDate(parts[..|parts| - 1], limit);
      if |parts| > 1 {
        LastGroupEndsWithLast(parts[..|parts| - 1], limit, true);
      }
    }
  }

  lemma DateCuts(before: seq<Part>, p: Part, limit: int)
    requires before != [] && before[|before| - 1].date != p.date
    ensures AddPart(Groups(before, limit, true), p, limit, true) == Groups(before, limit, true) + [[p]]
  {
    LastGroupEndsWithLast(before, limit, true);
  }

  /** A new date starts over: the groups of the list are those before it and those from it on. */
  lemma {:induction false} DatesGroupApart(before: seq<Part>, after: seq<Part>, limit: int)
    requires before != [] && after != [] && before[|before| - 1].date != after[0].date
    ensures Groups(before + after, limit, true) == Groups(before, limit, true) + Groups(after, limit, true)
  {
    var init, p := after[..|after| - 1], after[|after| - 1];
    assert before + after == (before + init) + [p] && after == init + [p];
    GroupsSnoc(before + init, p, limit);
    GroupsSnoc(init, p, limit);
    if init == [] {
      assert before + init == before;
      DateCuts(before, p, limit);
    } else {
      DatesGroupApart(before, init, limit);
      AddToTail(Groups(before, limit, true), Groups(init, limit, true), p, limit, true);
    }
  }

  lemma GroupsSnoc(parts: seq<Part>, p: Part, limit: int)
    ensures Groups(parts + [p], limit, true) == AddPart(Groups(parts, limit, true), p, limit, true)
  {
    assert (parts + [p])[..|parts|] == parts;
  }

  // ---------------------------------------------------------------- groups are chains of short gaps

  /** The gap between an earlier and a later part is within the limit. */
  predicate Near(parts: seq<Part>, limit: int, i: nat, j: nat) {
    && i < |parts| && j < |parts|
    && if i < j then parts[j].start - parts[i].end <= limit else parts[i].start - parts[j].end <= limit
  }

  predicate IsChain(parts: seq<Part>, limit: int, chain: seq<nat>) {
    chain != [] && forall k :: 0 <= k < |chain| - 1 ==> Near(parts, limit, chain[k], chain[k + 1])
  }

  predicate Links(parts: seq<Part>, limit: int, chain: seq<nat>, i: nat, j: nat) {
    IsChain(parts, limit, chain) && chain[0] == i && chain[|chain| - 1] == j
  }

  ghost predicate Linked(parts: seq<Part>, limit: int, i: nat, j: nat) {
    exists chain :: Links(parts, limit, chain, i, j)
  }

  /** No part before `k` reaches it. */
  predicate StartsGroup(parts: seq<Part>, limit: int, k: nat)
    requires k < |parts|
  {
    forall i :: 0 <= i < k ==> parts[k].start - parts[i].end > limit
  }

  /** The group that holds part `i`. */
  function GroupOf(groups: seq<seq<Part>>, i: nat): nat
    requires i < |Flat(groups)|
  {
    var n: nat := |groups| - 1;
    if |Flat(groups[..n])| <= i then n else GroupOf(groups[..n], i)
  }

  lemma {:induction false} LatestEndIsLatest(group: seq<Part>)
    requires group != []
    ensures forall p :: p in group ==> p.end <= LatestEnd(group)
    ensures exists p :: p in group && p.end == LatestEnd(group)
  {
    if |group| > 1 {
      LatestEndIsLatest(group[..|group| - 1]);
      assert group == group[..|group| - 1] + [group[|group| - 1]];
    } else {
      assert group[0] in group;
    }
  }

  lemma {:induction false} GroupOfSnoc(groups: seq<seq<Part>>, g: seq<Part>, i: nat)
    requires i < |Flat(groups)| + |g|
    ensures |Flat(groups + [g])| == |Flat(groups)| + |g|
    ensures GroupOf(groups + [g], i) == if i < |Flat(groups)| then GroupOf(groups, i) else |groups|
  {
    FlatSnoc(groups, g);
    assert (groups + [g])[..|groups|] == groups;
  }

  /** Adding a part puts it in the last group and moves no other. */
  lemma AddPartGroupOf(groups: seq<seq<Part>>, p: Part, limit: int, i: nat)
    requires NoEmptyGroup(groups) && i <= |Flat(groups)|
    ensures var after := AddPart(groups, p, limit, false);
            && |Flat(after)| == |Flat(groups)| + 1
            && GroupOf(after, i) == if i < |Flat(groups)| then GroupOf(groups, i) else |after| - 1
  {
    if groups == [] || Cut(groups[|groups| - 1], p, limit, false) {
      GroupOfSnoc(groups, [p], i);
    } else {
      var m := |groups| - 1;
      GroupOfSnoc(groups[..m], groups[m] + [p], i);
      assert groups[..m] + [groups[m]] == groups;
      FlatSnoc(groups[..m], groups[m]);
      if i < |Flat(groups)| {
        GroupOfSnoc(groups[..m], groups[m], i);
      }
    }
  }

  /** The number of a part's group is how many groups there are up to that part. */
  lemma {:induction false} GroupNumber(parts: seq<Part>, limit: int, i: nat)
    requires i < |parts|
    ensures |Flat(Groups(parts, limit, false))| == |parts|
    ensures GroupOf(Groups(parts, limit, false), i) == |Groups(parts[..i + 1], limit, false)| - 1
  {
    var n := |parts| - 1;
    GroupsKeepParts(parts, limit, false);
    GroupsKeepParts(parts[..n], limit, false);
    AddPartGroupOf(Groups(parts[..n], limit, false), parts[n], limit, i);
    if i < n {
      GroupNumber(parts[..n], limit, i);
      assert parts[..n][..i + 1] == parts[..i + 1];
    } else {
      assert parts[..i + 1] == parts;
    }
  }

  /** The last group holds the parts from `m` on. */
  ghost predicate LastFrom(parts: seq<Part>, limit: int, m: nat) {
    var groups := Groups(parts, limit, false);
    groups != [] && m < |parts| && groups[|groups| - 1] == parts[m..]
  }

  lemma ReachOfLast(parts: seq<Part>, m: nat, p: Part, limit: int)
    requires m < |parts|
    ensures Cut(parts[m..], p, limit, false) <==> forall i :: m <= i < |parts| ==> p.start - parts[i].end > limit
  {
    var last := parts[m..];
    LatestEndIsLatest(last);
    forall i | m <= i < |parts| ensures parts[i].end <= LatestEnd(last) {
      assert last[i - m] in last;
    }
    var p :| p in last && p.end == LatestEnd(last);
    var k :| 0 <= k < |last| && last[k] == p;
    assert parts[m + k] == p;
  }

  /** A new part opens a group exactly when no part before it, of any group, reaches it:
      earlier groups are further away still. */
  lemma OpensExactly(parts: seq<Part>, limit: int, n: nat, m: nat)
    requires SortedByStart(parts) && m < n < |parts|
    requires StartsGroup(parts, limit, m)
    ensures Cut(parts[..n][m..], parts[n], limit, false) <==> StartsGroup(parts, limit, n)
  {
    ReachOfLast(parts[..n], m, parts[n], limit);
    assert forall i :: 0 <= i < m ==> parts[m].start - parts[i].end > limit && parts[m].start <= parts[n].start;
    assert forall i :: 0 <= i < n ==> parts[..n][i] == parts[i];
  }

  lemma AddToLast(groups: seq<seq<Part>>, last: seq<Part>, p: Part, limit: int)
    requires NoEmptyGroup(groups) && groups != [] && groups[|groups| - 1] == last
    ensures var after, cut := AddPart(groups, p, limit, false), Cut(last, p, limit, false);
            && |after| == |groups| + (if cut then 1 else 0)
            && after[|after| - 1] == if cut then [p] else last + [p]
  {
  }

  lemma AddLast(before: seq<Part>, p: Part, limit: int, m: nat)
    requires m < |before| && LastFrom(before, limit, m)
    ensures var opens := Cut(before[m..], p, limit, false);
            && LastFrom(before + [p], limit, if opens then |before| else m)
            && |Groups(before + [p], limit, false)| == |Groups(before, limit, false)| + if opens then 1 else 0
  {
    assert (before + [p])[..|before|] == before;
    AddToLast(Groups(before, limit, false), before[m..], p, limit);
    assert (before + [p])[|before|..] == [p];
    assert (before + [p])[m..] == before[m..] + [p];
  }

  lemma NextLast(parts: seq<Part>, limit: int, n: nat, m: nat)
    requires m < n < |parts| && LastFrom(parts[..n], limit, m)
    ensures var opens := Cut(parts[..n][m..], parts[n], limit, false);
            && LastFrom(parts[..n + 1], limit, if opens then n else m)
            && |Groups(parts[..n + 1], limit, false)| == |Groups(parts[..n], limit, false)| + if opens then 1 else 0
  {
    AddLast(parts[..n], parts[n], limit, m);
    assert parts[..n + 1] == parts[..n] + [parts[n]];
  }

  lemma FirstOpened(parts: seq<Part>, limit: int)
    requires parts != []
    ensures LastFrom(parts[..1], limit, 0)
  {
    assert parts[..1] == [parts[0]] && parts[..1][..0] == [];
    assert Groups(parts[..1], limit, false) == [[parts[0]]];
  }

  lemma {:induction false} LastOpened(parts: seq<Part>, limit: int, n: nat) returns (m: nat)
    requires SortedByStart(parts) && 0 < n <= |parts|
    ensures m < n && StartsGroup(parts, limit, m) && LastFrom(parts[..n], limit, m)
  {
    if n == 1 {
      m := 0;
      FirstOpened(parts, limit);
    } else {
      m := LastOpened(parts, limit, n - 1);
      OpensExactly(parts, limit, n - 1, m);
      NextLast(parts, limit, n - 1, m);
      if StartsGroup(parts, limit, n - 1) {
        m := n - 1;
      }
    }
  }

  lemma CountStep(parts: seq<Part>, limit: int, j: nat)
    requires SortedByStart(parts) && 0 < j < |parts|
    ensures |Groups(parts[..j + 1], limit, false)|
         == |Groups(parts[..j], limit, false)| + if StartsGroup(parts, limit, j) then 1 else 0
  {
    var m := LastOpened(parts, limit, j);
    OpensExactly(parts, limit, j, m);
    NextLast(parts, limit, j, m);
  }

  ghost predicate NoneOpens(parts: seq<Part>, limit: int, i: nat, j: nat)
    requires j < |parts|
  {
    forall k: nat :: i < k <= j ==> !StartsGroup(parts, limit, k)
  }

  lemma {:induction false} GroupCount(parts: seq<Part>, limit: int, i: nat, j: nat)
    requires SortedByStart(parts) && i <= j < |parts|
    ensures |Groups(parts[..i + 1], limit, false)| <= |Groups(parts[..j + 1], limit, false)|
    ensures |Groups(parts[..i + 1], limit, false)| == |Groups(parts[..j + 1], limit, false)| <==> NoneOpens(parts, limit, i, j)
  {
    if i < j {
      CountStep(parts, limit, j);
      GroupCount(parts, limit, i, j - 1);
      assert NoneOpens(parts, limit, i, j) <==> NoneOpens(parts, limit, i, j - 1) && !StartsGroup(parts, limit, j);
    }
  }

  // ---------------------------------------------------------------- chains

  lemma StartsRise(parts: seq<Part>, k: nat, b: nat)
    requires SortedByStart(parts) && k < |parts| && b < |parts|
    ensures k <= b ==> parts[k].start <= parts[b].start
  {
  }

  lemma OutOfReach(parts: seq<Part>, limit: int, m: nat, i: nat)
    requires m < |parts| && i < |parts| && StartsGroup(parts, limit, m)
    ensures i < m ==> parts[m].start - parts[i].end > limit
  {
  }

  lemma {:induction false} NoChainAcross(parts: seq<Part>, limit: int, chain: seq<nat>, k: nat)
    requires SortedByStart(parts) && k < |parts| && StartsGroup(parts, limit, k)
    requires IsChain(parts, limit, chain) && chain[0] < k
    ensures chain[|chain| - 1] < k
  {
    if |chain| > 1 {
      var init := chain[..|chain| - 1];
      NoChainAcross(parts, limit, init, k);
      var a, b := chain[|chain| - 2], chain[|chain| - 1];
      assert Near(parts, limit, a, b);
      assert parts[k].start - parts[a].end > limit;
      StartsRise(parts, k, b);
    }
  }

  lemma {:induction false} ChainToStart(parts: seq<Part>, limit: int, m: nat, j: nat) returns (chain: seq<nat>)
    requires SortedByStart(parts) && m <= j < |parts|
    requires NoneOpens(parts, limit, m, j) && StartsGroup(parts, limit, m)
    ensures Links(parts, limit, chain, j, m)
    decreases j
  {
    if j == m {
      chain := [j];
    } else {
      assert !StartsGroup(parts, limit, j);
      var i :| 0 <= i < j && parts[j].start - parts[i].end <= limit;
      OutOfReach(parts, limit, m, i);
      StartsRise(parts, m, j);
      var rest := ChainToStart(parts, limit, m, i);
      chain := [j] + rest;
      assert Near(parts, limit, j, i);
    }
  }

  lemma {:induction false} ChainBack(parts: seq<Part>, limit: int, chain: seq<nat>, i: nat, j: nat) returns (back: seq<nat>)
    requires Links(parts, limit, chain, i, j) && (forall k :: 0 <= k < |chain| ==> chain[k] < |parts|)
    ensures Links(parts, limit, back, j, i)
  {
    back := seq(|chain|, k requires 0 <= k < |chain| => chain[|chain| - 1 - k]);
    forall k | 0 <= k < |back| - 1 ensures Near(parts, limit, back[k], back[k + 1]) {
      NearSymmetric(parts, limit, chain[|chain| - 2 - k], chain[|chain| - 1 - k]);
    }
  }

  lemma NearSymmetric(parts: seq<Part>, limit: int, i: nat, j: nat)
    requires Near(parts, limit, i, j)
    ensures Near(parts, limit, j, i)
  {
  }

  lemma {:induction false} ChainInRange(parts: seq<Part>, limit: int, chain: seq<nat>, k: nat)
    requires IsChain(parts, limit, chain) && k < |chain| && chain[0] < |parts|
    ensures chain[k] < |parts|
  {
    if k > 0 {
      assert Near(parts, limit, chain[k - 1], chain[k - 1 + 1]);
    }
  }

  lemma ChainJoin(parts: seq<Part>, limit: int, x: seq<nat>, y: seq<nat>, i: nat, m: nat, j: nat)
    requires Links(parts, limit, x, i, m) && Links(parts, limit, y, m, j)
    ensures Linked(parts, limit, i, j)
  {
    var z := x + y[1..];
    forall k | 0 <= k < |z| - 1 ensures Near(parts, limit, z[k], z[k + 1]) {
      if k >= |x| - 1 {
        assert z[k] == y[k - |x| + 1] && z[k + 1] == y[k - |x| + 2];
      }
    }
    assert Links(parts, limit, z, i, j);
  }

  /** The part that opened the group of part `i`. */
  lemma {:induction false} OpenerOf(parts: seq<Part>, limit: int, i: nat) returns (m: nat)
    requires i < |parts|
    ensures m <= i && StartsGroup(parts, limit, m) && NoneOpens(parts, limit, m, i)
  {
    if StartsGroup(parts, limit, i) {
      m := i;
    } else {
      m := OpenerOf(parts, limit, i - 1);
    }
  }

  /** Two parts are linked by a chain of short gaps exactly when no part between them opens a group. */
  lemma LinkedExactly(parts: seq<Part>, limit: int, i: nat, j: nat)
    requires SortedByStart(parts) && i <= j < |parts|
    ensures Linked(parts, limit, i, j) <==> NoneOpens(parts, limit, i, j)
  {
    if NoneOpens(parts, limit, i, j) {
      var m := OpenerOf(parts, limit, i);
      var x := ChainToStart(parts, limit, m, i);
      var y := ChainToStart(parts, limit, m, j);
      forall k | 0 <= k < |y| ensures y[k] < |parts| {
        ChainInRange(parts, limit, y, k);
      }
      var back := ChainBack(parts, limit, y, j, m);
      ChainJoin(parts, limit, x, back, i, m, j);
    }
    forall chain, k: nat | Links(parts, limit, chain, i, j) && i < k <= j ensures !StartsGroup(parts, limit, k) {
      if StartsGroup(parts, limit, k) {
        NoChainAcross(parts, limit, chain, k);
        assert false;
      }
    }
  }

  /** On parts sorted by start, two parts share a group exactly when a chain of gaps no longer
      than the limit links them. */
  lemma GroupsAreChains(parts: seq<Part>, limit: int, i: nat, j: nat)
    requires SortedByStart(parts) && i <= j < |parts|
    ensures |Flat(Groups(parts, limit, false))| == |parts|
    ensures GroupOf(Groups(parts, limit, false), i) == GroupOf(Groups(parts, limit, false), j) <==> Linked(parts, limit, i, j)
  {
    GroupNumber(parts, limit, i);
    GroupNumber(parts, limit, j);
    GroupCount(parts, limit, i, j);
    LinkedExactly(parts, limit, i, j);
  }
}
