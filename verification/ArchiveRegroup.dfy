/** A merge that is resumed after a crash: how the parts still listed group again, and what is
    left when they do not. */
module ArchiveRegroup {
  import opened Common
  import S = SessionGroups
  import opened ArchiveRepair
  import opened ArchiveCleanup

  // ---------------------------------------------------------------- the parts of a session

  function Total(parts: seq<S.Part>): int {
    if parts == [] then 0 else Total(parts[..|parts| - 1]) + parts[|parts| - 1].end - parts[|parts| - 1].start
  }

  /** Recordings of one camera: of one date, one after another, and one session by their gaps. */
  ghost predicate OneSession(parts: seq<S.Part>, limit: int) {
    && (forall k :: 0 <= k < |parts| ==> parts[k].date == parts[0].date && parts[k].start <= parts[k].end)
    && (forall k :: 0 < k < |parts| ==> parts[k - 1].end <= parts[k].start && parts[k].start - parts[k - 1].end <= limit)
  }

  /** What is listed once the target is published and `gone` of the other parts are removed: the
      target lasts as long as its parts together, without the gaps between them. */
  function Listing(parts: seq<S.Part>, gone: nat): seq<S.Part>
    requires gone < |parts|
  {
    [parts[0].(end := parts[0].start + Total(parts))] + parts[gone + 1..]
  }

  /** Every part but the first is near an earlier one. */
  ghost predicate AllNear(parts: seq<S.Part>, limit: int) {
    && (forall k :: 0 <= k < |parts| ==> parts[k].date == parts[0].date)
    && forall k :: 0 < k < |parts| ==> parts[k].start - parts[k - 1].end <= limit
  }

  lemma {:induction false} NearIsOneGroup(parts: seq<S.Part>, limit: int)
    requires parts != [] && AllNear(parts, limit)
    ensures S.Groups(parts, limit, true) == [parts]
  {
    var n := |parts| - 1;
    assert parts == parts[..n] + [parts[n]];
    if n == 0 {
      assert S.Groups(parts[..0], limit, true) == [];
    } else {
      NearIsOneGroup(parts[..n], limit);
      S.LatestEndIsLatest(parts[..n]);
      assert parts[..n][n - 1] in parts[..n];
    }
  }

  lemma {:induction false} FirstGroupStays(parts: seq<S.Part>, limit: int)
    requires |parts| > 1 && parts[1].start - parts[0].end > limit
    ensures |S.Groups(parts, limit, true)| > 1 && S.Groups(parts, limit, true)[0] == [parts[0]]
  {
    var n := |parts| - 1;
    if n == 1 {
      assert parts[..1] == [parts[0]] && parts[..1][..0] == [];
      assert S.Groups(parts[..1], limit, true) == [[parts[0]]];
    } else {
      FirstGroupStays(parts[..n], limit);
    }
  }

  /** Before anything is removed the session groups as at first; and after a crash in the middle of
      the removal it does exactly when the next part is within the limit of the shortened target.
      Where it is not, the target is a group of its own. */
  lemma RegroupsExactly(parts: seq<S.Part>, limit: int, gone: nat)
    requires OneSession(parts, limit) && gone < |parts|
    ensures var listing := Listing(parts, gone);
            var near := gone + 1 == |parts| || parts[gone + 1].start - (parts[0].start + Total(parts)) <= limit;
            && (S.Groups(listing, limit, true) == [listing] <==> near)
            && (!near ==> S.Groups(listing, limit, true)[0] == [listing[0]])
  {
    var listing := Listing(parts, gone);
    forall k | 0 <= k < |listing| ensures listing[k].date == listing[0].date && (k > 0 ==> listing[k] == parts[gone + k]) {
    }
    if gone + 1 == |parts| || parts[gone + 1].start - listing[0].end <= limit {
      forall k | 0 < k < |listing| ensures listing[k].start - listing[k - 1].end <= limit {
        assert listing[k] == parts[gone + k] && (k > 1 ==> listing[k - 1] == parts[gone + k - 1]);
      }
      NearIsOneGroup(listing, limit);
    } else {
      FirstGroupStays(listing, limit);
    }
  }

  lemma {:induction false} TotalHolds(parts: seq<S.Part>)
    requires parts != [] && forall k :: 0 <= k < |parts| ==> parts[k].start <= parts[k].end
    ensures Total(parts) >= parts[0].end - parts[0].start
  {
    if |parts| > 1 {
      TotalHolds(parts[..|parts| - 1]);
    } else {
      assert Total(parts[..0]) == 0;
    }
  }

  lemma {:induction false} EndsLast(parts: seq<S.Part>, limit: int, k: nat)
    requires OneSession(parts, limit) && k < |parts|
    ensures parts[k].start <= parts[|parts| - 1].end
    decreases |parts| - k
  {
    if k + 1 < |parts| {
      EndsLast(parts, limit, k + 1);
      assert parts[k + 1 - 1].end <= parts[k + 1].start;
    }
  }

  /** As long as no part has been removed, and while all gaps together are within the limit, the
      session stays one group. */
  lemma ShortGapsRegroup(parts: seq<S.Part>, limit: int, gone: nat)
    requires OneSession(parts, limit) && gone < |parts|
    requires gone == 0 || parts[|parts| - 1].end - parts[0].start - Total(parts) <= limit
    ensures S.Groups(Listing(parts, gone), limit, true) == [Listing(parts, gone)]
  {
    RegroupsExactly(parts, limit, gone);
    TotalHolds(parts);
    if gone + 1 < |parts| {
      EndsLast(parts, limit, gone + 1);
      assert parts[1].start - parts[1 - 1].end <= limit;
    }
  }

  // ---------------------------------------------------------------- what is left

  /** In minutes: three parts of one minute, forty minutes apart. */
  const SHORT_PARTS: seq<S.Part> := [S.Part("a", "d", 0, 1), S.Part("b", "d", 41, 42), S.Part("c", "d", 82, 83)]

  lemma ShortTotal()
    ensures Total(SHORT_PARTS) == 3
  {
    var two := SHORT_PARTS[..2];
    assert two[..1][..0] == [] && SHORT_PARTS[..2][..1] == two[..1];
    assert Total(two[..1]) == 1 && Total(two) == 2;
  }

  /** Within an hour they are one session, and still are once the target is published. After a crash
      that has removed the second part, the third is a group of its own. */
  lemma ThirdPartGroupsAlone()
    ensures S.Groups(SHORT_PARTS, 60, true) == [SHORT_PARTS]
    ensures S.Groups(Listing(SHORT_PARTS, 0), 60, true) == [Listing(SHORT_PARTS, 0)]
    ensures S.Groups(Listing(SHORT_PARTS, 1), 60, true) == [[S.Part("a", "d", 0, 3)], [SHORT_PARTS[2]]]
  {
    ShortTotal();
    NearIsOneGroup(SHORT_PARTS, 60);
    ShortGapsRegroup(SHORT_PARTS, 60, 0);
    var listing := Listing(SHORT_PARTS, 1);
    assert listing == [S.Part("a", "d", 0, 3), SHORT_PARTS[2]];
    assert listing[..1] == [S.Part("a", "d", 0, 3)] && listing[..1][..0] == [];
    assert S.Groups(listing[..1], 60, true) == [[S.Part("a", "d", 0, 3)]];
  }

  /** The run that resumes the target removes every other source, and then, for one that it had
      listed as a group of its own, writes an annotation. */
  function ResumedWithLeftOver(b: Bucket, j: Journal, target: nat, rec: nat): Option<Bucket> {
    var after := Execute(b, CommitOps(j, target));
    if after.Some? then Some(after.value[AnnotationKey(rec, 0) := Blob]) else None
  }

  /** The annotation is then all that is left of the part; without the group of its own nothing is. */
  lemma LeftOverIsAnnotated(p: Plan, b: Bucket, j: Journal, rec: nat, k: Key)
    requires ValidPlan(p) && JournalKey in b && b[JournalKey] == State(j) && Inv(p, World(b, Idle))
    requires rec in p.recs[1..] && RecOf(k) == Some(rec)
    ensures ResumedWithLeftOver(b, j, p.recs[0], rec).Some? && Execute(b, CommitOps(j, p.recs[0])).Some?
    ensures k !in Execute(b, CommitOps(j, p.recs[0])).value
    ensures k in ResumedWithLeftOver(b, j, p.recs[0], rec).value <==> k == AnnotationKey(rec, 0)
  {
    CommitCompletes(p, b, j);
    CommitLeavesNothing(b, j, p.recs[0], k);
  }
}
