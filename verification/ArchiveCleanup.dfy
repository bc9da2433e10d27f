/** What a repair leaves behind and what it never touches. */
module ArchiveCleanup {
  import opened Common
  import opened ArchiveRepair

  // ---------------------------------------------------------------- the content

  /** Each part is in the merge whole, right after the parts before it. */
  lemma {:induction false} JoinedKeepsEachPart(contents: seq<Content>, i: nat)
    requires i < |contents|
    ensures Joined(contents[..i]) + contents[i] <= Joined(contents)
    ensures i == |contents| - 1 ==> Joined(contents[..i]) + contents[i] == Joined(contents)
  {
    var n := |contents| - 1;
    if i < n {
      JoinedKeepsEachPart(contents[..n], i);
      assert contents[..n][..i] == contents[..i];
    }
  }

  // ---------------------------------------------------------------- what is never touched

  predicate Creates(op: Op, k: Key) {
    (op.Upload? && op.key == k) || (op.Publish? && op.to == k)
  }

  predicate Removes(op: Op, k: Key) {
    (op.Drop? && op.key == k) || (op.Clear? && Under(op.prefix, k))
  }

  /** The recording a key belongs to; staging and journal belong to the repair itself. */
  function RecOf(k: Key): Option<nat> {
    match k
    case RecordKey(r) => Some(r)
    case AnnotationKey(r, _) => Some(r)
    case ThumbKey(r, _) => Some(r)
    case HlsKey(r, _) => Some(r)
    case _ => None
  }

  predicate Concerns(recs: seq<nat>, k: Key) { RecOf(k).None? || RecOf(k).value in recs }

  predicate Touches(op: Op, k: Key) { Creates(op, k) || Removes(op, k) }

  ghost predicate KeepTo(ops: seq<Op>, recs: seq<nat>) {
    forall i, k :: 0 <= i < |ops| && Touches(ops[i], k) ==> Concerns(recs, k)
  }

  lemma {:induction false} RemoveKeepsTo(sources: seq<nat>, recs: seq<nat>)
    requires forall r :: r in sources ==> r in recs
    ensures KeepTo(RemoveOps(sources), recs)
  {
    if sources != [] {
      var last := sources[|sources| - 1];
      RemoveKeepsTo(sources[..|sources| - 1], recs);
      KeepsToAppend(RemoveOps(sources[..|sources| - 1]),
                    [Drop(RecordKey(last)), Clear(Annotations(last)), Clear(Thumbs(last)), Clear(Hls(last))], recs);
    }
  }

  lemma KeepsToAppend(x: seq<Op>, y: seq<Op>, recs: seq<nat>)
    requires KeepTo(x, recs) && KeepTo(y, recs)
    ensures KeepTo(x + y, recs)
  {
  }

  lemma CommitKeepsTo(j: Journal, target: nat, recs: seq<nat>)
    requires target in recs && forall r :: r in j.sources ==> r in recs
    ensures KeepTo(CommitOps(j, target), recs)
  {
    var others := if j.sources == [] then [] else j.sources[1..];
    RemoveKeepsTo(others, recs);
    KeepsToAppend(PublishOps(j, target), RemoveOps(others), recs);
    KeepsToAppend(PublishOps(j, target) + RemoveOps(others), FinishOps(target), recs);
  }

  lemma CommitStepKeepsTo(p: Plan, w: World, k: Key)
    requires ValidPlan(p) && Inv(p, w) && w.job.Committing? && w.job.at < |CommitOps(w.job.journal, p.recs[0])|
    requires Touches(CommitOps(w.job.journal, p.recs[0])[w.job.at], k)
    ensures Concerns(p.recs, k)
  {
    if JournalKey in w.bucket {
      assert w.job.journal.sources == p.recs;
      CommitKeepsTo(w.job.journal, p.recs[0], p.recs);
    } else {
      CommitShape(w.job.journal, p.recs[0]);
    }
  }

  lemma JobKeepsTo(p: Plan, w: World, listed: Key, k: Key)
    requires ValidPlan(p) && Inv(p, w) && Enabled(p, w, Work(listed))
    requires Touches(Ops(p, w.job)[At(w.job)], k)
    ensures Concerns(p.recs, k)
  {
    if w.job.Committing? {
      CommitStepKeepsTo(p, w, k);
    }
  }

  predicate SameAt(a: Bucket, b: Bucket, k: Key) { (k in a <==> k in b) && (k in a ==> a[k] == b[k]) }

  lemma UntouchedStays(p: Plan, w: World, op: Op, listed: Key, k: Key)
    requires ValidPlan(p) && !Touches(op, k)
    ensures SameAt(w.bucket, Worked(p, w, op, listed).bucket, k)
  {
  }

  /** With any number of crashes, anywhere: no object of any other recording changes. */
  lemma {:induction false} OthersUntouched(p: Plan, run: seq<World>, steps: seq<Step>, k: Key)
    requires ValidPlan(p) && IsRun(p, run, steps) && !Concerns(p.recs, k)
    ensures SameAt(run[0].bucket, run[|steps|].bucket, k)
  {
    if steps != [] {
      var n := |steps| - 1;
      OthersUntouched(p, run[..|steps|], steps[..n], k);
      RunKeepsInv(p, run[..|steps|], steps[..n]);
      var w := run[n];
      if steps[n].Work? {
        if Touches(Ops(p, w.job)[At(w.job)], k) {
          JobKeepsTo(p, w, steps[n].listed, k);
        }
        UntouchedStays(p, w, Ops(p, w.job)[At(w.job)], steps[n].listed, k);
      }
    }
  }

  // ---------------------------------------------------------------- what is cleaned up

  /** `ops[i]` removes the key and nothing after it creates it. */
  ghost predicate RemovedAt(ops: seq<Op>, k: Key, i: nat) {
    i < |ops| && Removes(ops[i], k) && forall m :: i < m < |ops| ==> !Creates(ops[m], k)
  }

  lemma {:induction false} RemovedIsGone(b: Bucket, ops: seq<Op>, k: Key, i: nat)
    requires RemovedAt(ops, k, i) && Execute(b, ops).Some?
    ensures k !in Execute(b, ops).value
    decreases |ops|
  {
    var n := |ops| - 1;
    if i < n {
      RemovedIsGone(b, ops[..n], k, i);
      assert !Creates(ops[n], k);
    }
  }

  lemma {:induction false} RemoveReaches(sources: seq<nat>, k: Key) returns (i: nat)
    requires RecOf(k).Some? && RecOf(k).value in sources
    ensures i < |RemoveOps(sources)| && Removes(RemoveOps(sources)[i], k)
  {
    var init, last := sources[..|sources| - 1], sources[|sources| - 1];
    var ops, n := RemoveOps(sources), |RemoveOps(init)|;
    assert ops[n..] == [Drop(RecordKey(last)), Clear(Annotations(last)), Clear(Thumbs(last)), Clear(Hls(last))];
    if RecOf(k).value == last {
      i := n + match k case RecordKey(_) => 0 case AnnotationKey(_, _) => 1 case ThumbKey(_, _) => 2 case _ => 3;
      assert ops[i] == ops[n..][i - n];
    } else {
      assert sources == init + [last];
      i := RemoveReaches(init, k);
      assert ops[i] == RemoveOps(init)[i];
    }
  }

  lemma {:induction false} RemoveCreatesNothing(sources: seq<nat>)
    ensures forall i, k :: 0 <= i < |RemoveOps(sources)| ==> !Creates(RemoveOps(sources)[i], k)
  {
    if sources != [] {
      RemoveCreatesNothing(sources[..|sources| - 1]);
    }
  }

  /** What a commit is to clear: everything of the other sources, the target's renditions, the
      staging area and the journal. */
  predicate ToClear(j: Journal, target: nat, k: Key) {
    || (j.sources != [] && RecOf(k).Some? && RecOf(k).value in j.sources[1..])
    || (k.HlsKey? && k.rec == target)
    || RecOf(k).None?
  }

  lemma CommitReaches(j: Journal, target: nat, k: Key) returns (i: nat)
    requires ToClear(j, target, k)
    ensures RemovedAt(CommitOps(j, target), k, i)
  {
    var others := if j.sources == [] then [] else j.sources[1..];
    var a, b, c := PublishOps(j, target), RemoveOps(others), FinishOps(target);
    var ops := CommitOps(j, target);
    RemoveCreatesNothing(others);
    assert ops == a + b + c;
    assert forall m :: |a| <= m < |a| + |b| ==> ops[m] == b[m - |a|];
    assert forall m :: |a| + |b| <= m < |ops| ==> ops[m] == c[m - |a| - |b|];
    assert forall m :: |a| <= m < |ops| ==> !Creates(ops[m], k);
    if RecOf(k).Some? && RecOf(k).value in others {
      var m := RemoveReaches(others, k);
      i := |a| + m;
    } else {
      i := |a| + |b| + if RecOf(k).Some? then 1 else if k == JournalKey then 4 else 5;
    }
  }

  /** A commit that runs to its end leaves nothing of the other sources, no rendition of the
      target made from the old video, nothing staged and no journal. */
  lemma CommitLeavesNothing(b: Bucket, j: Journal, target: nat, k: Key)
    requires Execute(b, CommitOps(j, target)).Some? && ToClear(j, target, k)
    ensures k !in Execute(b, CommitOps(j, target)).value
  {
    var i := CommitReaches(j, target, k);
    RemovedIsGone(b, CommitOps(j, target), k, i);
  }
}
