/** Journaled repair of one published recording: stage, journal, publish, clean up, with a
    crash possible before and after every object-store operation. */
module ArchiveRepair {
  import opened Common
  import T = Timeline

  /** A recording's content as the packets of its video. */
  type Content = T.Video

  /** Object keys of the records concerned, and of the target's staging area and journal.
      Annotations, thumbnails and HLS renditions are several objects under one prefix. */
  datatype Key =
    | RecordKey(rec: nat)
    | AnnotationKey(rec: nat, n: nat)
    | ThumbKey(rec: nat, n: nat)
    | HlsKey(rec: nat, n: nat)
    | StagedVideo
    | StagedThumb
    | StagedAnnotation
    | JournalKey

  /** The journal names the sources and says whether a thumbnail and an annotation were staged. */
  datatype Journal = Journal(sources: seq<nat>, thumb: bool, annotated: bool)
  datatype Object = Video(content: Content) | Blob | State(journal: Journal)

  type Bucket = map<Key, Object>

  datatype Prefix = Annotations(rec: nat) | Thumbs(rec: nat) | Hls(rec: nat) | Staging

  predicate Under(p: Prefix, k: Key) {
    match p
    case Annotations(r) => k.AnnotationKey? && k.rec == r
    case Thumbs(r) => k.ThumbKey? && k.rec == r
    case Hls(r) => k.HlsKey? && k.rec == r
    case Staging => k == StagedVideo || k == StagedThumb || k == StagedAnnotation
  }

  /** `Elsewhere` stands for a catalogue update or a queue entry. */
  datatype Op =
    | Upload(key: Key, data: Object)
    | Publish(from: Key, to: Key)
    | Drop(key: Key)
    | Clear(prefix: Prefix)
    | Elsewhere

  // ---------------------------------------------------------------- the two jobs

  /** A merge joins the parts of a session under its first part; a fix takes the holes out of one
      recording. `original` is what the records held at first. */
  datatype Plan = Plan(recs: seq<nat>, original: map<nat, Content>, merging: bool)

  predicate ValidPlan(p: Plan) {
    && p.recs != [] && (forall i, j :: 0 <= i < j < |p.recs| ==> p.recs[i] != p.recs[j])
    && (forall r :: r in p.recs ==> r in p.original)
    && (!p.merging ==> |p.recs| == 1)
  }

  function Joined(contents: seq<Content>): Content {
    if contents == [] then [] else Joined(contents[..|contents| - 1]) + contents[|contents| - 1]
  }

  function Originals(p: Plan): seq<Content>
    requires ValidPlan(p)
  {
    seq(|p.recs|, i requires 0 <= i < |p.recs| => p.original[p.recs[i]])
  }

  /** What the target should hold in the end. */
  function Repaired(p: Plan): Content
    requires ValidPlan(p)
  {
    if p.merging then Joined(Originals(p)) else T.Closed(p.original[p.recs[0]])
  }

  // ---------------------------------------------------------------- what a process does

  /** The plan's records still listed, in order. */
  function Listed(b: Bucket, recs: seq<nat>): seq<nat> {
    if recs == [] then []
    else
      var init, last := Listed(b, recs[..|recs| - 1]), recs[|recs| - 1];
      if RecordKey(last) in b then init + [last] else init
  }

  function ContentOf(b: Bucket, rec: nat): Content {
    if RecordKey(rec) in b && b[RecordKey(rec)].Video? then b[RecordKey(rec)].content else []
  }

  function Contents(b: Bucket, recs: seq<nat>): seq<Content> {
    seq(|recs|, i requires 0 <= i < |recs| => ContentOf(b, recs[i]))
  }

  /** Whether a process without a journal starts a repair, and what it builds from the records
      as they are now. */
  predicate Needed(p: Plan, b: Bucket)
    requires ValidPlan(p)
  {
    if p.merging then |Listed(b, p.recs)| > 1 else T.Broken(ContentOf(b, p.recs[0]))
  }

  function Built(p: Plan, b: Bucket): Content
    requires ValidPlan(p)
  {
    var listed := Listed(b, p.recs);
    if p.merging then Joined(Contents(b, listed))
    else T.Closed(ContentOf(b, p.recs[0]))
  }

  function If(condition: bool, op: Op): seq<Op> { if condition then [op] else [] }

  /** A merge writes a new annotation after the rest; a fix updates the one there is, if any, and
      stages it first. */
  function StageOps(merging: bool, content: Content, j: Journal): seq<Op> {
    If(!merging && j.annotated, Upload(StagedAnnotation, Blob))
    + [Upload(StagedVideo, Video(content))]
    + If(j.thumb, Upload(StagedThumb, Blob))
    + If(merging && j.annotated, Upload(StagedAnnotation, Blob))
    + [Upload(JournalKey, State(j))]
  }

  function RemoveOps(sources: seq<nat>): seq<Op> {
    if sources == [] then []
    else
      var last := sources[|sources| - 1];
      RemoveOps(sources[..|sources| - 1]) + [Drop(RecordKey(last)), Clear(Annotations(last)), Clear(Thumbs(last)), Clear(Hls(last))]
  }

  function PublishOps(j: Journal, target: nat): seq<Op> {
    [Publish(StagedVideo, RecordKey(target))]
    + If(j.thumb, Publish(StagedThumb, ThumbKey(target, 0)))
    + If(j.annotated, Publish(StagedAnnotation, AnnotationKey(target, 0)))
  }

  /** The catalogue rows, the target's renditions and catalogue entry, the queue; the journal;
      the staging area. */
  function FinishOps(target: nat): seq<Op> {
    [Elsewhere, Clear(Hls(target)), Elsewhere, Elsewhere, Drop(JournalKey), Clear(Staging)]
  }

  /** `commit_state`: publish, remove the other sources, reset the target's renditions, then the
      journal, and the staging area last. */
  function CommitOps(j: Journal, target: nat): seq<Op> {
    PublishOps(j, target)
    + RemoveOps(if j.sources == [] then [] else j.sources[1..])
    + FinishOps(target)
  }

  /** Where the one running process is; a crash leaves `Idle`. */
  datatype Job =
    | Idle
    | Preparing(content: Content, journal: Journal, at: nat)
    | Committing(journal: Journal, at: nat)
    | Annotating

  datatype World = World(bucket: Bucket, job: Job)

  /** `Clear` removes one listed object at a time. */
  datatype Step = Begin(thumb: bool) | Work(listed: Key) | Crash

  function Ops(p: Plan, job: Job): seq<Op>
    requires ValidPlan(p)
  {
    match job
    case Idle => []
    case Preparing(content, journal, _) => StageOps(p.merging, content, journal)
    case Committing(journal, _) => CommitOps(journal, p.recs[0])
    case Annotating => [Upload(AnnotationKey(p.recs[0], 0), Blob)]
  }

  function At(job: Job): nat { if job.Preparing? || job.Committing? then job.at else 0 }

  /** After its last operation a staged repair goes on to commit; other jobs end. */
  function Advanced(p: Plan, job: Job): Job
    requires ValidPlan(p)
  {
    match job
    case Preparing(content, journal, at) =>
      if at + 1 < |StageOps(p.merging, content, journal)| then Preparing(content, journal, at + 1) else Committing(journal, 0)
    case Committing(journal, at) =>
      if at + 1 < |CommitOps(journal, p.recs[0])| then Committing(journal, at + 1) else Idle
    case _ => Idle
  }

  /** A merge always writes an annotation; a fix only where there is one. */
  predicate Annotates(p: Plan, b: Bucket)
    requires ValidPlan(p)
  {
    p.merging || AnnotationKey(p.recs[0], 0) in b
  }

  /** A new process: resume the journal, repair, or, for a session that needs no merging, just
      annotate. */
  function Started(p: Plan, b: Bucket, thumb: bool): Job
    requires ValidPlan(p)
  {
    if JournalKey in b && b[JournalKey].State? then Committing(b[JournalKey].journal, 0)
    else if Needed(p, b) then Preparing(Built(p, b), Journal(Listed(b, p.recs), thumb, Annotates(p, b)), 0)
    else if p.merging then Annotating
    else Idle
  }

  predicate Enabled(p: Plan, w: World, s: Step)
    requires ValidPlan(p)
  {
    match s
    case Begin(_) => w.job.Idle?
    case Work(_) => At(w.job) < |Ops(p, w.job)|
    case Crash => true
  }

  function Worked(p: Plan, w: World, op: Op, listed: Key): World
    requires ValidPlan(p)
  {
    match op
    case Upload(key, data) => World(w.bucket[key := data], Advanced(p, w.job))
    case Publish(from, to) =>
      if from !in w.bucket then World(w.bucket, Idle)
      else World(w.bucket[to := w.bucket[from]], Advanced(p, w.job))
    case Drop(key) => World(w.bucket - {key}, Advanced(p, w.job))
    case Clear(prefix) =>
      if listed in w.bucket && Under(prefix, listed) then World(w.bucket - {listed}, w.job)
      else if exists k :: k in w.bucket && Under(prefix, k) then w
      else World(w.bucket, Advanced(p, w.job))
    case Elsewhere => World(w.bucket, Advanced(p, w.job))
  }

  function Next(p: Plan, w: World, s: Step): World
    requires ValidPlan(p) && Enabled(p, w, s)
  {
    match s
    case Begin(thumb) => World(w.bucket, Started(p, w.bucket, thumb))
    case Work(listed) => Worked(p, w, Ops(p, w.job)[At(w.job)], listed)
    case Crash => World(w.bucket, Idle)
  }

  // ---------------------------------------------------------------- the invariant

  ghost predicate Holds(b: Bucket, rec: nat, content: Content) {
    RecordKey(rec) in b && b[RecordKey(rec)] == Video(content)
  }

  /** Nothing has been published or removed. */
  ghost predicate Intact(p: Plan, b: Bucket)
    requires ValidPlan(p)
  {
    forall r :: r in p.recs ==> Holds(b, r, p.original[r])
  }

  /** The target holds the repair and the other parts are gone. */
  ghost predicate Done(p: Plan, b: Bucket)
    requires ValidPlan(p)
  {
    Holds(b, p.recs[0], Repaired(p)) && forall i :: 1 <= i < |p.recs| ==> RecordKey(p.recs[i]) !in b
  }

  /** The target holds what it held or the repair; another part is gone only after the repair is in place. */
  ghost predicate Safe(p: Plan, b: Bucket)
    requires ValidPlan(p)
  {
    && (Holds(b, p.recs[0], p.original[p.recs[0]]) || Holds(b, p.recs[0], Repaired(p)))
    && forall i :: 1 <= i < |p.recs| ==>
         Holds(b, p.recs[i], p.original[p.recs[i]]) || (RecordKey(p.recs[i]) !in b && Holds(b, p.recs[0], Repaired(p)))
  }

  /** The journal is of this repair, and everything it names is staged. */
  ghost predicate Journaled(p: Plan, b: Bucket, j: Journal)
    requires ValidPlan(p)
  {
    && JournalKey in b && b[JournalKey] == State(j)
    && j.sources == p.recs
    && StagedVideo in b && b[StagedVideo] == Video(Repaired(p))
    && (j.annotated ==> StagedAnnotation in b)
    && (j.thumb ==> StagedThumb in b)
  }

  predicate DropsRecord(op: Op) { op.Drop? && op.key.RecordKey? }

  /** What the operations already done by this process have achieved. */
  ghost predicate Progress(p: Plan, b: Bucket, j: Journal, at: nat)
    requires ValidPlan(p) && at <= |CommitOps(j, p.recs[0])|
  {
    && (at > 0 ==> Holds(b, p.recs[0], Repaired(p)))
    && forall k :: 0 <= k < at && DropsRecord(CommitOps(j, p.recs[0])[k]) ==> CommitOps(j, p.recs[0])[k].key !in b
  }

  /** Staged so far by a process that has not journaled yet. */
  ghost predicate Staged(p: Plan, b: Bucket, job: Job)
    requires ValidPlan(p) && job.Preparing?
  {
    var ops := StageOps(p.merging, job.content, job.journal);
    && job.content == Repaired(p) && job.journal.sources == p.recs && job.at < |ops|
    && forall k :: 0 <= k < job.at ==> IsStaged(b, ops[k])
  }

  ghost predicate IsStaged(b: Bucket, op: Op) { op.Upload? ==> op.key in b && b[op.key] == op.data }

  ghost predicate Inv(p: Plan, w: World)
    requires ValidPlan(p)
  {
    var b := w.bucket;
    if JournalKey in b then
      && Safe(p, b) && b[JournalKey].State? && Journaled(p, b, b[JournalKey].journal)
      && (w.job.Idle? || (w.job.Committing? && w.job.journal == b[JournalKey].journal
                          && w.job.at <= |CommitOps(w.job.journal, p.recs[0])| - 2
                          && Progress(p, b, w.job.journal, w.job.at)))
    else
      match w.job
      case Idle => Intact(p, b) || Done(p, b)
      case Preparing(_, _, _) => Intact(p, b) && Staged(p, b, w.job)
      case Committing(j, at) => Done(p, b) && at == |CommitOps(j, p.recs[0])| - 1
      case Annotating => Intact(p, b) || Done(p, b)
  }

  // ---------------------------------------------------------------- the order of the operations

  /** An operation between the publishing of the video and the removal of the journal. */
  predicate Middle(op: Op, j: Journal, target: nat) {
    match op
    case Publish(from, to) => (from == StagedThumb && j.thumb && to.ThumbKey?) || (from == StagedAnnotation && j.annotated && to.AnnotationKey?)
    case Drop(key) => key.RecordKey? && j.sources != [] && key.rec in j.sources[1..]
    case Clear(prefix) => prefix != Staging
    case Elsewhere => true
    case Upload(_, _) => false
  }

  lemma {:induction false} RemoveShape(sources: seq<nat>)
    ensures forall k :: 0 <= k < |RemoveOps(sources)| ==>
      var op := RemoveOps(sources)[k]; (op.Drop? && op.key.RecordKey? && op.key.rec in sources) || (op.Clear? && op.prefix != Staging)
    ensures forall r :: r in sources ==> Drop(RecordKey(r)) in RemoveOps(sources)
  {
    if sources != [] {
      var init, last := sources[..|sources| - 1], sources[|sources| - 1];
      RemoveShape(init);
      assert sources == init + [last];
      var ops := RemoveOps(sources);
      assert ops[|RemoveOps(init)|] == Drop(RecordKey(last));
      forall r | r in sources ensures Drop(RecordKey(r)) in ops {
        if r in init {
          assert Drop(RecordKey(r)) in RemoveOps(init);
        }
      }
    }
  }

  lemma CommitShape(j: Journal, target: nat)
    ensures var ops := CommitOps(j, target); var n := |ops|;
            && n > 2 && ops[0] == Publish(StagedVideo, RecordKey(target))
            && ops[n - 2] == Drop(JournalKey) && ops[n - 1] == Clear(Staging)
            && (forall k :: 0 < k < n - 2 ==> Middle(ops[k], j, target))
  {
    var removed := if j.sources == [] then [] else j.sources[1..];
    RemoveShape(removed);
    var a, b, c := PublishOps(j, target), RemoveOps(removed), FinishOps(target);
    var ops := CommitOps(j, target);
    assert ops == a + b + c;
    forall k | 0 < k < |ops| - 2 ensures Middle(ops[k], j, target) {
      if k < |a| {
        assert ops[k] == a[k];
      } else if k < |a| + |b| {
        assert ops[k] == b[k - |a|];
      } else {
        assert ops[k] == c[k - |a| - |b|];
      }
    }
  }

  /** Every other source is removed before the journal is. */
  lemma RemovedBeforeJournal(j: Journal, target: nat, r: nat)
    requires j.sources != [] && r in j.sources[1..]
    ensures exists k :: 0 < k < |CommitOps(j, target)| - 2 && CommitOps(j, target)[k] == Drop(RecordKey(r))
  {
    RemoveShape(j.sources[1..]);
    var a, b := PublishOps(j, target), RemoveOps(j.sources[1..]);
    var k :| 0 <= k < |b| && b[k] == Drop(RecordKey(r));
    var ops := CommitOps(j, target);
    assert ops == a + b + FinishOps(target);
    assert ops[|a| + k] == b[k];
  }

  // ---------------------------------------------------------------- steps keep the invariant

  /** The two buckets hold the same records, journal and staging. */
  ghost predicate SameCore(a: Bucket, b: Bucket) {
    forall k: Key :: !k.AnnotationKey? && !k.ThumbKey? && !k.HlsKey? ==> (k in a <==> k in b) && (k in a ==> a[k] == b[k])
  }

  lemma SameCoreKeeps(p: Plan, a: Bucket, b: Bucket)
    requires ValidPlan(p) && SameCore(a, b)
    ensures Intact(p, a) == Intact(p, b) && Done(p, a) == Done(p, b) && Safe(p, a) == Safe(p, b)
    ensures forall j :: Journaled(p, a, j) == Journaled(p, b, j)
  {
    assert forall r: nat, c :: Holds(a, r, c) == Holds(b, r, c) by {
      assert forall r: nat :: RecordKey(r) in a <==> RecordKey(r) in b;
    }
  }

  lemma SideStep(p: Plan, a: Bucket, b: Bucket, j: Journal, at: nat)
    requires ValidPlan(p) && SameCore(a, b) && JournalKey in a && Safe(p, a) && Journaled(p, a, j)
    requires at < |CommitOps(j, p.recs[0])| - 2 && Progress(p, a, j, at)
    requires at > 0 && !DropsRecord(CommitOps(j, p.recs[0])[at])
    ensures Inv(p, World(b, Committing(j, at))) && Inv(p, World(b, Committing(j, at + 1))) && Inv(p, World(b, Idle))
  {
    SameCoreKeeps(p, a, b);
    ProgressStays(p, a, b, j, at);
    JournaledInv(p, b, j, at);
    JournaledInv(p, b, j, at + 1);
  }

  lemma ProgressStays(p: Plan, a: Bucket, b: Bucket, j: Journal, at: nat)
    requires ValidPlan(p) && SameCore(a, b) && at < |CommitOps(j, p.recs[0])| && Progress(p, a, j, at)
    requires at > 0 && !DropsRecord(CommitOps(j, p.recs[0])[at])
    ensures Progress(p, b, j, at) && Progress(p, b, j, at + 1)
  {
    var ops := CommitOps(j, p.recs[0]);
    assert RecordKey(p.recs[0]) in b;
    forall k | 0 <= k < at + 1 && DropsRecord(ops[k]) ensures ops[k].key !in b {
      assert ops[k].key !in a;
    }
  }

  lemma JournaledInv(p: Plan, b: Bucket, j: Journal, at: nat)
    requires ValidPlan(p) && JournalKey in b && Safe(p, b) && Journaled(p, b, j)
    requires at <= |CommitOps(j, p.recs[0])| - 2 && Progress(p, b, j, at)
    ensures Inv(p, World(b, Committing(j, at))) && Inv(p, World(b, Idle))
  {
  }

  lemma PublishVideo(p: Plan, w: World, listed: Key)
    requires ValidPlan(p) && Inv(p, w) && JournalKey in w.bucket && w.job.Committing? && w.job.at == 0
    ensures Inv(p, Worked(p, w, Ops(p, w.job)[0], listed))
  {
    CommitShape(w.job.journal, p.recs[0]);
    var v := Worked(p, w, Ops(p, w.job)[0], listed);
    assert Holds(v.bucket, p.recs[0], Repaired(p));
    forall i | 1 <= i < |p.recs|
      ensures Holds(v.bucket, p.recs[i], p.original[p.recs[i]]) || RecordKey(p.recs[i]) !in v.bucket
    {
      assert Holds(w.bucket, p.recs[i], p.original[p.recs[i]]) || RecordKey(p.recs[i]) !in w.bucket;
    }
  }

  lemma RemovedIsSafe(p: Plan, b: Bucket, r: nat)
    requires ValidPlan(p) && Safe(p, b) && Holds(b, p.recs[0], Repaired(p)) && r in p.recs[1..]
    ensures Safe(p, b - {RecordKey(r)}) && Holds(b - {RecordKey(r)}, p.recs[0], Repaired(p))
    ensures forall j :: Journaled(p, b, j) ==> Journaled(p, b - {RecordKey(r)}, j)
  {
    var m :| 0 <= m < |p.recs[1..]| && p.recs[1..][m] == r;
    assert p.recs[m + 1] == r;
    forall i | 1 <= i < |p.recs|
      ensures Holds(b - {RecordKey(r)}, p.recs[i], p.original[p.recs[i]]) || RecordKey(p.recs[i]) !in b - {RecordKey(r)}
    {
      assert Holds(b, p.recs[i], p.original[p.recs[i]]) || RecordKey(p.recs[i]) !in b;
    }
  }

  lemma ProgressRemoves(p: Plan, b: Bucket, j: Journal, at: nat)
    requires ValidPlan(p) && at < |CommitOps(j, p.recs[0])| && Progress(p, b, j, at) && at > 0
    requires DropsRecord(CommitOps(j, p.recs[0])[at]) && CommitOps(j, p.recs[0])[at].key != RecordKey(p.recs[0])
    ensures Progress(p, b - {CommitOps(j, p.recs[0])[at].key}, j, at + 1)
  {
  }

  lemma RemoveSource(p: Plan, w: World, listed: Key)
    requires ValidPlan(p) && Inv(p, w) && JournalKey in w.bucket && w.job.Committing?
    requires 0 < w.job.at < |Ops(p, w.job)| - 2 && DropsRecord(Ops(p, w.job)[w.job.at])
    ensures Inv(p, Worked(p, w, Ops(p, w.job)[w.job.at], listed))
  {
    var j, at := w.job.journal, w.job.at;
    CommitShape(j, p.recs[0]);
    var op := CommitOps(j, p.recs[0])[at];
    assert Middle(op, j, p.recs[0]);
    RemovedIsSafe(p, w.bucket, op.key.rec);
    assert op.key.rec != p.recs[0];
    ProgressRemoves(p, w.bucket, j, at);
    JournaledInv(p, w.bucket - {op.key}, j, at + 1);
  }

  lemma MiddleStep(p: Plan, w: World, listed: Key)
    requires ValidPlan(p) && Inv(p, w) && JournalKey in w.bucket && w.job.Committing?
    requires 0 < w.job.at < |Ops(p, w.job)| - 2
    ensures Inv(p, Worked(p, w, Ops(p, w.job)[w.job.at], listed))
  {
    var j, at := w.job.journal, w.job.at;
    CommitShape(j, p.recs[0]);
    var op := CommitOps(j, p.recs[0])[at];
    assert Middle(op, j, p.recs[0]);
    if DropsRecord(op) {
      RemoveSource(p, w, listed);
    } else {
      var v := Worked(p, w, op, listed);
      SideStep(p, w.bucket, v.bucket, j, at);
    }
  }

  lemma RemoveJournal(p: Plan, w: World, listed: Key)
    requires ValidPlan(p) && Inv(p, w) && JournalKey in w.bucket && w.job.Committing?
    requires w.job.at == |Ops(p, w.job)| - 2
    ensures Inv(p, Worked(p, w, Ops(p, w.job)[w.job.at], listed))
  {
    var j := w.job.journal;
    CommitShape(j, p.recs[0]);
    forall i | 1 <= i < |p.recs| ensures RecordKey(p.recs[i]) !in w.bucket {
      assert p.recs[1..][i - 1] == p.recs[i];
      RemovedBeforeJournal(j, p.recs[0], p.recs[i]);
    }
    assert Holds(w.bucket, p.recs[0], Repaired(p));
  }

  lemma SweepStaging(p: Plan, w: World, listed: Key)
    requires ValidPlan(p) && Inv(p, w) && w.job.Committing? && w.job.at < |Ops(p, w.job)| && JournalKey !in w.bucket
    ensures Inv(p, Worked(p, w, Ops(p, w.job)[w.job.at], listed))
  {
    CommitShape(w.job.journal, p.recs[0]);
    var v := Worked(p, w, Clear(Staging), listed);
    assert forall r: nat :: RecordKey(r) in w.bucket <==> RecordKey(r) in v.bucket;
  }

  lemma CommitWork(p: Plan, w: World, listed: Key)
    requires ValidPlan(p) && Inv(p, w) && w.job.Committing? && w.job.at < |Ops(p, w.job)|
    ensures Inv(p, Worked(p, w, Ops(p, w.job)[w.job.at], listed))
  {
    CommitShape(w.job.journal, p.recs[0]);
    if JournalKey !in w.bucket {
      SweepStaging(p, w, listed);
    } else if w.job.at == 0 {
      PublishVideo(p, w, listed);
    } else if w.job.at < |Ops(p, w.job)| - 2 {
      MiddleStep(p, w, listed);
    } else {
      RemoveJournal(p, w, listed);
    }
  }

  /** The uploads: to different keys of the staging area, and the journal last. */
  lemma StageShape(merging: bool, content: Content, j: Journal)
    ensures var ops := StageOps(merging, content, j); var n := |ops|;
            && n > 0 && ops[n - 1] == Upload(JournalKey, State(j))
            && (forall k :: 0 <= k < n ==> ops[k].Upload? && !ops[k].key.RecordKey?)
            && (forall k :: 0 <= k < n - 1 ==> ops[k].key != JournalKey)
            && (forall i, k :: 0 <= i < k < n ==> ops[i].key != ops[k].key)
  {
  }

  lemma StageHas(merging: bool, content: Content, j: Journal)
    ensures Upload(StagedVideo, Video(content)) in StageOps(merging, content, j)
    ensures j.thumb ==> Upload(StagedThumb, Blob) in StageOps(merging, content, j)
    ensures j.annotated ==> Upload(StagedAnnotation, Blob) in StageOps(merging, content, j)
  {
  }

  lemma UploadKeepsIntact(p: Plan, b: Bucket, key: Key, data: Object)
    requires ValidPlan(p) && Intact(p, b) && !key.RecordKey?
    ensures Intact(p, b[key := data])
  {
    forall r | r in p.recs ensures Holds(b[key := data], r, p.original[r]) {
      assert Holds(b, r, p.original[r]);
    }
  }

  lemma UploadIsStaged(p: Plan, b: Bucket, job: Job)
    requires ValidPlan(p) && job.Preparing? && Staged(p, b, job)
    ensures var ops := StageOps(p.merging, job.content, job.journal);
            && ops[job.at].Upload?
            && forall k :: 0 <= k <= job.at ==> IsStaged(b[ops[job.at].key := ops[job.at].data], ops[k])
  {
    StageShape(p.merging, job.content, job.journal);
  }

  lemma AllStagedIsJournaled(p: Plan, b: Bucket, job: Job)
    requires ValidPlan(p) && job.Preparing? && job.content == Repaired(p) && job.journal.sources == p.recs
    requires forall op :: op in StageOps(p.merging, job.content, job.journal) ==> IsStaged(b, op)
    ensures Journaled(p, b, job.journal)
  {
    StageHas(p.merging, job.content, job.journal);
    StageShape(p.merging, job.content, job.journal);
    var ops := StageOps(p.merging, job.content, job.journal);
    assert ops[|ops| - 1] in ops;
  }

  lemma IntactIsSafe(p: Plan, b: Bucket)
    requires ValidPlan(p) && Intact(p, b)
    ensures Safe(p, b)
  {
    assert Holds(b, p.recs[0], p.original[p.recs[0]]);
    forall i | 1 <= i < |p.recs| ensures Holds(b, p.recs[i], p.original[p.recs[i]]) {
      assert p.recs[i] in p.recs;
    }
  }

  lemma LastUploadJournals(p: Plan, b: Bucket, job: Job)
    requires ValidPlan(p) && job.Preparing? && Intact(p, b) && JournalKey in b
    requires job.content == Repaired(p) && job.journal.sources == p.recs
    requires forall op :: op in StageOps(p.merging, job.content, job.journal) ==> IsStaged(b, op)
    ensures Inv(p, World(b, Committing(job.journal, 0)))
  {
    AllStagedIsJournaled(p, b, job);
    IntactIsSafe(p, b);
    CommitShape(job.journal, p.recs[0]);
    JournaledInv(p, b, job.journal, 0);
  }

  lemma PrepareWork(p: Plan, w: World, listed: Key)
    requires ValidPlan(p) && Inv(p, w) && w.job.Preparing? && w.job.at < |Ops(p, w.job)|
    ensures Inv(p, Worked(p, w, Ops(p, w.job)[w.job.at], listed))
  {
    var job, ops := w.job, StageOps(p.merging, w.job.content, w.job.journal);
    StageShape(p.merging, job.content, job.journal);
    UploadIsStaged(p, w.bucket, job);
    var after := w.bucket[ops[job.at].key := ops[job.at].data];
    UploadKeepsIntact(p, w.bucket, ops[job.at].key, ops[job.at].data);
    if job.at + 1 == |ops| {
      LastUploadJournals(p, after, job);
    }
  }

  lemma {:induction false} ListedIntact(b: Bucket, recs: seq<nat>)
    requires forall r :: r in recs ==> RecordKey(r) in b
    ensures Listed(b, recs) == recs
  {
    if recs != [] {
      assert recs == recs[..|recs| - 1] + [recs[|recs| - 1]];
      ListedIntact(b, recs[..|recs| - 1]);
    }
  }

  lemma {:induction false} ListedFirst(b: Bucket, recs: seq<nat>)
    requires recs != [] && RecordKey(recs[0]) in b && forall i :: 1 <= i < |recs| ==> RecordKey(recs[i]) !in b
    ensures Listed(b, recs) == [recs[0]]
  {
    if |recs| > 1 {
      ListedFirst(b, recs[..|recs| - 1]);
    } else {
      assert recs[..0] == [];
    }
  }

  lemma IntactBuilds(p: Plan, b: Bucket)
    requires ValidPlan(p) && Intact(p, b)
    ensures Listed(b, p.recs) == p.recs && Built(p, b) == Repaired(p)
  {
    forall r | r in p.recs ensures RecordKey(r) in b && ContentOf(b, r) == p.original[r] {
      assert Holds(b, r, p.original[r]);
    }
    ListedIntact(b, p.recs);
    assert p.recs[0] in p.recs;
    forall i | 0 <= i < |p.recs| ensures Contents(b, p.recs)[i] == Originals(p)[i] {
      assert p.recs[i] in p.recs;
    }
    assert Contents(b, p.recs) == Originals(p);
  }

  lemma DoneNeedsNothing(p: Plan, b: Bucket)
    requires ValidPlan(p) && Done(p, b)
    ensures !Needed(p, b)
  {
    if p.merging {
      ListedFirst(b, p.recs);
    } else {
      T.ClosedIsWhole(p.original[p.recs[0]]);
    }
  }

  /** A process builds the repair only from the untouched originals; once it is in place, none
      is needed. */
  lemma BuiltFromOriginals(p: Plan, b: Bucket)
    requires ValidPlan(p)
    ensures Intact(p, b) ==> Listed(b, p.recs) == p.recs && Built(p, b) == Repaired(p)
    ensures Done(p, b) ==> !Needed(p, b)
  {
    if Intact(p, b) {
      IntactBuilds(p, b);
    }
    if Done(p, b) {
      DoneNeedsNothing(p, b);
    }
  }

  lemma BeginKeeps(p: Plan, w: World, thumb: bool)
    requires ValidPlan(p) && Inv(p, w) && w.job.Idle?
    ensures Inv(p, World(w.bucket, Started(p, w.bucket, thumb)))
  {
    BuiltFromOriginals(p, w.bucket);
    if JournalKey in w.bucket {
      CommitShape(w.bucket[JournalKey].journal, p.recs[0]);
    }
  }

  lemma AnnotateWork(p: Plan, w: World, listed: Key)
    requires ValidPlan(p) && Inv(p, w) && w.job.Annotating?
    ensures Inv(p, Worked(p, w, Ops(p, w.job)[0], listed))
  {
    SameCoreKeeps(p, w.bucket, Worked(p, w, Ops(p, w.job)[0], listed).bucket);
  }

  lemma StepKeepsInv(p: Plan, w: World, s: Step)
    requires ValidPlan(p) && Inv(p, w) && Enabled(p, w, s)
    ensures Inv(p, Next(p, w, s))
  {
    match s {
      case Begin(thumb) => BeginKeeps(p, w, thumb);
      case Crash =>
      case Work(listed) =>
        match w.job {
          case Idle =>
          case Preparing(_, _, _) => PrepareWork(p, w, listed);
          case Committing(_, _) => CommitWork(p, w, listed);
          case Annotating => AnnotateWork(p, w, listed);
        }
    }
  }

  ghost predicate IsRun(p: Plan, run: seq<World>, steps: seq<Step>)
    requires ValidPlan(p)
  {
    && |run| == |steps| + 1
    && run[0].job.Idle? && Intact(p, run[0].bucket) && JournalKey !in run[0].bucket
    && forall i :: 0 <= i < |steps| ==> Enabled(p, run[i], steps[i]) && run[i + 1] == Next(p, run[i], steps[i])
  }

  lemma {:induction false} RunKeepsInv(p: Plan, run: seq<World>, steps: seq<Step>)
    requires ValidPlan(p) && IsRun(p, run, steps)
    ensures Inv(p, run[|steps|])
  {
    if steps != [] {
      var n := |steps| - 1;
      RunKeepsInv(p, run[..|steps|], steps[..n]);
      StepKeepsInv(p, run[n], steps[n]);
    }
  }

  // ---------------------------------------------------------------- main results

  /** With any number of crashes, anywhere: a journal in the store names only staged objects,
      and the staged video is the repair of the originals. */
  lemma JournalNamesStaged(p: Plan, run: seq<World>, steps: seq<Step>)
    requires ValidPlan(p) && IsRun(p, run, steps) && JournalKey in run[|steps|].bucket
    ensures run[|steps|].bucket[JournalKey].State? && Journaled(p, run[|steps|].bucket, run[|steps|].bucket[JournalKey].journal)
  {
    RunKeepsInv(p, run, steps);
  }

  /** No part is lost before the target holds the repair, and the target never holds anything
      but its original or the repair of the originals. */
  lemma NothingLost(p: Plan, run: seq<World>, steps: seq<Step>)
    requires ValidPlan(p) && IsRun(p, run, steps)
    ensures Safe(p, run[|steps|].bucket)
  {
    RunKeepsInv(p, run, steps);
    var b := run[|steps|].bucket;
    if JournalKey !in b && Intact(p, b) {
      assert Holds(b, p.recs[0], p.original[p.recs[0]]);
    }
  }

  /** Whenever a process builds a repair it does so from all the originals, untouched; the
      result of an earlier repair is never built upon. */
  lemma BuiltOnlyFromOriginals(p: Plan, run: seq<World>, steps: seq<Step>, thumb: bool)
    requires ValidPlan(p) && IsRun(p, run, steps) && run[|steps|].job.Idle?
    requires Started(p, run[|steps|].bucket, thumb).Preparing?
    ensures Intact(p, run[|steps|].bucket) && Started(p, run[|steps|].bucket, thumb) == Preparing(Repaired(p), Journal(p.recs, thumb, Annotates(p, run[|steps|].bucket)), 0)
  {
    RunKeepsInv(p, run, steps);
    BuiltFromOriginals(p, run[|steps|].bucket);
  }

  /** Once the journal of a finished commit is gone, the repair is complete and stays so. */
  lemma FinishedIsDone(p: Plan, run: seq<World>, steps: seq<Step>)
    requires ValidPlan(p) && IsRun(p, run, steps) && JournalKey !in run[|steps|].bucket && run[|steps|].job.Committing?
    ensures Done(p, run[|steps|].bucket)
  {
    RunKeepsInv(p, run, steps);
  }

  /** The repair is in place, and no job is building or publishing another. */
  ghost predicate Settled(p: Plan, w: World)
    requires ValidPlan(p)
  {
    && Done(p, w.bucket) && JournalKey !in w.bucket
    && match w.job
       case Committing(j, at) => at == |CommitOps(j, p.recs[0])| - 1
       case Preparing(_, _, _) => false
       case _ => true
  }

  lemma FinishedIsSettled(p: Plan, w: World)
    requires ValidPlan(p) && Inv(p, w) && w.job.Committing? && JournalKey !in w.bucket
    ensures Settled(p, w)
  {
  }

  lemma SettledCore(p: Plan, a: Bucket, b: Bucket)
    requires ValidPlan(p) && Done(p, a) && JournalKey !in a && JournalKey !in b
    requires forall r: nat :: (RecordKey(r) in a <==> RecordKey(r) in b) && (RecordKey(r) in a ==> a[RecordKey(r)] == b[RecordKey(r)])
    ensures Done(p, b)
  {
  }

  /** A finished repair is never redone, whatever processes and crashes follow. */
  lemma SettledStaysSettled(p: Plan, w: World, s: Step)
    requires ValidPlan(p) && Settled(p, w) && Enabled(p, w, s)
    ensures Settled(p, Next(p, w, s))
  {
    match s {
      case Begin(thumb) => BuiltFromOriginals(p, w.bucket);
      case Crash =>
      case Work(listed) =>
        if w.job.Committing? {
          CommitShape(w.job.journal, p.recs[0]);
        }
        SettledCore(p, w.bucket, Next(p, w, s).bucket);
    }
  }

  /** In any run: once settled, at every later moment settled. */
  lemma {:induction false} SettledForEver(p: Plan, run: seq<World>, steps: seq<Step>, k: nat, m: nat)
    requires ValidPlan(p) && IsRun(p, run, steps) && k <= m <= |steps| && Settled(p, run[k])
    ensures Settled(p, run[m]) && Done(p, run[m].bucket)
  {
    if k < m {
      SettledForEver(p, run, steps, k, m - 1);
      SettledStaysSettled(p, run[m - 1], steps[m - 1]);
    }
  }

  /** In any run: when a commit has taken its journal away, the repair is complete from then on,
      whatever processes and crashes follow. */
  lemma FinishedForEver(p: Plan, run: seq<World>, steps: seq<Step>, k: nat, m: nat)
    requires ValidPlan(p) && IsRun(p, run, steps) && k <= m <= |steps|
    requires run[k].job.Committing? && JournalKey !in run[k].bucket
    ensures Settled(p, run[m]) && Done(p, run[m].bucket)
  {
    RunKeepsInv(p, run[..k + 1], steps[..k]);
    FinishedIsSettled(p, run[k]);
    SettledForEver(p, run, steps, k, m);
  }

  // ---------------------------------------------------------------- a commit without a crash

  function Without(b: Bucket, prefix: Prefix): Bucket { map k | k in b && !Under(prefix, k) :: b[k] }

  function Do(b: Bucket, op: Op): Option<Bucket> {
    match op
    case Upload(key, data) => Some(b[key := data])
    case Publish(from, to) => if from in b then Some(b[to := b[from]]) else None
    case Drop(key) => Some(b - {key})
    case Clear(prefix) => Some(Without(b, prefix))
    case Elsewhere => Some(b)
  }

  /** All operations in order; a missing staged object stops the commit. */
  function Execute(b: Bucket, ops: seq<Op>): Option<Bucket>
    decreases |ops|
  {
    if ops == [] then Some(b)
    else
      var before := Execute(b, ops[..|ops| - 1]);
      if before.None? then None else Do(before.value, ops[|ops| - 1])
  }

  lemma ExecuteSnoc(b: Bucket, ops: seq<Op>, op: Op)
    ensures Execute(b, ops + [op]) == if Execute(b, ops).None? then None else Do(Execute(b, ops).value, op)
  {
    assert (ops + [op])[..|ops|] == ops;
  }

  lemma {:induction false} ExecuteAppend(b: Bucket, x: seq<Op>, y: seq<Op>)
    ensures Execute(b, x + y) == if Execute(b, x).None? then None else Execute(Execute(b, x).value, y)
    decreases |y|
  {
    if y == [] {
      assert x + y == x;
    } else {
      ExecuteAppend(b, x, y[..|y| - 1]);
      assert x + y == (x + y[..|y| - 1]) + [y[|y| - 1]];
      ExecuteSnoc(b, x + y[..|y| - 1], y[|y| - 1]);
    }
  }

  /** What is left where the operations stop: after all of them, or before the first that fails. */
  function Reached(b: Bucket, ops: seq<Op>): (r: Bucket)
    ensures Execute(b, ops).Some? ==> r == Execute(b, ops).value
    decreases |ops|
  {
    if ops == [] then b
    else
      var before := Execute(b, ops[..|ops| - 1]);
      if before.None? then Reached(b, ops[..|ops| - 1])
      else
        var after := Do(before.value, ops[|ops| - 1]);
        if after.Some? then after.value else before.value
  }

  lemma ReachedSnoc(b: Bucket, ops: seq<Op>, op: Op)
    ensures Reached(b, ops + [op]) ==
      if Execute(b, ops).None? || Do(Execute(b, ops).value, op).None? then Reached(b, ops) else Do(Execute(b, ops).value, op).value
  {
    assert (ops + [op])[..|ops|] == ops;
  }

  /** Once an operation has failed, none of the others is done. */
  lemma {:induction false} ReachedStops(b: Bucket, x: seq<Op>, y: seq<Op>)
    requires Execute(b, x).None?
    ensures Execute(b, x + y).None? && Reached(b, x + y) == Reached(b, x)
    decreases |y|
  {
    if y == [] {
      assert x + y == x;
    } else {
      ReachedStops(b, x, y[..|y| - 1]);
      assert x + y == (x + y[..|y| - 1]) + [y[|y| - 1]];
      ReachedSnoc(b, x + y[..|y| - 1], y[|y| - 1]);
      ExecuteSnoc(b, x + y[..|y| - 1], y[|y| - 1]);
    }
  }

  /** It is what the operations before the first failing one leave. */
  lemma {:induction false} ReachedIsBeforeFailure(b: Bucket, ops: seq<Op>) returns (n: nat)
    requires Execute(b, ops).None?
    ensures n < |ops| && Execute(b, ops[..n]) == Some(Reached(b, ops)) && Do(Reached(b, ops), ops[n]).None?
    decreases |ops|
  {
    var last := |ops| - 1;
    if Execute(b, ops[..last]).None? {
      n := ReachedIsBeforeFailure(b, ops[..last]);
      assert ops[..last][..n] == ops[..n];
    } else {
      n := last;
    }
  }

  /** One operation of a commit keeps the invariant, whether or not a crash follows. */
  lemma DoKeeps(p: Plan, b: Bucket, j: Journal, at: nat)
    requires ValidPlan(p) && JournalKey in b && Inv(p, World(b, Committing(j, at))) && at < |CommitOps(j, p.recs[0])| - 2
    ensures var after := Do(b, CommitOps(j, p.recs[0])[at]);
            after.Some? && JournalKey in after.value && Inv(p, World(after.value, Committing(j, at + 1)))
  {
    CommitShape(j, p.recs[0]);
    var w := World(b, Committing(j, at));
    var op := CommitOps(j, p.recs[0])[at];
    assert at > 0 ==> Middle(op, j, p.recs[0]);
    if op.Clear? {
      SideStep(p, b, Without(b, op.prefix), j, at);
    } else {
      CommitWork(p, w, JournalKey);
      assert Worked(p, w, op, JournalKey) == World(Do(b, op).value, Committing(j, at + 1));
    }
  }

  lemma {:induction false} ExecuteKeeps(p: Plan, b: Bucket, j: Journal, n: nat)
    requires ValidPlan(p) && JournalKey in b && Inv(p, World(b, Committing(j, 0))) && n <= |CommitOps(j, p.recs[0])| - 2
    ensures var after := Execute(b, CommitOps(j, p.recs[0])[..n]);
            after.Some? && JournalKey in after.value && Inv(p, World(after.value, Committing(j, n)))
  {
    var ops := CommitOps(j, p.recs[0]);
    if n > 0 {
      ExecuteKeeps(p, b, j, n - 1);
      assert ops[..n] == ops[..n - 1] + [ops[n - 1]];
      ExecuteSnoc(b, ops[..n - 1], ops[n - 1]);
      DoKeeps(p, Execute(b, ops[..n - 1]).value, j, n - 1);
    }
  }

  /** Resumed from its journal, after whatever crashes, a commit that runs to its end succeeds,
      leaves the repair complete and takes the journal away. */
  lemma CommitCompletes(p: Plan, b: Bucket, j: Journal)
    requires ValidPlan(p) && JournalKey in b && b[JournalKey] == State(j) && Inv(p, World(b, Idle))
    ensures var after := Execute(b, CommitOps(j, p.recs[0]));
            after.Some? && Done(p, after.value) && JournalKey !in after.value
  {
    CommitShape(j, p.recs[0]);
    var ops := CommitOps(j, p.recs[0]);
    var n := |ops| - 2;
    ExecuteKeeps(p, b, j, n);
    var mid := Execute(b, ops[..n]).value;
    RemoveJournal(p, World(mid, Committing(j, n)), JournalKey);
    LastTwo(b, ops);
    SettledCore(p, mid - {JournalKey}, Without(mid - {JournalKey}, Staging));
  }

  lemma LastTwo(b: Bucket, ops: seq<Op>)
    requires |ops| > 2 && ops[|ops| - 2] == Drop(JournalKey) && ops[|ops| - 1] == Clear(Staging)
    requires Execute(b, ops[..|ops| - 2]).Some?
    ensures Execute(b, ops) == Some(Without(Execute(b, ops[..|ops| - 2]).value - {JournalKey}, Staging))
  {
    var n := |ops| - 2;
    assert ops == ops[..n] + [Drop(JournalKey)] + [Clear(Staging)];
    ExecuteSnoc(b, ops[..n], Drop(JournalKey));
    ExecuteSnoc(b, ops[..n] + [Drop(JournalKey)], Clear(Staging));
  }

  lemma RemoveOneMore(b: Bucket, sources: seq<nat>, i: nat)
    requires i < |sources| && Execute(b, RemoveOps(sources[..i])).Some?
    ensures var before, r := Execute(b, RemoveOps(sources[..i])).value, sources[i];
            Execute(b, RemoveOps(sources[..i + 1]))
            == Some(Without(Without(Without(before - {RecordKey(r)}, Annotations(r)), Thumbs(r)), Hls(r)))
  {
    var r, ops := sources[i], RemoveOps(sources[..i]);
    var x, y := ops + [Drop(RecordKey(r))], ops + [Drop(RecordKey(r))] + [Clear(Annotations(r))];
    var z := y + [Clear(Thumbs(r))];
    assert sources[..i + 1][..i] == sources[..i];
    assert RemoveOps(sources[..i + 1]) == z + [Clear(Hls(r))];
    ExecuteSnoc(b, ops, Drop(RecordKey(r)));
    ExecuteSnoc(b, x, Clear(Annotations(r)));
    ExecuteSnoc(b, y, Clear(Thumbs(r)));
    ExecuteSnoc(b, z, Clear(Hls(r)));
  }

  /** The object store as `commit_state` changes it. */
  class Store {
    var bucket: Bucket

    constructor (contents: Bucket)
      ensures bucket == contents
    {
      bucket := contents;
    }

    method CopyStaged(from: Key, to: Key) returns (ok: bool)
      modifies this
      ensures ok <==> from in old(bucket)
      ensures bucket == if ok then old(bucket)[to := old(bucket)[from]] else old(bucket)
    {
      ok := from in bucket;
      if ok {
        bucket := bucket[to := bucket[from]];
      }
    }

    /** Lists the prefix and deletes one object after another. */
    method DeletePrefix(prefix: Prefix)
      modifies this
      ensures bucket == Without(old(bucket), prefix)
    {
      var listed := set k | k in bucket && Under(prefix, k);
      ghost var todo := listed;
      while listed != {}
        invariant listed <= todo && todo == (set k | k in old(bucket) && Under(prefix, k))
        invariant bucket == map k | k in old(bucket) && (!Under(prefix, k) || k in listed) :: old(bucket)[k]
      {
        var k :| k in listed;
        bucket := bucket - {k};
        listed := listed - {k};
      }
    }

    /** One source: its record and its three prefixes. */
    method RemoveSource(r: nat)
      modifies this
      ensures bucket == Without(Without(Without(old(bucket) - {RecordKey(r)}, Annotations(r)), Thumbs(r)), Hls(r))
    {
      bucket := bucket - {RecordKey(r)};
      DeletePrefix(Annotations(r));
      DeletePrefix(Thumbs(r));
      DeletePrefix(Hls(r));
    }

    method RemoveSources(sources: seq<nat>)
      modifies this
      ensures Execute(old(bucket), RemoveOps(sources)) == Some(bucket)
    {
      for i := 0 to |sources|
        invariant Execute(old(bucket), RemoveOps(sources[..i])) == Some(bucket)
      {
        RemoveOneMore(old(bucket), sources, i);
        RemoveSource(sources[i]);
      }
      assert sources[..|sources|] == sources;
    }

    /** What was published before a missing staged object stays. */
    method PublishStaged(j: Journal, target: nat) returns (ok: bool)
      modifies this
      ensures ok <==> Execute(old(bucket), PublishOps(j, target)).Some?
      ensures bucket == Reached(old(bucket), PublishOps(j, target))
    {
      ghost var ops: seq<Op> := [];
      ExecuteSnoc(bucket, ops, Publish(StagedVideo, RecordKey(target)));
      ReachedSnoc(bucket, ops, Publish(StagedVideo, RecordKey(target)));
      ops := ops + [Publish(StagedVideo, RecordKey(target))];
      ok := CopyStaged(StagedVideo, RecordKey(target));
      if j.thumb {
        ExecuteSnoc(old(bucket), ops, Publish(StagedThumb, ThumbKey(target, 0)));
        ReachedSnoc(old(bucket), ops, Publish(StagedThumb, ThumbKey(target, 0)));
        ops := ops + [Publish(StagedThumb, ThumbKey(target, 0))];
        if ok {
          ok := CopyStaged(StagedThumb, ThumbKey(target, 0));
        }
      }
      if j.annotated {
        ExecuteSnoc(old(bucket), ops, Publish(StagedAnnotation, AnnotationKey(target, 0)));
        ReachedSnoc(old(bucket), ops, Publish(StagedAnnotation, AnnotationKey(target, 0)));
        ops := ops + [Publish(StagedAnnotation, AnnotationKey(target, 0))];
        if ok {
          ok := CopyStaged(StagedAnnotation, AnnotationKey(target, 0));
        }
      }
      assert PublishOps(j, target) == ops;
    }

    /** The renditions, the catalogue and the queue, then the journal before the staging area. */
    method Finish(target: nat)
      modifies this
      ensures Execute(old(bucket), FinishOps(target)) == Some(bucket)
    {
      ghost var b, ops := bucket, FinishOps(target);
      assert ops[..6][..5] == ops[..5] && ops[..5][..4] == ops[..4] && ops[..4][..3] == ops[..3] && ops[..3][..2] == ops[..2];
      assert ops[..2][..1] == ops[..1] && ops[..1][..0] == [] && ops[..6] == ops;
      assert Execute(b, ops[..1]) == Some(b);
      assert Execute(b, ops[..2]) == Some(Without(b, Hls(target)));
      DeletePrefix(Hls(target));
      assert Execute(b, ops[..3]) == Some(bucket);
      assert Execute(b, ops[..4]) == Some(bucket);
      bucket := bucket - {JournalKey};
      assert Execute(b, ops[..5]) == Some(bucket);
      DeletePrefix(Staging);
    }

    method CommitState(j: Journal, target: nat) returns (ok: bool)
      modifies this
      ensures ok <==> Execute(old(bucket), CommitOps(j, target)).Some?
      ensures bucket == Reached(old(bucket), CommitOps(j, target))
    {
      var others := if j.sources == [] then [] else j.sources[1..];
      ghost var a, b, c := PublishOps(j, target), RemoveOps(others), FinishOps(target);
      assert CommitOps(j, target) == (a + b) + c == a + (b + c);
      ExecuteAppend(bucket, a + b, c);
      ExecuteAppend(bucket, a, b);
      if Execute(bucket, a).None? { ReachedStops(bucket, a, b + c); }
      ok := PublishStaged(j, target);
      if ok {
        RemoveSources(others);
        Finish(target);
      }
    }
  }
}
