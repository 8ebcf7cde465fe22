/** Planning compactions, what a compaction means for queries, and the grace period of old files. */
module Compaction {
  import opened Model
  import opened Sums
  import opened Manifests
  import opened Sorting
  import opened Query
  import opened Engine
  import opened Catalog
  import opened Runs
  import opened RollupSafety
  import opened QueryRefinement

  // Planning.

  datatype Plan = Plan(bucket: nat, segmentIds: seq<SegmentId>)

  function OfBucket(bucket: nat): SegmentMeta -> bool
  {
    (s: SegmentMeta) => s.bucket == bucket
  }

  /** One job per bucket with more than `maxSmall` segments, listing all of them in catalogue order. */
  ghost predicate PlansFor(segments: seq<SegmentMeta>, maxSmall: nat, plans: seq<Plan>)
  {
    && (forall p :: p in plans ==>
          && p.segmentIds == IdsOf(Filter(segments, OfBucket(p.bucket)))
          && |p.segmentIds| > maxSmall)
    && (forall i, j :: 0 <= i < j < |plans| ==> plans[i].bucket != plans[j].bucket)
    && (forall b :: |Filter(segments, OfBucket(b))| > maxSmall ==> exists p :: p in plans && p.bucket == b)
  }

  method PlanCompaction(segments: seq<SegmentMeta>, maxSmall: nat) returns (plans: seq<Plan>)
    ensures PlansFor(segments, maxSmall, plans)
  {
    hide Filter, IdsOf;
    var byBucket := GroupByBucket(segments);
    plans := [];
    var rest := byBucket.Keys;
    while rest != {}
      invariant rest <= byBucket.Keys && Planned(byBucket, maxSmall, rest, plans)
      decreases |rest|
    {
      hide Planned;
      var bucket :| bucket in rest;
      PlannedStep(byBucket, maxSmall, rest, plans, bucket);
      rest := rest - {bucket};
      if |byBucket[bucket]| > maxSmall {
        var ids := SegmentIds(byBucket[bucket]);
        plans := plans + [Plan(bucket, ids)];
      }
    }
    forall p | p in plans ensures |p.segmentIds| > maxSmall {
      IdsOfListed(byBucket[p.bucket]);
    }
  }

  /** The jobs for the buckets outside `rest` have been emitted. */
  ghost predicate Planned(byBucket: map<nat, seq<SegmentMeta>>, maxSmall: nat, rest: set<nat>, plans: seq<Plan>)
  {
    && (forall p :: p in plans ==>
          && p.bucket in byBucket && p.bucket !in rest && |byBucket[p.bucket]| > maxSmall
          && p.segmentIds == IdsOf(byBucket[p.bucket]))
    && (forall i, j :: 0 <= i < j < |plans| ==> plans[i].bucket != plans[j].bucket)
    && (forall b :: b in byBucket && b !in rest && |byBucket[b]| > maxSmall ==> exists p :: p in plans && p.bucket == b)
  }

  lemma PlannedStep(byBucket: map<nat, seq<SegmentMeta>>, maxSmall: nat, rest: set<nat>, plans: seq<Plan>, bucket: nat)
    requires Planned(byBucket, maxSmall, rest, plans) && bucket in rest && bucket in byBucket
    ensures Planned(byBucket, maxSmall, rest - {bucket},
                    plans + if |byBucket[bucket]| > maxSmall then [Plan(bucket, IdsOf(byBucket[bucket]))] else [])
  {
    hide IdsOf;
    if |byBucket[bucket]| > maxSmall {
      var more := plans + [Plan(bucket, IdsOf(byBucket[bucket]))];
      assert more[|plans|] in more;
      assert forall p :: p in plans ==> p in more;
      assert forall i :: 0 <= i < |plans| ==> plans[i] in plans;
    } else {
      assert plans + [] == plans;
    }
  }

  method GroupByBucket(segments: seq<SegmentMeta>) returns (byBucket: map<nat, seq<SegmentMeta>>)
    ensures forall b :: (if b in byBucket then byBucket[b] else []) == Filter(segments, OfBucket(b))
  {
    byBucket := map[];
    for i := 0 to |segments|
      invariant forall b :: (if b in byBucket then byBucket[b] else []) == Filter(segments[..i], OfBucket(b))
    {
      hide Filter;
      var s := segments[i];
      assert segments[..i + 1] == segments[..i] + [s];
      forall b
        ensures Filter(segments[..i + 1], OfBucket(b))
             == Filter(segments[..i], OfBucket(b)) + if b == s.bucket then [s] else []
      {
        FilterSnoc(segments[..i], OfBucket(b), s);
      }
      byBucket := byBucket[s.bucket := (if s.bucket in byBucket then byBucket[s.bucket] else []) + [s]];
    }
    assert segments[..|segments|] == segments;
  }

  method SegmentIds(metas: seq<SegmentMeta>) returns (ids: seq<SegmentId>)
    ensures ids == IdsOf(metas)
  {
    ids := [];
    for i := 0 to |metas|
      invariant ids == IdsOf(metas[..i])
    {
      assert metas[..i + 1][..i] == metas[..i];
      ids := ids + [metas[i].segmentId];
    }
    assert metas[..|metas|] == metas;
  }

  /** Every planned job is a legal one. */
  lemma PlannedJobIsLegal(m: Manifest, maxSmall: nat, plans: seq<Plan>, p: Plan)
    requires PlansFor(m.rawSegments, maxSmall, plans) && p in plans && DistinctSegments(m.rawSegments)
    ensures CompactionPlan(m, p.segmentIds, p.bucket)
  {
    hide Filter, IdsOf;
    var part := Filter(m.rawSegments, OfBucket(p.bucket));
    FilterDistinct(m.rawSegments, OfBucket(p.bucket));
    IdsOfListed(part);
    forall id | id in p.segmentIds ensures ListedIn(m, id, p.bucket) {
      var i :| 0 <= i < |p.segmentIds| && p.segmentIds[i] == id;
      assert part[i] in part;
      FilterMember(m.rawSegments, OfBucket(p.bucket), part[i]);
    }
  }

  // Meaning.

  /** Two answers agree, up to the order of rows. */
  ghost predicate SameAnswer(a: Answer, b: Answer)
  {
    match (a, b)
    case (Rows(x), Rows(y)) => multiset(x) == multiset(y)
    case (Table(x), Table(y)) => x == y
    case _ => false
  }

  lemma MatchingMultiset(c: Config, s: State, plan: QueryPlan, e: UsageEvent)
    requires s.Up? && RawListed(c, s.disk) && IsI64(plan.fromMs) && IsI64(plan.toMs)
    ensures multiset(Filter(CollectIn(c, s, plan.(source := RawEvents)), Matching(plan)))[e]
         == if Matches(plan, e) then Raw(s.disk)[e] + multiset(s.mem.memtable)[e] else 0
  {
    hide Filter, MatchesFilter, AllEvents, PrunedScan, MetaMatchesFile;
    var m, lo, hi := s.disk.manifest, plan.fromMs, plan.toMs;
    SourceIrrelevant(c, s, plan, []);
    var scan := PrunedScan(m.rawSegments, s.disk.segs, c.hashing, plan, lo, hi, Buckets(m));
    var full := Filter(RawSeq(s.disk), InRange(lo, hi));
    var tail := Filter(s.mem.memtable, InRange(lo, hi));
    FilterAppend(scan, tail, Matching(plan));
    PrunedScanIsFullScan(m.rawSegments, s.disk.segs, c.hashing, plan, lo, hi, Buckets(m));
    FilterCount(full, Matching(plan), e);
    FilterCount(RawSeq(s.disk), InRange(lo, hi), e);
    FilterCount(tail, Matching(plan), e);
    FilterCount(s.mem.memtable, InRange(lo, hi), e);
  }

  /** A raw answer depends only on the multiset of listed events and on the memtable. */
  lemma RawAnswerDependsOnEvents(c: Config, s: State, s': State, plan: QueryPlan)
    requires s.Up? && s'.Up? && RawListed(c, s.disk) && RawListed(c, s'.disk)
    requires Raw(s'.disk) == Raw(s.disk) && s'.mem.memtable == s.mem.memtable
    requires Fits(Raw(s.disk) + multiset(s.mem.memtable)) && IsI64(plan.fromMs) && IsI64(plan.toMs)
    ensures SameAnswer(AnswerTo(c, s, plan.(source := RawEvents)), AnswerTo(c, s', plan.(source := RawEvents)))
  {
    hide Raw, Filter, Matches, RawListed, Collect, GroupAll, Sum;
    var p := plan.(source := RawEvents);
    var a, b := Filter(CollectIn(c, s, p), Matching(plan)), Filter(CollectIn(c, s', p), Matching(plan));
    forall e ensures multiset(a)[e] == multiset(b)[e] {
      MatchingMultiset(c, s, plan, e);
      MatchingMultiset(c, s', plan, e);
    }
    assert multiset(a) == multiset(b);
    AggregateIgnoresSource(plan, RawEvents, CollectIn(c, s, p));
    AggregateIgnoresSource(plan, RawEvents, CollectIn(c, s', p));
    assert Fits(multiset(a)) by {
      RawCollectionFits(c, s, plan);
      FitsFilter(CollectIn(c, s, p), Matching(plan));
    }
    GroupsPermuted(plan.groupBy, a, b);
  }

  lemma RawCollectionFits(c: Config, s: State, plan: QueryPlan)
    requires s.Up? && Fits(Raw(s.disk) + multiset(s.mem.memtable))
    ensures Fits(multiset(CollectIn(c, s, plan.(source := RawEvents))))
  {
    hide Raw, Sum, CollectRaw, AbsFrom, AbsQuantity;
    SourceIrrelevant(c, s, plan, []);
    RawFits(c, s, plan, plan.fromMs);
    AbsFromBound(Raw(s.disk), plan.fromMs);
    SumUnion(Raw(s.disk), multiset(s.mem.memtable), AbsQuantity());
  }

  lemma GroupsPermuted(groupBy: seq<string>, a: seq<UsageEvent>, b: seq<UsageEvent>)
    requires multiset(a) == multiset(b) && Fits(multiset(a))
    ensures GroupAll(groupBy, a) == GroupAll(groupBy, b)
  {
    hide GroupAll, GroupKey, Fits, Sum;
    var x, y := GroupAll(groupBy, a), GroupAll(groupBy, b);
    forall e ensures e in a <==> e in b {
      assert e in a <==> e in multiset(a);
      assert e in b <==> e in multiset(b);
    }
    forall k ensures (k in x <==> k in y) && (k in x ==> x[k] == y[k]) {
      GroupAllExact(groupBy, a, k);
      GroupAllExact(groupBy, b, k);
    }
  }

  /** Compacting inputs with unique ids changes no raw answer, for any plan. */
  lemma CompactionKeepsAnswers(
    c: Config, s: State, s': State, now: int, ids: seq<SegmentId>, bucket: nat, outputId: SegmentId, plan: QueryPlan)
    requires CompactStep(c, s, s', now, ids, bucket, outputId) && CatalogOk(c, s.disk)
    requires UniqueIds(ReadSegments(s.disk.segs, ids))
    requires Fits(Raw(s.disk) + multiset(s.mem.memtable)) && IsI64(plan.fromMs) && IsI64(plan.toMs)
    ensures SameAnswer(AnswerTo(c, s, plan.(source := RawEvents)), AnswerTo(c, s', plan.(source := RawEvents)))
  {
    hide Raw, Fits, RawListed, FilesBelow, ReplacedUnlisted, ReadSegments, SortAndDedupe, CompactionPlan;
    CompactConserves(c, s, s', now, ids, bucket, outputId);
    CompactKeepsCatalog(c, s, s', now, ids, bucket, outputId);
    RawAnswerDependsOnEvents(c, s, s', plan);
  }

  // Grace.

  ghost predicate Lists(m: Manifest, id: SegmentId)
  {
    exists s :: s in m.rawSegments && s.segmentId == id
  }

  /** Whoever saw `id` listed at time `since` can still open it, or the grace period is over. */
  ghost predicate Openable(c: Config, s: State, id: SegmentId, since: int)
  {
    && since <= s.clock && id < s.disk.nextId
    && (forall r :: r in s.disk.manifest.compactedReplacements && id in r.oldSegments ==> since <= r.committedAtMs)
    && (id in s.disk.segs || since + c.graceMs <= s.clock)
  }

  lemma ListedIsOpenable(c: Config, s: State, id: SegmentId)
    requires CatalogOk(c, s.disk) && Lists(s.disk.manifest, id)
    ensures Openable(c, s, id, s.clock) && id in s.disk.segs
  {
    var x :| x in s.disk.manifest.rawSegments && x.segmentId == id;
    assert MetaMatchesFile(x, s.disk.segs, c.hashing, Buckets(s.disk.manifest));
    forall r | r in s.disk.manifest.compactedReplacements ensures id !in r.oldSegments {
      assert RecordUnlisted(s.disk, r);
    }
  }

  /** How the files and the replacement records move. */
  lemma StepKeepsOpenable(c: Config, s: State, step: Step, s': State, id: SegmentId, since: int)
    requires Next(c, s, step, s') && Openable(c, s, id, since)
    ensures Openable(c, s', id, since)
  {
    hide FlushedAs, FreshListing, Triaged, Accepted, SortAndDedupe, CompactionPlan, NeedsForceDrain, IsTickTarget,
      NewRollups, TickStart, Expired, Filter, RecoveredDedupe;
    if step.DeleteReplaced? {
      DeletionRespectsGrace(c, s, s', step.now, step.deleted, id, since);
    } else if step.Sweep? {
      forall r | r in s'.disk.manifest.compactedReplacements ensures r in s.disk.manifest.compactedReplacements {
        FilterMember(s.disk.manifest.compactedReplacements, Unexpired(c, step.now), r);
      }
    }
  }

  lemma DeletionRespectsGrace(c: Config, s: State, s': State, now: int, ids: set<SegmentId>, id: SegmentId, since: int)
    requires DeleteReplacedStep(c, s, s', now, ids) && Openable(c, s, id, since) && s.clock <= s'.clock
    ensures Openable(c, s', id, since)
  {
    if id in ids {
      var r :| r in s.disk.manifest.compactedReplacements && id in r.oldSegments && Expired(c, r, now);
    }
  }

  lemma RunStep(c: Config, states: seq<State>, steps: seq<Step>, n: nat)
    requires Run(c, states, steps) && n < |steps|
    ensures Next(c, states[n], steps[n], states[n + 1])
  {
  }

  lemma {:induction false} RunKeepsCatalog(c: Config, states: seq<State>, steps: seq<Step>, n: nat)
    requires Run(c, states, steps) && CatalogOk(c, states[0].disk) && n <= |steps|
    ensures CatalogOk(c, states[n].disk)
    decreases n
  {
    hide Run, Next, CatalogOk;
    assert |states| == |steps| + 1 by { RunLength(c, states, steps); }
    if n > 0 {
      RunKeepsCatalog(c, states, steps, n - 1);
      RunStep(c, states, steps, n - 1);
      StepKeepsCatalog(c, states[n - 1], steps[n - 1], states[n]);
    }
  }

  lemma {:induction false} RunKeepsOpenable(c: Config, states: seq<State>, steps: seq<Step>, i: nat, j: nat,
                                            id: SegmentId)
    requires Run(c, states, steps) && i <= j <= |steps| && Openable(c, states[i], id, states[i].clock)
    ensures Openable(c, states[j], id, states[i].clock)
    decreases j - i
  {
    hide Run, Next, Openable;
    assert |states| == |steps| + 1 by { RunLength(c, states, steps); }
    if i < j {
      RunKeepsOpenable(c, states, steps, i, j - 1, id);
      RunStep(c, states, steps, j - 1);
      StepKeepsOpenable(c, states[j - 1], steps[j - 1], states[j], id, states[i].clock);
    }
  }

  /** Reader grace, over any run whatsoever: a listed segment has its file, and a segment listed in
      the manifest at one moment can still be opened at any later moment within the grace period. */
  lemma ReadersAreSafe(c: Config, states: seq<State>, steps: seq<Step>, i: nat, j: nat, id: SegmentId)
    requires Run(c, states, steps) && CatalogOk(c, states[0].disk) && i <= j <= |steps|
    requires Lists(states[i].disk.manifest, id) && states[j].clock < states[i].clock + c.graceMs
    ensures id in states[i].disk.segs && id in states[j].disk.segs
  {
    hide Run, CatalogOk, Lists;
    assert |states| == |steps| + 1 by { RunLength(c, states, steps); }
    RunKeepsCatalog(c, states, steps, i);
    ListedIsOpenable(c, states[i], id);
    RunKeepsOpenable(c, states, steps, i, j, id);
  }

  /** The replacement was committed, and that at least the grace period ago. */
  predicate PastGrace(c: Config, r: ReplacementRecord, now: int)
  {
    r.committedAtMs != 0 && r.committedAtMs + c.graceMs <= now
  }

  /** A sweep drops exactly the records past their grace period, and before it only files of such records go. */
  lemma SweepIsAtGrace(c: Config, s: State, mid: State, s': State, now: int, deleted: set<SegmentId>,
                       r: ReplacementRecord)
    requires DeleteReplacedStep(c, s, mid, now, deleted) && SweepStep(c, mid, s', now)
    ensures r in s'.disk.manifest.compactedReplacements
       <==> r in s.disk.manifest.compactedReplacements && !PastGrace(c, r, now)
    ensures forall id :: id in deleted ==>
              exists x :: x in s.disk.manifest.compactedReplacements && id in x.oldSegments && PastGrace(c, x, now)
  {
    hide Filter;
    FilterMember(s.disk.manifest.compactedReplacements, Unexpired(c, now), r);
    forall id | id in deleted
      ensures exists x :: x in s.disk.manifest.compactedReplacements && id in x.oldSegments && PastGrace(c, x, now)
    {
      var x :| x in s.disk.manifest.compactedReplacements && id in x.oldSegments && Expired(c, x, now);
      assert PastGrace(c, x, now);
    }
  }

  /** The inputs of a compaction are past their grace period exactly from its time plus that period on. */
  lemma InputsAwaitGrace(c: Config, s: State, s': State, now: int, ids: seq<SegmentId>, bucket: nat,
                         outputId: SegmentId, id: SegmentId, later: int)
    requires CompactStep(c, s, s', now, ids, bucket, outputId) && CatalogOk(c, s.disk) && id in ids
    ensures (exists r :: r in s'.disk.manifest.compactedReplacements && id in r.oldSegments && PastGrace(c, r, later))
       <==> now != 0 && now + c.graceMs <= later
  {
    hide Filter, SortAndDedupe, ReadSegments, Grows, RawListed, FilesBelow;
    var records := s.disk.manifest.compactedReplacements;
    assert ListedIn(s.disk.manifest, id, bucket);
    forall r | r in records ensures id !in r.oldSegments {
      assert RecordUnlisted(s.disk, r);
    }
    var mine := ReplacementRecord(ids, [outputId], now);
    assert s'.disk.manifest.compactedReplacements == records + [mine];
    assert mine in records + [mine];
  }

  /** Dropping the records whose (time, inputs) key is among the expired ones drops exactly the
      expired records. */
  lemma SweepKeysAreExact(c: Config, now: int, records: seq<ReplacementRecord>, r: ReplacementRecord)
    requires r in records
    ensures (exists x :: x in records && Expired(c, x, now) && x.committedAtMs == r.committedAtMs
               && x.oldSegments == r.oldSegments)
       <==> Expired(c, r, now)
  {
  }
}
