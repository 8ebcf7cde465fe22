/** What a whole compaction pass leaves listed. */
module CompactionPass {
  import opened Sums
  import opened Manifests
  import opened Sorting
  import opened Query
  import opened Segments
  import opened Engine
  import opened Catalog
  import opened Compaction
  import opened App

  /** The number of listed segments of a bucket. */
  ghost function BucketSize(s: State, b: nat): nat
  {
    |Filter(s.disk.manifest.rawSegments, OfBucket(b))|
  }

  /** All segments of a bucket, as one job. */
  ghost function WholeBucket(s: State, b: nat): Plan
  {
    Plan(b, IdsOf(Filter(s.disk.manifest.rawSegments, OfBucket(b))))
  }

  /** The steps of a pass over `plans`: sweep, then the jobs in order. */
  ghost predicate IsPass(c: Config, states: seq<State>, steps: seq<Step>, plans: seq<Plan>, now: int)
  {
    && Run(c, states, steps) && |states| == |steps| + 1 && |steps| == 2 + |plans|
    && states[0].Up? && CatalogOk(c, states[0].disk)
    && steps[0].DeleteReplaced? && steps[1] == Sweep(now)
    && PlansFor(states[0].disk.manifest.rawSegments, c.maxSmallSegments, plans)
    && forall i :: 0 <= i < |plans| ==> IsJob(states[0].disk.segs, plans[i], now, steps[2 + i])
  }

  ghost predicate DoneBy(segs: SegmentFiles, plans: seq<Plan>, i: nat, b: nat)
    requires i <= |plans|
  {
    exists k :: 0 <= k < i && plans[k].bucket == b && HoldsEvent(segs, plans[k])
  }

  /** Until its job has run, a bucket is as it was; from then on it is a single segment. */
  ghost predicate BucketIs(s0: State, plans: seq<Plan>, i: nat, s: State, b: nat)
    requires i <= |plans|
  {
    if DoneBy(s0.disk.segs, plans, i, b) then BucketSize(s, b) == 1
    else Filter(s.disk.manifest.rawSegments, OfBucket(b)) == Filter(s0.disk.manifest.rawSegments, OfBucket(b))
  }

  lemma SweepKeepsListing(c: Config, s: State, step: Step, s': State)
    requires Next(c, s, step, s') && (step.DeleteReplaced? || step.Sweep? || step.Orphans?)
    ensures s'.disk.manifest.rawSegments == s.disk.manifest.rawSegments
  {
    hide Filter, Grows;
  }

  /** A compaction leaves the other buckets alone, and of its own the other segments and one more. */
  lemma CompactInBucket(c: Config, s: State, step: Step, s': State, b: nat)
    requires Next(c, s, step, s') && step.Compact? && CatalogOk(c, s.disk)
    ensures b != step.bucket ==>
              Filter(s'.disk.manifest.rawSegments, OfBucket(b)) == Filter(s.disk.manifest.rawSegments, OfBucket(b))
    ensures b == step.bucket && step.inputs == WholeBucket(s, b).segmentIds ==> BucketSize(s', b) == 1
  {
    hide Filter, IdsOf, SortAndDedupe, ReadSegments, Grows, MetaMatchesFile, FilesBelow, ReplacedUnlisted, MetaOf;
    var metas, ids := s.disk.manifest.rawSegments, step.inputs;
    var rest, metas' := Filter(metas, NotIn(ids)), s'.disk.manifest.rawSegments;
    var meta := metas'[|rest|];
    assert metas' == rest + [meta] && meta.bucket == step.bucket by { OutputBucket(c, s, step, s'); }
    if b != step.bucket {
      forall x | x in metas && x.segmentId in ids ensures x.bucket == step.bucket {
        InputInBucket(c, s, step, s', x);
      }
      OtherBucketStays(metas, Plan(step.bucket, ids), meta, b);
    } else if ids == WholeBucket(s, b).segmentIds {
      FilterSnoc(rest, OfBucket(b), meta);
      forall x | x in rest ensures !OfBucket(b)(x) {
        FilterMember(metas, NotIn(ids), x);
        if x.bucket == b {
          FilterMember(metas, OfBucket(b), x);
          ListedInIds(Filter(metas, OfBucket(b)), x);
        }
      }
      FilterNone(rest, OfBucket(b));
    }
  }

  lemma ListedInIds(metas: seq<SegmentMeta>, x: SegmentMeta)
    requires x in metas
    ensures x.segmentId in IdsOf(metas)
  {
    IdsOfListed(metas);
  }

  lemma OutputBucket(c: Config, s: State, step: Step, s': State)
    requires Next(c, s, step, s') && step.Compact?
    ensures s'.disk.manifest.rawSegments != []
    ensures var rest := Filter(s.disk.manifest.rawSegments, NotIn(step.inputs));
            exists meta :: s'.disk.manifest.rawSegments == rest + [meta] && meta.bucket == step.bucket
  {
    hide Filter, SortAndDedupe, ReadSegments, Grows, CompactionPlan;
  }

  lemma InputInBucket(c: Config, s: State, step: Step, s': State, x: SegmentMeta)
    requires Next(c, s, step, s') && step.Compact? && CatalogOk(c, s.disk)
    requires x in s.disk.manifest.rawSegments && x.segmentId in step.inputs
    ensures x.bucket == step.bucket
  {
    hide Filter, SortAndDedupe, ReadSegments, Grows, MetaMatchesFile, FilesBelow, ReplacedUnlisted;
    var metas := s.disk.manifest.rawSegments;
    assert ListedIn(s.disk.manifest, x.segmentId, step.bucket);
    var y :| y in metas && y.segmentId == x.segmentId && y.bucket == step.bucket;
    SameIdSameMeta(metas, x, y);
  }

  lemma {:induction false} BucketsAfter(c: Config, states: seq<State>, steps: seq<Step>, plans: seq<Plan>, now: int,
                                        i: nat, b: nat)
    requires IsPass(c, states, steps, plans, now) && i <= |plans|
    ensures BucketIs(states[0], plans, i, states[2 + i], b)
    decreases i
  {
    hide Run, Next, CatalogOk, Filter, IdsOf, HoldsEvent;
    if i == 0 {
      RunStep(c, states, steps, 0);
      RunStep(c, states, steps, 1);
      SweepKeepsListing(c, states[0], steps[0], states[1]);
      SweepKeepsListing(c, states[1], steps[1], states[2]);
    } else {
      var s, step, s' := states[1 + i], steps[1 + i], states[2 + i];
      var p := plans[i - 1];
      BucketsAfter(c, states, steps, plans, now, i - 1, b);
      assert IsJob(states[0].disk.segs, plans[i - 1], now, steps[2 + (i - 1)]);
      RunStep(c, states, steps, 1 + i);
      if step.Orphans? {
        SweepKeepsListing(c, s, step, s');
      } else {
        RunKeepsCatalog(c, states, steps, 1 + i);
        CompactInBucket(c, s, step, s', b);
        NotYetDone(states[0].disk.segs, plans, i - 1);
        BucketsAfter(c, states, steps, plans, now, i - 1, p.bucket);
        PlanIsWhole(c, states[0], plans, i - 1);
      }
    }
  }

  lemma PlanIsWhole(c: Config, s: State, plans: seq<Plan>, i: nat)
    requires PlansFor(s.disk.manifest.rawSegments, c.maxSmallSegments, plans) && i < |plans|
    ensures plans[i].segmentIds == WholeBucket(s, plans[i].bucket).segmentIds
  {
    hide Filter, IdsOf;
    assert plans[i] in plans;
  }

  lemma NotYetDone(segs: SegmentFiles, plans: seq<Plan>, i: nat)
    requires i < |plans| && forall k, l :: 0 <= k < l < |plans| ==> plans[k].bucket != plans[l].bucket
    ensures !DoneBy(segs, plans, i, plans[i].bucket)
  {
    hide HoldsEvent;
  }

  /** After a pass, a bucket that had more than the configured number of segments, with an event among them, is a single
      segment; every other bucket has as many as before. */
  lemma PassShrinks(c: Config, states: seq<State>, steps: seq<Step>, plans: seq<Plan>, now: int, b: nat)
    requires IsPass(c, states, steps, plans, now)
    ensures BucketSize(states[|steps|], b)
         == if c.maxSmallSegments < BucketSize(states[0], b)
               && HoldsEvent(states[0].disk.segs, WholeBucket(states[0], b))
            then 1 else BucketSize(states[0], b)
  {
    hide Run, CatalogOk, Filter, IdsOf, HoldsEvent;
    BucketsAfter(c, states, steps, plans, now, |plans|, b);
    var segs := states[0].disk.segs;
    if c.maxSmallSegments < BucketSize(states[0], b) {
      var p :| p in plans && p.bucket == b;
      var k :| 0 <= k < |plans| && plans[k] == p;
      PlanIsWhole(c, states[0], plans, k);
      assert p == WholeBucket(states[0], b);
      forall l | 0 <= l < |plans| && plans[l].bucket == b ensures l == k { assert l < k || k < l || l == k; }
    } else {
      forall k | 0 <= k < |plans| ensures plans[k].bucket != b {
        assert plans[k] in plans;
        PlanIsWhole(c, states[0], plans, k);
        SameLength(Filter(states[0].disk.manifest.rawSegments, OfBucket(b)));
      }
    }
  }

  lemma {:induction false} SameLength(metas: seq<SegmentMeta>)
    ensures |IdsOf(metas)| == |metas|
  {
    if metas != [] { SameLength(metas[..|metas| - 1]); }
  }
}
