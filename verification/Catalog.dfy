/** What the manifest lists is on disk and described truthfully, and how each step changes the raw
    events it lists. */
module Catalog {
  import opened Model
  import opened Sums
  import opened Manifests
  import opened Sorting
  import opened Segments
  import opened Query
  import opened Engine

  ghost predicate Unlisted(m: Manifest, id: SegmentId)
  {
    forall s :: s in m.rawSegments ==> s.segmentId != id
  }

  ghost predicate RawListed(c: Config, d: Disk)
  {
    && DistinctSegments(d.manifest.rawSegments)
    && forall s :: s in d.manifest.rawSegments ==>
         s.segmentId < d.nextId && MetaMatchesFile(s, d.segs, c.hashing, Buckets(d.manifest))
  }

  ghost predicate FilesBelow(d: Disk)
  {
    && (forall id :: id in d.segs ==> id < d.nextId)
    && (forall id :: id in d.rollups ==> id < d.nextId)
    && (forall s :: s in d.manifest.rollupSegments ==> s.segmentId in d.rollups)
  }

  /** Replaced segments are no longer listed. */
  ghost predicate ReplacedUnlisted(d: Disk)
  {
    forall r :: r in d.manifest.compactedReplacements ==> RecordUnlisted(d, r)
  }

  ghost predicate RecordUnlisted(d: Disk, r: ReplacementRecord)
  {
    forall id :: id in r.oldSegments ==> id < d.nextId && Unlisted(d.manifest, id)
  }

  ghost predicate CatalogOk(c: Config, d: Disk)
  {
    RawListed(c, d) && FilesBelow(d) && ReplacedUnlisted(d)
  }

  // Frames.

  lemma {:induction false} AllEventsSame(metas: seq<SegmentMeta>, segs: SegmentFiles, segs': SegmentFiles)
    requires forall s :: s in metas ==> FileEvents(segs, s.segmentId) == FileEvents(segs', s.segmentId)
    ensures AllEvents(metas, segs) == AllEvents(metas, segs')
  {
    if metas != [] {
      AllEventsSame(metas[..|metas| - 1], segs, segs');
    }
  }

  lemma {:induction false} AllEventsAppend(a: seq<SegmentMeta>, b: seq<SegmentMeta>, segs: SegmentFiles)
    ensures AllEvents(a + b, segs) == AllEvents(a, segs) + AllEvents(b, segs)
    decreases |b|
  {
    if b == [] {
      assert a + b == a;
    } else {
      AllEventsAppend(a, b[..|b| - 1], segs);
      assert (a + b)[..|a + b| - 1] == a + b[..|b| - 1];
    }
  }

  lemma GrowthKeepsListing(c: Config, d: Disk, segs': SegmentFiles, hi: SegmentId)
    requires RawListed(c, d) && Grows(d.segs, segs', d.nextId, hi)
    ensures RawListed(c, d.(segs := segs', nextId := hi))
    ensures AllEvents(d.manifest.rawSegments, segs') == RawSeq(d)
  {
    hide AllEvents, MetaOf;
    forall s | s in d.manifest.rawSegments
      ensures MetaMatchesFile(s, segs', c.hashing, Buckets(d.manifest))
           && FileEvents(d.segs, s.segmentId) == FileEvents(segs', s.segmentId)
    {
      assert MetaMatchesFile(s, d.segs, c.hashing, Buckets(d.manifest));
    }
    AllEventsSame(d.manifest.rawSegments, d.segs, segs');
  }

  // Flush.

  lemma {:induction false} FlushedCount(
    h: Hashing, buckets: nat, events: seq<UsageEvent>, metas: seq<SegmentMeta>, segs: SegmentFiles, e: UsageEvent)
    requires BucketsAscend(metas) && forall m :: m in metas ==> PieceOf(h, buckets, events, m, segs)
    ensures multiset(AllEvents(metas, segs))[e]
         == if HasBucket(metas, BucketFor(h, e.accountId, buckets)) then multiset(events)[e] else 0
    decreases |metas|
  {
    hide MetaOf, SortCanonical, Filter, BucketFor;
    if metas != [] {
      var front, last := metas[..|metas| - 1], metas[|metas| - 1];
      FlushedCount(h, buckets, events, front, segs, e);
      assert last in metas;
      SortIsPermutation(Filter(events, InBucket(h, buckets, last.bucket)));
      FilterCount(events, InBucket(h, buckets, last.bucket), e);
      LastBucketIsNew(metas);
    }
  }

  lemma LastBucketIsNew(metas: seq<SegmentMeta>)
    requires BucketsAscend(metas) && metas != []
    ensures var last := metas[|metas| - 1];
            && !HasBucket(metas[..|metas| - 1], last.bucket)
            && forall b :: HasBucket(metas, b) <==> HasBucket(metas[..|metas| - 1], b) || b == last.bucket
  {
    var front, last := metas[..|metas| - 1], metas[|metas| - 1];
    assert metas == front + [last];
    assert forall m :: m in metas <==> m in front || m == last;
    forall b ensures HasBucket(metas, b) <==> HasBucket(front, b) || b == last.bucket {
      if HasBucket(front, b) {
        var m :| m in front && m.bucket == b;
        assert m in metas;
      }
    }
  }

  /** The bucket segments hold exactly the flushed events. */
  lemma FlushConserves(h: Hashing, buckets: nat, events: seq<UsageEvent>, metas: seq<SegmentMeta>, segs: SegmentFiles)
    requires FlushedAs(h, buckets, events, metas, segs)
    ensures multiset(AllEvents(metas, segs)) == multiset(events)
  {
    hide AllEvents, PieceOf;
    forall e ensures multiset(AllEvents(metas, segs))[e] == multiset(events)[e] {
      FlushedCount(h, buckets, events, metas, segs, e);
      if multiset(events)[e] > 0 {
        assert e in events;
      }
    }
  }

  lemma FlushKeepsCatalog(c: Config, s: State, s': State, metas: seq<SegmentMeta>)
    requires CommitFlushStep(c, s, s', metas) && CatalogOk(c, s.disk)
    ensures CatalogOk(c, s'.disk)
    ensures Raw(s'.disk) == Raw(s.disk) + multiset(s.mem.inflight[0].events)
  {
    hide AllEvents, MetaMatchesFile, PieceOf;
    var m, m' := s.disk.manifest, s'.disk.manifest;
    GrowthKeepsListing(c, s.disk, s'.disk.segs, s'.disk.nextId);
    AllEventsAppend(m.rawSegments, metas, s'.disk.segs);
    FlushConserves(c.hashing, Buckets(m), s.mem.inflight[0].events, metas, s'.disk.segs);
    forall x | x in metas ensures MetaMatchesFile(x, s'.disk.segs, c.hashing, Buckets(m)) {
      PieceIsDescribed(c.hashing, Buckets(m), s.mem.inflight[0].events, x, s'.disk.segs);
    }
    assert RawListed(c, s'.disk);
    assert FilesBelow(s'.disk);
    assert ReplacedUnlisted(s'.disk) by {
      forall r | r in m'.compactedReplacements ensures RecordUnlisted(s'.disk, r) {
        assert RecordUnlisted(s.disk, r);
        forall id | id in r.oldSegments ensures Unlisted(m', id) {
          assert Unlisted(m, id);
          forall x | x in m'.rawSegments ensures x.segmentId != id {
            assert x in m.rawSegments || x in metas;
          }
        }
      }
    }
  }

  lemma PieceIsDescribed(h: Hashing, buckets: nat, events: seq<UsageEvent>, m: SegmentMeta, segs: SegmentFiles)
    requires PieceOf(h, buckets, events, m, segs)
    ensures MetaMatchesFile(m, segs, h, buckets)
  {
    hide MetaOf, SortCanonical, BucketFor;
    var part := Filter(events, InBucket(h, buckets, m.bucket));
    SortIsPermutation(part);
    forall e | e in segs[m.segmentId] ensures BucketFor(h, e.accountId, buckets) == m.bucket {
      assert e in multiset(part);
      FilterMember(events, InBucket(h, buckets, m.bucket), e);
    }
  }

  // Compaction.

  function IdsOf(metas: seq<SegmentMeta>): seq<SegmentId>
  {
    if metas == [] then [] else IdsOf(metas[..|metas| - 1]) + [metas[|metas| - 1].segmentId]
  }

  lemma {:induction false} AllEventsByIds(metas: seq<SegmentMeta>, segs: SegmentFiles)
    ensures AllEvents(metas, segs) == ReadSegments(segs, IdsOf(metas))
  {
    if metas != [] {
      AllEventsByIds(metas[..|metas| - 1], segs);
      assert IdsOf(metas)[..|IdsOf(metas)| - 1] == IdsOf(metas[..|metas| - 1]);
    }
  }

  function CountIn(segs: SegmentFiles, e: UsageEvent): SegmentId -> int
  {
    (id: SegmentId) => multiset(FileEvents(segs, id))[e]
  }

  lemma {:induction false} ReadCount(segs: SegmentFiles, ids: seq<SegmentId>, e: UsageEvent)
    ensures multiset(ReadSegments(segs, ids))[e] == Sum(multiset(ids), CountIn(segs, e))
    decreases |ids|
  {
    if ids != [] {
      hide Sum, FileEvents;
      var front, last := ids[..|ids| - 1], ids[|ids| - 1];
      assert ids == front + [last];
      ReadCount(segs, front, e);
      SumSnoc(front, CountIn(segs, e), last);
    }
  }

  lemma IdsOfSnoc(metas: seq<SegmentMeta>, x: SegmentMeta)
    ensures IdsOf(metas + [x]) == IdsOf(metas) + [x.segmentId]
  {
    assert (metas + [x])[..|metas|] == metas;
  }

  lemma {:induction false} RemainingIds(metas: seq<SegmentMeta>, ids: seq<SegmentId>, id: SegmentId)
    ensures multiset(IdsOf(Filter(metas, NotIn(ids))))[id] == if id in ids then 0 else multiset(IdsOf(metas))[id]
    decreases |metas|
  {
    if metas != [] {
      hide IdsOf, Filter;
      var front, last := metas[..|metas| - 1], metas[|metas| - 1];
      assert metas == front + [last];
      RemainingIds(front, ids, id);
      FilterSnoc(front, NotIn(ids), last);
      IdsOfSnoc(front, last);
      IdsOfSnoc(Filter(front, NotIn(ids)), last);
      assert Filter(front, NotIn(ids)) + [] == Filter(front, NotIn(ids));
    }
  }

  lemma {:induction false} OnceIfDistinct(ids: seq<SegmentId>, id: SegmentId)
    requires forall i, j :: 0 <= i < j < |ids| ==> ids[i] != ids[j]
    ensures multiset(ids)[id] == if id in ids then 1 else 0
  {
    if ids != [] {
      var front, last := ids[..|ids| - 1], ids[|ids| - 1];
      OnceIfDistinct(front, id);
      assert ids == front + [last];
    }
  }

  lemma {:induction false} IdsOfListed(metas: seq<SegmentMeta>)
    ensures |IdsOf(metas)| == |metas|
    ensures forall i :: 0 <= i < |metas| ==> IdsOf(metas)[i] == metas[i].segmentId
  {
    if metas != [] {
      IdsOfListed(metas[..|metas| - 1]);
    }
  }

  /** The listed ids are those that remain plus the inputs. */
  lemma InputsAndRest(m: Manifest, ids: seq<SegmentId>, bucket: nat)
    requires DistinctSegments(m.rawSegments) && CompactionPlan(m, ids, bucket)
    ensures multiset(IdsOf(m.rawSegments)) == multiset(IdsOf(Filter(m.rawSegments, NotIn(ids)))) + multiset(ids)
  {
    var all := IdsOf(m.rawSegments);
    IdsOfListed(m.rawSegments);
    hide IdsOf, Filter;
    forall id ensures multiset(all)[id] == multiset(IdsOf(Filter(m.rawSegments, NotIn(ids))))[id] + multiset(ids)[id] {
      RemainingIds(m.rawSegments, ids, id);
      OnceIfDistinct(ids, id);
      OnceIfDistinct(all, id);
      if id in ids {
        var s :| s in m.rawSegments && s.segmentId == id;
        var i :| 0 <= i < |m.rawSegments| && m.rawSegments[i] == s;
        assert all[i] == id;
      }
    }
  }

  /** The listed events split into those of the inputs and those of the rest. */
  lemma CompactionSplits(d: Disk, ids: seq<SegmentId>, bucket: nat)
    requires DistinctSegments(d.manifest.rawSegments) && CompactionPlan(d.manifest, ids, bucket)
    ensures Raw(d) == multiset(AllEvents(Filter(d.manifest.rawSegments, NotIn(ids)), d.segs))
                      + multiset(ReadSegments(d.segs, ids))
  {
    hide Sum, AllEvents, ReadSegments, IdsOf, Filter, CompactionPlan;
    var metas := d.manifest.rawSegments;
    var rest := Filter(metas, NotIn(ids));
    InputsAndRest(d.manifest, ids, bucket);
    AllEventsByIds(metas, d.segs);
    AllEventsByIds(rest, d.segs);
    forall e ensures Raw(d)[e] == multiset(AllEvents(rest, d.segs))[e] + multiset(ReadSegments(d.segs, ids))[e] {
      ReadCount(d.segs, IdsOf(metas), e);
      ReadCount(d.segs, IdsOf(rest), e);
      ReadCount(d.segs, ids, e);
      SumUnion(multiset(IdsOf(rest)), multiset(ids), CountIn(d.segs, e));
    }
  }

  lemma CompactChangesRaw(
    c: Config, s: State, s': State, now: int, ids: seq<SegmentId>, bucket: nat, outputId: SegmentId)
    requires CompactStep(c, s, s', now, ids, bucket, outputId) && CatalogOk(c, s.disk)
    ensures var inputs := ReadSegments(s.disk.segs, ids);
            && multiset(inputs) <= Raw(s.disk)
            && Raw(s'.disk) == Raw(s.disk) - multiset(inputs) + multiset(SortAndDedupe(inputs))
  {
    hide AllEvents, ReadSegments, MetaOf, SortAndDedupe, CompactionPlan, MetaMatchesFile;
    var rest := Filter(s.disk.manifest.rawSegments, NotIn(ids));
    CompactionSplits(s.disk, ids, bucket);
    var output := SortAndDedupe(ReadSegments(s.disk.segs, ids));
    var meta := MetaOf(outputId, output, bucket);
    RestUnchanged(c, s.disk, s'.disk.segs, s'.disk.nextId, ids);
    OneSegment(meta, s'.disk.segs);
    AllEventsAppend(rest, [meta], s'.disk.segs);
    assert meta.segmentId == outputId by { MetaId(outputId, output, bucket); }
  }

  lemma MetaId(id: SegmentId, batch: seq<UsageEvent>, bucket: nat)
    ensures MetaOf(id, batch, bucket).segmentId == id && MetaOf(id, batch, bucket).bucket == bucket
  {
  }

  lemma OneSegment(meta: SegmentMeta, segs: SegmentFiles)
    ensures AllEvents([meta], segs) == FileEvents(segs, meta.segmentId)
  {
    assert [meta][..0] == [];
  }

  lemma RestUnchanged(c: Config, d: Disk, segs': SegmentFiles, hi: SegmentId, ids: seq<SegmentId>)
    requires RawListed(c, d) && Grows(d.segs, segs', d.nextId, hi)
    ensures var rest := Filter(d.manifest.rawSegments, NotIn(ids));
            && AllEvents(rest, segs') == AllEvents(rest, d.segs)
            && DistinctSegments(rest)
            && forall x :: x in rest ==>
                 x in d.manifest.rawSegments && x.segmentId !in ids
                 && MetaMatchesFile(x, segs', c.hashing, Buckets(d.manifest))
  {
    hide AllEvents, MetaOf;
    var rest := Filter(d.manifest.rawSegments, NotIn(ids));
    GrowthKeepsListing(c, d, segs', hi);
    FilterDistinct(d.manifest.rawSegments, NotIn(ids));
    forall x | x in rest
      ensures x in d.manifest.rawSegments && x.segmentId !in ids
           && FileEvents(d.segs, x.segmentId) == FileEvents(segs', x.segmentId)
    {
      FilterMember(d.manifest.rawSegments, NotIn(ids), x);
      assert MetaMatchesFile(x, d.segs, c.hashing, Buckets(d.manifest));
    }
    AllEventsSame(rest, d.segs, segs');
  }

  lemma {:induction false} FilterDistinct(metas: seq<SegmentMeta>, p: SegmentMeta -> bool)
    requires DistinctSegments(metas)
    ensures DistinctSegments(Filter(metas, p))
  {
    if metas != [] {
      var front, last := metas[..|metas| - 1], metas[|metas| - 1];
      FilterDistinct(front, p);
      var kept := Filter(front, p);
      forall i | 0 <= i < |kept| ensures kept[i].segmentId != last.segmentId {
        FilterMember(front, p, kept[i]);
        var k :| 0 <= k < |front| && front[k] == kept[i];
        assert metas[k] == front[k];
      }
    }
  }

  /** With unique ids among the inputs, the swap preserves the raw events. */
  lemma CompactConserves(
    c: Config, s: State, s': State, now: int, ids: seq<SegmentId>, bucket: nat, outputId: SegmentId)
    requires CompactStep(c, s, s', now, ids, bucket, outputId) && CatalogOk(c, s.disk)
    requires UniqueIds(ReadSegments(s.disk.segs, ids))
    ensures Raw(s'.disk) == Raw(s.disk)
  {
    hide CompactStep, CatalogOk, ReadSegments, SortAndDedupe, Raw;
    CompactChangesRaw(c, s, s', now, ids, bucket, outputId);
    SortAndDedupePreserves(ReadSegments(s.disk.segs, ids));
  }

  /** All inputs of a job lie in its bucket, so its output does too. */
  lemma {:induction false} InputsInBucket(c: Config, d: Disk, ids: seq<SegmentId>, bucket: nat, e: UsageEvent)
    requires RawListed(c, d) && e in ReadSegments(d.segs, ids)
    requires forall id :: id in ids ==> ListedIn(d.manifest, id, bucket)
    ensures BucketFor(c.hashing, e.accountId, Buckets(d.manifest)) == bucket
    decreases |ids|
  {
    hide MetaOf, BucketFor;
    var front, last := ids[..|ids| - 1], ids[|ids| - 1];
    if e in ReadSegments(d.segs, front) {
      InputsInBucket(c, d, front, bucket, e);
    } else {
      assert last in ids;
      var x :| x in d.manifest.rawSegments && x.segmentId == last && x.bucket == bucket;
      assert MetaMatchesFile(x, d.segs, c.hashing, Buckets(d.manifest));
    }
  }

  lemma OutputIsDescribed(c: Config, s: State, s': State, now: int, ids: seq<SegmentId>, bucket: nat,
                          outputId: SegmentId)
    requires CompactStep(c, s, s', now, ids, bucket, outputId) && RawListed(c, s.disk)
    ensures var meta := MetaOf(outputId, SortAndDedupe(ReadSegments(s.disk.segs, ids)), bucket);
            MetaMatchesFile(meta, s'.disk.segs, c.hashing, Buckets(s.disk.manifest))
  {
    hide ReadSegments, SortCanonical, KeepFirst, BucketFor, MinTs, MaxTs, MinAccount, MaxAccount, SatTotal;
    var inputs := ReadSegments(s.disk.segs, ids);
    var output := SortAndDedupe(inputs);
    forall e | e in output ensures BucketFor(c.hashing, e.accountId, Buckets(s.disk.manifest)) == bucket {
      SortIsSorted(inputs);
      KeepFirstSorted(SortCanonical(inputs));
      SortIsPermutation(inputs);
      assert e in multiset(SortCanonical(inputs));
      assert e in inputs;
      InputsInBucket(c, s.disk, ids, bucket, e);
    }
  }

  lemma CompactKeepsCatalog(
    c: Config, s: State, s': State, now: int, ids: seq<SegmentId>, bucket: nat, outputId: SegmentId)
    requires CompactStep(c, s, s', now, ids, bucket, outputId) && CatalogOk(c, s.disk)
    ensures CatalogOk(c, s'.disk)
  {
    hide ReadSegments, MetaOf, SortAndDedupe, MetaMatchesFile, AllEvents, Filter;
    var d, d' := s.disk, s'.disk;
    var m := d.manifest;
    var rest := Filter(m.rawSegments, NotIn(ids));
    var output := SortAndDedupe(ReadSegments(d.segs, ids));
    var meta := MetaOf(outputId, output, bucket);
    RestUnchanged(c, d, d'.segs, d'.nextId, ids);
    OutputIsDescribed(c, s, s', now, ids, bucket, outputId);
    MetaId(outputId, output, bucket);
    assert RawListed(c, d') by {
      forall x | x in d'.manifest.rawSegments
        ensures x.segmentId < d'.nextId && MetaMatchesFile(x, d'.segs, c.hashing, Buckets(m))
      {
        assert x in rest || x == meta;
      }
    }
    assert FilesBelow(d');
    assert ReplacedUnlisted(d') by {
      forall r | r in d'.manifest.compactedReplacements ensures RecordUnlisted(d', r) {
        if r in m.compactedReplacements {
          assert RecordUnlisted(d, r);
        }
        forall id | id in r.oldSegments ensures id < d'.nextId && Unlisted(d'.manifest, id) {
          if r in m.compactedReplacements {
            assert Unlisted(m, id);
          } else {
            assert id in ids && ListedIn(m, id, bucket);
          }
          forall x | x in d'.manifest.rawSegments ensures x.segmentId != id {
            assert x in rest || x == meta;
          }
        }
      }
    }
  }

  // The other steps.

  lemma OrphansKeepCatalog(c: Config, s: State, s': State)
    requires OrphanStep(s, s') && CatalogOk(c, s.disk)
    ensures CatalogOk(c, s'.disk) && Raw(s'.disk) == Raw(s.disk)
  {
    hide AllEvents, MetaMatchesFile;
    GrowthKeepsListing(c, s.disk, s'.disk.segs, s'.disk.nextId);
    ReplacedStaysUnlisted(s.disk, s'.disk);
  }

  lemma ReplacedStaysUnlisted(d: Disk, d': Disk)
    requires ReplacedUnlisted(d) && d.nextId <= d'.nextId
    requires d'.manifest.rawSegments == d.manifest.rawSegments
    requires forall r :: r in d'.manifest.compactedReplacements ==> r in d.manifest.compactedReplacements
    ensures ReplacedUnlisted(d')
  {
    forall r | r in d'.manifest.compactedReplacements ensures RecordUnlisted(d', r) {
      assert RecordUnlisted(d, r);
      forall id | id in r.oldSegments ensures Unlisted(d'.manifest, id) {
        assert Unlisted(d.manifest, id);
      }
    }
  }

  lemma TickKeepsCatalog(c: Config, s: State, s': State, now: int, target: int, metas: seq<SegmentMeta>)
    requires TickCommitStep(c, s, s', now, target, metas) && CatalogOk(c, s.disk)
    ensures CatalogOk(c, s'.disk) && Raw(s'.disk) == Raw(s.disk)
  {
    hide AllEvents, MetaMatchesFile, IsTickTarget, TickStart, RollsUp, RollupMetaOf;
    ReplacedStaysUnlisted(s.disk, s'.disk);
    forall x | x in s'.disk.manifest.rollupSegments ensures x.segmentId in s'.disk.rollups {
      assert x in s.disk.manifest.rollupSegments || x in metas;
    }
    assert FilesBelow(s'.disk);
  }

  lemma RebuildKeepsCatalog(c: Config, s: State, s': State, fromMs: int, toMs: int)
    requires RebuildStep(s, s', fromMs, toMs) && CatalogOk(c, s.disk)
    ensures CatalogOk(c, s'.disk) && Raw(s'.disk) == Raw(s.disk)
  {
    hide AllEvents, MetaMatchesFile, Filter;
    ReplacedStaysUnlisted(s.disk, s'.disk);
    forall x | x in s'.disk.manifest.rollupSegments ensures x in s.disk.manifest.rollupSegments {
      FilterMember(s.disk.manifest.rollupSegments, KeptByRebuild(fromMs, toMs), x);
    }
  }

  lemma SweepKeepsCatalog(c: Config, s: State, s': State, now: int)
    requires SweepStep(c, s, s', now) && CatalogOk(c, s.disk)
    ensures CatalogOk(c, s'.disk) && Raw(s'.disk) == Raw(s.disk)
  {
    hide AllEvents, MetaMatchesFile, Filter;
    forall r | r in s'.disk.manifest.compactedReplacements ensures r in s.disk.manifest.compactedReplacements {
      FilterMember(s.disk.manifest.compactedReplacements, Unexpired(c, now), r);
    }
    ReplacedStaysUnlisted(s.disk, s'.disk);
  }

  lemma DeletionKeepsCatalog(c: Config, s: State, s': State, now: int, ids: set<SegmentId>)
    requires DeleteReplacedStep(c, s, s', now, ids) && CatalogOk(c, s.disk)
    ensures CatalogOk(c, s'.disk) && Raw(s'.disk) == Raw(s.disk)
  {
    hide AllEvents, MetaOf;
    var m := s.disk.manifest;
    forall id | id in ids ensures Unlisted(m, id) {
      var r :| r in m.compactedReplacements && id in r.oldSegments && Expired(c, r, now);
      assert RecordUnlisted(s.disk, r);
    }
    forall x | x in m.rawSegments
      ensures x.segmentId !in ids && MetaMatchesFile(x, s'.disk.segs, c.hashing, Buckets(m))
    {
      assert MetaMatchesFile(x, s.disk.segs, c.hashing, Buckets(m));
    }
    AllEventsSame(m.rawSegments, s.disk.segs, s'.disk.segs);
    ReplacedStaysUnlisted(s.disk, s'.disk);
  }

  /** Steps that leave every file list alone. */
  lemma UnrelatedKeepsCatalog(c: Config, d: Disk, d': Disk)
    requires CatalogOk(c, d)
    requires d' == d.(wal := d'.wal, manifest := d.manifest.(closedPeriods := d'.manifest.closedPeriods))
    ensures CatalogOk(c, d') && Raw(d') == Raw(d)
  {
    hide AllEvents, MetaMatchesFile;
    ReplacedStaysUnlisted(d, d');
  }
}
