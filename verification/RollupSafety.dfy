/** Rollups are an exact cache of raw events below the watermark, in every reachable state. */
module RollupSafety {
  import opened Model
  import opened Sums
  import opened Wals
  import opened Memtables
  import opened Manifests
  import opened Segments
  import opened Query
  import opened Rollup
  import opened Engine
  import opened Durability
  import opened Catalog
  import opened Runs

  /** `lim` bounds the hours spoken of: `None` means all of them. */
  predicate Below(lim: Option<int>, hour: int)
  {
    lim.None? || hour < lim.value
  }

  ghost predicate SegShape(seg: SegmentMeta, rollups: RollupFiles)
  {
    && Aligned(seg.minTimestampMs) && seg.maxTimestampMs == seg.minTimestampMs + HOUR_MS - 1
    && seg.segmentId in rollups && rollups[seg.segmentId] != []
  }

  /** `records` belong to one hour and bucket, and hold one exact record per key among the raw events
      of that hour and bucket. */
  ghost predicate SlotExact(
    c: Config, m: Manifest, raw: multiset<UsageEvent>, hour: int, bucket: nat, records: seq<RollupRecord>)
  {
    && DistinctKeys(records)
    && (forall r :: r in records ==>
          && Summarizes(c.json, r, raw)
          && r.key.hourStartMs == hour && BucketFor(c.hashing, r.key.accountId, Buckets(m)) == bucket)
    && (forall e :: e in raw && HourOf(e.timestampMs) == hour && BucketOf(c, m, e) == bucket ==>
          KeyFor(c.json, e) in RecordKeys(records))
  }

  ghost predicate UniqueSlots(segs: seq<SegmentMeta>)
  {
    forall i, j :: 0 <= i < j < |segs| ==>
      segs[i].minTimestampMs != segs[j].minTimestampMs || segs[i].bucket != segs[j].bucket
  }

  /** An event that would change an hour already accounted for. */
  ghost predicate Late(c: Config, m: Manifest, e: UsageEvent)
  {
    HourOf(e.timestampMs) < m.hourlyRollupMs || RolledUp(m, HourOf(e.timestampMs), BucketOf(c, m, e))
  }

  ghost predicate SlotsExact(c: Config, d: Disk, lim: Option<int>)
  {
    forall seg :: seg in d.manifest.rollupSegments && Below(lim, seg.minTimestampMs) && seg.segmentId in d.rollups ==>
      SlotExact(c, d.manifest, Raw(d), seg.minTimestampMs, seg.bucket, d.rollups[seg.segmentId])
  }

  ghost predicate SealedCovered(c: Config, d: Disk, lim: Option<int>)
  {
    forall e ::
      e in Raw(d) && Below(lim, HourOf(e.timestampMs)) && HourOf(e.timestampMs) < d.manifest.hourlyRollupMs ==>
        RolledUp(d.manifest, HourOf(e.timestampMs), BucketOf(c, d.manifest, e))
  }

  ghost predicate PendingTimely(c: Config, d: Disk, lim: Option<int>)
  {
    forall e :: e in Pending(d) && Below(lim, HourOf(e.timestampMs)) ==> !Late(c, d.manifest, e)
  }

  ghost predicate SlotsShaped(d: Disk)
  {
    && Aligned(d.manifest.hourlyRollupMs)
    && UniqueSlots(d.manifest.rollupSegments)
    && forall seg :: seg in d.manifest.rollupSegments ==> SegShape(seg, d.rollups)
  }

  /** The watermark is hour-aligned, no hour and bucket is rolled up twice, and for the hours below
      `lim`: live rollups are exact, every raw event below the watermark is rolled up, and nothing
      still pending falls in an hour already accounted for. */
  ghost predicate RollupInv(c: Config, d: Disk, lim: Option<int>)
  {
    SlotsShaped(d) && SlotsExact(c, d, lim) && SealedCovered(c, d, lim) && PendingTimely(c, d, lim)
  }

  // Arithmetic of hours.

  lemma HourOfMonotone(a: int, b: int)
    requires a <= b
    ensures HourOf(a) <= HourOf(b)
  {
    if 0 <= a {
    } else if 0 <= b {
      HourOfBounds(b);
    } else {
      assert -b / HOUR_MS <= -a / HOUR_MS;
    }
  }

  // Frames: steps that change neither rollups nor the events.

  lemma RollupFrame(c: Config, d: Disk, d': Disk, lim: Option<int>)
    requires RollupInv(c, d, lim)
    requires d'.manifest.rollupSegments == d.manifest.rollupSegments
    requires d'.manifest.hourlyRollupMs == d.manifest.hourlyRollupMs
    requires d'.manifest.bucketCount == d.manifest.bucketCount
    requires forall id :: id in d.rollups ==> id in d'.rollups && d'.rollups[id] == d.rollups[id]
    requires Raw(d') == Raw(d)
    requires forall e :: e in Pending(d') && Below(lim, HourOf(e.timestampMs)) && e !in Pending(d) ==>
             !Late(c, d.manifest, e)
    ensures RollupInv(c, d', lim)
  {
    hide Raw, Pending, Summarizes, BucketFor, HourOf;
    forall seg | seg in d'.manifest.rollupSegments
      ensures SegShape(seg, d'.rollups)
      ensures Below(lim, seg.minTimestampMs) ==>
                SlotExact(c, d'.manifest, Raw(d'), seg.minTimestampMs, seg.bucket, d'.rollups[seg.segmentId])
    {
      assert SegShape(seg, d.rollups);
      if Below(lim, seg.minTimestampMs) {
        assert SlotExact(c, d.manifest, Raw(d), seg.minTimestampMs, seg.bucket, d.rollups[seg.segmentId]);
      }
    }
    LateSame(c, d.manifest, d'.manifest);
  }

  lemma LateSame(c: Config, m: Manifest, m': Manifest)
    requires m'.rollupSegments == m.rollupSegments && m'.hourlyRollupMs == m.hourlyRollupMs
             && m'.bucketCount == m.bucketCount
    ensures forall e :: Late(c, m', e) == Late(c, m, e)
    ensures forall hour, bucket :: RolledUp(m', hour, bucket) == RolledUp(m, hour, bucket)
  {
  }

  // Flush: pending events become raw.

  lemma SummarizesMore(j: Json, r: RollupRecord, m: multiset<UsageEvent>, n: multiset<UsageEvent>)
    requires Summarizes(j, r, m) && forall e :: e in n ==> KeyFor(j, e) != r.key
    ensures Summarizes(j, r, m + n)
  {
    hide KeyFor, Sum;
    SumUnion(m, n, OfKey(j, r.key));
    SumUnion(m, n, CountOfKey(j, r.key));
    SumZero(n, OfKey(j, r.key));
    SumZero(n, CountOfKey(j, r.key));
    var a :| a in m && KeyFor(j, a) == r.key && a.timestampMs == r.firstEventMs;
    var b :| b in m && KeyFor(j, b) == r.key && b.timestampMs == r.lastEventMs;
    assert a in m + n && b in m + n;
    assert forall x :: x in m + n ==> x in m || x in n;
  }

  lemma SlotUnaffected(
    c: Config, m: Manifest, raw: multiset<UsageEvent>, n: multiset<UsageEvent>, hour: int, bucket: nat,
    records: seq<RollupRecord>)
    requires SlotExact(c, m, raw, hour, bucket, records)
    requires forall e :: e in n ==> HourOf(e.timestampMs) != hour || BucketOf(c, m, e) != bucket
    ensures SlotExact(c, m, raw + n, hour, bucket, records)
  {
    hide Summarizes, HourOf, BucketFor;
    forall r | r in records ensures Summarizes(c.json, r, raw + n) {
      assert forall e :: e in n ==> KeyFor(c.json, e) != r.key;
      SummarizesMore(c.json, r, raw, n);
    }
    assert forall e :: e in raw + n ==> e in raw || e in n;
  }

  lemma FlushKeepsRollup(c: Config, d: Disk, d': Disk, moved: multiset<UsageEvent>, lim: Option<int>)
    requires RollupInv(c, d, lim)
    requires d'.manifest.rollupSegments == d.manifest.rollupSegments && d'.rollups == d.rollups
    requires d'.manifest.hourlyRollupMs == d.manifest.hourlyRollupMs
    requires d'.manifest.bucketCount == d.manifest.bucketCount
    requires Raw(d') == Raw(d) + moved && Pending(d) == moved + Pending(d')
    ensures RollupInv(c, d', lim)
  {
    hide Raw, Pending, SlotExact, BucketFor, HourOf;
    LateSame(c, d.manifest, d'.manifest);
    assert forall e :: e in moved ==> e in Pending(d);
    assert forall e :: e in Pending(d') ==> e in Pending(d);
    assert forall e :: e in Raw(d') ==> e in Raw(d) || e in moved;
    forall seg | seg in d'.manifest.rollupSegments && Below(lim, seg.minTimestampMs)
      ensures SlotExact(c, d'.manifest, Raw(d'), seg.minTimestampMs, seg.bucket, d'.rollups[seg.segmentId])
    {
      assert SegShape(seg, d.rollups);
      SlotManifest(c, d.manifest, d'.manifest, Raw(d), seg.minTimestampMs, seg.bucket, d.rollups[seg.segmentId]);
      forall e | e in moved
        ensures HourOf(e.timestampMs) != seg.minTimestampMs || BucketOf(c, d'.manifest, e) != seg.bucket
      {
        var i :| 0 <= i < |d.manifest.rollupSegments| && d.manifest.rollupSegments[i] == seg;
      }
      SlotUnaffected(c, d'.manifest, Raw(d), moved, seg.minTimestampMs, seg.bucket, d.rollups[seg.segmentId]);
    }
  }

  lemma SlotManifest(
    c: Config, m: Manifest, m': Manifest, raw: multiset<UsageEvent>, hour: int, bucket: nat, records: seq<RollupRecord>)
    requires m'.bucketCount == m.bucketCount && SlotExact(c, m, raw, hour, bucket, records)
    ensures SlotExact(c, m', raw, hour, bucket, records)
  {
    hide Summarizes, HourOf;
  }

  // Rebuild.

  /** A rebuild that leaves the watermark on the hour keeps every remaining rollup exact. */
  lemma RebuildKeepsRollup(c: Config, s: State, s': State, fromMs: int, toMs: int, lim: Option<int>)
    requires RebuildStep(s, s', fromMs, toMs) && RollupInv(c, s.disk, lim) && Aligned(s'.disk.manifest.hourlyRollupMs)
    ensures RollupInv(c, s'.disk, lim)
  {
    hide Raw, Pending, SlotExact, BucketFor, HourOf, Filter;
    var d, d' := s.disk, s'.disk;
    var m, m' := d.manifest, d'.manifest;
    RebuildSubset(m, m', fromMs, toMs);
    PendingSame(d, d');
    RawSame(d, d');
    forall seg | seg in m'.rollupSegments && Below(lim, seg.minTimestampMs)
      ensures SlotExact(c, m', Raw(d'), seg.minTimestampMs, seg.bucket, d'.rollups[seg.segmentId])
    {
      assert SegShape(seg, d.rollups);
      SlotManifest(c, m, m', Raw(d), seg.minTimestampMs, seg.bucket, d.rollups[seg.segmentId]);
    }
    assert SealedCovered(c, d', lim) by {
      forall e | e in Raw(d') && Below(lim, HourOf(e.timestampMs)) && HourOf(e.timestampMs) < m'.hourlyRollupMs
        ensures RolledUp(m', HourOf(e.timestampMs), BucketOf(c, m', e))
      {
        assert RolledUp(m, HourOf(e.timestampMs), BucketOf(c, m, e));
        HourOfAligned(e.timestampMs);
        AlignedGap(HourOf(e.timestampMs), m'.hourlyRollupMs);
        KeptBelow(d, m', fromMs, toMs, HourOf(e.timestampMs), BucketOf(c, m, e));
      }
    }
    assert SlotsShaped(d');
    assert PendingTimely(c, d', lim);
  }

  /** Rebuilding only removes rollups. */
  lemma RebuildSubset(m: Manifest, m': Manifest, fromMs: int, toMs: int)
    requires m'.rollupSegments == Filter(m.rollupSegments, KeptByRebuild(fromMs, toMs)) && UniqueSlots(m.rollupSegments)
    ensures UniqueSlots(m'.rollupSegments)
    ensures forall x :: x in m'.rollupSegments ==> x in m.rollupSegments
    ensures forall hour, bucket :: RolledUp(m', hour, bucket) ==> RolledUp(m, hour, bucket)
  {
    FilterSlots(m.rollupSegments, KeptByRebuild(fromMs, toMs));
    forall x | x in m'.rollupSegments ensures x in m.rollupSegments {
      FilterMember(m.rollupSegments, KeptByRebuild(fromMs, toMs), x);
    }
    hide Filter;
    forall hour, bucket | RolledUp(m', hour, bucket) ensures RolledUp(m, hour, bucket) {
      var i :| 0 <= i < |m'.rollupSegments|
             && m'.rollupSegments[i].minTimestampMs == hour && m'.rollupSegments[i].bucket == bucket;
      assert m'.rollupSegments[i] in m.rollupSegments;
    }
  }

  lemma {:induction false} FilterSlots(segs: seq<SegmentMeta>, p: SegmentMeta -> bool)
    requires UniqueSlots(segs)
    ensures UniqueSlots(Filter(segs, p))
    decreases |segs|
  {
    if segs != [] {
      var front, last := segs[..|segs| - 1], segs[|segs| - 1];
      FilterSlots(front, p);
      var kept := Filter(front, p);
      forall i | 0 <= i < |kept|
        ensures kept[i].minTimestampMs != last.minTimestampMs || kept[i].bucket != last.bucket
      {
        FilterMember(front, p, kept[i]);
        var k :| 0 <= k < |front| && front[k] == kept[i];
        assert segs[k] == front[k];
      }
    }
  }

  /** A rollup below the rebuilt range survives. */
  lemma KeptBelow(d: Disk, m': Manifest, fromMs: int, toMs: int, hour: int, bucket: nat)
    requires SlotsShaped(d) && hour + HOUR_MS <= fromMs
    requires m'.rollupSegments == Filter(d.manifest.rollupSegments, KeptByRebuild(fromMs, toMs))
    requires RolledUp(d.manifest, hour, bucket)
    ensures RolledUp(m', hour, bucket)
  {
    hide Filter, UniqueSlots;
    var segs := d.manifest.rollupSegments;
    var i :| 0 <= i < |segs| && segs[i].minTimestampMs == hour && segs[i].bucket == bucket;
    assert SegShape(segs[i], d.rollups);
    FilterMember(segs, KeptByRebuild(fromMs, toMs), segs[i]);
    var k :| 0 <= k < |m'.rollupSegments| && m'.rollupSegments[k] == segs[i];
  }

  lemma AlignedGap(a: int, b: int)
    requires Aligned(a) && Aligned(b) && a < b
    ensures a + HOUR_MS <= b
  {
  }

  /** Repair: once the rebuilt range starts at or below every drifted hour and covers every rollup
      from there on, the cache is exact again for all hours. */
  lemma RebuildRepairs(c: Config, s: State, s': State, fromMs: int, toMs: int, lim: int)
    requires RebuildStep(s, s', fromMs, toMs) && RollupInv(c, s.disk, Some(lim)) && Aligned(fromMs) && fromMs <= lim
    requires forall seg :: seg in s.disk.manifest.rollupSegments ==> seg.minTimestampMs < toMs
    ensures RollupInv(c, s'.disk, None)
  {
    hide Raw, Pending, SlotExact, BucketFor, HourOf, Filter;
    RebuildKeepsRollup(c, s, s', fromMs, toMs, Some(lim));
    var d, m, d', m' := s.disk, s.disk.manifest, s'.disk, s'.disk.manifest;
    forall seg | seg in m'.rollupSegments ensures seg.minTimestampMs < fromMs {
      FilterMember(m.rollupSegments, KeptByRebuild(fromMs, toMs), seg);
      assert SegShape(seg, d.rollups);
    }
    assert m'.hourlyRollupMs <= fromMs;
    assert SlotsExact(c, d', None);
    assert SealedCovered(c, d', None);
    assert PendingTimely(c, d', None) by {
      forall e | e in Pending(d') ensures !Late(c, m', e) {
        if RolledUp(m', HourOf(e.timestampMs), BucketOf(c, m', e)) {
          var i :| 0 <= i < |m'.rollupSegments|
                 && m'.rollupSegments[i].minTimestampMs == HourOf(e.timestampMs)
                 && m'.rollupSegments[i].bucket == BucketOf(c, m', e);
          assert m'.rollupSegments[i] in m'.rollupSegments;
        }
      }
    }
  }

  // Tick.

  lemma {:induction false} FilterSum(s: seq<UsageEvent>, p: UsageEvent -> bool, f: UsageEvent -> int)
    requires forall e :: e in s && !p(e) ==> f(e) == 0
    ensures Sum(multiset(Filter(s, p)), f) == Sum(multiset(s), f)
    decreases |s|
  {
    if s != [] {
      hide Sum, Filter;
      var front, last := s[..|s| - 1], s[|s| - 1];
      assert s == front + [last];
      FilterSum(front, p, f);
      FilterSnoc(front, p, last);
      SumSnoc(front, f, last);
      if p(last) {
        SumSnoc(Filter(front, p), f, last);
      } else {
        assert last in s;
        assert Filter(front, p) + [] == Filter(front, p);
      }
    }
  }

  lemma FitsFilter(es: seq<UsageEvent>, p: UsageEvent -> bool)
    requires Fits(multiset(es))
    ensures Fits(multiset(Filter(es, p)))
  {
    hide Sum, Filter;
    var kept := (e: UsageEvent) => if p(e) then Abs(e.quantity) else 0;
    FilterSum(es, p, kept);
    assert forall e :: e in multiset(Filter(es, p)) ==> kept(e) == AbsQuantity()(e) by {
      forall e | e in multiset(Filter(es, p)) ensures p(e) {
        assert e in Filter(es, p);
        FilterMember(es, p, e);
      }
    }
    SumEqual(multiset(Filter(es, p)), kept, AbsQuantity());
    SumAtMost(multiset(es), kept, AbsQuantity());
  }

  /** Summaries of the events of one hour and bucket are summaries of all raw events. */
  lemma HourSummaries(c: Config, m: Manifest, raw: seq<UsageEvent>, hour: int, bucket: nat, r: RollupRecord)
    requires Positive(multiset(raw)) && Aligned(hour)
    requires Summarizes(c.json, r, multiset(Filter(raw, InHourBucket(c, m, hour, bucket))))
    ensures Summarizes(c.json, r, multiset(raw))
    ensures r.key.hourStartMs == hour && BucketFor(c.hashing, r.key.accountId, Buckets(m)) == bucket
  {
    hide Sum, Filter, BucketFor, HourOf;
    var p := InHourBucket(c, m, hour, bucket);
    var es := multiset(Filter(raw, p));
    forall e ensures e in es <==> e in raw && p(e) {
      FilterMember(raw, p, e);
      assert e in es <==> e in Filter(raw, p);
    }
    assert forall e :: e in raw ==> e in multiset(raw);
    forall e | e in raw ensures p(e) <==> HourOf(e.timestampMs) == hour && BucketOf(c, m, e) == bucket {
      InHour(e.timestampMs, hour);
    }
    var a :| a in es && KeyFor(c.json, a) == r.key && a.timestampMs == r.firstEventMs;
    var b :| b in es && KeyFor(c.json, b) == r.key && b.timestampMs == r.lastEventMs;
    FilterSum(raw, p, OfKey(c.json, r.key));
    FilterSum(raw, p, CountOfKey(c.json, r.key));
    assert a in multiset(raw) && b in multiset(raw);
  }

  lemma InHour(ts: int, hour: int)
    requires 0 < ts && Aligned(hour)
    ensures hour <= ts < hour + HOUR_MS <==> HourOf(ts) == hour
  {
    HourOfBounds(ts);
    if hour <= ts < hour + HOUR_MS {
      HourOfUnique(ts, hour);
    }
  }

  /** While the sums fit, the builder's records are exact for the events of their window. */
  lemma WindowExact(c: Config, m: Manifest, raw: seq<UsageEvent>, hour: int, bucket: nat, records: seq<RollupRecord>)
    requires RollsUp(c, m, raw, hour, bucket, records) && Fits(multiset(raw))
    ensures var es := multiset(Filter(raw, InHourBucket(c, m, hour, bucket)));
            && (forall r :: r in records ==> Summarizes(c.json, r, es))
            && (forall e :: e in es ==> KeyFor(c.json, e) in RecordKeys(records))
  {
    hide Filter, Summarizes, KeyFor, Aggregated, InHourBucket, Fits, DistinctKeys, RecordKeys;
    var es := Filter(raw, InHourBucket(c, m, hour, bucket));
    FitsFilter(raw, InHourBucket(c, m, hour, bucket));
    AggregatedExact(c.json, es);
    forall e | e in multiset(es) ensures KeyFor(c.json, e) in RecordKeys(records) {
      assert HasKey(c.json, KeyFor(c.json, e), multiset(es));
    }
  }

  lemma NewSlotExact(c: Config, m: Manifest, raw: seq<UsageEvent>, hour: int, bucket: nat, records: seq<RollupRecord>)
    requires Positive(multiset(raw)) && Aligned(hour) && RollsUp(c, m, raw, hour, bucket, records)
             && Fits(multiset(raw))
    ensures SlotExact(c, m, multiset(raw), hour, bucket, records)
  {
    hide Summarizes, Filter, BucketFor, HourOf, Aggregated, Fits;
    var p := InHourBucket(c, m, hour, bucket);
    var es := multiset(Filter(raw, p));
    WindowExact(c, m, raw, hour, bucket, records);
    forall r | r in records
      ensures Summarizes(c.json, r, multiset(raw))
           && r.key.hourStartMs == hour && BucketFor(c.hashing, r.key.accountId, Buckets(m)) == bucket
    {
      HourSummaries(c, m, raw, hour, bucket, r);
    }
    forall e | e in multiset(raw) && HourOf(e.timestampMs) == hour && BucketOf(c, m, e) == bucket
      ensures KeyFor(c.json, e) in RecordKeys(records)
    {
      InHour(e.timestampMs, hour);
      FilterMember(raw, p, e);
      assert e in es;
    }
  }

  lemma {:induction false} EarliestBound(metas: seq<SegmentMeta>, segs: SegmentFiles, h: Hashing, buckets: nat,
                                         e: UsageEvent)
    requires forall s :: s in metas ==> MetaMatchesFile(s, segs, h, buckets)
    requires e in AllEvents(metas, segs) && 0 < e.timestampMs
    ensures metas != [] && EarliestMin(metas) <= e.timestampMs
    decreases |metas|
  {
    hide BucketFor;
    var front, last := metas[..|metas| - 1], metas[|metas| - 1];
    if e in AllEvents(front, segs) {
      EarliestBound(front, segs, h, buckets, e);
    } else {
      assert MetaMatchesFile(last, segs, h, buckets);
      TimesBound(segs[last.segmentId], e);
      assert last.minTimestampMs <= e.timestampMs;
    }
  }

  /** No raw event lies between the watermark and the hour where a tick starts. */
  lemma TickStartsEarlyEnough(c: Config, d: Disk, e: UsageEvent)
    requires RawListed(c, d) && Positive(Raw(d)) && e in Raw(d) && d.manifest.hourlyRollupMs <= HourOf(e.timestampMs)
    ensures TickStart(d.manifest) <= HourOf(e.timestampMs)
  {
    hide AllEvents, MetaMatchesFile, HourOf, EarliestMin;
    if d.manifest.hourlyRollupMs == 0 && d.manifest.rawSegments != [] {
      assert e in RawSeq(d);
      EarliestBound(d.manifest.rawSegments, d.segs, c.hashing, Buckets(d.manifest), e);
      HourOfMonotone(EarliestMin(d.manifest.rawSegments), e.timestampMs);
    }
  }

  /** While no flush is in flight, everything pending is in the memtable. */
  lemma NothingInFlight(s: State)
    requires s.Up? && Coupled(s.disk, s.mem) && !FlushInFlight(s)
    ensures s.mem.inflight == [] && Unsealed(s.disk) == s.mem.memtable
  {
    hide ReplayRange;
    var lo := s.disk.manifest.lastSealedWalId;
    if s.mem.inflight != [] {
      ChainAt(s.disk.wal, lo, s.mem.inflight, 0);
    }
    CoupledMeansReplay(s.disk, s.mem);
    assert InflightEvents([]) + s.mem.memtable == s.mem.memtable;
  }

  lemma TargetBehindPending(c: Config, s: State, now: int, target: int, e: UsageEvent)
    requires s.Up? && Coupled(s.disk, s.mem) && !FlushInFlight(s) && IsTickTarget(c, s, now, target)
    requires e in Pending(s.disk)
    ensures target <= HourOf(e.timestampMs)
  {
    hide HourOf, Coupled, Unsealed;
    NothingInFlight(s);
    assert e in s.mem.memtable;
    var i :| 0 <= i < |s.mem.memtable| && s.mem.memtable[i] == e;
    var t :| IsMinTimestamp(s.mem.memtable, t) && target == TargetFor(c, now, t);
    HourOfMonotone(t.value, e.timestampMs);
  }

  lemma TargetAligned(c: Config, s: State, now: int, target: int)
    requires s.Up? && IsTickTarget(c, s, now, target)
    ensures Aligned(target)
  {
    hide HourOf;
    var t :| IsMinTimestamp(s.mem.memtable, t) && target == TargetFor(c, now, t);
    HourOfAligned(now - c.safetyLagMs);
    if t.Some? {
      HourOfAligned(t.value);
    }
  }

  lemma StartAligned(m: Manifest)
    requires Aligned(m.hourlyRollupMs)
    ensures Aligned(TickStart(m))
  {
    hide HourOf, EarliestMin;
    if m.rawSegments != [] { HourOfAligned(EarliestMin(m.rawSegments)); }
  }

  /** Counted from an hour-aligned start, windows are hours. */
  lemma WindowIsHour(start: int, ts: int)
    requires Aligned(start) && 0 < ts
    ensures WindowOf(start, ts) == HourOf(ts)
  {
    HourOfBounds(ts);
    var q, r := ts / HOUR_MS, ts % HOUR_MS;
    assert ts - start == (q - start / HOUR_MS) * HOUR_MS + r;
  }

  lemma AlignedWindow(start: int, hour: int)
    requires Aligned(start) && IsWindow(start, hour)
    ensures Aligned(hour)
  {
  }

  /** Rolled-up slots after a tick: the old ones and the new ones. */
  lemma RolledUpAfterTick(m: Manifest, m': Manifest, metas: seq<SegmentMeta>, hour: int, bucket: nat)
    requires m'.rollupSegments == m.rollupSegments + metas
    ensures RolledUp(m', hour, bucket) <==> RolledUp(m, hour, bucket) || HasSlot(metas, hour, bucket)
  {
    if RolledUp(m, hour, bucket) {
      var i :| 0 <= i < |m.rollupSegments| && m.rollupSegments[i].minTimestampMs == hour
          && m.rollupSegments[i].bucket == bucket;
      assert m'.rollupSegments[i] == m.rollupSegments[i];
    }
    if s :| s in metas && s.minTimestampMs == hour && s.bucket == bucket {
      var i :| 0 <= i < |metas| && metas[i] == s;
      assert m'.rollupSegments[|m.rollupSegments| + i] == s;
    }
    if RolledUp(m', hour, bucket) && !RolledUp(m, hour, bucket) {
      var i :| 0 <= i < |m'.rollupSegments| && m'.rollupSegments[i].minTimestampMs == hour
          && m'.rollupSegments[i].bucket == bucket;
      assert m'.rollupSegments[i] in metas;
    }
  }

  lemma TickShapes(c: Config, s: State, s': State, now: int, target: int, metas: seq<SegmentMeta>)
    requires TickCommitStep(c, s, s', now, target, metas) && SlotsShaped(s.disk)
    ensures SlotsShaped(s'.disk)
  {
    hide RollsUp, MetaOf, IsTickTarget, TickStart, Raw, RawSeq, FlushInFlight, NeedsForceDrain;
    var m, m' := s.disk.manifest, s'.disk.manifest;
    TargetAligned(c, s, now, target);
    StartAligned(m);
    forall seg | seg in m'.rollupSegments ensures SegShape(seg, s'.disk.rollups) {
      if seg in m.rollupSegments {
        assert SegShape(seg, s.disk.rollups);
      } else {
        assert seg in metas && NewRollup(c, m, RawSeq(s.disk), TickStart(m), seg, s'.disk.rollups);
        AlignedWindow(TickStart(m), seg.minTimestampMs);
      }
    }
    assert UniqueSlots(m'.rollupSegments) by {
      forall i, j | 0 <= i < |m.rollupSegments| && 0 <= j < |metas|
        ensures m.rollupSegments[i].minTimestampMs != metas[j].minTimestampMs
                || m.rollupSegments[i].bucket != metas[j].bucket
      {
        assert metas[j] in metas && NewRollup(c, m, RawSeq(s.disk), TickStart(m), metas[j], s'.disk.rollups);
      }
      SlotsAppend(m.rollupSegments, metas);
    }
  }

  lemma SlotsAppend(a: seq<SegmentMeta>, b: seq<SegmentMeta>)
    requires UniqueSlots(a) && UniqueSlots(b)
    requires forall i, j :: 0 <= i < |a| && 0 <= j < |b| ==>
               a[i].minTimestampMs != b[j].minTimestampMs || a[i].bucket != b[j].bucket
    ensures UniqueSlots(a + b)
  {
  }

  lemma TickExact(c: Config, s: State, s': State, now: int, target: int, metas: seq<SegmentMeta>, lim: Option<int>)
    requires TickCommitStep(c, s, s', now, target, metas) && SlotsShaped(s.disk) && SlotsExact(c, s.disk, lim)
    requires Positive(Raw(s.disk)) && Fits(Raw(s.disk))
    ensures SlotsExact(c, s'.disk, lim)
  {
    hide RollsUp, MetaOf, Fits, IsTickTarget, TickStart, AllEvents, FlushInFlight, NeedsForceDrain, SlotExact,
      UniqueSlots;
    var d, d' := s.disk, s'.disk;
    var m, m' := d.manifest, d'.manifest;
    StartAligned(m);
    forall seg | seg in m'.rollupSegments && Below(lim, seg.minTimestampMs)
      ensures seg.segmentId in d'.rollups
      ensures SlotExact(c, m', Raw(d'), seg.minTimestampMs, seg.bucket, d'.rollups[seg.segmentId])
    {
      if seg in m.rollupSegments {
        assert SegShape(seg, d.rollups);
      } else {
        assert seg in metas && NewRollup(c, m, RawSeq(d), TickStart(m), seg, d'.rollups);
      }
      var records := d'.rollups[seg.segmentId];
      if seg !in m.rollupSegments {
        AlignedWindow(TickStart(m), seg.minTimestampMs);
        NewSlotExact(c, m, RawSeq(d), seg.minTimestampMs, seg.bucket, records);
      }
      SlotManifest(c, m, m', Raw(d), seg.minTimestampMs, seg.bucket, records);
    }
  }

  lemma TickCovers(c: Config, s: State, s': State, now: int, target: int, metas: seq<SegmentMeta>, lim: Option<int>)
    requires TickCommitStep(c, s, s', now, target, metas) && CoreInv(c, s) && RollupInv(c, s.disk, lim)
    ensures SealedCovered(c, s'.disk, lim) && PendingTimely(c, s'.disk, lim)
  {
    hide RollsUp, RollupMetaOf, IsTickTarget, TickStart, AllEvents, FlushInFlight, NeedsForceDrain, SlotExact,
      UniqueSlots, HourOf, BucketFor, Coupled, Unsealed, RolledUp, SegShape;
    var d, d' := s.disk, s'.disk;
    var m, m' := d.manifest, d'.manifest;
    forall e | e in Raw(d') && Below(lim, HourOf(e.timestampMs)) && HourOf(e.timestampMs) < m'.hourlyRollupMs
      ensures RolledUp(m', HourOf(e.timestampMs), BucketOf(c, m', e))
    {
      RolledUpAfterTick(m, m', metas, HourOf(e.timestampMs), BucketOf(c, m', e));
      if m.hourlyRollupMs <= HourOf(e.timestampMs) {
        RawPositive(d);
        TickStartsEarlyEnough(c, d, e);
        assert e in RawSeq(d);
        StartAligned(m);
        HourOfBounds(e.timestampMs);
        WindowIsHour(TickStart(m), e.timestampMs);
      }
    }
    forall e | e in Pending(d') && Below(lim, HourOf(e.timestampMs)) ensures !Late(c, m', e) {
      PendingSame(d, d');
      TargetBehindPending(c, s, now, target, e);
      RolledUpAfterTick(m, m', metas, HourOf(e.timestampMs), BucketOf(c, m', e));
      assert !Late(c, m, e);
      assert !HasSlot(metas, HourOf(e.timestampMs), BucketOf(c, m', e));
    }
  }

  lemma RawPositive(d: Disk)
    requires Positive(Ledger(d))
    ensures Positive(Raw(d))
  {
    hide Raw, Pending;
    assert forall e :: e in Raw(d) ==> e in Ledger(d);
  }

  lemma RawSame(d: Disk, d': Disk)
    requires d'.segs == d.segs && d'.manifest.rawSegments == d.manifest.rawSegments
    ensures Raw(d') == Raw(d)
  {
  }

  lemma PendingSame(d: Disk, d': Disk)
    requires d'.wal == d.wal && d'.manifest.lastSealedWalId == d.manifest.lastSealedWalId
    ensures Pending(d') == Pending(d)
  {
  }

  lemma TickKeepsRollup(c: Config, s: State, s': State, now: int, target: int, metas: seq<SegmentMeta>,
                        lim: Option<int>)
    requires TickCommitStep(c, s, s', now, target, metas) && CoreInv(c, s) && RollupInv(c, s.disk, lim)
             && Fits(Raw(s.disk))
    ensures RollupInv(c, s'.disk, lim)
  {
    hide Fits, TickCommitStep, SlotsShaped, SlotsExact, SealedCovered, PendingTimely, Raw, Pending, Coupled, CatalogOk;
    RawPositive(s.disk);
    TickShapes(c, s, s', now, target, metas);
    TickExact(c, s, s', now, target, metas, lim);
    TickCovers(c, s, s', now, target, metas, lim);
  }
}
