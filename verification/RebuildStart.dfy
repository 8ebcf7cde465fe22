/** Rebuilds from any time: what the following ticks count, key by key, and exactly when that is what the
    raw events say. */
module RebuildStart {
  import opened Model
  import opened Sums
  import opened Manifests
  import opened Query
  import opened Rollup
  import opened Engine
  import opened Durability
  import opened Catalog
  import opened Runs
  import opened RollupSafety
  import opened RollupRuns

  // Quantities of live records.

  function FileOf(rollups: RollupFiles, seg: SegmentMeta): seq<RollupRecord>
  {
    if seg.segmentId in rollups then rollups[seg.segmentId] else []
  }

  /** What the rollups of `segs` report for `k`. */
  ghost function LiveQuantity(segs: seq<SegmentMeta>, rollups: RollupFiles, k: RollupKey): int
  {
    QuantityOf(LiveRecords(segs, rollups), k)
  }

  lemma {:induction false} QuantityAppend(a: seq<RollupRecord>, b: seq<RollupRecord>, k: RollupKey)
    ensures QuantityOf(a + b, k) == QuantityOf(a, k) + QuantityOf(b, k)
    decreases |b|
  {
    if b == [] {
      assert a + b == a;
    } else {
      assert (a + b)[..|a + b| - 1] == a + b[..|b| - 1];
      QuantityAppend(a, b[..|b| - 1], k);
    }
  }

  lemma {:induction false} QuantityNone(rs: seq<RollupRecord>, k: RollupKey)
    requires forall r :: r in rs ==> r.key != k
    ensures QuantityOf(rs, k) == 0
    decreases |rs|
  {
    if rs != [] {
      QuantityNone(rs[..|rs| - 1], k);
    }
  }

  lemma LiveSnoc(segs: seq<SegmentMeta>, rollups: RollupFiles, k: RollupKey)
    requires segs != []
    ensures LiveQuantity(segs, rollups, k)
         == LiveQuantity(segs[..|segs| - 1], rollups, k) + QuantityOf(FileOf(rollups, segs[|segs| - 1]), k)
  {
    hide QuantityOf;
    var n := |segs| - 1;
    QuantityAppend(LiveRecords(segs[..n], rollups), FileOf(rollups, segs[n]), k);
  }

  lemma LiveNone(rollups: RollupFiles, k: RollupKey)
    ensures LiveQuantity([], rollups, k) == 0
  {
  }

  lemma {:induction false} LiveAppend(a: seq<SegmentMeta>, b: seq<SegmentMeta>, rollups: RollupFiles, k: RollupKey)
    ensures LiveQuantity(a + b, rollups, k) == LiveQuantity(a, rollups, k) + LiveQuantity(b, rollups, k)
    decreases |b|
  {
    hide LiveQuantity;
    if b == [] {
      assert a + b == a;
      LiveNone(rollups, k);
    } else {
      var n := |b| - 1;
      assert (a + b)[..|a + b| - 1] == a + b[..n];
      LiveAppend(a, b[..n], rollups, k);
      LiveSnoc(a + b, rollups, k);
      LiveSnoc(b, rollups, k);
    }
  }

  /** Rollup files that are already there stay as they are. */
  lemma {:induction false} LiveFrame(segs: seq<SegmentMeta>, rollups: RollupFiles, rollups': RollupFiles, k: RollupKey)
    requires forall seg :: seg in segs ==> FileOf(rollups', seg) == FileOf(rollups, seg)
    ensures LiveQuantity(segs, rollups', k) == LiveQuantity(segs, rollups, k)
    decreases |segs|
  {
    hide LiveQuantity, QuantityOf;
    if segs == [] {
      LiveNone(rollups, k);
      LiveNone(rollups', k);
    } else {
      LiveFrame(segs[..|segs| - 1], rollups, rollups', k);
      LiveSnoc(segs, rollups, k);
      LiveSnoc(segs, rollups', k);
    }
  }

  // Rollups of whole hours.

  function BucketOfKey(c: Config, m: Manifest, k: RollupKey): nat
  {
    BucketFor(c.hashing, k.accountId, Buckets(m))
  }

  /** Every live rollup covers a whole hour of one bucket, exactly, and no two cover the same. */
  ghost predicate HoursExact(c: Config, d: Disk)
  {
    && UniqueSlots(d.manifest.rollupSegments)
    && forall seg :: seg in d.manifest.rollupSegments ==>
         && SegShape(seg, d.rollups)
         && SlotExact(c, d.manifest, Raw(d), seg.minTimestampMs, seg.bucket, d.rollups[seg.segmentId])
  }

  lemma SlotQuantity(c: Config, d: Disk, seg: SegmentMeta, k: RollupKey)
    requires HoursExact(c, d) && seg in d.manifest.rollupSegments
    ensures seg.segmentId in d.rollups
    ensures QuantityOf(d.rollups[seg.segmentId], k)
         == if seg.minTimestampMs == k.hourStartMs && seg.bucket == BucketOfKey(c, d.manifest, k)
            then Sum(Raw(d), OfKey(c.json, k)) else 0
  {
    hide Raw, Sum, HourOf, BucketFor, QuantityOf, UniqueSlots, Spans;
    assert SegShape(seg, d.rollups);
    var records := d.rollups[seg.segmentId];
    QuantityOfDistinct(records, k);
    if seg.minTimestampMs == k.hourStartMs && seg.bucket == BucketOfKey(c, d.manifest, k) {
      if k in RecordKeys(records) {
        var i :| 0 <= i < |records| && records[i].key == k;
        assert records[i] in records;
      } else {
        SumZero(Raw(d), OfKey(c.json, k));
      }
    } else {
      QuantityNone(records, k);
    }
  }

  /** Over any list of distinct slots, a key counts in full if its slot is there, and not at all otherwise. */
  lemma {:induction false} SlotsQuantity(c: Config, d: Disk, segs: seq<SegmentMeta>, k: RollupKey)
    requires HoursExact(c, d) && UniqueSlots(segs) && forall seg :: seg in segs ==> seg in d.manifest.rollupSegments
    ensures LiveQuantity(segs, d.rollups, k)
         == if HasSlot(segs, k.hourStartMs, BucketOfKey(c, d.manifest, k)) then Sum(Raw(d), OfKey(c.json, k)) else 0
    decreases |segs|
  {
    hide HoursExact, LiveQuantity, QuantityOf, Raw, Sum, BucketFor;
    if segs == [] {
      LiveNone(d.rollups, k);
    } else {
      var n := |segs| - 1;
      var front, last := segs[..n], segs[n];
      SlotsQuantity(c, d, front, k);
      assert last in segs && last in d.manifest.rollupSegments;
      SlotQuantity(c, d, last, k);
      LiveSnoc(segs, d.rollups, k);
      LastSlot(segs, k.hourStartMs, BucketOfKey(c, d.manifest, k));
    }
  }

  lemma LastSlot(segs: seq<SegmentMeta>, hour: int, bucket: nat)
    requires segs != []
    ensures var front, last := segs[..|segs| - 1], segs[|segs| - 1];
            && (HasSlot(segs, hour, bucket)
                <==> HasSlot(front, hour, bucket) || (last.minTimestampMs == hour && last.bucket == bucket))
            && (UniqueSlots(segs) ==> !(HasSlot(front, hour, bucket) && last.minTimestampMs == hour
                                        && last.bucket == bucket))
  {
    var front, last := segs[..|segs| - 1], segs[|segs| - 1];
    assert segs == front + [last];
    assert forall x :: x in segs <==> x in front || x == last;
    if x :| x in front && x.minTimestampMs == hour && x.bucket == bucket {
      assert x in segs;
      var i :| 0 <= i < |front| && front[i] == x;
      assert segs[i] == x;
    }
  }

  lemma SlotIsRolledUp(m: Manifest, hour: int, bucket: nat)
    ensures HasSlot(m.rollupSegments, hour, bucket) <==> RolledUp(m, hour, bucket)
  {
    if x :| x in m.rollupSegments && x.minTimestampMs == hour && x.bucket == bucket {
      var i :| 0 <= i < |m.rollupSegments| && m.rollupSegments[i] == x;
    }
    if RolledUp(m, hour, bucket) {
      var i :| 0 <= i < |m.rollupSegments|
             && m.rollupSegments[i].minTimestampMs == hour && m.rollupSegments[i].bucket == bucket;
      assert m.rollupSegments[i] in m.rollupSegments;
    }
  }

  /** A rebuild leaves whole hours, whatever it drops. */
  lemma RebuildLeavesHours(c: Config, s: State, s': State, fromMs: int, toMs: int)
    requires RollupInv(c, s.disk, None) && RebuildStep(s, s', fromMs, toMs)
    ensures HoursExact(c, s'.disk) && Raw(s'.disk) == Raw(s.disk)
  {
    hide Raw, Filter, SlotExact, SealedCovered, PendingTimely;
    InvSlotted(c, s.disk);
    RebuildSubset(s.disk.manifest, s'.disk.manifest, fromMs, toMs);
    RawSame(s.disk, s'.disk);
    forall seg | seg in s'.disk.manifest.rollupSegments
      ensures SegShape(seg, s'.disk.rollups)
      ensures SlotExact(c, s'.disk.manifest, Raw(s'.disk), seg.minTimestampMs, seg.bucket,
                        s'.disk.rollups[seg.segmentId])
    {
      assert SegShape(seg, s.disk.rollups);
      SlotManifest(c, s.disk.manifest, s'.disk.manifest, Raw(s.disk), seg.minTimestampMs, seg.bucket,
                   s.disk.rollups[seg.segmentId]);
    }
  }

  // What a tick adds, from any start.

  /** The slot of an event in the windows counted from `start` is among `segs`. */
  ghost predicate InSlots(c: Config, m: Manifest, start: int, segs: seq<SegmentMeta>, e: UsageEvent)
  {
    HasSlot(segs, WindowOf(start, e.timestampMs), BucketOf(c, m, e))
  }

  ghost function InSlotsWeight(c: Config, m: Manifest, start: int, segs: seq<SegmentMeta>,
                               k: RollupKey): UsageEvent -> int
  {
    (e: UsageEvent) => if KeyFor(c.json, e) == k && InSlots(c, m, start, segs, e) then e.quantity else 0
  }

  function InOneSlot(c: Config, m: Manifest, start: int, seg: SegmentMeta, k: RollupKey): UsageEvent -> int
  {
    (e: UsageEvent) =>
      if KeyFor(c.json, e) == k && WindowOf(start, e.timestampMs) == seg.minTimestampMs
          && BucketOf(c, m, e) == seg.bucket
      then e.quantity else 0
  }

  /** One new segment reports, for `k`, the events of `k` in its window and bucket. */
  lemma NewQuantity(
    c: Config, m: Manifest, raw: seq<UsageEvent>, start: int, k: RollupKey, seg: SegmentMeta, rollups: RollupFiles)
    requires NewRollup(c, m, raw, start, seg, rollups) && Fits(multiset(raw))
    ensures seg.segmentId in rollups
    ensures QuantityOf(rollups[seg.segmentId], k) == Sum(multiset(raw), InOneSlot(c, m, start, seg, k))
  {
    hide Filter, Sum, BucketFor, KeyFor, Fits, QuantityOf, RolledUp, RollupMetaOf, Spans, IsWindow, WindowOf;
    var records := rollups[seg.segmentId];
    var p := InHourBucket(c, m, seg.minTimestampMs, seg.bucket);
    var es := Filter(raw, p);
    WindowExact(c, m, raw, seg.minTimestampMs, seg.bucket, records);
    QuantityOfDistinct(records, k);
    forall e ensures p(e) <==> WindowOf(start, e.timestampMs) == seg.minTimestampMs && BucketOf(c, m, e) == seg.bucket {
      InWindow(start, seg.minTimestampMs, e.timestampMs);
    }
    FilterSum(raw, p, InOneSlot(c, m, start, seg, k));
    forall e | e in multiset(es) ensures InOneSlot(c, m, start, seg, k)(e) == OfKey(c.json, k)(e) {
      assert e in es;
      FilterMember(raw, p, e);
    }
    SumEqual(multiset(es), InOneSlot(c, m, start, seg, k), OfKey(c.json, k));
    if k in RecordKeys(records) {
      var i :| 0 <= i < |records| && records[i].key == k;
      assert records[i] in records;
    } else {
      SumZero(multiset(es), OfKey(c.json, k));
    }
  }

  /** New segments of distinct slots together report the events of `k` in their slots. */
  lemma {:induction false} NewQuantities(
    c: Config, m: Manifest, raw: seq<UsageEvent>, start: int, k: RollupKey, segs: seq<SegmentMeta>,
    rollups: RollupFiles)
    requires UniqueSlots(segs) && Fits(multiset(raw))
    requires forall seg :: seg in segs ==> NewRollup(c, m, raw, start, seg, rollups)
    ensures LiveQuantity(segs, rollups, k) == Sum(multiset(raw), InSlotsWeight(c, m, start, segs, k))
    decreases |segs|
  {
    hide LiveQuantity, QuantityOf, Sum, Fits, NewRollup, BucketFor, KeyFor, WindowOf, HasSlot, UniqueSlots;
    var all := InSlotsWeight(c, m, start, segs, k);
    if segs == [] {
      LiveNone(rollups, k);
      forall hour, bucket ensures !HasSlot([], hour, bucket) { NoSlots(hour, bucket); }
      SumZero(multiset(raw), all);
    } else {
      var n := |segs| - 1;
      var front, last := segs[..n], segs[n];
      assert UniqueSlots(front) by { FrontUnique(segs); }
      NewQuantities(c, m, raw, start, k, front, rollups);
      assert last in segs;
      NewQuantity(c, m, raw, start, k, last, rollups);
      LiveSnoc(segs, rollups, k);
      var some, one := InSlotsWeight(c, m, start, front, k), InOneSlot(c, m, start, last, k);
      forall e ensures all(e) == some(e) + one(e) {
        LastSlot(segs, WindowOf(start, e.timestampMs), BucketOf(c, m, e));
      }
      SumAdd(multiset(raw), some, one, all);
    }
  }

  lemma NoSlots(hour: int, bucket: nat)
    ensures !HasSlot([], hour, bucket)
  {
  }

  lemma FrontUnique(segs: seq<SegmentMeta>)
    requires UniqueSlots(segs) && segs != []
    ensures UniqueSlots(segs[..|segs| - 1])
  {
  }

  lemma BeforeEnd(start: int, target: int, ts: int)
    ensures WindowOf(start, ts) < target <==> ts < WindowsEnd(start, target)
    ensures target <= WindowsEnd(start, target) < target + HOUR_MS
    ensures Aligned(target) ==> (WindowsEnd(start, target) == target <==> Aligned(start))
  {
    var w, end := WindowOf(start, ts), WindowsEnd(start, target);
    assert (w - start) % HOUR_MS == 0 by { WindowStarts(start, ts); }
    assert (end - start) % HOUR_MS == 0 by { EndIsWindow(start, target); }
    var a, b := (w - start) / HOUR_MS, (end - start) / HOUR_MS;
    assert w == start + a * HOUR_MS && end == start + b * HOUR_MS;
    if Aligned(target) { OnTheHour(start, target); }
  }

  lemma WindowStarts(start: int, ts: int)
    ensures (WindowOf(start, ts) - start) % HOUR_MS == 0
  {
    var q, r := (ts - start) / HOUR_MS, (ts - start) % HOUR_MS;
    assert WindowOf(start, ts) - start == q * HOUR_MS;
  }

  lemma EndIsWindow(start: int, target: int)
    ensures (WindowsEnd(start, target) - start) % HOUR_MS == 0
  {
    var q, r := (start - target) / HOUR_MS, (start - target) % HOUR_MS;
    assert WindowsEnd(start, target) - start == -q * HOUR_MS;
  }

  lemma OnTheHour(start: int, target: int)
    requires Aligned(target)
    ensures (start - target) % HOUR_MS == 0 <==> Aligned(start)
  {
    var t := target / HOUR_MS;
    assert target == t * HOUR_MS;
    var q, r := start / HOUR_MS, start % HOUR_MS;
    assert start - target == (q - t) * HOUR_MS + r;
  }

  /** An event whose window is among a tick's new slots: it lies between start and end of the windows, and its
      slot was not rolled up before. */
  lemma NewSlotIff(
    c: Config, m: Manifest, raw: seq<UsageEvent>, start: int, target: int, metas: seq<SegmentMeta>,
    rollups: RollupFiles,
    e: UsageEvent)
    requires NewRollups(c, m, raw, start, target, metas, rollups) && e in raw
    ensures InSlots(c, m, start, metas, e)
       <==> start <= e.timestampMs < WindowsEnd(start, target)
            && !RolledUp(m, WindowOf(start, e.timestampMs), BucketOf(c, m, e))
  {
    hide BucketFor, RolledUp, RollsUp, RollupMetaOf;
    BeforeEnd(start, target, e.timestampMs);
    if seg :| seg in metas && seg.minTimestampMs == WindowOf(start, e.timestampMs) && seg.bucket == BucketOf(c, m, e) {
      assert NewRollup(c, m, raw, start, seg, rollups);
      assert start <= e.timestampMs;
    }
  }

  /** What a committing tick adds for `k`: its events in the windows from start to their end, where the slot was
      not rolled up before. */
  ghost function FreshWeight(c: Config, m: Manifest, start: int, target: int, k: RollupKey): UsageEvent -> int
  {
    (e: UsageEvent) =>
      if && KeyFor(c.json, e) == k && start <= e.timestampMs < WindowsEnd(start, target)
         && !RolledUp(m, WindowOf(start, e.timestampMs), BucketOf(c, m, e))
      then e.quantity else 0
  }

  lemma TickAdds(c: Config, s: State, s': State, now: int, target: int, metas: seq<SegmentMeta>, k: RollupKey)
    requires TickCommitStep(c, s, s', now, target, metas) && Fits(Raw(s.disk))
    requires forall seg :: seg in s.disk.manifest.rollupSegments ==> seg.segmentId in s.disk.rollups
    ensures LiveQuantity(s'.disk.manifest.rollupSegments, s'.disk.rollups, k)
         == LiveQuantity(s.disk.manifest.rollupSegments, s.disk.rollups, k)
            + Sum(Raw(s.disk), FreshWeight(c, s.disk.manifest, TickStart(s.disk.manifest), target, k))
    ensures Raw(s'.disk) == Raw(s.disk) && s'.disk.manifest.hourlyRollupMs == target
  {
    hide AllEvents, Sum, Fits, LiveQuantity, IsTickTarget, NewRollup, FlushInFlight, NeedsForceDrain, FreshListing,
      RolledUp, TickStart, BucketFor, WindowsEnd, WindowOf, KeyFor;
    var m, raw := s.disk.manifest, RawSeq(s.disk);
    var start := TickStart(m);
    LiveAppend(m.rollupSegments, metas, s'.disk.rollups, k);
    LiveFrame(m.rollupSegments, s.disk.rollups, s'.disk.rollups, k);
    NewQuantities(c, m, raw, start, k, metas, s'.disk.rollups);
    forall e | e in multiset(raw)
      ensures InSlotsWeight(c, m, start, metas, k)(e) == FreshWeight(c, m, start, target, k)(e)
    {
      assert e in raw;
      NewSlotIff(c, m, raw, start, target, metas, s'.disk.rollups, e);
    }
    SumEqual(multiset(raw), InSlotsWeight(c, m, start, metas, k), FreshWeight(c, m, start, target, k));
  }

  // A rebuild and the next tick.

  function OfKeyFrom(j: Json, k: RollupKey, fromMs: int): UsageEvent -> int
  {
    (e: UsageEvent) => if KeyFor(j, e) == k && fromMs <= e.timestampMs then e.quantity else 0
  }

  function OfKeyBefore(j: Json, k: RollupKey, toMs: int): UsageEvent -> int
  {
    (e: UsageEvent) => if KeyFor(j, e) == k && e.timestampMs < toMs then e.quantity else 0
  }

  lemma KeySplits(j: Json, k: RollupKey, m: multiset<UsageEvent>, at: int)
    ensures Sum(m, OfKey(j, k)) == Sum(m, OfKeyBefore(j, k, at)) + Sum(m, OfKeyFrom(j, k, at))
  {
    hide Sum, KeyFor;
    SumAdd(m, OfKeyBefore(j, k, at), OfKeyFrom(j, k, at), OfKey(j, k));
  }

  /** A rebuild, followed by a committing tick. */
  ghost predicate RebuiltAndTicked(
    c: Config, s: State, rebuilt: State, ticked: State, fromMs: int, toMs: int, now: int, target: int,
    metas: seq<SegmentMeta>)
  {
    && CoreInv(c, s) && RollupInv(c, s.disk, None) && Fits(Raw(s.disk))
    && RebuildStep(s, rebuilt, fromMs, toMs)
    && rebuilt.clock <= now && TickCommitStep(c, rebuilt, ticked, now, target, metas)
  }

  /** The promise: for every hour below `top`, the live rollups report what the raw events add up to. */
  ghost predicate RollupIsRaw(c: Config, d: Disk, top: int)
  {
    forall k: RollupKey :: k.hourStartMs < top ==>
      LiveQuantity(d.manifest.rollupSegments, d.rollups, k) == Sum(Raw(d), OfKey(c.json, k))
  }

  /** What a tick from `start` would get wrong for `k` is nothing: the events from `start` on, which it counts
      again, if the rebuild kept the slot of `k`; those before `start`, which it leaves out, if not. */
  ghost predicate Settled(c: Config, m: Manifest, raw: multiset<UsageEvent>, start: int, k: RollupKey)
  {
    if RolledUp(m, k.hourStartMs, BucketOfKey(c, m, k)) then Sum(raw, OfKeyFrom(c.json, k, start)) == 0
    else Sum(raw, OfKeyBefore(c.json, k, start)) == 0
  }

  lemma StartFacts(
    c: Config, s: State, rebuilt: State, ticked: State, fromMs: int, toMs: int, now: int, target: int,
    metas: seq<SegmentMeta>)
    requires RebuiltAndTicked(c, s, rebuilt, ticked, fromMs, toMs, now, target, metas)
    ensures TickStart(rebuilt.disk.manifest) < target && Aligned(target)
    ensures HoursExact(c, rebuilt.disk) && Raw(rebuilt.disk) == Raw(s.disk) == Raw(ticked.disk)
    ensures Positive(Raw(s.disk)) && Fits(Raw(s.disk))
    ensures ticked.disk.manifest.hourlyRollupMs == target
    ensures forall seg :: seg in rebuilt.disk.manifest.rollupSegments ==> seg.segmentId in rebuilt.disk.rollups
  {
    hide RollupInv, AllEvents, NewRollups, IsTickTarget, FreshListing, CatalogOk, Coupled, Fits, SlotExact, TickStart;
    RawPositive(s.disk);
    RebuildLeavesHours(c, s, rebuilt, fromMs, toMs);
    TargetAligned(c, rebuilt, now, target);
    forall seg | seg in rebuilt.disk.manifest.rollupSegments ensures seg.segmentId in rebuilt.disk.rollups {
      assert SegShape(seg, rebuilt.disk.rollups);
    }
  }

  /** The rollups after the tick, key by key. */
  lemma TickedQuantity(
    c: Config, s: State, rebuilt: State, ticked: State, fromMs: int, toMs: int, now: int, target: int,
    metas: seq<SegmentMeta>, k: RollupKey)
    requires RebuiltAndTicked(c, s, rebuilt, ticked, fromMs, toMs, now, target, metas)
    ensures var m := rebuilt.disk.manifest;
            LiveQuantity(ticked.disk.manifest.rollupSegments, ticked.disk.rollups, k)
            == (if RolledUp(m, k.hourStartMs, BucketOfKey(c, m, k)) then Sum(Raw(s.disk), OfKey(c.json, k)) else 0)
               + Sum(Raw(s.disk), FreshWeight(c, m, TickStart(m), target, k))
  {
    hide CoreInv, RollupInv, Raw, Sum, Fits, LiveQuantity, TickStart, RolledUp, BucketFor, FreshWeight, TickCommitStep,
      HasSlot;
    var m := rebuilt.disk.manifest;
    StartFacts(c, s, rebuilt, ticked, fromMs, toMs, now, target, metas);
    TickAdds(c, rebuilt, ticked, now, target, metas, k);
    SlotsQuantity(c, rebuilt.disk, m.rollupSegments, k);
    SlotIsRolledUp(m, k.hourStartMs, BucketOfKey(c, m, k));
  }

  /** Off the hour no window meets an old slot, so everything in the windows is counted. */
  lemma OffHourFresh(c: Config, d: Disk, start: int, target: int, k: RollupKey)
    requires HoursExact(c, d) && !Aligned(start) && Positive(Raw(d)) && k.hourStartMs < target && Aligned(target)
    ensures Sum(Raw(d), FreshWeight(c, d.manifest, start, target, k)) == Sum(Raw(d), OfKeyFrom(c.json, k, start))
  {
    hide Raw, Sum, SlotExact, BucketFor, WindowOf, WindowsEnd, UniqueSlots, HourOf;
    forall e | e in Raw(d) ensures FreshWeight(c, d.manifest, start, target, k)(e) == OfKeyFrom(c.json, k, start)(e) {
      OffHourSlot(c, d, start, e);
      BeforeEnd(start, target, e.timestampMs);
      HourOfBounds(e.timestampMs);
      if KeyFor(c.json, e) == k { AlignedGap(HourOf(e.timestampMs), target); }
    }
    SumEqual(Raw(d), FreshWeight(c, d.manifest, start, target, k), OfKeyFrom(c.json, k, start));
  }

  lemma OffHourSlot(c: Config, d: Disk, start: int, e: UsageEvent)
    requires HoursExact(c, d) && !Aligned(start)
    ensures !RolledUp(d.manifest, WindowOf(start, e.timestampMs), BucketOf(c, d.manifest, e))
  {
    hide SlotExact, BucketFor, UniqueSlots;
    WindowOffHour(start, e.timestampMs);
    var segs := d.manifest.rollupSegments;
    forall i | 0 <= i < |segs| ensures Aligned(segs[i].minTimestampMs) {
      assert segs[i] in segs;
      assert SegShape(segs[i], d.rollups);
    }
  }

  lemma WindowOffHour(start: int, ts: int)
    ensures Aligned(WindowOf(start, ts)) <==> Aligned(start)
  {
    var w := WindowOf(start, ts);
    WindowStarts(start, ts);
    OppositeMultiple(w - start);
    if Aligned(w) { OnTheHour(start, w); }
    if Aligned(start) { OnTheHour(w, start); }
  }

  lemma OppositeMultiple(n: int)
    requires n % HOUR_MS == 0
    ensures (-n) % HOUR_MS == 0
  {
    var q := n / HOUR_MS;
    assert -n == (-q) * HOUR_MS;
  }

  /** On the hour the rollup invariant is never left. */
  lemma OnHourIsRaw(
    c: Config, s: State, rebuilt: State, ticked: State, fromMs: int, toMs: int, now: int, target: int,
    metas: seq<SegmentMeta>)
    requires RebuiltAndTicked(c, s, rebuilt, ticked, fromMs, toMs, now, target, metas)
    requires Aligned(TickStart(rebuilt.disk.manifest))
    ensures RollupInv(c, rebuilt.disk, None) && CoreInv(c, rebuilt) && RollupInv(c, ticked.disk, None)
            && CoreInv(c, ticked)
    ensures RollupIsRaw(c, ticked.disk, target)
  {
    hide CoreInv, RollupInv, Raw, Sum, Fits, NewRollups, IsTickTarget, HourOf, EarliestMin, QuantityOf, LiveRecords;
    assert Aligned(rebuilt.disk.manifest.hourlyRollupMs) by { StartOnHour(rebuilt.disk.manifest); }
    RebuildKeepsRollup(c, s, rebuilt, fromMs, toMs, None);
    StepConserves(c, s, Rebuild(fromMs, toMs), rebuilt);
    RawSame(s.disk, rebuilt.disk);
    TickKeepsRollup(c, rebuilt, ticked, now, target, metas, None);
    TickConserves(c, rebuilt, ticked, now, target, metas);
    forall k: RollupKey | k.hourStartMs < target
      ensures LiveQuantity(ticked.disk.manifest.rollupSegments, ticked.disk.rollups, k)
              == Sum(Raw(ticked.disk), OfKey(c.json, k))
    {
      RollupsSumToRaw(c, ticked.disk, k);
    }
  }

  lemma TickConserves(c: Config, s: State, s': State, now: int, target: int, metas: seq<SegmentMeta>)
    requires CoreInv(c, s) && s.clock <= now && TickCommitStep(c, s, s', now, target, metas)
    ensures CoreInv(c, s')
  {
    hide CoreInv, NewRollups, IsTickTarget, HourOf, TickStart, Grows, FreshListing, NeedsForceDrain, FlushInFlight;
    assert TickStep(c, s, s', now);
    StepConserves(c, s, Tick(now), s');
  }

  lemma StartOnHour(m: Manifest)
    requires Aligned(TickStart(m))
    ensures Aligned(m.hourlyRollupMs)
  {
    hide HourOf, EarliestMin;
  }

  /** For a key below the target, off the hour: the tick gets it right exactly when it is settled. */
  lemma OffHourKeyIff(
    c: Config, s: State, rebuilt: State, ticked: State, fromMs: int, toMs: int, now: int, target: int,
    metas: seq<SegmentMeta>, k: RollupKey)
    requires RebuiltAndTicked(c, s, rebuilt, ticked, fromMs, toMs, now, target, metas)
    requires !Aligned(TickStart(rebuilt.disk.manifest)) && k.hourStartMs < target
    ensures LiveQuantity(ticked.disk.manifest.rollupSegments, ticked.disk.rollups, k)
            == Sum(Raw(ticked.disk), OfKey(c.json, k))
       <==> Settled(c, rebuilt.disk.manifest, Raw(s.disk), TickStart(rebuilt.disk.manifest), k)
  {
    hide RebuiltAndTicked, Raw, Sum, LiveQuantity, TickStart, RolledUp, FreshWeight, HoursExact, Positive, BucketFor,
      Fits;
    var m := rebuilt.disk.manifest;
    StartFacts(c, s, rebuilt, ticked, fromMs, toMs, now, target, metas);
    TickedQuantity(c, s, rebuilt, ticked, fromMs, toMs, now, target, metas, k);
    OffHourFresh(c, rebuilt.disk, TickStart(m), target, k);
    KeySplits(c.json, k, Raw(s.disk), TickStart(m));
  }

  /** A rebuild followed by a committing tick makes rollup = raw below the new watermark if and only if the tick
      starts on the hour, or every key is settled. */
  lemma RebuildRestoresIff(
    c: Config, s: State, rebuilt: State, ticked: State, fromMs: int, toMs: int, now: int, target: int,
    metas: seq<SegmentMeta>)
    requires RebuiltAndTicked(c, s, rebuilt, ticked, fromMs, toMs, now, target, metas)
    ensures var m := rebuilt.disk.manifest;
            RollupIsRaw(c, ticked.disk, target)
            <==> || Aligned(TickStart(m))
                 || forall k: RollupKey :: k.hourStartMs < target ==> Settled(c, m, Raw(s.disk), TickStart(m), k)
  {
    hide RebuiltAndTicked, Raw, Sum, LiveQuantity, TickStart, Settled;
    if Aligned(TickStart(rebuilt.disk.manifest)) {
      OnHourIsRaw(c, s, rebuilt, ticked, fromMs, toMs, now, target, metas);
    } else {
      forall k: RollupKey | k.hourStartMs < target
        ensures LiveQuantity(ticked.disk.manifest.rollupSegments, ticked.disk.rollups, k)
                == Sum(Raw(ticked.disk), OfKey(c.json, k))
           <==> Settled(c, rebuilt.disk.manifest, Raw(s.disk), TickStart(rebuilt.disk.manifest), k)
      {
        OffHourKeyIff(c, s, rebuilt, ticked, fromMs, toMs, now, target, metas, k);
      }
    }
  }

  /** The guard a caller can check: a rebuild from the start of an hour, or from at or above the watermark. */
  lemma AlignedStartRestores(
    c: Config, s: State, rebuilt: State, ticked: State, fromMs: int, toMs: int, now: int, target: int,
    metas: seq<SegmentMeta>)
    requires RebuiltAndTicked(c, s, rebuilt, ticked, fromMs, toMs, now, target, metas)
    requires Aligned(fromMs) || s.disk.manifest.hourlyRollupMs <= fromMs
    ensures RollupIsRaw(c, ticked.disk, target)
  {
    hide CoreInv, Raw, RollupIsRaw, Fits, TickCommitStep, SlotsExact, SealedCovered, PendingTimely, HourOf;
    StartAligned(rebuilt.disk.manifest);
    OnHourIsRaw(c, s, rebuilt, ticked, fromMs, toMs, now, target, metas);
  }

  // The usual call: a non-empty range below the watermark.

  /** For such a range off the hour, the keys are settled exactly when in the hour of `fromMs` what comes before it
      sums to zero, and in every later hour whose slot is kept, everything does. */
  lemma SettledIff(
    c: Config, s: State, rebuilt: State, ticked: State, fromMs: int, toMs: int, now: int, target: int,
    metas: seq<SegmentMeta>)
    requires RebuiltAndTicked(c, s, rebuilt, ticked, fromMs, toMs, now, target, metas)
    requires 0 < fromMs < s.disk.manifest.hourlyRollupMs && fromMs < toMs && !Aligned(fromMs)
    ensures var m, raw := rebuilt.disk.manifest, Raw(s.disk);
            (forall k: RollupKey :: k.hourStartMs < target ==> Settled(c, m, raw, TickStart(m), k))
            <==>
            && (forall k: RollupKey :: k.hourStartMs == HourOf(fromMs) ==>
                  Sum(raw, OfKeyBefore(c.json, k, fromMs)) == 0)
            && (forall k: RollupKey :: HourOf(fromMs) < k.hourStartMs < target
                                       && RolledUp(m, k.hourStartMs, BucketOfKey(c, m, k)) ==>
                  Sum(raw, OfKey(c.json, k)) == 0)
  {
    hide RebuiltAndTicked, Raw, Sum, Settled, RolledUp, BucketFor, OfKeyBefore, OfKey, HourOf, TickStart;
    StartFacts(c, s, rebuilt, ticked, fromMs, toMs, now, target, metas);
    assert TickStart(rebuilt.disk.manifest) == fromMs by {
      UsualStart(c, s, rebuilt, ticked, fromMs, toMs, now, target, metas);
    }
    assert HourOf(fromMs) < fromMs by { HourOfBounds(fromMs); }
    forall k: RollupKey ensures var m, raw := rebuilt.disk.manifest, Raw(s.disk);
                                Settled(c, m, raw, fromMs, k)
                                <==> if k.hourStartMs < HourOf(fromMs) then true
                                     else if k.hourStartMs
                                         == HourOf(fromMs) then Sum(raw, OfKeyBefore(c.json, k, fromMs)) == 0
                                     else RolledUp(m, k.hourStartMs, BucketOfKey(c, m, k)) ==>
                                         Sum(raw, OfKey(c.json, k)) == 0
    {
      SettledKey(c, s, rebuilt, ticked, fromMs, toMs, now, target, metas, k);
    }
  }

  lemma UsualStart(
    c: Config, s: State, rebuilt: State, ticked: State, fromMs: int, toMs: int, now: int, target: int,
    metas: seq<SegmentMeta>)
    requires RebuiltAndTicked(c, s, rebuilt, ticked, fromMs, toMs, now, target, metas)
    requires 0 < fromMs < s.disk.manifest.hourlyRollupMs
    ensures TickStart(rebuilt.disk.manifest) == fromMs
            && rebuilt.disk.manifest.bucketCount == s.disk.manifest.bucketCount
    ensures RollupInv(c, s.disk, None) && RebuildStep(s, rebuilt, fromMs, toMs)
  {
  }

  lemma SettledKey(
    c: Config, s: State, rebuilt: State, ticked: State, fromMs: int, toMs: int, now: int, target: int,
    metas: seq<SegmentMeta>, k: RollupKey)
    requires RebuiltAndTicked(c, s, rebuilt, ticked, fromMs, toMs, now, target, metas)
    requires 0 < fromMs < s.disk.manifest.hourlyRollupMs && fromMs < toMs && !Aligned(fromMs)
    ensures var m, raw := rebuilt.disk.manifest, Raw(s.disk);
            Settled(c, m, raw, fromMs, k)
            <==> if k.hourStartMs < HourOf(fromMs) then true
                 else if k.hourStartMs == HourOf(fromMs) then Sum(raw, OfKeyBefore(c.json, k, fromMs)) == 0
                 else RolledUp(m, k.hourStartMs, BucketOfKey(c, m, k)) ==> Sum(raw, OfKey(c.json, k)) == 0
  {
    hide RebuiltAndTicked, Raw, Sum, RolledUp, BucketFor, HourOf, RollupInv, Filter;
    var m, raw := rebuilt.disk.manifest, Raw(s.disk);
    StartFacts(c, s, rebuilt, ticked, fromMs, toMs, now, target, metas);
    UsualStart(c, s, rebuilt, ticked, fromMs, toMs, now, target, metas);
    HourOfBounds(fromMs);
    forall e | e in raw ensures 0 < e.timestampMs
        && HourOf(e.timestampMs) <= e.timestampMs < HourOf(e.timestampMs) + HOUR_MS
    {
      HourOfBounds(e.timestampMs);
    }
    if k.hourStartMs < HourOf(fromMs) {
      AnEarlierHour(c, s, rebuilt, fromMs, toMs, k);
    } else if k.hourStartMs == HourOf(fromMs) {
      StartHourDropped(c, s, rebuilt, fromMs, toMs, BucketOfKey(c, m, k));
    } else {
      LaterHour(c.json, raw, k, fromMs);
    }
  }

  lemma AnEarlierHour(c: Config, s: State, rebuilt: State, fromMs: int, toMs: int, k: RollupKey)
    requires RollupInv(c, s.disk, None) && Positive(Raw(s.disk)) && RebuildStep(s, rebuilt, fromMs, toMs)
    requires 0 < fromMs < s.disk.manifest.hourlyRollupMs && k.hourStartMs < HourOf(fromMs)
    ensures Settled(c, rebuilt.disk.manifest, Raw(s.disk), fromMs, k)
  {
    hide Raw, Sum, BucketFor, HourOf, Filter, RolledUp, SlotsExact, SlotsShaped, PendingTimely;
    var m, raw := rebuilt.disk.manifest, Raw(s.disk);
    HourOfBounds(fromMs);
    forall e | e in raw && KeyFor(c.json, e) == k
      ensures e.timestampMs < fromMs && RolledUp(m, k.hourStartMs, BucketOfKey(c, m, k))
    {
      HourOfBounds(e.timestampMs);
      HourOfAligned(e.timestampMs);
      AlignedGap(k.hourStartMs, HourOf(fromMs));
      assert RolledUp(s.disk.manifest, HourOf(e.timestampMs), BucketOf(c, s.disk.manifest, e));
      KeptBelow(s.disk, m, fromMs, toMs, k.hourStartMs, BucketOfKey(c, m, k));
    }
    if RolledUp(m, k.hourStartMs, BucketOfKey(c, m, k)) {
      SumZero(raw, OfKeyFrom(c.json, k, fromMs));
    } else {
      SumZero(raw, OfKeyBefore(c.json, k, fromMs));
    }
  }

  lemma StartHourDropped(c: Config, s: State, rebuilt: State, fromMs: int, toMs: int, bucket: nat)
    requires RollupInv(c, s.disk, None) && RebuildStep(s, rebuilt, fromMs, toMs) && 0 < fromMs < toMs
    ensures !RolledUp(rebuilt.disk.manifest, HourOf(fromMs), bucket)
  {
    hide Raw, Filter, SlotsExact, SealedCovered, PendingTimely, HourOf, UniqueSlots;
    HourOfBounds(fromMs);
    var segs := rebuilt.disk.manifest.rollupSegments;
    forall i | 0 <= i < |segs| ensures segs[i].minTimestampMs != HourOf(fromMs) {
      assert segs[i] in segs;
      FilterMember(s.disk.manifest.rollupSegments, KeptByRebuild(fromMs, toMs), segs[i]);
      assert SegShape(segs[i], s.disk.rollups);
    }
  }

  lemma LaterHour(j: Json, raw: multiset<UsageEvent>, k: RollupKey, fromMs: int)
    requires Positive(raw) && 0 < fromMs && HourOf(fromMs) < k.hourStartMs
    ensures Sum(raw, OfKeyBefore(j, k, fromMs)) == 0 && Sum(raw, OfKeyFrom(j, k, fromMs)) == Sum(raw, OfKey(j, k))
  {
    hide Sum, HourOf;
    forall e | e in raw ensures KeyFor(j, e) == k ==> fromMs <= e.timestampMs {
      HourOfBounds(e.timestampMs);
      if e.timestampMs < fromMs { HourOfMonotone(e.timestampMs, fromMs); }
    }
    SumZero(raw, OfKeyBefore(j, k, fromMs));
    KeySplits(j, k, raw, fromMs);
  }

  // The tick after that.

  /** The last window of the first tick reaches past its target; the second tick starts at the target. */
  ghost predicate TickedAgain(
    c: Config, ticked: State, again: State, now2: int, target2: int, metas2: seq<SegmentMeta>)
  {
    ticked.clock <= now2 && TickCommitStep(c, ticked, again, now2, target2, metas2)
  }

  /** What the second tick adds for `k`. */
  lemma SecondTickAdds(
    c: Config, s: State, rebuilt: State, ticked: State, again: State, fromMs: int, toMs: int, now: int, target: int,
    metas: seq<SegmentMeta>, now2: int, target2: int, metas2: seq<SegmentMeta>, k: RollupKey)
    requires RebuiltAndTicked(c, s, rebuilt, ticked, fromMs, toMs, now, target, metas)
    requires TickedAgain(c, ticked, again, now2, target2, metas2) && !Aligned(TickStart(rebuilt.disk.manifest))
    requires k.hourStartMs < target2
    ensures LiveQuantity(again.disk.manifest.rollupSegments, again.disk.rollups, k)
         == LiveQuantity(ticked.disk.manifest.rollupSegments, ticked.disk.rollups, k)
            + if target <= k.hourStartMs
                && !RolledUp(rebuilt.disk.manifest, k.hourStartMs, BucketOfKey(c, rebuilt.disk.manifest, k))
              then Sum(Raw(s.disk), OfKey(c.json, k)) else 0
    ensures Raw(again.disk) == Raw(s.disk)
  {
    hide CoreInv, RollupInv, AllEvents, Sum, LiveQuantity, Fits, BucketFor, HourOf, RolledUp, WindowOf, WindowsEnd,
      TickStart, NewRollups, IsTickTarget, FreshListing, HoursExact, FlushInFlight, NeedsForceDrain;
    var m, m2, raw := rebuilt.disk.manifest, ticked.disk.manifest, Raw(s.disk);
    var start2 := TickStart(m2);
    StartFacts(c, s, rebuilt, ticked, fromMs, toMs, now, target, metas);
    NewFilesThere(c, rebuilt, ticked, now, target, metas);
    TickAdds(c, ticked, again, now2, target2, metas2, k);
    TargetAligned(c, ticked, now2, target2);
    SecondStart(c, s, rebuilt, ticked, fromMs, toMs, now, target, metas);
    var counted := target <= k.hourStartMs && !RolledUp(m, k.hourStartMs, BucketOfKey(c, m, k));
    forall e | e in raw
      ensures FreshWeight(c, m2, start2, target2, k)(e) == if counted then OfKey(c.json, k)(e) else 0
    {
      SecondTickEvent(c, s, rebuilt, ticked, fromMs, toMs, now, target, metas, target2, e);
    }
    if counted {
      SumEqual(raw, FreshWeight(c, m2, start2, target2, k), OfKey(c.json, k));
    } else {
      SumZero(raw, FreshWeight(c, m2, start2, target2, k));
    }
  }

  lemma NewFilesThere(c: Config, s: State, s': State, now: int, target: int, metas: seq<SegmentMeta>)
    requires TickCommitStep(c, s, s', now, target, metas)
    requires forall seg :: seg in s.disk.manifest.rollupSegments ==> seg.segmentId in s.disk.rollups
    ensures forall seg :: seg in s'.disk.manifest.rollupSegments ==> seg.segmentId in s'.disk.rollups
  {
    hide RollsUp, RollupMetaOf, IsTickTarget, TickStart, AllEvents, IsWindow, RolledUp, FlushInFlight, NeedsForceDrain;
    forall seg | seg in s'.disk.manifest.rollupSegments ensures seg.segmentId in s'.disk.rollups {
      if seg !in s.disk.manifest.rollupSegments {
        assert seg in metas && NewRollup(c, s.disk.manifest, RawSeq(s.disk), TickStart(s.disk.manifest), seg,
                                         s'.disk.rollups);
      }
    }
  }

  /** The second tick starts on the hour, at the first raw event from the target on or before. */
  lemma SecondStart(
    c: Config, s: State, rebuilt: State, ticked: State, fromMs: int, toMs: int, now: int, target: int,
    metas: seq<SegmentMeta>)
    requires RebuiltAndTicked(c, s, rebuilt, ticked, fromMs, toMs, now, target, metas)
    ensures Aligned(TickStart(ticked.disk.manifest)) && target <= TickStart(ticked.disk.manifest)
    ensures forall e :: e in Raw(s.disk) && target <= HourOf(e.timestampMs) ==>
              TickStart(ticked.disk.manifest) <= HourOf(e.timestampMs)
  {
    hide RebuiltAndTicked, Raw, HourOf, TickStart, CoreInv, Positive, HoursExact, Fits;
    StartFacts(c, s, rebuilt, ticked, fromMs, toMs, now, target, metas);
    var m2 := ticked.disk.manifest;
    StartAligned(m2);
    assert CoreInv(c, ticked) by { StaysCore(c, s, rebuilt, ticked, fromMs, toMs, now, target, metas); }
    StartAtLeast(c, ticked);
    forall e | e in Raw(s.disk) && target <= HourOf(e.timestampMs) ensures TickStart(m2) <= HourOf(e.timestampMs) {
      CoreListed(c, ticked);
      TickStartsEarlyEnough(c, ticked.disk, e);
    }
  }

  lemma StaysCore(
    c: Config, s: State, rebuilt: State, ticked: State, fromMs: int, toMs: int, now: int, target: int,
    metas: seq<SegmentMeta>)
    requires RebuiltAndTicked(c, s, rebuilt, ticked, fromMs, toMs, now, target, metas)
    ensures CoreInv(c, rebuilt) && CoreInv(c, ticked)
  {
    hide CoreInv, RollupInv, Raw, Fits, TickCommitStep, Filter;
    StepConserves(c, s, Rebuild(fromMs, toMs), rebuilt);
    TickConserves(c, rebuilt, ticked, now, target, metas);
  }

  lemma StartAtLeast(c: Config, s: State)
    requires CoreInv(c, s)
    ensures s.disk.manifest.hourlyRollupMs <= TickStart(s.disk.manifest)
  {
    hide CatalogOk, Ledger, Positive, Coupled, HourOf, EarliestMin;
    var m := s.disk.manifest;
    if m.hourlyRollupMs == 0 && m.rawSegments != [] {
      EarliestNonNegative(c, s.disk);
      HourOfMonotone(0, EarliestMin(m.rawSegments));
      HourOfBounds(0);
    }
  }

  lemma CoreListed(c: Config, s: State)
    requires CoreInv(c, s)
    ensures RawListed(c, s.disk) && Positive(Raw(s.disk))
  {
    hide Ledger, Coupled, Raw;
    RawPositive(s.disk);
  }

  /** For the second tick an event's slot is its hour, and only slots kept by the rebuild are already there. */
  lemma SecondTickEvent(
    c: Config, s: State, rebuilt: State, ticked: State, fromMs: int, toMs: int, now: int, target: int,
    metas: seq<SegmentMeta>, target2: int, e: UsageEvent)
    requires RebuiltAndTicked(c, s, rebuilt, ticked, fromMs, toMs, now, target, metas) && e in Raw(s.disk)
    requires !Aligned(TickStart(rebuilt.disk.manifest)) && Aligned(target2)
    ensures var m, m2 := rebuilt.disk.manifest, ticked.disk.manifest;
            var start2, hour := TickStart(m2), HourOf(e.timestampMs);
            && (start2 <= e.timestampMs <==> target <= hour)
            && (e.timestampMs < WindowsEnd(start2, target2) <==> hour < target2)
            && (RolledUp(m2, WindowOf(start2, e.timestampMs), BucketOf(c, m2, e))
                <==> RolledUp(m, hour, BucketOf(c, m, e)))
  {
    hide RebuiltAndTicked, Raw, HourOf, TickStart, CoreInv, HoursExact, Fits, RolledUp, BucketFor, WindowOf, WindowsEnd;
    var m, m2 := rebuilt.disk.manifest, ticked.disk.manifest;
    var start2, hour := TickStart(m2), HourOf(e.timestampMs);
    StartFacts(c, s, rebuilt, ticked, fromMs, toMs, now, target, metas);
    SecondStart(c, s, rebuilt, ticked, fromMs, toMs, now, target, metas);
    HourOfBounds(e.timestampMs);
    BeforeEnd(start2, target2, e.timestampMs);
    WindowIsHour(start2, e.timestampMs);
    if start2 <= e.timestampMs { AtOrBeforeHour(start2, hour, e.timestampMs); }
    OldSlotsOnly(c, rebuilt, ticked, fromMs, toMs, now, target, metas, s, hour, BucketOf(c, m, e));
  }

  lemma AtOrBeforeHour(start: int, hour: int, ts: int)
    requires Aligned(start) && Aligned(hour) && start <= ts < hour + HOUR_MS
    ensures start <= hour
  {
    if hour < start { AlignedGap(hour, start); }
  }

  lemma OldSlotsOnly(
    c: Config, rebuilt: State, ticked: State, fromMs: int, toMs: int, now: int, target: int, metas: seq<SegmentMeta>,
    s: State, hour: int, bucket: nat)
    requires RebuiltAndTicked(c, s, rebuilt, ticked, fromMs, toMs, now, target, metas)
    requires !Aligned(TickStart(rebuilt.disk.manifest)) && Aligned(hour)
    ensures RolledUp(ticked.disk.manifest, hour, bucket) <==> RolledUp(rebuilt.disk.manifest, hour, bucket)
    ensures ticked.disk.manifest.bucketCount == rebuilt.disk.manifest.bucketCount
  {
    hide CoreInv, RollupInv, Raw, AllEvents, RollsUp, RollupMetaOf, IsTickTarget, TickStart, RolledUp, Fits, Filter,
      FlushInFlight, NeedsForceDrain, FreshListing;
    var m, start := rebuilt.disk.manifest, TickStart(rebuilt.disk.manifest);
    RolledUpAfterTick(m, ticked.disk.manifest, metas, hour, bucket);
    forall seg | seg in metas ensures seg.minTimestampMs != hour {
      assert NewRollup(c, m, RawSeq(rebuilt.disk), start, seg, ticked.disk.rollups);
      if seg.minTimestampMs == hour { OppositeMultiple(hour - start); OnTheHour(start, hour); }
    }
  }

  /** After the second tick, off the hour: the hours below the first target are as after the first tick, and in the
      hours from there on everything before the end of the first tick's windows is counted twice. */
  lemma AgainQuantity(
    c: Config, s: State, rebuilt: State, ticked: State, again: State, fromMs: int, toMs: int, now: int, target: int,
    metas: seq<SegmentMeta>, now2: int, target2: int, metas2: seq<SegmentMeta>, k: RollupKey)
    requires RebuiltAndTicked(c, s, rebuilt, ticked, fromMs, toMs, now, target, metas)
    requires TickedAgain(c, ticked, again, now2, target2, metas2) && !Aligned(TickStart(rebuilt.disk.manifest))
    requires target <= k.hourStartMs < target2
    ensures var end := WindowsEnd(TickStart(rebuilt.disk.manifest), target);
            LiveQuantity(again.disk.manifest.rollupSegments, again.disk.rollups, k)
            == Sum(Raw(s.disk), OfKey(c.json, k)) + Sum(Raw(s.disk), OfKeyBefore(c.json, k, end))
  {
    hide RebuiltAndTicked, TickedAgain, Raw, Sum, LiveQuantity, TickStart, RolledUp, HoursExact, Positive, BucketFor,
      Fits, FreshWeight, WindowsEnd;
    StartFacts(c, s, rebuilt, ticked, fromMs, toMs, now, target, metas);
    TickedQuantity(c, s, rebuilt, ticked, fromMs, toMs, now, target, metas, k);
    SecondTickAdds(c, s, rebuilt, ticked, again, fromMs, toMs, now, target, metas, now2, target2, metas2, k);
    OverrunFresh(c, rebuilt.disk, TickStart(rebuilt.disk.manifest), target, k);
  }

  lemma OverrunFresh(c: Config, d: Disk, start: int, target: int, k: RollupKey)
    requires HoursExact(c, d) && !Aligned(start) && Positive(Raw(d)) && start < target <= k.hourStartMs
    ensures Sum(Raw(d), FreshWeight(c, d.manifest, start, target, k))
         == Sum(Raw(d), OfKeyBefore(c.json, k, WindowsEnd(start, target)))
  {
    hide Raw, Sum, HoursExact, BucketFor, WindowOf, WindowsEnd, RolledUp, HourOf;
    var end := WindowsEnd(start, target);
    forall e | e in Raw(d) ensures FreshWeight(c, d.manifest, start, target, k)(e) == OfKeyBefore(c.json, k, end)(e) {
      OffHourSlot(c, d, start, e);
      HourOfBounds(e.timestampMs);
    }
    SumEqual(Raw(d), FreshWeight(c, d.manifest, start, target, k), OfKeyBefore(c.json, k, end));
  }

  /** After a rebuild and two committing ticks, rollup = raw below the last watermark if and only if the first tick
      starts on the hour; or every key below the first target is settled, and what the first tick rolled up past its
      target sums to zero under every key. */
  lemma TwoTicksRestoreIff(
    c: Config, s: State, rebuilt: State, ticked: State, again: State, fromMs: int, toMs: int, now: int, target: int,
    metas: seq<SegmentMeta>, now2: int, target2: int, metas2: seq<SegmentMeta>)
    requires RebuiltAndTicked(c, s, rebuilt, ticked, fromMs, toMs, now, target, metas)
    requires TickedAgain(c, ticked, again, now2, target2, metas2)
    ensures var m, raw := rebuilt.disk.manifest, Raw(s.disk);
            var end := WindowsEnd(TickStart(m), target);
            RollupIsRaw(c, again.disk, target2)
            <==> || Aligned(TickStart(m))
                 || ((forall k: RollupKey :: k.hourStartMs < target ==> Settled(c, m, raw, TickStart(m), k))
                     && (forall k: RollupKey :: target <= k.hourStartMs < target2 ==>
                           Sum(raw, OfKeyBefore(c.json, k, end)) == 0))
  {
    hide RebuiltAndTicked, TickedAgain, Raw, Sum, LiveQuantity, TickStart, Settled, WindowsEnd, RolledUp, BucketFor;
    var m, raw := rebuilt.disk.manifest, Raw(s.disk);
    var end := WindowsEnd(TickStart(m), target);
    StartFacts(c, s, rebuilt, ticked, fromMs, toMs, now, target, metas);
    assert target < target2 by {
      LaterTarget(c, s, rebuilt, ticked, again, fromMs, toMs, now, target, metas, now2, target2, metas2);
    }
    if Aligned(TickStart(m)) {
      OnHourStaysRaw(c, s, rebuilt, ticked, again, fromMs, toMs, now, target, metas, now2, target2, metas2);
    } else {
      forall k: RollupKey | k.hourStartMs < target2
        ensures LiveQuantity(again.disk.manifest.rollupSegments, again.disk.rollups, k)
                == Sum(Raw(again.disk), OfKey(c.json, k))
           <==> if k.hourStartMs < target then Settled(c, m, raw, TickStart(m), k)
                else Sum(raw, OfKeyBefore(c.json, k, end)) == 0
      {
        SecondTickAdds(c, s, rebuilt, ticked, again, fromMs, toMs, now, target, metas, now2, target2, metas2, k);
        if k.hourStartMs < target {
          OffHourKeyIff(c, s, rebuilt, ticked, fromMs, toMs, now, target, metas, k);
        } else {
          AgainQuantity(c, s, rebuilt, ticked, again, fromMs, toMs, now, target, metas, now2, target2, metas2, k);
        }
      }
    }
  }

  lemma LaterTarget(
    c: Config, s: State, rebuilt: State, ticked: State, again: State, fromMs: int, toMs: int, now: int, target: int,
    metas: seq<SegmentMeta>, now2: int, target2: int, metas2: seq<SegmentMeta>)
    requires RebuiltAndTicked(c, s, rebuilt, ticked, fromMs, toMs, now, target, metas)
    requires TickedAgain(c, ticked, again, now2, target2, metas2)
    ensures target < target2
  {
    hide RebuiltAndTicked, TickStart, NewRollups, IsTickTarget, RawSeq;
    SecondStart(c, s, rebuilt, ticked, fromMs, toMs, now, target, metas);
  }

  lemma OnHourStaysRaw(
    c: Config, s: State, rebuilt: State, ticked: State, again: State, fromMs: int, toMs: int, now: int, target: int,
    metas: seq<SegmentMeta>, now2: int, target2: int, metas2: seq<SegmentMeta>)
    requires RebuiltAndTicked(c, s, rebuilt, ticked, fromMs, toMs, now, target, metas)
    requires TickedAgain(c, ticked, again, now2, target2, metas2) && Aligned(TickStart(rebuilt.disk.manifest))
    ensures RollupIsRaw(c, again.disk, target2)
  {
    hide RebuiltAndTicked, CoreInv, RollupInv, Raw, Sum, Fits, NewRollups, IsTickTarget, TickStart, QuantityOf,
      LiveRecords;
    StartFacts(c, s, rebuilt, ticked, fromMs, toMs, now, target, metas);
    OnHourIsRaw(c, s, rebuilt, ticked, fromMs, toMs, now, target, metas);
    TickKeepsRollup(c, ticked, again, now2, target2, metas2, None);
    forall k: RollupKey | k.hourStartMs < target2
      ensures LiveQuantity(again.disk.manifest.rollupSegments, again.disk.rollups, k)
              == Sum(Raw(again.disk), OfKey(c.json, k))
    {
      RollupsSumToRaw(c, again.disk, k);
    }
  }
}
