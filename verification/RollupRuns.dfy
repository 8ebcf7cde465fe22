/** The rollup invariant over whole runs, watermark safety, and repair after late events. */
module RollupRuns {
  import opened Model
  import opened Sums
  import opened Wals
  import opened Memtables
  import opened Manifests
  import opened Ingest
  import opened Sorting
  import Segments
  import opened Query
  import opened Rollup
  import opened Engine
  import opened Durability
  import opened Catalog
  import opened Runs
  import opened RollupSafety

  /** No accepted event below `lim` is late, a rebuild rewinds the watermark to an hour if at all, and a
      tick's sums fit. */
  ghost predicate Timely(c: Config, s: State, step: Step, lim: Option<int>)
  {
    match step
    case Rebuild(fromMs, _) => Aligned(fromMs) || s.disk.manifest.hourlyRollupMs <= fromMs
    case Tick(_) => Fits(Raw(s.disk))
    case _ => forall e :: e in Added(c, s, step) && Below(lim, HourOf(e.timestampMs)) ==> !Late(c, s.disk.manifest, e)
  }

  /** The part of the disk that rollups are about, apart from the events. */
  ghost predicate RollupsUntouched(d: Disk, d': Disk)
  {
    && d'.manifest.rollupSegments == d.manifest.rollupSegments
    && d'.manifest.hourlyRollupMs == d.manifest.hourlyRollupMs
    && d'.manifest.bucketCount == d.manifest.bucketCount
    && forall id :: id in d.rollups ==> id in d'.rollups && d'.rollups[id] == d.rollups[id]
  }

  lemma MostStepsLeaveRollups(c: Config, s: State, step: Step, s': State)
    requires Next(c, s, step, s') && !step.Rebuild?
    requires step.Tick? ==> !exists target, metas :: TickCommitStep(c, s, s', step.now, target, metas)
    ensures RollupsUntouched(s.disk, s'.disk)
    ensures step.CommitFlush? ==> s.Up? && s.mem.inflight != [] && s'.disk.rollups == s.disk.rollups
  {
    hide TickCommitStep, FlushedAs, FreshListing, TriageBatch, Accepted, SortAndDedupe, CompactionPlan, NeedsForceDrain,
      IsTickTarget;
  }

  lemma StepKeepsRollup(c: Config, s: State, step: Step, s': State, lim: Option<int>)
    requires CoreInv(c, s) && RollupInv(c, s.disk, lim)
    requires Next(c, s, step, s') && Careful(c, s, step) && Timely(c, s, step, lim)
    ensures RollupInv(c, s'.disk, lim)
  {
    hide Next, CatalogOk, Coupled, Positive, Raw, Unsealed, RollupInv, TickCommitStep, RollupsUntouched, Added, Careful,
      Timely;
    StepChangesRaw(c, s, step, s');
    StepKeepsCoupling(c, s, step, s');
    if step.Rebuild? {
      RebuildIs(c, s, step, s', lim);
      assert Aligned(s.disk.manifest.hourlyRollupMs) by { WatermarkAligned(c, s.disk, lim); }
      RebuildKeepsRollup(c, s, s', step.fromMs, step.toMs, lim);
    } else if step.Tick? && exists target, metas :: TickCommitStep(c, s, s', step.now, target, metas) {
      var target, metas :| TickCommitStep(c, s, s', step.now, target, metas);
      TickFits(c, s, step, lim);
      TickKeepsRollup(c, s, s', step.now, target, metas, lim);
    } else {
      MostStepsLeaveRollups(c, s, step, s');
      if step.CommitFlush? {
        MovedToRaw(c, s.disk, s'.disk, s.mem.inflight[0].events, lim);
      } else {
        PendingExtended(c, s, step, s'.disk, lim);
      }
    }
  }

  lemma RebuildIs(c: Config, s: State, step: Step, s': State, lim: Option<int>)
    requires Next(c, s, step, s') && step.Rebuild? && Timely(c, s, step, lim)
    ensures RebuildStep(s, s', step.fromMs, step.toMs)
    ensures Aligned(s.disk.manifest.hourlyRollupMs) ==> Aligned(s'.disk.manifest.hourlyRollupMs)
  {
  }

  lemma WatermarkAligned(c: Config, d: Disk, lim: Option<int>)
    requires RollupInv(c, d, lim)
    ensures Aligned(d.manifest.hourlyRollupMs)
  {
  }

  lemma MovedToRaw(c: Config, d: Disk, d': Disk, moved: seq<UsageEvent>, lim: Option<int>)
    requires RollupInv(c, d, lim) && RollupsUntouched(d, d') && d'.rollups == d.rollups
    requires Raw(d') == Raw(d) + multiset(moved) && Unsealed(d) == moved + Unsealed(d')
    ensures RollupInv(c, d', lim)
  {
    hide RollupInv, Raw, Unsealed;
    FlushKeepsRollup(c, d, d', multiset(moved), lim);
  }

  lemma PendingExtended(c: Config, s: State, step: Step, d': Disk, lim: Option<int>)
    requires RollupInv(c, s.disk, lim) && RollupsUntouched(s.disk, d') && Timely(c, s, step, lim) && !step.Rebuild?
    requires Raw(d') == Raw(s.disk) + multiset{} && Unsealed(d') == Unsealed(s.disk) + Added(c, s, step)
    ensures RollupInv(c, d', lim)
  {
    hide RollupInv, Raw, Unsealed, Added, Late;
    if step.Tick? { OnlyIngestAdds(c, s, step); }
    forall e | e in Pending(d') && Below(lim, HourOf(e.timestampMs)) && e !in Pending(s.disk)
      ensures !Late(c, s.disk.manifest, e)
    {
      assert e in Unsealed(d');
      assert e in Unsealed(s.disk) || e in Added(c, s, step);
      assert e in Unsealed(s.disk) ==> e in Pending(s.disk);
    }
    RollupFrame(c, s.disk, d', lim);
  }

  lemma TickFits(c: Config, s: State, step: Step, lim: Option<int>)
    requires step.Tick? && Timely(c, s, step, lim)
    ensures Fits(Raw(s.disk))
  {
  }

  ghost predicate TimelyRun(c: Config, states: seq<State>, steps: seq<Step>, lim: Option<int>)
    requires |states| == |steps| + 1
  {
    forall i :: 0 <= i < |steps| ==> Timely(c, states[i], steps[i], lim)
  }

  /** The events are accounted for, and the rollups below `lim` are exact. */
  ghost predicate EngineInv(c: Config, s: State, lim: Option<int>)
  {
    CoreInv(c, s) && RollupInv(c, s.disk, lim)
  }

  lemma InitialIsEngine(c: Config, s: State, lim: Option<int>)
    requires Initial(s)
    ensures EngineInv(c, s, lim)
  {
    hide CoreInv, Ledger;
    InitialIsSound(c, s);
    assert forall e :: e in Pending(s.disk) ==> e in Ledger(s.disk) by { LedgerParts(s.disk); }
  }

  lemma LedgerParts(d: Disk)
    ensures forall e :: e in Pending(d) ==> e in Ledger(d)
    ensures forall e :: e in Raw(d) ==> e in Ledger(d)
  {
    hide Raw, Pending;
  }

  lemma TimelyAt(c: Config, states: seq<State>, steps: seq<Step>, lim: Option<int>, n: nat)
    requires Run(c, states, steps) && CarefulRun(c, states, steps) && TimelyRun(c, states, steps, lim) && n < |steps|
    ensures Next(c, states[n], steps[n], states[n + 1])
    ensures Careful(c, states[n], steps[n]) && Timely(c, states[n], steps[n], lim)
  {
    hide Careful, Timely;
  }

  /** In every state of every such run, rollups below `lim` are exact, whatever the mix of ingest,
      drain, flush, tick, compaction, rebuild, crash and recovery. */
  lemma {:induction false} RunKeepsEngine(c: Config, states: seq<State>, steps: seq<Step>, lim: Option<int>, n: nat)
    requires Run(c, states, steps) && CarefulRun(c, states, steps) && TimelyRun(c, states, steps, lim) && n <= |steps|
    requires EngineInv(c, states[0], lim)
    ensures EngineInv(c, states[n], lim)
    decreases n
  {
    hide Next, CoreInv, RollupInv, Run, CarefulRun, TimelyRun, Careful, Timely;
    assert |states| == |steps| + 1 by { RunLength(c, states, steps); }
    if n > 0 {
      RunKeepsEngine(c, states, steps, lim, n - 1);
      TimelyAt(c, states, steps, lim, n - 1);
      StepConserves(c, states[n - 1], steps[n - 1], states[n]);
      StepKeepsRollup(c, states[n - 1], steps[n - 1], states[n], lim);
    }
  }

  // What the invariant says about sums.

  ghost function LiveRecords(segs: seq<SegmentMeta>, rollups: RollupFiles): seq<RollupRecord>
  {
    if segs == [] then []
    else
      var last := segs[|segs| - 1];
      LiveRecords(segs[..|segs| - 1], rollups) + if last.segmentId in rollups then rollups[last.segmentId] else []
  }

  /** Where a live record comes from. */
  lemma {:induction false} LiveRecordSource(segs: seq<SegmentMeta>, rollups: RollupFiles, r: RollupRecord)
    ensures r in LiveRecords(segs, rollups) <==>
            exists seg :: seg in segs && seg.segmentId in rollups && r in rollups[seg.segmentId]
    decreases |segs|
  {
    if segs != [] {
      var front, last := segs[..|segs| - 1], segs[|segs| - 1];
      LiveRecordSource(front, rollups, r);
      assert segs == front + [last];
      assert forall x :: x in segs <==> x in front || x == last;
    }
  }

  /** Each segment's records carry its own hour and bucket. */
  ghost predicate Slotted(c: Config, m: Manifest, seg: SegmentMeta, rollups: RollupFiles)
  {
    && seg.segmentId in rollups && DistinctKeys(rollups[seg.segmentId])
    && forall r :: r in rollups[seg.segmentId] ==>
         r.key.hourStartMs == seg.minTimestampMs && BucketFor(c.hashing, r.key.accountId, Buckets(m)) == seg.bucket
  }

  /** Slots are disjoint, so live records have distinct keys. */
  lemma {:induction false} LiveKeysDistinct(c: Config, m: Manifest, segs: seq<SegmentMeta>, rollups: RollupFiles)
    requires UniqueSlots(segs) && forall seg :: seg in segs ==> Slotted(c, m, seg, rollups)
    ensures DistinctKeys(LiveRecords(segs, rollups))
    decreases |segs|
  {
    hide BucketFor;
    if segs != [] {
      var front, last := segs[..|segs| - 1], segs[|segs| - 1];
      assert forall x :: x in front ==> x in segs;
      LiveKeysDistinct(c, m, front, rollups);
      assert last in segs && Slotted(c, m, last, rollups);
      var a, b := LiveRecords(front, rollups), rollups[last.segmentId];
      forall i, j | 0 <= i < |a| && 0 <= j < |b| ensures a[i].key != b[j].key {
        LiveRecordSource(front, rollups, a[i]);
        var seg :| seg in front && seg.segmentId in rollups && a[i] in rollups[seg.segmentId];
        assert Slotted(c, m, seg, rollups);
        var k :| 0 <= k < |front| && front[k] == seg;
        assert segs[k] == seg;
        assert b[j] in b;
      }
      KeysAppend(a, b);
    }
  }

  lemma KeysAppend(a: seq<RollupRecord>, b: seq<RollupRecord>)
    requires DistinctKeys(a) && DistinctKeys(b)
    requires forall i, j :: 0 <= i < |a| && 0 <= j < |b| ==> a[i].key != b[j].key
    ensures DistinctKeys(a + b)
  {
  }

  ghost function QuantityOf(rs: seq<RollupRecord>, k: RollupKey): int
  {
    if rs == [] then 0
    else QuantityOf(rs[..|rs| - 1], k) + if rs[|rs| - 1].key == k then rs[|rs| - 1].quantitySum else 0
  }

  lemma {:induction false} QuantityOfDistinct(rs: seq<RollupRecord>, k: RollupKey)
    requires DistinctKeys(rs)
    ensures k !in RecordKeys(rs) ==> QuantityOf(rs, k) == 0
    ensures forall r :: r in rs && r.key == k ==> QuantityOf(rs, k) == r.quantitySum
    decreases |rs|
  {
    if rs != [] {
      var front, last := rs[..|rs| - 1], rs[|rs| - 1];
      QuantityOfDistinct(front, k);
      RecordKeysSnoc(rs);
      assert forall r :: r in rs ==> r in front || r == last;
      assert forall r :: r in front ==> r.key in RecordKeys(front);
    }
  }

  lemma InvSlotted(c: Config, d: Disk)
    requires RollupInv(c, d, None)
    ensures forall seg :: seg in d.manifest.rollupSegments ==>
              Slotted(c, d.manifest, seg, d.rollups)
              && SlotExact(c, d.manifest, Raw(d), seg.minTimestampMs, seg.bucket, d.rollups[seg.segmentId])
  {
    hide Raw, Summarizes, BucketFor;
    forall seg | seg in d.manifest.rollupSegments
      ensures Slotted(c, d.manifest, seg, d.rollups)
      ensures SlotExact(c, d.manifest, Raw(d), seg.minTimestampMs, seg.bucket, d.rollups[seg.segmentId])
    {
      assert SegShape(seg, d.rollups);
    }
  }

  /** A raw event below the watermark has a live record of its key, in the slot of its hour and
      bucket. */
  lemma RecordForEvent(c: Config, d: Disk, e: UsageEvent) returns (seg: SegmentMeta, r: RollupRecord)
    requires RollupInv(c, d, None) && e in Raw(d) && HourOf(e.timestampMs) < d.manifest.hourlyRollupMs
    ensures seg in d.manifest.rollupSegments && seg.minTimestampMs == HourOf(e.timestampMs)
    ensures seg.bucket == BucketOf(c, d.manifest, e)
    ensures seg.segmentId in d.rollups && r in d.rollups[seg.segmentId] && r.key == KeyFor(c.json, e)
  {
    hide Raw, Summarizes, BucketFor, HourOf;
    InvSlotted(c, d);
    assert RolledUp(d.manifest, HourOf(e.timestampMs), BucketOf(c, d.manifest, e));
    var i :| 0 <= i < |d.manifest.rollupSegments|
           && d.manifest.rollupSegments[i].minTimestampMs == HourOf(e.timestampMs)
           && d.manifest.rollupSegments[i].bucket == BucketOf(c, d.manifest, e);
    seg := d.manifest.rollupSegments[i];
    assert seg in d.manifest.rollupSegments && Slotted(c, d.manifest, seg, d.rollups);
    var records := d.rollups[seg.segmentId];
    assert KeyFor(c.json, e) in RecordKeys(records);
    var k :| 0 <= k < |records| && records[k].key == KeyFor(c.json, e);
    r := records[k];
  }

  /** The headline: for every key whose hour is below the watermark, the live rollup records of that
      key sum to exactly the raw events of that key. */
  lemma RollupsSumToRaw(c: Config, d: Disk, k: RollupKey)
    requires RollupInv(c, d, None) && k.hourStartMs < d.manifest.hourlyRollupMs
    ensures QuantityOf(LiveRecords(d.manifest.rollupSegments, d.rollups), k) == Sum(Raw(d), OfKey(c.json, k))
  {
    hide Raw, Sum, BucketFor, LiveRecords, QuantityOf, SlotExact, Slotted;
    var rs := LiveRecords(d.manifest.rollupSegments, d.rollups);
    InvSlotted(c, d);
    LiveKeysDistinct(c, d.manifest, d.manifest.rollupSegments, d.rollups);
    QuantityOfDistinct(rs, k);
    if HasKey(c.json, k, Raw(d)) {
      var e :| e in Raw(d) && KeyFor(c.json, e) == k;
      var seg, r := RecordForEvent(c, d, e);
      LiveRecordSource(d.manifest.rollupSegments, d.rollups, r);
      LiveIsExact(c, d, r);
    } else {
      SumZero(Raw(d), OfKey(c.json, k));
      forall i | 0 <= i < |rs| ensures rs[i].key != k {
        assert rs[i] in rs;
        LiveIsExact(c, d, rs[i]);
      }
    }
  }

  lemma LiveIsExact(c: Config, d: Disk, r: RollupRecord)
    requires RollupInv(c, d, None) && r in LiveRecords(d.manifest.rollupSegments, d.rollups)
    ensures Summarizes(c.json, r, Raw(d)) && HasKey(c.json, r.key, Raw(d))
  {
    hide Raw, Sum, BucketFor, LiveRecords, KeyFor;
    InvSlotted(c, d);
    LiveRecordSource(d.manifest.rollupSegments, d.rollups, r);
    var seg :| seg in d.manifest.rollupSegments && seg.segmentId in d.rollups && r in d.rollups[seg.segmentId];
    assert SlotExact(c, d.manifest, Raw(d), seg.minTimestampMs, seg.bucket, d.rollups[seg.segmentId]);
  }

  /** Rollup exactness over runs from an empty database, of any length. */
  lemma RunRollupsExact(c: Config, states: seq<State>, steps: seq<Step>, n: nat, k: RollupKey)
    requires Run(c, states, steps) && CarefulRun(c, states, steps) && TimelyRun(c, states, steps, None)
             && Initial(states[0]) && n <= |steps|
    requires k.hourStartMs < states[n].disk.manifest.hourlyRollupMs
    ensures QuantityOf(LiveRecords(states[n].disk.manifest.rollupSegments, states[n].disk.rollups), k)
         == Sum(Raw(states[n].disk), OfKey(c.json, k))
  {
    hide Run, CarefulRun, TimelyRun, Initial, CoreInv, RollupInv, Raw, Sum;
    assert |states| == |steps| + 1 by { RunLength(c, states, steps); }
    InitialIsEngine(c, states[0], None);
    RunKeepsEngine(c, states, steps, None, n);
    RollupsSumToRaw(c, states[n].disk, k);
  }

  // Watermark safety.

  /** In every state of every such run the watermark is hour-aligned, at most one live rollup segment
      exists per hour and bucket, and nothing unflushed lies below the watermark. */
  lemma RunWatermarkSafe(c: Config, states: seq<State>, steps: seq<Step>, n: nat)
    requires Run(c, states, steps) && CarefulRun(c, states, steps) && TimelyRun(c, states, steps, None)
             && Initial(states[0]) && n <= |steps|
    ensures var m := states[n].disk.manifest;
            && Aligned(m.hourlyRollupMs)
            && (forall i, j :: 0 <= i < j < |m.rollupSegments| ==>
                  m.rollupSegments[i].minTimestampMs != m.rollupSegments[j].minTimestampMs
                  || m.rollupSegments[i].bucket != m.rollupSegments[j].bucket)
    ensures states[n].Up? ==>
              forall e :: e in states[n].mem.memtable || e in InflightEvents(states[n].mem.inflight) ==>
                            states[n].disk.manifest.hourlyRollupMs <= e.timestampMs
  {
    hide Run, CarefulRun, TimelyRun, Initial, CoreInv, SlotsExact, SealedCovered, PendingTimely, InflightEvents;
    assert |states| == |steps| + 1 by { RunLength(c, states, steps); }
    InitialIsEngine(c, states[0], None);
    RunKeepsEngine(c, states, steps, None, n);
    var s := states[n];
    if s.Up? {
      forall e | e in s.mem.memtable || e in InflightEvents(s.mem.inflight)
        ensures s.disk.manifest.hourlyRollupMs <= e.timestampMs
      {
        NothingPendingBelowWatermark(c, s, e);
      }
    }
  }

  /** Only a rebuild lowers the watermark, and a tick moves it exactly to its target. */
  lemma WatermarkTarget(c: Config, s: State, step: Step, s': State)
    requires Next(c, s, step, s') && CoreInv(c, s)
    ensures s'.disk.manifest.hourlyRollupMs < s.disk.manifest.hourlyRollupMs ==> step.Rebuild?
    ensures s'.disk.manifest.hourlyRollupMs > s.disk.manifest.hourlyRollupMs ==>
              step.Tick? && s.Up? && IsTickTarget(c, s, step.now, s'.disk.manifest.hourlyRollupMs)
  {
    hide FlushedAs, FreshListing, TriageBatch, Accepted, SortAndDedupe, CompactionPlan, NeedsForceDrain, IsTickTarget,
      NewRollups, HourOf, EarliestMin, Grows, CatalogOk, Coupled, Ledger;
    if step.Tick? {
      if target, metas :| TickCommitStep(c, s, s', step.now, target, metas) {
        if TickStart(s.disk.manifest) != s.disk.manifest.hourlyRollupMs {
          EarliestNonNegative(c, s.disk);
          HourOfMonotone(0, EarliestMin(s.disk.manifest.rawSegments));
          assert HourOf(0) == 0 by { HourOfBounds(0); }
        }
      }
    }
  }

  /** Nothing that is not yet in a segment lies below the watermark. */
  lemma NothingPendingBelowWatermark(c: Config, s: State, e: UsageEvent)
    requires s.Up? && CoreInv(c, s) && RollupInv(c, s.disk, None)
    requires e in s.mem.memtable || e in InflightEvents(s.mem.inflight)
    ensures s.disk.manifest.hourlyRollupMs <= e.timestampMs
    ensures !RolledUp(s.disk.manifest, HourOf(e.timestampMs), BucketOf(c, s.disk.manifest, e))
  {
    hide Raw, Unsealed, CatalogOk, Coupled, SlotsShaped, SlotsExact, SealedCovered, HourOf, InflightEvents, BucketOf,
      RolledUp;
    CoupledMeansReplay(s.disk, s.mem);
    assert e in Unsealed(s.disk);
    assert e in Pending(s.disk);
    LedgerParts(s.disk);
    assert e in Ledger(s.disk);
    HourOfBounds(e.timestampMs);
  }

  /** Ticking twice at the same time is ticking once. */
  lemma RepeatedTickChangesNothing(c: Config, s: State, s1: State, s2: State, now: int)
    requires s.Up? && CoreInv(c, s) && TickStep(c, s, s1, now) && TickStep(c, s1, s2, now)
    ensures s2 == s1
  {
    hide CatalogOk, Positive, NewRollups, HourOf, Grows, FreshListing, EarliestMin, TargetFor, Chained, ReplayRange;
    if FlushInFlight(s) {
    } else if NeedsForceDrain(c, s, now) {
      ChainMonotone(s.disk.wal, s.disk.manifest.lastSealedWalId, s.mem.inflight, 0, |s.mem.inflight|);
      assert FlushInFlight(s1);
    } else if target, metas :| TickCommitStep(c, s, s1, now, target, metas) {
      CommittedTickIsDone(c, s, s1, now, target, metas);
      NoSecondCommit(c, s1, s2, now, target);
    } else {
      var target :| IsTickTarget(c, s, now, target) && target <= TickStart(s.disk.manifest) && s1 == s.(clock := now);
      assert IsTickTarget(c, s1, now, target);
      NoSecondCommit(c, s1, s2, now, target);
    }
  }

  lemma NoSecondCommit(c: Config, s1: State, s2: State, now: int, target: int)
    requires s1.Up? && s1.clock == now && TickStep(c, s1, s2, now) && IsTickTarget(c, s1, now, target)
    requires target <= TickStart(s1.disk.manifest)
    requires !FlushInFlight(s1) && !NeedsForceDrain(c, s1, now)
    ensures s2 == s1
  {
    hide NewRollups, HourOf, Grows, FreshListing, TickStart, TargetFor;
    if t, metas :| TickCommitStep(c, s1, s2, now, t, metas) {
      TargetUnique(c, s1, now, target, t);
    }
  }

  lemma TargetUnique(c: Config, s: State, now: int, a: int, b: int)
    requires s.Up? && IsTickTarget(c, s, now, a) && IsTickTarget(c, s, now, b)
    ensures a == b
  {
    hide TargetFor;
    var t :| IsMinTimestamp(s.mem.memtable, t) && a == TargetFor(c, now, t);
    var u :| IsMinTimestamp(s.mem.memtable, u) && b == TargetFor(c, now, u);
    MinTimestampUnique(s.mem.memtable, t, u);
  }

  lemma CommittedTickIsDone(c: Config, s: State, s1: State, now: int, target: int, metas: seq<SegmentMeta>)
    requires TickCommitStep(c, s, s1, now, target, metas) && CoreInv(c, s)
    ensures s1.clock == now && !FlushInFlight(s1) && !NeedsForceDrain(c, s1, now)
    ensures IsTickTarget(c, s1, now, target) && target <= TickStart(s1.disk.manifest)
  {
    hide CatalogOk, Positive, NewRollups, HourOf, Grows, FreshListing, TargetFor, Coupled;
    assert IsTickTarget(c, s1, now, target);
    if target == 0 && s.disk.manifest.rawSegments != [] {
      EarliestNonNegative(c, s.disk);
      HourOfMonotone(0, EarliestMin(s.disk.manifest.rawSegments));
      HourOfBounds(0);
    }
  }

  lemma {:induction false} EarliestAmong(metas: seq<SegmentMeta>)
    requires metas != []
    ensures exists m :: m in metas && m.minTimestampMs == EarliestMin(metas)
    decreases |metas|
  {
    if |metas| == 1 {
      assert metas[0] in metas;
    } else {
      var front, last := metas[..|metas| - 1], metas[|metas| - 1];
      EarliestAmong(front);
      var m :| m in front && m.minTimestampMs == EarliestMin(front);
      assert m in metas && last in metas;
    }
  }

  lemma EarliestNonNegative(c: Config, d: Disk)
    requires CatalogOk(c, d) && Positive(Ledger(d)) && d.manifest.rawSegments != []
    ensures 0 <= EarliestMin(d.manifest.rawSegments)
  {
    hide Ledger, BucketFor, FilesBelow, ReplacedUnlisted, EarliestMin;
    EarliestAmong(d.manifest.rawSegments);
    var m :| m in d.manifest.rawSegments && m.minTimestampMs == EarliestMin(d.manifest.rawSegments);
    assert MetaMatchesFile(m, d.segs, c.hashing, Buckets(d.manifest));
    RawPositive(d);
    forall e | e in d.segs[m.segmentId] ensures 0 < e.timestampMs {
      ListedEventIsRaw(d.manifest.rawSegments, d.segs, m, e);
      assert e in Raw(d);
    }
    MinTsPositive(d.segs[m.segmentId]);
  }

  lemma {:induction false} ListedEventIsRaw(metas: seq<SegmentMeta>, segs: SegmentFiles, m: SegmentMeta, e: UsageEvent)
    requires m in metas && m.segmentId in segs && e in segs[m.segmentId]
    ensures e in AllEvents(metas, segs)
    decreases |metas|
  {
    var front, last := metas[..|metas| - 1], metas[|metas| - 1];
    assert metas == front + [last];
    if m != last {
      ListedEventIsRaw(front, segs, m, e);
    }
  }

  lemma {:induction false} MinTsPositive(batch: seq<UsageEvent>)
    requires forall e :: e in batch ==> 0 < e.timestampMs
    ensures 0 < Segments.MinTs(batch)
  {
    if batch != [] {
      MinTsPositive(batch[..|batch| - 1]);
      assert batch[|batch| - 1] in batch;
    }
  }

  // Repair.

  /** After any number of late events at or above the hour `lim`, a rebuild from an hour at or below
      `lim` that reaches past every live rollup makes the cache exact for all hours; and a tick that
      then commits leaves it exact up to its new watermark. */
  lemma RebuildThenTickRepairs(
    c: Config, states: seq<State>, steps: seq<Step>, lim: int,
    rebuilt: State, ticked: State, fromMs: int, toMs: int, now: int, target: int, metas: seq<SegmentMeta>)
    requires Run(c, states, steps) && CarefulRun(c, states, steps) && TimelyRun(c, states, steps, Some(lim))
    requires EngineInv(c, states[0], Some(lim))
    requires RebuildStep(states[|steps|], rebuilt, fromMs, toMs) && Aligned(fromMs) && fromMs <= lim
    requires forall seg :: seg in states[|steps|].disk.manifest.rollupSegments ==> seg.minTimestampMs < toMs
    requires rebuilt.clock <= now && TickCommitStep(c, rebuilt, ticked, now, target, metas) && Fits(Raw(rebuilt.disk))
    ensures RollupInv(c, rebuilt.disk, None) && RollupInv(c, ticked.disk, None)
    ensures ticked.disk.manifest.hourlyRollupMs == target
    ensures forall k: RollupKey :: k.hourStartMs < target ==>
              QuantityOf(LiveRecords(ticked.disk.manifest.rollupSegments, ticked.disk.rollups), k)
                == Sum(Raw(ticked.disk), OfKey(c.json, k))
  {
    hide Run, CarefulRun, TimelyRun, CoreInv, RollupInv, Raw, Sum, Fits, LiveRecords, QuantityOf, NewRollups,
      IsTickTarget, TickStart;
    assert |states| == |steps| + 1 by { RunLength(c, states, steps); }
    RunKeepsEngine(c, states, steps, Some(lim), |steps|);
    var s := states[|steps|];
    RebuildRepairs(c, s, rebuilt, fromMs, toMs, lim);
    assert Next(c, s, Rebuild(fromMs, toMs), rebuilt);
    StepConserves(c, s, Rebuild(fromMs, toMs), rebuilt);
    TickKeepsRollup(c, rebuilt, ticked, now, target, metas, None);
    forall k: RollupKey | k.hourStartMs < target
      ensures QuantityOf(LiveRecords(ticked.disk.manifest.rollupSegments, ticked.disk.rollups), k)
           == Sum(Raw(ticked.disk), OfKey(c.json, k))
    {
      RollupsSumToRaw(c, ticked.disk, k);
    }
  }
}
