/** Two runs, from an empty database, in which a rebuild off the hour leaves the rollups wrong. */
module RebuildRuns {
  import opened Model
  import opened Sums
  import opened Manifests
  import opened Memtables
  import opened Ingest
  import opened Segments
  import opened Query
  import opened Rollup
  import opened Engine
  import opened RollupSafety
  import opened RollupRuns
  import opened RebuildStart
  import opened Flushing
  import opened RestartRuns

  // A tick over one stored event.

  /** The record of a single event. */
  function RecordOf(j: Json, e: UsageEvent): RollupRecord
  {
    RollupRecord(KeyFor(j, e), e.quantity, 1, e.timestampMs, e.timestampMs)
  }

  /** The rollup segment of `e` alone, for its window counted from `start`. */
  function SlotOf(c: Config, m: Manifest, id: SegmentId, start: int, e: UsageEvent): SegmentMeta
  {
    RollupMetaOf(c.json, id, [RecordOf(c.json, e)], BucketOf(c, m, e), WindowOf(start, e.timestampMs))
  }

  /** The engine after a tick that writes that segment. */
  ghost function RolledOne(c: Config, s: State, now: int, target: int, start: int, e: UsageEvent): State
    requires s.Up?
  {
    var d, id := s.disk, s.disk.nextId;
    s.(clock := now,
       disk := d.(
         rollups := d.rollups[id := [RecordOf(c.json, e)]],
         nextId := id + 1,
         manifest := d.manifest.(
           rollupSegments := d.manifest.rollupSegments + [SlotOf(c, d.manifest, id, start, e)],
           hourlyRollupMs := target)))
  }

  /** Idle, with `e` alone in the segments. */
  ghost predicate HoldsOne(s: State, e: UsageEvent)
  {
    && s.Up? && RawSeq(s.disk) == [e] && UnusedAbove(s.disk.rollups, s.disk.nextId)
    && s.mem.memtable == [] && s.mem.oldestInsertAtMs == None
    && s.mem.activeId == s.disk.manifest.lastSealedWalId + 1
  }

  lemma RollsUpOne(c: Config, m: Manifest, hour: int, e: UsageEvent)
    requires hour <= e.timestampMs < hour + HOUR_MS && IsI128(e.quantity)
    ensures RollsUp(c, m, [e], hour, BucketOf(c, m, e), [RecordOf(c.json, e)])
  {
    hide BucketFor, KeyFor;
    assert [e][..0] == [];
    assert Filter([e], InHourBucket(c, m, hour, BucketOf(c, m, e))) == [e];
    var r := RecordOf(c.json, e);
    assert Aggregated(c.json, [e]) == map[r.key := r];
    assert [r][0] == r && RecordKeys([r]) == {r.key};
  }

  lemma IdleTarget(c: Config, s: State, now: int)
    requires s.Up? && s.mem.memtable == []
    ensures IsTickTarget(c, s, now, HourOf(now - c.safetyLagMs))
  {
    assert IsMinTimestamp(s.mem.memtable, None);
  }

  lemma TickRollsOne(c: Config, s: State, now: int, start: int, e: UsageEvent)
    requires HoldsOne(s, e) && IsI128(e.quantity)
    requires var target := HourOf(now - c.safetyLagMs);
             TickStart(s.disk.manifest) == start <= e.timestampMs < target
    requires !RolledUp(s.disk.manifest, WindowOf(start, e.timestampMs), BucketOf(c, s.disk.manifest, e))
    ensures var target := HourOf(now - c.safetyLagMs);
            TickCommitStep(c, s, RolledOne(c, s, now, target, start, e), now, target,
                           [SlotOf(c, s.disk.manifest, s.disk.nextId, start, e)])
  {
    hide HourOf, BucketFor, KeyFor, TickStart, RolledUp, MetaOf, RollsUp, RawSeq, RecordsToEvents;
    var m, id, target := s.disk.manifest, s.disk.nextId, HourOf(now - c.safetyLagMs);
    var s' := RolledOne(c, s, now, target, start, e);
    var w, seg := WindowOf(start, e.timestampMs), SlotOf(c, m, id, start, e);
    IdleTarget(c, s, now);
    SlotFields(c, m, id, start, e);
    RollsUpOne(c, m, w, e);
    WindowStarts(start, e.timestampMs);
    assert NewRollup(c, m, [e], start, seg, s'.disk.rollups);
    assert seg in [seg] && HasSlot([seg], w, BucketOf(c, m, e));
    assert NewRollups(c, m, [e], start, target, [seg], s'.disk.rollups);
  }

  lemma SlotFields(c: Config, m: Manifest, id: SegmentId, start: int, e: UsageEvent)
    ensures var seg := SlotOf(c, m, id, start, e);
            && seg.segmentId == id && seg.minTimestampMs == WindowOf(start, e.timestampMs)
            && seg.maxTimestampMs == seg.minTimestampMs + HOUR_MS - 1 && seg.bucket == BucketOf(c, m, e)
  {
  }

  /** The engine after a tick that has nothing to write. */
  ghost function RolledNothing(s: State, now: int, target: int): State
    requires s.Up?
  {
    s.(clock := now, disk := s.disk.(manifest := s.disk.manifest.(hourlyRollupMs := target)))
  }

  lemma TickRollsNothing(c: Config, s: State, now: int, e: UsageEvent)
    requires HoldsOne(s, e) && e.timestampMs < TickStart(s.disk.manifest) < HourOf(now - c.safetyLagMs)
    ensures var target := HourOf(now - c.safetyLagMs);
            TickCommitStep(c, s, RolledNothing(s, now, target), now, target, [])
  {
    hide HourOf, BucketFor, TickStart, RolledUp, NewRollup, RawSeq;
    var m, target := s.disk.manifest, HourOf(now - c.safetyLagMs);
    IdleTarget(c, s, now);
    assert m.rollupSegments + [] == m.rollupSegments;
    assert NewRollups(c, m, [e], TickStart(m), target, [], s.disk.rollups);
  }

  // From the empty database to an exact rollup.

  lemma FlushedHoldsOne(c: Config, e: UsageEvent, now: int)
    requires 0 < e.timestampMs < I64_MAX
    ensures HoldsOne(Flushed(c, e, now), e) && Flushed(c, e, now).disk.manifest.rollupSegments == []
    ensures TickStart(Flushed(c, e, now).disk.manifest) == HourOf(e.timestampMs) && Flushed(c, e, now).clock == now
  {
    hide BucketFor, HourOf;
    var d := Flushed(c, e, now).disk;
    assert d.manifest.rawSegments[..0] == [];
    assert AllEvents([], d.segs) + FileEvents(d.segs, 0) == [e];
    assert [e][..0] == [];
    assert MinTs([e]) == Min(MinTs([]), e.timestampMs);
  }

  /** The first tick: `e` is rolled up in its hour. */
  ghost function Exact(c: Config, e: UsageEvent, t0: int, now: int): State
  {
    RolledOne(c, Flushed(c, e, t0), now, HourOf(now - c.safetyLagMs), HourOf(e.timestampMs), e)
  }

  lemma FirstTick(c: Config, e: UsageEvent, t0: int, now: int)
    requires 0 < e.timestampMs < I64_MAX && IsI128(e.quantity) && t0 <= now
             && e.timestampMs < HourOf(now - c.safetyLagMs)
    ensures Next(c, Flushed(c, e, t0), Tick(now), Exact(c, e, t0, now))
    ensures HoldsOne(Exact(c, e, t0, now), e)
  {
    hide BucketFor, HourOf, Flushed, TickCommitStep, KeyFor, RollupMetaOf, AllEvents;
    var s, target := Flushed(c, e, t0), HourOf(now - c.safetyLagMs);
    FlushedHoldsOne(c, e, t0);
    HourOfBounds(e.timestampMs);
    TickRollsOne(c, s, now, HourOf(e.timestampMs), e);
    TickIsNext(c, s, Exact(c, e, t0, now), now, target,
               [SlotOf(c, s.disk.manifest, s.disk.nextId, HourOf(e.timestampMs), e)]);
  }

  ghost function FirstSlot(c: Config, e: UsageEvent, t0: int): SegmentMeta
  {
    var d := Flushed(c, e, t0).disk;
    SlotOf(c, d.manifest, d.nextId, HourOf(e.timestampMs), e)
  }

  /** What the first tick leaves: the rollup of `e` under its hour, and the watermark behind the clock. */
  lemma ExactShape(c: Config, e: UsageEvent, t0: int, now: int)
    requires 0 < e.timestampMs < I64_MAX
    ensures var s, seg := Exact(c, e, t0, now), FirstSlot(c, e, t0);
            && s.Up? && s.clock == now && s.disk.manifest.rollupSegments == [seg]
            && s.disk.manifest.hourlyRollupMs == HourOf(now - c.safetyLagMs)
            && seg.minTimestampMs == HourOf(e.timestampMs) && seg.maxTimestampMs == seg.minTimestampMs + HOUR_MS - 1
            && seg.segmentId in s.disk.rollups && s.disk.rollups[seg.segmentId] == [RecordOf(c.json, e)]
            && seg.segmentId < s.disk.nextId
  {
    hide HourOf, Flushed, AllEvents, BucketFor, KeyFor, RollupMetaOf, TickStart;
    var d := Flushed(c, e, t0).disk;
    FlushedHoldsOne(c, e, t0);
    SlotFields(c, d.manifest, d.nextId, HourOf(e.timestampMs), e);
    HourOfAligned(e.timestampMs);
    WindowIsHour(HourOf(e.timestampMs), e.timestampMs);
    assert [] + [FirstSlot(c, e, t0)] == [FirstSlot(c, e, t0)];
  }

  lemma TickIsNext(c: Config, s: State, s': State, now: int, target: int, metas: seq<SegmentMeta>)
    requires TickCommitStep(c, s, s', now, target, metas) && s.clock <= now
    ensures Next(c, s, Tick(now), s')
  {
    hide NewRollups, IsTickTarget, TickStart, Grows, FreshListing;
    assert TickStep(c, s, s', now);
  }

  /** The rebuild, whose range drops the rollup or not. */
  ghost function Rewound(s: State, fromMs: int, kept: seq<SegmentMeta>): State
    requires s.Up?
  {
    s.(disk := s.disk.(manifest := s.disk.manifest.(rollupSegments := kept, hourlyRollupMs := fromMs)))
  }

  lemma RebuildIsNext(c: Config, s: State, fromMs: int, toMs: int, seg: SegmentMeta)
    requires s.Up? && s.disk.manifest.rollupSegments == [seg] && fromMs < s.disk.manifest.hourlyRollupMs
    ensures var kept := if seg.minTimestampMs < toMs && seg.maxTimestampMs >= fromMs then [] else [seg];
            Next(c, s, Rebuild(fromMs, toMs), Rewound(s, fromMs, kept))
  {
    assert [seg][..0] == [];
    assert Filter([seg], KeptByRebuild(fromMs, toMs))
        == if seg.minTimestampMs < toMs && seg.maxTimestampMs >= fromMs then [] else [seg];
  }

  // The runs.

  /** The steps of both runs: start, ingest, seal, flush, tick, rebuild, tick. */
  function RebuildSteps(c: Config, b: UsageEvent, t0: int, now: int, fromMs: int, toMs: int): seq<Step>
  {
    FlushSteps(c, b, t0) + [Tick(now), Rebuild(fromMs, toMs), Tick(now)]
  }

  lemma JoinThree(c: Config, b: UsageEvent, t0: int, s1: State, s2: State, s3: State, now: int, fromMs: int, toMs: int)
    requires Admissible(c.calendar, [], b)
    requires Next(c, Flushed(c, Stamped(b, t0), t0), Tick(now), s1) && Next(c, s1, Rebuild(fromMs, toMs), s2)
    requires Next(c, s2, Tick(now), s3)
    ensures var states := FlushStates(c, Stamped(b, t0), t0) + [s1, s2, s3];
            Run(c, states, RebuildSteps(c, b, t0, now, fromMs, toMs)) && Initial(states[0]) && |states| == 8
                && states[7] == s3
  {
    hide Next, Admissible, FlushStates, Flushed, Initial;
    var e := Stamped(b, t0);
    var more := [Flushed(c, e, t0), s1, s2, s3];
    FlushShape(c, e, t0);
    FlushRun(c, b, t0);
    assert Run(c, more, [Tick(now), Rebuild(fromMs, toMs), Tick(now)]);
    assert more[1..] == [s1, s2, s3];
    RunsJoin(c, FlushStates(c, e, t0), FlushSteps(c, b, t0), more, [Tick(now), Rebuild(fromMs, toMs), Tick(now)]);
  }

  lemma SumOfOne(c: Config, s: State, e: UsageEvent)
    requires HoldsOne(s, e)
    ensures Sum(Raw(s.disk), OfKey(c.json, KeyFor(c.json, e))) == e.quantity
  {
    hide Sum, RawSeq, KeyFor;
    SumSnoc([], OfKey(c.json, KeyFor(c.json, e)), e);
    assert [] + [e] == [e];
    SumZero(multiset([]), OfKey(c.json, KeyFor(c.json, e)));
  }

  lemma SlotReports(c: Config, rollups: RollupFiles, seg: SegmentMeta, e: UsageEvent)
    requires seg.segmentId in rollups && rollups[seg.segmentId] == [RecordOf(c.json, e)]
    ensures QuantityOf(FileOf(rollups, seg), KeyFor(c.json, e)) == e.quantity
  {
    hide KeyFor;
    assert [RecordOf(c.json, e)][..0] == [];
  }

  /** Rebuild from inside the hour of a stored event, after it: the event is gone from the rollups below the
      watermark. */
  lemma StartHourIsLost(c: Config, b: UsageEvent, t0: int, now: int, fromMs: int, toMs: int)
    returns (states: seq<State>)
    requires Admissible(c.calendar, [], b) && b.timestampMs < I64_MAX && IsI128(b.quantity) && t0 <= now
    requires HourOf(b.timestampMs) == HourOf(fromMs) && b.timestampMs < fromMs < toMs
             && fromMs < HourOf(now - c.safetyLagMs)
    ensures Run(c, states, RebuildSteps(c, b, t0, now, fromMs, toMs)) && Initial(states[0]) && |states| == 8
    ensures var d, k := states[7].disk, KeyFor(c.json, Stamped(b, t0));
            && k.hourStartMs < d.manifest.hourlyRollupMs && Sum(Raw(d), OfKey(c.json, k)) == b.quantity
            && LiveQuantity(d.manifest.rollupSegments, d.rollups, k) == 0
  {
    hide HourOf, Next, Admissible, Flushed, FlushStates, Initial, Run, TickCommitStep, LiveQuantity, Sum, BucketFor,
      AllEvents, RollupMetaOf;
    var e, target := Stamped(b, t0), HourOf(now - c.safetyLagMs);
    AdmissibleIsPositive(c, b);
    HourOfBounds(b.timestampMs);
    HourOfBounds(fromMs);
    FirstTick(c, e, t0, now);
    ExactShape(c, e, t0, now);
    var s1 := Exact(c, e, t0, now);
    hide Exact, FirstSlot;
    RebuildIsNext(c, s1, fromMs, toMs, FirstSlot(c, e, t0));
    var s2 := Rewound(s1, fromMs, []);
    TickRollsNothing(c, s2, now, e);
    var s3 := RolledNothing(s2, now, target);
    TickIsNext(c, s2, s3, now, target, []);
    JoinThree(c, b, t0, s1, s2, s3, now, fromMs, toMs);
    states := FlushStates(c, e, t0) + [s1, s2, s3];
    SumOfOne(c, s3, e);
    LiveNone(s3.disk.rollups, KeyFor(c.json, e));
  }

  /** Rebuild from inside the hour before that of a stored event, up to no later than its hour: the event is
      counted twice below the watermark. */
  lemma LaterHourCountsTwice(c: Config, b: UsageEvent, t0: int, now: int, fromMs: int, toMs: int)
    returns (states: seq<State>)
    requires Admissible(c.calendar, [], b) && b.timestampMs < I64_MAX && IsI128(b.quantity) && t0 <= now
    requires 0 < fromMs < HourOf(b.timestampMs) && !Aligned(fromMs) && toMs <= HourOf(b.timestampMs)
    requires b.timestampMs < HourOf(now - c.safetyLagMs)
    ensures Run(c, states, RebuildSteps(c, b, t0, now, fromMs, toMs)) && Initial(states[0]) && |states| == 8
    ensures var d, k := states[7].disk, KeyFor(c.json, Stamped(b, t0));
            && k.hourStartMs < d.manifest.hourlyRollupMs && Sum(Raw(d), OfKey(c.json, k)) == b.quantity
            && LiveQuantity(d.manifest.rollupSegments, d.rollups, k) == 2 * b.quantity
  {
    hide HourOf, Next, Admissible, Flushed, FlushStates, Initial, Run, TickCommitStep, LiveQuantity, Sum, BucketFor,
      AllEvents, RollupMetaOf, QuantityOf;
    var e, target := Stamped(b, t0), HourOf(now - c.safetyLagMs);
    AdmissibleIsPositive(c, b);
    HourOfBounds(b.timestampMs);
    FirstTick(c, e, t0, now);
    ExactShape(c, e, t0, now);
    var s1, seg := Exact(c, e, t0, now), FirstSlot(c, e, t0);
    hide Exact, FirstSlot;
    RebuildIsNext(c, s1, fromMs, toMs, seg);
    var s2 := Rewound(s1, fromMs, [seg]);
    var s3 := CountedAgain(c, s2, seg, now, fromMs, e);
    JoinThree(c, b, t0, s1, s2, s3, now, fromMs, toMs);
    states := FlushStates(c, e, t0) + [s1, s2, s3];
  }

  /** A tick off the hour, over an event whose hour is rolled up already, rolls it up again. */
  lemma CountedAgain(c: Config, s2: State, seg: SegmentMeta, now: int, fromMs: int, e: UsageEvent) returns (s3: State)
    requires HoldsOne(s2, e) && IsI128(e.quantity) && 0 < e.timestampMs && s2.clock <= now
    requires s2.disk.manifest.rollupSegments == [seg] && s2.disk.manifest.hourlyRollupMs == fromMs
    requires 0 < fromMs < e.timestampMs < HourOf(now - c.safetyLagMs) && !Aligned(fromMs)
    requires Aligned(seg.minTimestampMs) && seg.segmentId in s2.disk.rollups && seg.segmentId < s2.disk.nextId
    requires s2.disk.rollups[seg.segmentId] == [RecordOf(c.json, e)]
    ensures Next(c, s2, Tick(now), s3) && s3.disk.manifest.hourlyRollupMs == HourOf(now - c.safetyLagMs)
    ensures var d, k := s3.disk, KeyFor(c.json, e);
            && Sum(Raw(d), OfKey(c.json, k)) == e.quantity
            && LiveQuantity(d.manifest.rollupSegments, d.rollups, k) == 2 * e.quantity
  {
    hide HourOf, Next, TickCommitStep, LiveQuantity, Sum, BucketFor, AllEvents, RollupMetaOf, QuantityOf, KeyFor,
      WindowOf;
    var target, m := HourOf(now - c.safetyLagMs), s2.disk.manifest;
    WindowOffHour(fromMs, e.timestampMs);
    TickRollsOne(c, s2, now, fromMs, e);
    s3 := RolledOne(c, s2, now, target, fromMs, e);
    var again := SlotOf(c, m, s2.disk.nextId, fromMs, e);
    SlotFields(c, m, s2.disk.nextId, fromMs, e);
    TickIsNext(c, s2, s3, now, target, [again]);
    SumOfOne(c, s3, e);
    assert s3.disk.manifest.rollupSegments == [seg, again];
    TwoSlots(c, s3.disk.rollups, seg, again, e);
  }

  lemma TwoSlots(c: Config, rollups: RollupFiles, a: SegmentMeta, b: SegmentMeta, e: UsageEvent)
    requires a.segmentId in rollups && rollups[a.segmentId] == [RecordOf(c.json, e)]
    requires b.segmentId in rollups && rollups[b.segmentId] == [RecordOf(c.json, e)]
    ensures LiveQuantity([a, b], rollups, KeyFor(c.json, e)) == 2 * e.quantity
  {
    hide LiveQuantity, QuantityOf, KeyFor;
    var k := KeyFor(c.json, e);
    SlotReports(c, rollups, a, e);
    SlotReports(c, rollups, b, e);
    assert [a, b][..1] == [a] && [a][..0] == [];
    LiveSnoc([a, b], rollups, k);
    LiveSnoc([a], rollups, k);
    LiveNone(rollups, k);
  }
}
