/** The storage engine as a state machine: what is on disk, what is in memory, and every step that
    moves it, with crashes between any two durable actions. */
module Engine {
  import opened Model
  import opened Sums
  import opened Dedupe
  import opened Wals
  import opened WalText
  import opened Memtables
  import opened Manifests
  import opened Ingest
  import opened Sorting
  import opened Segments
  import opened Query
  import opened Rollup

  datatype Config = Config(
    hashing: Hashing,
    json: Json,
    lines: LineJson,
    calendar: Calendar,
    estimate: UsageEvent -> nat,
    defaultBuckets: nat,
    dedupeCapacity: nat,
    ttlMs: int,
    maxMemtableBytes: nat,
    safetyLagMs: int,
    memtableMaxAgeMs: int,
    graceMs: int,
    maxSmallSegments: nat)

  datatype FlushMessage = FlushMessage(events: seq<UsageEvent>, sealedWalId: nat)

  type RollupFiles = map<SegmentId, seq<RollupRecord>>

  /** Everything that survives a crash.  `nextId` is the first unused segment id. */
  datatype Disk = Disk(
    manifest: Manifest,
    wal: WalDir,
    segs: SegmentFiles,
    rollups: RollupFiles,
    nextId: SegmentId)

  /** Everything a crash loses.  `inflight` are the flush messages not yet committed, in seal order. */
  datatype Memory = Memory(
    activeId: nat,
    memtable: seq<UsageEvent>,
    oldestInsertAtMs: Option<int>,
    inflight: seq<FlushMessage>,
    dedupe: DedupeState)

  datatype State =
    | Up(clock: int, disk: Disk, mem: Memory)
    | Down(clock: int, disk: Disk)

  // Views of a state.

  ghost function RawSeq(d: Disk): seq<UsageEvent>
  {
    AllEvents(d.manifest.rawSegments, d.segs)
  }

  ghost function Raw(d: Disk): multiset<UsageEvent>
  {
    multiset(RawSeq(d))
  }

  function Larger(a: nat, b: nat): nat { if a < b then b else a }

  ghost function MaxOf(s: set<nat>): nat
  {
    if s == {} then 0 else var x :| x in s; Larger(x, MaxOf(s - {x}))
  }

  lemma {:induction false} MaxOfBounds(s: set<nat>)
    ensures forall x :: x in s ==> x <= MaxOf(s)
    ensures s != {} ==> MaxOf(s) in s
  {
    if s != {} {
      var x :| x in s && MaxOf(s) == Larger(x, MaxOf(s - {x}));
      var rest := s - {x};
      MaxOfBounds(rest);
      assert s == rest + {x} && MaxOf(s) == Larger(x, MaxOf(rest));
      assert Larger(x, MaxOf(rest)) == x || Larger(x, MaxOf(rest)) == MaxOf(rest);
    }
  }

  /** The events of the WAL files that are not sealed, in order. */
  ghost function Unsealed(d: Disk): seq<UsageEvent>
  {
    ReplayRange(d.wal, d.manifest.lastSealedWalId, MaxOf(d.wal.Keys))
  }

  ghost function Pending(d: Disk): multiset<UsageEvent>
  {
    multiset(Unsealed(d))
  }

  /** Every event the disk accounts for: in a listed segment or in an unsealed WAL file. */
  ghost function Ledger(d: Disk): multiset<UsageEvent>
  {
    Raw(d) + Pending(d)
  }

  ghost function InflightEvents(inflight: seq<FlushMessage>): seq<UsageEvent>
  {
    if inflight == [] then [] else InflightEvents(inflight[..|inflight| - 1]) + inflight[|inflight| - 1].events
  }

  function BucketOf(c: Config, m: Manifest, e: UsageEvent): nat
  {
    BucketFor(c.hashing, e.accountId, Buckets(m))
  }

  // Ingest.

  ghost function Triaged(c: Config, s: State, now: int, batch: seq<UsageEvent>): Triage
    requires s.Up?
  {
    TriageBatch(s.mem.dedupe.cache,
                HashedAll(c.hashing, Admit(c.calendar, s.disk.manifest.closedPeriods, now, batch)))
  }

  /** The events of `batch` that an ingest at `now` accepts and acknowledges. */
  ghost function Accepted(c: Config, s: State, now: int, batch: seq<UsageEvent>): seq<UsageEvent>
    requires s.Up?
  {
    Events(Triaged(c, s, now, batch).novel)
  }

  ghost predicate IngestStep(c: Config, s: State, s': State, now: int, batch: seq<UsageEvent>)
  {
    && s.Up? && s'.Up? && s'.clock == now && s.mem.activeId in s.disk.wal
    && var novel := Triaged(c, s, now, batch).novel;
       var es := Events(novel);
       var id := s.mem.activeId;
       && s'.disk == s.disk.(wal := s.disk.wal[id := AppendLines(s.disk.wal[id], es)])
       && s'.mem == s.mem.(
            memtable := s.mem.memtable + es,
            oldestInsertAtMs := if s.mem.memtable == [] && es != [] then Some(now) else s.mem.oldestInsertAtMs,
            dedupe := CommitAll(s.mem.dedupe, novel, now, c.dedupeCapacity, c.ttlMs))
  }

  /** The process dies inside the WAL append: some prefix of the batch is on disk, nothing was acked. */
  ghost predicate IngestCrashStep(
    c: Config, s: State, s': State, now: int, batch: seq<UsageEvent>, whole: nat, tail: WalTail)
  {
    && s.Up? && s'.Down? && s'.clock == now && s.mem.activeId in s.disk.wal
    && var es := Accepted(c, s, now, batch);
       var id := s.mem.activeId;
       && TornAppend(es, whole, tail)
       && s'.disk == s.disk.(wal := s.disk.wal[id := AppendTorn(s.disk.wal[id], es, whole, tail)])
  }

  /** Seal the memtable: rotate the WAL and queue the events for the flusher. */
  ghost predicate DrainStep(s: State, s': State)
  {
    && s.Up? && s'.Up? && s.clock <= s'.clock && s.mem.memtable != []
    && s'.disk == s.disk.(wal := s.disk.wal[s.mem.activeId + 1 := EMPTY_FILE])
    && s'.mem == s.mem.(
         activeId := s.mem.activeId + 1,
         memtable := [],
         oldestInsertAtMs := None,
         inflight := s.mem.inflight + [FlushMessage(s.mem.memtable, s.mem.activeId)])
  }

  /** Sealing the memtable, at the same instant. */
  ghost function Drained(s: State): (s': State)
    requires s.Up?
    ensures s.mem.memtable != [] ==> DrainStep(s, s')
  {
    Up(s.clock,
       s.disk.(wal := s.disk.wal[s.mem.activeId + 1 := EMPTY_FILE]),
       s.mem.(activeId := s.mem.activeId + 1, memtable := [], oldestInsertAtMs := None,
              inflight := s.mem.inflight + [FlushMessage(s.mem.memtable, s.mem.activeId)]))
  }

  // Files.

  /** `files'` is `files` plus files under unused ids below `hi`. */
  ghost predicate Grows<T>(files: map<SegmentId, T>, files': map<SegmentId, T>, lo: SegmentId, hi: SegmentId)
  {
    && lo <= hi
    && (forall id :: id in files ==> id in files' && files'[id] == files[id])
    && (forall id :: id in files' ==> id in files || lo <= id < hi)
  }

  /** Segment files were written but nothing lists them yet; a crash leaves them as orphans. */
  ghost predicate OrphanStep(s: State, s': State)
  {
    && s.Up? && s'.Up? && s.clock <= s'.clock && s'.mem == s.mem
    && s'.disk == s.disk.(segs := s'.disk.segs, rollups := s'.disk.rollups, nextId := s'.disk.nextId)
    && Grows(s.disk.segs, s'.disk.segs, s.disk.nextId, s'.disk.nextId)
    && Grows(s.disk.rollups, s'.disk.rollups, s.disk.nextId, s'.disk.nextId)
  }

  // Flush.

  function InBucket(h: Hashing, buckets: nat, bucket: nat): UsageEvent -> bool
  {
    (e: UsageEvent) => BucketFor(h, e.accountId, buckets) == bucket
  }

  /** `m` describes a file that holds, sorted, the events of `m`'s bucket, of which there are some. */
  ghost predicate PieceOf(h: Hashing, buckets: nat, events: seq<UsageEvent>, m: SegmentMeta, segs: SegmentFiles)
  {
    && m.segmentId in segs && segs[m.segmentId] != []
    && segs[m.segmentId] == SortCanonical(Filter(events, InBucket(h, buckets, m.bucket)))
    && m == MetaOf(m.segmentId, segs[m.segmentId], m.bucket)
  }

  ghost predicate BucketsAscend(metas: seq<SegmentMeta>)
  {
    forall i, j :: 0 <= i < j < |metas| ==> metas[i].bucket < metas[j].bucket
  }

  ghost predicate HasBucket(metas: seq<SegmentMeta>, bucket: nat)
  {
    exists m :: m in metas && m.bucket == bucket
  }

  /** `metas` list one sorted segment per bucket that `events` touches, by ascending bucket. */
  ghost predicate FlushedAs(
    h: Hashing, buckets: nat, events: seq<UsageEvent>, metas: seq<SegmentMeta>, segs: SegmentFiles)
  {
    && BucketsAscend(metas)
    && (forall m :: m in metas ==> PieceOf(h, buckets, events, m, segs))
    && (forall e :: e in events ==> HasBucket(metas, BucketFor(h, e.accountId, buckets)))
  }

  ghost predicate DistinctSegments(metas: seq<SegmentMeta>)
  {
    forall i, j :: 0 <= i < j < |metas| ==> metas[i].segmentId != metas[j].segmentId
  }

  /** New listings use unused ids, each once. */
  ghost predicate FreshListing(metas: seq<SegmentMeta>, lo: SegmentId, hi: SegmentId)
  {
    DistinctSegments(metas) && forall m :: m in metas ==> lo <= m.segmentId < hi
  }

  /** One manifest save lists the new segments and seals the WAL file they came from. */
  ghost predicate CommitFlushStep(c: Config, s: State, s': State, metas: seq<SegmentMeta>)
  {
    && s.Up? && s'.Up? && s.clock <= s'.clock && s.mem.inflight != []
    && var msg := s.mem.inflight[0];
       var m := s.disk.manifest;
       && Grows(s.disk.segs, s'.disk.segs, s.disk.nextId, s'.disk.nextId)
       && FlushedAs(c.hashing, Buckets(m), msg.events, metas, s'.disk.segs)
       && FreshListing(metas, s.disk.nextId, s'.disk.nextId)
       && s'.disk == s.disk.(
            segs := s'.disk.segs,
            nextId := s'.disk.nextId,
            manifest := m.(rawSegments := m.rawSegments + metas,
                           lastSealedWalId := if msg.sealedWalId > m.lastSealedWalId
                                              then msg.sealedWalId else m.lastSealedWalId))
       && s'.mem == s.mem.(inflight := s.mem.inflight[1..])
  }

  /** Any WAL files whose events are sealed into segments may disappear, at any time, in any order. */
  ghost predicate DeleteWalStep(s: State, s': State, ids: set<nat>)
  {
    && (forall id :: id in ids ==> id <= s.disk.manifest.lastSealedWalId)
    && s.clock <= s'.clock
    && s' == (if s.Up? then s.(clock := s'.clock, disk := s.disk.(wal := s.disk.wal - ids))
              else s.(clock := s'.clock, disk := s.disk.(wal := s.disk.wal - ids)))
  }

  // Rollup.

  predicate RolledUp(m: Manifest, hour: int, bucket: nat)
  {
    exists i :: 0 <= i < |m.rollupSegments|
             && m.rollupSegments[i].minTimestampMs == hour && m.rollupSegments[i].bucket == bucket
  }

  function EarliestMin(metas: seq<SegmentMeta>): int
    requires metas != []
  {
    if |metas| == 1 then metas[0].minTimestampMs
    else Min(EarliestMin(metas[..|metas| - 1]), metas[|metas| - 1].minTimestampMs)
  }

  /** Where a tick starts: the watermark, or on a fresh database the hour of the first data. */
  function TickStart(m: Manifest): int
  {
    if m.hourlyRollupMs == 0 && m.rawSegments != [] then HourOf(EarliestMin(m.rawSegments)) else m.hourlyRollupMs
  }

  /** Where a tick ends: behind the clock, and never past an event that is still in the memtable. */
  ghost predicate IsTickTarget(c: Config, s: State, now: int, target: int)
    requires s.Up?
  {
    exists t :: IsMinTimestamp(s.mem.memtable, t) && target == TargetFor(c, now, t)
  }

  function TargetFor(c: Config, now: int, memtableMin: Option<int>): int
  {
    var byTime := HourOf(now - c.safetyLagMs);
    if memtableMin.Some? then Min(byTime, HourOf(memtableMin.value)) else byTime
  }

  predicate FlushInFlight(s: State)
    requires s.Up?
  {
    s.mem.activeId > s.disk.manifest.lastSealedWalId + 1
  }

  predicate NeedsForceDrain(c: Config, s: State, now: int)
    requires s.Up?
  {
    s.mem.oldestInsertAtMs.Some? && now - s.mem.oldestInsertAtMs.value >= c.memtableMaxAgeMs
  }

  function RollupMetaOf(j: Json, id: SegmentId, records: seq<RollupRecord>, bucket: nat, hour: int): SegmentMeta
  {
    MetaOf(id, RecordsToEvents(j, records), bucket).(minTimestampMs := hour, maxTimestampMs := hour + HOUR_MS - 1)
  }

  /** The raw events of one hour and bucket. */
  function InHourBucket(c: Config, m: Manifest, hour: int, bucket: nat): UsageEvent -> bool
  {
    (e: UsageEvent) => hour <= e.timestampMs < hour + HOUR_MS && BucketOf(c, m, e) == bucket
  }

  /** `records` list, in some order, the builder's entries for the events of `[hour, hour + 1h)` and
      `bucket`. */
  ghost predicate RollsUp(c: Config, m: Manifest, raw: seq<UsageEvent>, hour: int, bucket: nat,
                          records: seq<RollupRecord>)
  {
    var agg := Aggregated(c.json, Filter(raw, InHourBucket(c, m, hour, bucket)));
    && DistinctKeys(records) && RecordKeys(records) == agg.Keys
    && (forall r :: r in records ==> r.key in agg && agg[r.key] == r)
  }

  /** The hour-long window, counted from `start`, that holds `ts`. */
  function WindowOf(start: int, ts: int): int
  {
    ts - (ts - start) % HOUR_MS
  }

  /** Where the last window from `start` that begins before `target` ends. */
  function WindowsEnd(start: int, target: int): int
  {
    target + (start - target) % HOUR_MS
  }

  predicate IsWindow(start: int, hour: int)
  {
    start <= hour && (hour - start) % HOUR_MS == 0
  }

  lemma InWindow(start: int, hour: int, ts: int)
    requires IsWindow(start, hour)
    ensures hour <= ts < hour + HOUR_MS <==> WindowOf(start, ts) == hour
    ensures hour <= WindowOf(start, ts) < hour + HOUR_MS ==> WindowOf(start, ts) == hour
    ensures start <= ts ==> IsWindow(start, WindowOf(start, ts))
  {
    var a, b := (hour - start) / HOUR_MS, (ts - start) / HOUR_MS;
    assert hour == start + a * HOUR_MS && WindowOf(start, ts) == start + b * HOUR_MS;
  }

  /** `s` is a new rollup segment for a window that had none. */
  ghost predicate NewRollup(c: Config, m: Manifest, raw: seq<UsageEvent>, start: int, s: SegmentMeta,
                            rollups: RollupFiles)
  {
    && IsWindow(start, s.minTimestampMs) && !RolledUp(m, s.minTimestampMs, s.bucket)
    && s.segmentId in rollups && rollups[s.segmentId] != []
    && s == RollupMetaOf(c.json, s.segmentId, rollups[s.segmentId], s.bucket, s.minTimestampMs)
    && RollsUp(c, m, raw, s.minTimestampMs, s.bucket, rollups[s.segmentId])
  }

  ghost predicate HasSlot(metas: seq<SegmentMeta>, hour: int, bucket: nat)
  {
    exists s :: s in metas && s.minTimestampMs == hour && s.bucket == bucket
  }

  /** `metas` list one new rollup segment for every window from `start` up to `target` and bucket that
      has raw events and no rollup yet. */
  ghost predicate NewRollups(
    c: Config, m: Manifest, raw: seq<UsageEvent>, start: int, target: int, metas: seq<SegmentMeta>,
    rollups: RollupFiles)
  {
    && (forall s :: s in metas ==> s.minTimestampMs < target && NewRollup(c, m, raw, start, s, rollups))
    && (forall i, j :: 0 <= i < j < |metas| ==>
          metas[i].minTimestampMs != metas[j].minTimestampMs || metas[i].bucket != metas[j].bucket)
    && (forall e :: e in raw && start <= e.timestampMs && WindowOf(start, e.timestampMs) < target
                    && !RolledUp(m, WindowOf(start, e.timestampMs), BucketOf(c, m, e)) ==>
          HasSlot(metas, WindowOf(start, e.timestampMs), BucketOf(c, m, e)))
  }

  ghost predicate TickCommitStep(c: Config, s: State, s': State, now: int, target: int, metas: seq<SegmentMeta>)
  {
    && s.Up? && s'.Up? && s'.clock == now && s'.mem == s.mem
    && !FlushInFlight(s) && !NeedsForceDrain(c, s, now)
    && IsTickTarget(c, s, now, target)
    && TickStart(s.disk.manifest) < target
    && Grows(s.disk.rollups, s'.disk.rollups, s.disk.nextId, s'.disk.nextId)
    && NewRollups(c, s.disk.manifest, RawSeq(s.disk), TickStart(s.disk.manifest), target, metas, s'.disk.rollups)
    && FreshListing(metas, s.disk.nextId, s'.disk.nextId)
    && s'.disk == s.disk.(
         rollups := s'.disk.rollups,
         nextId := s'.disk.nextId,
         manifest := s.disk.manifest.(rollupSegments := s.disk.manifest.rollupSegments + metas,
                                      hourlyRollupMs := target))
  }

  /** A whole tick: it skips, force-drains, finds nothing to do, or commits. */
  ghost predicate TickStep(c: Config, s: State, s': State, now: int)
  {
    && s.Up? && s'.Up? && s'.clock == now
    && if FlushInFlight(s) then s' == s.(clock := now)
       else if NeedsForceDrain(c, s, now) then DrainStep(s, s')
       else
         || (exists target :: IsTickTarget(c, s, now, target) && target <= TickStart(s.disk.manifest)
               && s' == s.(clock := now))
         || (exists target, metas :: TickCommitStep(c, s, s', now, target, metas))
  }

  function KeptByRebuild(fromMs: int, toMs: int): SegmentMeta -> bool
  {
    (s: SegmentMeta) => !(s.minTimestampMs < toMs && s.maxTimestampMs >= fromMs)
  }

  ghost predicate RebuildStep(s: State, s': State, fromMs: int, toMs: int)
  {
    && s.Up? && s'.Up? && s.clock <= s'.clock && s'.mem == s.mem
    && var m := s.disk.manifest;
       s'.disk == s.disk.(manifest := m.(
         rollupSegments := Filter(m.rollupSegments, KeptByRebuild(fromMs, toMs)),
         hourlyRollupMs := if m.hourlyRollupMs > fromMs then fromMs else m.hourlyRollupMs))
  }

  // Compaction.

  ghost function ReadSegments(segs: SegmentFiles, ids: seq<SegmentId>): seq<UsageEvent>
  {
    if ids == [] then [] else ReadSegments(segs, ids[..|ids| - 1]) + FileEvents(segs, ids[|ids| - 1])
  }

  function NotIn(ids: seq<SegmentId>): SegmentMeta -> bool
  {
    (s: SegmentMeta) => s.segmentId !in ids
  }

  ghost predicate ListedIn(m: Manifest, id: SegmentId, bucket: nat)
  {
    exists s :: s in m.rawSegments && s.segmentId == id && s.bucket == bucket
  }

  /** A job: distinct listed segments of one bucket. */
  ghost predicate CompactionPlan(m: Manifest, ids: seq<SegmentId>, bucket: nat)
  {
    && (forall i, j :: 0 <= i < j < |ids| ==> ids[i] != ids[j])
    && (forall id :: id in ids ==> ListedIn(m, id, bucket))
  }

  /** One manifest save swaps the inputs for their merged, sorted and deduplicated output. */
  ghost predicate CompactStep(
    c: Config, s: State, s': State, now: int, ids: seq<SegmentId>, bucket: nat, outputId: SegmentId)
  {
    && s.Up? && s'.Up? && s'.clock == now && s'.mem == s.mem
    && var m := s.disk.manifest;
       var output := SortAndDedupe(ReadSegments(s.disk.segs, ids));
       && CompactionPlan(m, ids, bucket) && output != []
       && Grows(s.disk.segs, s'.disk.segs, s.disk.nextId, s'.disk.nextId)
       && s.disk.nextId <= outputId < s'.disk.nextId
       && outputId in s'.disk.segs && s'.disk.segs[outputId] == output
       && s'.disk == s.disk.(
            segs := s'.disk.segs,
            nextId := s'.disk.nextId,
            manifest := m.(
              rawSegments := Filter(m.rawSegments, NotIn(ids)) + [MetaOf(outputId, output, bucket)],
              compactedReplacements := m.compactedReplacements + [ReplacementRecord(ids, [outputId], now)]))
  }

  predicate Expired(c: Config, r: ReplacementRecord, now: int)
  {
    r.committedAtMs != 0 && r.committedAtMs <= now - c.graceMs
  }

  function Unexpired(c: Config, now: int): ReplacementRecord -> bool
  {
    (r: ReplacementRecord) => !Expired(c, r, now)
  }

  /** The sweep unlinks files of expired records. */
  ghost predicate DeleteReplacedStep(c: Config, s: State, s': State, now: int, ids: set<SegmentId>)
  {
    && s.Up? && s'.Up? && s'.clock == now && s'.mem == s.mem
    && (forall id :: id in ids ==>
          exists r :: r in s.disk.manifest.compactedReplacements && id in r.oldSegments && Expired(c, r, now))
    && s'.disk == s.disk.(segs := s.disk.segs - ids)
  }

  /** The sweep then drops the expired records. */
  ghost predicate SweepStep(c: Config, s: State, s': State, now: int)
  {
    && s.Up? && s'.Up? && s'.clock == now && s'.mem == s.mem
    && var m := s.disk.manifest;
       s'.disk == s.disk.(manifest := m.(compactedReplacements := Filter(m.compactedReplacements, Unexpired(c, now))))
  }

  // Periods.

  ghost predicate CloseStep(s: State, s': State, now: int, entry: ClosedPeriod)
  {
    && s.Up? && s'.Up? && s'.clock == now && s'.mem == s.mem
    && var m := s.disk.manifest;
       && !IsClosed(m.closedPeriods, entry.accountId, entry.year, entry.month)
       && s'.disk == s.disk.(manifest := m.(closedPeriods := m.closedPeriods + [entry]))
  }

  function OtherPeriod(account: string, year: nat, month: nat): ClosedPeriod -> bool
  {
    (p: ClosedPeriod) => !(p.accountId == account && p.year == year && p.month == month)
  }

  ghost predicate ReopenStep(s: State, s': State, account: string, year: nat, month: nat)
  {
    && s.Up? && s'.Up? && s.clock <= s'.clock && s'.mem == s.mem
    && var m := s.disk.manifest;
       s'.disk == s.disk.(manifest := m.(closedPeriods := Filter(m.closedPeriods, OtherPeriod(account, year, month))))
  }

  // Crash and recovery.

  ghost predicate CrashStep(s: State, s': State)
  {
    s.Up? && s.clock <= s'.clock && s' == Down(s'.clock, s.disk)
  }

  function RegisterAll(h: Hashing, d: DedupeState, es: seq<UsageEvent>): DedupeState
  {
    if es == [] then d
    else
      var e := es[|es| - 1];
      InsertKnown(RegisterAll(h, d, es[..|es| - 1]), h.idHash(e.eventId), PayloadHash(h, e), e.ingestedAtMs)
  }

  /** The events of the segments recent enough to be registered after a restart. */
  function RecentEvents(metas: seq<SegmentMeta>, segs: SegmentFiles, cutoff: int): seq<UsageEvent>
  {
    if metas == [] then []
    else
      var s := metas[|metas| - 1];
      RecentEvents(metas[..|metas| - 1], segs, cutoff)
      + if s.maxTimestampMs < cutoff then [] else FileEvents(segs, s.segmentId)
  }

  /** `saturating_sub`, which for a positive subtrahend saturates at the low end only. */
  function RecoveryCutoff(now: int): int
  {
    Max(I64_MIN, now - DEFAULT_TTL_MS)
  }

  /** The dedupe cache recovery builds: replayed events first, then recent segments. */
  function RecoveredDedupe(h: Hashing, d: Disk, now: int, replayed: seq<UsageEvent>): DedupeState
  {
    RegisterAll(h, RegisterAll(h, EMPTY_DEDUPE, replayed),
                RecentEvents(d.manifest.rawSegments, d.segs, RecoveryCutoff(now)))
  }

  ghost predicate RecoverStep(c: Config, s: State, s': State, now: int)
  {
    && s.Down? && s'.Up? && s'.clock == now
    && var sealedId := s.disk.manifest.lastSealedWalId;
       var wal := DeleteThrough(s.disk.wal, sealedId);
       var id := s'.mem.activeId;
       var replayed := ReplayRange(wal, sealedId, id);
       && IsActiveId(wal, sealedId, id)
       && s'.disk == s.disk.(wal := OpenActive(wal, id))
       && s'.mem.memtable == replayed
       && s'.mem.inflight == []
       && s'.mem.oldestInsertAtMs == (if replayed == [] then None else Some(now))
       && s'.mem.dedupe == RecoveredDedupe(c.hashing, s.disk, now, replayed)
  }

  /** Recovery does not depend on the bucket count. */
  lemma BucketCountIrrelevant(c: Config, d: Disk, d': Disk, clock: int, now: int, up: State)
    requires RecoverStep(c, Down(clock, d), up, now)
             && d' == d.(manifest := d.manifest.(bucketCount := d'.manifest.bucketCount))
    ensures RecoverStep(c, Down(clock, d'), up.(disk := d'.(wal := up.disk.wal)), now)
  {
    hide ReplayRange, RegisterAll, RecentEvents;
  }

  // Runs.

  datatype Step =
    | Ingest(now: int, batch: seq<UsageEvent>)
    | IngestCrash(now: int, batch: seq<UsageEvent>, whole: nat, tail: WalTail)
    | Drain
    | Orphans
    | CommitFlush(metas: seq<SegmentMeta>)
    | DeleteWal(walIds: set<nat>)
    | Tick(now: int)
    | Rebuild(fromMs: int, toMs: int)
    | Compact(now: int, inputs: seq<SegmentId>, bucket: nat, outputId: SegmentId)
    | DeleteReplaced(now: int, deleted: set<SegmentId>)
    | Sweep(now: int)
    | Close(now: int, entry: ClosedPeriod)
    | Reopen(account: string, year: nat, month: nat)
    | Crash
    | Recover(now: int)

  ghost predicate Next(c: Config, s: State, step: Step, s': State)
  {
    && s.clock <= s'.clock
    && match step
       case Ingest(now, batch) => IngestStep(c, s, s', now, batch)
       case IngestCrash(now, batch, whole, tail) => IngestCrashStep(c, s, s', now, batch, whole, tail)
       case Drain => DrainStep(s, s')
       case Orphans => OrphanStep(s, s')
       case CommitFlush(metas) => CommitFlushStep(c, s, s', metas)
       case DeleteWal(ids) => DeleteWalStep(s, s', ids)
       case Tick(now) => TickStep(c, s, s', now)
       case Rebuild(fromMs, toMs) => RebuildStep(s, s', fromMs, toMs)
       case Compact(now, ids, bucket, outputId) => CompactStep(c, s, s', now, ids, bucket, outputId)
       case DeleteReplaced(now, deleted) => DeleteReplacedStep(c, s, s', now, deleted)
       case Sweep(now) => SweepStep(c, s, s', now)
       case Close(now, entry) => CloseStep(s, s', now, entry)
       case Reopen(account, year, month) => ReopenStep(s, s', account, year, month)
       case Crash => CrashStep(s, s')
       case Recover(now) => RecoverStep(c, s, s', now)
  }

  /** `states` is a run of the engine under `steps`. */
  ghost predicate Run(c: Config, states: seq<State>, steps: seq<Step>)
  {
    && |states| == |steps| + 1
    && forall i :: 0 <= i < |steps| ==> Next(c, states[i], steps[i], states[i + 1])
  }

  /** A database directory before first start. */
  ghost predicate Initial(s: State)
  {
    && s.Down?
    && s.disk.wal == map[] && s.disk.segs == map[] && s.disk.rollups == map[]
    && s.disk.manifest.rawSegments == [] && s.disk.manifest.rollupSegments == []
    && s.disk.manifest.compactedReplacements == [] && s.disk.manifest.closedPeriods == []
    && s.disk.manifest.hourlyRollupMs == 0 && s.disk.manifest.lastSealedWalId == 0
  }
}
