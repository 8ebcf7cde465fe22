/** The running engine as an object: each request handler and worker pass, proved to be a step (or two
    steps) of the state machine. */
module App {
  import opened Model
  import opened Sums
  import opened Dedupe
  import opened Wals
  import opened WalText
  import opened Memtables
  import opened Manifests
  import opened Ingest
  import opened Sorting
  import opened Segments
  import opened Query
  import opened Rollup
  import opened Engine
  import opened Catalog
  import opened Runs
  import opened QueryRefinement
  import opened Compaction
  import opened Periods
  import opened Flushing
  import opened FlushFailure
  import opened Rolling
  import opened ManifestLog
  import opened Recovery

  // What the handlers do, as functions of the state.

  ghost function Ingested(c: Config, s: State, now: int, batch: seq<UsageEvent>): (s': State)
    requires s.Up? && s.mem.activeId in s.disk.wal
    ensures IngestStep(c, s, s', now, batch)
  {
    var novel := Triaged(c, s, now, batch).novel;
    var es := Events(novel);
    var id := s.mem.activeId;
    Up(now,
       s.disk.(wal := s.disk.wal[id := AppendLines(s.disk.wal[id], es)]),
       s.mem.(memtable := s.mem.memtable + es,
              oldestInsertAtMs := if s.mem.memtable == [] && es != [] then Some(now) else s.mem.oldestInsertAtMs,
              dedupe := CommitAll(s.mem.dedupe, novel, now, c.dedupeCapacity, c.ttlMs)))
  }

  /** The swap of a compaction's inputs for its output. */
  ghost function Compacted(s: State, now: int, ids: seq<SegmentId>, bucket: nat): State
    requires s.Up?
  {
    var m, id := s.disk.manifest, s.disk.nextId;
    var output := SortAndDedupe(ReadSegments(s.disk.segs, ids));
    s.(clock := now,
       disk := s.disk.(
         segs := s.disk.segs[id := output],
         nextId := id + 1,
         manifest := m.(
           rawSegments := Filter(m.rawSegments, NotIn(ids)) + [MetaOf(id, output, bucket)],
           compactedReplacements := m.compactedReplacements + [ReplacementRecord(ids, [id], now)])))
  }

  lemma DescribesId(id: SegmentId, output: seq<UsageEvent>, bucket: nat)
    ensures MetaOf(id, output, bucket).segmentId == id
  {
  }

  /** For distinct inputs of one bucket, the swap is a compaction step. */
  lemma CompactedIsStep(c: Config, s: State, now: int, ids: seq<SegmentId>, bucket: nat)
    requires s.Up? && CatalogOk(c, s.disk) && DistinctIdSeq(ids)
    requires forall x :: x in s.disk.manifest.rawSegments && x.segmentId in ids ==> x.bucket == bucket
    requires |Filter(s.disk.manifest.rawSegments, Among(ids))| == |ids|
             && SortAndDedupe(ReadSegments(s.disk.segs, ids)) != []
    ensures CompactStep(c, s, Compacted(s, now, ids, bucket), now, ids, bucket, s.disk.nextId)
  {
    hide Filter, SortAndDedupe, ReadSegments, MetaOf, MetaMatchesFile, ReplacedUnlisted, AllListedIn, CompactionPlan;
    CountFindsMissing(s.disk.manifest.rawSegments, ids);
    PlanIsLegal(s.disk.manifest, ids, bucket);
  }

  /** `Vec::retain`. */
  method Retain<T>(s: seq<T>, keep: T -> bool) returns (r: seq<T>)
    ensures r == Filter(s, keep)
  {
    r := [];
    for i := 0 to |s|
      invariant r == Filter(s[..i], keep)
    {
      assert s[..i + 1] == s[..i] + [s[i]];
      FilterSnoc(s[..i], keep, s[i]);
      if keep(s[i]) { r := r + [s[i]]; }
    }
    assert s[..|s|] == s;
  }

  method ReadInputs(segs: SegmentFiles, ids: seq<SegmentId>) returns (events: seq<UsageEvent>)
    ensures events == ReadSegments(segs, ids)
  {
    events := [];
    for i := 0 to |ids|
      invariant events == ReadSegments(segs, ids[..i])
    {
      assert ids[..i + 1][..i] == ids[..i];
      if ids[i] in segs { events := events + segs[ids[i]]; }
    }
    assert ids[..|ids|] == ids;
  }

  /** A tick begins at the watermark, or at the first hour of data in a new database. */
  method StartOf(m: Manifest) returns (start: int)
    ensures start == TickStart(m)
  {
    start := m.hourlyRollupMs;
    if start == 0 && m.rawSegments != [] {
      var earliest := m.rawSegments[0].minTimestampMs;
      assert m.rawSegments[..1] == [m.rawSegments[0]];
      for i := 1 to |m.rawSegments|
        invariant earliest == EarliestMin(m.rawSegments[..i])
      {
        assert m.rawSegments[..i + 1][..i] == m.rawSegments[..i];
        earliest := Min(earliest, m.rawSegments[i].minTimestampMs);
      }
      assert m.rawSegments[..|m.rawSegments|] == m.rawSegments;
      start := HourOf(earliest);
    }
  }

  // The check that a compaction's inputs are all still listed.

  function Among(ids: seq<SegmentId>): SegmentMeta -> bool
  {
    (s: SegmentMeta) => s.segmentId in ids
  }

  ghost predicate AllListedIn(metas: seq<SegmentMeta>, ids: seq<SegmentId>)
  {
    forall id :: id in ids ==> exists s :: s in metas && s.segmentId == id
  }

  ghost predicate DistinctIdSeq(ids: seq<SegmentId>)
  {
    forall i, j :: 0 <= i < j < |ids| ==> ids[i] != ids[j]
  }

  ghost function IdSet(ids: seq<SegmentId>): set<SegmentId>
  {
    set id | id in ids
  }

  lemma {:induction false} DistinctSize(ids: seq<SegmentId>)
    requires DistinctIdSeq(ids)
    ensures |IdSet(ids)| == |ids|
    decreases |ids|
  {
    if ids != [] {
      var n := |ids| - 1;
      DistinctSize(ids[..n]);
      assert ids[n] !in ids[..n];
      assert IdSet(ids) == IdSet(ids[..n]) + {ids[n]};
    }
  }

  lemma {:induction false} SubsetSize(a: set<SegmentId>, b: set<SegmentId>)
    requires a <= b
    ensures |a| <= |b| && (|a| == |b| ==> a == b)
    decreases a
  {
    if a != {} {
      var x :| x in a;
      SubsetSize(a - {x}, b - {x});
    }
  }

  /** Counting the listed inputs finds a missing one. */
  lemma CountFindsMissing(metas: seq<SegmentMeta>, ids: seq<SegmentId>)
    requires DistinctSegments(metas) && DistinctIdSeq(ids)
    ensures |Filter(metas, Among(ids))| == |ids| <==> AllListedIn(metas, ids)
  {
    hide Filter, IdsOf;
    var part := Filter(metas, Among(ids));
    var found := IdsOf(part);
    FilterDistinct(metas, Among(ids));
    IdsOfListed(part);
    assert DistinctIdSeq(found);
    DistinctSize(found);
    DistinctSize(ids);
    forall id ensures id in IdSet(found) <==> id in ids && exists s :: s in metas && s.segmentId == id {
      if id in found {
        var i :| 0 <= i < |found| && found[i] == id;
        FilterMember(metas, Among(ids), part[i]);
      }
      if s :| id in ids && s in metas && s.segmentId == id {
        FilterMember(metas, Among(ids), s);
        var i :| 0 <= i < |part| && part[i] == s;
        assert found[i] == id;
      }
    }
    assert IdSet(found) <= IdSet(ids);
    SubsetSize(IdSet(found), IdSet(ids));
    if IdSet(found) == IdSet(ids) {
      forall id | id in ids ensures exists s :: s in metas && s.segmentId == id { assert id in IdSet(found); }
    }
    if AllListedIn(metas, ids) {
      assert IdSet(found) == IdSet(ids);
    }
  }

  /** What a rollup tick reports. */
  datatype TickStats = TickStats(
    segmentsWritten: nat,
    watermarkMs: int,
    hoursProcessed: nat,
    forcedFlush: bool,
    skippedForInFlight: bool)

  /** How handling a flush message ends. */
  datatype FlushOutcome = NothingToFlush | Flushed | WriteFailed | SaveFailed

  /** The oldest message is off the queue, and nothing else has changed but the ids in use and the clock. */
  ghost function Popped(s: State, nextId: SegmentId, now: int): State
    requires s.Up? && s.mem.inflight != []
  {
    Up(now, s.disk.(nextId := nextId), s.mem.(inflight := s.mem.inflight[1..]))
  }

  /** The segments are written and listed in memory, and the oldest message is off the queue. */
  ghost predicate Listed(c: Config, s: State, s': State, now: int, metas: seq<SegmentMeta>)
  {
    s'.Up? && s.clock <= now == s'.clock && CommitFlushStep(c, s, s', metas)
  }

  /** Once the files are removed again, that is a failed save. */
  lemma RolledBackIsFailedSave(c: Config, s: State, listed: State, s': State, now: int, metas: seq<SegmentMeta>)
    requires Listed(c, s, listed, now, metas) && s.disk.nextId <= listed.disk.nextId
    requires s' == listed.(disk := listed.disk.(segs := s.disk.segs))
    ensures FailedSaveStep(c, s, s', now, metas, listed.disk.segs)
  {
    hide FlushedAs, FreshListing, Grows;
  }

  lemma FreshAbove(metas: seq<SegmentMeta>, lo: SegmentId, hi: SegmentId)
    requires FreshListing(metas, lo, hi)
    ensures forall m :: m in metas ==> lo <= m.segmentId
  {
  }

  class AppState {
    const c: Config
    const dedupe: HotDedupe
    const wal: Wal
    const memtable: Memtable
    var manifest: Manifest
    var segs: SegmentFiles
    var rollups: RollupFiles
    var nextId: SegmentId
    var queue: seq<FlushMessage>
    ghost var clock: int

    ghost predicate Valid()
      reads this, dedupe, wal, memtable
    {
      && dedupe.Valid() && wal.Valid() && memtable.Valid()
      && dedupe.maxCapacity == c.dedupeCapacity && dedupe.ttlMs == c.ttlMs && memtable.estimate == c.estimate
      && wal.json == c.lines && (forall m :: m in queue ==> m.sealedWalId < wal.activeId)
    }

    ghost function View(): (s: State)
      reads this, dedupe, wal, memtable
      ensures s.Up?
    {
      Up(clock, Disk(manifest, wal.Dir(), segs, rollups, nextId),
         Memory(wal.activeId, memtable.events, memtable.oldestInsertAtMs, queue, dedupe.State()))
    }

    constructor (c: Config, d: Disk, dedupe: HotDedupe, wal: Wal, memtable: Memtable, ghost now: int)
      requires dedupe.Valid() && wal.Valid() && memtable.Valid()
      requires dedupe.maxCapacity == c.dedupeCapacity && dedupe.ttlMs == c.ttlMs && memtable.estimate == c.estimate
      requires wal.json == c.lines
      ensures Valid() && this.c == c && this.dedupe == dedupe && this.wal == wal && this.memtable == memtable
      ensures View() == Up(now, d.(wal := wal.Dir()),
                           Memory(wal.activeId, memtable.events, memtable.oldestInsertAtMs, [], dedupe.State()))
    {
      this.c, this.dedupe, this.wal, this.memtable := c, dedupe, wal, memtable;
      manifest, segs, rollups, nextId, queue := d.manifest, d.segs, d.rollups, d.nextId, [];
      clock := now;
    }

    // Ingest.

    /** Admit, triage, log, commit, and rotate when the memtable has grown too large. */
    method HandleIngest(now: int, batch: seq<UsageEvent>)
      returns (accepted: nat, duplicates: nat, conflicts: nat, rejected: nat)
      requires Valid()
      modifies this, dedupe, wal, memtable
      ensures Valid()
      ensures var mid := Ingested(c, old(View()), now, batch);
              View() == if SizeOf(c.estimate, mid.mem.memtable) > c.maxMemtableBytes then Drained(mid) else mid
      ensures var t := Triaged(c, old(View()), now, batch);
              accepted == |t.novel| && duplicates == t.duplicates && conflicts == t.conflicts
      ensures accepted + duplicates + conflicts + rejected == |batch|
    {
      hide LineJsonOk, AllTidy, ViewOf, Admit, TriageBatch, CommitAll, SizeOf, AppendLines, Rep, PayloadHash;
      var admitted;
      admitted, rejected := AdmitBatch(c.calendar, manifest.closedPeriods, now, batch);
      CountsAddUp(c.hashing, c.calendar, manifest.closedPeriods, now, batch, dedupe.cache);
      var classified := HashedAll(c.hashing, admitted);
      var novel;
      novel, duplicates, conflicts := TriageEvents(dedupe, classified);
      accepted := |novel|;
      var es := Events(novel);
      if novel != [] {
        wal.AppendBatch(es);
      } else {
        assert es == [];
        ghost var dir := wal.Dir();
        assert dir[wal.activeId := AppendLines(dir[wal.activeId], es)] == dir by { AppendNothing(dir[wal.activeId]); }
      }
      CommitNovel(novel, now);
      clock := now;
      assert View() == Ingested(c, old(View()), now, batch);
      if memtable.approxSizeBytes > c.maxMemtableBytes {
        SealMemtable();
      }
    }

    /** Commit each new event to the cache and insert it into the memtable. */
    method CommitNovel(novel: seq<Classified>, now: int)
      requires Valid()
      modifies dedupe, memtable
      ensures Valid()
      ensures dedupe.State() == CommitAll(old(dedupe.State()), novel, now, c.dedupeCapacity, c.ttlMs)
      ensures memtable.events == old(memtable.events) + Events(novel)
      ensures memtable.oldestInsertAtMs
           == if old(memtable.events) == [] && novel != [] then Some(now) else old(memtable.oldestInsertAtMs)
    {
      hide LineJsonOk, AllTidy, ViewOf, Commit, SizeOf, Rep;
      for i := 0 to |novel|
        invariant Valid()
        invariant dedupe.State() == CommitAll(old(dedupe.State()), novel[..i], now, c.dedupeCapacity, c.ttlMs)
        invariant memtable.events == old(memtable.events) + Events(novel[..i])
        invariant memtable.oldestInsertAtMs
               == if old(memtable.events) == [] && i > 0 then Some(now) else old(memtable.oldestInsertAtMs)
      {
        assert novel[..i + 1][..i] == novel[..i];
        assert Events(novel[..i + 1]) == Events(novel[..i]) + [novel[i].event];
        dedupe.CommitEvent(novel[i].idHash, novel[i].payloadHash, now);
        memtable.Insert(novel[i].event, now);
      }
      assert novel[..|novel|] == novel;
    }

    /** Drain the memtable and rotate the log. */
    method SealMemtable()
      requires Valid()
      modifies this`queue, wal, memtable
      ensures Valid() && View() == Drained(old(View()))
    {
      hide LineJsonOk, AllTidy, ViewOf, Rep, SizeOf;
      var events := memtable.DrainAll();
      var sealedId := wal.Rotate();
      queue := queue + [FlushMessage(events, sealedId)];
    }

    method ForceDrain()
      requires Valid()
      modifies this`queue, wal, memtable
      ensures Valid()
      ensures View() == if old(memtable.events) == [] then old(View()) else Drained(old(View()))
    {
      if memtable.events == [] { return; }
      SealMemtable();
    }

    // Flush.

    /** Handle the oldest flush message.  If the write of bucket number `failsAt` fails, put the events from
        that bucket on back into the memtable. */
    method HandleMessage(failsAt: Option<nat>, saveFails: bool, now: int)
      returns (outcome: FlushOutcome, ghost metas: seq<SegmentMeta>, ghost files: SegmentFiles, ghost committed: State,
               ghost keys: seq<nat>)
      requires Valid() && queue != [] && UnusedAbove(segs, nextId) && clock <= now
      modifies this, wal, memtable
      ensures Valid()
      ensures outcome.NothingToFlush? <==> old(queue)[0].events == []
      ensures outcome.WriteFailed? <==> !outcome.NothingToFlush? && failsAt.Some? && failsAt.value < |keys|
      ensures outcome.SaveFailed? <==> !outcome.NothingToFlush? && !outcome.WriteFailed? && saveFails
      ensures outcome.NothingToFlush? ==> View() == Popped(old(View()), old(nextId), now)
      ensures outcome.Flushed? ==>
                && CommitFlushStep(c, old(View()), committed, metas)
                && DeleteWalStep(committed, View(),
                                 set id | id in old(wal.Dir()) && id <= old(queue)[0].sealedWalId)
      ensures outcome.WriteFailed? ==> FailedFlushStep(c, old(View()), View(), now, keys, failsAt.value)
      ensures outcome.SaveFailed? ==> FailedSaveStep(c, old(View()), View(), now, metas, files)
    {
      hide LineJsonOk, AllTidy, DirOf, Rep, SizeOf, BucketList, Collected, UnusedAbove, CommitFlushStep, DeleteWalStep,
        FailedSaveStep;
      ghost var old0 := View();
      if queue[0].events == [] {
        queue, clock := queue[1..], now;
        return NothingToFlush, [], segs, old0, [];
      }
      ghost var events := queue[0].events;
      var remaining;
      outcome, remaining, metas, files, committed, keys := AttemptFlush(failsAt, saveFails, now);
      if outcome.WriteFailed? {
        StillRemaining(c.hashing, Buckets(manifest), events, keys, failsAt.value);
        PutBack(remaining, now);
      }
    }

    /** Write the segments of the oldest message, commit them with the seal, and drop the log.  If a write or
        the manifest save fails, remove the segments again. */
    method AttemptFlush(failsAt: Option<nat>, saveFails: bool, now: int)
      returns (outcome: FlushOutcome, remaining: seq<UsageEvent>, ghost metas: seq<SegmentMeta>,
               ghost files: SegmentFiles, ghost committed: State, ghost keys: seq<nat>)
      requires Valid() && queue != [] && UnusedAbove(segs, nextId) && clock <= now
      modifies this, wal
      ensures Valid() && !outcome.NothingToFlush?
      ensures BucketList(c.hashing, Buckets(old(manifest)), old(queue)[0].events, keys)
      ensures outcome.WriteFailed? <==> failsAt.Some? && failsAt.value < |keys|
      ensures outcome.SaveFailed? <==> !outcome.WriteFailed? && saveFails
      ensures outcome.Flushed? ==>
                && CommitFlushStep(c, old(View()), committed, metas)
                && DeleteWalStep(committed, View(),
                                 set id | id in old(wal.Dir()) && id <= old(queue)[0].sealedWalId)
      ensures outcome.WriteFailed? ==>
                && old(nextId) <= nextId && View() == Popped(old(View()), nextId, now)
                && remaining == Collected(c.hashing, Buckets(old(manifest)), old(queue)[0].events,
                                          keys[failsAt.value..])
      ensures outcome.SaveFailed? ==> FailedSaveStep(c, old(View()), View(), now, metas, files)
    {
      hide LineJsonOk, AllTidy, DirOf, Rep, SizeOf, FlushedAs, FreshListing, Grows, BucketList, Collected, UnusedAbove,
        HoldsWritten, DeleteWalStep, FailedSaveStep;
      ghost var old0 := View();
      var message := queue[0];
      var ok, written, after, next;
      ok, written, after, next, remaining, keys :=
        WriteBuckets(c.hashing, Buckets(manifest), message.events, segs, nextId, failsAt);
      metas, files, committed := written, after, old0;
      segs, nextId, clock := after, next, now;
      if !ok {
        queue, outcome := queue[1..], WriteFailed;
        return;
      }
      CommitSegments(written, message);
      committed := View();
      assert Listed(c, old0, committed, now, metas);
      if saveFails {
        FreshAbove(written, old0.disk.nextId, next);
        segs := RollbackPartial(old0.disk.segs, segs, written, old0.disk.nextId);
        RolledBackIsFailedSave(c, old0, committed, View(), now, metas);
        outcome := SaveFailed;
        return;
      }
      outcome := Flushed;
      DropLog(message.sealedWalId);
    }

    /** Delete the log files up to a sealed one. */
    method DropLog(id: nat)
      requires Valid() && id <= manifest.lastSealedWalId && id < wal.activeId
      modifies wal
      ensures Valid() && DeleteWalStep(old(View()), View(), set x | x in old(wal.Dir()) && x <= id)
    {
      hide LineJsonOk, AllTidy, DirOf, Rep, SizeOf;
      wal.DeleteFilesThrough(id);
      ghost var gone := set x | x in old(wal.Dir()) && x <= id;
      assert wal.Dir() == old(wal.Dir()) - gone;
    }

    /** List the segments and move the checkpoint. */
    method CommitSegments(written: seq<SegmentMeta>, message: FlushMessage)
      requires Valid() && queue != [] && queue[0] == message
      modifies this`manifest, this`queue
      ensures Valid() && queue == old(queue)[1..]
      ensures manifest == old(manifest).(
                rawSegments := old(manifest).rawSegments + written,
                lastSealedWalId := if message.sealedWalId > old(manifest).lastSealedWalId then message.sealedWalId
                                   else old(manifest).lastSealedWalId)
    {
      hide LineJsonOk, AllTidy, ViewOf, Rep, SizeOf;
      var m := manifest;
      for i := 0 to |written|
        invariant m == manifest.(rawSegments := manifest.rawSegments + written[..i])
      {
        assert manifest.rawSegments + written[..i + 1] == manifest.rawSegments + written[..i] + [written[i]];
        m := m.(rawSegments := m.rawSegments + [written[i]]);
      }
      assert written[..|written|] == written;
      if message.sealedWalId > m.lastSealedWalId {
        m := m.(lastSealedWalId := message.sealedWalId);
      }
      manifest := m;
      queue := queue[1..];
    }

    method PutBack(events: seq<UsageEvent>, now: int)
      requires memtable.Valid()
      modifies memtable
      ensures memtable.Valid() && memtable.events == old(memtable.events) + events
      ensures memtable.oldestInsertAtMs
           == if old(memtable.events) == [] && events != [] then Some(now) else old(memtable.oldestInsertAtMs)
    {
      hide SizeOf;
      for i := 0 to |events|
        invariant memtable.Valid() && memtable.events == old(memtable.events) + events[..i]
        invariant memtable.oldestInsertAtMs
               == if old(memtable.events) == [] && i > 0 then Some(now) else old(memtable.oldestInsertAtMs)
      {
        assert events[..i + 1][..i] == events[..i];
        memtable.Insert(events[i], now);
      }
      assert events[..|events|] == events;
    }

    // Rollups.

    /** A rollup tick: skip, force-drain, find nothing to do, or commit.  It reports the watermark, except that with
        nothing to do on a database that has never rolled up it reports where the data starts. */
    method RollupTick(now: int) returns (stats: TickStats)
      requires Valid() && CatalogOk(c, View().disk) && clock <= now
      modifies this, wal, memtable
      ensures Valid() && TickStep(c, old(View()), View(), now)
      ensures stats.skippedForInFlight <==> old(wal.activeId) > old(manifest).lastSealedWalId + 1
      ensures stats.forcedFlush ==> !stats.skippedForInFlight && old(memtable.events) != [] && memtable.events == []
      ensures stats.segmentsWritten == |manifest.rollupSegments| - |old(manifest).rollupSegments|
      ensures stats.hoursProcessed == 0 ==>
                && manifest == old(manifest)
                && stats.watermarkMs == if stats.skippedForInFlight || stats.forcedFlush then manifest.hourlyRollupMs
                                        else TickStart(manifest)
      ensures stats.hoursProcessed > 0 ==>
                && stats.watermarkMs == manifest.hourlyRollupMs
                && TickStart(old(manifest)) + stats.hoursProcessed * HOUR_MS
                   == WindowsEnd(TickStart(old(manifest)), manifest.hourlyRollupMs)
    {
      hide CatalogOk, Rep, SizeOf, NewRollups, AllEvents, FreshListing, Grows, HourOf, TickStart, IsMinTimestamp,
        AllListed, UnusedAbove;
      ghost var old0 := View();
      clock := now;
      if wal.activeId > manifest.lastSealedWalId + 1 {
        return TickStats(0, manifest.hourlyRollupMs, 0, false, true);
      }
      if memtable.oldestInsertAtMs.Some? && now - memtable.oldestInsertAtMs.value >= c.memtableMaxAgeMs {
        ForceDrain();
        return TickStats(0, manifest.hourlyRollupMs, 0, true, false);
      }
      var memtableMin := memtable.MinEventTimestampMs();
      var target := HourOf(now - c.safetyLagMs);
      if memtableMin.Some? {
        target := Min(target, HourOf(memtableMin.value));
      }
      assert IsTickTarget(c, old0, now, target) by { assert target == TargetFor(c, now, memtableMin); }
      var start := StartOf(manifest);
      if target <= start {
        return TickStats(0, start, 0, false, false);
      }
      CatalogForRolling(c, old0);
      var metas, files, next, hoursProcessed := RollHours(c, manifest, segs, rollups, nextId, start, target);
      rollups, nextId := files, next;
      manifest := manifest.(rollupSegments := manifest.rollupSegments + metas, hourlyRollupMs := target);
      assert TickCommitStep(c, old0, View(), now, target, metas);
      assert WindowsEnd(start, target) > start;
      stats := TickStats(|metas|, target, hoursProcessed, false, false);
    }

    method RebuildRollups(fromMs: int, toMs: int) returns (dropped: nat)
      requires Valid()
      modifies this`manifest
      ensures Valid() && RebuildStep(old(View()), View(), fromMs, toMs)
      ensures dropped == |old(manifest).rollupSegments| - |manifest.rollupSegments|
    {
      var kept := Retain(manifest.rollupSegments, KeptByRebuild(fromMs, toMs));
      FilterShrinks(manifest.rollupSegments, KeptByRebuild(fromMs, toMs));
      dropped := |manifest.rollupSegments| - |kept|;
      manifest := manifest.(rollupSegments := kept);
      if manifest.hourlyRollupMs > fromMs {
        manifest := manifest.(hourlyRollupMs := fromMs);
      }
    }

    // Compaction.

    /** Run one job; it commits exactly when as many listed segments as inputs are found and they hold
        anything. */
    method RunOnePlan(ids: seq<SegmentId>, bucket: nat, now: int) returns (committed: bool)
      requires Valid() && UnusedAbove(segs, nextId) && clock <= now
      modifies this
      ensures Valid() && old(nextId) <= nextId && clock == now
      ensures committed <==>
                && |Filter(old(manifest).rawSegments, Among(ids))| == |ids|
                && SortAndDedupe(ReadSegments(old(segs), ids)) != []
      ensures committed ==> View() == Compacted(old(View()), now, ids, bucket)
      ensures !committed ==> View() == old(View()).(clock := now, disk := old(View()).disk.(nextId := nextId))
    {
      hide Filter, SortAndDedupe, ReadSegments, MetaOf, Among, NotIn, Rep, SizeOf, LineJsonOk, AllTidy, DirOf;
      clock := now;
      var events := ReadInputs(segs, ids);
      var output := SortAndDedupeEvents(events);
      if output == [] { return false; }
      var outputId := nextId;
      nextId := nextId + 1;
      segs := segs[outputId := output];
      var meta := BuildSegmentMeta(outputId, output, bucket);
      assert meta.segmentId == outputId by { DescribesId(outputId, output, bucket); }
      var present := Retain(manifest.rawSegments, Among(ids));
      if |present| != |ids| {
        segs := segs - {outputId};
        assert segs == old(segs);
        return false;
      }
      SwapListing(ids, meta, now);
      return true;
    }

    /** Replace the inputs by the output in the catalogue and keep a record of it. */
    method SwapListing(ids: seq<SegmentId>, meta: SegmentMeta, now: int)
      modifies this`manifest
      ensures manifest == old(manifest).(
                rawSegments := Filter(old(manifest).rawSegments, NotIn(ids)) + [meta],
                compactedReplacements := old(manifest).compactedReplacements
                    + [ReplacementRecord(ids, [meta.segmentId], now)])
    {
      hide Filter;
      var kept := Retain(manifest.rawSegments, NotIn(ids));
      manifest := manifest.(
        rawSegments := kept + [meta],
        compactedReplacements := manifest.compactedReplacements + [ReplacementRecord(ids, [meta.segmentId], now)]);
    }

    /** Unlink the files of expired replacements, then drop their records. */
    method SweepPendingDeletions(now: int) returns (finalized: nat, ghost deleted: set<SegmentId>)
      requires Valid() && clock <= now
      modifies this
      ensures Valid()
      ensures var s := old(View());
              var mid := s.(clock := now, disk := s.disk.(segs := s.disk.segs - deleted));
              DeleteReplacedStep(c, s, mid, now, deleted) && SweepStep(c, mid, View(), now)
      ensures forall id :: id in deleted <==> InExpired(c, old(manifest).compactedReplacements, now, id)
      ensures forall r :: r in manifest.compactedReplacements
                     <==> r in old(manifest).compactedReplacements && !PastGrace(c, r, now)
      ensures finalized == |old(manifest).compactedReplacements| - |manifest.compactedReplacements|
    {
      hide Filter, Rep, SizeOf;
      clock := now;
      var records := manifest.compactedReplacements;
      var expired := Retain(records, IsExpired(c, now));
      FilterComplement(c, now, records);
      finalized := |expired|;
      deleted := Unlink(expired);
      forall id ensures id in deleted <==> InExpired(c, records, now, id) {
        ExpiredMembers(c, now, records, id);
      }
      var keys := set r | r in expired :: (r.committedAtMs, r.oldSegments);
      var kept := Retain(records, NotAmongKeys(keys));
      KeysDropExpired(c, now, records, keys);
      manifest := manifest.(compactedReplacements := kept);
      forall r ensures r in kept <==> r in records && !PastGrace(c, r, now) {
        FilterMember(records, Unexpired(c, now), r);
      }
    }

    /** Remove the old files of some replacement records. */
    method Unlink(records: seq<ReplacementRecord>) returns (ghost deleted: set<SegmentId>)
      modifies this`segs
      ensures segs == old(segs) - deleted
      ensures forall id :: id in deleted <==> exists r :: r in records && id in r.oldSegments
    {
      deleted := {};
      for i := 0 to |records|
        invariant segs == old(segs) - deleted
        invariant forall id :: id in deleted <==> exists r :: r in records[..i] && id in r.oldSegments
      {
        var ids := records[i].oldSegments;
        ghost var before := deleted;
        for k := 0 to |ids|
          invariant segs == old(segs) - deleted
          invariant deleted == before + set id | id in ids[..k]
        {
          assert ids[..k + 1] == ids[..k] + [ids[k]];
          segs := segs - {ids[k]};
          deleted := deleted + {ids[k]};
        }
        assert ids[..|ids|] == ids;
        assert records[..i + 1] == records[..i] + [records[i]];
      }
      assert records[..|records|] == records;
    }

    /** Run planned job `i`; `segs0` are the files before the pass. */
    method RunJob(jobs: seq<Plan>, i: nat, now: int, ghost segs0: SegmentFiles) returns (done: bool, ghost step: Step)
      requires Valid() && CatalogOk(c, View().disk) && clock <= now && i < |jobs|
      requires StillPlanned(manifest.rawSegments, jobs, i) && Agree(segs0, segs, nextId) && InputsIn(segs0, jobs[i])
      modifies this
      ensures Valid() && CatalogOk(c, View().disk) && clock == now && Next(c, old(View()), step, View())
      ensures StillPlanned(manifest.rawSegments, jobs, i + 1) && Agree(segs0, segs, nextId)
      ensures (done <==> HoldsEvent(segs0, jobs[i])) && IsJob(segs0, jobs[i], now, step)
    {
      hide Rep, SizeOf, LineJsonOk, AllTidy, DirOf, CatalogOk, Next, Filter, IdsOf, Agree, InputsIn, HoldsEvent, IsJob,
        StillPlanned, Compacted, SortAndDedupe, ReadSegments, CompactStep, UnusedAbove;
      var p := jobs[i];
      ghost var before := View();
      JobIsReady(c, before.disk, jobs, i);
      JobReads(c, segs0, before.disk, jobs, i);
      done := RunOnePlan(p.segmentIds, p.bucket, now);
      if done { CompactedIsStep(c, before, now, p.segmentIds, p.bucket); }
      step := if done then Compact(now, p.segmentIds, p.bucket, before.disk.nextId) else Orphans;
      JobRuns(c, before, View(), now, p, done);
      JobLeavesOthers(c, before, View(), now, jobs, i, done);
      AgreeAfterJob(c, segs0, before, View(), now, p, done);
      JobAt(segs0, p, now, step);
    }

    /** The sweep that opens a compaction pass, as two steps of a run. */
    method SweepPass(now: int) returns (ghost states: seq<State>, ghost steps: seq<Step>)
      requires Valid() && CatalogOk(c, View().disk) && clock <= now
      modifies this
      ensures Valid() && CatalogOk(c, View().disk) && clock == now
      ensures Run(c, states, steps) && states[0] == old(View()) && states[|steps|] == View()
      ensures |steps| == 2 && steps[0].DeleteReplaced? && steps[1] == Sweep(now)
      ensures manifest.rawSegments == old(manifest).rawSegments && segs.Keys <= old(segs).Keys
      ensures Agree(old(segs), segs, nextId)
      ensures forall r :: r in old(manifest).compactedReplacements && PastGrace(c, r, now) ==>
                r !in manifest.compactedReplacements && forall id :: id in r.oldSegments ==> id !in segs
    {
      hide Rep, SizeOf, CatalogOk, Next, Filter, DeleteReplacedStep, SweepStep, Agree;
      ghost var s0 := View();
      states, steps := [s0], [];
      var finalized;
      ghost var deleted;
      finalized, deleted := SweepPendingDeletions(now);
      ghost var mid := s0.(clock := now, disk := s0.disk.(segs := s0.disk.segs - deleted));
      SweepRuns(c, s0, mid, View(), now, deleted);
      SweepLeavesListing(c, s0, mid, View(), now, deleted);
      RunSnoc(c, states, steps, DeleteReplaced(now, deleted), mid);
      states, steps := states + [mid], steps + [DeleteReplaced(now, deleted)];
      RunSnoc(c, states, steps, Sweep(now), View());
      states, steps := states + [View()], steps + [Sweep(now)];
    }

    /** A compaction pass: sweep, plan, and run every planned job.  The whole pass is a run of the state
        machine; a job commits exactly if its inputs hold an event, whatever the jobs before it did. */
    method CompactionTick(now: int)
      returns (committed: nat, ghost plans: seq<Plan>, ghost states: seq<State>, ghost steps: seq<Step>)
      requires Valid() && CatalogOk(c, View().disk) && clock <= now
      modifies this
      ensures Valid() && CatalogOk(c, View().disk)
      ensures PlansFor(old(manifest).rawSegments, c.maxSmallSegments, plans)
      ensures committed == CountHolding(old(segs), plans)
      ensures Run(c, states, steps) && states[0] == old(View()) && states[|steps|] == View()
      ensures |steps| == 2 + |plans| && steps[0].DeleteReplaced? && steps[1] == Sweep(now)
      ensures forall i :: 0 <= i < |plans| ==> IsJob(old(segs), plans[i], now, steps[2 + i])
    {
      hide Rep, SizeOf, CatalogOk, Next, Filter, IdsOf, CountHolding, IsJob, PlansFor, Agree, InputsIn, HoldsEvent;
      states, steps := SweepPass(now);
      var jobs := PlanCompaction(manifest.rawSegments, c.maxSmallSegments);
      plans := jobs;
      committed := 0;
      FreshPlans(c, old(segs), View().disk, jobs, c.maxSmallSegments);
      for i := 0 to |jobs|
        invariant Valid() && CatalogOk(c, View().disk) && clock == now
        invariant Run(c, states, steps) && states[0] == old(View()) && states[|steps|] == View()
        invariant |steps| == 2 + i && steps[0].DeleteReplaced? && steps[1] == Sweep(now)
        invariant forall k :: 0 <= k < i ==> IsJob(old(segs), jobs[k], now, steps[2 + k])
        invariant StillPlanned(manifest.rawSegments, jobs, i) && Agree(old(segs), segs, nextId)
        invariant committed == CountHolding(old(segs), jobs[..i])
      {
        hide StillPlanned;
        var done;
        ghost var step;
        done, step := RunJob(jobs, i, now, old(segs));
        RunSnoc(c, states, steps, step, View());
        CountSnoc(old(segs), jobs, i);
        states, steps := states + [View()], steps + [step];
        if done { committed := committed + 1; }
      }
      assert jobs[..|jobs|] == jobs;
    }

    // Queries and periods.

    method ExecutePlan(plan: QueryPlan) returns (answer: Answer)
      requires Valid()
      ensures answer == AnswerTo(c, View(), plan)
    {
      hide CollectRaw, Filter, Aggregate;
      var m := manifest;
      var rows: seq<UsageEvent> := [];
      if plan.source == RawEvents {
        rows := CollectRawEvents(m.rawSegments, segs, memtable.events, c.hashing, plan, plan.fromMs, plan.toMs,
                                 Buckets(m));
      } else {
        var records: seq<RollupRecord> := [];
        var upper := Min(plan.toMs, m.hourlyRollupMs);
        for i := 0 to |m.rollupSegments|
          invariant records == RollupScan(c, m, rollups, plan, m.rollupSegments[..i])
        {
          assert m.rollupSegments[..i + 1][..i] == m.rollupSegments[..i];
          var s := m.rollupSegments[i];
          if RollupSegmentNeeded(c, m, plan, s) {
            var near := Retain(FileRecords(rollups, s.segmentId), HourIn(plan.fromMs, upper));
            records := records + near;
          }
        }
        assert m.rollupSegments[..|m.rollupSegments|] == m.rollupSegments;
        rows := RecordsToEvents(c.json, records);
        if plan.toMs > m.hourlyRollupMs {
          var tail := CollectRawEvents(m.rawSegments, segs, memtable.events, c.hashing, plan,
                                       Max(plan.fromMs, m.hourlyRollupMs), plan.toMs, Buckets(m));
          rows := rows + tail;
        }
      }
      assert rows == Collect(c, m, segs, rollups, memtable.events, plan);
      answer := AggregateEvents(plan, rows);
    }

    /** Close a period with a snapshot of its total; closing it again changes nothing. */
    method ClosePeriod(account: string, year: nat, month: nat, now: int) returns (r: Result<ClosedPeriod>)
      requires Valid() && clock <= now
      modifies this
      ensures Valid()
      ensures c.calendar.bounds(year, month).None? && !IsClosed(old(manifest).closedPeriods, account, year, month) ==>
                r.Err? && View() == old(View()).(clock := now)
      ensures IsClosed(old(manifest).closedPeriods, account, year, month) ==>
                r.Ok? && r.value in old(manifest).closedPeriods && View() == old(View()).(clock := now)
      ensures !IsClosed(old(manifest).closedPeriods, account, year, month) && c.calendar.bounds(year, month).Some? ==>
                var (fromMs, toMs) := c.calendar.bounds(year, month).value;
                r.Ok? && ClosesWithSnapshot(c, old(View()), View(), now, Period(account, year, month, fromMs, toMs),
                                            r.value)
    {
      hide AnswerTo, Rep, SizeOf;
      ghost var old0 := View();
      clock := now;
      var existing := FindClosed(account, year, month);
      if existing.Some? { return Ok(existing.value); }
      var bounds := c.calendar.bounds(year, month);
      if bounds.None? { return Err("invalid year/month"); }
      var (fromMs, toMs) := bounds.value;
      var p := Period(account, year, month, fromMs, toMs);
      var answer := ExecutePlan(TotalPlan(p, RollupHourly));
      SameExceptClock(c, old0, View(), TotalPlan(p, RollupHourly));
      var entry := ClosedPeriod(account, year, month, now, Some(TotalOf(answer)), Some(CountOf(answer)),
                                Some(manifest.hourlyRollupMs));
      manifest := manifest.(closedPeriods := manifest.closedPeriods + [entry]);
      r := Ok(entry);
    }

    method FindClosed(account: string, year: nat, month: nat) returns (found: Option<ClosedPeriod>)
      ensures found.Some? <==> IsClosed(manifest.closedPeriods, account, year, month)
      ensures found.Some? ==> found.value in manifest.closedPeriods && !OtherPeriod(account, year, month)(found.value)
    {
      var closed := manifest.closedPeriods;
      for i := 0 to |closed|
        invariant !IsClosed(closed[..i], account, year, month)
      {
        var p := closed[i];
        if p.accountId == account && p.year == year && p.month == month { return Some(p); }
        assert closed[..i + 1] == closed[..i] + [p];
      }
      assert closed[..|closed|] == closed;
      found := None;
    }

    method ReopenPeriod(account: string, year: nat, month: nat) returns (removed: bool)
      requires Valid()
      modifies this`manifest
      ensures Valid() && ReopenStep(old(View()), View(), account, year, month)
      ensures removed <==> IsClosed(old(manifest).closedPeriods, account, year, month)
      ensures !IsClosed(manifest.closedPeriods, account, year, month)
    {
      hide Filter;
      var p := OtherPeriod(account, year, month);
      var kept := Retain(manifest.closedPeriods, p);
      RetainRemoves(manifest.closedPeriods, account, year, month);
      removed := |kept| < |manifest.closedPeriods|;
      manifest := manifest.(closedPeriods := kept);
    }

    /** What a period reports: the live total while it is open; once closed the frozen figures, the
        adjustments and their sum, and for entries without a snapshot the live total instead. */
    method GetPeriod(account: string, year: nat, month: nat) returns (r: Result<PeriodReport>)
      requires Valid()
      ensures c.calendar.bounds(year, month).None? <==> r.Err?
      ensures r.Ok? ==> var (fromMs, toMs) := c.calendar.bounds(year, month).value;
                        Reports(c, View(), Period(account, year, month, fromMs, toMs), r.value)
    {
      hide AnswerTo;
      var bounds := c.calendar.bounds(year, month);
      if bounds.None? { return Err("invalid year/month"); }
      var (fromMs, toMs) := bounds.value;
      var p := Period(account, year, month, fromMs, toMs);
      var entry := FindClosed(account, year, month);
      if entry.None? {
        var live := ExecutePlan(TotalPlan(p, RollupHourly));
        return Ok(OpenReport(TotalOf(live)));
      }
      var answer := ExecutePlan(AdjustmentPlan(p));
      assert answer.Rows? by { AdjustmentsAreRows(c, View(), p); }
      var rows := answer.rows;
      var sum := 0;
      for i := 0 to |rows|
        invariant sum == AdjustmentsQuantity(rows[..i])
      {
        assert rows[..i + 1][..i] == rows[..i];
        if IsI64(rows[i].quantity) { sum := sum + rows[i].quantity; }
      }
      assert rows[..|rows|] == rows;
      var frozen := entry.value.frozenQuantity;
      var net := if frozen.Some? then Some(SatAdd128(frozen.value, sum)) else None;
      var fallback := None;
      if frozen.None? {
        var live := ExecutePlan(TotalPlan(p, RollupHourly));
        fallback := Some(TotalOf(live));
      }
      r := Ok(ClosedReport(entry.value, rows, sum, net, fallback));
    }
  }

  lemma AdjustmentsAreRows(c: Config, s: State, p: Period)
    requires s.Up?
    ensures AnswerTo(c, s, AdjustmentPlan(p)).Rows?
  {
    hide Collect, Filter;
  }

  /** The bucket count of a new database comes from the configuration. */
  function Initialized(c: Config, m: Manifest): Manifest
  {
    if m.bucketCount == 0 then m.(bucketCount := c.defaultBuckets) else m
  }

  /** An empty directory starts as an empty database with the configured buckets; a database with a bucket count keeps
      it. */
  lemma NewDirectoryIsInitial(c: Config, j: ManifestJson, dir: Directory, clock: int)
    requires Stored(j, dir.manifest) == Ok(None) && dir.wal == map[] && dir.segs == map[] && dir.rollups == map[]
    ensures CatalogueOf(j, dir).Ok?
    ensures var m := Initialized(c, CatalogueOf(j, dir).value);
            Initial(Down(clock, DiskOf(c, m, dir))) && m.bucketCount == c.defaultBuckets
    ensures forall m: Manifest :: m.bucketCount != 0 ==> Initialized(c, m) == m
  {
    hide Stored;
    assert DirOf(c.lines, dir.wal) == map[];
  }

  /** Startup: recover, fix the bucket count of a new database, then serve. */
  method StartEngine(c: Config, lib: IndexLibrary, store: ManifestStore, dir: Directory, ghost clock: int, now: int)
    returns (r: Result<AppState>)
    requires store.dir == dir.manifest && store.currentGeneration == 0
    requires LineJsonOk(c.lines) && AllTidy(dir.wal) && Truthful(c.hashing, lib, dir.segs, dir.sidecars)
    modifies store
    ensures CatalogueOf(store.json, dir).Err? <==> r.Err?
    ensures r.Ok? ==>
              && fresh(r.value) && r.value.Valid() && r.value.c == c
              && RecoverStep(c, Down(clock, DiskOf(c, Initialized(c, CatalogueOf(store.json, dir).value), dir)),
                             r.value.View(), now)
  {
    hide Truthful, RecoverStep, Rep, SizeOf, Stored, LineJsonOk, AllTidy, DirOf, CatalogueOf;
    var started := RunStartupRecovery(c, lib, store, dir, clock, now);
    if started.Err? { return Err(started.message); }
    var a := started.value;
    var m := a.manifest;
    if m.bucketCount == 0 {
      m := m.(bucketCount := c.defaultBuckets);
      store.Save(m);
    }
    var app := new AppState(c, DiskOf(c, m, dir), a.dedupe, a.wal, a.memtable, now);
    BucketCountIrrelevant(c, DiskOf(c, a.manifest, dir), DiskOf(c, m, dir), clock, now,
                          app.View().(disk := DiskOf(c, a.manifest, dir).(wal := a.wal.Dir())));
    r := Ok(app);
  }

  // Lemmas for the methods above.

  lemma RunSnoc(c: Config, states: seq<State>, steps: seq<Step>, step: Step, s': State)
    requires Run(c, states, steps) && Next(c, states[|steps|], step, s')
    ensures Run(c, states + [s'], steps + [step])
  {
    hide Next;
    var all, more := states + [s'], steps + [step];
    forall i | 0 <= i < |more| ensures Next(c, all[i], more[i], all[i + 1]) {
      if i < |steps| { assert all[i] == states[i] && all[i + 1] == states[i + 1] && more[i] == steps[i]; }
    }
  }

  lemma SweepRuns(c: Config, s: State, mid: State, s': State, now: int, deleted: set<SegmentId>)
    requires CatalogOk(c, s.disk) && s.clock <= now
    requires DeleteReplacedStep(c, s, mid, now, deleted) && SweepStep(c, mid, s', now)
    ensures Next(c, s, DeleteReplaced(now, deleted), mid) && Next(c, mid, Sweep(now), s') && CatalogOk(c, s'.disk)
    ensures s'.clock == now
  {
    hide CatalogOk;
    StepKeepsCatalog(c, s, DeleteReplaced(now, deleted), mid);
    StepKeepsCatalog(c, mid, Sweep(now), s');
  }

  /** The jobs from `i` on still list exactly the segments of their buckets. */
  ghost predicate StillPlanned(metas: seq<SegmentMeta>, plans: seq<Plan>, i: nat)
  {
    && (forall k :: i <= k < |plans| ==> plans[k].segmentIds == IdsOf(Filter(metas, OfBucket(plans[k].bucket))))
    && (forall k, l :: 0 <= k < l < |plans| ==> plans[k].bucket != plans[l].bucket)
  }

  /** The inputs of a job hold an event. */
  ghost predicate HoldsEvent(segs: SegmentFiles, p: Plan)
  {
    ReadSegments(segs, p.segmentIds) != []
  }

  ghost function CountHolding(segs: SegmentFiles, plans: seq<Plan>): nat
  {
    if plans == [] then 0
    else CountHolding(segs, plans[..|plans| - 1]) + if HoldsEvent(segs, plans[|plans| - 1]) then 1 else 0
  }

  /** What the machine does for a job: compact its inputs, or nothing but write and remove a file. */
  ghost predicate IsJob(segs: SegmentFiles, p: Plan, now: int, step: Step)
  {
    if HoldsEvent(segs, p)
    then step.Compact? && step.now == now && step.inputs == p.segmentIds && step.bucket == p.bucket
    else step.Orphans?
  }

  lemma JobAt(segs: SegmentFiles, p: Plan, now: int, step: Step)
    requires HoldsEvent(segs, p) ==> exists id :: step == Compact(now, p.segmentIds, p.bucket, id)
    requires !HoldsEvent(segs, p) ==> step.Orphans?
    ensures IsJob(segs, p, now, step)
  {
  }

  lemma CountSnoc(segs: SegmentFiles, plans: seq<Plan>, i: nat)
    requires i < |plans|
    ensures CountHolding(segs, plans[..i + 1])
         == CountHolding(segs, plans[..i]) + if HoldsEvent(segs, plans[i]) then 1 else 0
  {
    assert plans[..i + 1][..i] == plans[..i];
  }

  /** The files of `segs0` that are still there are unchanged, and new files get new ids. */
  ghost predicate Agree(segs0: SegmentFiles, segs: SegmentFiles, nextId: SegmentId)
  {
    forall id :: id in segs0 ==> id < nextId && (id in segs ==> segs[id] == segs0[id])
  }

  /** After the sweep the listing is the same, its files are all there, and nothing else changed. */
  lemma SweepLeavesListing(c: Config, s: State, mid: State, s': State, now: int, deleted: set<SegmentId>)
    requires s.Up? && CatalogOk(c, s.disk) && DeleteReplacedStep(c, s, mid, now, deleted) && SweepStep(c, mid, s', now)
    ensures s'.disk.manifest.rawSegments == s.disk.manifest.rawSegments && s'.disk.segs == s.disk.segs - deleted
    ensures Agree(s.disk.segs, s'.disk.segs, s'.disk.nextId)
  {
    hide Filter, MetaMatchesFile, ReplacedUnlisted;
  }

  /** The plans of a catalogue are still to be done, and their inputs were there before the sweep. */
  lemma FreshPlans(c: Config, segs0: SegmentFiles, d: Disk, plans: seq<Plan>, maxSmall: nat)
    requires PlansFor(d.manifest.rawSegments, maxSmall, plans) && CatalogOk(c, d) && d.segs.Keys <= segs0.Keys
    ensures StillPlanned(d.manifest.rawSegments, plans, 0) && plans[..0] == [] && CountHolding(segs0, plans[..0]) == 0
    ensures forall k :: 0 <= k < |plans| ==> InputsIn(segs0, plans[k])
  {
    hide Filter, IdsOf, CatalogOk;
    var metas := d.manifest.rawSegments;
    forall k | 0 <= k < |plans|
      ensures plans[k].segmentIds == IdsOf(Filter(metas, OfBucket(plans[k].bucket))) && InputsIn(segs0, plans[k])
    {
      assert plans[k] in plans;
      var part := Filter(metas, OfBucket(plans[k].bucket));
      IdsOfListed(part);
      forall id | id in plans[k].segmentIds ensures id in segs0 {
        var i :| 0 <= i < |part| && part[i].segmentId == id;
        FilterMember(metas, OfBucket(plans[k].bucket), part[i]);
        ListedIsThere(c, d, part[i]);
      }
    }
  }

  ghost predicate InputsIn(segs: SegmentFiles, p: Plan)
  {
    forall id :: id in p.segmentIds ==> id in segs
  }

  lemma JobIsReady(c: Config, d: Disk, plans: seq<Plan>, i: nat)
    requires CatalogOk(c, d) && StillPlanned(d.manifest.rawSegments, plans, i) && i < |plans|
    ensures DistinctIdSeq(plans[i].segmentIds) && UnusedAbove(d.segs, d.nextId)
    ensures forall s :: s in d.manifest.rawSegments && s.segmentId in plans[i].segmentIds ==>
            s.bucket == plans[i].bucket
  {
    hide Filter, IdsOf, MetaMatchesFile;
    var metas, p := d.manifest.rawSegments, plans[i];
    var part := Filter(metas, OfBucket(p.bucket));
    FilterDistinct(metas, OfBucket(p.bucket));
    IdsOfListed(part);
    forall s | s in metas && s.segmentId in p.segmentIds ensures s.bucket == p.bucket {
      var k :| 0 <= k < |part| && part[k].segmentId == s.segmentId;
      FilterMember(metas, OfBucket(p.bucket), part[k]);
      SameIdSameMeta(metas, s, part[k]);
    }
  }

  lemma SameIdSameMeta(metas: seq<SegmentMeta>, s: SegmentMeta, t: SegmentMeta)
    requires DistinctSegments(metas) && s in metas && t in metas && s.segmentId == t.segmentId
    ensures s == t
  {
    var i :| 0 <= i < |metas| && metas[i] == s;
    var j :| 0 <= j < |metas| && metas[j] == t;
  }

  /** A job whose turn comes finds all its inputs, and reads what they held before the pass. */
  lemma JobReads(c: Config, segs0: SegmentFiles, d: Disk, plans: seq<Plan>, i: nat)
    requires CatalogOk(c, d) && StillPlanned(d.manifest.rawSegments, plans, i) && i < |plans|
    requires Agree(segs0, d.segs, d.nextId) && InputsIn(segs0, plans[i])
    ensures |Filter(d.manifest.rawSegments, Among(plans[i].segmentIds))| == |plans[i].segmentIds|
    ensures SortAndDedupe(ReadSegments(d.segs, plans[i].segmentIds)) != [] <==> HoldsEvent(segs0, plans[i])
  {
    hide Filter, IdsOf, SortAndDedupe, ReadSegments, MetaMatchesFile, Agree;
    var metas, ids := d.manifest.rawSegments, plans[i].segmentIds;
    JobIsReady(c, d, plans, i);
    var part := Filter(metas, OfBucket(plans[i].bucket));
    IdsOfListed(part);
    forall id | id in ids ensures (exists s :: s in metas && s.segmentId == id) && id in d.segs {
      var k :| 0 <= k < |part| && part[k].segmentId == id;
      FilterMember(metas, OfBucket(plans[i].bucket), part[k]);
      ListedIsThere(c, d, part[k]);
    }
    CountFindsMissing(metas, ids);
    SameReads(segs0, d.segs, d.nextId, ids);
    OutputOfNothing(ReadSegments(d.segs, ids));
  }

  lemma ListedIsThere(c: Config, d: Disk, s: SegmentMeta)
    requires CatalogOk(c, d) && s in d.manifest.rawSegments
    ensures s.segmentId in d.segs
  {
    assert MetaMatchesFile(s, d.segs, c.hashing, Buckets(d.manifest));
  }

  lemma {:induction false} SameReads(segs0: SegmentFiles, segs: SegmentFiles, nextId: SegmentId, ids: seq<SegmentId>)
    requires Agree(segs0, segs, nextId) && forall id :: id in ids ==> id in segs0 && id in segs
    ensures ReadSegments(segs, ids) == ReadSegments(segs0, ids)
    decreases |ids|
  {
    if ids != [] {
      SameReads(segs0, segs, nextId, ids[..|ids| - 1]);
      assert ids[|ids| - 1] in ids;
    }
  }

  lemma OutputOfNothing(es: seq<UsageEvent>)
    ensures SortAndDedupe(es) == [] <==> es == []
  {
    SortAndDedupeSound(es);
    if es != [] { assert es[0].eventId in Ids(es); }
  }

  lemma AgreeAfterJob(c: Config, segs0: SegmentFiles, s: State, s': State, now: int, p: Plan, done: bool)
    requires s.Up? && Agree(segs0, s.disk.segs, s.disk.nextId)
    requires done ==> CompactStep(c, s, s', now, p.segmentIds, p.bucket, s.disk.nextId)
    requires !done ==> s'.disk.segs == s.disk.segs && s.disk.nextId <= s'.disk.nextId
    ensures Agree(segs0, s'.disk.segs, s'.disk.nextId)
  {
    hide CompactionPlan, SortAndDedupe, ReadSegments, Filter, MetaOf;
  }

  lemma JobRuns(c: Config, s: State, s': State, now: int, p: Plan, done: bool)
    requires s.Up? && CatalogOk(c, s.disk) && s.clock <= now
    requires done ==> CompactStep(c, s, s', now, p.segmentIds, p.bucket, s.disk.nextId)
    requires !done ==>
               s' == s.(clock := now, disk := s.disk.(nextId := s'.disk.nextId)) && s.disk.nextId <= s'.disk.nextId
    ensures Next(c, s, if done then Compact(now, p.segmentIds, p.bucket, s.disk.nextId) else Orphans, s')
            && CatalogOk(c, s'.disk)
  {
    hide CatalogOk;
    StepKeepsCatalog(c, s, if done then Compact(now, p.segmentIds, p.bucket, s.disk.nextId) else Orphans, s');
  }

  /** Running one job leaves the segments of the other buckets as they are. */
  lemma JobLeavesOthers(c: Config, s: State, s': State, now: int, plans: seq<Plan>, i: nat, done: bool)
    requires s.Up? && CatalogOk(c, s.disk) && i < |plans| && StillPlanned(s.disk.manifest.rawSegments, plans, i)
    requires done ==> CompactStep(c, s, s', now, plans[i].segmentIds, plans[i].bucket, s.disk.nextId)
    requires !done ==> s'.disk.manifest == s.disk.manifest
    ensures StillPlanned(s'.disk.manifest.rawSegments, plans, i + 1)
  {
    hide Filter, IdsOf, CatalogOk, SortAndDedupe, ReadSegments, Grows;
    var metas, p := s.disk.manifest.rawSegments, plans[i];
    if done {
      var output := SortAndDedupe(ReadSegments(s.disk.segs, p.segmentIds));
      var meta := MetaOf(s.disk.nextId, output, p.bucket);
      var metas' := s'.disk.manifest.rawSegments;
      assert metas' == Filter(metas, NotIn(p.segmentIds)) + [meta];
      JobIsReady(c, s.disk, plans, i);
      forall k | i < k < |plans| ensures plans[k].segmentIds == IdsOf(Filter(metas', OfBucket(plans[k].bucket))) {
        OtherBucketStays(metas, p, meta, plans[k].bucket);
      }
    }
  }

  lemma OtherBucketStays(metas: seq<SegmentMeta>, p: Plan, meta: SegmentMeta, bucket: nat)
    requires meta.bucket == p.bucket != bucket
    requires forall s :: s in metas && s.segmentId in p.segmentIds ==> s.bucket == p.bucket
    ensures Filter(Filter(metas, NotIn(p.segmentIds)) + [meta], OfBucket(bucket)) == Filter(metas, OfBucket(bucket))
  {
    hide Filter;
    FilterSnoc(Filter(metas, NotIn(p.segmentIds)), OfBucket(bucket), meta);
    FilterTwice(metas, NotIn(p.segmentIds), OfBucket(bucket));
    var rest := Filter(Filter(metas, NotIn(p.segmentIds)), OfBucket(bucket));
    assert rest + [] == rest;
  }

  lemma CatalogForRolling(c: Config, s: State)
    requires CatalogOk(c, s.disk)
    ensures AllListed(c, s.disk.manifest, s.disk.segs) && UnusedAbove(s.disk.rollups, s.disk.nextId)
  {
    hide MetaMatchesFile, ReplacedUnlisted;
  }

  lemma {:induction false} FilterShrinks<T>(s: seq<T>, p: T -> bool)
    ensures |Filter(s, p)| <= |s|
    ensures |Filter(s, p)| == |s| <==> forall x :: x in s ==> p(x)
    decreases |s|
  {
    if s != [] {
      FilterShrinks(s[..|s| - 1], p);
      assert s == s[..|s| - 1] + [s[|s| - 1]];
    }
  }

  lemma PlanIsLegal(m: Manifest, ids: seq<SegmentId>, bucket: nat)
    requires DistinctIdSeq(ids) && AllListedIn(m.rawSegments, ids)
    requires forall s :: s in m.rawSegments && s.segmentId in ids ==> s.bucket == bucket
    ensures CompactionPlan(m, ids, bucket)
  {
    forall id | id in ids ensures ListedIn(m, id, bucket) {
      var s :| s in m.rawSegments && s.segmentId == id;
    }
  }

  function IsExpired(c: Config, now: int): ReplacementRecord -> bool
  {
    (r: ReplacementRecord) => Expired(c, r, now)
  }

  ghost predicate InExpired(c: Config, records: seq<ReplacementRecord>, now: int, id: SegmentId)
  {
    exists r :: r in records && id in r.oldSegments && PastGrace(c, r, now)
  }

  lemma ExpiredMembers(c: Config, now: int, records: seq<ReplacementRecord>, id: SegmentId)
    ensures (exists r :: r in Filter(records, IsExpired(c, now)) && id in r.oldSegments)
            <==> InExpired(c, records, now, id)
  {
    hide Filter;
    forall r ensures r in Filter(records, IsExpired(c, now)) <==> r in records && PastGrace(c, r, now) {
      FilterMember(records, IsExpired(c, now), r);
    }
  }

  lemma {:induction false} FilterComplement(c: Config, now: int, records: seq<ReplacementRecord>)
    ensures |Filter(records, IsExpired(c, now))| + |Filter(records, Unexpired(c, now))| == |records|
    decreases |records|
  {
    if records != [] { FilterComplement(c, now, records[..|records| - 1]); }
  }

  function NotAmongKeys(keys: set<(int, seq<SegmentId>)>): ReplacementRecord -> bool
  {
    (r: ReplacementRecord) => (r.committedAtMs, r.oldSegments) !in keys
  }

  /** Dropping by key drops exactly the expired records. */
  lemma KeysDropExpired(c: Config, now: int, records: seq<ReplacementRecord>, keys: set<(int, seq<SegmentId>)>)
    requires keys == set r | r in Filter(records, IsExpired(c, now)) :: (r.committedAtMs, r.oldSegments)
    ensures Filter(records, NotAmongKeys(keys)) == Filter(records, Unexpired(c, now))
  {
    hide Filter;
    forall r | r in records ensures NotAmongKeys(keys)(r) == Unexpired(c, now)(r) {
      SweepKeysAreExact(c, now, records, r);
      FilterMember(records, IsExpired(c, now), r);
      if (r.committedAtMs, r.oldSegments) in keys {
        var x :| x in Filter(records, IsExpired(c, now)) && x.committedAtMs == r.committedAtMs
            && x.oldSegments == r.oldSegments;
        FilterMember(records, IsExpired(c, now), x);
      }
    }
    FilterEqual(records, NotAmongKeys(keys), Unexpired(c, now));
  }

  lemma SameExceptClock(c: Config, s: State, s': State, plan: QueryPlan)
    requires s.Up? && s'.Up? && s'.disk == s.disk && s'.mem == s.mem
    ensures AnswerTo(c, s', plan) == AnswerTo(c, s, plan)
  {
  }

  lemma RetainRemoves(closed: seq<ClosedPeriod>, account: string, year: nat, month: nat)
    ensures var kept := Filter(closed, OtherPeriod(account, year, month));
            && !IsClosed(kept, account, year, month)
            && |kept| <= |closed| && (|kept| < |closed| <==> IsClosed(closed, account, year, month))
  {
    hide Filter;
    var p := OtherPeriod(account, year, month);
    var kept := Filter(closed, p);
    FilterShrinks(closed, p);
    forall i | 0 <= i < |kept| ensures p(kept[i]) { FilterMember(closed, p, kept[i]); }
    if i :| 0 <= i < |closed| && !p(closed[i]) {
      assert closed[i] in closed && IsClosed(closed, account, year, month);
    }
    assert IsClosed(closed, account, year, month) ==> exists i :: 0 <= i < |closed| && !p(closed[i]);
  }
}
