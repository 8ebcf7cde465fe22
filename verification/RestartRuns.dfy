/** What a restart does to the dedupe cache: two runs from an empty database in which it misleads, and
    exactly when the recovered cache knows every stored id. */
module RestartRuns {
  import opened Model
  import opened Sums
  import opened Dedupe
  import opened Wals
  import opened Manifests
  import opened Ingest
  import opened Sorting
  import opened Segments
  import opened Query
  import opened Engine
  import opened Durability
  import opened Runs
  import opened RecoveryWindow
  import opened ExactlyOnce
  import opened RetryWindow
  import opened TornRun

  // One event, ingested and flushed.

  function Stamped(a: UsageEvent, now: int): UsageEvent { a.(ingestedAtMs := now) }

  function SoleSegment(c: Config, e: UsageEvent): SegmentMeta
  {
    MetaOf(0, [e], BucketFor(c.hashing, e.accountId, 1))
  }

  function CacheOf(c: Config, e: UsageEvent, now: int): DedupeState
  {
    CommitAll(EMPTY_DEDUPE, [Hashed(c.hashing, e)], now, c.dedupeCapacity, c.ttlMs)
  }

  /** The disk once `e` is in a segment, with the given log. */
  function FlushedDisk(c: Config, e: UsageEvent, wal: WalDir): Disk
  {
    Disk(FRESH_MANIFEST.(rawSegments := [SoleSegment(c, e)], lastSealedWalId := 1), wal, map[0 := [e]], map[], 1)
  }

  function LogWith(e: UsageEvent): WalFile { WalFile([e], Clean) }

  /** The states of: start, ingest `e`, seal, flush. */
  function FlushStates(c: Config, e: UsageEvent, now: int): seq<State>
  {
    var log := map[1 := LogWith(e), 2 := EMPTY_FILE];
    [Down(now, DiskWith(map[])),
     Up(now, DiskWith(EMPTY_LOG), Memory(1, [], None, [], EMPTY_DEDUPE)),
     Up(now, DiskWith(map[1 := LogWith(e)]), Memory(1, [e], Some(now), [], CacheOf(c, e, now))),
     Up(now, DiskWith(log), Memory(2, [], None, [FlushMessage([e], 1)], CacheOf(c, e, now))),
     Up(now, FlushedDisk(c, e, log), Memory(2, [], None, [], CacheOf(c, e, now)))]
  }

  function FlushSteps(c: Config, b: UsageEvent, now: int): seq<Step>
  {
    [Recover(now), Ingest(now, [b]), Drain, CommitFlush([SoleSegment(c, Stamped(b, now))])]
  }

  lemma FirstRecovery(c: Config, now: int)
    ensures RecoverStep(c, Down(now, DiskWith(map[])),
                        Up(now, DiskWith(EMPTY_LOG), Memory(1, [], None, [], EMPTY_DEDUPE)), now)
  {
    var wal: WalDir := map[];
    assert DeleteThrough(wal, 0) == wal;
    assert IsActiveId(wal, 0, 1) && OpenActive(wal, 1) == EMPTY_LOG;
    assert ReplayRange(wal, 0, 1) == ReplayRange(wal, 0, 0) + ReplayId(wal, 1);
  }

  lemma SingleFlush(c: Config, e: UsageEvent)
    ensures FlushedAs(c.hashing, 1, [e], [SoleSegment(c, e)], map[0 := [e]])
  {
    var h := c.hashing;
    var m := SoleSegment(c, e);
    assert [e][..0] == [];
    assert Filter([e], InBucket(h, 1, m.bucket)) == [e];
    SortIsPermutation([e]);
    SingletonMultiset(SortCanonical([e]), e);
    assert SortCanonical([e]) == [e];
    assert m in [m] && HasBucket([m], m.bucket);
  }

  lemma SingletonMultiset(s: seq<UsageEvent>, e: UsageEvent)
    requires multiset(s) == multiset([e])
    ensures s == [e]
  {
    assert |multiset(s)| == |s| && |multiset([e])| == 1;
    assert s[0] in multiset(s);
  }

  lemma FlushRun(c: Config, b: UsageEvent, now: int)
    requires Admissible(c.calendar, [], b)
    ensures Run(c, FlushStates(c, Stamped(b, now), now), FlushSteps(c, b, now))
    ensures Initial(FlushStates(c, Stamped(b, now), now)[0])
    ensures Acked(c, FlushStates(c, Stamped(b, now), now)[1], Ingest(now, [b])) == [Stamped(b, now)]
  {
    hide RecoverStep, Admissible, TriageBatch, Admit, CommitAll, FlushedAs, BucketFor;
    var e := Stamped(b, now);
    var states, steps := FlushStates(c, e, now), FlushSteps(c, b, now);
    FirstRecovery(c, now);
    SingleAccepted(c, states[1], now, b);
    SingleFlush(c, e);
    assert [] + [e] == [e];
    assert EMPTY_LOG[1 := AppendLines(EMPTY_LOG[1], [e])] == map[1 := LogWith(e)];
    assert Next(c, states[1], steps[1], states[2]);
    var log: WalDir := map[1 := LogWith(e)];
    assert log[2 := EMPTY_FILE] == map[1 := LogWith(e), 2 := EMPTY_FILE];
    assert Next(c, states[2], steps[2], states[3]);
    assert Next(c, states[3], steps[3], states[4]) by {
      var m := SoleSegment(c, e);
      assert [] + [m] == [m];
    }
  }

  /** Two runs, the second starting where the first ends. */
  lemma RunsJoin(c: Config, states: seq<State>, steps: seq<Step>, more: seq<State>, added: seq<Step>)
    requires Run(c, states, steps) && Run(c, more, added) && more[0] == states[|steps|]
    ensures Run(c, states + more[1..], steps + added)
  {
    hide Next;
    var all, moves := states + more[1..], steps + added;
    forall i | 0 <= i < |moves| ensures Next(c, all[i], moves[i], all[i + 1]) {
      if i < |steps| {
        assert Next(c, states[i], steps[i], states[i + 1]);
      } else {
        var k := i - |steps|;
        assert all[i] == more[k] && all[i + 1] == more[k + 1];
      }
    }
  }

  /** The engine with `stored` flushed and its log rotated. */
  ghost function Flushed(c: Config, stored: UsageEvent, now: int): State
  {
    Up(now, FlushedDisk(c, stored, map[1 := LogWith(stored), 2 := EMPTY_FILE]),
       Memory(2, [], None, [], CacheOf(c, stored, now)))
  }

  // A resend that is stored twice.

  /** The engine restarted on the flushed event, whose segment is too old to be registered. */
  ghost function Forgetful(c: Config, e: UsageEvent, now: int): State
  {
    Up(now, FlushedDisk(c, e, map[2 := EMPTY_FILE]), Memory(2, [], None, [], EMPTY_DEDUPE))
  }

  ghost function Doubled(c: Config, e: UsageEvent, now: int): State
  {
    Up(now, FlushedDisk(c, e, map[2 := LogWith(e)]), Memory(2, [e], Some(now), [], CacheOf(c, e, now)))
  }

  lemma SecondRecovery(c: Config, e: UsageEvent, now: int)
    requires 0 < e.timestampMs < now - 604_800_000
    ensures RecoverStep(c, Down(now, FlushedDisk(c, e, map[1 := LogWith(e), 2 := EMPTY_FILE])), Forgetful(c, e, now),
                        now)
  {
    hide BucketFor;
    var wal: WalDir := map[1 := LogWith(e), 2 := EMPTY_FILE];
    var left: WalDir := map[2 := EMPTY_FILE];
    assert DeleteThrough(wal, 1) == left;
    assert IsActiveId(left, 1, 2) && OpenActive(left, 2) == left;
    assert ReplayRange(left, 1, 2) == ReplayRange(left, 1, 1) + ReplayId(left, 2);
    var d := FlushedDisk(c, e, wal);
    assert d.manifest.rawSegments[..0] == [];
    SoleSegmentMax(c, e);
    assert RecentEvents(d.manifest.rawSegments, d.segs, RecoveryCutoff(now)) == [];
  }

  lemma SoleSegmentMax(c: Config, e: UsageEvent)
    requires 0 < e.timestampMs
    ensures SoleSegment(c, e).maxTimestampMs == e.timestampMs
  {
    hide BucketFor;
    assert [e][..0] == [];
    assert MaxTs([e]) == Max(MaxTs([]), e.timestampMs);
  }

  /** Start, ingest and flush an event stamped before the recovery window, restart, and resend it at the
      same instant: it is acknowledged again and stored twice. */
  lemma ResendStoredTwice(c: Config, b: UsageEvent, now: int) returns (states: seq<State>, steps: seq<Step>)
    requires Admissible(c.calendar, [], b) && b.timestampMs < now - 604_800_000
    ensures Run(c, states, steps) && Initial(states[0])
    ensures |steps| == 7 && steps[1] == Ingest(now, [b]) && steps[6] == Ingest(now, [b])
    ensures Acked(c, states[1], steps[1]) == Acked(c, states[6], steps[6]) == [Stamped(b, now)]
    ensures states[7].Up? && (Raw(states[7].disk) + multiset(states[7].mem.memtable))[Stamped(b, now)] == 2
  {
    hide RecoverStep, Admissible, TriageBatch, Admit, CommitAll, Raw, FlushStates, Initial;
    var e := Stamped(b, now);
    var flushed := FlushStates(c, e, now);
    FlushShape(c, e, now);
    var log: WalDir := map[1 := LogWith(e), 2 := EMPTY_FILE];
    var more := [flushed[4], Down(now, FlushedDisk(c, e, log)), Forgetful(c, e, now), Doubled(c, e, now)];
    var added := [Crash, Recover(now), Ingest(now, [b])];
    FlushRun(c, b, now);
    AdmissibleIsPositive(c, b);
    SecondRecovery(c, e, now);
    ResendAccepted(c, b, now);
    assert Run(c, more, added);
    RunsJoin(c, flushed, FlushSteps(c, b, now), more, added);
    states := flushed + more[1..];
    steps := FlushSteps(c, b, now) + added;
    assert states[1] == flushed[1] && states[6] == more[2] && states[7] == more[3];
    RawOfOne(c, e, map[2 := LogWith(e)]);
    assert multiset([e])[e] == 1;
  }

  lemma AdmissibleIsPositive(c: Config, b: UsageEvent)
    requires Admissible(c.calendar, [], b)
    ensures 0 < b.timestampMs
  {
  }

  lemma FlushShape(c: Config, e: UsageEvent, now: int)
    ensures |FlushStates(c, e, now)| == 5 && FlushStates(c, e, now)[4] == Flushed(c, e, now)
  {
  }

  lemma ResendAccepted(c: Config, b: UsageEvent, now: int)
    requires Admissible(c.calendar, [], b)
    ensures var e := Stamped(b, now);
            && Next(c, Forgetful(c, e, now), Ingest(now, [b]), Doubled(c, e, now))
            && Acked(c, Forgetful(c, e, now), Ingest(now, [b])) == [e]
  {
    hide Admissible, TriageBatch, Admit, CommitAll;
    var e := Stamped(b, now);
    SingleAccepted(c, Forgetful(c, e, now), now, b);
    var wal: WalDir := map[2 := EMPTY_FILE];
    assert [] + [e] == [e] && wal[2 := AppendLines(wal[2], [e])] == map[2 := LogWith(e)];
  }

  lemma RawOfOne(c: Config, e: UsageEvent, wal: WalDir)
    ensures Raw(FlushedDisk(c, e, wal)) == multiset([e])
  {
    var d := FlushedDisk(c, e, wal);
    assert d.manifest.rawSegments[..0] == [];
    assert AllEvents([], d.segs) + FileEvents(d.segs, 0) == [e];
  }

  // An entry that outlives its time.

  function Entry(c: Config, e: UsageEvent): DedupeEntry { DedupeEntry(PayloadHash(c.hashing, e), e.ingestedAtMs) }

  function IdOf(c: Config, e: UsageEvent): Hash { c.hashing.idHash(e.eventId) }

  /** Recovery registers the replayed event first, the stored one second. */
  function Swapped(c: Config, replayed: UsageEvent, stored: UsageEvent): DedupeState
  {
    DedupeState(map[IdOf(c, replayed) := Entry(c, replayed)][IdOf(c, stored) := Entry(c, stored)],
                [(IdOf(c, replayed), replayed.ingestedAtMs), (IdOf(c, stored), stored.ingestedAtMs)])
  }

  lemma RegistersSwapped(c: Config, replayed: UsageEvent, stored: UsageEvent)
    requires IdOf(c, replayed) != IdOf(c, stored)
    ensures RegisterAll(c.hashing, RegisterAll(c.hashing, EMPTY_DEDUPE, [replayed]), [stored])
            == Swapped(c, replayed, stored)
  {
    hide PayloadHash;
    var h := c.hashing;
    assert [replayed][..0] == [] && [stored][..0] == [];
    var one := InsertKnown(EMPTY_DEDUPE, IdOf(c, replayed), PayloadHash(h, replayed), replayed.ingestedAtMs);
    assert RegisterAll(h, EMPTY_DEDUPE, [replayed]) == one;
    var two := InsertKnown(one, IdOf(c, stored), PayloadHash(h, stored), stored.ingestedAtMs);
    assert RegisterAll(h, one, [stored]) == two;
  }

  lemma CommitSingle(c: Config, d: DedupeState, e: UsageEvent, now: int)
    ensures CommitAll(d, [Hashed(c.hashing, e)], now, c.dedupeCapacity, c.ttlMs)
         == Commit(d, IdOf(c, e), PayloadHash(c.hashing, e), now, c.dedupeCapacity, c.ttlMs)
  {
    hide Commit;
    assert [Hashed(c.hashing, e)][..0] == [];
    assert CommitAll(d, [], now, c.dedupeCapacity, c.ttlMs) == d;
  }

  lemma FirstCache(c: Config, e: UsageEvent, now: int)
    ensures CacheOf(c, e, now).cache.Keys <= {IdOf(c, e)}
  {
    CommitSingle(c, EMPTY_DEDUPE, e, now);
    var one := InsertKnown(EMPTY_DEDUPE, IdOf(c, e), PayloadHash(c.hashing, e), now);
    assert Trim(one, 0) == Pop(one);
  }

  /** The replayed entry is not expired, so expiry stops at it. */
  lemma SwappedStays(c: Config, replayed: UsageEvent, stored: UsageEvent, e: UsageEvent, now: int)
    requires IdOf(c, replayed) != IdOf(c, stored) && 3 <= c.dedupeCapacity && now - c.ttlMs <= replayed.ingestedAtMs
    requires IdOf(c, e) != IdOf(c, stored) && IdOf(c, e) != IdOf(c, replayed)
    ensures var d := CommitAll(Swapped(c, replayed, stored), [Hashed(c.hashing, e)], now, c.dedupeCapacity, c.ttlMs);
            IdOf(c, stored) in d.cache && d.cache[IdOf(c, stored)].firstSeenMs == stored.ingestedAtMs
  {
    hide PayloadHash;
    CommitSingle(c, Swapped(c, replayed, stored), e, now);
  }

  ghost function Replaying(c: Config, stored: UsageEvent, replayed: UsageEvent, now: int): State
  {
    Up(now, FlushedDisk(c, stored, map[2 := LogWith(replayed)]),
       Memory(2, [replayed], Some(now), [], Swapped(c, replayed, stored)))
  }

  lemma MixedRecovery(c: Config, stored: UsageEvent, replayed: UsageEvent, now: int)
    requires 0 < stored.timestampMs && now - 604_800_000 <= stored.timestampMs && IdOf(c, replayed) != IdOf(c, stored)
    ensures RecoverStep(c, Down(now, FlushedDisk(c, stored, map[1 := LogWith(stored), 2 := LogWith(replayed)])),
                        Replaying(c, stored, replayed, now), now)
  {
    hide BucketFor, RegisterAll;
    var wal: WalDir := map[1 := LogWith(stored), 2 := LogWith(replayed)];
    var left: WalDir := map[2 := LogWith(replayed)];
    assert DeleteThrough(wal, 1) == left;
    assert IsActiveId(left, 1, 2) && OpenActive(left, 2) == left;
    assert ReplayRange(left, 1, 2) == ReplayRange(left, 1, 1) + ReplayId(left, 2) == [replayed];
    var d := FlushedDisk(c, stored, wal);
    assert d.manifest.rawSegments[..0] == [];
    SoleSegmentMax(c, stored);
    assert RecentEvents([], d.segs, RecoveryCutoff(now)) + FileEvents(d.segs, 0) == [stored];
    assert RecentEvents(d.manifest.rawSegments, d.segs, RecoveryCutoff(now)) == [stored];
    RegistersSwapped(c, replayed, stored);
  }

  /** Accepting one event onto a clean active file. */
  ghost function WithIngested(c: Config, s: State, now: int, e: UsageEvent): State
    requires s.Up? && s.mem.activeId in s.disk.wal
  {
    var id := s.mem.activeId;
    Up(now, s.disk.(wal := s.disk.wal[id := AppendLines(s.disk.wal[id], [e])]),
       s.mem.(memtable := s.mem.memtable + [e],
              oldestInsertAtMs := if s.mem.memtable == [] then Some(now) else s.mem.oldestInsertAtMs,
              dedupe := CommitAll(s.mem.dedupe, [Hashed(c.hashing, e)], now, c.dedupeCapacity, c.ttlMs)))
  }

  lemma IngestOne(c: Config, s: State, now: int, a: UsageEvent)
    requires s.Up? && s.mem.activeId in s.disk.wal && s.clock <= now && s.disk.manifest.closedPeriods == []
    requires IdOf(c, a) !in s.mem.dedupe.cache && Admissible(c.calendar, [], a)
    ensures Next(c, s, Ingest(now, [a]), WithIngested(c, s, now, Stamped(a, now)))
  {
    hide Admissible, TriageBatch, Admit, CommitAll;
    SingleAccepted(c, s, now, a);
  }

  /** The states from there of: ingest `replayed`, crash, restart, ingest `e`. */
  ghost function RestartStates(c: Config, stored: UsageEvent, replayed: UsageEvent, e: UsageEvent, t0: int, t1: int,
                               t2: int): seq<State>
  {
    var start, back := Flushed(c, stored, t0), Replaying(c, stored, replayed, t1);
    var busy := WithIngested(c, start, t1, replayed);
    [start, busy, Down(t1, busy.disk), back, WithIngested(c, back, t2, e)]
  }

  lemma RestartRun(c: Config, stored: UsageEvent, a: UsageEvent, z: UsageEvent, t0: int, t1: int, t2: int)
    requires Admissible(c.calendar, [], a) && Admissible(c.calendar, [], z)
    requires IdOf(c, a) != IdOf(c, stored) && IdOf(c, z) != IdOf(c, a) && IdOf(c, z) != IdOf(c, stored)
    requires t0 <= t1 <= t2 && t1 - 604_800_000 <= stored.timestampMs && 0 < stored.timestampMs
    ensures Run(c, RestartStates(c, stored, Stamped(a, t1), Stamped(z, t2), t0, t1, t2),
                [Ingest(t1, [a]), Crash, Recover(t1), Ingest(t2, [z])])
  {
    hide RecoverStep, Admissible, CommitAll, Run, Next, FlushedDisk;
    var replayed := Stamped(a, t1);
    var states := RestartStates(c, stored, replayed, Stamped(z, t2), t0, t1, t2);
    FirstCache(c, stored, t0);
    assert states[0].disk.wal == map[1 := LogWith(stored), 2 := EMPTY_FILE]
           && states[0].disk.manifest.closedPeriods == []
           && states[3].disk.wal == map[2 := LogWith(replayed)] && states[3].disk.manifest.closedPeriods == []
      by { DiskShape(c, stored); }
    IngestOne(c, states[0], t1, a);
    assert Next(c, states[1], Crash, states[2]) by { CrashIsNext(c, states[1], states[2]); }
    MixedRecovery(c, stored, replayed, t1);
    LogGrows(c, stored, replayed);
    assert Next(c, states[2], Recover(t1), states[3]) by { RecoverIsNext(c, states[2], states[3], t1); }
    IngestOne(c, states[3], t2, z);
    RunOfFour(c, states, [Ingest(t1, [a]), Crash, Recover(t1), Ingest(t2, [z])]);
  }

  lemma DiskShape(c: Config, e: UsageEvent)
    ensures forall wal :: FlushedDisk(c, e, wal).wal == wal && FlushedDisk(c, e, wal).manifest.closedPeriods == []
  {
  }

  lemma CrashIsNext(c: Config, s: State, s': State)
    requires s.Up? && s' == Down(s.clock, s.disk)
    ensures Next(c, s, Crash, s')
  {
  }

  lemma RecoverIsNext(c: Config, s: State, s': State, now: int)
    requires RecoverStep(c, s, s', now) && s.clock <= now
    ensures Next(c, s, Recover(now), s')
  {
  }

  /** Start at `t0`, ingest and flush `b`; at `t1` ingest `a`, crash and restart; at `t2` ingest `z`.
      The entry of `b` is older than the time to live, and still cached after that commit. */
  lemma ExpiredEntrySurvives(c: Config, a: UsageEvent, b: UsageEvent, z: UsageEvent, t0: int, t1: int, t2: int)
    returns (states: seq<State>, steps: seq<Step>)
    requires Admissible(c.calendar, [], a) && Admissible(c.calendar, [], b) && Admissible(c.calendar, [], z)
    requires IdOf(c, a) != IdOf(c, b) && IdOf(c, z) != IdOf(c, a) && IdOf(c, z) != IdOf(c, b) && 3 <= c.dedupeCapacity
    requires t0 <= t1 <= t2 && t0 < t2 - c.ttlMs <= t1 && t1 - 604_800_000 <= b.timestampMs
    ensures Run(c, states, steps) && Initial(states[0]) && |steps| == 8 && steps[7] == Ingest(t2, [z])
    ensures states[8].Up? && IdOf(c, b) in states[8].mem.dedupe.cache
    ensures states[8].mem.dedupe.cache[IdOf(c, b)].firstSeenMs < t2 - c.ttlMs
  {
    hide Admissible, FlushStates, Initial, CommitAll, Run, Flushed, Swapped;
    var stored, replayed, e := Stamped(b, t0), Stamped(a, t1), Stamped(z, t2);
    var flushed := FlushStates(c, stored, t0);
    var more := RestartStates(c, stored, replayed, e, t0, t1, t2);
    var added := [Ingest(t1, [a]), Crash, Recover(t1), Ingest(t2, [z])];
    FlushShape(c, stored, t0);
    FlushRun(c, b, t0);
    AdmissibleIsPositive(c, b);
    RestartRun(c, stored, a, z, t0, t1, t2);
    SwappedStays(c, replayed, stored, e, t2);
    RunsJoin(c, flushed, FlushSteps(c, b, t0), more, added);
    states := flushed + more[1..];
    steps := FlushSteps(c, b, t0) + added;
    assert states[0] == flushed[0] && states[8] == more[4];
  }

  lemma LogGrows(c: Config, stored: UsageEvent, replayed: UsageEvent)
    ensures var wal: WalDir := map[1 := LogWith(stored), 2 := EMPTY_FILE];
            FlushedDisk(c, stored, wal).(wal := wal[2 := AppendLines(wal[2], [replayed])])
              == FlushedDisk(c, stored, map[1 := LogWith(stored), 2 := LogWith(replayed)])
  {
    var wal: WalDir := map[1 := LogWith(stored), 2 := EMPTY_FILE];
    assert [] + [replayed] == [replayed];
    assert AppendLines(EMPTY_FILE, [replayed]) == LogWith(replayed);
    assert wal[2 := LogWith(replayed)] == map[1 := LogWith(stored), 2 := LogWith(replayed)];
  }

  lemma RunOfFour(c: Config, states: seq<State>, steps: seq<Step>)
    requires |states| == 5 && |steps| == 4
    requires Next(c, states[0], steps[0], states[1]) && Next(c, states[1], steps[1], states[2])
    requires Next(c, states[2], steps[2], states[3]) && Next(c, states[3], steps[3], states[4])
    ensures Run(c, states, steps)
  {
    hide Next;
  }

  // Exactly when the recovered cache knows every stored id.

  ghost predicate KnowsAllIds(h: Hashing, cache: map<Hash, DedupeEntry>, m: multiset<UsageEvent>)
  {
    forall x :: x in m ==> h.idHash(x.eventId) in cache
  }

  /** The events of the segments that recovery does not register. */
  ghost function OldEvents(metas: seq<SegmentMeta>, segs: SegmentFiles, now: int): seq<UsageEvent>
  {
    if metas == [] then []
    else
      var file := FileEvents(segs, metas[|metas| - 1].segmentId);
      OldEvents(metas[..|metas| - 1], segs, now) + if ReachesWindow(file, now) then [] else file
  }

  lemma {:induction false} RecentAndOld(metas: seq<SegmentMeta>, segs: SegmentFiles, now: int)
    ensures multiset(AllEvents(metas, segs)) == multiset(WindowEvents(metas, segs, now))
            + multiset(OldEvents(metas, segs, now))
    decreases |metas|
  {
    hide ReachesWindow;
    if metas != [] {
      var n := |metas| - 1;
      RecentAndOld(metas[..n], segs, now);
      var events := FileEvents(segs, metas[n].segmentId);
      assert multiset(AllEvents(metas, segs)) == multiset(AllEvents(metas[..n], segs)) + multiset(events);
    }
  }

  lemma {:induction false} OldIsEmptyIff(metas: seq<SegmentMeta>, segs: SegmentFiles, now: int)
    ensures OldEvents(metas, segs, now) == []
       <==> forall m :: m in metas ==>
              FileEvents(segs, m.segmentId) == [] || ReachesWindow(FileEvents(segs, m.segmentId), now)
    decreases |metas|
  {
    hide FileEvents, ReachesWindow;
    if metas != [] {
      var n := |metas| - 1;
      OldIsEmptyIff(metas[..n], segs, now);
      assert metas == metas[..n] + [metas[n]];
    }
  }

  /** A stored event that recovery does not register is unknown to the cache. */
  lemma OldIsUnknown(c: Config, s: State, s': State, now: int, x: UsageEvent)
    requires RecoverStep(c, s, s', now) && WellStored(c, s.disk) && UniqueLedger(Ledger(s.disk)) && Injective(c.hashing)
    requires x in OldEvents(s.disk.manifest.rawSegments, s.disk.segs, now)
    ensures c.hashing.idHash(x.eventId) !in s'.mem.dedupe.cache
  {
    hide RegisterAll, RecentEvents, OldEvents, AllEvents, ReplayRange, Injective, UniqueLedger, Recovered, Rep,
      WellStored;
    var h, k := c.hashing, c.hashing.idHash(x.eventId);
    var known := Recovered(s, s', now);
    RecoveredAreDistinct(c, s, s', now);
    EmptyRemembers(h);
    RegisterAllKeeps(h, EMPTY_DEDUPE, known);
    if k in s'.mem.dedupe.cache {
      var i :| 0 <= i < |known| && h.idHash(known[i].eventId) == k;
      assert known[i].eventId == x.eventId by { SameId(h, known[i], x); }
      LedgerSplits(c, s, s', now);
      SharedIdTwice(Ledger(s.disk), multiset(known),
                    multiset(OldEvents(s.disk.manifest.rawSegments, s.disk.segs, now)), known[i], x);
      assert false;
    }
  }

  lemma SameId(h: Hashing, a: UsageEvent, b: UsageEvent)
    requires Injective(h) && h.idHash(a.eventId) == h.idHash(b.eventId)
    ensures a.eventId == b.eventId
  {
  }

  lemma SharedIdTwice(m: multiset<UsageEvent>, p: multiset<UsageEvent>, q: multiset<UsageEvent>, a: UsageEvent,
                      b: UsageEvent)
    requires m == p + q && a in p && b in q && a.eventId == b.eventId
    ensures !UniqueLedger(m)
  {
    assert a in m && b in m;
    assert a == b ==> m[a] >= 2;
  }

  /** What recovery registers and what it does not, together, is the ledger. */
  lemma LedgerSplits(c: Config, s: State, s': State, now: int)
    requires RecoverStep(c, s, s', now)
    ensures Ledger(s.disk) == multiset(Recovered(s, s', now))
                              + multiset(OldEvents(s.disk.manifest.rawSegments, s.disk.segs, now))
  {
    hide RecentEvents, WindowEvents, OldEvents, AllEvents, Unsealed, Coupled, ReplayRange, RegisterAll;
    RecoverKeepsCoupling(c, s, s', now);
    RecentAndOld(s.disk.manifest.rawSegments, s.disk.segs, now);
    var recent := WindowEvents(s.disk.manifest.rawSegments, s.disk.segs, now);
    assert multiset(s'.mem.memtable + recent) == multiset(s'.mem.memtable) + multiset(recent);
  }

  /** Recovery knows every id it registers. */
  lemma RegisteredAreKnown(c: Config, s: State, s': State, now: int, x: UsageEvent)
    requires RecoverStep(c, s, s', now) && WellStored(c, s.disk) && UniqueLedger(Ledger(s.disk)) && Injective(c.hashing)
    requires s'.Up? && x in Recovered(s, s', now)
    ensures c.hashing.idHash(x.eventId) in s'.mem.dedupe.cache
  {
    hide RegisterAll, RecoverStep, UniqueLedger, Injective, DistinctHashes, Recovered, Rep, Behind, WellStored;
    RecoveredAreDistinct(c, s, s', now);
    var known := Recovered(s, s', now);
    var i :| 0 <= i < |known| && known[i] == x;
    RegisterAllSeen(c.hashing, known, i);
  }

  /** After a restart the cache knows every stored id exactly when every listed segment that holds
      anything reaches into the recovery window. */
  lemma RecoveredKnowsAllIff(c: Config, s: State, s': State, now: int)
    requires RecoverStep(c, s, s', now) && WellStored(c, s.disk) && UniqueLedger(Ledger(s.disk)) && Injective(c.hashing)
    ensures KnowsAllIds(c.hashing, s'.mem.dedupe.cache, Ledger(s.disk)) <==> AllReachWindow(s.disk, now)
  {
    hide RecoverStep, UniqueLedger, Injective, Ledger, OldEvents, Recovered, ReachesWindow, WellStored;
    assert s'.Up? by { RecoverIsUp(c, s, s', now); }
    var stale := OldEvents(s.disk.manifest.rawSegments, s.disk.segs, now);
    OldIsEmptyIff(s.disk.manifest.rawSegments, s.disk.segs, now);
    LedgerSplits(c, s, s', now);
    if stale == [] {
      forall x | x in Ledger(s.disk) ensures c.hashing.idHash(x.eventId) in s'.mem.dedupe.cache {
        assert x in multiset(Recovered(s, s', now));
        RegisteredAreKnown(c, s, s', now, x);
      }
    } else {
      assert stale[0] in multiset(stale) && stale[0] in Ledger(s.disk);
      OldIsUnknown(c, s, s', now, stale[0]);
    }
  }

  lemma RecoverIsUp(c: Config, s: State, s': State, now: int)
    requires RecoverStep(c, s, s', now)
    ensures s'.Up?
  {
  }

  /** Whatever the disk holds, the cache after a restart knows exactly the ids of the replayed log and of the listed
      segments that hold an event of the last seven days. */
  lemma RecoveredKnowsIff(c: Config, s: State, s': State, now: int, k: Hash)
    requires RecoverStep(c, s, s', now) && WellStored(c, s.disk)
    ensures k in s'.mem.dedupe.cache
       <==> || (exists e :: e in s'.mem.memtable && c.hashing.idHash(e.eventId) == k)
            || (exists m, e :: m in s.disk.manifest.rawSegments && e in FileEvents(s.disk.segs, m.segmentId)
                  && ReachesWindow(FileEvents(s.disk.segs, m.segmentId), now) && c.hashing.idHash(e.eventId) == k)
  {
    hide RegisterAll, WindowEvents, ReplayRange, WellStored, Rep, ReachesWindow, FileEvents, Remembers;
    var h, known := c.hashing, Recovered(s, s', now);
    RecoveredAreRegistered(c, s, s', now);
    EmptyRemembers(h);
    RegisterAllKeeps(h, EMPTY_DEDUPE, known);
    forall e ensures e in WindowEvents(s.disk.manifest.rawSegments, s.disk.segs, now)
                <==> exists m :: m in s.disk.manifest.rawSegments && e in FileEvents(s.disk.segs, m.segmentId)
                                 && ReachesWindow(FileEvents(s.disk.segs, m.segmentId), now)
    {
      InWindowEvents(s.disk.manifest.rawSegments, s.disk.segs, now, e);
    }
    if k in s'.mem.dedupe.cache {
      var i :| 0 <= i < |known| && h.idHash(known[i].eventId) == k;
      assert known[i] in known;
    }
    if e :| e in known && h.idHash(e.eventId) == k {
      AllRegistered(h, EMPTY_DEDUPE, known, e);
    }
  }

  lemma {:induction false} AllRegistered(h: Hashing, d: DedupeState, es: seq<UsageEvent>, e: UsageEvent)
    requires e in es
    ensures h.idHash(e.eventId) in RegisterAll(h, d, es).cache
    decreases |es|
  {
    hide PayloadHash;
    var n := |es| - 1;
    if e != es[n] { AllRegistered(h, d, es[..n], e); }
  }

  /** A stored event of the last seven days is known after a restart, so resending it stores nothing. */
  lemma RecentEventIsKnown(c: Config, s: State, s': State, now: int, m: SegmentMeta, e: UsageEvent)
    requires RecoverStep(c, s, s', now) && WellStored(c, s.disk) && m in s.disk.manifest.rawSegments
    requires e in FileEvents(s.disk.segs, m.segmentId) && now - 604_800_000 <= e.timestampMs
    ensures c.hashing.idHash(e.eventId) in s'.mem.dedupe.cache
  {
    hide RecoverStep, WellStored, FileEvents;
    RecoveredKnowsIff(c, s, s', now, c.hashing.idHash(e.eventId));
  }
}
