/** Three runs, from an empty database, in which a failed segment write or manifest save loses an acknowledged
    event. */
module FlushFailureRuns {
  import opened Model
  import opened Sums
  import opened Dedupe
  import opened Wals
  import opened Manifests
  import opened Ingest
  import opened Sorting
  import opened Segments
  import opened Engine
  import opened Runs
  import opened Flushing
  import opened FlushFailure
  import opened TornRun
  import opened RestartRuns

  // The pieces of both runs.

  function DiskFor(buckets: nat, wal: WalDir): Disk
  {
    DiskWith(wal).(manifest := FRESH_MANIFEST.(bucketCount := buckets))
  }

  /** A new database with `buckets` buckets, started. */
  function StartedWith(buckets: nat, now: int): State
  {
    Up(now, DiskFor(buckets, EMPTY_LOG), Memory(1, [], None, [], EMPTY_DEDUPE))
  }

  lemma StartIsNext(c: Config, buckets: nat, now: int)
    ensures var down := Down(now, DiskFor(buckets, map[]));
            && Initial(down) && Next(c, down, Recover(now), StartedWith(buckets, now))
            && CoreInv(c, StartedWith(buckets, now)) && Ledger(StartedWith(buckets, now).disk) == multiset{}
  {
    hide RecoverStep, CoreInv, Ledger;
    var down := Down(now, DiskFor(buckets, map[]));
    FirstRecovery(c, now);
    BucketCountIrrelevant(c, DiskWith(map[]), down.disk, now, now, StartedWith(1, now));
    InitialIsSound(c, down);
    StepConserves(c, down, Recover(now), StartedWith(buckets, now));
    OnlyIngestAdds(c, down, Recover(now));
  }

  /** One more event on a clean file. */
  lemma IngestAdds(c: Config, s: State, now: int, a: UsageEvent)
    requires s.Up? && s.mem.activeId in s.disk.wal && s.clock == now && s.disk.manifest.closedPeriods == []
    requires s.disk.wal[s.mem.activeId].tail.Clean? && CoreInv(c, s)
    requires IdOf(c, a) !in s.mem.dedupe.cache && Admissible(c.calendar, [], a)
    ensures var e := Stamped(a, now);
            var s' := WithIngested(c, s, now, e);
            && Next(c, s, Ingest(now, [a]), s') && Acked(c, s, Ingest(now, [a])) == [e]
            && CoreInv(c, s') && Ledger(s'.disk) == Ledger(s.disk) + multiset{e}
  {
    hide Admissible, TriageBatch, Admit, CommitAll, CoreInv, Ledger, Next;
    var e := Stamped(a, now);
    IngestOne(c, s, now, a);
    SingleAccepted(c, s, now, a);
    assert Careful(c, s, Ingest(now, [a]));
    StepConserves(c, s, Ingest(now, [a]), WithIngested(c, s, now, e));
    assert multiset([e]) == multiset{e};
  }

  lemma DrainAdds(c: Config, s: State)
    requires s.Up? && s.mem.memtable != [] && CoreInv(c, s)
    ensures Next(c, s, Drain, Drained(s)) && CoreInv(c, Drained(s)) && Ledger(Drained(s).disk) == Ledger(s.disk)
  {
    hide CoreInv, Ledger;
    StepConserves(c, s, Drain, Drained(s));
    OnlyIngestAdds(c, s, Drain);
    assert Ledger(s.disk) + multiset([]) == Ledger(s.disk);
  }

  /** The engine after the write of bucket number `k` of the oldest message failed. */
  ghost function FailedAt(c: Config, s: State, keys: seq<nat>, k: nat): State
    requires s.Up? && s.mem.inflight != [] && k <= |keys|
  {
    s.(mem := s.mem.(
      inflight := s.mem.inflight[1..],
      memtable := s.mem.memtable + InBuckets(c, s, keys[k..]),
      oldestInsertAtMs := if s.mem.memtable == [] then Some(s.clock) else s.mem.oldestInsertAtMs))
  }

  lemma FailsAt(c: Config, s: State, keys: seq<nat>, k: nat)
    requires s.Up? && s.mem.inflight != [] && k < |keys|
    requires BucketList(c.hashing, Buckets(s.disk.manifest), s.mem.inflight[0].events, keys)
    ensures FailedFlushStep(c, s, FailedAt(c, s, keys, k), s.clock, keys, k)
  {
    hide BucketList, InBuckets;
  }

  /** A segment that holds `e` alone. */
  function SegmentOf(c: Config, m: Manifest, e: UsageEvent, id: SegmentId): SegmentMeta
  {
    MetaOf(id, [e], BucketOf(c, m, e))
  }

  ghost function Committed(c: Config, s: State, e: UsageEvent): State
    requires s.Up? && s.mem.inflight != []
  {
    var m, id, sealedId := s.disk.manifest, s.disk.nextId, s.mem.inflight[0].sealedWalId;
    s.(disk := s.disk.(
         segs := map[id := [e]], nextId := id + 1,
         manifest := m.(rawSegments := m.rawSegments + [SegmentOf(c, m, e, id)],
                        lastSealedWalId := if sealedId > m.lastSealedWalId then sealedId else m.lastSealedWalId)),
       mem := s.mem.(inflight := s.mem.inflight[1..]))
  }

  lemma CommitsOne(c: Config, s: State, e: UsageEvent)
    requires s.Up? && s.mem.inflight != [] && s.mem.inflight[0].events == [e] && s.disk.segs == map[]
    ensures CommitFlushStep(c, s, Committed(c, s, e), [SegmentOf(c, s.disk.manifest, e, s.disk.nextId)])
  {
    hide BucketFor, FlushedAs, MetaOf;
    var id := s.disk.nextId;
    assert SegmentOf(c, s.disk.manifest, e, id).segmentId == id by { SegmentOfId(c, s.disk.manifest, e, id); }
    FlushesOne(c, s.disk.manifest, e, id);
  }

  lemma SegmentOfId(c: Config, m: Manifest, e: UsageEvent, id: SegmentId)
    ensures SegmentOf(c, m, e, id).segmentId == id && SegmentOf(c, m, e, id).bucket == BucketOf(c, m, e)
  {
  }

  lemma FlushesOne(c: Config, m: Manifest, e: UsageEvent, id: SegmentId)
    ensures FlushedAs(c.hashing, Buckets(m), [e], [SegmentOf(c, m, e, id)], map[id := [e]])
  {
    hide BucketFor;
    var seg := SegmentOf(c, m, e, id);
    assert [e][..0] == [];
    assert Filter([e], InBucket(c.hashing, Buckets(m), seg.bucket)) == [e];
    SortIsPermutation([e]);
    SingletonMultiset(SortCanonical([e]), e);
    assert seg in [seg] && HasBucket([seg], seg.bucket);
  }

  // The second bucket's write fails.

  /** Start, ingest `a` and `b`, seal. */
  ghost function BothSealed(c: Config, buckets: nat, now: int, a: UsageEvent, b: UsageEvent): seq<State>
  {
    var started := StartedWith(buckets, now);
    var one := WithIngested(c, started, now, a);
    var two := WithIngested(c, one, now, b);
    [Down(now, DiskFor(buckets, map[])), started, one, two, Drained(two)]
  }

  lemma BothSealedRun(c: Config, buckets: nat, now: int, a: UsageEvent, b: UsageEvent)
    requires Admissible(c.calendar, [], a) && Admissible(c.calendar, [], b) && IdOf(c, a) != IdOf(c, b)
    ensures var e, f := Stamped(a, now), Stamped(b, now);
            var states := BothSealed(c, buckets, now, e, f);
            && Run(c, states, [Recover(now), Ingest(now, [a]), Ingest(now, [b]), Drain]) && Initial(states[0])
            && Acked(c, states[1], Ingest(now, [a])) == [e] && Acked(c, states[2], Ingest(now, [b])) == [f]
            && CoreInv(c, states[4]) && Ledger(states[4].disk) == multiset{e, f}
  {
    hide Admissible, CommitAll, CoreInv, Ledger, Next, Initial, Acked;
    var e, f := Stamped(a, now), Stamped(b, now);
    var states := BothSealed(c, buckets, now, e, f);
    StartIsNext(c, buckets, now);
    IngestAdds(c, states[1], now, a);
    FirstCache(c, e, now);
    IngestAdds(c, states[2], now, b);
    DrainAdds(c, states[3]);
    assert multiset{} + multiset{e} + multiset{f} == multiset{e, f};
  }

  lemma TwoBuckets(c: Config, m: Manifest, e: UsageEvent, f: UsageEvent)
    requires BucketOf(c, m, e) < BucketOf(c, m, f)
    ensures var keys := [BucketOf(c, m, e), BucketOf(c, m, f)];
            && BucketList(c.hashing, Buckets(m), [e, f], keys)
            && Collected(c.hashing, Buckets(m), [e, f], keys[..1]) == [e]
            && Collected(c.hashing, Buckets(m), [e, f], keys[1..]) == [f]
  {
    hide BucketFor;
    var keys := [BucketOf(c, m, e), BucketOf(c, m, f)];
    assert [e, f][..1] == [e] && [e][..0] == [];
    forall b ensures Filter([e, f], InBucket(c.hashing, Buckets(m), b))
                  == (if BucketOf(c, m, e) == b then [e] else []) + if BucketOf(c, m, f) == b then [f] else []
    {
      var p := InBucket(c.hashing, Buckets(m), b);
      assert Filter([e], p) == if BucketOf(c, m, e) == b then [e] else [];
      assert Filter([e, f], p) == Filter([e], p) + if p(f) then [f] else [];
    }
    assert keys[..1] == [BucketOf(c, m, e)] && keys[1..] == [BucketOf(c, m, f)];
    assert keys[..1][..0] == [] && keys[1..][..0] == [];
  }

  /** Start, acknowledge `a` and `b` of two buckets, seal; the write of the second bucket fails; seal and flush:
      `a` is gone from memory and from the disk. */
  lemma EarlierBucketLost(c: Config, buckets: nat, now: int, a: UsageEvent, b: UsageEvent)
    returns (states: seq<State>, failed: State, resealed: State, committed: State, metas: seq<SegmentMeta>)
    requires Admissible(c.calendar, [], a) && Admissible(c.calendar, [], b) && IdOf(c, a) != IdOf(c, b)
    requires var m := FRESH_MANIFEST.(bucketCount := buckets); BucketOf(c, m, a) < BucketOf(c, m, b)
    ensures Run(c, states, [Recover(now), Ingest(now, [a]), Ingest(now, [b]), Drain]) && Initial(states[0])
    ensures Acked(c, states[1], Ingest(now, [a])) == [Stamped(a, now)]
    ensures exists keys :: FailedFlushStep(c, states[4], failed, now, keys, 1)
    ensures DrainStep(failed, resealed) && CommitFlushStep(c, resealed, committed, metas)
    ensures committed.mem.inflight == [] && committed.mem.memtable == []
            && Ledger(committed.disk) == multiset{Stamped(b, now)}
  {
    hide Admissible, CommitAll, CoreInv, Ledger, Next, Initial, Acked, BucketFor, FailedFlushStep, CommitFlushStep,
      BucketList, Collected, Run;
    var e, f := Stamped(a, now), Stamped(b, now);
    states := BothSealed(c, buckets, now, e, f);
    BothSealedRun(c, buckets, now, a, b);
    var s := states[4];
    var m := s.disk.manifest;
    var keys := [BucketOf(c, m, e), BucketOf(c, m, f)];
    assert s.mem.inflight == [FlushMessage([e, f], 1)] by { assert [] + [e] + [f] == [e, f]; }
    TwoBuckets(c, m, e, f);
    FailsAt(c, s, keys, 1);
    failed := FailedAt(c, s, keys, 1);
    resealed := Drained(failed);
    CommitsOne(c, resealed, f);
    committed, metas := Committed(c, resealed, f), [SegmentOf(c, m, f, 0)];
    assert FailedFlushStep(c, s, failed, now, keys, 1);
    SoleMessageLoses(c, s, failed, resealed, committed, now, keys, 1, metas);
    OneLeft(Ledger(committed.disk), e, f);
  }

  lemma OneLeft(m: multiset<UsageEvent>, e: UsageEvent, f: UsageEvent)
    requires multiset{e, f} == m + multiset([e])
    ensures m == multiset{f}
  {
    assert m == multiset{e, f} - multiset([e]);
  }

  // The first write fails while another message is queued.

  /** Start, ingest `a`, seal, ingest `b`, seal. */
  ghost function EachSealed(c: Config, buckets: nat, now: int, a: UsageEvent, b: UsageEvent): seq<State>
  {
    var started := StartedWith(buckets, now);
    var one := WithIngested(c, started, now, a);
    var two := WithIngested(c, Drained(one), now, b);
    [Down(now, DiskFor(buckets, map[])), started, one, Drained(one), two, Drained(two)]
  }

  lemma EachSealedRun(c: Config, buckets: nat, now: int, a: UsageEvent, b: UsageEvent)
    requires Admissible(c.calendar, [], a) && Admissible(c.calendar, [], b) && IdOf(c, a) != IdOf(c, b)
    ensures var e, f := Stamped(a, now), Stamped(b, now);
            var states := EachSealed(c, buckets, now, e, f);
            && Run(c, states, [Recover(now), Ingest(now, [a]), Drain, Ingest(now, [b]), Drain]) && Initial(states[0])
            && Acked(c, states[1], Ingest(now, [a])) == [e] && Acked(c, states[3], Ingest(now, [b])) == [f]
            && CoreInv(c, states[5]) && Ledger(states[5].disk) == multiset{e, f}
  {
    hide Admissible, CommitAll, CoreInv, Ledger, Next, Initial, Acked;
    var e, f := Stamped(a, now), Stamped(b, now);
    var states := EachSealed(c, buckets, now, e, f);
    StartIsNext(c, buckets, now);
    IngestAdds(c, states[1], now, a);
    DrainAdds(c, states[2]);
    FirstCache(c, e, now);
    IngestAdds(c, states[3], now, b);
    DrainAdds(c, states[4]);
    assert multiset{} + multiset{e} + multiset{f} == multiset{e, f};
  }

  lemma OneBucket(c: Config, m: Manifest, e: UsageEvent)
    ensures BucketList(c.hashing, Buckets(m), [e], [BucketOf(c, m, e)])
  {
    hide BucketFor;
    assert [e][..0] == [];
    forall b ensures Filter([e], InBucket(c.hashing, Buckets(m), b)) == if BucketOf(c, m, e) == b then [e] else [] {
    }
  }

  /** Start, acknowledge and seal `a`, acknowledge and seal `b`; the first write for `a` fails; `b` is flushed: `a`
      is back in the memtable, and nowhere on disk. */
  lemma QueuedMessageLost(c: Config, buckets: nat, now: int, a: UsageEvent, b: UsageEvent)
    returns (states: seq<State>, failed: State, committed: State, metas: seq<SegmentMeta>)
    requires Admissible(c.calendar, [], a) && Admissible(c.calendar, [], b) && IdOf(c, a) != IdOf(c, b)
    ensures Run(c, states, [Recover(now), Ingest(now, [a]), Drain, Ingest(now, [b]), Drain]) && Initial(states[0])
    ensures Acked(c, states[1], Ingest(now, [a])) == [Stamped(a, now)]
    ensures exists keys :: FailedFlushStep(c, states[5], failed, now, keys, 0)
    ensures CommitFlushStep(c, failed, committed, metas)
    ensures committed.mem.memtable == [Stamped(a, now)] && Ledger(committed.disk) == multiset{Stamped(b, now)}
  {
    hide Admissible, CommitAll, CoreInv, Ledger, Next, Initial, Acked, BucketFor, FailedFlushStep, CommitFlushStep,
      BucketList, Run;
    var e, f := Stamped(a, now), Stamped(b, now);
    states := EachSealed(c, buckets, now, e, f);
    EachSealedRun(c, buckets, now, a, b);
    var s := states[5];
    var m := s.disk.manifest;
    var keys := [BucketOf(c, m, e)];
    assert s.mem.inflight == [FlushMessage([e], 1), FlushMessage([f], 2)] by {
      assert [] + [e] == [e] && [] + [f] == [f];
    }
    OneBucket(c, m, e);
    FailsAt(c, s, keys, 0);
    failed := FailedAt(c, s, keys, 0);
    CommitsOne(c, failed, f);
    committed, metas := Committed(c, failed, f), [SegmentOf(c, m, f, 0)];
    assert FailedFlushStep(c, s, failed, now, keys, 0);
    QueuedMessageLoses(c, s, failed, failed, committed, now, keys, 0, metas);
    OneLeft(Ledger(committed.disk), e, f);
    BackIs(c, m, e);
  }

  lemma BackIs(c: Config, m: Manifest, e: UsageEvent)
    ensures Collected(c.hashing, Buckets(m), [e], [BucketOf(c, m, e)][0..]) == [e]
  {
    hide BucketFor;
    var keys := [BucketOf(c, m, e)];
    assert keys[0..] == keys && keys[..0] == [] && [e][..0] == [];
    assert Filter([e], InBucket(c.hashing, Buckets(m), keys[0])) == [e];
  }

  // The save fails while another message is queued.

  /** The oldest message, of `e` alone, is committed in memory, but the save fails. */
  ghost function UnsavedCommit(c: Config, s: State, e: UsageEvent): State
    requires s.Up? && s.mem.inflight != []
  {
    var saved := Committed(c, s, e);
    saved.(disk := saved.disk.(segs := s.disk.segs))
  }

  lemma SaveFails(c: Config, s: State, e: UsageEvent)
    requires s.Up? && s.mem.inflight != [] && s.mem.inflight[0].events == [e] && s.disk.segs == map[]
    ensures var m, id := s.disk.manifest, s.disk.nextId;
            FailedSaveStep(c, s, UnsavedCommit(c, s, e), s.clock, [SegmentOf(c, m, e, id)], map[id := [e]])
  {
    hide FlushedAs, SegmentOf, BucketFor;
    CommitsOne(c, s, e);
  }

  /** Start, acknowledge and seal `a`, acknowledge and seal `b`; the manifest save for `a` fails; `b` is flushed: `a`
      is gone from memory and from the disk. */
  lemma UnsavedMessageLost(c: Config, buckets: nat, now: int, a: UsageEvent, b: UsageEvent)
    returns (states: seq<State>, failed: State, committed: State, metas: seq<SegmentMeta>)
    requires Admissible(c.calendar, [], a) && Admissible(c.calendar, [], b) && IdOf(c, a) != IdOf(c, b)
    ensures Run(c, states, [Recover(now), Ingest(now, [a]), Drain, Ingest(now, [b]), Drain]) && Initial(states[0])
    ensures Acked(c, states[1], Ingest(now, [a])) == [Stamped(a, now)]
    ensures exists metas0, files :: FailedSaveStep(c, states[5], failed, now, metas0, files)
    ensures CommitFlushStep(c, failed, committed, metas)
    ensures committed.mem.inflight == [] && committed.mem.memtable == []
            && Ledger(committed.disk) == multiset{Stamped(b, now)}
  {
    hide Admissible, CommitAll, CoreInv, Ledger, Next, Initial, Acked, BucketFor, FailedSaveStep, CommitFlushStep,
      SegmentOf, Run;
    var e, f := Stamped(a, now), Stamped(b, now);
    states := EachSealed(c, buckets, now, e, f);
    EachSealedRun(c, buckets, now, a, b);
    var s := states[5];
    var m := s.disk.manifest;
    assert s.mem.inflight == [FlushMessage([e], 1), FlushMessage([f], 2)] by {
      assert [] + [e] == [e] && [] + [f] == [f];
    }
    failed := UnsavedCommit(c, s, e);
    SaveFails(c, s, e);
    CommitsOne(c, failed, f);
    committed, metas := Committed(c, failed, f), [SegmentOf(c, failed.disk.manifest, f, 1)];
    FailedSaveLoses(c, s, failed, failed, committed, now, [SegmentOf(c, m, e, 0)], map[0 := [e]], metas);
    OneLeft(Ledger(committed.disk), e, f);
  }
}
