/** A flush whose bucket write or manifest save fails: what goes back into the memtable, and what is lost. */
module FlushFailure {
  import opened Model
  import opened Sums
  import opened Wals
  import opened Manifests
  import opened Query
  import opened Engine
  import opened Durability
  import opened Catalog
  import opened Runs
  import opened Flushing

  /** The events of the oldest message, in the buckets `keys`. */
  ghost function InBuckets(c: Config, s: State, keys: seq<nat>): seq<UsageEvent>
    requires s.Up? && s.mem.inflight != []
  {
    Collected(c.hashing, Buckets(s.disk.manifest), s.mem.inflight[0].events, keys)
  }

  /** Handling the oldest message fails at bucket number `k`: the segments of the buckets before it are
      removed again, and only the events from bucket `k` on go back into the memtable. */
  ghost predicate FailedFlushStep(c: Config, s: State, s': State, now: int, keys: seq<nat>, k: nat)
  {
    && s.Up? && s'.Up? && s'.clock == now && s.mem.inflight != [] && k < |keys|
    && BucketList(c.hashing, Buckets(s.disk.manifest), s.mem.inflight[0].events, keys)
    && s.disk.nextId <= s'.disk.nextId && s'.disk == s.disk.(nextId := s'.disk.nextId)
    && s'.mem == s.mem.(
         inflight := s.mem.inflight[1..],
         memtable := s.mem.memtable + InBuckets(c, s, keys[k..]),
         oldestInsertAtMs := if s.mem.memtable == [] then Some(now) else s.mem.oldestInsertAtMs)
  }

  // Buckets partition the events.

  lemma {:induction false} CollectedCount(h: Hashing, buckets: nat, events: seq<UsageEvent>, keys: seq<nat>,
                                          e: UsageEvent)
    requires Ascending(keys)
    ensures multiset(Collected(h, buckets, events, keys))[e]
         == if BucketFor(h, e.accountId, buckets) in keys then multiset(events)[e] else 0
    decreases |keys|
  {
    hide Filter, BucketFor;
    if keys != [] {
      var n := |keys| - 1;
      CollectedCount(h, buckets, events, keys[..n], e);
      FilterCount(events, InBucket(h, buckets, keys[n]), e);
      assert keys == keys[..n] + [keys[n]];
      assert keys[n] !in keys[..n];
    }
  }

  lemma CollectedIsAll(h: Hashing, buckets: nat, events: seq<UsageEvent>, keys: seq<nat>)
    requires BucketList(h, buckets, events, keys)
    ensures multiset(Collected(h, buckets, events, keys)) == multiset(events)
  {
    hide Filter, BucketFor, Collected;
    forall e ensures multiset(Collected(h, buckets, events, keys))[e] == multiset(events)[e] {
      CollectedCount(h, buckets, events, keys, e);
      if e in events {
        FilterMember(events, InBucket(h, buckets, BucketFor(h, e.accountId, buckets)), e);
      }
    }
  }

  lemma {:induction false} CollectedSplit(h: Hashing, buckets: nat, events: seq<UsageEvent>, keys: seq<nat>, k: nat)
    requires k <= |keys|
    ensures Collected(h, buckets, events, keys)
         == Collected(h, buckets, events, keys[..k]) + Collected(h, buckets, events, keys[k..])
    decreases |keys|
  {
    hide Filter;
    if k == |keys| {
      assert keys[..k] == keys && keys[k..] == [];
    } else {
      var n := |keys| - 1;
      CollectedSplit(h, buckets, events, keys[..n], k);
      assert keys[..n][..k] == keys[..k] && keys[..n][k..] == keys[k..][..n - k];
      assert keys[k..][n - k] == keys[n];
    }
  }

  lemma OldestMessage(c: Config, s: State, keys: seq<nat>, k: nat)
    requires s.Up? && s.mem.inflight != [] && k <= |keys|
    requires BucketList(c.hashing, Buckets(s.disk.manifest), s.mem.inflight[0].events, keys)
    ensures multiset(s.mem.inflight[0].events) == multiset(InBuckets(c, s, keys[..k]))
            + multiset(InBuckets(c, s, keys[k..]))
  {
    hide Collected, BucketList;
    CollectedIsAll(c.hashing, Buckets(s.disk.manifest), s.mem.inflight[0].events, keys);
    CollectedSplit(c.hashing, Buckets(s.disk.manifest), s.mem.inflight[0].events, keys, k);
  }

  lemma SomethingBefore(c: Config, s: State, keys: seq<nat>, k: nat)
    requires s.Up? && s.mem.inflight != [] && k <= |keys|
    requires BucketList(c.hashing, Buckets(s.disk.manifest), s.mem.inflight[0].events, keys)
    ensures InBuckets(c, s, keys[..k]) == [] <==> k == 0
  {
    hide Filter;
    if k > 0 { assert keys[..k][k - 1] in keys; }
  }

  lemma StillRemaining(h: Hashing, buckets: nat, events: seq<UsageEvent>, keys: seq<nat>, k: nat)
    requires BucketList(h, buckets, events, keys) && k < |keys|
    ensures Collected(h, buckets, events, keys[k..]) != []
  {
    hide Filter;
    var rest := keys[k..];
    assert rest[|rest| - 1] == keys[|keys| - 1] && keys[|keys| - 1] in keys;
  }

  lemma {:induction false} OldestFirst(msgs: seq<FlushMessage>)
    requires msgs != []
    ensures InflightEvents(msgs) == msgs[0].events + InflightEvents(msgs[1..])
    decreases |msgs|
  {
    if |msgs| > 1 {
      var n := |msgs| - 1;
      OldestFirst(msgs[..n]);
      assert msgs[..n][1..] == msgs[1..][..n - 1];
    }
  }

  // What a failed flush forgets.

  /** The events that queries or a later flush can still reach in memory. */
  ghost function InMemory(m: Memory): multiset<UsageEvent>
  {
    multiset(InflightEvents(m.inflight)) + multiset(m.memtable)
  }

  /** Memory loses exactly the events of the buckets written before the failure, so it keeps everything
      exactly when the first write failed. */
  lemma FailedFlushForgets(c: Config, s: State, s': State, now: int, keys: seq<nat>, k: nat)
    requires FailedFlushStep(c, s, s', now, keys, k)
    ensures InMemory(s.mem) == InMemory(s'.mem) + multiset(InBuckets(c, s, keys[..k]))
    ensures InMemory(s.mem) == InMemory(s'.mem) <==> k == 0
  {
    hide InBuckets, BucketList, InflightEvents;
    OldestFirst(s.mem.inflight);
    OldestMessage(c, s, keys, k);
    SomethingBefore(c, s, keys, k);
    var lost, back := InBuckets(c, s, keys[..k]), InBuckets(c, s, keys[k..]);
    assert multiset(s'.mem.memtable) == multiset(s.mem.memtable) + multiset(back);
    assert multiset(InflightEvents(s.mem.inflight)) == multiset(lost) + multiset(back)
           + multiset(InflightEvents(s'.mem.inflight));
    assert lost != [] ==> lost[0] in multiset(lost);
  }

  // What the disk loses with the next commit.

  /** The next commit after a failed flush: that of the next message or, with none queued, of the memtable once it
      is sealed. */
  ghost predicate NextCommit(c: Config, s1: State, s2: State, s3: State, metas: seq<SegmentMeta>)
  {
    s1.Up? && (if s1.mem.inflight != [] then s2 == s1 else DrainStep(s1, s2)) && CommitFlushStep(c, s2, s3, metas)
  }

  /** With nothing else queued, the commit moves the checkpoint past the log file that still held the message, and
      the ledger loses exactly the buckets that were not put back. */
  lemma SoleMessageLoses(
    c: Config, s: State, s1: State, s2: State, s3: State, now: int, keys: seq<nat>, k: nat, metas: seq<SegmentMeta>)
    requires s.Up? && CoreInv(c, s) && |s.mem.inflight| == 1
    requires FailedFlushStep(c, s, s1, now, keys, k) && NextCommit(c, s1, s2, s3, metas)
    ensures Ledger(s.disk) == Ledger(s3.disk) + multiset(InBuckets(c, s, keys[..k]))
  {
    hide CatalogOk, Raw, Unsealed, Coupled, InBuckets, BucketList, FlushedAs, FreshListing, Grows, InflightEvents,
      Positive;
    CoupledMeansReplay(s.disk, s.mem);
    FailedFlushForgets(c, s, s1, now, keys, k);
    assert s1.mem.inflight == [] && s2.mem.inflight == [FlushMessage(s1.mem.memtable, s.mem.activeId)];
    assert InMemory(s1.mem) == multiset(s1.mem.memtable) by { NoneInflight(); }
    assert CatalogOk(c, s2.disk) && Raw(s2.disk) == Raw(s.disk) by { SealKeepsCatalog(c, s.disk, s2.disk); }
    FlushKeepsCatalog(c, s2, s3, metas);
    AboveSealed(s.disk, s.mem);
    assert Unsealed(s3.disk) == [] by { NothingUnsealed(s, s3); }
  }

  /** With another message queued, its commit moves the checkpoint past the failed one: the ledger loses the whole
      message, whichever of its events are back in memory. */
  lemma QueuedMessageLoses(
    c: Config, s: State, s1: State, s2: State, s3: State, now: int, keys: seq<nat>, k: nat, metas: seq<SegmentMeta>)
    requires s.Up? && CoreInv(c, s) && |s.mem.inflight| > 1
    requires FailedFlushStep(c, s, s1, now, keys, k) && NextCommit(c, s1, s2, s3, metas)
    ensures Ledger(s.disk) == Ledger(s3.disk) + multiset(s.mem.inflight[0].events) && s.mem.inflight[0].events != []
  {
    hide CatalogOk, Raw, InBuckets, BucketList, FlushedAs, FreshListing, Grows, InflightEvents, Positive, ReplayRange,
      Chained;
    var d, msgs := s.disk, s.mem.inflight;
    var lo, first, next := d.manifest.lastSealedWalId, msgs[0].sealedWalId, msgs[1].sealedWalId;
    assert CatalogOk(c, s1.disk) && Raw(s1.disk) == Raw(d) by { SealKeepsCatalog(c, d, s1.disk); }
    FlushKeepsCatalog(c, s1, s3, metas);
    ChainAt(d.wal, lo, msgs, 0);
    ChainAt(d.wal, lo, msgs, 1);
    ActiveIsHighest(d, s.mem);
    ReplaySplit(d.wal, lo, first, s.mem.activeId);
    ReplaySplit(d.wal, first, next, s.mem.activeId);
    assert s3.disk.wal == d.wal && s3.disk.manifest.lastSealedWalId == next;
  }

  /** After a failed flush the disk still accounts for everything once the next commit is done exactly when the
      first write failed and nothing else was queued. */
  lemma FailedFlushSafeIff(
    c: Config, s: State, s1: State, s2: State, s3: State, now: int, keys: seq<nat>, k: nat, metas: seq<SegmentMeta>)
    requires s.Up? && CoreInv(c, s) && FailedFlushStep(c, s, s1, now, keys, k) && NextCommit(c, s1, s2, s3, metas)
    ensures Ledger(s.disk) == Ledger(s3.disk) <==> k == 0 && |s.mem.inflight| == 1
  {
    hide CoreInv, Ledger, InBuckets, BucketList, NextCommit;
    if |s.mem.inflight| == 1 {
      SoleMessageLoses(c, s, s1, s2, s3, now, keys, k, metas);
      SomethingBefore(c, s, keys, k);
      var lost := InBuckets(c, s, keys[..k]);
      assert lost != [] ==> lost[0] in multiset(lost);
    } else {
      QueuedMessageLoses(c, s, s1, s2, s3, now, keys, k, metas);
      assert s.mem.inflight[0].events[0] in multiset(s.mem.inflight[0].events);
    }
  }

  // A manifest save that fails.

  /** The segments `files` of the oldest message are written and listed and the checkpoint is moved, all in the
      manifest in memory, but the save fails: the files are removed again and no event goes back.  `believed` is the
      engine with that manifest, which the next save of any kind puts on disk; until then the disk has the old one. */
  ghost predicate FailedSaveStep(
    c: Config, s: State, believed: State, now: int, metas: seq<SegmentMeta>, files: SegmentFiles)
  {
    && s.Up? && believed.Up? && s.clock <= now == believed.clock && s.mem.inflight != []
    && var msg := s.mem.inflight[0];
       var m := s.disk.manifest;
       && s.disk.nextId <= believed.disk.nextId
       && Grows(s.disk.segs, files, s.disk.nextId, believed.disk.nextId)
       && FlushedAs(c.hashing, Buckets(m), msg.events, metas, files)
       && FreshListing(metas, s.disk.nextId, believed.disk.nextId)
       && believed.disk == s.disk.(
            nextId := believed.disk.nextId,
            manifest := m.(rawSegments := m.rawSegments + metas,
                           lastSealedWalId := if msg.sealedWalId > m.lastSealedWalId
                                              then msg.sealedWalId else m.lastSealedWalId))
       && believed.mem == s.mem.(inflight := s.mem.inflight[1..])
  }

  lemma {:induction false} MissingFiles(metas: seq<SegmentMeta>, segs: SegmentFiles)
    requires forall m :: m in metas ==> m.segmentId !in segs
    ensures AllEvents(metas, segs) == []
  {
    if metas != [] {
      MissingFiles(metas[..|metas| - 1], segs);
    }
  }

  lemma ListedInVain(c: Config, d: Disk, metas: seq<SegmentMeta>, hi: SegmentId)
    requires CatalogOk(c, d) && FreshListing(metas, d.nextId, hi)
    ensures multiset(AllEvents(d.manifest.rawSegments + metas, d.segs)) == Raw(d)
  {
    hide AllEvents, MetaMatchesFile;
    AllEventsAppend(d.manifest.rawSegments, metas, d.segs);
    MissingFiles(metas, d.segs);
  }

  /** The commit that the failed save was to be. */
  ghost function Intended(believed: State, files: SegmentFiles): State
    requires believed.Up?
  {
    believed.(disk := believed.disk.(segs := files))
  }

  /** Read through the manifest in memory, the disk has lost the whole message, although its log file is still there;
      and no event of it is left in memory. */
  lemma FailedSaveForgets(
    c: Config, s: State, believed: State, now: int, metas: seq<SegmentMeta>, files: SegmentFiles)
    requires s.Up? && CoreInv(c, s) && FailedSaveStep(c, s, believed, now, metas, files)
    ensures Coupled(believed.disk, believed.mem)
    ensures Ledger(s.disk) == Ledger(believed.disk) + multiset(s.mem.inflight[0].events)
    ensures InMemory(s.mem) == InMemory(believed.mem) + multiset(s.mem.inflight[0].events)
  {
    hide CatalogOk, FlushedAs, FreshListing, Grows, InflightEvents, Positive, ReplayRange, Coupled, Unsealed;
    ListedInVain(c, s.disk, metas, believed.disk.nextId);
    OldestFirst(s.mem.inflight);
    assert CommitFlushStep(c, s, Intended(believed, files), metas);
    FlushKeepsCoupling(c, s, Intended(believed, files), metas);
    SegmentsIrrelevant(believed, files);
  }

  lemma SegmentsIrrelevant(believed: State, files: SegmentFiles)
    requires believed.Up? && Coupled(Intended(believed, files).disk, believed.mem)
    ensures Coupled(believed.disk, believed.mem)
    ensures Unsealed(believed.disk) == Unsealed(Intended(believed, files).disk)
  {
    hide ReplayRange;
  }

  /** A commit adds nothing to the ledger and takes nothing away, also when listed files are missing. */
  lemma CommitConserves(c: Config, s: State, s': State, metas: seq<SegmentMeta>)
    requires CommitFlushStep(c, s, s', metas) && Coupled(s.disk, s.mem)
    requires forall m :: m in s.disk.manifest.rawSegments ==> m.segmentId < s.disk.nextId
    ensures Ledger(s'.disk) == Ledger(s.disk)
  {
    hide AllEvents, Coupled, Unsealed, FlushedAs, FreshListing;
    var m := s.disk.manifest;
    FlushKeepsCoupling(c, s, s', metas);
    AllEventsSame(m.rawSegments, s.disk.segs, s'.disk.segs);
    AllEventsAppend(m.rawSegments, metas, s'.disk.segs);
    FlushConserves(c.hashing, Buckets(m), s.mem.inflight[0].events, metas, s'.disk.segs);
  }

  /** After a failed save the next commit takes the whole message out of the ledger. */
  lemma FailedSaveLoses(
    c: Config, s: State, believed: State, s2: State, s3: State, now: int, metas: seq<SegmentMeta>, files: SegmentFiles,
    metas': seq<SegmentMeta>)
    requires s.Up? && CoreInv(c, s) && FailedSaveStep(c, s, believed, now, metas, files)
    requires NextCommit(c, believed, s2, s3, metas')
    ensures Ledger(s.disk) == Ledger(s3.disk) + multiset(s.mem.inflight[0].events) && s.mem.inflight[0].events != []
  {
    hide Coupled, Unsealed, CommitFlushStep, AllEvents, Grows, FlushedAs, MetaMatchesFile, Positive;
    FailedSaveForgets(c, s, believed, now, metas, files);
    assert Coupled(s2.disk, s2.mem) && Ledger(s2.disk) == Ledger(believed.disk) by {
      if believed.mem.inflight == [] { DrainKeepsCoupling(believed, s2); }
    }
    CommitConserves(c, s2, s3, metas');
    OldestHolds(s);
  }

  lemma OldestHolds(s: State)
    requires s.Up? && Coupled(s.disk, s.mem) && s.mem.inflight != []
    ensures s.mem.inflight[0].events != []
  {
    hide ReplayRange;
    ChainAt(s.disk.wal, s.disk.manifest.lastSealedWalId, s.mem.inflight, 0);
  }

  lemma AboveSealed(d: Disk, m: Memory)
    requires Coupled(d, m)
    ensures d.manifest.lastSealedWalId < m.activeId
  {
    hide ReplayRange;
    ChainMonotone(d.wal, d.manifest.lastSealedWalId, m.inflight, 0, |m.inflight|);
  }

  lemma NoneInflight()
    ensures InflightEvents([]) == []
  {
  }

  lemma SealKeepsCatalog(c: Config, d: Disk, d': Disk)
    requires CatalogOk(c, d) && d.nextId <= d'.nextId && d' == d.(wal := d'.wal, nextId := d'.nextId)
    ensures CatalogOk(c, d') && Raw(d') == Raw(d)
  {
    hide AllEvents, MetaMatchesFile;
  }

  lemma NothingUnsealed(s: State, s3: State)
    requires s.Up? && Coupled(s.disk, s.mem) && s3.disk.wal == s.disk.wal[s.mem.activeId + 1 := EMPTY_FILE]
    requires s3.disk.manifest.lastSealedWalId == s.mem.activeId
    ensures Unsealed(s3.disk) == []
  {
    var id := s.mem.activeId;
    MaxOfBounds(s3.disk.wal.Keys);
    assert id + 1 in s3.disk.wal.Keys;
    assert MaxOf(s3.disk.wal.Keys) == id + 1;
    assert ReplayRange(s3.disk.wal, id, id + 1) == ReplayRange(s3.disk.wal, id, id) + ReplayId(s3.disk.wal, id + 1);
  }
}
