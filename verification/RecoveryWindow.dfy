/** What a restart registers in the dedupe cache, told by the events' own times. */
module RecoveryWindow {
  import opened Model
  import opened Manifests
  import opened Segments
  import opened Query
  import opened Engine
  import opened Catalog
  import opened Runs

  /** The file holds an event of the seven days before `now`, or a later one. */
  ghost predicate ReachesWindow(file: seq<UsageEvent>, now: int)
  {
    exists e :: e in file && now - 604_800_000 <= e.timestampMs
  }

  /** The events of the listed segments that reach into the window, in listing order. */
  ghost function WindowEvents(metas: seq<SegmentMeta>, segs: SegmentFiles, now: int): seq<UsageEvent>
  {
    if metas == [] then []
    else
      var file := FileEvents(segs, metas[|metas| - 1].segmentId);
      WindowEvents(metas[..|metas| - 1], segs, now) + if ReachesWindow(file, now) then file else []
  }

  /** Every listed segment that holds anything reaches into the window. */
  ghost predicate AllReachWindow(d: Disk, now: int)
  {
    forall m :: m in d.manifest.rawSegments ==>
      FileEvents(d.segs, m.segmentId) == [] || ReachesWindow(FileEvents(d.segs, m.segmentId), now)
  }

  lemma {:induction false} WindowHoldsAll(metas: seq<SegmentMeta>, segs: SegmentFiles, now: int)
    requires forall m :: m in metas ==>
               FileEvents(segs, m.segmentId) == [] || ReachesWindow(FileEvents(segs, m.segmentId), now)
    ensures WindowEvents(metas, segs, now) == AllEvents(metas, segs)
  {
    hide ReachesWindow, FileEvents;
    if metas != [] {
      WindowHoldsAll(metas[..|metas| - 1], segs, now);
    }
  }

  lemma {:induction false} WindowWithin(metas: seq<SegmentMeta>, segs: SegmentFiles, now: int)
    ensures multiset(WindowEvents(metas, segs, now)) <= multiset(AllEvents(metas, segs))
    decreases |metas|
  {
    if metas != [] { WindowWithin(metas[..|metas| - 1], segs, now); }
  }

  /** The members of `WindowEvents`. */
  lemma {:induction false} InWindowEvents(metas: seq<SegmentMeta>, segs: SegmentFiles, now: int, e: UsageEvent)
    ensures e in WindowEvents(metas, segs, now)
       <==> exists m :: m in metas && e in FileEvents(segs, m.segmentId)
                        && ReachesWindow(FileEvents(segs, m.segmentId), now)
    decreases |metas|
  {
    hide ReachesWindow, FileEvents;
    if metas != [] {
      var n := |metas| - 1;
      InWindowEvents(metas[..n], segs, now, e);
      assert metas == metas[..n] + [metas[n]];
    }
  }

  /** A listed segment passes the code's test on its metadata exactly when it reaches into the window. */
  lemma CutoffIsWindow(c: Config, d: Disk, m: SegmentMeta, now: int)
    requires CatalogOk(c, d) && m in d.manifest.rawSegments && d.segs[m.segmentId] != []
    requires forall e :: e in d.segs[m.segmentId] ==> 0 < e.timestampMs
    ensures RecoveryCutoff(now) <= m.maxTimestampMs <==> ReachesWindow(d.segs[m.segmentId], now)
  {
    hide BucketFor, FilesBelow, ReplacedUnlisted;
    var file := d.segs[m.segmentId];
    PositiveMax(file);
    forall e | e in file ensures e.timestampMs <= MaxTs(file) {
      TimesBound(file, e);
    }
  }

  lemma {:induction false} PositiveMax(batch: seq<UsageEvent>)
    requires batch != [] && forall e :: e in batch ==> 0 < e.timestampMs
    ensures 0 < MaxTs(batch) && exists e :: e in batch && e.timestampMs == MaxTs(batch)
    decreases |batch|
  {
    var n := |batch| - 1;
    assert batch == batch[..n] + [batch[n]];
    if n > 0 { PositiveMax(batch[..n]); }
  }

  lemma {:induction false} FileInAll(metas: seq<SegmentMeta>, segs: SegmentFiles, m: SegmentMeta, e: UsageEvent)
    requires m in metas && e in FileEvents(segs, m.segmentId)
    ensures e in AllEvents(metas, segs)
    decreases |metas|
  {
    var n := |metas| - 1;
    if m != metas[n] { FileInAll(metas[..n], segs, m, e); }
  }

  lemma {:induction false} RecentUpTo(c: Config, d: Disk, now: int, k: nat)
    requires CatalogOk(c, d) && Positive(Raw(d)) && k <= |d.manifest.rawSegments|
    ensures RecentEvents(d.manifest.rawSegments[..k], d.segs, RecoveryCutoff(now))
         == WindowEvents(d.manifest.rawSegments[..k], d.segs, now)
  {
    hide RecoveryCutoff, ReachesWindow, MetaMatchesFile, FilesBelow, ReplacedUnlisted, AllEvents;
    var metas := d.manifest.rawSegments;
    if k > 0 {
      RecentUpTo(c, d, now, k - 1);
      var m := metas[k - 1];
      assert metas[..k][..k - 1] == metas[..k - 1];
      assert m in metas && m.segmentId in d.segs by { ListedHasFile(c, d, m); }
      forall e | e in d.segs[m.segmentId] ensures 0 < e.timestampMs {
        FileInAll(metas, d.segs, m, e);
      }
      if d.segs[m.segmentId] != [] { CutoffIsWindow(c, d, m, now); }
    }
  }

  lemma ListedHasFile(c: Config, d: Disk, m: SegmentMeta)
    requires CatalogOk(c, d) && m in d.manifest.rawSegments
    ensures m.segmentId in d.segs
  {
  }

  /** The catalogue is truthful, and stored times are positive. */
  ghost predicate WellStored(c: Config, d: Disk)
  {
    CatalogOk(c, d) && Positive(Raw(d))
  }

  /** The segments that recovery scans are those that reach into the window. */
  lemma RecentIsWindow(c: Config, d: Disk, now: int)
    requires WellStored(c, d)
    ensures RecentEvents(d.manifest.rawSegments, d.segs, RecoveryCutoff(now))
         == WindowEvents(d.manifest.rawSegments, d.segs, now)
  {
    hide RecentEvents, WindowEvents, RecoveryCutoff, CatalogOk, Positive, Raw;
    RecentUpTo(c, d, now, |d.manifest.rawSegments|);
    assert d.manifest.rawSegments[..|d.manifest.rawSegments|] == d.manifest.rawSegments;
  }

  lemma CoreIsWellStored(c: Config, s: State)
    requires CoreInv(c, s)
    ensures WellStored(c, s.disk)
  {
    hide CatalogOk, Raw, Pending;
    assert forall e :: e in Raw(s.disk) ==> e in Ledger(s.disk);
  }
}
