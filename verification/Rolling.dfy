/** The hour loop of a rollup tick. */
module Rolling {
  import opened Model
  import opened Sums
  import opened Manifests
  import opened Segments
  import opened Query
  import opened Rollup
  import opened Engine
  import opened Flushing

  /** The entries of the builder of each bucket. */
  type HourTable = map<nat, Aggregates>

  /** What the table must hold for `bucket` after the events `done`: the entries for the bucket's events
      of this hour if there are any and the slot has no rollup yet, and nothing otherwise. */
  ghost predicate BucketHolds(c: Config, m: Manifest, hour: int, done: seq<UsageEvent>, table: HourTable, bucket: nat)
  {
    var es := Filter(done, InHourBucket(c, m, hour, bucket));
    && (bucket in table <==> !RolledUp(m, hour, bucket) && es != [])
    && (bucket in table ==> table[bucket] == Aggregated(c.json, es))
  }

  ghost predicate TableHolds(c: Config, m: Manifest, hour: int, done: seq<UsageEvent>, table: HourTable)
  {
    forall b: nat :: BucketHolds(c, m, hour, done, table, b)
  }

  /** One more event of the hour. */
  lemma AddHolds(c: Config, m: Manifest, hour: int, done: seq<UsageEvent>, table: HourTable, e: UsageEvent)
    requires TableHolds(c, m, hour, done, table) && hour <= e.timestampMs < hour + HOUR_MS
    requires !RolledUp(m, hour, BucketOf(c, m, e))
    ensures var b := BucketOf(c, m, e);
            var es := Filter(done, InHourBucket(c, m, hour, b));
            && (b in table ==> table[b] == Aggregated(c.json, es)) && (b !in table ==> es == [])
            && TableHolds(c, m, hour, done + [e], table[b := Aggregated(c.json, es + [e])])
  {
    hide Filter, RolledUp, Aggregated, BucketFor;
    var bucket := BucketOf(c, m, e);
    assert BucketHolds(c, m, hour, done, table, bucket);
    var es := Filter(done, InHourBucket(c, m, hour, bucket));
    var now, table' := done + [e], table[bucket := Aggregated(c.json, es + [e])];
    forall b: nat ensures BucketHolds(c, m, hour, now, table', b) {
      assert BucketHolds(c, m, hour, done, table, b);
      FilterSnoc(done, InHourBucket(c, m, hour, b), e);
      assert Filter(done, InHourBucket(c, m, hour, b)) + [] == Filter(done, InHourBucket(c, m, hour, b));
    }
  }

  /** Events outside the hour, or of a slot that already has its rollup, change nothing. */
  lemma SkipHolds(c: Config, m: Manifest, hour: int, done: seq<UsageEvent>, table: HourTable, rows: seq<UsageEvent>)
    requires TableHolds(c, m, hour, done, table)
    requires forall e :: e in rows ==> !(hour <= e.timestampMs < hour + HOUR_MS) || RolledUp(m, hour, BucketOf(c, m, e))
    ensures TableHolds(c, m, hour, done + rows, table)
  {
    hide Filter, RolledUp, Aggregated, BucketFor;
    var now := done + rows;
    forall b: nat ensures BucketHolds(c, m, hour, now, table, b) {
      assert BucketHolds(c, m, hour, done, table, b);
      var p := InHourBucket(c, m, hour, b);
      if !RolledUp(m, hour, b) {
        FilterAppend(done, rows, p);
        FilterNone(rows, p);
        assert Filter(done, p) + [] == Filter(done, p);
      }
    }
  }

  lemma SegmentOutside(c: Config, m: Manifest, segs: SegmentFiles, s: SegmentMeta, hour: int)
    requires MetaMatchesFile(s, segs, c.hashing, Buckets(m))
             && (s.maxTimestampMs < hour || s.minTimestampMs >= hour + HOUR_MS)
    ensures forall e :: e in FileEvents(segs, s.segmentId) ==> !(hour <= e.timestampMs < hour + HOUR_MS)
  {
    forall e | e in FileEvents(segs, s.segmentId) ensures !(hour <= e.timestampMs < hour + HOUR_MS) {
      TimesBound(segs[s.segmentId], e);
    }
  }

  ghost predicate AllListed(c: Config, m: Manifest, segs: SegmentFiles)
  {
    forall s :: s in m.rawSegments ==> MetaMatchesFile(s, segs, c.hashing, Buckets(m))
  }

  // The builders of an hour.

  type Builders = map<nat, RollupBuilder>

  ghost function Objects(builders: Builders): set<RollupBuilder>
  {
    set b | b in builders :: builders[b]
  }

  ghost function TableOf(builders: Builders): HourTable
    reads Objects(builders)
  {
    map b | b in builders :: builders[b].aggregates
  }

  /** One builder object per bucket. */
  ghost predicate Separate(json: Json, builders: Builders)
  {
    && (forall b :: b in builders ==> builders[b].json == json)
    && (forall a, b :: a in builders && b in builders && a != b ==> builders[a] != builders[b])
  }

  ghost predicate Extends(builders: Builders, all: Builders)
  {
    forall b :: b in builders ==> b in all && all[b] == builders[b]
  }

  /** Aggregate the rows of one segment into the builders of their buckets. */
  method ScanSegment(
    c: Config, m: Manifest, hour: int, rows: seq<UsageEvent>, builders: Builders, ghost done: seq<UsageEvent>)
    returns (all: Builders)
    requires Separate(c.json, builders) && TableHolds(c, m, hour, done, TableOf(builders))
    modifies Objects(builders)
    ensures Separate(c.json, all) && Extends(builders, all) && fresh(Objects(all) - Objects(builders))
    ensures TableHolds(c, m, hour, done + rows, TableOf(all))
  {
    hide TableHolds, RolledUp, BucketFor, Aggregated, Filter;
    all := builders;
    assert done + rows[..0] == done;
    for k := 0 to |rows|
      invariant Separate(c.json, all) && Extends(builders, all) && fresh(Objects(all) - Objects(builders))
      invariant TableHolds(c, m, hour, done + rows[..k], TableOf(all))
    {
      var e := rows[k];
      ghost var before := done + rows[..k];
      assert done + rows[..k + 1] == before + [e];
      var bucket := BucketOf(c, m, e);
      if e.timestampMs < hour || e.timestampMs >= hour + HOUR_MS || RolledUp(m, hour, bucket) {
        SkipHolds(c, m, hour, before, TableOf(all), [e]);
        continue;
      }
      AddHolds(c, m, hour, before, TableOf(all), e);
      ghost var seen := Filter(before, InHourBucket(c, m, hour, bucket));
      all := AddToBucket(c.json, all, bucket, e, seen);
    }
    assert rows[..|rows|] == rows;
  }

  /** Let the bucket's builder process one event, creating the builder if it is missing. */
  method AddToBucket(json: Json, builders: Builders, bucket: nat, e: UsageEvent, ghost seen: seq<UsageEvent>)
    returns (all: Builders)
    requires Separate(json, builders)
    requires if bucket in builders then builders[bucket].aggregates == Aggregated(json, seen) else seen == []
    modifies Objects(builders)
    ensures Separate(json, all) && Extends(builders, all) && fresh(Objects(all) - Objects(builders))
    ensures TableOf(all) == old(TableOf(builders))[bucket := Aggregated(json, seen + [e])]
  {
    hide Aggregated;
    all := builders;
    if bucket !in all {
      var created := new RollupBuilder(json);
      all := all[bucket := created];
    }
    all[bucket].ProcessEvent(e, seen);
  }

  /** Scan the segments that can hold events of the hour and aggregate them per bucket. */
  method BuildHour(c: Config, m: Manifest, segs: SegmentFiles, hour: int) returns (builders: Builders)
    requires AllListed(c, m, segs)
    ensures Separate(c.json, builders) && fresh(Objects(builders))
    ensures TableHolds(c, m, hour, AllEvents(m.rawSegments, segs), TableOf(builders))
  {
    hide TableHolds, MetaMatchesFile, FileEvents, RolledUp;
    builders := map[];
    NothingYet(c, m, hour);
    assert TableOf(builders) == map[];
    for i := 0 to |m.rawSegments|
      invariant Separate(c.json, builders) && fresh(Objects(builders))
      invariant TableHolds(c, m, hour, AllEvents(m.rawSegments[..i], segs), TableOf(builders))
    {
      var s := m.rawSegments[i];
      ghost var done := AllEvents(m.rawSegments[..i], segs);
      assert m.rawSegments[..i + 1][..i] == m.rawSegments[..i];
      assert s in m.rawSegments;
      var rows := FileEvents(segs, s.segmentId);
      if s.maxTimestampMs < hour || s.minTimestampMs >= hour + HOUR_MS {
        SegmentOutside(c, m, segs, s, hour);
        SkipHolds(c, m, hour, done, TableOf(builders), rows);
        continue;
      }
      builders := ScanSegment(c, m, hour, rows, builders, done);
    }
    assert m.rawSegments[..|m.rawSegments|] == m.rawSegments;
  }

  lemma NothingYet(c: Config, m: Manifest, hour: int)
    ensures TableHolds(c, m, hour, [], map[])
  {
    forall b: nat ensures BucketHolds(c, m, hour, [], map[], b) {
    }
  }

  // Writing an hour.

  ghost predicate DistinctBuckets(metas: seq<SegmentMeta>)
  {
    forall i, j :: 0 <= i < j < |metas| ==> metas[i].bucket != metas[j].bucket
  }

  /** `s` is a new rollup segment of this hour. */
  ghost predicate HourSegment(
    c: Config, m: Manifest, raw: seq<UsageEvent>, start: int, hour: int, rollups: RollupFiles, s: SegmentMeta)
  {
    s.minTimestampMs == hour && NewRollup(c, m, raw, start, s, rollups)
  }

  /** The segments written for the buckets of `table` outside `rest`. */
  ghost predicate HourWritten(
    c: Config, m: Manifest, raw: seq<UsageEvent>, start: int, hour: int, table: HourTable, rest: set<nat>,
    metas: seq<SegmentMeta>, rollups: RollupFiles, lo: SegmentId, hi: SegmentId)
  {
    && FreshListing(metas, lo, hi) && DistinctBuckets(metas)
    && (forall s :: s in metas ==>
          s.bucket in table && s.bucket !in rest && HourSegment(c, m, raw, start, hour, rollups, s))
    && (forall b :: b in table && b !in rest ==> HasBucket(metas, b))
  }

  lemma BuilderRollsUp(
    c: Config, m: Manifest, raw: seq<UsageEvent>, hour: int, table: HourTable, bucket: nat, records: seq<RollupRecord>)
    requires TableHolds(c, m, hour, raw, table) && bucket in table
    requires DistinctKeys(records) && RecordKeys(records) == table[bucket].Keys
    requires forall r :: r in records ==> r.key in table[bucket] && table[bucket][r.key] == r
    ensures RollsUp(c, m, raw, hour, bucket, records) && records != [] && !RolledUp(m, hour, bucket)
  {
    hide Filter, RolledUp, BucketFor, KeyFor, Aggregated;
    assert BucketHolds(c, m, hour, raw, table, bucket);
    var es := Filter(raw, InHourBucket(c, m, hour, bucket));
    assert es[0] in multiset(es);
    AggregatedKeys(c.json, es, KeyFor(c.json, es[0]));
    assert KeyFor(c.json, es[0]) in RecordKeys(records);
  }

  lemma WriteHourStep(
    c: Config, m: Manifest, raw: seq<UsageEvent>, start: int, hour: int, table: HourTable, rest: set<nat>,
    metas: seq<SegmentMeta>, rollups: RollupFiles, lo: SegmentId, hi: SegmentId, bucket: nat,
    records: seq<RollupRecord>)
    requires HourWritten(c, m, raw, start, hour, table, rest, metas, rollups, lo, hi) && lo <= hi
             && UnusedAbove(rollups, hi)
    requires bucket in rest && bucket in table && records != [] && !RolledUp(m, hour, bucket)
    requires IsWindow(start, hour) && RollsUp(c, m, raw, hour, bucket, records)
    ensures var meta := RollupMetaOf(c.json, hi, records, bucket, hour);
            HourWritten(c, m, raw, start, hour, table, rest - {bucket}, metas + [meta], rollups[hi := records], lo,
                        hi + 1)
  {
    hide RollsUp, RolledUp, HourSegment, FreshListing, DistinctBuckets, HasBucket, IsWindow;
    var meta := RollupMetaOf(c.json, hi, records, bucket, hour);
    assert meta.segmentId == hi && meta.bucket == bucket;
    NewHourSegment(c, m, raw, start, hour, rollups, hi, bucket, records);
    hide RollupMetaOf;
    var all, rollups', rest' := metas + [meta], rollups[hi := records], rest - {bucket};
    forall s | s in all
      ensures s.bucket in table && s.bucket !in rest' && HourSegment(c, m, raw, start, hour, rollups', s)
    {
      if s in metas { OldHourSegment(c, m, raw, start, hour, rollups, hi, records, s); }
    }
    ListOneMore(metas, meta, lo, hi);
    forall b | b in table && b !in rest' ensures HasBucket(all, b) {
      BucketsSnoc(metas, meta, b);
    }
  }

  lemma NewHourSegment(
    c: Config, m: Manifest, raw: seq<UsageEvent>, start: int, hour: int, rollups: RollupFiles, id: SegmentId,
    bucket: nat,
    records: seq<RollupRecord>)
    requires records != [] && !RolledUp(m, hour, bucket) && IsWindow(start, hour)
             && RollsUp(c, m, raw, hour, bucket, records)
    ensures HourSegment(c, m, raw, start, hour, rollups[id := records], RollupMetaOf(c.json, id, records, bucket, hour))
  {
    hide RollsUp, RolledUp, IsWindow;
  }

  lemma OldHourSegment(
    c: Config, m: Manifest, raw: seq<UsageEvent>, start: int, hour: int, rollups: RollupFiles, id: SegmentId,
    records: seq<RollupRecord>, s: SegmentMeta)
    requires HourSegment(c, m, raw, start, hour, rollups, s) && id !in rollups
    ensures HourSegment(c, m, raw, start, hour, rollups[id := records], s)
  {
    hide RollsUp, RolledUp, RollupMetaOf, IsWindow;
  }

  lemma ListOneMore(metas: seq<SegmentMeta>, meta: SegmentMeta, lo: SegmentId, hi: SegmentId)
    requires FreshListing(metas, lo, hi) && DistinctBuckets(metas) && lo <= hi && meta.segmentId == hi
    requires forall s :: s in metas ==> s.bucket != meta.bucket
    ensures FreshListing(metas + [meta], lo, hi + 1) && DistinctBuckets(metas + [meta])
  {
    var all := metas + [meta];
    forall i, j | 0 <= i < j < |all| ensures all[i].segmentId != all[j].segmentId && all[i].bucket != all[j].bucket {
      assert all[i] == metas[i] && metas[i] in metas;
    }
  }

  lemma BucketsSnoc(metas: seq<SegmentMeta>, meta: SegmentMeta, b: nat)
    ensures HasBucket(metas + [meta], b) <==> HasBucket(metas, b) || meta.bucket == b
  {
    var all := metas + [meta];
    assert all[|metas|] == meta;
    if HasBucket(metas, b) {
      var s :| s in metas && s.bucket == b;
      assert s in all;
    }
  }

  /** Roll up the window that begins at `hour`. */
  method RollHour(
    c: Config, m: Manifest, segs: SegmentFiles, rollups: RollupFiles, nextId: SegmentId, hour: int, ghost start: int)
    returns (metas: seq<SegmentMeta>, rollups': RollupFiles, nextId': SegmentId, ghost table: HourTable)
    requires AllListed(c, m, segs) && UnusedAbove(rollups, nextId) && IsWindow(start, hour)
    ensures Grows(rollups, rollups', nextId, nextId') && UnusedAbove(rollups', nextId')
    ensures TableHolds(c, m, hour, AllEvents(m.rawSegments, segs), table)
    ensures HourWritten(c, m, AllEvents(m.rawSegments, segs), start, hour, table, {}, metas, rollups', nextId, nextId')
  {
    hide AllListed, TableHolds, AllEvents, RollsUp, RolledUp, HourWritten, Grows, UnusedAbove, RollupMetaOf,
      DistinctKeys, RecordKeys, IsWindow, Aggregated, Filter;
    ghost var raw := AllEvents(m.rawSegments, segs);
    var builders := BuildHour(c, m, segs, hour);
    table := TableOf(builders);
    metas, rollups', nextId' := [], rollups, nextId;
    var rest := builders.Keys;
    assert table.Keys == rest;
    HourBegins(c, m, raw, start, hour, table, rollups, nextId);
    while rest != {}
      invariant rest <= builders.Keys && table == TableOf(builders)
      invariant Grows(rollups, rollups', nextId, nextId') && UnusedAbove(rollups', nextId')
      invariant HourWritten(c, m, raw, start, hour, table, rest, metas, rollups', nextId, nextId')
      decreases |rest|
    {
      var bucket :| bucket in rest;
      assert table[bucket] == builders[bucket].aggregates;
      HeldEntries(c, m, raw, hour, table, bucket);
      var records := builders[bucket].Finalize(Filter(raw, InHourBucket(c, m, hour, bucket)));
      BuilderRollsUp(c, m, raw, hour, table, bucket, records);
      GrowOne(rollups, rollups', nextId, nextId', records);
      WriteHourStep(c, m, raw, start, hour, table, rest, metas, rollups', nextId, nextId', bucket, records);
      rest := rest - {bucket};
      var meta := DescribeRollup(c.json, nextId', records, bucket, hour);
      rollups' := rollups'[nextId' := records];
      metas := metas + [meta];
      nextId' := nextId' + 1;
    }
  }

  lemma HeldEntries(c: Config, m: Manifest, raw: seq<UsageEvent>, hour: int, table: HourTable, bucket: nat)
    requires TableHolds(c, m, hour, raw, table) && bucket in table
    ensures table[bucket] == Aggregated(c.json, Filter(raw, InHourBucket(c, m, hour, bucket)))
  {
    assert BucketHolds(c, m, hour, raw, table, bucket);
  }

  lemma HourBegins(
    c: Config, m: Manifest, raw: seq<UsageEvent>, start: int, hour: int, table: HourTable, rollups: RollupFiles,
    nextId: SegmentId)
    ensures HourWritten(c, m, raw, start, hour, table, table.Keys, [], rollups, nextId, nextId)
    ensures Grows(rollups, rollups, nextId, nextId)
  {
  }

  lemma GrowOne<T>(files: map<SegmentId, T>, files': map<SegmentId, T>, lo: SegmentId, hi: SegmentId, x: T)
    requires Grows(files, files', lo, hi) && UnusedAbove(files', hi)
    ensures lo <= hi && Grows(files, files'[hi := x], lo, hi + 1) && UnusedAbove(files'[hi := x], hi + 1)
  {
  }

  /** Metadata of a rollup segment: that of its rows, over the whole hour. */
  method DescribeRollup(j: Json, id: SegmentId, records: seq<RollupRecord>, bucket: nat, hour: int)
      returns (meta: SegmentMeta)
    ensures meta == RollupMetaOf(j, id, records, bucket, hour)
  {
    meta := BuildSegmentMeta(id, RecordsToEvents(j, records), bucket);
    meta := meta.(minTimestampMs := hour, maxTimestampMs := hour + HOUR_MS - 1);
  }

  // Hour after hour.

  lemma HourCovers(
    c: Config, m: Manifest, raw: seq<UsageEvent>, start: int, hour: int, table: HourTable,
    metas: seq<SegmentMeta>, rollups: RollupFiles, lo: SegmentId, hi: SegmentId, e: UsageEvent)
    requires TableHolds(c, m, hour, raw, table)
             && HourWritten(c, m, raw, start, hour, table, {}, metas, rollups, lo, hi)
    requires e in raw && hour <= e.timestampMs < hour + HOUR_MS && !RolledUp(m, hour, BucketOf(c, m, e))
    ensures HasSlot(metas, hour, BucketOf(c, m, e))
  {
    hide Filter, RolledUp, BucketFor, Aggregated, NewRollup;
    var b := BucketOf(c, m, e);
    FilterMember(raw, InHourBucket(c, m, hour, b), e);
    assert BucketHolds(c, m, hour, raw, table, b);
    assert HasBucket(metas, b);
    var s :| s in metas && s.bucket == b;
    assert HourSegment(c, m, raw, start, hour, rollups, s);
  }

  lemma SlotsSnoc(a: seq<SegmentMeta>, b: seq<SegmentMeta>, hour: int, bucket: nat)
    requires HasSlot(a, hour, bucket) || HasSlot(b, hour, bucket)
    ensures HasSlot(a + b, hour, bucket)
  {
    var s :| (s in a || s in b) && s.minTimestampMs == hour && s.bucket == bucket;
    assert s in a + b;
  }

  lemma GrownRollup(
    c: Config, m: Manifest, raw: seq<UsageEvent>, start: int, s: SegmentMeta, rollups: RollupFiles,
    rollups': RollupFiles,
    lo: SegmentId, hi: SegmentId)
    requires NewRollup(c, m, raw, start, s, rollups) && Grows(rollups, rollups', lo, hi)
    ensures NewRollup(c, m, raw, start, s, rollups')
  {
    hide RollsUp, RolledUp, RollupMetaOf, IsWindow;
  }

  lemma ListingsJoin(
    c: Config, m: Manifest, raw: seq<UsageEvent>, start: int, hour: int, metas: seq<SegmentMeta>,
    more: seq<SegmentMeta>,
    lo: SegmentId, mid: SegmentId, hi: SegmentId)
    requires FreshListing(metas, lo, mid) && FreshListing(more, mid, hi) && lo <= mid <= hi && DistinctBuckets(more)
    requires forall s :: s in metas ==> s.minTimestampMs < hour
    requires forall s :: s in more ==> s.minTimestampMs == hour
    requires forall i, j :: 0 <= i < j < |metas| ==>
               metas[i].minTimestampMs != metas[j].minTimestampMs || metas[i].bucket != metas[j].bucket
    ensures var all := metas + more;
            && FreshListing(all, lo, hi)
            && forall i, j :: 0 <= i < j < |all| ==>
                 all[i].minTimestampMs != all[j].minTimestampMs || all[i].bucket != all[j].bucket
  {
    var all := metas + more;
    forall i, j | 0 <= i < j < |all|
      ensures all[i].minTimestampMs != all[j].minTimestampMs || all[i].bucket != all[j].bucket
      ensures all[i].segmentId != all[j].segmentId
    {
      ListedPair(metas, more, i, j);
    }
  }

  lemma RollupsExtend(
    c: Config, m: Manifest, raw: seq<UsageEvent>, start: int, hour: int, metas: seq<SegmentMeta>, rollups: RollupFiles,
    table: HourTable, more: seq<SegmentMeta>, rollups': RollupFiles, lo: SegmentId, mid: SegmentId, hi: SegmentId)
    requires NewRollups(c, m, raw, start, hour, metas, rollups) && FreshListing(metas, lo, mid) && lo <= mid
    requires TableHolds(c, m, hour, raw, table)
             && HourWritten(c, m, raw, start, hour, table, {}, more, rollups', mid, hi)
    requires Grows(rollups, rollups', mid, hi) && IsWindow(start, hour)
    ensures NewRollups(c, m, raw, start, hour + HOUR_MS, metas + more, rollups') && FreshListing(metas + more, lo, hi)
  {
    hide NewRollup, RolledUp, BucketFor, TableHolds, IsWindow, WindowOf, FreshListing, DistinctBuckets, HasSlot;
    var all := metas + more;
    assert mid <= hi;
    forall s | s in all ensures s.minTimestampMs < hour + HOUR_MS && NewRollup(c, m, raw, start, s, rollups') {
      if s in metas {
        GrownRollup(c, m, raw, start, s, rollups, rollups', mid, hi);
      } else {
        assert HourSegment(c, m, raw, start, hour, rollups', s);
      }
    }
    forall s | s in more ensures s.minTimestampMs == hour { assert HourSegment(c, m, raw, start, hour, rollups', s); }
    ListingsJoin(c, m, raw, start, hour, metas, more, lo, mid, hi);
    forall e | e in raw && start <= e.timestampMs && WindowOf(start, e.timestampMs) < hour + HOUR_MS
               && !RolledUp(m, WindowOf(start, e.timestampMs), BucketOf(c, m, e))
      ensures HasSlot(all, WindowOf(start, e.timestampMs), BucketOf(c, m, e))
    {
      InWindow(start, hour, e.timestampMs);
      if WindowOf(start, e.timestampMs) >= hour {
        HourCovers(c, m, raw, start, hour, table, more, rollups', mid, hi, e);
      }
      SlotsSnoc(metas, more, WindowOf(start, e.timestampMs), BucketOf(c, m, e));
    }
  }

  lemma ListedPair(a: seq<SegmentMeta>, b: seq<SegmentMeta>, i: nat, j: nat)
    requires i < j < |a + b|
    ensures j < |a| ==> (a + b)[i] == a[i] && (a + b)[j] == a[j] && a[i] in a && a[j] in a
    ensures i < |a| <= j ==> (a + b)[i] == a[i] && a[i] in a && (a + b)[j] == b[j - |a|] && b[j - |a|] in b
    ensures |a| <= i ==> (a + b)[i] == b[i - |a|] && (a + b)[j] == b[j - |a|] && b[i - |a|] in b && b[j - |a|] in b
  {
  }

  /** Windows that begin before `hour` begin before `target`. */
  lemma NoWindowBetween(start: int, hour: int, target: int, w: int)
    requires IsWindow(start, hour) && IsWindow(start, w) && target <= hour < target + HOUR_MS
    ensures w < hour ==> w < target
  {
    var a, b := (hour - start) / HOUR_MS, (w - start) / HOUR_MS;
    assert hour == start + a * HOUR_MS && w == start + b * HOUR_MS;
  }

  lemma StopAtTarget(
    c: Config, m: Manifest, raw: seq<UsageEvent>, start: int, hour: int, target: int, metas: seq<SegmentMeta>,
    rollups: RollupFiles)
    requires NewRollups(c, m, raw, start, hour, metas, rollups) && IsWindow(start, hour)
             && target <= hour < target + HOUR_MS
    ensures NewRollups(c, m, raw, start, target, metas, rollups)
  {
    hide RolledUp, BucketFor, RollsUp, RollupMetaOf, HasSlot, WindowOf;
    forall s | s in metas ensures s.minTimestampMs < target {
      assert NewRollup(c, m, raw, start, s, rollups);
      NoWindowBetween(start, hour, target, s.minTimestampMs);
    }
  }

  /** Roll up every window from `start` until `target` is reached. */
  method RollHours(
    c: Config, m: Manifest, segs: SegmentFiles, rollups: RollupFiles, nextId: SegmentId, start: int, target: int)
    returns (metas: seq<SegmentMeta>, rollups': RollupFiles, nextId': SegmentId, hoursProcessed: nat)
    requires AllListed(c, m, segs) && UnusedAbove(rollups, nextId) && start < target
    ensures start + hoursProcessed * HOUR_MS == WindowsEnd(start, target)
    ensures NewRollups(c, m, AllEvents(m.rawSegments, segs), start, target, metas, rollups')
    ensures Grows(rollups, rollups', nextId, nextId') && FreshListing(metas, nextId, nextId')
  {
    hide AllListed, TableHolds, AllEvents, HourWritten, NewRollups, Grows, FreshListing, UnusedAbove, IsWindow;
    ghost var raw := AllEvents(m.rawSegments, segs);
    metas, rollups', nextId', hoursProcessed := [], rollups, nextId, 0;
    var hour := start;
    NoHoursYet(c, m, raw, start, rollups, nextId);
    while hour < target
      invariant IsWindow(start, hour) && hour == start + hoursProcessed * HOUR_MS < target + HOUR_MS
      invariant NewRollups(c, m, raw, start, hour, metas, rollups') && FreshListing(metas, nextId, nextId')
      invariant Grows(rollups, rollups', nextId, nextId') && UnusedAbove(rollups', nextId')
      decreases target - hour
    {
      var more, files, next, table := RollHour(c, m, segs, rollups', nextId', hour, start);
      NextHour(start, hour, rollups, rollups', files, nextId, nextId', next);
      RollupsExtend(c, m, raw, start, hour, metas, rollups', table, more, files, nextId, nextId', next);
      metas, rollups', nextId' := metas + more, files, next;
      hour := hour + HOUR_MS;
      hoursProcessed := hoursProcessed + 1;
    }
    LastWindowEnds(start, target, hoursProcessed);
    StopAtTarget(c, m, raw, start, hour, target, metas, rollups');
  }

  /** Windows of an hour from `start` cover the target when they reach it; off the hour they reach past it. */
  lemma LastWindowEnds(start: int, target: int, hours: nat)
    requires target <= start + hours * HOUR_MS < target + HOUR_MS
    ensures start + hours * HOUR_MS == WindowsEnd(start, target)
  {
    var over := start + hours * HOUR_MS - target;
    assert start - target == (0 - hours) * HOUR_MS + over;
    assert (start - target) % HOUR_MS == over;
  }

  lemma NextHour(
    start: int, hour: int, a: RollupFiles, b: RollupFiles, d: RollupFiles, lo: SegmentId, mid: SegmentId, hi: SegmentId)
    requires IsWindow(start, hour) && Grows(a, b, lo, mid) && Grows(b, d, mid, hi)
    ensures IsWindow(start, hour + HOUR_MS) && Grows(a, d, lo, hi) && lo <= mid
  {
  }

  lemma NoHoursYet(c: Config, m: Manifest, raw: seq<UsageEvent>, start: int, rollups: RollupFiles, nextId: SegmentId)
    ensures NewRollups(c, m, raw, start, start, [], rollups)
    ensures IsWindow(start, start) && Grows(rollups, rollups, nextId, nextId) && FreshListing([], nextId, nextId)
  {
    forall e: UsageEvent | start <= e.timestampMs ensures start <= WindowOf(start, e.timestampMs) {
    }
  }
}
