/** The rollup query answers what the raw query answers. */
module QueryRefinement {
  import opened Model
  import opened Sums
  import opened Manifests
  import opened Query
  import opened Rollup
  import opened Engine
  import opened Durability
  import opened Catalog
  import opened Runs
  import opened RollupSafety
  import opened RollupRuns

  // The two collections.

  function RollupUpper(m: Manifest, plan: QueryPlan): int
  {
    Min(plan.toMs, m.hourlyRollupMs)
  }

  /** Rollup segments worth opening: in the time range, and of the plan's bucket if it names an account. */
  predicate RollupSegmentNeeded(c: Config, m: Manifest, plan: QueryPlan, seg: SegmentMeta)
  {
    && seg.minTimestampMs < RollupUpper(m, plan) && seg.maxTimestampMs >= plan.fromMs
    && (plan.accountId.Some? ==> seg.bucket == BucketFor(c.hashing, plan.accountId.value, Buckets(m)))
  }

  function HourIn(lo: int, hi: int): RollupRecord -> bool
  {
    (r: RollupRecord) => lo <= r.key.hourStartMs < hi
  }

  function FileRecords(rollups: RollupFiles, id: SegmentId): seq<RollupRecord>
  {
    if id in rollups then rollups[id] else []
  }

  function RollupScan(c: Config, m: Manifest, rollups: RollupFiles, plan: QueryPlan,
                      segs: seq<SegmentMeta>): seq<RollupRecord>
  {
    if segs == [] then []
    else
      var last := segs[|segs| - 1];
      RollupScan(c, m, rollups, plan, segs[..|segs| - 1])
      + if RollupSegmentNeeded(c, m, plan, last)
        then Filter(FileRecords(rollups, last.segmentId), HourIn(plan.fromMs, RollupUpper(m, plan))) else []
  }

  /** Rollup rows below the watermark, then raw events from there on. */
  function CollectRollup(c: Config, m: Manifest, segs: SegmentFiles, rollups: RollupFiles, memtable: seq<UsageEvent>,
                         plan: QueryPlan)
    : seq<UsageEvent>
  {
    RecordsToEvents(c.json, RollupScan(c, m, rollups, plan, m.rollupSegments))
    + if plan.toMs > m.hourlyRollupMs
      then CollectRaw(m.rawSegments, segs, memtable, c.hashing, plan, Max(plan.fromMs, m.hourlyRollupMs), plan.toMs,
                      Buckets(m))
      else []
  }

  function Collect(c: Config, m: Manifest, segs: SegmentFiles, rollups: RollupFiles, memtable: seq<UsageEvent>,
                   plan: QueryPlan)
    : seq<UsageEvent>
  {
    match plan.source
    case RawEvents => CollectRaw(m.rawSegments, segs, memtable, c.hashing, plan, plan.fromMs, plan.toMs, Buckets(m))
    case RollupHourly => CollectRollup(c, m, segs, rollups, memtable, plan)
  }

  /** The answer to a plan in a running state. */
  ghost function AnswerTo(c: Config, s: State, plan: QueryPlan): Answer
    requires s.Up?
  {
    Aggregate(plan, Collect(c, s.disk.manifest, s.disk.segs, s.disk.rollups, s.mem.memtable, plan))
  }

  /** The groups of an answer with their sums. */
  function SumsOf(a: Answer): map<seq<string>, int>
  {
    if a.Table? then map k | k in a.groups :: a.groups[k].quantitySum else map[]
  }

  // A group's total is a weighted sum over whatever was collected.

  lemma {:induction false} MatchingSum(plan: QueryPlan, es: seq<UsageEvent>, group: seq<string>)
    ensures Sum(multiset(Filter(es, Matching(plan))), InGroup(plan.groupBy, group))
            == Sum(multiset(es), RowWeight(plan, group))
    decreases |es|
  {
    hide Sum, Filter, Matches, GroupKey;
    if es == [] {
      assert Filter(es, Matching(plan)) == [] by { FilterNone(es, Matching(plan)); }
      SumZero(multiset(es), InGroup(plan.groupBy, group));
      SumZero(multiset(es), RowWeight(plan, group));
    } else {
      var front, last := es[..|es| - 1], es[|es| - 1];
      assert es == front + [last];
      MatchingSum(plan, front, group);
      FilterSnoc(front, Matching(plan), last);
      SumSnoc(front, RowWeight(plan, group), last);
      if Matching(plan)(last) {
        SumSnoc(Filter(front, Matching(plan)), InGroup(plan.groupBy, group), last);
      } else {
        assert Filter(front, Matching(plan)) + [] == Filter(front, Matching(plan));
      }
    }
  }

  /** Some collected row matches and falls in the group. */
  ghost predicate HasRow(plan: QueryPlan, es: seq<UsageEvent>, group: seq<string>)
  {
    exists e :: e in es && Matches(plan, e) && GroupKey(plan.groupBy, e) == group
  }

  /** Two collections that agree, group by group, on presence and on weight get the same sums. */
  lemma SameSums(plan: QueryPlan, a: seq<UsageEvent>, b: seq<UsageEvent>)
    requires plan.metrics != map[] && Fits(multiset(a)) && Fits(multiset(b))
    requires forall g :: HasRow(plan, a, g) <==> HasRow(plan, b, g)
    requires forall g :: Sum(multiset(a), RowWeight(plan, g)) == Sum(multiset(b), RowWeight(plan, g))
    ensures SumsOf(Aggregate(plan, a)) == SumsOf(Aggregate(plan, b))
  {
    hide Sum, Filter, Matches, GroupKey, GroupAll, Fits, HasRow;
    var fa, fb := Filter(a, Matching(plan)), Filter(b, Matching(plan));
    var ga, gb := GroupAll(plan.groupBy, fa), GroupAll(plan.groupBy, fb);
    FitsFilter(a, Matching(plan));
    FitsFilter(b, Matching(plan));
    forall g ensures g in ga <==> g in gb {
      GroupPresence(plan, a, g);
      GroupPresence(plan, b, g);
    }
    forall g | g in ga ensures ga[g].quantitySum == gb[g].quantitySum {
      GroupAllSums(plan.groupBy, fa, g);
      GroupAllSums(plan.groupBy, fb, g);
      MatchingSum(plan, a, g);
      MatchingSum(plan, b, g);
    }
    assert ga == map[] <==> gb == map[] by {
      assert ga.Keys == gb.Keys;
    }
  }

  lemma GroupPresence(plan: QueryPlan, es: seq<UsageEvent>, g: seq<string>)
    ensures g in GroupAll(plan.groupBy, Filter(es, Matching(plan))) <==> HasRow(plan, es, g)
  {
    hide Filter, Matches, GroupKey, GroupAll;
    var kept := Filter(es, Matching(plan));
    GroupAllKeys(plan.groupBy, kept, g);
    if HasRow(plan, es, g) {
      var e :| e in es && Matches(plan, e) && GroupKey(plan.groupBy, e) == g;
      FilterMember(es, Matching(plan), e);
    }
    if e :| e in kept && GroupKey(plan.groupBy, e) == g {
      FilterMember(es, Matching(plan), e);
    }
  }

  // Raw collections.

  /** The weight of the rows at or after `lo`. */
  function WeightFrom(plan: QueryPlan, lo: int, group: seq<string>): UsageEvent -> int
  {
    (e: UsageEvent) => if lo <= e.timestampMs then RowWeight(plan, group)(e) else 0
  }

  /** A raw collection over `[lo, to)` weighs what the segments and the memtable weigh from `lo` on. */
  lemma RawWeight(c: Config, s: State, plan: QueryPlan, lo: int, group: seq<string>)
    requires s.Up? && RawListed(c, s.disk) && IsI64(lo) && IsI64(plan.toMs)
    ensures var m := s.disk.manifest;
            Sum(multiset(CollectRaw(m.rawSegments, s.disk.segs, s.mem.memtable, c.hashing, plan, lo, plan.toMs,
                                    Buckets(m))),
                RowWeight(plan, group))
              == Sum(Raw(s.disk), WeightFrom(plan, lo, group))
                  + Sum(multiset(s.mem.memtable), WeightFrom(plan, lo, group))
  {
    hide Sum, Filter, Matches, GroupKey, AllEvents, PrunedScan, MetaMatchesFile, RowWeight, Matching, InGroup;
    var m := s.disk.manifest;
    var scan := PrunedScan(m.rawSegments, s.disk.segs, c.hashing, plan, lo, plan.toMs, Buckets(m));
    var tail := Filter(s.mem.memtable, InRange(lo, plan.toMs));
    var full := Filter(RawSeq(s.disk), InRange(lo, plan.toMs));
    assert multiset(scan + tail) == multiset(scan) + multiset(tail);
    SumUnion(multiset(scan), multiset(tail), RowWeight(plan, group));
    PrunedScanIsFullScan(m.rawSegments, s.disk.segs, c.hashing, plan, lo, plan.toMs, Buckets(m));
    MatchingSum(plan, scan, group);
    MatchingSum(plan, full, group);
    RangeWeight(plan, RawSeq(s.disk), lo, group);
    RangeWeight(plan, s.mem.memtable, lo, group);
  }

  lemma RangeWeight(plan: QueryPlan, es: seq<UsageEvent>, lo: int, group: seq<string>)
    ensures Sum(multiset(Filter(es, InRange(lo, plan.toMs))), RowWeight(plan, group))
         == Sum(multiset(es), WeightFrom(plan, lo, group))
  {
    hide Sum, Filter, GroupKey, MatchesFilter;
    var near := Filter(es, InRange(lo, plan.toMs));
    forall e | e in multiset(near) ensures RowWeight(plan, group)(e) == WeightFrom(plan, lo, group)(e) {
      assert e in near;
      FilterMember(es, InRange(lo, plan.toMs), e);
    }
    SumEqual(multiset(near), RowWeight(plan, group), WeightFrom(plan, lo, group));
    FilterSum(es, InRange(lo, plan.toMs), WeightFrom(plan, lo, group));
  }

  /** Which rows a raw collection contributes. */
  lemma RawRows(c: Config, s: State, plan: QueryPlan, lo: int, e: UsageEvent)
    requires s.Up? && RawListed(c, s.disk) && IsI64(lo) && IsI64(plan.toMs) && Matches(plan, e)
    ensures var m := s.disk.manifest;
            var rows := CollectRaw(m.rawSegments, s.disk.segs, s.mem.memtable, c.hashing, plan, lo, plan.toMs,
                                   Buckets(m));
            e in rows <==> lo <= e.timestampMs && (e in Raw(s.disk) || e in s.mem.memtable)
  {
    hide Filter, MatchesFilter, AllEvents, PrunedScan, MetaMatchesFile;
    var m := s.disk.manifest;
    var scan := PrunedScan(m.rawSegments, s.disk.segs, c.hashing, plan, lo, plan.toMs, Buckets(m));
    var full := Filter(RawSeq(s.disk), InRange(lo, plan.toMs));
    PrunedScanIsFullScan(m.rawSegments, s.disk.segs, c.hashing, plan, lo, plan.toMs, Buckets(m));
    FilterMember(scan, Matching(plan), e);
    FilterMember(full, Matching(plan), e);
    FilterMember(RawSeq(s.disk), InRange(lo, plan.toMs), e);
    FilterMember(s.mem.memtable, InRange(lo, plan.toMs), e);
    assert e in RawSeq(s.disk) <==> e in Raw(s.disk);
  }

  /** A raw collection holds no more than the segments and the memtable do. */
  lemma {:induction false} ScanFits(
    metas: seq<SegmentMeta>, files: SegmentFiles, h: Hashing, plan: QueryPlan, lo: int, hi: int, buckets: nat)
    ensures Sum(multiset(PrunedScan(metas, files, h, plan, lo, hi, buckets)), AbsQuantity())
         <= Sum(multiset(AllEvents(metas, files)), AbsFrom(lo))
    decreases |metas|
  {
    hide Sum, SegmentOverlapsPlan, Filter;
    if metas == [] {
      SumZero(multiset(PrunedScan(metas, files, h, plan, lo, hi, buckets)), AbsQuantity());
      SumZero(multiset(AllEvents(metas, files)), AbsFrom(lo));
    } else {
      var front, last := metas[..|metas| - 1], metas[|metas| - 1];
      ScanFits(front, files, h, plan, lo, hi, buckets);
      var es := FileEvents(files, last.segmentId);
      var piece := if SegmentOverlapsPlan(last, h, plan, lo, hi, buckets) then Filter(es, InRange(lo, hi)) else [];
      PieceFits(es, piece, lo, hi);
      var kept, all := PrunedScan(front, files, h, plan, lo, hi, buckets), AllEvents(front, files);
      assert multiset(kept + piece) == multiset(kept) + multiset(piece);
      assert multiset(all + es) == multiset(all) + multiset(es);
      SumUnion(multiset(kept), multiset(piece), AbsQuantity());
      SumUnion(multiset(all), multiset(es), AbsFrom(lo));
    }
  }

  function AbsFrom(lo: int): UsageEvent -> int
  {
    (e: UsageEvent) => if lo <= e.timestampMs then Abs(e.quantity) else 0
  }

  lemma PieceFits(es: seq<UsageEvent>, piece: seq<UsageEvent>, lo: int, hi: int)
    requires piece == Filter(es, InRange(lo, hi)) || piece == []
    ensures Sum(multiset(piece), AbsQuantity()) <= Sum(multiset(es), AbsFrom(lo))
  {
    hide Sum, Filter;
    if piece == [] {
      SumZero(multiset(piece), AbsQuantity());
      SumNonNegative(multiset(es), AbsFrom(lo));
    } else {
      var w := (e: UsageEvent) => if InRange(lo, hi)(e) then Abs(e.quantity) else 0;
      FilterSum(es, InRange(lo, hi), w);
      forall e | e in multiset(piece) ensures w(e) == AbsQuantity()(e) {
        assert e in piece;
        FilterMember(es, InRange(lo, hi), e);
      }
      SumEqual(multiset(piece), AbsQuantity(), w);
      SumAtMost(multiset(es), w, AbsFrom(lo));
    }
  }

  lemma RawFits(c: Config, s: State, plan: QueryPlan, lo: int)
    requires s.Up?
    ensures var m := s.disk.manifest;
            Sum(multiset(CollectRaw(m.rawSegments, s.disk.segs, s.mem.memtable, c.hashing, plan, lo, plan.toMs,
                                    Buckets(m))),
                AbsQuantity())
              <= Sum(Raw(s.disk), AbsFrom(lo)) + Sum(multiset(s.mem.memtable), AbsQuantity())
  {
    hide Sum, Filter, PrunedScan, AllEvents;
    var m := s.disk.manifest;
    var scan := PrunedScan(m.rawSegments, s.disk.segs, c.hashing, plan, lo, plan.toMs, Buckets(m));
    var tail := Filter(s.mem.memtable, InRange(lo, plan.toMs));
    assert multiset(scan + tail) == multiset(scan) + multiset(tail);
    SumUnion(multiset(scan), multiset(tail), AbsQuantity());
    ScanFits(m.rawSegments, s.disk.segs, c.hashing, plan, lo, plan.toMs, Buckets(m));
    PieceFits(s.mem.memtable, tail, lo, plan.toMs);
    SumAtMost(multiset(s.mem.memtable), AbsFrom(lo), AbsQuantity());
  }

  // Rollup rows.

  /** Where a scanned record comes from. */
  lemma {:induction false} ScanSource(
    c: Config, m: Manifest, rollups: RollupFiles, plan: QueryPlan, segs: seq<SegmentMeta>, r: RollupRecord)
    ensures r in RollupScan(c, m, rollups, plan, segs) <==>
            && plan.fromMs <= r.key.hourStartMs < RollupUpper(m, plan)
            && exists seg :: seg in segs && RollupSegmentNeeded(c, m, plan, seg)
                && r in FileRecords(rollups, seg.segmentId)
    decreases |segs|
  {
    hide RollupSegmentNeeded, Filter;
    if segs != [] {
      var front, last := segs[..|segs| - 1], segs[|segs| - 1];
      ScanSource(c, m, rollups, plan, front, r);
      assert segs == front + [last];
      assert forall x :: x in segs <==> x in front || x == last;
      FilterMember(FileRecords(rollups, last.segmentId), HourIn(plan.fromMs, RollupUpper(m, plan)), r);
    }
  }

  /** Records scanned from earlier segments never share a key with those of a later one. */
  lemma ScanCross(
    c: Config, m: Manifest, rollups: RollupFiles, plan: QueryPlan, segs: seq<SegmentMeta>, a: RollupRecord,
    b: RollupRecord)
    requires segs != [] && UniqueSlots(segs) && forall seg :: seg in segs ==> Slotted(c, m, seg, rollups)
    requires a in RollupScan(c, m, rollups, plan, segs[..|segs| - 1])
             && b in FileRecords(rollups, segs[|segs| - 1].segmentId)
    ensures a.key != b.key
  {
    hide BucketFor, RollupSegmentNeeded, RollupScan;
    var front, last := segs[..|segs| - 1], segs[|segs| - 1];
    ScanSource(c, m, rollups, plan, front, a);
    var seg :| seg in front && RollupSegmentNeeded(c, m, plan, seg) && a in FileRecords(rollups, seg.segmentId);
    var k :| 0 <= k < |front| && front[k] == seg;
    assert segs[k] == seg && segs[k] in segs && last in segs;
    assert Slotted(c, m, seg, rollups) && Slotted(c, m, last, rollups);
  }

  lemma {:induction false} ScanKeysDistinct(c: Config, m: Manifest, rollups: RollupFiles, plan: QueryPlan,
                                            segs: seq<SegmentMeta>)
    requires UniqueSlots(segs) && forall seg :: seg in segs ==> Slotted(c, m, seg, rollups)
    ensures DistinctKeys(RollupScan(c, m, rollups, plan, segs))
    decreases |segs|
  {
    hide BucketFor, RollupSegmentNeeded, Filter;
    if segs != [] {
      var front, last := segs[..|segs| - 1], segs[|segs| - 1];
      assert forall x :: x in front ==> x in segs;
      ScanKeysDistinct(c, m, rollups, plan, front);
      assert last in segs && Slotted(c, m, last, rollups);
      hide Slotted;
      var p := HourIn(plan.fromMs, RollupUpper(m, plan));
      var a, b := RollupScan(c, m, rollups, plan, front), Filter(FileRecords(rollups, last.segmentId), p);
      FilterKeys(FileRecords(rollups, last.segmentId), p);
      forall i, j | 0 <= i < |a| && 0 <= j < |b| ensures a[i].key != b[j].key {
        assert a[i] in a && b[j] in b;
        FilterMember(FileRecords(rollups, last.segmentId), p, b[j]);
        ScanCross(c, m, rollups, plan, segs, a[i], b[j]);
      }
      KeysAppend(a, b);
      assert a + [] == a;
    }
  }

  lemma {:induction false} FilterKeys(rs: seq<RollupRecord>, p: RollupRecord -> bool)
    requires DistinctKeys(rs)
    ensures DistinctKeys(Filter(rs, p))
    decreases |rs|
  {
    if rs != [] {
      var front, last := rs[..|rs| - 1], rs[|rs| - 1];
      FilterKeys(front, p);
      var kept := Filter(front, p);
      forall i | 0 <= i < |kept| ensures kept[i].key != last.key {
        FilterMember(front, p, kept[i]);
        var k :| 0 <= k < |front| && front[k] == kept[i];
        assert rs[k] == front[k];
      }
    }
  }

  /** The plan's time window cuts at hour boundaries wherever it cuts sealed hours. */
  predicate CutsOnTheHour(m: Manifest, plan: QueryPlan)
  {
    && (Aligned(plan.fromMs) || m.hourlyRollupMs <= plan.fromMs)
    && (Aligned(plan.toMs) || m.hourlyRollupMs <= plan.toMs)
  }

  /** A scanned row answers the plan exactly like each event of its key. */
  lemma ScannedRowAgrees(c: Config, d: Disk, plan: QueryPlan, r: RollupRecord)
    requires RollupInv(c, d, None) && Positive(Raw(d)) && JsonRoundTrips(c.json) && AvoidsKind(plan)
    requires CutsOnTheHour(d.manifest, plan)
    requires r in RollupScan(c, d.manifest, d.rollups, plan, d.manifest.rollupSegments)
    ensures Summarizes(c.json, r, Raw(d)) && RowsAgree(c.json, r, Raw(d), plan) && HasKey(c.json, r.key, Raw(d))
  {
    hide Raw, Sum, BucketFor, RollupScan, Matches, GroupKey, HourOf;
    var m := d.manifest;
    ScanSource(c, m, d.rollups, plan, m.rollupSegments, r);
    var seg :| seg in m.rollupSegments && RollupSegmentNeeded(c, m, plan, seg)
        && r in FileRecords(d.rollups, seg.segmentId);
    InvSlotted(c, d);
    assert Slotted(c, m, seg, d.rollups) && SegShape(seg, d.rollups);
    assert SlotExact(c, m, Raw(d), seg.minTimestampMs, seg.bucket, d.rollups[seg.segmentId]);
    forall e | e in Raw(d) && KeyFor(c.json, e) == r.key
      ensures Matches(plan, RecordToEvent(c.json, r)) == Matches(plan, e)
           && GroupKey(plan.groupBy, RecordToEvent(c.json, r)) == GroupKey(plan.groupBy, e)
    {
      HourOfBounds(e.timestampMs);
      RowInWindow(m, plan, r.key.hourStartMs, e.timestampMs);
      RowMatchesLikeEvent(c.json, r, e, plan);
    }
  }

  lemma RowInWindow(m: Manifest, plan: QueryPlan, hour: int, ts: int)
    requires Aligned(m.hourlyRollupMs) && CutsOnTheHour(m, plan) && Aligned(hour) && hour <= ts < hour + HOUR_MS
    requires plan.fromMs <= hour < RollupUpper(m, plan)
    ensures plan.fromMs <= ts < plan.toMs && ts < m.hourlyRollupMs
  {
    AlignedGap(hour, m.hourlyRollupMs);
    if Aligned(plan.toMs) {
      AlignedGap(hour, plan.toMs);
    }
  }

  /** Among the matching raw events, the scanned keys are exactly those of the events below the
      watermark. */
  lemma ScanCoversSealed(c: Config, d: Disk, plan: QueryPlan, e: UsageEvent)
    requires RollupInv(c, d, None) && Positive(Raw(d)) && JsonRoundTrips(c.json) && AvoidsKind(plan)
    requires CutsOnTheHour(d.manifest, plan) && e in Raw(d) && Matches(plan, e)
    ensures KeyFor(c.json, e) in RecordKeys(RollupScan(c, d.manifest, d.rollups, plan, d.manifest.rollupSegments))
       <==> e.timestampMs < d.manifest.hourlyRollupMs
  {
    hide Raw, Sum, RollupScan, GroupKey, HourOf, MatchesFilter, SlotExact;
    var m := d.manifest;
    var scan := RollupScan(c, m, d.rollups, plan, m.rollupSegments);
    HourOfBounds(e.timestampMs);
    if KeyFor(c.json, e) in RecordKeys(scan) {
      var i :| 0 <= i < |scan| && scan[i].key == KeyFor(c.json, e);
      assert scan[i] in scan;
      ScanSource(c, m, d.rollups, plan, m.rollupSegments, scan[i]);
      RowInWindow(m, plan, HourOf(e.timestampMs), e.timestampMs);
    }
    if e.timestampMs < m.hourlyRollupMs {
      var seg, r := RecordForEvent(c, d, e);
      assert SegShape(seg, d.rollups);
      FloorAbove(plan.fromMs, e.timestampMs);
      assert RollupSegmentNeeded(c, m, plan, seg);
      ScanSource(c, m, d.rollups, plan, m.rollupSegments, r);
      var i :| 0 <= i < |scan| && scan[i] == r;
    }
  }

  lemma FloorAbove(fromMs: int, ts: int)
    requires 0 <= ts && fromMs <= ts
    ensures Aligned(fromMs) ==> fromMs <= HourOf(ts)
  {
    HourOfBounds(ts);
    if Aligned(fromMs) && HourOf(ts) < fromMs {
      AlignedGap(HourOf(ts), fromMs);
    }
  }

  /** The weight of the events the scan covers is the weight below the watermark. */
  lemma CoveredIsSealed(c: Config, d: Disk, plan: QueryPlan, group: seq<string>)
    requires RollupInv(c, d, None) && Positive(Raw(d)) && JsonRoundTrips(c.json) && AvoidsKind(plan)
    requires CutsOnTheHour(d.manifest, plan)
    ensures var keys := RecordKeys(RollupScan(c, d.manifest, d.rollups, plan, d.manifest.rollupSegments));
            Sum(Raw(d), CoveredWeight(c.json, keys, plan, group))
                + Sum(Raw(d), WeightFrom(plan, d.manifest.hourlyRollupMs, group))
              == Sum(Raw(d), RowWeight(plan, group))
  {
    hide Raw, Sum, RollupInv, RollupScan, Matches, GroupKey, RecordKeys, KeyFor;
    var keys := RecordKeys(RollupScan(c, d.manifest, d.rollups, plan, d.manifest.rollupSegments));
    var a, b, w := CoveredWeight(c.json, keys, plan, group), WeightFrom(plan, d.manifest.hourlyRollupMs, group),
        RowWeight(plan, group);
    forall e | e in Raw(d) ensures w(e) == a(e) + b(e) {
      if Matches(plan, e) {
        ScanCoversSealed(c, d, plan, e);
      }
    }
    SumAdd(Raw(d), a, b, w);
  }

  function AbsCovered(j: Json, keys: set<RollupKey>): UsageEvent -> int
  {
    (e: UsageEvent) => if KeyFor(j, e) in keys then Abs(e.quantity) else 0
  }

  /** Rows add up, in absolute value, to no more than the events they stand for. */
  lemma {:induction false} RowsFit(j: Json, rs: seq<RollupRecord>, m: multiset<UsageEvent>)
    requires DistinctKeys(rs) && forall r :: r in rs ==> Summarizes(j, r, m)
    ensures Sum(multiset(RecordsToEvents(j, rs)), AbsQuantity()) <= Sum(m, AbsCovered(j, RecordKeys(rs)))
    decreases |rs|
  {
    hide KeyFor, Sum, Spans;
    if rs == [] {
      SumZero(multiset(RecordsToEvents(j, rs)), AbsQuantity());
      SumNonNegative(m, AbsCovered(j, RecordKeys(rs)));
    } else {
      var front, last := rs[..|rs| - 1], rs[|rs| - 1];
      assert last in rs && forall r :: r in front ==> r in rs;
      RowsFit(j, front, m);
      SumSnoc(RecordsToEvents(j, front), AbsQuantity(), RecordToEvent(j, last));
      RecordKeysSnoc(rs);
      OneRowFits(j, last.key, m);
      SumAdd(m, AbsCovered(j, RecordKeys(front)), AbsCovered(j, {last.key}), AbsCovered(j, RecordKeys(rs)));
    }
  }

  lemma OneRowFits(j: Json, k: RollupKey, m: multiset<UsageEvent>)
    ensures Abs(Sum(m, OfKey(j, k))) <= Sum(m, AbsCovered(j, {k}))
  {
    hide KeyFor, Sum;
    var f, g := OfKey(j, k), AbsCovered(j, {k});
    SumAtMost(m, f, g);
    var neg := (e: UsageEvent) => -f(e);
    var zero := (e: UsageEvent) => 0;
    SumAtMost(m, neg, g);
    SumAdd(m, f, neg, zero);
    SumZero(m, zero);
  }

  // The refinement.

  /** Both queries look at the same plan but for the source. */
  ghost predicate Queryable(c: Config, s: State, plan: QueryPlan)
  {
    && s.Up? && CoreInv(c, s) && RollupInv(c, s.disk, None) && JsonRoundTrips(c.json)
    && Fits(Raw(s.disk) + multiset(s.mem.memtable))
    && AvoidsKind(plan) && CutsOnTheHour(s.disk.manifest, plan)
    && IsI64(plan.fromMs) && IsI64(plan.toMs) && IsI64(s.disk.manifest.hourlyRollupMs)
  }

  ghost function RollupRows(c: Config, d: Disk, plan: QueryPlan): seq<UsageEvent>
  {
    RecordsToEvents(c.json, RollupScan(c, d.manifest, d.rollups, plan, d.manifest.rollupSegments))
  }

  lemma RollupRowsWeight(c: Config, s: State, plan: QueryPlan, group: seq<string>)
    requires Queryable(c, s, plan)
    ensures Sum(multiset(RollupRows(c, s.disk, plan)), RowWeight(plan, group))
              + Sum(Raw(s.disk), WeightFrom(plan, s.disk.manifest.hourlyRollupMs, group))
            == Sum(Raw(s.disk), RowWeight(plan, group))
  {
    hide Raw, Sum, RollupScan, CatalogOk, Coupled, Unsealed, SlotsExact, SealedCovered, PendingTimely, RowsAgree,
      Summarizes, CutsOnTheHour, AvoidsKind, Fits, RowWeight, WeightFrom, CoveredWeight;
    var d := s.disk;
    var scan := RollupScan(c, d.manifest, d.rollups, plan, d.manifest.rollupSegments);
    RawPositive(d);
    InvSlotted(c, d);
    ScanKeysDistinct(c, d.manifest, d.rollups, plan, d.manifest.rollupSegments);
    forall r | r in scan ensures Summarizes(c.json, r, Raw(d)) && RowsAgree(c.json, r, Raw(d), plan) {
      ScannedRowAgrees(c, d, plan, r);
    }
    RowsWeighLikeEvents(c.json, scan, Raw(d), plan, group);
    CoveredIsSealed(c, d, plan, group);
  }

  /** In the memtable nothing lies below the watermark, so cutting there loses nothing. */
  lemma MemtableAboveWatermark(c: Config, s: State, plan: QueryPlan)
    requires s.Up? && CoreInv(c, s) && RollupInv(c, s.disk, None)
    ensures forall e :: e in multiset(s.mem.memtable) ==> s.disk.manifest.hourlyRollupMs <= e.timestampMs
  {
    hide CoreInv, RollupInv;
    forall e | e in multiset(s.mem.memtable) ensures s.disk.manifest.hourlyRollupMs <= e.timestampMs {
      assert e in s.mem.memtable;
      NothingPendingBelowWatermark(c, s, e);
    }
  }

  /** A row's weight does not change when the cut moves below the window or the watermark. */
  lemma CutWeights(c: Config, s: State, plan: QueryPlan, group: seq<string>)
    requires s.Up? && CoreInv(c, s) && RollupInv(c, s.disk, None)
    ensures var wm := s.disk.manifest.hourlyRollupMs;
            var tail := Max(plan.fromMs, wm);
            && Sum(Raw(s.disk), WeightFrom(plan, tail, group)) == Sum(Raw(s.disk), WeightFrom(plan, wm, group))
            && Sum(Raw(s.disk), WeightFrom(plan, plan.fromMs, group)) == Sum(Raw(s.disk), RowWeight(plan, group))
            && Sum(multiset(s.mem.memtable), WeightFrom(plan, tail, group))
                == Sum(multiset(s.mem.memtable), RowWeight(plan, group))
            && Sum(multiset(s.mem.memtable), WeightFrom(plan, plan.fromMs, group))
                == Sum(multiset(s.mem.memtable), RowWeight(plan, group))
            && (plan.toMs <= wm ==>
                  && Sum(Raw(s.disk), WeightFrom(plan, wm, group)) == 0
                  && Sum(multiset(s.mem.memtable), RowWeight(plan, group)) == 0)
  {
    hide Raw, Sum, CoreInv, RollupInv, GroupKey, MatchesFilter;
    var wm := s.disk.manifest.hourlyRollupMs;
    var tail := Max(plan.fromMs, wm);
    var r, t := Raw(s.disk), multiset(s.mem.memtable);
    MemtableAboveWatermark(c, s, plan);
    forall e | e in r ensures WeightFrom(plan, tail, group)(e) == WeightFrom(plan, wm, group)(e) {
      assert e.timestampMs < plan.fromMs ==> RowWeight(plan, group)(e) == 0;
    }
    SumEqual(r, WeightFrom(plan, tail, group), WeightFrom(plan, wm, group));
    SumEqual(r, WeightFrom(plan, plan.fromMs, group), RowWeight(plan, group));
    SumEqual(t, WeightFrom(plan, tail, group), RowWeight(plan, group));
    SumEqual(t, WeightFrom(plan, plan.fromMs, group), RowWeight(plan, group));
    if plan.toMs <= wm {
      SumZero(r, WeightFrom(plan, wm, group));
      SumZero(t, RowWeight(plan, group));
    }
  }

  ghost function CollectIn(c: Config, s: State, plan: QueryPlan): seq<UsageEvent>
    requires s.Up?
  {
    Collect(c, s.disk.manifest, s.disk.segs, s.disk.rollups, s.mem.memtable, plan)
  }

  lemma SameWeights(c: Config, s: State, plan: QueryPlan, group: seq<string>)
    requires Queryable(c, s, plan)
    ensures Sum(multiset(CollectIn(c, s, plan.(source := RawEvents))), RowWeight(plan, group))
         == Sum(multiset(CollectIn(c, s, plan.(source := RollupHourly))), RowWeight(plan, group))
  {
    hide Raw, Sum, CoreInv, RollupInv, RowWeight, WeightFrom, CollectRaw, RollupRows, Fits, Queryable;
    var raw, rolled := plan.(source := RawEvents), plan.(source := RollupHourly);
    QueryableIs(c, s, plan);
    SourceIrrelevant(c, s, plan, group);
    var m := s.disk.manifest;
    CutWeights(c, s, plan, group);
    RollupRowsWeight(c, s, plan, group);
    RawWeight(c, s, plan, plan.fromMs, group);
    var rows := RollupRows(c, s.disk, plan);
    if plan.toMs > m.hourlyRollupMs {
      var tail := Max(plan.fromMs, m.hourlyRollupMs);
      RawWeight(c, s, plan, tail, group);
      var tailRows := CollectRaw(m.rawSegments, s.disk.segs, s.mem.memtable, c.hashing, plan, tail, plan.toMs,
                                 Buckets(m));
      assert multiset(rows + tailRows) == multiset(rows) + multiset(tailRows);
      SumUnion(multiset(rows), multiset(tailRows), RowWeight(plan, group));
    } else {
      assert rows + [] == rows;
    }
  }

  lemma QueryableIs(c: Config, s: State, plan: QueryPlan)
    requires Queryable(c, s, plan)
    ensures s.Up? && CoreInv(c, s) && RollupInv(c, s.disk, None) && RawListed(c, s.disk)
    ensures IsI64(plan.fromMs) && IsI64(plan.toMs) && IsI64(Max(plan.fromMs, s.disk.manifest.hourlyRollupMs))
    ensures AvoidsKind(plan) && CutsOnTheHour(s.disk.manifest, plan) && JsonRoundTrips(c.json)
    ensures Fits(Raw(s.disk) + multiset(s.mem.memtable))
  {
  }

  /** The source tag of a plan affects nothing but the choice of collection. */
  lemma SourceIrrelevant(c: Config, s: State, plan: QueryPlan, group: seq<string>)
    requires s.Up?
    ensures var m := s.disk.manifest;
            && CollectIn(c, s, plan.(source := RawEvents))
                 == CollectRaw(m.rawSegments, s.disk.segs, s.mem.memtable, c.hashing, plan, plan.fromMs, plan.toMs,
                               Buckets(m))
            && CollectIn(c, s, plan.(source := RollupHourly))
                 == RollupRows(c, s.disk, plan)
                    + if plan.toMs > m.hourlyRollupMs
                      then CollectRaw(m.rawSegments, s.disk.segs, s.mem.memtable, c.hashing, plan,
                                      Max(plan.fromMs, m.hourlyRollupMs), plan.toMs, Buckets(m))
                      else []
  {
    var m := s.disk.manifest;
    hide SegmentOverlapsPlan, Filter;
    ScanIgnoresSource(m.rawSegments, s.disk.segs, c.hashing, plan, plan.(source := RawEvents), plan.fromMs, plan.toMs,
                      Buckets(m));
    ScanIgnoresSource(m.rawSegments, s.disk.segs, c.hashing, plan, plan.(source := RollupHourly),
                      Max(plan.fromMs, m.hourlyRollupMs), plan.toMs, Buckets(m));
    RollupScanIgnoresSource(c, m, s.disk.rollups, plan, plan.(source := RollupHourly), m.rollupSegments);
  }

  lemma {:induction false} ScanIgnoresSource(
    metas: seq<SegmentMeta>, files: SegmentFiles, h: Hashing, plan: QueryPlan, plan': QueryPlan, lo: int, hi: int,
    buckets: nat)
    requires plan' == plan.(source := plan'.source)
    ensures PrunedScan(metas, files, h, plan', lo, hi, buckets) == PrunedScan(metas, files, h, plan, lo, hi, buckets)
    decreases |metas|
  {
    if metas != [] {
      ScanIgnoresSource(metas[..|metas| - 1], files, h, plan, plan', lo, hi, buckets);
    }
  }

  lemma {:induction false} RollupScanIgnoresSource(
    c: Config, m: Manifest, rollups: RollupFiles, plan: QueryPlan, plan': QueryPlan, segs: seq<SegmentMeta>)
    requires plan' == plan.(source := plan'.source)
    ensures RollupScan(c, m, rollups, plan', segs) == RollupScan(c, m, rollups, plan, segs)
    decreases |segs|
  {
    if segs != [] {
      RollupScanIgnoresSource(c, m, rollups, plan, plan', segs[..|segs| - 1]);
    }
  }

  // Presence of groups.

  lemma {:induction false} RowOfRecord(j: Json, rs: seq<RollupRecord>, row: UsageEvent)
    ensures row in RecordsToEvents(j, rs) <==> exists r :: r in rs && row == RecordToEvent(j, r)
    decreases |rs|
  {
    hide RecordToEvent;
    if rs != [] {
      var front, last := rs[..|rs| - 1], rs[|rs| - 1];
      RowOfRecord(j, front, row);
      assert rs == front + [last];
      assert forall x :: x in rs <==> x in front || x == last;
    }
  }

  lemma RawGroupIsRolled(c: Config, s: State, plan: QueryPlan, group: seq<string>)
    requires Queryable(c, s, plan) && HasRow(plan, CollectIn(c, s, plan.(source := RawEvents)), group)
    ensures HasRow(plan, CollectIn(c, s, plan.(source := RollupHourly)), group)
  {
    hide Raw, CoreInv, RollupInv, CollectRaw, RollupRows, Fits, Queryable, GroupKey, MatchesFilter, CutsOnTheHour,
      AvoidsKind;
    var m := s.disk.manifest;
    QueryableIs(c, s, plan);
    SourceIrrelevant(c, s, plan, group);
    var e :| e in CollectIn(c, s, plan.(source := RawEvents)) && Matches(plan, e) && GroupKey(plan.groupBy, e) == group;
    RawRows(c, s, plan, plan.fromMs, e);
    MemtableAboveWatermark(c, s, plan);
    assert e in s.mem.memtable ==> e in multiset(s.mem.memtable);
    if m.hourlyRollupMs <= e.timestampMs {
      RawRows(c, s, plan, Max(plan.fromMs, m.hourlyRollupMs), e);
      assert e in CollectIn(c, s, plan.(source := RollupHourly));
    } else {
      var row := SealedEventHasRow(c, s, plan, e);
      assert row in CollectIn(c, s, plan.(source := RollupHourly));
    }
  }

  lemma SealedEventHasRow(c: Config, s: State, plan: QueryPlan, e: UsageEvent) returns (row: UsageEvent)
    requires Queryable(c, s, plan) && e in Raw(s.disk) && Matches(plan, e)
             && e.timestampMs < s.disk.manifest.hourlyRollupMs
    ensures row in RollupRows(c, s.disk, plan) && Matches(plan, row)
            && GroupKey(plan.groupBy, row) == GroupKey(plan.groupBy, e)
  {
    hide Raw, CoreInv, RollupInv, Fits, GroupKey, Matches, Queryable, CutsOnTheHour, AvoidsKind, KeyFor;
    var d := s.disk;
    QueryableIs(c, s, plan);
    assert Positive(Raw(d)) by { CorePositive(c, s); }
    var scan := RollupScan(c, d.manifest, d.rollups, plan, d.manifest.rollupSegments);
    ScanCoversSealed(c, d, plan, e);
    var i :| 0 <= i < |scan| && scan[i].key == KeyFor(c.json, e);
    assert scan[i] in scan;
    ScannedRowAgrees(c, d, plan, scan[i]);
    row := RecordToEvent(c.json, scan[i]);
    RowOfRecord(c.json, scan, row);
  }

  lemma CorePositive(c: Config, s: State)
    requires CoreInv(c, s)
    ensures Positive(Raw(s.disk))
  {
    hide Ledger, Raw;
    RawPositive(s.disk);
  }

  lemma RolledGroupIsRaw(c: Config, s: State, plan: QueryPlan, group: seq<string>)
    requires Queryable(c, s, plan) && HasRow(plan, CollectIn(c, s, plan.(source := RollupHourly)), group)
    ensures HasRow(plan, CollectIn(c, s, plan.(source := RawEvents)), group)
  {
    hide Raw, CoreInv, RollupInv, CollectRaw, RollupScan, Fits, Queryable, GroupKey, MatchesFilter, CutsOnTheHour,
      AvoidsKind, KeyFor, Summarizes;
    var m := s.disk.manifest;
    QueryableIs(c, s, plan);
    SourceIrrelevant(c, s, plan, group);
    var row :| row in CollectIn(c, s, plan.(source := RollupHourly)) && Matches(plan, row)
        && GroupKey(plan.groupBy, row) == group;
    if row in RollupRows(c, s.disk, plan) {
      var scan := RollupScan(c, m, s.disk.rollups, plan, m.rollupSegments);
      RowOfRecord(c.json, scan, row);
      var r :| r in scan && row == RecordToEvent(c.json, r);
      assert Positive(Raw(s.disk)) by { CorePositive(c, s); }
      ScannedRowAgrees(c, s.disk, plan, r);
      var e :| e in Raw(s.disk) && KeyFor(c.json, e) == r.key;
      RawRows(c, s, plan, plan.fromMs, e);
      assert e in CollectIn(c, s, plan.(source := RawEvents));
    } else {
      RawRows(c, s, plan, Max(plan.fromMs, m.hourlyRollupMs), row);
      RawRows(c, s, plan, plan.fromMs, row);
      assert row in CollectIn(c, s, plan.(source := RawEvents));
    }
  }

  // No saturation.

  lemma BothFit(c: Config, s: State, plan: QueryPlan)
    requires Queryable(c, s, plan)
    ensures Fits(multiset(CollectIn(c, s, plan.(source := RawEvents))))
    ensures Fits(multiset(CollectIn(c, s, plan.(source := RollupHourly))))
  {
    hide Raw, Sum, CoreInv, RollupInv, CollectRaw, RollupRows, Queryable, AbsFrom, AbsQuantity;
    QueryableIs(c, s, plan);
    var m, r, t := s.disk.manifest, Raw(s.disk), multiset(s.mem.memtable);
    SourceIrrelevant(c, s, plan, []);
    SumUnion(r, t, AbsQuantity());
    RawFits(c, s, plan, plan.fromMs);
    AbsFromBound(r, plan.fromMs);
    var rows := RollupRows(c, s.disk, plan);
    RollupRowsFit(c, s, plan);
    SumNonNegative(t, AbsQuantity()) by { AbsNonNegative(t); }
    SumNonNegative(r, AbsFrom(m.hourlyRollupMs)) by { AbsFromNonNegative(r, m.hourlyRollupMs); }
    if plan.toMs > m.hourlyRollupMs {
      var tail := Max(plan.fromMs, m.hourlyRollupMs);
      RawFits(c, s, plan, tail);
      AbsFromMonotone(r, m.hourlyRollupMs, tail);
      var tailRows := CollectRaw(m.rawSegments, s.disk.segs, s.mem.memtable, c.hashing, plan, tail, plan.toMs,
                                 Buckets(m));
      assert multiset(rows + tailRows) == multiset(rows) + multiset(tailRows);
      SumUnion(multiset(rows), multiset(tailRows), AbsQuantity());
    } else {
      assert rows + [] == rows;
    }
  }

  lemma AbsNonNegative(m: multiset<UsageEvent>)
    ensures forall e :: e in m ==> 0 <= AbsQuantity()(e)
  {
  }

  lemma AbsFromNonNegative(m: multiset<UsageEvent>, lo: int)
    ensures forall e :: e in m ==> 0 <= AbsFrom(lo)(e)
  {
  }

  lemma AbsFromBound(m: multiset<UsageEvent>, lo: int)
    ensures Sum(m, AbsFrom(lo)) <= Sum(m, AbsQuantity())
  {
    hide Sum;
    SumAtMost(m, AbsFrom(lo), AbsQuantity());
  }

  lemma AbsFromMonotone(m: multiset<UsageEvent>, lo: int, hi: int)
    requires lo <= hi
    ensures Sum(m, AbsFrom(hi)) <= Sum(m, AbsFrom(lo))
  {
    hide Sum;
    SumAtMost(m, AbsFrom(hi), AbsFrom(lo));
  }

  lemma RollupRowsFit(c: Config, s: State, plan: QueryPlan)
    requires Queryable(c, s, plan)
    ensures Sum(multiset(RollupRows(c, s.disk, plan)), AbsQuantity())
            + Sum(Raw(s.disk), AbsFrom(s.disk.manifest.hourlyRollupMs))
         <= Sum(Raw(s.disk), AbsQuantity())
  {
    hide Raw, Sum, CoreInv, RollupScan, SlotsExact, SealedCovered, PendingTimely, Summarizes, CutsOnTheHour, AvoidsKind,
      Fits, RowsAgree, KeyFor;
    var d, m := s.disk, s.disk.manifest;
    var scan := RollupScan(c, m, d.rollups, plan, m.rollupSegments);
    assert Positive(Raw(d)) by { CorePositive(c, s); }
    InvSlotted(c, d);
    ScanKeysDistinct(c, m, d.rollups, plan, m.rollupSegments);
    forall r | r in scan ensures Summarizes(c.json, r, Raw(d)) {
      ScannedRowAgrees(c, d, plan, r);
    }
    RowsFit(c.json, scan, Raw(d));
    var a, b := AbsCovered(c.json, RecordKeys(scan)), AbsFrom(m.hourlyRollupMs);
    var both := (e: UsageEvent) => a(e) + b(e);
    SumAdd(Raw(d), a, b, both);
    forall e | e in Raw(d) ensures both(e) <= AbsQuantity()(e) {
      if KeyFor(c.json, e) in RecordKeys(scan) {
        ScannedKeyIsSealed(c, d, plan, e);
      }
    }
    SumAtMost(Raw(d), both, AbsQuantity());
  }

  lemma ScannedKeyIsSealed(c: Config, d: Disk, plan: QueryPlan, e: UsageEvent)
    requires SlotsShaped(d) && CutsOnTheHour(d.manifest, plan) && 0 < e.timestampMs
    requires KeyFor(c.json, e) in RecordKeys(RollupScan(c, d.manifest, d.rollups, plan, d.manifest.rollupSegments))
    ensures e.timestampMs < d.manifest.hourlyRollupMs
  {
    hide RollupScan, HourOf;
    var scan := RollupScan(c, d.manifest, d.rollups, plan, d.manifest.rollupSegments);
    var i :| 0 <= i < |scan| && scan[i].key == KeyFor(c.json, e);
    assert scan[i] in scan;
    ScanSource(c, d.manifest, d.rollups, plan, d.manifest.rollupSegments, scan[i]);
    HourOfBounds(e.timestampMs);
    RowInWindow(d.manifest, plan, HourOf(e.timestampMs), e.timestampMs);
  }

  /** The fast query equals the simple query: over any state the engine can reach, a SUM through the
      rollups returns the same groups with the same totals as the SUM over raw events, whatever the
      filters and the grouping, as long as they avoid `kind`. */
  lemma RollupQueryIsRawQuery(c: Config, s: State, plan: QueryPlan)
    requires Queryable(c, s, plan) && plan.metrics != map[]
    ensures SumsOf(AnswerTo(c, s, plan.(source := RollupHourly))) == SumsOf(AnswerTo(c, s, plan.(source := RawEvents)))
  {
    hide Raw, Sum, CoreInv, RollupInv, Collect, Fits, HasRow, RowWeight;
    var raw, rolled := CollectIn(c, s, plan.(source := RawEvents)), CollectIn(c, s, plan.(source := RollupHourly));
    BothFit(c, s, plan);
    forall g ensures Sum(multiset(raw), RowWeight(plan, g)) == Sum(multiset(rolled), RowWeight(plan, g)) {
      SameWeights(c, s, plan, g);
    }
    forall g ensures HasRow(plan, raw, g) <==> HasRow(plan, rolled, g) {
      if HasRow(plan, raw, g) { RawGroupIsRolled(c, s, plan, g); }
      if HasRow(plan, rolled, g) { RolledGroupIsRaw(c, s, plan, g); }
    }
    SameSums(plan, raw, rolled);
    AggregateIgnoresSource(plan, RawEvents, raw);
    AggregateIgnoresSource(plan, RollupHourly, rolled);
  }

  lemma AggregateIgnoresSource(plan: QueryPlan, source: QuerySource, es: seq<UsageEvent>)
    ensures Aggregate(plan.(source := source), es) == Aggregate(plan, es)
  {
    hide GroupAll, Filter;
    FilterEqual(es, Matching(plan.(source := source)), Matching(plan));
  }

  /** In every running state of every run from an empty database without late events, the fast query
      is the simple query. */
  lemma RunQueriesAgree(c: Config, states: seq<State>, steps: seq<Step>, n: nat, plan: QueryPlan)
    requires Run(c, states, steps) && CarefulRun(c, states, steps) && TimelyRun(c, states, steps, None)
             && Initial(states[0])
    requires n <= |steps| && states[n].Up? && JsonRoundTrips(c.json)
    requires Fits(Raw(states[n].disk) + multiset(states[n].mem.memtable)) && AvoidsKind(plan) && plan.metrics != map[]
    requires CutsOnTheHour(states[n].disk.manifest, plan)
    requires IsI64(plan.fromMs) && IsI64(plan.toMs) && IsI64(states[n].disk.manifest.hourlyRollupMs)
    ensures SumsOf(AnswerTo(c, states[n], plan.(source := RollupHourly)))
            == SumsOf(AnswerTo(c, states[n], plan.(source := RawEvents)))
  {
    hide Run, CarefulRun, TimelyRun, Initial, CoreInv, RollupInv, Raw, Fits, AnswerTo, CutsOnTheHour, AvoidsKind,
      JsonRoundTrips;
    assert |states| == |steps| + 1 by { RunLength(c, states, steps); }
    InitialIsEngine(c, states[0], None);
    RunKeepsEngine(c, states, steps, None, n);
    RollupQueryIsRawQuery(c, states[n], plan);
  }
}
