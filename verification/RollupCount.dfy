/** COUNT through the rollups, and the event count that closing a period freezes. */
module RollupCount {
  import opened Model
  import opened Sums
  import opened Manifests
  import opened Query
  import opened Rollup
  import opened Engine
  import opened Durability
  import opened Catalog
  import opened Runs
  import opened RollupSafety
  import opened RollupRuns
  import opened QueryRefinement
  import opened DrillDown
  import opened Periods

  function MatchedBelow(plan: QueryPlan, watermark: int): UsageEvent -> bool
  {
    (e: UsageEvent) => Matches(plan, e) && e.timestampMs < watermark
  }

  function MatchedFrom(plan: QueryPlan, watermark: int): UsageEvent -> bool
  {
    (e: UsageEvent) => Matches(plan, e) && watermark <= e.timestampMs
  }

  function Keys(j: Json, es: seq<UsageEvent>): set<RollupKey>
  {
    set e | e in es :: KeyFor(j, e)
  }

  ghost predicate OwnKeys(j: Json, es: seq<UsageEvent>)
  {
    forall i, k :: 0 <= i < k < |es| ==> KeyFor(j, es[i]) != KeyFor(j, es[k])
  }

  /** There are as many keys as events exactly if no two events share one. */
  lemma {:induction false} KeysOfAll(j: Json, es: seq<UsageEvent>)
    ensures |Keys(j, es)| <= |es| && (|Keys(j, es)| == |es| <==> OwnKeys(j, es))
    decreases |es|
  {
    hide KeyFor;
    if es != [] {
      var front, e := es[..|es| - 1], es[|es| - 1];
      KeysOfAll(j, front);
      assert es == front + [e];
      assert Keys(j, es) == Keys(j, front) + {KeyFor(j, e)};
      if KeyFor(j, e) in Keys(j, front) {
        assert Keys(j, es) == Keys(j, front);
        var x :| x in front && KeyFor(j, x) == KeyFor(j, e);
        var i :| 0 <= i < |front| && front[i] == x;
        assert KeyFor(j, es[i]) == KeyFor(j, es[|es| - 1]);
      } else {
        forall i | 0 <= i < |front| ensures KeyFor(j, es[i]) != KeyFor(j, e) { assert front[i] in front; }
        assert OwnKeys(j, es) <==> OwnKeys(j, front) by { OwnKeysSnoc(j, front, e); }
      }
    }
  }

  lemma OwnKeysSnoc(j: Json, front: seq<UsageEvent>, e: UsageEvent)
    requires forall i :: 0 <= i < |front| ==> KeyFor(j, front[i]) != KeyFor(j, e)
    ensures OwnKeys(j, front + [e]) <==> OwnKeys(j, front)
  {
    hide KeyFor;
    var es := front + [e];
    assert forall i :: 0 <= i < |front| ==> es[i] == front[i];
    if OwnKeys(j, es) {
      forall i, k | 0 <= i < k < |front| ensures KeyFor(j, front[i]) != KeyFor(j, front[k]) {
        assert KeyFor(j, es[i]) != KeyFor(j, es[k]);
      }
    }
  }

  lemma {:induction false} TotalCount(es: seq<UsageEvent>)
    ensures CountAt(GroupAll([], es), []) == |es|
    decreases |es|
  {
    hide SatAdd128;
    if es != [] { TotalCount(es[..|es| - 1]); }
  }

  /** An ungrouped COUNT is the number of matching rows. */
  lemma CountsRows(plan: QueryPlan, es: seq<UsageEvent>)
    requires plan.groupBy == [] && plan.metrics != map[]
    ensures CountOf(Aggregate(plan, es)) == |Filter(es, Matching(plan))|
  {
    hide Filter, GroupAll;
    TotalCount(Filter(es, Matching(plan)));
    KeysOfTotal(Filter(es, Matching(plan)));
  }

  ghost function MatchedKeys(j: Json, rs: seq<RollupRecord>, plan: QueryPlan): set<RollupKey>
  {
    set r | r in rs && Matches(plan, RecordToEvent(j, r)) :: r.key
  }

  lemma MatchedSnoc(j: Json, rs: seq<RollupRecord>, plan: QueryPlan)
    requires DistinctKeys(rs) && rs != []
    ensures var front, last := rs[..|rs| - 1], rs[|rs| - 1];
            && last.key !in MatchedKeys(j, front, plan)
            && MatchedKeys(j, rs, plan)
               == MatchedKeys(j, front, plan) + if Matches(plan, RecordToEvent(j, last)) then {last.key} else {}
  {
    hide Matches, RecordToEvent;
    var front, last := rs[..|rs| - 1], rs[|rs| - 1];
    assert rs == front + [last];
    forall r | r in front ensures r.key != last.key {
      var i :| 0 <= i < |front| && front[i] == r;
      assert rs[i].key != rs[|rs| - 1].key;
    }
  }

  /** Records of distinct keys yield one matching row per matched key. */
  lemma {:induction false} RowsAreKeys(j: Json, rs: seq<RollupRecord>, plan: QueryPlan)
    requires DistinctKeys(rs)
    ensures |Filter(RecordsToEvents(j, rs), Matching(plan))| == |MatchedKeys(j, rs, plan)|
    decreases |rs|
  {
    hide Matches, RecordToEvent, MatchedKeys, Filter;
    if rs == [] {
      assert MatchedKeys(j, rs, plan) == {} && Filter(RecordsToEvents(j, rs), Matching(plan)) == [] by {
        NoRows(j, plan);
      }
    } else {
      var front, last := rs[..|rs| - 1], rs[|rs| - 1];
      RowsAreKeys(j, front, plan);
      FilterSnoc(RecordsToEvents(j, front), Matching(plan), RecordToEvent(j, last));
      MatchedSnoc(j, rs, plan);
    }
  }

  lemma NoRows(j: Json, plan: QueryPlan)
    ensures MatchedKeys(j, [], plan) == {} && Filter(RecordsToEvents(j, []), Matching(plan)) == []
  {
  }

  /** The matched keys are those of the matching raw events below the watermark. */
  lemma MatchedAreSealed(c: Config, s: State, plan: QueryPlan)
    requires Queryable(c, s, plan)
    ensures var d := s.disk;
            MatchedKeys(c.json, RollupScan(c, d.manifest, d.rollups, plan, d.manifest.rollupSegments), plan)
            == Keys(c.json, Filter(RawSeq(d), MatchedBelow(plan, d.manifest.hourlyRollupMs)))
  {
    hide RollupScan, Sum, CatalogOk, Coupled, SlotsExact, SealedCovered, PendingTimely, CutsOnTheHour, AvoidsKind, Fits,
      Filter, Matches, RecordToEvent, AllEvents, KeyFor, GroupKey;
    var d := s.disk;
    var scan := RollupScan(c, d.manifest, d.rollups, plan, d.manifest.rollupSegments);
    var sealed := Filter(RawSeq(d), MatchedBelow(plan, d.manifest.hourlyRollupMs));
    RawPositive(d);
    forall k ensures k in MatchedKeys(c.json, scan, plan) <==> k in Keys(c.json, sealed) {
      if k in MatchedKeys(c.json, scan, plan) {
        var r :| r in scan && Matches(plan, RecordToEvent(c.json, r)) && r.key == k;
        MatchedHasEvent(c, s, plan, r);
      }
      if k in Keys(c.json, sealed) {
        var e :| e in sealed && KeyFor(c.json, e) == k;
        SealedHasRecord(c, s, plan, e);
      }
    }
  }

  lemma MatchedHasEvent(c: Config, s: State, plan: QueryPlan, r: RollupRecord)
    requires Queryable(c, s, plan) && Matches(plan, RecordToEvent(c.json, r))
    requires r in RollupScan(c, s.disk.manifest, s.disk.rollups, plan, s.disk.manifest.rollupSegments)
    ensures r.key in Keys(c.json, Filter(RawSeq(s.disk), MatchedBelow(plan, s.disk.manifest.hourlyRollupMs)))
  {
    hide RollupScan, Sum, CatalogOk, Coupled, SlotsExact, SealedCovered, PendingTimely, CutsOnTheHour, AvoidsKind, Fits,
      Filter, Matches, RecordToEvent, AllEvents, KeyFor, GroupKey, Summarizes;
    var d := s.disk;
    var scan := RollupScan(c, d.manifest, d.rollups, plan, d.manifest.rollupSegments);
    RawPositive(d);
    ScannedRowAgrees(c, d, plan, r);
    var e :| e in Raw(d) && KeyFor(c.json, e) == r.key;
    var i :| 0 <= i < |scan| && scan[i] == r;
    assert KeyFor(c.json, e) in RecordKeys(scan);
    ScanCoversSealed(c, d, plan, e);
    FilterMember(RawSeq(d), MatchedBelow(plan, d.manifest.hourlyRollupMs), e);
  }

  lemma SealedHasRecord(c: Config, s: State, plan: QueryPlan, e: UsageEvent)
    requires Queryable(c, s, plan) && e in Filter(RawSeq(s.disk), MatchedBelow(plan, s.disk.manifest.hourlyRollupMs))
    ensures KeyFor(c.json, e)
         in MatchedKeys(c.json, RollupScan(c, s.disk.manifest, s.disk.rollups, plan, s.disk.manifest.rollupSegments),
                        plan)
  {
    hide RollupScan, Sum, CatalogOk, Coupled, SlotsExact, SealedCovered, PendingTimely, CutsOnTheHour, AvoidsKind, Fits,
      Filter, Matches, RecordToEvent, AllEvents, KeyFor, GroupKey, Summarizes;
    var d := s.disk;
    var scan := RollupScan(c, d.manifest, d.rollups, plan, d.manifest.rollupSegments);
    RawPositive(d);
    FilterMember(RawSeq(d), MatchedBelow(plan, d.manifest.hourlyRollupMs), e);
    ScanCoversSealed(c, d, plan, e);
    var i :| 0 <= i < |scan| && scan[i].key == KeyFor(c.json, e);
    assert scan[i] in scan;
    ScannedRowAgrees(c, d, plan, scan[i]);
  }

  /** The raw tail of a rollup query holds the matching events from the watermark on. */
  lemma TailIs(c: Config, s: State, plan: QueryPlan)
    requires Queryable(c, s, plan) && plan.toMs > s.disk.manifest.hourlyRollupMs
    ensures var m := s.disk.manifest;
            Filter(CollectRaw(m.rawSegments, s.disk.segs, s.mem.memtable, c.hashing, plan,
                              Max(plan.fromMs, m.hourlyRollupMs), plan.toMs, Buckets(m)), Matching(plan))
            == Filter(RawSeq(s.disk) + s.mem.memtable, MatchedFrom(plan, m.hourlyRollupMs))
  {
    hide Filter, Matches, PrunedScan, AllEvents, MetaMatchesFile, FilesBelow, ReplacedUnlisted, Coupled, RollupInv,
      Fits, Sum, AvoidsKind, CutsOnTheHour, Positive;
    var m, lo := s.disk.manifest, Max(plan.fromMs, s.disk.manifest.hourlyRollupMs);
    var near, want := InRange(lo, plan.toMs), MatchedFrom(plan, m.hourlyRollupMs);
    var raw, mem := RawSeq(s.disk), s.mem.memtable;
    PrunedScanIsFullScan(m.rawSegments, s.disk.segs, c.hashing, plan, lo, plan.toMs, Buckets(m));
    FilterAppend(PrunedScan(m.rawSegments, s.disk.segs, c.hashing, plan, lo, plan.toMs, Buckets(m)),
                 Filter(mem, near), Matching(plan));
    forall e ensures want(e) == (near(e) && Matching(plan)(e)) {
      if Matches(plan, e) { MatchIsNear(plan, e); }
    }
    FilterBoth(raw, near, Matching(plan), want);
    FilterBoth(mem, near, Matching(plan), want);
    FilterAppend(raw, mem, want);
  }

  lemma NoTail(plan: QueryPlan, es: seq<UsageEvent>, watermark: int)
    requires plan.toMs <= watermark
    ensures Filter(es, MatchedFrom(plan, watermark)) == []
  {
    hide Filter, MatchesFilter;
    FilterNone(es, MatchedFrom(plan, watermark));
  }

  lemma QueryableIsCatalogued(c: Config, s: State, plan: QueryPlan)
    requires Queryable(c, s, plan)
    ensures s.Up? && CatalogOk(c, s.disk) && IsI64(plan.fromMs) && IsI64(plan.toMs)
  {
  }

  /** Through the rollups, COUNT is the number of keys below the watermark and of events from there on. */
  lemma RollupCountIs(c: Config, s: State, plan: QueryPlan)
    requires Queryable(c, s, plan) && plan.groupBy == [] && plan.metrics != map[]
    ensures var w := s.disk.manifest.hourlyRollupMs;
            CountOf(AnswerTo(c, s, plan.(source := RollupHourly)))
            == |Keys(c.json, Filter(RawSeq(s.disk), MatchedBelow(plan, w)))|
               + |Filter(RawSeq(s.disk) + s.mem.memtable, MatchedFrom(plan, w))|
  {
    hide Queryable, Aggregate, Filter, RollupScan, CollectRaw, RawSeq, Matches, RecordsToEvents;
    QueryableIsCatalogued(c, s, plan);
    var m, rolled := s.disk.manifest, plan.(source := RollupHourly);
    var es, scan := CollectIn(c, s, rolled), RollupScan(c, m, s.disk.rollups, plan, m.rollupSegments);
    SourceIrrelevant(c, s, plan, []);
    AggregateIgnoresSource(plan, RollupHourly, es);
    CountsRows(plan, es);
    ScanIsDistinct(c, s, plan);
    RowsAreKeys(c.json, scan, plan);
    MatchedAreSealed(c, s, plan);
    var rows := RollupRows(c, s.disk, plan);
    if plan.toMs > m.hourlyRollupMs {
      TailIs(c, s, plan);
      FilterAppend(rows, CollectRaw(m.rawSegments, s.disk.segs, s.mem.memtable, c.hashing, plan,
                                    Max(plan.fromMs, m.hourlyRollupMs), plan.toMs, Buckets(m)), Matching(plan));
    } else {
      NoTail(plan, RawSeq(s.disk) + s.mem.memtable, m.hourlyRollupMs);
      assert rows + [] == rows;
    }
  }

  lemma ScanIsDistinct(c: Config, s: State, plan: QueryPlan)
    requires Queryable(c, s, plan)
    ensures var d := s.disk; DistinctKeys(RollupScan(c, d.manifest, d.rollups, plan, d.manifest.rollupSegments))
  {
    hide RollupScan, CatalogOk, Coupled, SlotsExact, SealedCovered, PendingTimely, CutsOnTheHour, AvoidsKind, Fits, Raw,
      Positive;
    InvSlotted(c, s.disk);
    ScanKeysDistinct(c, s.disk.manifest, s.disk.rollups, plan, s.disk.manifest.rollupSegments);
  }

  /** Among the raw events, COUNT is the number of matching ones. */
  lemma RawCountIs(c: Config, s: State, plan: QueryPlan)
    requires Queryable(c, s, plan) && plan.groupBy == [] && plan.metrics != map[]
    ensures var w := s.disk.manifest.hourlyRollupMs;
            CountOf(AnswerTo(c, s, plan.(source := RawEvents)))
            == |Filter(RawSeq(s.disk), MatchedBelow(plan, w))|
               + |Filter(RawSeq(s.disk) + s.mem.memtable, MatchedFrom(plan, w))|
  {
    hide Queryable, Aggregate, Filter, RawSeq, Matches, AnswerTo, CatalogOk;
    QueryableIsCatalogued(c, s, plan);
    var w, raw, all := s.disk.manifest.hourlyRollupMs, RawSeq(s.disk), RawSeq(s.disk) + s.mem.memtable;
    RawAnswerIs(c, s, plan.(source := RawEvents));
    AggregateIgnoresSource(plan, RawEvents, all);
    CountsRows(plan, all);
    SplitAt(all, plan, w);
    FilterAppend(raw, s.mem.memtable, MatchedBelow(plan, w));
    assert Filter(s.mem.memtable, MatchedBelow(plan, w)) == [] by { NothingBelow(c, s, plan); }
    assert Filter(raw, MatchedBelow(plan, w)) + [] == Filter(raw, MatchedBelow(plan, w));
  }

  lemma NothingBelow(c: Config, s: State, plan: QueryPlan)
    requires Queryable(c, s, plan)
    ensures Filter(s.mem.memtable, MatchedBelow(plan, s.disk.manifest.hourlyRollupMs)) == []
  {
    hide Filter, Matches, CoreInv, RollupInv, Fits, AvoidsKind, CutsOnTheHour, Raw;
    MemtableAboveWatermark(c, s, plan);
    FilterNone(s.mem.memtable, MatchedBelow(plan, s.disk.manifest.hourlyRollupMs));
  }

  lemma {:induction false} SplitAt(es: seq<UsageEvent>, plan: QueryPlan, w: int)
    ensures |Filter(es, Matching(plan))| == |Filter(es, MatchedBelow(plan, w))| + |Filter(es, MatchedFrom(plan, w))|
    decreases |es|
  {
    hide Matches;
    if es != [] { SplitAt(es[..|es| - 1], plan, w); }
  }

  /** The two counts agree exactly when no two of the matching events below the watermark share a rollup key;
      otherwise the rollups count fewer. */
  lemma RollupCountExactIff(c: Config, s: State, plan: QueryPlan)
    requires Queryable(c, s, plan) && plan.groupBy == [] && plan.metrics != map[]
    ensures var rolled, raw := CountOf(AnswerTo(c, s, plan.(source := RollupHourly))),
                               CountOf(AnswerTo(c, s, plan.(source := RawEvents)));
            && rolled <= raw
            && (rolled == raw
                <==> OwnKeys(c.json, Filter(RawSeq(s.disk), MatchedBelow(plan, s.disk.manifest.hourlyRollupMs))))
  {
    hide Queryable, AnswerTo, Filter, RawSeq, OwnKeys, Keys;
    QueryableIsCatalogued(c, s, plan);
    RollupCountIs(c, s, plan);
    RawCountIs(c, s, plan);
    KeysOfAll(c.json, Filter(RawSeq(s.disk), MatchedBelow(plan, s.disk.manifest.hourlyRollupMs)));
  }

  function OfPeriod(p: Period): UsageEvent -> bool
  {
    (e: UsageEvent) => InPeriod(p, e)
  }

  /** Closing a period freezes the number of its events exactly when no two of them below the watermark share a rollup
      key. */
  lemma FrozenCountExactIff(c: Config, s: State, s': State, now: int, p: Period, entry: ClosedPeriod)
    requires IsPeriod(c, p) && Queryable(c, s, TotalPlan(p, RollupHourly))
    requires ClosesWithSnapshot(c, s, s', now, p, entry)
    ensures var plan, w := TotalPlan(p, RollupHourly), s.disk.manifest.hourlyRollupMs;
            entry.frozenEventCount == Some(|Filter(RawSeq(s.disk) + s.mem.memtable, OfPeriod(p))|)
            <==> OwnKeys(c.json, Filter(RawSeq(s.disk), MatchedBelow(plan, w)))
  {
    hide Queryable, AnswerTo, Filter, RawSeq, OwnKeys, CloseStep, LiveTotal, Aggregate, CatalogOk;
    var plan := TotalPlan(p, RollupHourly);
    QueryableIsCatalogued(c, s, plan);
    var all := RawSeq(s.disk) + s.mem.memtable;
    assert plan.(source := RollupHourly) == plan && "quantity" in plan.metrics;
    RollupCountExactIff(c, s, plan);
    RawAnswerIs(c, s, plan.(source := RawEvents));
    AggregateIgnoresSource(plan, RawEvents, all);
    CountsRows(plan, all);
    FilterEqual(all, Matching(plan), OfPeriod(p));
  }
}
