/** A run, from an empty database, after which a closed period reports one event where there are two. */
module CountRuns {
  import opened Model
  import opened Sums
  import opened Manifests
  import opened Ingest
  import opened Sorting
  import opened Segments
  import opened Query
  import opened Rollup
  import opened Engine
  import opened Runs
  import opened RollupSafety
  import opened RollupRuns
  import opened QueryRefinement
  import opened Periods
  import opened PeriodRuns
  import opened RollupCount
  import opened Flushing
  import opened RebuildRuns
  import opened RestartRuns
  import opened FlushFailureRuns

  // Flushing one message of one bucket.

  ghost predicate OneBucketOnly(c: Config, m: Manifest, es: seq<UsageEvent>, b: nat)
  {
    es != [] && forall e :: e in es ==> BucketOf(c, m, e) == b
  }

  ghost function Landed(s: State, es: seq<UsageEvent>, b: nat): State
    requires s.Up? && s.mem.inflight != []
  {
    var m, id, sealedId := s.disk.manifest, s.disk.nextId, s.mem.inflight[0].sealedWalId;
    s.(disk := s.disk.(
         segs := map[id := SortCanonical(es)], nextId := id + 1,
         manifest := m.(rawSegments := m.rawSegments + [MetaOf(id, SortCanonical(es), b)],
                        lastSealedWalId := if sealedId > m.lastSealedWalId then sealedId else m.lastSealedWalId)),
       mem := s.mem.(inflight := s.mem.inflight[1..]))
  }

  lemma Lands(c: Config, s: State, b: nat)
    requires s.Up? && s.mem.inflight != [] && s.disk.segs == map[]
    requires OneBucketOnly(c, s.disk.manifest, s.mem.inflight[0].events, b)
    ensures var es := s.mem.inflight[0].events;
            CommitFlushStep(c, s, Landed(s, es, b), [MetaOf(s.disk.nextId, SortCanonical(es), b)])
  {
    hide SortCanonical, BucketFor, Filter;
    var m, id, es := s.disk.manifest, s.disk.nextId, s.mem.inflight[0].events;
    var sorted, segs := SortCanonical(es), Landed(s, es, b).disk.segs;
    var meta := MetaOf(id, sorted, b);
    assert meta.segmentId == id && meta.bucket == b;
    hide MetaOf;
    FilterAll(es, InBucket(c.hashing, Buckets(m), b));
    SomeStaySome(es);
    assert PieceOf(c.hashing, Buckets(m), es, meta, segs);
    assert meta in [meta] && HasBucket([meta], b);
    assert FlushedAs(c.hashing, Buckets(m), es, [meta], segs);
  }

  // A tick over events of one rollup key.

  /** Idle, with `es` in the segments, all under key `k`. */
  ghost predicate HoldsKey(c: Config, s: State, es: seq<UsageEvent>, k: RollupKey)
  {
    && s.Up? && RawSeq(s.disk) == es != [] && UnusedAbove(s.disk.rollups, s.disk.nextId)
    && s.mem.memtable == [] && s.mem.oldestInsertAtMs == None
    && s.mem.activeId == s.disk.manifest.lastSealedWalId + 1
    && forall e :: e in es ==> KeyFor(c.json, e) == k && 0 < e.timestampMs
  }

  lemma KeyedAlike(c: Config, m: Manifest, e: UsageEvent, f: UsageEvent)
    requires KeyFor(c.json, e) == KeyFor(c.json, f)
    ensures BucketOf(c, m, e) == BucketOf(c, m, f) && HourOf(e.timestampMs) == HourOf(f.timestampMs)
  {
  }

  lemma RollsUpKey(c: Config, m: Manifest, es: seq<UsageEvent>, k: RollupKey, b: nat)
    requires es != []
    requires forall e :: e in es ==> KeyFor(c.json, e) == k && 0 < e.timestampMs && BucketOf(c, m, e) == b
    ensures k in Aggregated(c.json, es) && Aggregated(c.json, es)[k].key == k
    ensures RollsUp(c, m, es, k.hourStartMs, b, [Aggregated(c.json, es)[k]])
  {
    hide BucketFor, Filter, Aggregated, HourOf;
    var agg := Aggregated(c.json, es);
    forall e | e in es ensures InHourBucket(c, m, k.hourStartMs, b)(e) { HourOfBounds(e.timestampMs); }
    FilterAll(es, InHourBucket(c, m, k.hourStartMs, b));
    forall x ensures x in agg <==> x == k {
      AggregatedKeys(c.json, es, x);
      assert es[0] in multiset(es);
    }
    AggregatedKeys(c.json, es, k);
    var r := agg[k];
    assert [r][0] == r && RecordKeys([r]) == {k} == agg.Keys;
  }

  ghost function KeyRolled(c: Config, s: State, now: int, target: int, es: seq<UsageEvent>, k: RollupKey, b: nat): State
    requires s.Up? && k in Aggregated(c.json, es)
  {
    var d, id, r := s.disk, s.disk.nextId, Aggregated(c.json, es)[k];
    s.(clock := now,
       disk := d.(
         rollups := d.rollups[id := [r]],
         nextId := id + 1,
         manifest := d.manifest.(
           rollupSegments := d.manifest.rollupSegments + [RollupMetaOf(c.json, id, [r], b, k.hourStartMs)],
           hourlyRollupMs := target)))
  }

  lemma TickRollsKey(c: Config, s: State, now: int, es: seq<UsageEvent>, k: RollupKey, b: nat)
    requires HoldsKey(c, s, es, k) && k in Aggregated(c.json, es) && s.disk.manifest.rollupSegments == []
    requires forall e :: e in es ==> BucketOf(c, s.disk.manifest, e) == b
    requires TickStart(s.disk.manifest) == k.hourStartMs < HourOf(now - c.safetyLagMs) && Aligned(k.hourStartMs)
    ensures var target := HourOf(now - c.safetyLagMs);
            TickCommitStep(c, s, KeyRolled(c, s, now, target, es, k, b), now, target,
                           [RollupMetaOf(c.json, s.disk.nextId, [Aggregated(c.json, es)[k]], b, k.hourStartMs)])
  {
    hide HourOf, BucketFor, KeyFor, TickStart, RollsUp, RawSeq, RecordsToEvents, Aggregated;
    var m, id, target, hour := s.disk.manifest, s.disk.nextId, HourOf(now - c.safetyLagMs), k.hourStartMs;
    var s', r := KeyRolled(c, s, now, target, es, k, b), Aggregated(c.json, es)[k];
    var seg := RollupMetaOf(c.json, id, [r], b, hour);
    assert seg.segmentId == id && seg.minTimestampMs == hour && seg.bucket == b;
    hide RollupMetaOf;
    IdleTarget(c, s, now);
    RollsUpKey(c, m, es, k, b);
    assert NewRollup(c, m, es, hour, seg, s'.disk.rollups);
    forall e | e in es ensures WindowOf(hour, e.timestampMs) == hour { HourWindow(c, k, e); }
    assert seg in [seg] && HasSlot([seg], hour, b);
    assert NewRollups(c, m, es, hour, target, [seg], s'.disk.rollups);
  }

  lemma HourWindow(c: Config, k: RollupKey, e: UsageEvent)
    requires KeyFor(c.json, e) == k && 0 < e.timestampMs && Aligned(k.hourStartMs)
    ensures WindowOf(k.hourStartMs, e.timestampMs) == k.hourStartMs
  {
    hide HourOf;
    HourOfBounds(e.timestampMs);
    InWindow(k.hourStartMs, k.hourStartMs, e.timestampMs);
  }

  // The run.

  /** Both events are stored. */
  ghost function BothStored(c: Config, buckets: nat, t0: int, e: UsageEvent, f: UsageEvent): State
  {
    var sealed := BothSealed(c, buckets, t0, e, f)[4];
    Landed(sealed, [e, f], BucketOf(c, sealed.disk.manifest, e))
  }

  /** The segment that holds both. */
  ghost function PairSegment(c: Config, buckets: nat, e: UsageEvent, f: UsageEvent): SegmentMeta
  {
    MetaOf(0, SortCanonical([e, f]), BucketOf(c, DiskFor(buckets, map[]).manifest, e))
  }

  lemma SealedPair(c: Config, buckets: nat, t0: int, e: UsageEvent, f: UsageEvent)
    ensures var s := BothSealed(c, buckets, t0, e, f)[4];
            && s.Up? && s.clock == t0 && s.mem.inflight == [FlushMessage([e, f], 1)] && s.mem.memtable == []
            && s.mem.oldestInsertAtMs == None && s.mem.activeId == 2 && s.disk.segs == map[] && s.disk.nextId == 0
            && s.disk.rollups == map[] && s.disk.manifest == DiskFor(buckets, map[]).manifest
  {
    hide CommitAll;
    assert [] + [e] + [f] == [e, f];
  }

  lemma StoresBoth(c: Config, buckets: nat, t0: int, a: UsageEvent, b: UsageEvent)
    requires Admissible(c.calendar, [], a) && Admissible(c.calendar, [], b) && IdOf(c, a) != IdOf(c, b)
    requires KeyFor(c.json, Stamped(a, t0)) == KeyFor(c.json, Stamped(b, t0))
    ensures var e, f := Stamped(a, t0), Stamped(b, t0);
            var s := BothStored(c, buckets, t0, e, f);
            && Next(c, BothSealed(c, buckets, t0, e, f)[4], CommitFlush([PairSegment(c, buckets, e, f)]), s)
            && CoreInv(c, s) && Ledger(s.disk) == multiset{e, f}
  {
    hide Admissible, CommitAll, CoreInv, Ledger, SortCanonical, BucketFor, KeyFor, MetaOf, CommitFlushStep, BothSealed;
    var e, f := Stamped(a, t0), Stamped(b, t0);
    BothSealedRun(c, buckets, t0, a, b);
    SealedPair(c, buckets, t0, e, f);
    var s, s', step := BothSealed(c, buckets, t0, e, f)[4], BothStored(c, buckets, t0, e, f),
                       CommitFlush([PairSegment(c, buckets, e, f)]);
    KeyedAlike(c, s.disk.manifest, e, f);
    Lands(c, s, BucketOf(c, s.disk.manifest, e));
    assert Next(c, s, step, s');
    StepConserves(c, s, step, s');
    OnlyIngestAdds(c, s, step);
    assert Ledger(s.disk) + multiset([]) == Ledger(s.disk);
  }

  lemma InPair(e: UsageEvent, f: UsageEvent, x: UsageEvent)
    ensures x in SortCanonical([e, f]) <==> x == e || x == f
  {
    hide SortCanonical;
    SortIsPermutation([e, f]);
    assert x in SortCanonical([e, f]) <==> x in multiset(SortCanonical([e, f]));
    assert x in multiset([e, f]) <==> x in [e, f];
  }

  lemma PairIsHeld(c: Config, buckets: nat, t0: int, e: UsageEvent, f: UsageEvent)
    requires KeyFor(c.json, e) == KeyFor(c.json, f) && 0 < e.timestampMs < I64_MAX && 0 < f.timestampMs < I64_MAX
    ensures var s, k, es := BothStored(c, buckets, t0, e, f), KeyFor(c.json, e), SortCanonical([e, f]);
            var m := s.disk.manifest;
            && HoldsKey(c, s, es, k) && s.clock == t0 && m.rollupSegments == []
            && m.hourlyRollupMs == 0 && m.closedPeriods == []
            && (forall x :: x in es ==> BucketOf(c, m, x) == BucketOf(c, m, e))
            && TickStart(m) == k.hourStartMs && Aligned(k.hourStartMs)
  {
    hide SortCanonical, BucketFor, HourOf, KeyFor, MetaOf, BothSealed, TickStart, RawSeq;
    SealedPair(c, buckets, t0, e, f);
    var s, k, es := BothStored(c, buckets, t0, e, f), KeyFor(c.json, e), SortCanonical([e, f]);
    var m, meta := s.disk.manifest, PairSegment(c, buckets, e, f);
    forall x | x in es
      ensures KeyFor(c.json, x) == k && 0 < x.timestampMs < I64_MAX && BucketOf(c, m, x) == BucketOf(c, m, e)
    {
      InPair(e, f, x);
      KeyedAlike(c, m, e, x);
    }
    SomeStaySome([e, f]);
    assert [] + [meta] == [meta];
    StartOfKey(c, m, es, k, BucketOf(c, m, e));
    OneFile(s.disk, meta, es);
  }

  lemma OneFile(d: Disk, meta: SegmentMeta, file: seq<UsageEvent>)
    requires d.manifest.rawSegments == [meta] && d.segs == map[0 := file] && meta.segmentId == 0
    ensures RawSeq(d) == file
  {
    assert [meta][..0] == [];
    assert AllEvents([meta], d.segs) == AllEvents([], d.segs) + FileEvents(d.segs, 0);
  }

  lemma StartOfKey(c: Config, m: Manifest, es: seq<UsageEvent>, k: RollupKey, b: nat)
    requires es != [] && m.rawSegments == [MetaOf(0, es, b)] && m.hourlyRollupMs == 0
    requires forall e :: e in es ==> KeyFor(c.json, e) == k && 0 < e.timestampMs < I64_MAX
    ensures TickStart(m) == k.hourStartMs && Aligned(k.hourStartMs) && MetaOf(0, es, b).segmentId == 0
  {
    hide HourOf;
    MetaIsTight(0, es, b);
    var e :| e in es && e.timestampMs == MetaOf(0, es, b).minTimestampMs;
    hide MetaOf;
    HourOfAligned(e.timestampMs);
  }

  /** The pair rolled up. */
  ghost function PairRolled(c: Config, buckets: nat, t0: int, now: int, e: UsageEvent, f: UsageEvent): State
    requires KeyFor(c.json, e) in Aggregated(c.json, SortCanonical([e, f]))
  {
    var s := BothStored(c, buckets, t0, e, f);
    KeyRolled(c, s, now, HourOf(now - c.safetyLagMs), SortCanonical([e, f]), KeyFor(c.json, e),
              BucketOf(c, s.disk.manifest, e))
  }

  /** What the run asks of its two events: admissible, of one rollup key, inside the period and behind the lag. */
  ghost predicate Pair(c: Config, p: Period, a: UsageEvent, b: UsageEvent, t0: int, now: int)
  {
    var e, f := Stamped(a, t0), Stamped(b, t0);
    && Admissible(c.calendar, [], a) && Admissible(c.calendar, [], b) && IdOf(c, a) != IdOf(c, b)
    && KeyFor(c.json, e) == KeyFor(c.json, f) && InPeriod(p, e) && InPeriod(p, f) && Fits(multiset{e, f})
    && 0 < e.timestampMs < I64_MAX && 0 < f.timestampMs < I64_MAX && t0 <= now
    && HourOf(a.timestampMs) < HourOf(now - c.safetyLagMs) && IsI64(HourOf(now - c.safetyLagMs))
  }

  lemma HasEntry(c: Config, e: UsageEvent, f: UsageEvent)
    ensures KeyFor(c.json, e) in Aggregated(c.json, SortCanonical([e, f]))
  {
    hide SortCanonical, KeyFor, Aggregated;
    var es := SortCanonical([e, f]);
    InPair(e, f, e);
    assert e in multiset(es);
    AggregatedKeys(c.json, es, KeyFor(c.json, e));
  }

  lemma PairIsRolled(c: Config, buckets: nat, p: Period, a: UsageEvent, b: UsageEvent, t0: int, now: int)
    requires Pair(c, p, a, b, t0, now)
    ensures var e, f := Stamped(a, t0), Stamped(b, t0);
            && KeyFor(c.json, e) in Aggregated(c.json, SortCanonical([e, f]))
            && var s, s' := BothStored(c, buckets, t0, e, f), PairRolled(c, buckets, t0, now, e, f);
               && Next(c, s, Tick(now), s') && CoreInv(c, s') && RollupInv(c, s'.disk, None)
               && Ledger(s'.disk) == multiset{e, f}
  {
    hide Admissible, SortCanonical, BucketFor, HourOf, KeyFor, CoreInv, RollupInv, Ledger, BothStored, TickCommitStep,
      Aggregated, Fits, HoldsKey, RollupMetaOf, Raw, TickStart, Next;
    var e, f := Stamped(a, t0), Stamped(b, t0);
    var s, es, k := BothStored(c, buckets, t0, e, f), SortCanonical([e, f]), KeyFor(c.json, e);
    HasEntry(c, e, f);
    StoresBoth(c, buckets, t0, a, b);
    PairIsHeld(c, buckets, t0, e, f);
    var s', target := PairRolled(c, buckets, t0, now, e, f), HourOf(now - c.safetyLagMs);
    assert k.hourStartMs == HourOf(a.timestampMs) by { HourOfKey(c, e); }
    assert s.Up? by { HeldIsUp(c, s, es, k); }
    TickRollsKey(c, s, now, es, k, BucketOf(c, s.disk.manifest, e));
    TickIsNext(c, s, s', now, target, [RollupMetaOf(c.json, s.disk.nextId, [Aggregated(c.json, es)[k]],
                                                    BucketOf(c, s.disk.manifest, e), k.hourStartMs)]);
    StepConserves(c, s, Tick(now), s');
    OnlyIngestAdds(c, s, Tick(now));
    assert Ledger(s.disk) + multiset([]) == Ledger(s.disk);
    assert RollupInv(c, s.disk, None) by { CoreIsPositive(c, s); NothingRolledUp(c, s.disk); }
    assert Fits(Raw(s.disk)) by { HeldFits(c, s, e, f, k); }
    StepKeepsRollup(c, s, Tick(now), s', None);
  }

  lemma HourOfKey(c: Config, e: UsageEvent)
    ensures KeyFor(c.json, e).hourStartMs == HourOf(e.timestampMs)
  {
  }

  lemma HeldIsUp(c: Config, s: State, es: seq<UsageEvent>, k: RollupKey)
    requires HoldsKey(c, s, es, k)
    ensures s.Up? && RawSeq(s.disk) == es && s.mem.memtable == []
  {
  }

  lemma HeldFits(c: Config, s: State, e: UsageEvent, f: UsageEvent, k: RollupKey)
    requires HoldsKey(c, s, SortCanonical([e, f]), k) && Fits(multiset{e, f})
    ensures Fits(Raw(s.disk)) && Raw(s.disk) == multiset{e, f}
  {
    hide SortCanonical;
    SortIsPermutation([e, f]);
    assert multiset([e, f]) == multiset{e, f};
  }

  /** The rolled state as queries see it. */
  lemma RolledIsQueryable(c: Config, buckets: nat, p: Period, a: UsageEvent, b: UsageEvent, t0: int, now: int)
    requires Pair(c, p, a, b, t0, now) && CalendarOk(c.calendar) && IsPeriod(c, p) && JsonRoundTrips(c.json)
    ensures var e, f := Stamped(a, t0), Stamped(b, t0);
            && KeyFor(c.json, e) in Aggregated(c.json, SortCanonical([e, f]))
            && var s := PairRolled(c, buckets, t0, now, e, f);
               && Queryable(c, s, TotalPlan(p, RollupHourly)) && s.clock == now && s.mem.memtable == []
               && RawSeq(s.disk) == SortCanonical([e, f]) && Raw(s.disk) == multiset{e, f}
               && s.disk.manifest.hourlyRollupMs == HourOf(now - c.safetyLagMs) && s.disk.manifest.closedPeriods == []
  {
    hide Admissible, SortCanonical, BucketFor, HourOf, KeyFor, CoreInv, RollupInv, Ledger, BothStored, Aggregated, Fits,
      HoldsKey, RollupMetaOf, AllEvents, TickStart, Next, JsonRoundTrips;
    var e, f := Stamped(a, t0), Stamped(b, t0);
    PairIsRolled(c, buckets, p, a, b, t0, now);
    PairIsHeld(c, buckets, t0, e, f);
    var s, k := BothStored(c, buckets, t0, e, f), KeyFor(c.json, e);
    HeldIsUp(c, s, SortCanonical([e, f]), k);
    HeldFits(c, s, e, f, k);
    var s' := PairRolled(c, buckets, t0, now, e, f);
    assert RawSeq(s'.disk) == RawSeq(s.disk);
    assert Raw(s'.disk) + multiset(s'.mem.memtable) == multiset{e, f};
  }

  /** The pair has the one key, and nothing lies above the watermark. */
  lemma CountsOnce(c: Config, s: State, p: Period, es: seq<UsageEvent>, k: RollupKey)
    requires Queryable(c, s, TotalPlan(p, RollupHourly)) && RawSeq(s.disk) == es != [] && s.mem.memtable == []
    requires forall e :: e in es ==>
               KeyFor(c.json, e) == k && InPeriod(p, e) && e.timestampMs < s.disk.manifest.hourlyRollupMs
    ensures CountOf(AnswerTo(c, s, TotalPlan(p, RollupHourly))) == 1
  {
    hide Queryable, AnswerTo, Filter, RawSeq, KeyFor;
    var plan, w := TotalPlan(p, RollupHourly), s.disk.manifest.hourlyRollupMs;
    assert plan.(source := RollupHourly) == plan && "quantity" in plan.metrics;
    RollupCountIs(c, s, plan);
    FilterAll(es, MatchedBelow(plan, w));
    assert es + [] == es;
    FilterNone(es, MatchedFrom(plan, w));
    assert es[0] in es;
    assert Keys(c.json, es) == {k};
  }

  /** Start, ingest `a` and `b`, which have one rollup key, seal, flush, tick, close their period: two events are
      stored, and the entry says one. */
  lemma TwoEventsCountAsOne(c: Config, buckets: nat, p: Period, a: UsageEvent, b: UsageEvent, t0: int, now: int)
    returns (states: seq<State>, steps: seq<Step>, entry: ClosedPeriod)
    requires Pair(c, p, a, b, t0, now) && CalendarOk(c.calendar) && IsPeriod(c, p) && JsonRoundTrips(c.json)
    ensures Run(c, states, steps) && Initial(states[0]) && |states| == 8 && steps[6] == Close(now, entry)
    ensures states[6].Up? && ClosesWithSnapshot(c, states[6], states[7], now, p, entry)
    ensures Raw(states[6].disk) == multiset{Stamped(a, t0), Stamped(b, t0)} && entry.frozenEventCount == Some(1)
  {
    hide Admissible, SortCanonical, BucketFor, HourOf, KeyFor, CoreInv, RollupInv, Ledger, BothStored, Aggregated, Fits,
      Queryable, AnswerTo, Next, BothSealed, PairRolled, Raw, RawSeq, Initial, Acked, PairSegment;
    var e, f := Stamped(a, t0), Stamped(b, t0);
    BothSealedRun(c, buckets, t0, a, b);
    StoresBoth(c, buckets, t0, a, b);
    PairIsRolled(c, buckets, p, a, b, t0, now);
    RolledIsQueryable(c, buckets, p, a, b, t0, now);
    var s := PairRolled(c, buckets, t0, now, e, f);
    assert s.Up? by { QueryableIsCatalogued(c, s, TotalPlan(p, RollupHourly)); }
    PairBelow(c, p, a, b, t0, now, s);
    CountsOnce(c, s, p, SortCanonical([e, f]), KeyFor(c.json, e));
    entry := ClosedPeriod(p.account, p.year, p.month, now, Some(LiveTotal(c, s, p, RollupHourly)),
                          Some(CountOf(AnswerTo(c, s, TotalPlan(p, RollupHourly)))),
                          Some(s.disk.manifest.hourlyRollupMs));
    ClosesNow(c, s, p, entry, now);
    var sealed := BothSealed(c, buckets, t0, e, f);
    SealedLength(c, buckets, t0, e, f);
    var more := [sealed[4], BothStored(c, buckets, t0, e, f), s, Closed(s, entry)];
    var added := [CommitFlush([PairSegment(c, buckets, e, f)]), Tick(now), Close(now, entry)];
    assert Run(c, more, added);
    var first := [Recover(t0), Ingest(t0, [a]), Ingest(t0, [b]), Drain];
    RunsJoin(c, sealed, first, more, added);
    states, steps := sealed + more[1..], first + added;
    assert states[6] == more[2] && states[7] == more[3] && steps[6] == added[2];
  }

  lemma SealedLength(c: Config, buckets: nat, t0: int, e: UsageEvent, f: UsageEvent)
    ensures |BothSealed(c, buckets, t0, e, f)| == 5
  {
  }

  lemma PairBelow(c: Config, p: Period, a: UsageEvent, b: UsageEvent, t0: int, now: int, s: State)
    requires Pair(c, p, a, b, t0, now) && s.disk.manifest.hourlyRollupMs == HourOf(now - c.safetyLagMs)
    ensures var e, f := Stamped(a, t0), Stamped(b, t0);
            && SortCanonical([e, f]) != []
            && forall x :: x in SortCanonical([e, f]) ==>
                 && KeyFor(c.json, x) == KeyFor(c.json, e) && InPeriod(p, x)
                 && x.timestampMs < s.disk.manifest.hourlyRollupMs
  {
    hide Admissible, SortCanonical, HourOf, Fits;
    var e, f, w := Stamped(a, t0), Stamped(b, t0), HourOf(now - c.safetyLagMs);
    SomeStaySome([e, f]);
    forall x | x in SortCanonical([e, f])
      ensures KeyFor(c.json, x) == KeyFor(c.json, e) && InPeriod(p, x) && x.timestampMs < w
    {
      InPair(e, f, x);
      HourOfKey(c, x);
      HourOfKey(c, e);
      HourOfBounds(x.timestampMs);
      HourOfAligned(now - c.safetyLagMs);
      AlignedGap(HourOf(x.timestampMs), w);
    }
  }

  lemma ClosesNow(c: Config, s: State, p: Period, entry: ClosedPeriod, now: int)
    requires s.Up? && s.clock == now && s.disk.manifest.closedPeriods == []
    requires entry == ClosedPeriod(p.account, p.year, p.month, now, Some(LiveTotal(c, s, p, RollupHourly)),
                                   Some(CountOf(AnswerTo(c, s, TotalPlan(p, RollupHourly)))),
                                   Some(s.disk.manifest.hourlyRollupMs))
    ensures ClosesWithSnapshot(c, s, Closed(s, entry), now, p, entry) && Next(c, s, Close(now, entry), Closed(s, entry))
  {
    hide AnswerTo;
    assert [] + [entry] == [entry];
  }
}
