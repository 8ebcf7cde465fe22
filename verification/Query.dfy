/** Query plans, row matching, segment skipping and grouped aggregation. */
module Query {
  import opened Model
  import opened Manifests
  import opened Sorting
  import opened Segments
  import opened Sums

  datatype QuerySource = RawEvents | RollupHourly

  datatype QueryFilter = QueryFilter(field: string, values: seq<string>)

  datatype AggregationFunction = SumQuantity | CountRows

  datatype QueryPlan = QueryPlan(
    source: QuerySource,
    accountId: Option<string>,
    fromMs: int,
    toMs: int,
    filters: seq<QueryFilter>,
    groupBy: seq<string>,
    metrics: map<string, AggregationFunction>)

  function KindText(k: EventKind): string
  {
    match k
    case Usage => "Usage"
    case Correction => "Correction"
    case Retraction => "Retraction"
  }

  /** The text a filter on `field` compares with; any unknown field is a dimension. */
  function FieldText(e: UsageEvent, field: string): Option<string>
  {
    if field == "account_id" then Some(e.accountId)
    else if field == "subscription_id" then e.subscriptionId
    else if field == "product_id" then Some(e.productId)
    else if field == "meter_id" then Some(e.meterId)
    else if field == "model_id" then e.modelId
    else if field == "source" then Some(e.source)
    else if field == "unit" then Some(e.unit)
    else if field == "kind" then Some(KindText(e.kind))
    else if field in e.dimensions then Some(e.dimensions[field])
    else None
  }

  predicate MatchesFilter(f: QueryFilter, e: UsageEvent)
  {
    FieldText(e, f.field).Some? && FieldText(e, f.field).value in f.values
  }

  predicate Matches(plan: QueryPlan, e: UsageEvent)
  {
    && plan.fromMs <= e.timestampMs < plan.toMs
    && (plan.accountId.Some? ==> e.accountId == plan.accountId.value)
    && forall f :: f in plan.filters ==> MatchesFilter(f, e)
  }

  function Text(o: Option<string>): string
  {
    if o.Some? then o.value else ""
  }

  function Digits(n: nat): string
  {
    (if n < 10 then "" else Digits(n / 10)) + ["0123456789"[n % 10]]
  }

  function Decimal(n: int): string
  {
    if n < 0 then "-" + Digits(-n) else Digits(n)
  }

  function GroupValue(field: string, e: UsageEvent): string
  {
    if field == "account_id" then e.accountId
    else if field == "subscription_id" then Text(e.subscriptionId)
    else if field == "product_id" then e.productId
    else if field == "meter_id" then e.meterId
    else if field == "model_id" then Text(e.modelId)
    else if field == "source" then e.source
    else if field == "unit" then e.unit
    else if field == "hour_start_ms" then Decimal(HourOf(e.timestampMs))
    else if field == "day" then Decimal(FloorTo(e.timestampMs, DAY_MS))
    else if field == "kind" then KindText(e.kind)
    else if field in e.dimensions then e.dimensions[field]
    else ""
  }

  function GroupKey(groupBy: seq<string>, e: UsageEvent): (key: seq<string>)
    ensures |key| == |groupBy|
  {
    seq(|groupBy|, i requires 0 <= i < |groupBy| => GroupValue(groupBy[i], e))
  }

  // Segment skipping.

  /** Every value asked for on `field`, over all of the plan's filters on it. */
  function WantedValues(filters: seq<QueryFilter>, field: string): set<string>
  {
    set f, v | f in filters && f.field == field && v in f.values :: v
  }

  predicate FilterIntersects(filters: seq<QueryFilter>, field: string, ids: set<string>)
  {
    WantedValues(filters, field) == {} || exists v :: v in ids && v in WantedValues(filters, field)
  }

  predicate SegmentOverlapsPlan(s: SegmentMeta, h: Hashing, plan: QueryPlan, fromMs: int, toMs: int, buckets: nat)
  {
    && s.minTimestampMs < toMs && fromMs <= s.maxTimestampMs
    && (plan.accountId.Some? ==>
          && s.bucket == BucketFor(h, plan.accountId.value, buckets)
          && (s.minAccountId.Some? && s.maxAccountId.Some? ==>
                && StrLe(s.minAccountId.value, plan.accountId.value)
                && StrLe(plan.accountId.value, s.maxAccountId.value)))
    && FilterIntersects(plan.filters, "product_id", s.productIds)
    && FilterIntersects(plan.filters, "meter_id", s.meterIds)
    && FilterIntersects(plan.filters, "model_id", s.modelIds)
  }

  lemma FilterIntersectsSound(filters: seq<QueryFilter>, field: string, ids: set<string>, e: UsageEvent)
    requires forall f :: f in filters ==> MatchesFilter(f, e)
    requires FieldText(e, field).Some? ==> FieldText(e, field).value in ids
    ensures FilterIntersects(filters, field, ids)
  {
    var wanted := WantedValues(filters, field);
    if wanted != {} {
      var v :| v in wanted;
      var f :| f in filters && f.field == field && v in f.values;
      assert MatchesFilter(f, e);
      var actual := FieldText(e, field).value;
      assert actual in wanted;
    }
  }

  /** A segment whose metadata describes its events is never skipped when it holds a match. */
  lemma PruningSound(
    h: Hashing, plan: QueryPlan, fromMs: int, toMs: int, buckets: nat,
    id: SegmentId, batch: seq<UsageEvent>, bucket: nat, e: UsageEvent)
    requires e in batch && Matches(plan, e) && fromMs <= e.timestampMs < toMs
    requires IsI64(fromMs) && IsI64(toMs)
    requires BucketFor(h, e.accountId, buckets) == bucket
    ensures SegmentOverlapsPlan(MetaOf(id, batch, bucket), h, plan, fromMs, toMs, buckets)
  {
    hide StrLe, MatchesFilter;
    TimesBound(batch, e);
    AccountsBound(batch, e);
    var i :| 0 <= i < |batch| && batch[i] == e;
    assert e.productId in Products(batch) && e.meterId in Meters(batch);
    assert e.modelId.Some? ==> e.modelId.value in Models(batch);
    FilterIntersectsSound(plan.filters, "product_id", Products(batch), e);
    FilterIntersectsSound(plan.filters, "meter_id", Meters(batch), e);
    FilterIntersectsSound(plan.filters, "model_id", Models(batch), e);
  }

  /** The filters on `field` ask for some value, and for none that the segment lists. */
  predicate AsksElsewhere(plan: QueryPlan, field: string, ids: set<string>)
  {
    && (exists f :: f in plan.filters && f.field == field && f.values != [])
    && (forall f, v :: f in plan.filters && f.field == field && v in f.values ==> v !in ids)
  }

  /** A segment is skipped exactly when its times lie outside the range, its bucket or accounts are not the plan's, or
      the plan asks for products, meters or models it does not list. */
  lemma SkippedIff(s: SegmentMeta, h: Hashing, plan: QueryPlan, fromMs: int, toMs: int, buckets: nat)
    ensures !SegmentOverlapsPlan(s, h, plan, fromMs, toMs, buckets)
       <==> || toMs <= s.minTimestampMs || s.maxTimestampMs < fromMs
            || (plan.accountId.Some? && s.bucket != BucketFor(h, plan.accountId.value, buckets))
            || (plan.accountId.Some? && s.minAccountId.Some? && s.maxAccountId.Some?
                && !(StrLe(s.minAccountId.value, plan.accountId.value)
                     && StrLe(plan.accountId.value, s.maxAccountId.value)))
            || AsksElsewhere(plan, "product_id", s.productIds)
            || AsksElsewhere(plan, "meter_id", s.meterIds)
            || AsksElsewhere(plan, "model_id", s.modelIds)
  {
    hide StrLe, BucketFor;
    IntersectsIff(plan, "product_id", s.productIds);
    IntersectsIff(plan, "meter_id", s.meterIds);
    IntersectsIff(plan, "model_id", s.modelIds);
  }

  lemma IntersectsIff(plan: QueryPlan, field: string, ids: set<string>)
    ensures FilterIntersects(plan.filters, field, ids) <==> !AsksElsewhere(plan, field, ids)
  {
    var wanted := WantedValues(plan.filters, field);
    if f :| f in plan.filters && f.field == field && f.values != [] {
      assert f.values[0] in f.values && f.values[0] in wanted;
    }
    if wanted != {} {
      var v :| v in wanted;
      var f :| f in plan.filters && f.field == field && v in f.values;
    }
  }

  // Scanning.

  function InRange(fromMs: int, toMs: int): UsageEvent -> bool
  {
    (e: UsageEvent) => fromMs <= e.timestampMs < toMs
  }

  function Matching(plan: QueryPlan): UsageEvent -> bool
  {
    (e: UsageEvent) => Matches(plan, e)
  }

  type SegmentFiles = map<SegmentId, seq<UsageEvent>>

  /** A listed segment whose file is missing reads as empty. */
  function FileEvents(files: SegmentFiles, id: SegmentId): seq<UsageEvent>
  {
    if id in files then files[id] else []
  }

  /** The events of the segments that survive skipping, within `[fromMs, toMs)`. */
  function PrunedScan(
    metas: seq<SegmentMeta>, files: SegmentFiles, h: Hashing, plan: QueryPlan, fromMs: int, toMs: int, buckets: nat)
    : seq<UsageEvent>
  {
    if metas == [] then []
    else
      var s := metas[|metas| - 1];
      PrunedScan(metas[..|metas| - 1], files, h, plan, fromMs, toMs, buckets)
      + if SegmentOverlapsPlan(s, h, plan, fromMs, toMs, buckets)
        then Filter(FileEvents(files, s.segmentId), InRange(fromMs, toMs)) else []
  }

  /** All events of the listed segments. */
  function AllEvents(metas: seq<SegmentMeta>, files: SegmentFiles): seq<UsageEvent>
  {
    if metas == [] then []
    else AllEvents(metas[..|metas| - 1], files) + FileEvents(files, metas[|metas| - 1].segmentId)
  }

  /** The metadata was derived from the file, whose accounts all fall in the segment's bucket. */
  ghost predicate MetaMatchesFile(s: SegmentMeta, files: SegmentFiles, h: Hashing, buckets: nat)
  {
    && s.segmentId in files
    && s == MetaOf(s.segmentId, files[s.segmentId], s.bucket)
    && forall e :: e in files[s.segmentId] ==> BucketFor(h, e.accountId, buckets) == s.bucket
  }

  /** Skipping segments changes no answer: the matching rows are those of the full scan, in order. */
  lemma {:induction false} PrunedScanIsFullScan(
    metas: seq<SegmentMeta>, files: SegmentFiles, h: Hashing, plan: QueryPlan, fromMs: int, toMs: int, buckets: nat)
    requires forall s :: s in metas ==> MetaMatchesFile(s, files, h, buckets)
    requires IsI64(fromMs) && IsI64(toMs)
    ensures Filter(PrunedScan(metas, files, h, plan, fromMs, toMs, buckets), Matching(plan))
         == Filter(Filter(AllEvents(metas, files), InRange(fromMs, toMs)), Matching(plan))
    decreases |metas|
  {
    if metas != [] {
      hide MetaMatchesFile, SegmentOverlapsPlan, Filter, InRange, Matching;
      var front, s := metas[..|metas| - 1], metas[|metas| - 1];
      PrunedScanIsFullScan(front, files, h, plan, fromMs, toMs, buckets);
      var es := FileEvents(files, s.segmentId);
      var all := AllEvents(front, files);
      FilterAppend(all, es, InRange(fromMs, toMs));
      FilterAppend(Filter(all, InRange(fromMs, toMs)), Filter(es, InRange(fromMs, toMs)), Matching(plan));
      FilterAppend(PrunedScan(front, files, h, plan, fromMs, toMs, buckets), Filter(es, InRange(fromMs, toMs)),
                   Matching(plan));
      if !SegmentOverlapsPlan(s, h, plan, fromMs, toMs, buckets) {
        SkippedHasNoMatch(s, files, h, plan, fromMs, toMs, buckets);
        var kept := PrunedScan(front, files, h, plan, fromMs, toMs, buckets);
        assert kept + [] == kept;
        assert PrunedScan(metas, files, h, plan, fromMs, toMs, buckets) == kept;
      }
    }
  }

  lemma SkippedHasNoMatch(
    s: SegmentMeta, files: SegmentFiles, h: Hashing, plan: QueryPlan, fromMs: int, toMs: int, buckets: nat)
    requires MetaMatchesFile(s, files, h, buckets)
    requires IsI64(fromMs) && IsI64(toMs)
    requires !SegmentOverlapsPlan(s, h, plan, fromMs, toMs, buckets)
    ensures Filter(Filter(FileEvents(files, s.segmentId), InRange(fromMs, toMs)), Matching(plan)) == []
  {
    hide SegmentOverlapsPlan;
    var es := files[s.segmentId];
    var near := Filter(es, InRange(fromMs, toMs));
    forall e | e in near ensures !Matching(plan)(e) {
      FilterMember(es, InRange(fromMs, toMs), e);
      if Matches(plan, e) {
        PruningSound(h, plan, fromMs, toMs, buckets, s.segmentId, es, s.bucket, e);
      }
    }
    FilterNone(near, Matching(plan));
  }

  // Aggregation.

  datatype Agg = Agg(quantitySum: int, count: nat)

  type Groups = map<seq<string>, Agg>

  function Accumulate(groups: Groups, key: seq<string>, e: UsageEvent): Groups
  {
    var a := if key in groups then groups[key] else Agg(0, 0);
    groups[key := Agg(SatAdd128(a.quantitySum, e.quantity), a.count + 1)]
  }

  function GroupAll(groupBy: seq<string>, es: seq<UsageEvent>): Groups
  {
    if es == [] then map[]
    else
      var e := es[|es| - 1];
      Accumulate(GroupAll(groupBy, es[..|es| - 1]), GroupKey(groupBy, e), e)
  }

  datatype Answer = Rows(rows: seq<UsageEvent>) | Table(groups: Groups)

  /** Filter and group; an ungrouped aggregate over no rows still reports one zero row. */
  function Aggregate(plan: QueryPlan, es: seq<UsageEvent>): Answer
  {
    var matching := Filter(es, Matching(plan));
    if plan.groupBy == [] && plan.metrics == map[] then Rows(matching)
    else
      var groups := GroupAll(plan.groupBy, matching);
      if plan.groupBy == [] && groups == map[] then Table(map[[] := Agg(0, 0)]) else Table(groups)
  }

  function AbsQuantity(): UsageEvent -> int
  {
    (e: UsageEvent) => Abs(e.quantity)
  }

  /** No order of adding these quantities leaves the 128-bit range. */
  ghost predicate Fits(m: multiset<UsageEvent>)
  {
    Sum(m, AbsQuantity()) <= I128_MAX
  }

  function InGroup(groupBy: seq<string>, key: seq<string>): UsageEvent -> int
  {
    (e: UsageEvent) => if GroupKey(groupBy, e) == key then e.quantity else 0
  }

  function InGroupCount(groupBy: seq<string>, key: seq<string>): UsageEvent -> int
  {
    (e: UsageEvent) => if GroupKey(groupBy, e) == key then 1 else 0
  }

  /** A weight bounded by the absolute quantity cannot sum past it. */
  lemma SumWithinAbs(m: multiset<UsageEvent>, f: UsageEvent -> int)
    requires forall e :: e in m ==> Abs(f(e)) <= Abs(e.quantity)
    ensures Abs(Sum(m, f)) <= Sum(m, AbsQuantity())
  {
    SumAtMost(m, f, AbsQuantity());
    var neg := (e: UsageEvent) => -f(e);
    var zero := (e: UsageEvent) => 0;
    SumAtMost(m, neg, AbsQuantity());
    SumAdd(m, f, neg, zero);
    SumZero(m, zero);
  }

  /** The group of `key` holds the plain sum and count of its rows. */
  ghost predicate GroupExact(groups: Groups, groupBy: seq<string>, es: seq<UsageEvent>, key: seq<string>)
  {
    && (key in groups <==> exists e :: e in es && GroupKey(groupBy, e) == key)
    && (key in groups ==>
          && groups[key].quantitySum == Sum(multiset(es), InGroup(groupBy, key))
          && groups[key].count == Sum(multiset(es), InGroupCount(groupBy, key)))
  }

  lemma {:induction false} GroupAllKeys(groupBy: seq<string>, es: seq<UsageEvent>, key: seq<string>)
    ensures key in GroupAll(groupBy, es) <==> exists e :: e in es && GroupKey(groupBy, e) == key
    decreases |es|
  {
    hide GroupKey, SatAdd128;
    if es != [] {
      var front, last := es[..|es| - 1], es[|es| - 1];
      GroupAllKeys(groupBy, front, key);
      assert es == front + [last];
      assert forall e :: e in es <==> e in front || e == last;
    }
  }

  function QuantityAt(groups: Groups, key: seq<string>): int
  {
    if key in groups then groups[key].quantitySum else 0
  }

  function CountAt(groups: Groups, key: seq<string>): nat
  {
    if key in groups then groups[key].count else 0
  }

  lemma {:induction false} GroupAllSums(groupBy: seq<string>, es: seq<UsageEvent>, key: seq<string>)
    requires Fits(multiset(es))
    ensures QuantityAt(GroupAll(groupBy, es), key) == Sum(multiset(es), InGroup(groupBy, key))
    ensures CountAt(GroupAll(groupBy, es), key) == Sum(multiset(es), InGroupCount(groupBy, key))
    decreases |es|
  {
    hide GroupKey, Sum;
    if es == [] {
      SumZero(multiset(es), InGroup(groupBy, key));
      SumZero(multiset(es), InGroupCount(groupBy, key));
    } else {
      var front, e := es[..|es| - 1], es[|es| - 1];
      assert es == front + [e];
      SumSnoc(front, AbsQuantity(), e);
      GroupAllSums(groupBy, front, key);
      SumSnoc(front, InGroup(groupBy, key), e);
      SumSnoc(front, InGroupCount(groupBy, key), e);
      SumWithinAbs(multiset(es), InGroup(groupBy, key));
    }
  }

  lemma GroupAllExact(groupBy: seq<string>, es: seq<UsageEvent>, key: seq<string>)
    requires Fits(multiset(es))
    ensures GroupExact(GroupAll(groupBy, es), groupBy, es, key)
  {
    hide GroupAll;
    GroupAllKeys(groupBy, es, key);
    GroupAllSums(groupBy, es, key);
  }

  function Quantity(): UsageEvent -> int
  {
    (e: UsageEvent) => e.quantity
  }

  /** A segment's recorded sum is that of its events, while it fits. */
  lemma {:induction false} SegmentSumExact(batch: seq<UsageEvent>)
    requires Fits(multiset(batch))
    ensures SatTotal(batch) == Sum(multiset(batch), Quantity())
    decreases |batch|
  {
    hide Sum;
    if batch == [] {
      SumZero(multiset(batch), Quantity());
    } else {
      var front, e := batch[..|batch| - 1], batch[|batch| - 1];
      assert batch == front + [e];
      SumSnoc(front, AbsQuantity(), e);
      SegmentSumExact(front);
      SumSnoc(front, Quantity(), e);
      SumWithinAbs(multiset(batch), Quantity());
    }
  }

  /** The aggregation loop. */
  method AggregateEvents(plan: QueryPlan, es: seq<UsageEvent>) returns (answer: Answer)
    ensures answer == Aggregate(plan, es)
  {
    var filtered := Filter(es, Matching(plan));
    if plan.groupBy == [] && plan.metrics == map[] {
      return Rows(filtered);
    }
    var groups: Groups := map[];
    for i := 0 to |filtered|
      invariant groups == GroupAll(plan.groupBy, filtered[..i])
    {
      var e := filtered[i];
      assert filtered[..i + 1][..i] == filtered[..i];
      var key := GroupKey(plan.groupBy, e);
      var entry := if key in groups then groups[key] else Agg(0, 0);
      groups := groups[key := Agg(SatAdd128(entry.quantitySum, e.quantity), entry.count + 1)];
    }
    assert filtered[..|filtered|] == filtered;
    if plan.groupBy == [] && groups == map[] {
      answer := Table(map[[] := Agg(0, 0)]);
    } else {
      answer := Table(groups);
    }
  }

  /** Raw collection: pruned segments, then the memtable. */
  function CollectRaw(
    metas: seq<SegmentMeta>, files: SegmentFiles, memtable: seq<UsageEvent>,
    h: Hashing, plan: QueryPlan, fromMs: int, toMs: int, buckets: nat): seq<UsageEvent>
  {
    PrunedScan(metas, files, h, plan, fromMs, toMs, buckets) + Filter(memtable, InRange(fromMs, toMs))
  }

  method CollectRawEvents(
    metas: seq<SegmentMeta>, files: SegmentFiles, memtable: seq<UsageEvent>,
    h: Hashing, plan: QueryPlan, fromMs: int, toMs: int, buckets: nat) returns (events: seq<UsageEvent>)
    ensures events == CollectRaw(metas, files, memtable, h, plan, fromMs, toMs, buckets)
  {
    hide SegmentOverlapsPlan;
    events := [];
    for i := 0 to |metas|
      invariant events == PrunedScan(metas[..i], files, h, plan, fromMs, toMs, buckets)
    {
      var s := metas[i];
      assert metas[..i + 1][..i] == metas[..i];
      if SegmentOverlapsPlan(s, h, plan, fromMs, toMs, buckets) {
        var rows := FileEvents(files, s.segmentId);
        var near := RowsInRange(rows, fromMs, toMs);
        events := events + near;
      }
    }
    assert metas[..|metas|] == metas;
    var tail := RowsInRange(memtable, fromMs, toMs);
    events := events + tail;
  }

  method RowsInRange(rows: seq<UsageEvent>, fromMs: int, toMs: int) returns (near: seq<UsageEvent>)
    ensures near == Filter(rows, InRange(fromMs, toMs))
  {
    near := [];
    for i := 0 to |rows|
      invariant near == Filter(rows[..i], InRange(fromMs, toMs))
    {
      assert rows[..i + 1][..i] == rows[..i];
      if fromMs <= rows[i].timestampMs && rows[i].timestampMs < toMs {
        near := near + [rows[i]];
      }
    }
    assert rows[..|rows|] == rows;
  }
}
