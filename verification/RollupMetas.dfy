/** What the catalogue records about a rollup segment. */
module RollupMetas {
  import opened Model
  import opened Sums
  import opened Manifests
  import opened Segments
  import opened Query
  import opened Rollup
  import opened Engine
  import opened QueryRefinement

  /** The raw events that a rollup segment stands for. */
  function SlotEvents(c: Config, m: Manifest, raw: seq<UsageEvent>, hour: int, bucket: nat): seq<UsageEvent>
  {
    Filter(raw, InHourBucket(c, m, hour, bucket))
  }

  lemma {:induction false} RowAt(j: Json, rs: seq<RollupRecord>, i: nat)
    requires i < |rs|
    ensures |RecordsToEvents(j, rs)| == |rs| && RecordsToEvents(j, rs)[i] == RecordToEvent(j, rs[i])
    decreases |rs|
  {
    hide RecordToEvent;
    var n := |rs| - 1;
    if i < n { RowAt(j, rs[..n], i); } else if n > 0 { RowAt(j, rs[..n], 0); }
  }

  /** A key has a row exactly if one of the slot's events has it. */
  lemma RowsHaveKeys(c: Config, m: Manifest, raw: seq<UsageEvent>, hour: int, bucket: nat, rs: seq<RollupRecord>,
                     k: RollupKey)
    requires RollsUp(c, m, raw, hour, bucket, rs)
    ensures (exists r :: r in rs && r.key == k)
       <==> exists e :: e in SlotEvents(c, m, raw, hour, bucket) && KeyFor(c.json, e) == k
  {
    hide Aggregated, KeyFor, BucketFor, Filter;
    var es := SlotEvents(c, m, raw, hour, bucket);
    AggregatedKeys(c.json, es, k);
    assert forall e :: e in multiset(es) <==> e in es;
    assert k in RecordKeys(rs) <==> exists r :: r in rs && r.key == k by {
      if r :| r in rs && r.key == k { var i :| 0 <= i < |rs| && rs[i] == r; }
      if k in RecordKeys(rs) {
        var i :| 0 <= i < |rs| && rs[i].key == k;
        assert rs[i] in rs;
      }
    }
  }

  ghost predicate Alike(a: UsageEvent, b: UsageEvent)
  {
    a.productId == b.productId && a.meterId == b.meterId && a.modelId == b.modelId
  }

  lemma RowHasEvent(c: Config, m: Manifest, raw: seq<UsageEvent>, hour: int, bucket: nat, rs: seq<RollupRecord>,
                    row: UsageEvent)
    requires RollsUp(c, m, raw, hour, bucket, rs) && row in RecordsToEvents(c.json, rs)
    ensures exists e :: e in SlotEvents(c, m, raw, hour, bucket) && Alike(row, e)
  {
    hide RollsUp, KeyFor, RecordsToEvents, RecordToEvent, SlotEvents, Alike;
    var rows := RecordsToEvents(c.json, rs);
    assert |rows| == |rs| by { RowCount(c.json, rs); }
    var i :| 0 <= i < |rows| && rows[i] == row;
    RowAt(c.json, rs, i);
    assert rs[i] in rs;
    RowsHaveKeys(c, m, raw, hour, bucket, rs, rs[i].key);
    var e :| e in SlotEvents(c, m, raw, hour, bucket) && KeyFor(c.json, e) == rs[i].key;
    RowLikeEvent(c.json, rs[i], e);
  }

  lemma EventHasRow(c: Config, m: Manifest, raw: seq<UsageEvent>, hour: int, bucket: nat, rs: seq<RollupRecord>,
                    e: UsageEvent)
    requires RollsUp(c, m, raw, hour, bucket, rs) && e in SlotEvents(c, m, raw, hour, bucket)
    ensures exists row :: row in RecordsToEvents(c.json, rs) && Alike(row, e)
  {
    hide RollsUp, KeyFor, RecordsToEvents, RecordToEvent, SlotEvents, Alike;
    RowsHaveKeys(c, m, raw, hour, bucket, rs, KeyFor(c.json, e));
    var r :| r in rs && r.key == KeyFor(c.json, e);
    var i :| 0 <= i < |rs| && rs[i] == r;
    RowAt(c.json, rs, i);
    RowLikeEvent(c.json, r, e);
    assert RecordsToEvents(c.json, rs)[i] in RecordsToEvents(c.json, rs);
  }

  lemma {:induction false} RowCount(j: Json, rs: seq<RollupRecord>)
    ensures |RecordsToEvents(j, rs)| == |rs|
  {
    hide RecordToEvent;
    if rs != [] { RowCount(j, rs[..|rs| - 1]); }
  }

  /** A rollup segment is listed under its hour, with one row per key of its raw events and with exactly their products,
      meters and models. */
  lemma RollupMetaDescribes(c: Config, m: Manifest, raw: seq<UsageEvent>, hour: int, bucket: nat, id: SegmentId,
                            rs: seq<RollupRecord>, x: string)
    requires RollsUp(c, m, raw, hour, bucket, rs)
    ensures var meta, es := RollupMetaOf(c.json, id, rs, bucket, hour), SlotEvents(c, m, raw, hour, bucket);
            && meta.segmentId == id && meta.bucket == bucket && meta.rowCount == |rs|
            && meta.minTimestampMs == hour && meta.maxTimestampMs == hour + 3_599_999
            && (x in meta.productIds <==> exists e :: e in es && e.productId == x)
            && (x in meta.meterIds <==> exists e :: e in es && e.meterId == x)
            && (x in meta.modelIds <==> exists e :: e in es && e.modelId == Some(x))
  {
    hide RollsUp, SatTotal, MinAccount, MaxAccount, MinTs, MaxTs, Products, Meters, Models, RecordsToEvents, SlotEvents;
    var rows, es := RecordsToEvents(c.json, rs), SlotEvents(c, m, raw, hour, bucket);
    RowCount(c.json, rs);
    IdSetsAre(rows, x);
    forall row | row in rows ensures exists e :: e in es && Alike(row, e) {
      RowHasEvent(c, m, raw, hour, bucket, rs, row);
    }
    forall e | e in es ensures exists row :: row in rows && Alike(row, e) {
      EventHasRow(c, m, raw, hour, bucket, rs, e);
    }
  }

  lemma RowLikeEvent(j: Json, r: RollupRecord, e: UsageEvent)
    requires KeyFor(j, e) == r.key
    ensures Alike(RecordToEvent(j, r), e)
  {
  }

  lemma {:induction false} KeysCover(j: Json, rs: seq<RollupRecord>, m: multiset<UsageEvent>)
    requires DistinctKeys(rs) && forall r :: r in rs ==> Summarizes(j, r, m)
    ensures Sum(multiset(RecordsToEvents(j, rs)), Quantity()) == Sum(m, KeyedQuantity(j, RecordKeys(rs)))
    decreases |rs|
  {
    hide KeyFor, Sum, Summarizes, RecordToEvent;
    if rs == [] {
      SumZero(multiset(RecordsToEvents(j, rs)), Quantity());
      SumZero(m, KeyedQuantity(j, RecordKeys(rs)));
    } else {
      var front, last := rs[..|rs| - 1], rs[|rs| - 1];
      assert last in rs && forall r :: r in front ==> r in rs;
      KeysCover(j, front, m);
      SumSnoc(RecordsToEvents(j, front), Quantity(), RecordToEvent(j, last));
      RowQuantity(j, last, m);
      RecordKeysSnoc(rs);
      SumAdd(m, KeyedQuantity(j, RecordKeys(front)), OfKey(j, last.key), KeyedQuantity(j, RecordKeys(rs)));
    }
  }

  lemma RowQuantity(j: Json, r: RollupRecord, m: multiset<UsageEvent>)
    requires Summarizes(j, r, m)
    ensures RecordToEvent(j, r).quantity == Sum(m, OfKey(j, r.key))
  {
  }

  function KeyedQuantity(j: Json, keys: set<RollupKey>): UsageEvent -> int
  {
    (e: UsageEvent) => if KeyFor(j, e) in keys then e.quantity else 0
  }

  lemma RowsOfSlotFit(j: Json, rs: seq<RollupRecord>, m: multiset<UsageEvent>)
    requires DistinctKeys(rs) && (forall r :: r in rs ==> Summarizes(j, r, m)) && Fits(m)
    ensures Fits(multiset(RecordsToEvents(j, rs)))
  {
    hide Sum, Summarizes, RecordsToEvents, KeyFor;
    RowsFit(j, rs, m);
    SumAtMost(m, AbsCovered(j, RecordKeys(rs)), AbsQuantity());
  }

  /** Its recorded sum is that of the raw events, while they fit. */
  lemma RollupMetaSums(c: Config, m: Manifest, raw: seq<UsageEvent>, hour: int, bucket: nat, id: SegmentId,
                       rs: seq<RollupRecord>)
    requires RollsUp(c, m, raw, hour, bucket, rs) && Fits(multiset(SlotEvents(c, m, raw, hour, bucket)))
    ensures RollupMetaOf(c.json, id, rs, bucket, hour).quantitySum
         == Sum(multiset(SlotEvents(c, m, raw, hour, bucket)), Quantity())
  {
    hide Aggregated, KeyFor, BucketFor, Filter, Sum, RecordsToEvents, Summarizes, SatTotal, Fits;
    var es := SlotEvents(c, m, raw, hour, bucket);
    AggregatedExact(c.json, es);
    assert Fits(multiset(RecordsToEvents(c.json, rs))) by { RowsOfSlotFit(c.json, rs, multiset(es)); }
    SegmentSumExact(RecordsToEvents(c.json, rs));
    KeysCover(c.json, rs, multiset(es));
    forall e | e in multiset(es) ensures KeyedQuantity(c.json, RecordKeys(rs))(e) == Quantity()(e) {
      assert HasKey(c.json, KeyFor(c.json, e), multiset(es));
    }
    SumEqual(multiset(es), KeyedQuantity(c.json, RecordKeys(rs)), Quantity());
  }

  /** A row shows its record as one usage event at the start of the hour, stamped with the last event's time. */
  lemma RowShows(j: Json, r: RollupRecord)
    ensures var row := RecordToEvent(j, r);
            && row.kind == Usage && row.correctionRef == None && row.eventId == "rollup_" + Decimal(row.timestampMs)
            && row.timestampMs == r.key.hourStartMs && row.quantity == r.quantitySum
            && row.ingestedAtMs == r.lastEventMs
  {
  }
}
