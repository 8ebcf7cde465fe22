/** Hourly rollup records, the builder that aggregates events into them, and reading them back. */
module Rollup {
  import opened Model
  import opened Sums
  import opened Query

  datatype RollupKey = RollupKey(
    accountId: string,
    subscriptionId: Option<string>,
    productId: string,
    meterId: string,
    modelId: Option<string>,
    source: string,
    unit: string,
    hourStartMs: int,
    dimensionsCanonical: string)

  datatype RollupRecord = RollupRecord(
    key: RollupKey,
    quantitySum: int,
    eventCount: nat,
    firstEventMs: int,
    lastEventMs: int)

  function KeyFor(j: Json, e: UsageEvent): RollupKey
  {
    RollupKey(e.accountId, e.subscriptionId, e.productId, e.meterId, e.modelId, e.source, e.unit,
              HourOf(e.timestampMs), j.encode(e.dimensions))
  }

  type Aggregates = map<RollupKey, RollupRecord>

  function Process(j: Json, agg: Aggregates, e: UsageEvent): Aggregates
  {
    var key := KeyFor(j, e);
    var r := if key in agg then agg[key] else RollupRecord(key, 0, 0, e.timestampMs, e.timestampMs);
    agg[key := RollupRecord(
      key,
      SatAdd128(r.quantitySum, e.quantity),
      r.eventCount + 1,
      Min(r.firstEventMs, e.timestampMs),
      Max(r.lastEventMs, e.timestampMs))]
  }

  function OfKey(j: Json, k: RollupKey): UsageEvent -> int
  {
    (e: UsageEvent) => if KeyFor(j, e) == k then e.quantity else 0
  }

  function CountOfKey(j: Json, k: RollupKey): UsageEvent -> int
  {
    (e: UsageEvent) => if KeyFor(j, e) == k then 1 else 0
  }

  ghost predicate HasKey(j: Json, k: RollupKey, m: multiset<UsageEvent>)
  {
    exists e :: e in m && KeyFor(j, e) == k
  }

  /** `first` and `last` are the extreme times of the events of key `k`. */
  ghost predicate Spans(j: Json, k: RollupKey, m: multiset<UsageEvent>, first: int, last: int)
  {
    && (forall e :: e in m && KeyFor(j, e) == k ==> first <= e.timestampMs <= last)
    && (exists e :: e in m && KeyFor(j, e) == k && e.timestampMs == first)
    && (exists e :: e in m && KeyFor(j, e) == k && e.timestampMs == last)
  }

  /** `r` reports exactly the sum, the number and the time span of the events of its key in `m`. */
  ghost predicate Summarizes(j: Json, r: RollupRecord, m: multiset<UsageEvent>)
  {
    && r.quantitySum == Sum(m, OfKey(j, r.key))
    && r.eventCount == Sum(m, CountOfKey(j, r.key))
    && Spans(j, r.key, m, r.firstEventMs, r.lastEventMs)
  }

  /** The builder holds one exact record for every key that occurs in `m`, and no other. */
  ghost predicate BuilderExact(j: Json, agg: Aggregates, m: multiset<UsageEvent>)
  {
    && (forall k :: k in agg <==> HasKey(j, k, m))
    && (forall k :: k in agg ==> agg[k].key == k && Summarizes(j, agg[k], m))
  }

  lemma OtherKeyUnchanged(j: Json, r: RollupRecord, m: multiset<UsageEvent>, e: UsageEvent)
    requires Summarizes(j, r, m) && KeyFor(j, e) != r.key
    ensures Summarizes(j, r, m + multiset{e})
  {
    hide KeyFor, Sum;
    SumInsert(m, OfKey(j, r.key), e);
    SumInsert(m, CountOfKey(j, r.key), e);
    var n := m + multiset{e};
    var a :| a in m && KeyFor(j, a) == r.key && a.timestampMs == r.firstEventMs;
    var b :| b in m && KeyFor(j, b) == r.key && b.timestampMs == r.lastEventMs;
    assert a in n && b in n;
    assert forall x :: x in n ==> x in m || x == e;
  }

  lemma NewKey(j: Json, m: multiset<UsageEvent>, e: UsageEvent)
    requires !HasKey(j, KeyFor(j, e), m) && Abs(e.quantity) <= I128_MAX
    ensures Summarizes(j, Process(j, map[], e)[KeyFor(j, e)], m + multiset{e})
  {
    hide KeyFor, Sum;
    var k, n := KeyFor(j, e), m + multiset{e};
    SumInsert(m, OfKey(j, k), e);
    SumInsert(m, CountOfKey(j, k), e);
    SumZero(m, OfKey(j, k));
    SumZero(m, CountOfKey(j, k));
    assert e in n;
    assert forall x :: x in n ==> x in m || x == e;
  }

  lemma SameKeyUpdated(j: Json, agg: Aggregates, m: multiset<UsageEvent>, e: UsageEvent)
    requires KeyFor(j, e) in agg && agg[KeyFor(j, e)].key == KeyFor(j, e)
    requires Summarizes(j, agg[KeyFor(j, e)], m) && Fits(m + multiset{e})
    ensures Summarizes(j, Process(j, agg, e)[KeyFor(j, e)], m + multiset{e})
  {
    hide KeyFor, Sum;
    var k, n := KeyFor(j, e), m + multiset{e};
    SumInsert(m, OfKey(j, k), e);
    SumInsert(m, CountOfKey(j, k), e);
    SumWithinAbs(n, OfKey(j, k));
    var r := agg[k];
    var a :| a in m && KeyFor(j, a) == k && a.timestampMs == r.firstEventMs;
    var b :| b in m && KeyFor(j, b) == k && b.timestampMs == r.lastEventMs;
    assert a in n && b in n && e in n;
    assert forall x :: x in n ==> x in m || x == e;
  }

  /** Processing one more event keeps every record exact. */
  lemma ProcessExact(j: Json, agg: Aggregates, m: multiset<UsageEvent>, e: UsageEvent)
    requires BuilderExact(j, agg, m) && Fits(m + multiset{e})
    ensures BuilderExact(j, Process(j, agg, e), m + multiset{e})
  {
    hide KeyFor, Sum, Summarizes, HasKey, Fits;
    var key, n, out := KeyFor(j, e), m + multiset{e}, Process(j, agg, e);
    forall k ensures k in out <==> HasKey(j, k, n) {
      HasKeyInsert(j, k, m, e);
    }
    forall k | k in out ensures out[k].key == k && Summarizes(j, out[k], n) {
      if k != key {
        OtherKeyUnchanged(j, agg[k], m, e);
      } else if key in agg {
        SameKeyUpdated(j, agg, m, e);
      } else {
        OneFits(m, e);
        NewKey(j, m, e);
      }
    }
  }

  lemma OneFits(m: multiset<UsageEvent>, e: UsageEvent)
    requires Fits(m + multiset{e})
    ensures Abs(e.quantity) <= I128_MAX
  {
    assert e in m + multiset{e};
    SumCovers(m + multiset{e}, AbsQuantity(), e);
  }

  lemma HasKeyInsert(j: Json, k: RollupKey, m: multiset<UsageEvent>, e: UsageEvent)
    ensures HasKey(j, k, m + multiset{e}) <==> HasKey(j, k, m) || KeyFor(j, e) == k
  {
    hide KeyFor;
    var n := m + multiset{e};
    assert e in n;
    assert forall x :: x in n <==> x in m || x == e;
  }

  /** The builder's entries after processing `es` in order. */
  function Aggregated(j: Json, es: seq<UsageEvent>): Aggregates
  {
    if es == [] then map[] else Process(j, Aggregated(j, es[..|es| - 1]), es[|es| - 1])
  }

  /** Saturation or not, there is one entry per key that occurs, under its own key. */
  lemma {:induction false} AggregatedKeys(j: Json, es: seq<UsageEvent>, k: RollupKey)
    ensures k in Aggregated(j, es) <==> HasKey(j, k, multiset(es))
    ensures k in Aggregated(j, es) ==> Aggregated(j, es)[k].key == k
    decreases |es|
  {
    hide KeyFor, HasKey, SatAdd128;
    if es == [] {
      assert !HasKey(j, k, multiset(es)) by { NoKeys(j, k); }
    } else {
      var front, e := es[..|es| - 1], es[|es| - 1];
      assert es == front + [e];
      assert multiset(es) == multiset(front) + multiset{e};
      AggregatedKeys(j, front, k);
      HasKeyInsert(j, k, multiset(front), e);
    }
  }

  lemma NoKeys(j: Json, k: RollupKey)
    ensures !HasKey(j, k, multiset([]))
  {
  }

  /** While the sums fit, every entry is exact. */
  lemma {:induction false} AggregatedExact(j: Json, es: seq<UsageEvent>)
    requires Fits(multiset(es))
    ensures BuilderExact(j, Aggregated(j, es), multiset(es))
    decreases |es|
  {
    hide Process, BuilderExact, Sum;
    if es == [] {
      assert BuilderExact(j, map[], multiset(es)) by { EmptyExact(j); }
    } else {
      var front, e := es[..|es| - 1], es[|es| - 1];
      assert es == front + [e];
      assert multiset(es) == multiset(front) + multiset{e};
      SumSnoc(front, AbsQuantity(), e);
      AggregatedExact(j, front);
      ProcessExact(j, Aggregated(j, front), multiset(front), e);
    }
  }

  lemma EmptyExact(j: Json)
    ensures BuilderExact(j, map[], multiset([]))
  {
  }

  class RollupBuilder {
    var aggregates: Aggregates
    const json: Json

    constructor (json: Json)
      ensures this.json == json && aggregates == Aggregated(json, [])
    {
      this.json := json;
      aggregates := map[];
    }

    /** Update the entry of the event's key in place, creating it if it is missing; `seen` are the
        events processed before. */
    method ProcessEvent(event: UsageEvent, ghost seen: seq<UsageEvent>)
      requires aggregates == Aggregated(json, seen)
      modifies this
      ensures aggregates == Aggregated(json, seen + [event])
      ensures Fits(multiset(seen + [event])) ==> BuilderExact(json, aggregates, multiset(seen + [event]))
    {
      hide BuilderExact, Fits, KeyFor;
      assert (seen + [event])[..|seen|] == seen;
      if Fits(multiset(seen + [event])) { AggregatedExact(json, seen + [event]); }
      var key := KeyFor(json, event);
      var entry := if key in aggregates then aggregates[key]
                   else RollupRecord(key, 0, 0, event.timestampMs, event.timestampMs);
      entry := entry.(key := key, quantitySum := SatAdd128(entry.quantitySum, event.quantity),
                      eventCount := entry.eventCount + 1);
      if event.timestampMs < entry.firstEventMs {
        entry := entry.(firstEventMs := event.timestampMs);
      }
      if event.timestampMs > entry.lastEventMs {
        entry := entry.(lastEventMs := event.timestampMs);
      }
      aggregates := aggregates[key := entry];
    }

    /** The entries as a list, in some order. */
    method Finalize(ghost seen: seq<UsageEvent>) returns (records: seq<RollupRecord>)
      requires aggregates == Aggregated(json, seen)
      ensures DistinctKeys(records) && RecordKeys(records) == aggregates.Keys
      ensures forall r :: r in records ==> r.key in aggregates && aggregates[r.key] == r
    {
      hide DistinctKeys, RecordKeys, Aggregated, HasKey;
      forall k | k in aggregates ensures aggregates[k].key == k { AggregatedKeys(json, seen, k); }
      records := [];
      NoRecords();
      var rest := aggregates.Keys;
      while rest != {}
        invariant rest <= aggregates.Keys
        invariant DistinctKeys(records) && RecordKeys(records) == aggregates.Keys - rest
        invariant forall r :: r in records ==> r.key in aggregates && aggregates[r.key] == r
        decreases |rest|
      {
        var k :| k in rest;
        RecordsSnoc(records, aggregates[k]);
        rest := rest - {k};
        records := records + [aggregates[k]];
      }
    }
  }

  lemma NoRecords()
    ensures DistinctKeys([]) && RecordKeys([]) == {}
  {
  }

  lemma RecordsSnoc(records: seq<RollupRecord>, r: RollupRecord)
    requires DistinctKeys(records) && r.key !in RecordKeys(records)
    ensures DistinctKeys(records + [r]) && RecordKeys(records + [r]) == RecordKeys(records) + {r.key}
  {
    var all := records + [r];
    forall i | 0 <= i < |records| ensures records[i].key != r.key {
      assert records[i].key in RecordKeys(records);
    }
    assert DistinctKeys(all);
    RecordKeysSnoc(all);
    assert all[..|records|] == records;
  }

  // Reading rollups as events.

  /** The synthetic event a rollup row is turned into. */
  function RecordToEvent(j: Json, r: RollupRecord): UsageEvent
  {
    var k := r.key;
    UsageEvent(
      "rollup_" + Decimal(k.hourStartMs), Usage, None, k.accountId, k.subscriptionId, k.productId, k.meterId,
      k.hourStartMs, r.quantitySum, k.unit, k.source, k.modelId,
      if j.decode(k.dimensionsCanonical).Some? then j.decode(k.dimensionsCanonical).value else map[],
      r.lastEventMs)
  }

  function RecordsToEvents(j: Json, rs: seq<RollupRecord>): seq<UsageEvent>
  {
    if rs == [] then [] else RecordsToEvents(j, rs[..|rs| - 1]) + [RecordToEvent(j, rs[|rs| - 1])]
  }

  /** A row of `k` stands for every event of `k`: they answer every filter and grouping alike,
      except on `kind` and on the exact time. */
  lemma RowStandsForEvent(j: Json, r: RollupRecord, e: UsageEvent, field: string)
    requires JsonRoundTrips(j) && KeyFor(j, e) == r.key && 0 < e.timestampMs && field != "kind"
    ensures FieldText(RecordToEvent(j, r), field) == FieldText(e, field)
    ensures GroupValue(field, RecordToEvent(j, r)) == GroupValue(field, e)
  {
    HourDeterminesDay(e.timestampMs);
    assert j.decode(j.encode(e.dimensions)) == Some(e.dimensions);
  }

  predicate AvoidsKind(plan: QueryPlan)
  {
    "kind" !in plan.groupBy && forall f :: f in plan.filters ==> f.field != "kind"
  }

  /** Without the time window, a row matches exactly when its events do, and falls in their group. */
  lemma RowMatchesLikeEvent(j: Json, r: RollupRecord, e: UsageEvent, plan: QueryPlan)
    requires JsonRoundTrips(j) && KeyFor(j, e) == r.key && 0 < e.timestampMs && AvoidsKind(plan)
    requires plan.fromMs <= r.key.hourStartMs < plan.toMs <==> plan.fromMs <= e.timestampMs < plan.toMs
    ensures Matches(plan, RecordToEvent(j, r)) == Matches(plan, e)
    ensures GroupKey(plan.groupBy, RecordToEvent(j, r)) == GroupKey(plan.groupBy, e)
  {
    hide FieldText, GroupValue;
    var row := RecordToEvent(j, r);
    forall f | f in plan.filters ensures MatchesFilter(f, row) == MatchesFilter(f, e) {
      RowStandsForEvent(j, r, e, f.field);
    }
    forall i | 0 <= i < |plan.groupBy| ensures GroupValue(plan.groupBy[i], row) == GroupValue(plan.groupBy[i], e) {
      assert plan.groupBy[i] in plan.groupBy;
      RowStandsForEvent(j, r, e, plan.groupBy[i]);
    }
  }

  // Exchanging sums of records for sums of events.

  ghost function RecordKeys(rs: seq<RollupRecord>): set<RollupKey>
  {
    set i | 0 <= i < |rs| :: rs[i].key
  }

  ghost predicate DistinctKeys(rs: seq<RollupRecord>)
  {
    forall i, j :: 0 <= i < j < |rs| ==> rs[i].key != rs[j].key
  }

  /** The matching rows of a group, weighed by quantity. */
  function RowWeight(plan: QueryPlan, group: seq<string>): UsageEvent -> int
  {
    (e: UsageEvent) => if Matches(plan, e) && GroupKey(plan.groupBy, e) == group then e.quantity else 0
  }

  /** The same weight restricted to events whose key is in `keys`. */
  function CoveredWeight(j: Json, keys: set<RollupKey>, plan: QueryPlan, group: seq<string>): UsageEvent -> int
  {
    (e: UsageEvent) => if KeyFor(j, e) in keys then RowWeight(plan, group)(e) else 0
  }

  /** All events of a record's key weigh in, or none does. */
  ghost predicate RowsAgree(j: Json, r: RollupRecord, m: multiset<UsageEvent>, plan: QueryPlan)
  {
    forall e :: e in m && KeyFor(j, e) == r.key ==>
      && Matches(plan, RecordToEvent(j, r)) == Matches(plan, e)
      && GroupKey(plan.groupBy, RecordToEvent(j, r)) == GroupKey(plan.groupBy, e)
  }

  lemma OneRowWeight(j: Json, r: RollupRecord, m: multiset<UsageEvent>, plan: QueryPlan, group: seq<string>)
    requires Summarizes(j, r, m) && RowsAgree(j, r, m, plan)
    ensures RowWeight(plan, group)(RecordToEvent(j, r)) == Sum(m, CoveredWeight(j, {r.key}, plan, group))
  {
    hide KeyFor, Sum, Matches, GroupKey;
    var row := RecordToEvent(j, r);
    forall e | e in m
      ensures CoveredWeight(j, {r.key}, plan, group)(e)
           == if Matches(plan, row) && GroupKey(plan.groupBy, row) == group then OfKey(j, r.key)(e) else 0
    {
      if KeyFor(j, e) == r.key {
        assert Matches(plan, row) == Matches(plan, e);
        assert RowWeight(plan, group)(e)
            == if Matches(plan, e) && GroupKey(plan.groupBy, e) == group then e.quantity else 0;
      }
    }
    if Matches(plan, row) && GroupKey(plan.groupBy, row) == group {
      SumEqual(m, OfKey(j, r.key), CoveredWeight(j, {r.key}, plan, group));
    } else {
      SumZero(m, CoveredWeight(j, {r.key}, plan, group));
    }
  }

  /** Records of distinct keys weigh as much as the events they stand for. */
  lemma {:induction false} RowsWeighLikeEvents(
    j: Json, rs: seq<RollupRecord>, m: multiset<UsageEvent>, plan: QueryPlan, group: seq<string>)
    requires DistinctKeys(rs)
    requires forall r :: r in rs ==> Summarizes(j, r, m) && RowsAgree(j, r, m, plan)
    ensures Sum(multiset(RecordsToEvents(j, rs)), RowWeight(plan, group))
         == Sum(m, CoveredWeight(j, RecordKeys(rs), plan, group))
    decreases |rs|
  {
    hide KeyFor, Sum, RowWeight, Summarizes, RowsAgree, RecordToEvent;
    if rs == [] {
      SumZero(multiset(RecordsToEvents(j, rs)), RowWeight(plan, group));
      SumZero(m, CoveredWeight(j, RecordKeys(rs), plan, group));
    } else {
      var front, last := rs[..|rs| - 1], rs[|rs| - 1];
      assert last in rs && forall r :: r in front ==> r in rs;
      RowsWeighLikeEvents(j, front, m, plan, group);
      SumSnoc(RecordsToEvents(j, front), RowWeight(plan, group), RecordToEvent(j, last));
      OneRowWeight(j, last, m, plan, group);
      RecordKeysSnoc(rs);
      SumAdd(m, CoveredWeight(j, RecordKeys(front), plan, group), CoveredWeight(j, {last.key}, plan, group),
             CoveredWeight(j, RecordKeys(rs), plan, group));
    }
  }

  lemma RecordKeysSnoc(rs: seq<RollupRecord>)
    requires rs != [] && DistinctKeys(rs)
    ensures RecordKeys(rs) == RecordKeys(rs[..|rs| - 1]) + {rs[|rs| - 1].key}
    ensures rs[|rs| - 1].key !in RecordKeys(rs[..|rs| - 1])
  {
    var n := |rs| - 1;
    forall k | k in RecordKeys(rs) ensures k in RecordKeys(rs[..n]) + {rs[n].key} {
      var i :| 0 <= i < |rs| && rs[i].key == k;
      assert i < n ==> rs[..n][i].key == k;
    }
    forall k | k in RecordKeys(rs[..n]) ensures k in RecordKeys(rs) && k != rs[n].key {
      var i :| 0 <= i < n && rs[..n][i].key == k;
      assert rs[i].key == k;
    }
  }
}
