/** Segment metadata, as the flusher and the compactor derive it from a segment's events. */
module Segments {
  import opened Model
  import opened Manifests
  import opened Sorting

  function MinTs(batch: seq<UsageEvent>): int
  {
    if batch == [] then I64_MAX else Min(MinTs(batch[..|batch| - 1]), batch[|batch| - 1].timestampMs)
  }

  function MaxTs(batch: seq<UsageEvent>): int
  {
    if batch == [] then I64_MIN else Max(MaxTs(batch[..|batch| - 1]), batch[|batch| - 1].timestampMs)
  }

  function LeastAccount(current: Option<string>, account: string): Option<string>
  {
    if current.None? || (StrLe(account, current.value) && account != current.value) then Some(account) else current
  }

  function GreatestAccount(current: Option<string>, account: string): Option<string>
  {
    if current.None? || (StrLe(current.value, account) && account != current.value) then Some(account) else current
  }

  function MinAccount(batch: seq<UsageEvent>): Option<string>
  {
    if batch == [] then None else LeastAccount(MinAccount(batch[..|batch| - 1]), batch[|batch| - 1].accountId)
  }

  function MaxAccount(batch: seq<UsageEvent>): Option<string>
  {
    if batch == [] then None else GreatestAccount(MaxAccount(batch[..|batch| - 1]), batch[|batch| - 1].accountId)
  }

  function SatTotal(batch: seq<UsageEvent>): int
  {
    if batch == [] then 0 else SatAdd128(SatTotal(batch[..|batch| - 1]), batch[|batch| - 1].quantity)
  }

  function Products(batch: seq<UsageEvent>): set<string>
  {
    set i | 0 <= i < |batch| :: batch[i].productId
  }

  function Meters(batch: seq<UsageEvent>): set<string>
  {
    set i | 0 <= i < |batch| :: batch[i].meterId
  }

  function Models(batch: seq<UsageEvent>): set<string>
  {
    set i | 0 <= i < |batch| && batch[i].modelId.Some? :: batch[i].modelId.value
  }

  /** The metadata of a segment.  Untouched time sentinels are stored as 0. */
  function MetaOf(id: SegmentId, batch: seq<UsageEvent>, bucket: nat): SegmentMeta
  {
    SegmentMeta(
      id,
      if MinTs(batch) == I64_MAX then 0 else MinTs(batch),
      if MaxTs(batch) == I64_MIN then 0 else MaxTs(batch),
      bucket,
      |batch|,
      MinAccount(batch),
      MaxAccount(batch),
      Products(batch),
      Meters(batch),
      Models(batch),
      SatTotal(batch))
  }

  lemma {:induction false} TimesBound(batch: seq<UsageEvent>, e: UsageEvent)
    requires e in batch
    ensures MinTs(batch) <= e.timestampMs <= MaxTs(batch)
  {
    var n := |batch| - 1;
    assert batch == batch[..n] + [batch[n]];
    if e != batch[n] {
      TimesBound(batch[..n], e);
    }
  }

  lemma {:induction false} TimesReached(batch: seq<UsageEvent>)
    requires batch != [] && forall e :: e in batch ==> IsI64(e.timestampMs)
    ensures exists e :: e in batch && e.timestampMs == MinTs(batch)
    ensures exists e :: e in batch && e.timestampMs == MaxTs(batch)
    decreases |batch|
  {
    var n := |batch| - 1;
    assert batch == batch[..n] + [batch[n]];
    assert batch[n] in batch && forall e :: e in batch[..n] ==> e in batch;
    if n == 0 {
      assert MinTs(batch[..n]) == I64_MAX && MaxTs(batch[..n]) == I64_MIN;
      assert MinTs(batch) == batch[n].timestampMs == MaxTs(batch);
    } else {
      TimesReached(batch[..n]);
    }
  }

  lemma {:induction false} AccountsReached(batch: seq<UsageEvent>)
    requires batch != []
    ensures MinAccount(batch).Some? && exists e :: e in batch && e.accountId == MinAccount(batch).value
    ensures MaxAccount(batch).Some? && exists e :: e in batch && e.accountId == MaxAccount(batch).value
    decreases |batch|
  {
    hide StrLe;
    var n := |batch| - 1;
    assert batch == batch[..n] + [batch[n]];
    if n > 0 { AccountsReached(batch[..n]); }
  }

  lemma {:induction false} AccountsBound(batch: seq<UsageEvent>, e: UsageEvent)
    requires e in batch
    ensures MinAccount(batch).Some? && StrLe(MinAccount(batch).value, e.accountId)
    ensures MaxAccount(batch).Some? && StrLe(e.accountId, MaxAccount(batch).value)
  {
    var n := |batch| - 1;
    assert batch == batch[..n] + [batch[n]];
    StrTotal(e.accountId, e.accountId);
    var lo, hi, x := MinAccount(batch[..n]), MaxAccount(batch[..n]), batch[n].accountId;
    if lo.Some? { StrTotal(lo.value, x); }
    if hi.Some? { StrTotal(hi.value, x); }
    if e != batch[n] {
      AccountsBound(batch[..n], e);
      if StrLe(x, lo.value) { StrTransitive(x, lo.value, e.accountId); }
      if StrLe(hi.value, x) { StrTransitive(e.accountId, hi.value, x); }
    }
  }

  lemma IdSetsAre(batch: seq<UsageEvent>, x: string)
    ensures x in Products(batch) <==> exists e :: e in batch && e.productId == x
    ensures x in Meters(batch) <==> exists e :: e in batch && e.meterId == x
    ensures x in Models(batch) <==> exists e :: e in batch && e.modelId == Some(x)
  {
    assert forall i :: 0 <= i < |batch| ==> batch[i] in batch;
    if e :| e in batch && e.productId == x { var i :| 0 <= i < |batch| && batch[i] == e; }
    if e :| e in batch && e.meterId == x { var i :| 0 <= i < |batch| && batch[i] == e; }
    if e :| e in batch && e.modelId == Some(x) { var i :| 0 <= i < |batch| && batch[i] == e; }
  }

  /** The metadata is no wider than the segment: times and accounts are those of events in it. */
  lemma MetaIsTight(id: SegmentId, batch: seq<UsageEvent>, bucket: nat)
    requires batch != [] && forall e :: e in batch ==> 0 < e.timestampMs < I64_MAX
    ensures var m := MetaOf(id, batch, bucket);
            && m.segmentId == id && m.bucket == bucket && m.rowCount == |batch|
            && (forall e :: e in batch ==> m.minTimestampMs <= e.timestampMs <= m.maxTimestampMs)
            && (exists e :: e in batch && e.timestampMs == m.minTimestampMs)
            && (exists e :: e in batch && e.timestampMs == m.maxTimestampMs)
            && (exists e :: e in batch && m.minAccountId == Some(e.accountId))
            && (exists e :: e in batch && m.maxAccountId == Some(e.accountId))
  {
    hide StrLe, MinTs, MaxTs, MinAccount, MaxAccount, Products, Meters, Models, SatTotal;
    TimesReached(batch);
    AccountsReached(batch);
    forall e | e in batch ensures MinTs(batch) <= e.timestampMs <= MaxTs(batch) { TimesBound(batch, e); }
  }

  /** One pass over the batch with running minima, maxima, sets and a saturating sum. */
  method BuildSegmentMeta(id: SegmentId, batch: seq<UsageEvent>, bucket: nat) returns (meta: SegmentMeta)
    ensures meta == MetaOf(id, batch, bucket)
  {
    var minTs, maxTs := I64_MAX, I64_MIN;
    var minAccount: Option<string> := None;
    var maxAccount: Option<string> := None;
    var productIds: set<string>, meterIds: set<string>, modelIds: set<string> := {}, {}, {};
    var quantitySum := 0;
    for i := 0 to |batch|
      invariant minTs == MinTs(batch[..i]) && maxTs == MaxTs(batch[..i])
      invariant minAccount == MinAccount(batch[..i]) && maxAccount == MaxAccount(batch[..i])
      invariant productIds == Products(batch[..i]) && meterIds == Meters(batch[..i]) && modelIds == Models(batch[..i])
      invariant quantitySum == SatTotal(batch[..i])
    {
      hide StrLe;
      var e := batch[i];
      assert batch[..i + 1][..i] == batch[..i];
      if e.timestampMs < minTs { minTs := e.timestampMs; }
      if e.timestampMs > maxTs { maxTs := e.timestampMs; }
      minAccount := LeastAccount(minAccount, e.accountId);
      maxAccount := GreatestAccount(maxAccount, e.accountId);
      SetsSnoc(batch[..i], e);
      assert batch[..i + 1] == batch[..i] + [e];
      productIds := productIds + {e.productId};
      meterIds := meterIds + {e.meterId};
      if e.modelId.Some? { modelIds := modelIds + {e.modelId.value}; }
      quantitySum := SatAdd128(quantitySum, e.quantity);
    }
    assert batch[..|batch|] == batch;
    meta := SegmentMeta(
      id,
      if minTs == I64_MAX then 0 else minTs,
      if maxTs == I64_MIN then 0 else maxTs,
      bucket, |batch|, minAccount, maxAccount, productIds, meterIds, modelIds, quantitySum);
  }

  lemma SetsSnoc(s: seq<UsageEvent>, e: UsageEvent)
    ensures Products(s + [e]) == Products(s) + {e.productId}
    ensures Meters(s + [e]) == Meters(s) + {e.meterId}
    ensures Models(s + [e]) == Models(s) + if e.modelId.Some? then {e.modelId.value} else {}
  {
    var t := s + [e];
    assert t[|s|] == e && forall i :: 0 <= i < |s| ==> t[i] == s[i];
    forall x | x in Products(s) ensures x in Products(t) {
      var i :| 0 <= i < |s| && s[i].productId == x;
      assert t[i].productId == x;
    }
    forall x | x in Meters(s) ensures x in Meters(t) {
      var i :| 0 <= i < |s| && s[i].meterId == x;
      assert t[i].meterId == x;
    }
    forall x | x in Models(s) ensures x in Models(t) {
      var i :| 0 <= i < |s| && s[i].modelId == Some(x);
      assert t[i].modelId == Some(x);
    }
  }
}
