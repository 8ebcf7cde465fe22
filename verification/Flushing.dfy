/** The flusher's work on one message: partition by bucket, then write one sorted segment per bucket. */
module Flushing {
  import opened Model
  import opened Sums
  import opened Wals
  import opened Manifests
  import opened Sorting
  import opened Segments
  import opened Query
  import opened Engine

  /** `byBucket` holds, per bucket that occurs, its events in arrival order. */
  ghost predicate Partitions(h: Hashing, buckets: nat, events: seq<UsageEvent>, byBucket: map<nat, seq<UsageEvent>>)
  {
    forall b :: (if b in byBucket then byBucket[b] else []) == Filter(events, InBucket(h, buckets, b))
  }

  ghost predicate NoEmptyBucket(byBucket: map<nat, seq<UsageEvent>>)
  {
    forall b :: b in byBucket ==> byBucket[b] != []
  }

  method PartitionByBucket(h: Hashing, buckets: nat, events: seq<UsageEvent>)
      returns (byBucket: map<nat, seq<UsageEvent>>)
    ensures Partitions(h, buckets, events, byBucket) && NoEmptyBucket(byBucket)
  {
    byBucket := map[];
    for i := 0 to |events|
      invariant Partitions(h, buckets, events[..i], byBucket) && NoEmptyBucket(byBucket)
    {
      hide Filter;
      var e := events[i];
      var bucket := BucketFor(h, e.accountId, buckets);
      assert events[..i + 1] == events[..i] + [e];
      forall b
        ensures Filter(events[..i + 1], InBucket(h, buckets, b))
             == Filter(events[..i], InBucket(h, buckets, b)) + if b == bucket then [e] else []
      {
        FilterSnoc(events[..i], InBucket(h, buckets, b), e);
      }
      byBucket := byBucket[bucket := (if bucket in byBucket then byBucket[bucket] else []) + [e]];
    }
    assert events[..|events|] == events;
  }

  /** The keys of an ordered map, in order. */
  method SortedKeys(keys: set<nat>) returns (ids: seq<nat>)
    ensures Ascending(ids) && forall k :: k in ids <==> k in keys
  {
    ids := [];
    var rest := keys;
    while rest != {}
      invariant rest <= keys && Ascending(ids)
      invariant forall k :: k in ids <==> k in keys && k !in rest
      decreases |rest|
    {
      var k :| k in rest;
      rest := rest - {k};
      ids := InsertId(ids, k);
    }
  }

  /** The segments of the first buckets are written and described. */
  ghost predicate WrittenPieces(
    h: Hashing, buckets: nat, events: seq<UsageEvent>, done: seq<nat>, metas: seq<SegmentMeta>,
    segs: SegmentFiles, lo: SegmentId, hi: SegmentId)
  {
    && |metas| == |done| && FreshListing(metas, lo, hi)
    && (forall i :: 0 <= i < |metas| ==> metas[i].bucket == done[i])
    && (forall m :: m in metas ==> PieceOf(h, buckets, events, m, segs))
  }

  lemma SomeStaySome(es: seq<UsageEvent>)
    requires es != []
    ensures SortCanonical(es) != []
  {
    hide SortCanonical;
    SortIsPermutation(es);
    assert es[0] in multiset(SortCanonical(es));
  }

  lemma WriteOne(
    h: Hashing, buckets: nat, events: seq<UsageEvent>, done: seq<nat>, metas: seq<SegmentMeta>,
    segs: SegmentFiles, lo: SegmentId, hi: SegmentId, bucket: nat)
    requires WrittenPieces(h, buckets, events, done, metas, segs, lo, hi) && lo <= hi && hi !in segs
    requires Filter(events, InBucket(h, buckets, bucket)) != []
    ensures var sorted := SortCanonical(Filter(events, InBucket(h, buckets, bucket)));
            WrittenPieces(h, buckets, events, done + [bucket], metas + [MetaOf(hi, sorted, bucket)],
                          segs[hi := sorted], lo, hi + 1)
  {
    hide SortCanonical, Filter;
    var sorted := SortCanonical(Filter(events, InBucket(h, buckets, bucket)));
    assert sorted != [] by { SomeStaySome(Filter(events, InBucket(h, buckets, bucket))); }
    var meta := MetaOf(hi, sorted, bucket);
    assert meta.segmentId == hi && meta.bucket == bucket;
    hide MetaOf;
    var all, segs' := metas + [meta], segs[hi := sorted];
    forall m | m in all ensures PieceOf(h, buckets, events, m, segs') && lo <= m.segmentId < hi + 1 {
      if m in metas {
        assert PieceOf(h, buckets, events, m, segs);
      }
    }
    forall i, j | 0 <= i < j < |all| ensures all[i].segmentId != all[j].segmentId {
      assert all[i] == metas[i] && metas[i] in metas;
    }
  }

  /** No file has an id that is still unused. */
  ghost predicate UnusedAbove<T>(files: map<SegmentId, T>, hi: SegmentId)
  {
    forall id :: id in files ==> id < hi
  }

  /** The buckets that occur, in order. */
  ghost predicate BucketList(h: Hashing, buckets: nat, events: seq<UsageEvent>, keys: seq<nat>)
  {
    Ascending(keys) && forall b :: b in keys <==> Filter(events, InBucket(h, buckets, b)) != []
  }

  /** The events of the given buckets, bucket by bucket. */
  function Collected(h: Hashing, buckets: nat, events: seq<UsageEvent>, keys: seq<nat>): seq<UsageEvent>
  {
    if keys == [] then []
    else
      var n := |keys| - 1;
      Collected(h, buckets, events, keys[..n]) + Filter(events, InBucket(h, buckets, keys[n]))
  }

  /** `segs'` is `segs` and the files that `metas` describe. */
  ghost predicate HoldsWritten(segs: SegmentFiles, segs': SegmentFiles, metas: seq<SegmentMeta>)
  {
    && (forall id :: id in segs ==> id in segs' && segs'[id] == segs[id])
    && (forall id :: id in segs' ==> id in segs || exists m :: m in metas && m.segmentId == id)
  }

  /** Remove the segments already written. */
  method RollbackPartial(ghost segs: SegmentFiles, segs': SegmentFiles, metas: seq<SegmentMeta>, ghost lo: SegmentId)
    returns (left: SegmentFiles)
    requires HoldsWritten(segs, segs', metas) && UnusedAbove(segs, lo) && forall m :: m in metas ==> lo <= m.segmentId
    ensures left == segs
  {
    left := segs';
    for i := 0 to |metas|
      invariant HoldsWritten(segs, left, metas[i..])
    {
      assert metas[i] in metas;
      left := left - {metas[i].segmentId};
      assert metas[i..] == [metas[i]] + metas[i + 1..];
    }
    assert metas[|metas|..] == [];
  }

  /** Join the partition again, for the given buckets. */
  method Regroup(h: Hashing, buckets: nat, events: seq<UsageEvent>, byBucket: map<nat, seq<UsageEvent>>, keys: seq<nat>)
    returns (remaining: seq<UsageEvent>)
    requires Partitions(h, buckets, events, byBucket) && forall b :: b in keys ==> b in byBucket
    ensures remaining == Collected(h, buckets, events, keys)
  {
    hide Filter;
    remaining := [];
    for i := 0 to |keys|
      invariant remaining == Collected(h, buckets, events, keys[..i])
    {
      assert keys[..i + 1][..i] == keys[..i];
      assert keys[i] in keys;
      remaining := remaining + byBucket[keys[i]];
    }
    assert keys[..|keys|] == keys;
  }

  lemma HoldsOneMore(segs: SegmentFiles, segs': SegmentFiles, metas: seq<SegmentMeta>, m: SegmentMeta,
                     file: seq<UsageEvent>)
    requires HoldsWritten(segs, segs', metas) && m.segmentId !in segs'
    ensures HoldsWritten(segs, segs'[m.segmentId := file], metas + [m])
  {
    var all := segs'[m.segmentId := file];
    forall id | id in all ensures id in segs || exists x :: x in metas + [m] && x.segmentId == id {
      if id == m.segmentId {
        assert m in metas + [m];
      } else if id !in segs {
        var x :| x in metas && x.segmentId == id;
        assert x in metas + [m];
      }
    }
  }

  lemma NothingWritten(h: Hashing, buckets: nat, events: seq<UsageEvent>, segs: SegmentFiles, lo: SegmentId)
    ensures Grows(segs, segs, lo, lo) && HoldsWritten(segs, segs, [])
            && WrittenPieces(h, buckets, events, [], [], segs, lo, lo)
  {
  }

  lemma PiecesAreNew(
    h: Hashing, buckets: nat, events: seq<UsageEvent>, done: seq<nat>, metas: seq<SegmentMeta>,
    segs: SegmentFiles, lo: SegmentId, hi: SegmentId)
    requires WrittenPieces(h, buckets, events, done, metas, segs, lo, hi)
    ensures FreshListing(metas, lo, hi) && forall m :: m in metas ==> lo <= m.segmentId
  {
  }

  /** Write one more segment. */
  method WriteBucket(
    h: Hashing, buckets: nat, ghost events: seq<UsageEvent>, rows: seq<UsageEvent>, ghost done: seq<nat>, bucket: nat,
    metas: seq<SegmentMeta>, ghost segs: SegmentFiles, segs': SegmentFiles, ghost lo: SegmentId, hi: SegmentId)
    returns (all: seq<SegmentMeta>, files: SegmentFiles, next: SegmentId)
    requires rows == Filter(events, InBucket(h, buckets, bucket)) != [] && lo <= hi && UnusedAbove(segs', hi)
    requires Grows(segs, segs', lo, hi) && HoldsWritten(segs, segs', metas)
    requires WrittenPieces(h, buckets, events, done, metas, segs', lo, hi)
    ensures lo <= next && UnusedAbove(files, next) && Grows(segs, files, lo, next) && HoldsWritten(segs, files, all)
    ensures WrittenPieces(h, buckets, events, done + [bucket], all, files, lo, next)
  {
    hide Filter, SortCanonical, WrittenPieces, HoldsWritten;
    WriteOne(h, buckets, events, done, metas, segs', lo, hi, bucket);
    var sorted := SortCanonical(rows);
    var meta := BuildSegmentMeta(hi, sorted, bucket);
    HoldsOneMore(segs, segs', metas, meta, sorted);
    all, files, next := metas + [meta], segs'[hi := sorted], hi + 1;
  }

  /** Write one segment per bucket, in bucket order.  If the write of bucket number `failsAt` fails, the
      segments written before are removed, and the events from that bucket on are handed back. */
  method WriteBuckets(h: Hashing, buckets: nat, events: seq<UsageEvent>, segs: SegmentFiles, nextId: SegmentId,
                      failsAt: Option<nat>)
    returns (ok: bool, metas: seq<SegmentMeta>, segs': SegmentFiles, nextId': SegmentId, remaining: seq<UsageEvent>,
             ghost keys: seq<nat>)
    requires UnusedAbove(segs, nextId)
    ensures nextId <= nextId' && UnusedAbove(segs', nextId') && BucketList(h, buckets, events, keys)
    ensures ok <==> failsAt.None? || |keys| <= failsAt.value
    ensures ok ==> Grows(segs, segs', nextId, nextId') && HoldsWritten(segs, segs', metas)
    ensures ok ==> FlushedAs(h, buckets, events, metas, segs') && FreshListing(metas, nextId, nextId')
    ensures !ok ==> segs' == segs && remaining == Collected(h, buckets, events, keys[failsAt.value..])
  {
    hide Filter, WrittenPieces, FreshListing, HoldsWritten, Grows, FlushedAs, BucketList, Collected;
    var byBucket := PartitionByBucket(h, buckets, events);
    var ids := SortedKeys(byBucket.Keys);
    OccurringBuckets(h, buckets, events, byBucket, ids);
    keys := ids;
    metas, segs', nextId', remaining := [], segs, nextId, [];
    NothingWritten(h, buckets, events, segs, nextId);
    for i := 0 to |ids|
      invariant Grows(segs, segs', nextId, nextId') && UnusedAbove(segs', nextId') && HoldsWritten(segs, segs', metas)
      invariant WrittenPieces(h, buckets, events, ids[..i], metas, segs', nextId, nextId')
      invariant nextId <= nextId' && (failsAt.Some? ==> i <= failsAt.value)
    {
      var bucket := ids[i];
      assert bucket in ids;
      if failsAt == Some(i) {
        PiecesAreNew(h, buckets, events, ids[..i], metas, segs', nextId, nextId');
        segs' := RollbackPartial(segs, segs', metas, nextId);
        remaining := Regroup(h, buckets, events, byBucket, ids[i..]);
        return false, metas, segs', nextId', remaining, ids;
      }
      assert ids[..i + 1] == ids[..i] + [bucket];
      metas, segs', nextId' := WriteBucket(h, buckets, events, byBucket[bucket], ids[..i], bucket, metas, segs, segs',
                                           nextId, nextId');
    }
    assert ids[..|ids|] == ids;
    ok := true;
    PiecesAreNew(h, buckets, events, ids, metas, segs', nextId, nextId');
    AllBucketsWritten(h, buckets, events, ids, metas, segs', nextId, nextId');
  }

  lemma OccurringBuckets(h: Hashing, buckets: nat, events: seq<UsageEvent>, byBucket: map<nat, seq<UsageEvent>>,
                         ids: seq<nat>)
    requires Partitions(h, buckets, events, byBucket) && NoEmptyBucket(byBucket)
    requires Ascending(ids) && forall k :: k in ids <==> k in byBucket.Keys
    ensures BucketList(h, buckets, events, ids)
  {
    hide Filter;
  }

  lemma AllBucketsWritten(
    h: Hashing, buckets: nat, events: seq<UsageEvent>, keys: seq<nat>, metas: seq<SegmentMeta>, segs: SegmentFiles,
    lo: SegmentId, hi: SegmentId)
    requires BucketList(h, buckets, events, keys) && WrittenPieces(h, buckets, events, keys, metas, segs, lo, hi)
    ensures FlushedAs(h, buckets, events, metas, segs)
  {
    hide Filter, PieceOf;
    forall e | e in events ensures HasBucket(metas, BucketFor(h, e.accountId, buckets)) {
      var b := BucketFor(h, e.accountId, buckets);
      FilterMember(events, InBucket(h, buckets, b), e);
      assert b in keys;
      var k :| 0 <= k < |keys| && keys[k] == b;
      assert metas[k] in metas && metas[k].bucket == b;
    }
  }
}
