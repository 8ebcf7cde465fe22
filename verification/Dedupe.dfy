/** The hot dedupe cache: a bounded, expiring map from event id hash to first payload. */
module Dedupe {
  import opened Model

  datatype DedupeEntry = DedupeEntry(payloadHash: Hash, firstSeenMs: int)

  datatype DedupeResult = NewEvent | ExactDuplicate | PayloadConflict

  /** The cache and its insertion queue of `(event id hash, inserted at)`. */
  datatype DedupeState = DedupeState(cache: map<Hash, DedupeEntry>, order: seq<(Hash, int)>)

  const EMPTY_DEDUPE := DedupeState(map[], [])

  ghost function Hashes(order: seq<(Hash, int)>): set<Hash>
  {
    if order == [] then {} else {order[0].0} + Hashes(order[1..])
  }

  ghost predicate Distinct(order: seq<(Hash, int)>)
  {
    order == [] || (order[0].0 !in Hashes(order[1..]) && Distinct(order[1..]))
  }

  /** The queue lists every cached hash exactly once, with the time the cache records. */
  ghost predicate Rep(d: DedupeState)
  {
    && Distinct(d.order)
    && d.cache.Keys == Hashes(d.order)
    && (forall p :: p in d.order ==> p.0 in d.cache && d.cache[p.0].firstSeenMs == p.1)
  }

  function Classify(cache: map<Hash, DedupeEntry>, h: Hash, p: Hash): DedupeResult
  {
    if h !in cache then NewEvent
    else if cache[h].payloadHash == p then ExactDuplicate
    else PayloadConflict
  }

  /** Forget the oldest entry. */
  function Pop(d: DedupeState): DedupeState
    requires d.order != []
  {
    DedupeState(d.cache - {d.order[0].0}, d.order[1..])
  }

  function Evict(d: DedupeState, cutoff: int): DedupeState
    decreases |d.order|
  {
    if d.order == [] || d.order[0].1 >= cutoff then d else Evict(Pop(d), cutoff)
  }

  function Trim(d: DedupeState, capacity: nat): DedupeState
    decreases |d.order|
  {
    if |d.order| <= capacity then d else Trim(Pop(d), capacity)
  }

  function InsertKnown(d: DedupeState, h: Hash, p: Hash, seenMs: int): DedupeState
  {
    if h in d.cache then d
    else DedupeState(d.cache[h := DedupeEntry(p, seenMs)], d.order + [(h, seenMs)])
  }

  function Commit(d: DedupeState, h: Hash, p: Hash, now: int, capacity: nat, ttlMs: int): DedupeState
  {
    var live := Evict(d, now - ttlMs);
    if h in live.cache then live else Trim(InsertKnown(live, h, p, now), capacity)
  }

  lemma {:induction false} HashesMembers(order: seq<(Hash, int)>, h: Hash)
    ensures h in Hashes(order) <==> exists i :: 0 <= i < |order| && order[i].0 == h
  {
    if order != [] {
      HashesMembers(order[1..], h);
      if h in Hashes(order[1..]) {
        var i :| 0 <= i < |order| - 1 && order[1..][i].0 == h;
        assert order[i + 1].0 == h;
      }
      if i :| 0 <= i < |order| && order[i].0 == h && i != 0 {
        assert order[1..][i - 1].0 == h;
      }
    }
  }

  lemma {:induction false} HashesSnoc(order: seq<(Hash, int)>, p: (Hash, int))
    ensures Hashes(order + [p]) == Hashes(order) + {p.0}
    ensures Distinct(order) && p.0 !in Hashes(order) ==> Distinct(order + [p])
  {
    if order == [] {
      assert (order + [p])[1..] == [];
    } else {
      HashesSnoc(order[1..], p);
      assert (order + [p])[1..] == order[1..] + [p];
    }
  }

  lemma {:induction false} HashesSize(order: seq<(Hash, int)>)
    requires Distinct(order)
    ensures |Hashes(order)| == |order|
  {
    if order != [] {
      HashesSize(order[1..]);
    }
  }

  lemma RepSize(d: DedupeState)
    requires Rep(d)
    ensures |d.cache| == |d.order|
  {
    HashesSize(d.order);
    assert |d.cache| == |d.cache.Keys|;
  }

  lemma PopKeepsRep(d: DedupeState)
    requires Rep(d) && d.order != []
    ensures Rep(Pop(d))
    ensures d.order[0].0 in d.cache && d.cache[d.order[0].0].firstSeenMs == d.order[0].1
    ensures Pop(d).cache.Keys == d.cache.Keys - {d.order[0].0}
  {
    var r := Pop(d);
    assert d.order[0] in d.order;
    forall p | p in r.order ensures p.0 in r.cache && r.cache[p.0].firstSeenMs == p.1 {
      assert p in d.order;
      var i :| 0 <= i < |r.order| && r.order[i] == p;
      HashesMembers(r.order, p.0);
    }
  }

  /** Expiry drops expired entries only, and leaves none at the head of the queue. */
  lemma {:induction false} EvictKeepsUnexpired(d: DedupeState, cutoff: int)
    requires Rep(d)
    ensures var r := Evict(d, cutoff);
            && Rep(r)
            && r.cache.Keys <= d.cache.Keys
            && (forall h :: h in r.cache ==> r.cache[h] == d.cache[h])
            && (forall h :: h in d.cache && d.cache[h].firstSeenMs >= cutoff ==> h in r.cache)
    decreases |d.order|
  {
    if d.order != [] && d.order[0].1 < cutoff {
      PopKeepsRep(d);
      EvictKeepsUnexpired(Pop(d), cutoff);
    }
  }

  /** In the queue, every expired entry precedes every live one. */
  ghost predicate ExpiredFirst(order: seq<(Hash, int)>, cutoff: int)
  {
    forall i, j :: 0 <= i < j < |order| && order[i].1 >= cutoff ==> order[j].1 >= cutoff
  }

  /** Expiry leaves no expired entry exactly when no expired entry is queued behind a live one. */
  lemma {:induction false} EvictComplete(d: DedupeState, cutoff: int)
    requires Rep(d)
    ensures (forall h :: h in Evict(d, cutoff).cache ==> Evict(d, cutoff).cache[h].firstSeenMs >= cutoff)
       <==> ExpiredFirst(d.order, cutoff)
    decreases |d.order|
  {
    if d.order == [] {
    } else if d.order[0].1 < cutoff {
      PopKeepsRep(d);
      EvictComplete(Pop(d), cutoff);
      assert Evict(d, cutoff) == Evict(Pop(d), cutoff);
      ExpiredFirstTail(d.order, cutoff);
    } else if ExpiredFirst(d.order, cutoff) {
      forall h | h in d.cache ensures d.cache[h].firstSeenMs >= cutoff {
        HashesMembers(d.order, h);
        var i :| 0 <= i < |d.order| && d.order[i].0 == h;
        assert d.order[i] in d.order;
      }
    } else {
      var i, j :| 0 <= i < j < |d.order| && d.order[i].1 >= cutoff && d.order[j].1 < cutoff;
      assert d.order[j] in d.order;
    }
  }

  lemma ExpiredFirstTail(order: seq<(Hash, int)>, cutoff: int)
    requires order != [] && order[0].1 < cutoff
    ensures ExpiredFirst(order, cutoff) <==> ExpiredFirst(order[1..], cutoff)
  {
    if ExpiredFirst(order[1..], cutoff) {
      forall i, j | 0 <= i < j < |order| && order[i].1 >= cutoff ensures order[j].1 >= cutoff {
        assert order[1..][i - 1] == order[i] && order[1..][j - 1] == order[j];
      }
    }
  }

  lemma {:induction false} TrimKeepsNewest(d: DedupeState, capacity: nat)
    requires Rep(d) && d.order != []
    ensures var r := Trim(d, capacity);
            var h := d.order[|d.order| - 1].0;
            && Rep(r)
            && |r.cache| <= capacity
            && (h in r.cache <==> 0 < capacity)
            && (forall g :: g in r.cache ==> g in d.cache && r.cache[g] == d.cache[g])
    decreases |d.order|
  {
    RepSize(d);
    HashesMembers(d.order, d.order[|d.order| - 1].0);
    if |d.order| > capacity {
      PopKeepsRep(d);
      if |d.order| > 1 {
        HashesMembers(d.order[1..], d.order[|d.order| - 1].0);
        assert d.order[1..][|d.order| - 2] == d.order[|d.order| - 1];
        TrimKeepsNewest(Pop(d), capacity);
      }
    }
  }

  /** Trimming drops from the front of the queue only. */
  lemma {:induction false} TrimKeepsSuffix(d: DedupeState, capacity: nat)
    ensures Trim(d, capacity).order == if |d.order| <= capacity then d.order else d.order[|d.order| - capacity..]
    decreases |d.order|
  {
    if |d.order| > capacity {
      TrimKeepsSuffix(Pop(d), capacity);
      assert Pop(d).order == d.order[1..];
    }
  }

  lemma InsertKnownKeepsRep(d: DedupeState, h: Hash, p: Hash, seenMs: int)
    requires Rep(d)
    ensures Rep(InsertKnown(d, h, p, seenMs))
    ensures h in InsertKnown(d, h, p, seenMs).cache
    ensures forall g :: g in d.cache ==>
              g in InsertKnown(d, h, p, seenMs).cache && InsertKnown(d, h, p, seenMs).cache[g] == d.cache[g]
  {
    if h !in d.cache {
      HashesSnoc(d.order, (h, seenMs));
      forall q | q in d.order ensures q.0 != h {
        var i :| 0 <= i < |d.order| && d.order[i] == q;
        HashesMembers(d.order, q.0);
      }
    }
  }

  // How long an entry stays.

  /** How many entries are queued behind the one of `h`. */
  ghost function Behind(order: seq<(Hash, int)>, h: Hash): nat
  {
    if order == [] then 0 else if order[0].0 == h then |order| - 1 else Behind(order[1..], h)
  }

  lemma {:induction false} BehindSnoc(order: seq<(Hash, int)>, h: Hash, p: (Hash, int))
    requires h in Hashes(order)
    ensures Behind(order + [p], h) == Behind(order, h) + 1
    decreases |order|
  {
    assert (order + [p])[1..] == order[1..] + [p];
    if order[0].0 != h { BehindSnoc(order[1..], h, p); }
  }

  lemma {:induction false} BehindLast(order: seq<(Hash, int)>, p: (Hash, int))
    requires p.0 !in Hashes(order)
    ensures Behind(order + [p], p.0) == 0
    decreases |order|
  {
    assert order != [] ==> (order + [p])[1..] == order[1..] + [p];
    if order != [] { BehindLast(order[1..], p); }
  }

  /** The entry of `h` is unchanged, with at most `more` new entries behind it. */
  ghost predicate EntryStays(d: DedupeState, r: DedupeState, h: Hash, more: nat)
  {
    && Rep(r) && h in d.cache && h in r.cache && r.cache[h] == d.cache[h]
    && Behind(r.order, h) <= Behind(d.order, h) + more
  }

  lemma PopHolds(d: DedupeState, h: Hash)
    requires Rep(d) && h in d.cache && d.order != [] && d.order[0].0 != h
    ensures EntryStays(d, Pop(d), h, 0)
  {
    PopKeepsRep(d);
  }

  lemma {:induction false} EvictHolds(d: DedupeState, cutoff: int, h: Hash)
    requires Rep(d) && h in d.cache && cutoff <= d.cache[h].firstSeenMs
    ensures EntryStays(d, Evict(d, cutoff), h, 0)
    decreases |d.order|
  {
    hide Rep;
    if d.order != [] && d.order[0].1 < cutoff {
      assert d.order[0].0 in d.cache && d.cache[d.order[0].0].firstSeenMs == d.order[0].1 by { PopKeepsRep(d); }
      PopHolds(d, h);
      EvictHolds(Pop(d), cutoff, h);
    }
  }

  lemma {:induction false} TrimHolds(d: DedupeState, capacity: nat, h: Hash)
    requires Rep(d) && h in d.cache && Behind(d.order, h) < capacity
    ensures EntryStays(d, Trim(d, capacity), h, 0)
    decreases |d.order|
  {
    hide Rep;
    if |d.order| > capacity {
      PopHolds(d, h);
      TrimHolds(Pop(d), capacity, h);
    }
  }

  lemma InsertHolds(d: DedupeState, g: Hash, p: Hash, seenMs: int, h: Hash)
    requires Rep(d) && h in d.cache
    ensures EntryStays(d, InsertKnown(d, g, p, seenMs), h, 1)
  {
    InsertKnownKeepsRep(d, g, p, seenMs);
    if g !in d.cache { BehindSnoc(d.order, h, (g, seenMs)); }
  }

  /** A commit keeps an entry that has not expired and has room behind it. */
  lemma CommitHolds(d: DedupeState, g: Hash, p: Hash, now: int, capacity: nat, ttlMs: int, h: Hash)
    requires Rep(d) && h in d.cache && now - ttlMs <= d.cache[h].firstSeenMs && Behind(d.order, h) + 1 < capacity
    ensures EntryStays(d, Commit(d, g, p, now, capacity, ttlMs), h, 1)
  {
    hide Rep, Evict, Trim, InsertKnown;
    EvictHolds(d, now - ttlMs, h);
    var live := Evict(d, now - ttlMs);
    if g !in live.cache {
      InsertHolds(live, g, p, now, h);
      TrimHolds(InsertKnown(live, g, p, now), capacity, h);
    }
  }

  /** A new entry goes to the end of the queue. */
  lemma CommitRegisters(d: DedupeState, h: Hash, p: Hash, now: int, capacity: nat, ttlMs: int)
    requires Rep(d) && h !in d.cache && 0 < capacity
    ensures var r := Commit(d, h, p, now, capacity, ttlMs);
            Rep(r) && h in r.cache && r.cache[h] == DedupeEntry(p, now) && Behind(r.order, h) == 0
  {
    hide Evict, Trim;
    EvictKeepsUnexpired(d, now - ttlMs);
    var live := Evict(d, now - ttlMs);
    InsertKnownKeepsRep(live, h, p, now);
    var full := InsertKnown(live, h, p, now);
    BehindLast(live.order, (h, now));
    TrimHolds(full, capacity, h);
  }

  lemma CommitKeepsRep(d: DedupeState, h: Hash, p: Hash, now: int, capacity: nat, ttlMs: int)
    requires Rep(d)
    ensures Rep(Commit(d, h, p, now, capacity, ttlMs))
  {
    var live := Evict(d, now - ttlMs);
    EvictKeepsUnexpired(d, now - ttlMs);
    if h !in live.cache {
      InsertKnownKeepsRep(live, h, p, now);
      TrimKeepsNewest(InsertKnown(live, h, p, now), capacity);
    }
  }

  /** A commit that inserts leaves at most `capacity` entries, and the new one among them unless
      the capacity is zero. */
  lemma CommitBounded(d: DedupeState, h: Hash, p: Hash, now: int, capacity: nat, ttlMs: int)
    requires Rep(d) && h !in Evict(d, now - ttlMs).cache
    ensures var r := Commit(d, h, p, now, capacity, ttlMs);
            && |r.cache| <= capacity
            && (h in r.cache <==> 0 < capacity)
            && (h in r.cache ==> r.cache[h] == DedupeEntry(p, now))
  {
    var live := Evict(d, now - ttlMs);
    EvictKeepsUnexpired(d, now - ttlMs);
    InsertKnownKeepsRep(live, h, p, now);
    TrimKeepsNewest(InsertKnown(live, h, p, now), capacity);
  }

  datatype DedupeOp =
    | OpCommit(h: Hash, p: Hash, now: int)
    | OpInsertKnown(h: Hash, p: Hash, seenMs: int)

  function Apply(d: DedupeState, op: DedupeOp, capacity: nat, ttlMs: int): DedupeState
  {
    match op
    case OpCommit(h, p, now) => Commit(d, h, p, now, capacity, ttlMs)
    case OpInsertKnown(h, p, seenMs) => InsertKnown(d, h, p, seenMs)
  }

  function ApplyAll(ops: seq<DedupeOp>, capacity: nat, ttlMs: int): DedupeState
  {
    if ops == [] then EMPTY_DEDUPE
    else Apply(ApplyAll(ops[..|ops| - 1], capacity, ttlMs), ops[|ops| - 1], capacity, ttlMs)
  }

  /** After any history, the queue and the cache describe the same entries. */
  lemma {:induction false} AnyHistoryKeepsRep(ops: seq<DedupeOp>, capacity: nat, ttlMs: int)
    ensures Rep(ApplyAll(ops, capacity, ttlMs))
  {
    if ops != [] {
      AnyHistoryKeepsRep(ops[..|ops| - 1], capacity, ttlMs);
      var d := ApplyAll(ops[..|ops| - 1], capacity, ttlMs);
      match ops[|ops| - 1]
      case OpCommit(h, p, now) => CommitKeepsRep(d, h, p, now, capacity, ttlMs);
      case OpInsertKnown(h, p, seenMs) => InsertKnownKeepsRep(d, h, p, seenMs);
    }
  }

  class HotDedupe {
    var cache: map<Hash, DedupeEntry>
    var order: seq<(Hash, int)>
    const maxCapacity: nat
    const ttlMs: int

    ghost function State(): DedupeState
      reads this
    {
      DedupeState(cache, order)
    }

    ghost predicate Valid()
      reads this
    {
      Rep(State())
    }

    constructor (maxCapacity: nat, ttlMs: int)
      ensures Valid() && State() == EMPTY_DEDUPE
      ensures this.maxCapacity == maxCapacity && this.ttlMs == ttlMs
    {
      this.maxCapacity, this.ttlMs := maxCapacity, ttlMs;
      cache, order := map[], [];
    }

    method ClassifyEvent(h: Hash, p: Hash) returns (r: DedupeResult)
      ensures r == Classify(cache, h, p)
    {
      if h in cache {
        if cache[h].payloadHash == p {
          r := ExactDuplicate;
        } else {
          r := PayloadConflict;
        }
      } else {
        r := NewEvent;
      }
    }

    method EvictExpired(now: int)
      requires Valid()
      modifies this
      ensures Valid()
      ensures State() == Evict(old(State()), now - ttlMs)
    {
      var cutoff := now - ttlMs;
      while order != [] && order[0].1 < cutoff
        invariant Valid()
        invariant Evict(State(), cutoff) == Evict(old(State()), cutoff)
        decreases |order|
      {
        PopKeepsRep(State());
        var hash := order[0].0;
        order := order[1..];
        cache := cache - {hash};
      }
    }

    method CommitEvent(h: Hash, p: Hash, now: int)
      requires Valid()
      modifies this
      ensures Valid()
      ensures State() == Commit(old(State()), h, p, now, maxCapacity, ttlMs)
    {
      EvictExpired(now);
      if h in cache {
        return;
      }
      InsertKnownKeepsRep(State(), h, p, now);
      cache := cache[h := DedupeEntry(p, now)];
      order := order + [(h, now)];
      ghost var full := State();
      RepSize(State());
      while |cache| > maxCapacity
        invariant Valid() && |cache| == |order|
        invariant Trim(State(), maxCapacity) == Trim(full, maxCapacity)
        decreases |order|
      {
        PopKeepsRep(State());
        RepSize(Pop(State()));
        var oldest := order[0].0;
        order := order[1..];
        cache := cache - {oldest};
      }
    }

    method CheckAndInsert(h: Hash, p: Hash, now: int) returns (r: DedupeResult)
      requires Valid()
      modifies this
      ensures Valid()
      ensures r == Classify(old(cache), h, p)
      ensures State() == if r.NewEvent? then Commit(old(State()), h, p, now, maxCapacity, ttlMs) else old(State())
    {
      r := ClassifyEvent(h, p);
      if r == NewEvent {
        CommitEvent(h, p, now);
      }
    }

    method InsertKnownEvent(h: Hash, p: Hash, seenMs: int)
      requires Valid()
      modifies this
      ensures Valid()
      ensures State() == InsertKnown(old(State()), h, p, seenMs)
    {
      InsertKnownKeepsRep(State(), h, p, seenMs);
      if h in cache {
        return;
      }
      cache := cache[h := DedupeEntry(p, seenMs)];
      order := order + [(h, seenMs)];
    }
  }
}
