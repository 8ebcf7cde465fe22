/** Admission, batch triage and the equivalence of batch and one-by-one ingest. */
module Ingest {
  import opened Model
  import opened Dedupe
  import opened Manifests
  import opened Sums

  const MAX_DIMENSIONS: nat := 16

  datatype ValidationError =
    | MissingEventId
    | MissingAccountId
    | MissingProductId
    | MissingMeterId
    | NonPositiveTimestamp
    | TooManyDimensions
    | CorrectionMissingRef

  function ValidateEvent(e: UsageEvent): Option<ValidationError>
  {
    if e.eventId == "" then Some(MissingEventId)
    else if e.accountId == "" then Some(MissingAccountId)
    else if e.productId == "" then Some(MissingProductId)
    else if e.meterId == "" then Some(MissingMeterId)
    else if e.timestampMs <= 0 then Some(NonPositiveTimestamp)
    else if |e.dimensions| > MAX_DIMENSIONS then Some(TooManyDimensions)
    else if !e.kind.Usage? && e.correctionRef.None? then Some(CorrectionMissingRef)
    else None
  }

  /** Usage events that land in a closed period of their account are turned away. */
  predicate InClosedPeriod(cal: Calendar, closed: seq<ClosedPeriod>, e: UsageEvent)
  {
    e.kind.Usage? && cal.periodOf(e.timestampMs).Some?
    && var (year, month) := cal.periodOf(e.timestampMs).value;
       IsClosed(closed, e.accountId, year, month)
  }

  predicate Admissible(cal: Calendar, closed: seq<ClosedPeriod>, e: UsageEvent)
  {
    ValidateEvent(e).None? && !InClosedPeriod(cal, closed, e)
  }

  /** The admitted events of a batch, stamped with the server's time. */
  function Admit(cal: Calendar, closed: seq<ClosedPeriod>, now: int, batch: seq<UsageEvent>): seq<UsageEvent>
  {
    if batch == [] then []
    else
      var e := batch[|batch| - 1];
      Admit(cal, closed, now, batch[..|batch| - 1])
      + if Admissible(cal, closed, e) then [e.(ingestedAtMs := now)] else []
  }

  lemma {:induction false} AdmitSound(cal: Calendar, closed: seq<ClosedPeriod>, now: int, batch: seq<UsageEvent>)
    ensures |Admit(cal, closed, now, batch)| <= |batch|
    ensures forall e :: e in Admit(cal, closed, now, batch) ==>
              Admissible(cal, closed, e) && e.timestampMs > 0 && e.ingestedAtMs == now
  {
    if batch != [] {
      AdmitSound(cal, closed, now, batch[..|batch| - 1]);
    }
  }

  /** What admission asks of an event, field by field. */
  predicate MayEnter(cal: Calendar, closed: seq<ClosedPeriod>, e: UsageEvent)
  {
    && e.eventId != "" && e.accountId != "" && e.productId != "" && e.meterId != ""
    && 0 < e.timestampMs && |e.dimensions| <= 16
    && (e.kind == Correction || e.kind == Retraction ==> e.correctionRef.Some?)
    && (e.kind == Usage ==>
          forall p :: p in closed && p.accountId == e.accountId ==>
            cal.periodOf(e.timestampMs) != Some((p.year, p.month)))
  }

  function Entering(cal: Calendar, closed: seq<ClosedPeriod>): UsageEvent -> bool
  {
    (e: UsageEvent) => MayEnter(cal, closed, e)
  }

  function StampedAt(batch: seq<UsageEvent>, now: int): seq<UsageEvent>
  {
    seq(|batch|, i requires 0 <= i < |batch| => batch[i].(ingestedAtMs := now))
  }

  lemma AdmissibleIff(cal: Calendar, closed: seq<ClosedPeriod>, e: UsageEvent)
    ensures Admissible(cal, closed, e) <==> MayEnter(cal, closed, e)
  {
    if e.kind == Usage && cal.periodOf(e.timestampMs).Some? {
      var (year, month) := cal.periodOf(e.timestampMs).value;
      if p :| p in closed && p.accountId == e.accountId && p.year == year && p.month == month {
        assert IsClosed(closed, e.accountId, year, month);
      }
    }
  }

  /** Admission keeps, in order and stamped, exactly the events that may enter. */
  lemma {:induction false} AdmitIs(cal: Calendar, closed: seq<ClosedPeriod>, now: int, batch: seq<UsageEvent>)
    ensures Admit(cal, closed, now, batch) == Filter(StampedAt(batch, now), Entering(cal, closed))
  {
    hide Admissible, MayEnter;
    if batch != [] {
      var n := |batch| - 1;
      AdmitIs(cal, closed, now, batch[..n]);
      var e := batch[n].(ingestedAtMs := now);
      assert StampedAt(batch, now) == StampedAt(batch[..n], now) + [e];
      FilterSnoc(StampedAt(batch[..n], now), Entering(cal, closed), e);
      AdmissibleIff(cal, closed, batch[n]);
      StampIsIgnored(cal, closed, batch[n], now);
    }
  }

  lemma StampIsIgnored(cal: Calendar, closed: seq<ClosedPeriod>, e: UsageEvent, now: int)
    ensures MayEnter(cal, closed, e.(ingestedAtMs := now)) <==> MayEnter(cal, closed, e)
  {
  }

  datatype Classified = Classified(event: UsageEvent, idHash: Hash, payloadHash: Hash)

  function Hashed(h: Hashing, e: UsageEvent): Classified
  {
    Classified(e, h.idHash(e.eventId), PayloadHash(h, e))
  }

  function HashedAll(h: Hashing, es: seq<UsageEvent>): (cs: seq<Classified>)
    ensures |cs| == |es|
    ensures forall i :: 0 <= i < |es| ==> cs[i] == Hashed(h, es[i])
  {
    seq(|es|, i requires 0 <= i < |es| => Hashed(h, es[i]))
  }

  function Events(cs: seq<Classified>): (es: seq<UsageEvent>)
    ensures |es| == |cs|
    ensures forall i :: 0 <= i < |cs| ==> es[i] == cs[i].event
  {
    seq(|cs|, i requires 0 <= i < |cs| => cs[i].event)
  }

  /** Outcome of classifying a batch against the cache and against itself. */
  datatype Triage = Triage(novel: seq<Classified>, duplicates: nat, conflicts: nat)

  /** Payload hash by id hash of the events already taken from the batch. */
  function SeenInBatch(novel: seq<Classified>): map<Hash, Hash>
  {
    if novel == [] then map[]
    else SeenInBatch(novel[..|novel| - 1])[novel[|novel| - 1].idHash := novel[|novel| - 1].payloadHash]
  }

  function TriageOne(cache: map<Hash, DedupeEntry>, t: Triage, c: Classified): Triage
  {
    var seen := SeenInBatch(t.novel);
    if c.idHash in seen then
      if seen[c.idHash] == c.payloadHash then t.(duplicates := t.duplicates + 1)
      else t.(conflicts := t.conflicts + 1)
    else
      match Classify(cache, c.idHash, c.payloadHash)
      case NewEvent => t.(novel := t.novel + [c])
      case ExactDuplicate => t.(duplicates := t.duplicates + 1)
      case PayloadConflict => t.(conflicts := t.conflicts + 1)
  }

  function TriageBatch(cache: map<Hash, DedupeEntry>, cs: seq<Classified>): Triage
  {
    if cs == [] then Triage([], 0, 0)
    else TriageOne(cache, TriageBatch(cache, cs[..|cs| - 1]), cs[|cs| - 1])
  }

  ghost predicate DistinctIds(cs: seq<Classified>)
  {
    forall i, j :: 0 <= i < j < |cs| ==> cs[i].idHash != cs[j].idHash
  }

  lemma {:induction false} SeenMembers(novel: seq<Classified>)
    ensures forall h :: h in SeenInBatch(novel) <==> exists i :: 0 <= i < |novel| && novel[i].idHash == h
  {
    if novel != [] {
      var n := |novel| - 1;
      SeenMembers(novel[..n]);
      forall h ensures h in SeenInBatch(novel) <==> exists i :: 0 <= i < |novel| && novel[i].idHash == h {
        if h in SeenInBatch(novel[..n]) {
          var i :| 0 <= i < n && novel[..n][i].idHash == h;
          assert novel[i].idHash == h;
        }
        if i :| 0 <= i < |novel| && novel[i].idHash == h && i < n {
          assert novel[..n][i].idHash == h;
        }
      }
    }
  }

  lemma SeenSnoc(novel: seq<Classified>, c: Classified)
    ensures SeenInBatch(novel + [c]) == SeenInBatch(novel)[c.idHash := c.payloadHash]
  {
    assert (novel + [c])[..|novel|] == novel;
  }

  /** The taken events are pairwise distinct, new to the cache, and come from `cs`. */
  ghost predicate Novel(cache: map<Hash, DedupeEntry>, cs: seq<Classified>, novel: seq<Classified>)
  {
    DistinctIds(novel) && forall i :: 0 <= i < |novel| ==> novel[i].idHash !in cache && novel[i] in cs
  }

  lemma NovelSnoc(cache: map<Hash, DedupeEntry>, cs: seq<Classified>, novel: seq<Classified>, c: Classified)
    requires Novel(cache, cs, novel)
    ensures Novel(cache, cs + [c], novel)
    ensures c.idHash !in cache && c.idHash !in SeenInBatch(novel) ==> Novel(cache, cs + [c], novel + [c])
  {
    SeenMembers(novel);
    if c.idHash !in cache && c.idHash !in SeenInBatch(novel) {
      assert forall i :: 0 <= i < |novel| ==> novel[i].idHash != c.idHash;
      assert (cs + [c])[|cs|] == c;
    }
  }

  /** Every event of the batch is counted once, and the novel ones are new to the cache and
      pairwise distinct. */
  lemma {:induction false} TriageSound(cache: map<Hash, DedupeEntry>, cs: seq<Classified>)
    ensures var t := TriageBatch(cache, cs);
            && |t.novel| + t.duplicates + t.conflicts == |cs|
            && Novel(cache, cs, t.novel)
  {
    hide Novel, TriageOne;
    if cs == [] {
      assert Novel(cache, [], []) by { EmptyIsNovel(cache); }
    } else {
      var front, c := cs[..|cs| - 1], cs[|cs| - 1];
      TriageSound(cache, front);
      assert cs == front + [c];
      TriageOneSound(cache, front, TriageBatch(cache, front), c);
    }
  }

  lemma TriageOneSound(cache: map<Hash, DedupeEntry>, cs: seq<Classified>, t: Triage, c: Classified)
    requires |t.novel| + t.duplicates + t.conflicts == |cs| && Novel(cache, cs, t.novel)
    ensures var t' := TriageOne(cache, t, c);
            && |t.novel| <= |t'.novel|
            && |t'.novel| + t'.duplicates + t'.conflicts == |cs| + 1
            && Novel(cache, cs + [c], t'.novel)
  {
    hide Novel, SeenInBatch;
    NovelSnoc(cache, cs, t.novel, c);
  }

  lemma EmptyIsNovel(cache: map<Hash, DedupeEntry>)
    ensures Novel(cache, [], [])
  {
  }

  function CommitAll(d: DedupeState, novel: seq<Classified>, now: int, capacity: nat, ttlMs: int): DedupeState
  {
    if novel == [] then d
    else
      var c := novel[|novel| - 1];
      Commit(CommitAll(d, novel[..|novel| - 1], now, capacity, ttlMs), c.idHash, c.payloadHash, now, capacity, ttlMs)
  }

  /** Nothing cached has expired at `now`, and `added` more entries fit. */
  ghost predicate NoEviction(d: DedupeState, added: nat, now: int, capacity: nat, ttlMs: int)
  {
    && 0 <= ttlMs
    && |d.order| + added <= capacity
    && forall i :: 0 <= i < |d.order| ==> d.order[i].1 >= now - ttlMs
  }

  lemma CommitInserts(d: DedupeState, h: Hash, p: Hash, now: int, capacity: nat, ttlMs: int)
    requires Rep(d) && h !in d.cache && NoEviction(d, 1, now, capacity, ttlMs)
    ensures var r := Commit(d, h, p, now, capacity, ttlMs);
            && Rep(r)
            && r.order == d.order + [(h, now)]
            && r.cache == d.cache[h := DedupeEntry(p, now)]
            && NoEviction(r, 0, now, capacity, ttlMs)
  {
    assert Evict(d, now - ttlMs) == d;
    InsertKnownKeepsRep(d, h, p, now);
  }

  /** The cache after `novel` joined `cache` at time `now`. */
  ghost predicate Extended(
    cache: map<Hash, DedupeEntry>, novel: seq<Classified>, now: int, cache': map<Hash, DedupeEntry>)
  {
    && cache'.Keys == cache.Keys + SeenInBatch(novel).Keys
    && (forall h :: h in cache ==> cache'[h] == cache[h])
    && (forall h :: h in SeenInBatch(novel) ==> cache'[h] == DedupeEntry(SeenInBatch(novel)[h], now))
  }

  lemma ExtendedSnoc(
    cache: map<Hash, DedupeEntry>, front: seq<Classified>, c: Classified, now: int, cache': map<Hash, DedupeEntry>)
    requires Extended(cache, front, now, cache') && c.idHash !in cache'
    ensures Extended(cache, front + [c], now, cache'[c.idHash := DedupeEntry(c.payloadHash, now)])
  {
    SeenSnoc(front, c);
  }

  lemma NothingExtends(cache: map<Hash, DedupeEntry>, now: int)
    ensures Extended(cache, [], now, cache)
  {
  }

  lemma LastIsNew(cache: map<Hash, DedupeEntry>, novel: seq<Classified>, now: int, cache': map<Hash, DedupeEntry>)
    requires DistinctIds(novel) && novel != [] && forall i :: 0 <= i < |novel| ==> novel[i].idHash !in cache
    requires Extended(cache, novel[..|novel| - 1], now, cache')
    ensures novel[|novel| - 1].idHash !in cache'
  {
    hide SeenInBatch;
    SeenMembers(novel[..|novel| - 1]);
  }

  /** Without eviction, committing novel events adds exactly their entries. */
  lemma {:induction false} CommitAllInserts(
    d: DedupeState, novel: seq<Classified>, now: int, capacity: nat, ttlMs: int)
    requires Rep(d) && DistinctIds(novel)
    requires forall i :: 0 <= i < |novel| ==> novel[i].idHash !in d.cache
    requires NoEviction(d, |novel|, now, capacity, ttlMs)
    ensures var r := CommitAll(d, novel, now, capacity, ttlMs);
            && Rep(r)
            && |r.order| == |d.order| + |novel|
            && NoEviction(r, 0, now, capacity, ttlMs)
            && Extended(d.cache, novel, now, r.cache)
  {
    hide Commit, Rep, Extended, SeenInBatch;
    if novel == [] {
      assert Extended(d.cache, [], now, d.cache) by { NothingExtends(d.cache, now); }
    } else {
      var front, c := novel[..|novel| - 1], novel[|novel| - 1];
      CommitAllInserts(d, front, now, capacity, ttlMs);
      var q := CommitAll(d, front, now, capacity, ttlMs);
      LastIsNew(d.cache, novel, now, q.cache);
      ExtendedSnoc(d.cache, front, c, now, q.cache);
      assert novel == front + [c];
      CommitInserts(q, c.idHash, c.payloadHash, now, capacity, ttlMs);
    }
  }

  /** Ingesting the events one at a time with `check_and_insert`. */
  datatype Folded = Folded(state: DedupeState, triage: Triage)

  function CheckAndInsertAll(d: DedupeState, cs: seq<Classified>, now: int, capacity: nat, ttlMs: int): Folded
  {
    if cs == [] then Folded(d, Triage([], 0, 0))
    else
      var f := CheckAndInsertAll(d, cs[..|cs| - 1], now, capacity, ttlMs);
      var c := cs[|cs| - 1];
      match Classify(f.state.cache, c.idHash, c.payloadHash)
      case NewEvent =>
        Folded(Commit(f.state, c.idHash, c.payloadHash, now, capacity, ttlMs),
               f.triage.(novel := f.triage.novel + [c]))
      case ExactDuplicate => f.(triage := f.triage.(duplicates := f.triage.duplicates + 1))
      case PayloadConflict => f.(triage := f.triage.(conflicts := f.triage.conflicts + 1))
  }

  /** Batch ingest and one-by-one ingest accept the same events in the same order, count the same
      duplicates and conflicts, and leave the same cache. */
  lemma {:induction false} BatchRefinesFold(
    d: DedupeState, cs: seq<Classified>, now: int, capacity: nat, ttlMs: int)
    requires Rep(d) && NoEviction(d, |TriageBatch(d.cache, cs).novel|, now, capacity, ttlMs)
    ensures var t := TriageBatch(d.cache, cs);
            CheckAndInsertAll(d, cs, now, capacity, ttlMs)
              == Folded(CommitAll(d, t.novel, now, capacity, ttlMs), t)
  {
    hide Commit, Rep, Extended, TriageOne, SeenInBatch, Classify;
    if cs != [] {
      var front, c := cs[..|cs| - 1], cs[|cs| - 1];
      var t := TriageBatch(d.cache, front);
      TriageSound(d.cache, front);
      TriageOneSound(d.cache, front, t, c);
      BatchRefinesFold(d, front, now, capacity, ttlMs);
      CommitAllInserts(d, t.novel, now, capacity, ttlMs);
      ClassifyExtended(d.cache, t, now, CommitAll(d, t.novel, now, capacity, ttlMs).cache, c);
      assert (t.novel + [c])[..|t.novel|] == t.novel;
    }
  }

  /** Looking in the batch and then in the cache is looking in the extended cache. */
  lemma ClassifyExtended(
    cache: map<Hash, DedupeEntry>, t: Triage, now: int, cache': map<Hash, DedupeEntry>, c: Classified)
    requires Extended(cache, t.novel, now, cache')
    requires forall i :: 0 <= i < |t.novel| ==> t.novel[i].idHash !in cache
    ensures TriageOne(cache, t, c) ==
            match Classify(cache', c.idHash, c.payloadHash)
            case NewEvent => t.(novel := t.novel + [c])
            case ExactDuplicate => t.(duplicates := t.duplicates + 1)
            case PayloadConflict => t.(conflicts := t.conflicts + 1)
  {
    SeenMembers(t.novel);
  }

  /** The counts reported for a batch add up to its size. */
  lemma CountsAddUp(
    h: Hashing, cal: Calendar, closed: seq<ClosedPeriod>, now: int, batch: seq<UsageEvent>,
    cache: map<Hash, DedupeEntry>)
    ensures var admitted := Admit(cal, closed, now, batch);
            var t := TriageBatch(cache, HashedAll(h, admitted));
            |t.novel| + t.duplicates + t.conflicts + (|batch| - |admitted|) == |batch|
  {
    TriageSound(cache, HashedAll(h, Admit(cal, closed, now, batch)));
  }

  /** The admission loop. */
  method AdmitBatch(cal: Calendar, closed: seq<ClosedPeriod>, now: int, batch: seq<UsageEvent>)
    returns (admitted: seq<UsageEvent>, rejected: nat)
    ensures admitted == Admit(cal, closed, now, batch)
    ensures |admitted| + rejected == |batch|
  {
    admitted, rejected := [], 0;
    for i := 0 to |batch|
      invariant admitted == Admit(cal, closed, now, batch[..i])
      invariant |admitted| + rejected == i
    {
      var e := batch[i];
      assert batch[..i + 1][..i] == batch[..i];
      if ValidateEvent(e).Some? || InClosedPeriod(cal, closed, e) {
        rejected := rejected + 1;
      } else {
        admitted := admitted + [e.(ingestedAtMs := now)];
      }
    }
    assert batch[..|batch|] == batch;
  }

  /** Phase 1 of the ingest critical section. */
  method TriageEvents(dedupe: HotDedupe, cs: seq<Classified>)
    returns (novel: seq<Classified>, duplicates: nat, conflicts: nat)
    ensures Triage(novel, duplicates, conflicts) == TriageBatch(dedupe.cache, cs)
  {
    novel, duplicates, conflicts := [], 0, 0;
    var seenInBatch: map<Hash, Hash> := map[];
    for i := 0 to |cs|
      invariant Triage(novel, duplicates, conflicts) == TriageBatch(dedupe.cache, cs[..i])
      invariant seenInBatch == SeenInBatch(novel)
    {
      var c := cs[i];
      assert cs[..i + 1][..i] == cs[..i];
      if c.idHash in seenInBatch {
        if seenInBatch[c.idHash] == c.payloadHash {
          duplicates := duplicates + 1;
        } else {
          conflicts := conflicts + 1;
        }
      } else {
        var r := dedupe.ClassifyEvent(c.idHash, c.payloadHash);
        match r
        case NewEvent =>
          SeenSnoc(novel, c);
          seenInBatch := seenInBatch[c.idHash := c.payloadHash];
          novel := novel + [c];
        case ExactDuplicate =>
          duplicates := duplicates + 1;
        case PayloadConflict =>
          conflicts := conflicts + 1;
      }
    }
    assert cs[..|cs|] == cs;
  }
}
