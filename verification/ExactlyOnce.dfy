/** No event id is stored twice, however clients retry and wherever crashes fall; and a retry is
    answered according to what is stored. */
module ExactlyOnce {
  import opened Model
  import opened Dedupe
  import opened Wals
  import opened Manifests
  import opened Ingest
  import opened Sorting
  import opened Query
  import opened Engine
  import opened Durability
  import opened Catalog
  import opened Runs
  import opened RecoveryWindow

  /** No id occurs twice, not even in two copies of one event. */
  ghost predicate UniqueLedger(m: multiset<UsageEvent>)
  {
    && (forall e :: m[e] <= 1)
    && (forall a, b :: a in m && b in m && a.eventId == b.eventId ==> a == b)
  }

  /** The cache knows every stored event, with its payload, and nothing else. */
  ghost predicate Remembers(h: Hashing, cache: map<Hash, DedupeEntry>, m: multiset<UsageEvent>)
  {
    && (forall e :: e in m ==> Known(h, cache, e))
    && (forall k :: k in cache ==> exists e :: e in m && h.idHash(e.eventId) == k)
  }

  ghost predicate Known(h: Hashing, cache: map<Hash, DedupeEntry>, e: UsageEvent)
  {
    h.idHash(e.eventId) in cache && cache[h.idHash(e.eventId)].payloadHash == PayloadHash(h, e)
  }

  ghost predicate OnceInv(c: Config, s: State)
  {
    && UniqueLedger(Ledger(s.disk))
    && (s.Up? ==> Rep(s.mem.dedupe) && Remembers(c.hashing, s.mem.dedupe.cache, Ledger(s.disk)))
  }

  /** The conditions under which ids are not forgotten. */
  ghost predicate Remembering(c: Config, s: State, step: Step)
  {
    match step
    case Ingest(now, batch) =>
      && AppendsToCleanFile(c, s, now, batch)
      && NoEviction(s.mem.dedupe, |Accepted(c, s, now, batch)|, now, c.dedupeCapacity, c.ttlMs)
    case IngestCrash(now, batch, _, _) => AppendsToCleanFile(c, s, now, batch)
    case Recover(now) => AllReachWindow(s.disk, now)
    case _ => true
  }

  // Adding accepted events.

  lemma UniqueExtend(m: multiset<UsageEvent>, es: seq<UsageEvent>)
    requires UniqueLedger(m) && UniqueIds(es)
    requires forall a, b :: a in m && b in es ==> a.eventId != b.eventId
    ensures UniqueLedger(m + multiset(es))
  {
    var n := m + multiset(es);
    forall e ensures n[e] <= 1 {
      OnceInUnique(es, e);
      assert e in multiset(es) <==> e in es;
    }
    forall a, b | a in n && b in n && a.eventId == b.eventId ensures a == b {
      if a in m {
        assert b !in es;
      } else {
        assert a in es && b in es by {
          assert a in multiset(es) && (b in m || b in multiset(es));
        }
        var i :| 0 <= i < |es| && es[i] == a;
        var j :| 0 <= j < |es| && es[j] == b;
        assert i == j;
      }
    }
  }

  lemma UniqueSubset(m: multiset<UsageEvent>, n: multiset<UsageEvent>)
    requires UniqueLedger(n) && m <= n
    ensures UniqueLedger(m)
  {
    forall e ensures m[e] <= 1 && (e in m ==> e in n) {
      assert m[e] <= n[e];
    }
  }

  lemma UniqueLedgerGivesUniqueIds(es: seq<UsageEvent>)
    requires UniqueLedger(multiset(es))
    ensures UniqueIds(es)
  {
    forall i, j | 0 <= i < j < |es| ensures es[i].eventId != es[j].eventId {
      assert es[i] in multiset(es) && es[j] in multiset(es);
      if es[i] == es[j] {
        TwiceInSeq(es, i, j);
      }
    }
  }

  /** Every event of the batch whose id is stored is one the cache still knows by its id hash. */
  ghost predicate ResendsKnown(c: Config, s: State, batch: seq<UsageEvent>)
    requires s.Up?
  {
    forall e, x :: e in batch && x in Ledger(s.disk) && x.eventId == e.eventId ==>
        c.hashing.idHash(e.eventId) in s.mem.dedupe.cache
  }

  /** No append to a torn file, and no resend of a forgotten id. */
  ghost predicate Retrying(c: Config, s: State, step: Step)
  {
    match step
    case Ingest(now, batch) => AppendsToCleanFile(c, s, now, batch) && ResendsKnown(c, s, batch)
    case IngestCrash(now, batch, _, _) => AppendsToCleanFile(c, s, now, batch) && ResendsKnown(c, s, batch)
    case _ => true
  }

  lemma {:induction false} AdmittedFromBatch(cal: Calendar, closed: seq<ClosedPeriod>, now: int,
                                             batch: seq<UsageEvent>, a: UsageEvent)
    requires a in Admit(cal, closed, now, batch)
    ensures exists e :: e in batch && e.eventId == a.eventId
    decreases |batch|
  {
    hide Admissible;
    var n := |batch| - 1;
    if a in Admit(cal, closed, now, batch[..n]) {
      AdmittedFromBatch(cal, closed, now, batch[..n], a);
      var e :| e in batch[..n] && e.eventId == a.eventId;
      assert e in batch;
    } else {
      assert batch[n] in batch && batch[n].eventId == a.eventId;
    }
  }

  /** Accepted events carry ids that are new to the ledger and distinct among themselves. */
  lemma AcceptedAreNew(c: Config, s: State, now: int, batch: seq<UsageEvent>)
    requires s.Up? && ResendsKnown(c, s, batch)
    ensures UniqueIds(Accepted(c, s, now, batch))
    ensures forall a, b :: a in Ledger(s.disk) && b in Accepted(c, s, now, batch) ==> a.eventId != b.eventId
  {
    hide Ledger, TriageBatch, Admit, Admissible;
    var es := Accepted(c, s, now, batch);
    var admitted := Admit(c.calendar, s.disk.manifest.closedPeriods, now, batch);
    AcceptedSound(c, s, now, batch);
    TriageSound(s.mem.dedupe.cache, HashedAll(c.hashing, admitted));
    forall i, j | 0 <= i < j < |es| ensures es[i].eventId != es[j].eventId {
      assert Triaged(c, s, now, batch).novel[i].idHash != Triaged(c, s, now, batch).novel[j].idHash;
    }
    forall a, b | a in Ledger(s.disk) && b in es ensures a.eventId != b.eventId {
      AcceptedFromBatch(c, s, now, batch, b);
    }
  }

  lemma AcceptedFromBatch(c: Config, s: State, now: int, batch: seq<UsageEvent>, b: UsageEvent)
    requires s.Up? && b in Accepted(c, s, now, batch)
    ensures exists e :: e in batch && e.eventId == b.eventId
  {
    hide TriageBatch, Admit;
    var admitted := Admit(c.calendar, s.disk.manifest.closedPeriods, now, batch);
    var cs := HashedAll(c.hashing, admitted);
    TriageSound(s.mem.dedupe.cache, cs);
    var novel := Triaged(c, s, now, batch).novel;
    var i :| 0 <= i < |novel| && novel[i].event == b;
    assert novel[i] in cs;
    var k :| 0 <= k < |cs| && cs[k] == novel[i];
    assert admitted[k] == b;
    AdmittedFromBatch(c.calendar, s.disk.manifest.closedPeriods, now, batch, b);
  }

  lemma UniquePrefix(es: seq<UsageEvent>, whole: nat, tail: WalTail)
    requires UniqueIds(es) && TornAppend(es, whole, tail)
    ensures UniqueIds(TornEvents(es, whole, tail))
  {
    var t := TornEvents(es, whole, tail);
    assert forall i :: 0 <= i < |t| ==> t[i] == es[i];
  }

  /** The ledger stays free of repeated ids. */
  lemma StepKeepsUnique(c: Config, s: State, step: Step, s': State)
    requires UniqueLedger(Ledger(s.disk)) && Next(c, s, step, s') && Retrying(c, s, step)
    ensures UniqueLedger(Ledger(s.disk) + multiset(Added(c, s, step)))
  {
    hide CoreInv, Ledger, Accepted, TornEvents, UniqueIds, UniqueLedger;
    if step.Ingest? {
      AcceptedAreNew(c, s, step.now, step.batch);
      UniqueExtend(Ledger(s.disk), Accepted(c, s, step.now, step.batch));
    } else if step.IngestCrash? {
      var es := Accepted(c, s, step.now, step.batch);
      AcceptedAreNew(c, s, step.now, step.batch);
      UniquePrefix(es, step.whole, step.tail);
      TornEventsSubset(es, step.whole, step.tail);
      UniqueExtend(Ledger(s.disk), TornEvents(es, step.whole, step.tail));
    } else {
      OnlyIngestAdds(c, s, step);
      assert Ledger(s.disk) + multiset([]) == Ledger(s.disk);
    }
  }

  /** With unique ids in the ledger every compaction is careful. */
  lemma RetryingIsCareful(c: Config, s: State, step: Step, s': State)
    requires CoreInv(c, s) && UniqueLedger(Ledger(s.disk)) && Next(c, s, step, s') && Retrying(c, s, step)
    ensures Careful(c, s, step)
  {
    hide Ledger, UniqueLedger, CoreInv, Next, Accepted;
    if step.Compact? {
      CompactedInputsUnique(c, s, step, s');
    }
  }

  lemma CompactedInputsUnique(c: Config, s: State, step: Step, s': State)
    requires CoreInv(c, s) && UniqueLedger(Ledger(s.disk)) && Next(c, s, step, s') && step.Compact?
    ensures UniqueIds(ReadSegments(s.disk.segs, step.inputs))
  {
    hide Ledger, ReadSegments, UniqueLedger, CatalogOk, Coupled, CompactStep, UniqueIds;
    var inputs := ReadSegments(s.disk.segs, step.inputs);
    CompactChangesRaw(c, s, s', step.now, step.inputs, step.bucket, step.outputId);
    RawWithinLedger(s.disk);
    UniqueSubset(multiset(inputs), Ledger(s.disk));
    UniqueLedgerGivesUniqueIds(inputs);
  }

  /** One step keeps ids unique, whatever the cache has forgotten, as long as no forgotten id is resent. */
  lemma StepStoresUnique(c: Config, s: State, step: Step, s': State)
    requires CoreInv(c, s) && UniqueLedger(Ledger(s.disk)) && Next(c, s, step, s') && Retrying(c, s, step)
    ensures CoreInv(c, s') && UniqueLedger(Ledger(s'.disk))
    ensures Ledger(s'.disk) == Ledger(s.disk) + multiset(Added(c, s, step))
  {
    hide CoreInv, Ledger, UniqueLedger, Next, Retrying, Added, Careful;
    RetryingIsCareful(c, s, step, s');
    StepConserves(c, s, step, s');
    StepKeepsUnique(c, s, step, s');
  }

  ghost predicate RetryingRun(c: Config, states: seq<State>, steps: seq<Step>)
    requires |states| == |steps| + 1
  {
    forall i :: 0 <= i < |steps| ==> Retrying(c, states[i], steps[i])
  }

  lemma RetryingAt(c: Config, states: seq<State>, steps: seq<Step>, n: nat)
    requires Run(c, states, steps) && RetryingRun(c, states, steps) && n < |steps|
    ensures Next(c, states[n], steps[n], states[n + 1]) && Retrying(c, states[n], steps[n])
  {
  }

  /** Exactly once, per resend: if every batch event whose id is stored still has its id hash in the
      cache, no id is ever stored twice, wherever crashes fall and however much has been evicted. */
  lemma {:induction false} RunStoresUnique(c: Config, states: seq<State>, steps: seq<Step>, n: nat)
    requires Run(c, states, steps) && RetryingRun(c, states, steps) && n <= |steps|
    requires CoreInv(c, states[0]) && UniqueLedger(Ledger(states[0].disk))
    ensures CoreInv(c, states[n]) && UniqueLedger(Ledger(states[n].disk))
    decreases n
  {
    hide Run, RetryingRun, Next, Retrying, CoreInv, UniqueLedger, Ledger;
    assert |states| == |steps| + 1 by { RunLength(c, states, steps); }
    if n > 0 {
      RunStoresUnique(c, states, steps, n - 1);
      RetryingAt(c, states, steps, n - 1);
      StepStoresUnique(c, states[n - 1], steps[n - 1], states[n]);
    }
  }

  /** A cache that has forgotten nothing knows every resend. */
  lemma RememberingIsRetrying(c: Config, s: State, step: Step, s': State)
    requires OnceInv(c, s) && Next(c, s, step, s') && Remembering(c, s, step)
    ensures Retrying(c, s, step)
  {
    hide Ledger, UniqueLedger, Rep, Accepted, NoEviction, IngestStep, IngestCrashStep;
    if step.Ingest? || step.IngestCrash? {
      assert s.Up? by { IngestsRunUp(c, s, step, s'); }
      forall e, x | e in step.batch && x in Ledger(s.disk) && x.eventId == e.eventId
        ensures c.hashing.idHash(e.eventId) in s.mem.dedupe.cache
      {
        assert Known(c.hashing, s.mem.dedupe.cache, x);
      }
    }
  }

  lemma IngestsRunUp(c: Config, s: State, step: Step, s': State)
    requires Next(c, s, step, s') && (step.Ingest? || step.IngestCrash?)
    ensures s.Up?
  {
  }

  lemma RawWithinLedger(d: Disk)
    ensures Raw(d) <= Ledger(d)
  {
  }

  // Remembering.

  /** After an ingest the cache knows the old ledger and the accepted events. */
  lemma IngestRemembers(c: Config, s: State, s': State, now: int, batch: seq<UsageEvent>)
    requires IngestStep(c, s, s', now, batch) && OnceInv(c, s)
    requires NoEviction(s.mem.dedupe, |Accepted(c, s, now, batch)|, now, c.dedupeCapacity, c.ttlMs)
    ensures Rep(s'.mem.dedupe)
    ensures Remembers(c.hashing, s'.mem.dedupe.cache, Ledger(s.disk) + multiset(Accepted(c, s, now, batch)))
  {
    hide Ledger, TriageBatch, Admit, Rep, UniqueLedger, NoEviction, CommitAll;
    var es := Accepted(c, s, now, batch);
    var novel := Triaged(c, s, now, batch).novel;
    AcceptedSound(c, s, now, batch);
    TriageSound(s.mem.dedupe.cache, HashedAll(c.hashing, Admit(c.calendar, s.disk.manifest.closedPeriods, now, batch)));
    CommitAllInserts(s.mem.dedupe, novel, now, c.dedupeCapacity, c.ttlMs);
    ExtendedRemembers(c.hashing, s.mem.dedupe.cache, Ledger(s.disk), es, novel, now, s'.mem.dedupe.cache);
  }

  lemma ExtendedRemembers(
    h: Hashing, cache: map<Hash, DedupeEntry>, m: multiset<UsageEvent>,
    es: seq<UsageEvent>, novel: seq<Classified>, now: int, cache': map<Hash, DedupeEntry>)
    requires Remembers(h, cache, m) && Extended(cache, novel, now, cache') && DistinctIds(novel)
    requires |es| == |novel| && forall i :: 0 <= i < |es| ==> novel[i] == Hashed(h, es[i])
    ensures Remembers(h, cache', m + multiset(es))
  {
    hide SeenInBatch, Known, Extended, DistinctIds;
    var n := m + multiset(es);
    forall e | e in n ensures Known(h, cache', e) {
      if e in m {
        OldStaysKnown(h, cache, novel, now, cache', e);
      } else {
        assert e in multiset(es);
        var i :| 0 <= i < |es| && es[i] == e;
        NewIsKnown(h, cache, novel, now, cache', e, i);
      }
    }
    forall k | k in cache' ensures exists e :: e in n && h.idHash(e.eventId) == k {
      KeyIsOldOrNew(cache, novel, now, cache', k);
      if k in cache {
        var e :| e in m && h.idHash(e.eventId) == k;
        assert e in n;
      } else {
        var i :| 0 <= i < |novel| && novel[i].idHash == k;
        assert es[i] in multiset(es) && es[i] in n;
      }
    }
  }

  lemma OldStaysKnown(
    h: Hashing, cache: map<Hash, DedupeEntry>, novel: seq<Classified>, now: int, cache': map<Hash, DedupeEntry>,
    e: UsageEvent)
    requires Extended(cache, novel, now, cache') && Known(h, cache, e)
    ensures Known(h, cache', e)
  {
    hide SeenInBatch, PayloadHash;
  }

  lemma NewIsKnown(
    h: Hashing, cache: map<Hash, DedupeEntry>, novel: seq<Classified>, now: int, cache': map<Hash, DedupeEntry>,
    e: UsageEvent,
    i: nat)
    requires Extended(cache, novel, now, cache') && DistinctIds(novel) && i < |novel| && novel[i] == Hashed(h, e)
    ensures Known(h, cache', e)
  {
    hide SeenInBatch, PayloadHash, DistinctIds;
    SeenPayload(novel, i);
  }

  lemma KeyIsOldOrNew(cache: map<Hash, DedupeEntry>, novel: seq<Classified>, now: int, cache': map<Hash, DedupeEntry>,
                      k: Hash)
    requires Extended(cache, novel, now, cache') && k in cache'
    ensures k in cache || exists i :: 0 <= i < |novel| && novel[i].idHash == k
  {
    hide SeenInBatch;
    SeenMembers(novel);
  }

  lemma {:induction false} SeenPayload(novel: seq<Classified>, i: nat)
    requires DistinctIds(novel) && i < |novel|
    ensures novel[i].idHash in SeenInBatch(novel) && SeenInBatch(novel)[novel[i].idHash] == novel[i].payloadHash
  {
    var n := |novel| - 1;
    if i < n {
      SeenPayload(novel[..n], i);
    }
  }

  /** Registering events keeps the first payload of every hash. */
  lemma {:induction false} RegisterAllKeeps(h: Hashing, d: DedupeState, es: seq<UsageEvent>)
    requires Rep(d)
    ensures var r := RegisterAll(h, d, es);
            && Rep(r)
            && (forall k :: k in d.cache ==> k in r.cache && r.cache[k] == d.cache[k])
            && (forall k :: k in r.cache ==> k in d.cache || exists i :: 0 <= i < |es| && h.idHash(es[i].eventId) == k)
    decreases |es|
  {
    hide Rep, InsertKnown;
    if es != [] {
      var n := |es| - 1;
      RegisterAllKeeps(h, d, es[..n]);
      var q := RegisterAll(h, d, es[..n]);
      var e := es[n];
      InsertKnownKeepsRep(q, h.idHash(e.eventId), PayloadHash(h, e), e.ingestedAtMs);
      var r := RegisterAll(h, d, es);
      forall k | k in r.cache && k !in d.cache ensures exists i :: 0 <= i < |es| && h.idHash(es[i].eventId) == k {
        InsertKnownKeys(q, h.idHash(e.eventId), PayloadHash(h, e), e.ingestedAtMs);
        if k in q.cache {
          var i :| 0 <= i < n && h.idHash(es[..n][i].eventId) == k;
          assert h.idHash(es[i].eventId) == k;
        } else {
          assert h.idHash(es[n].eventId) == k;
        }
      }
    }
  }

  lemma InsertKnownKeys(d: DedupeState, k: Hash, p: Hash, seenMs: int)
    ensures InsertKnown(d, k, p, seenMs).cache.Keys == d.cache.Keys + {k}
    ensures k !in d.cache ==> InsertKnown(d, k, p, seenMs).cache[k].payloadHash == p
  {
  }

  /** Position `i` is the first to register its hash. */
  ghost predicate FirstToRegister(h: Hashing, es: seq<UsageEvent>, i: nat)
    requires i < |es|
  {
    forall j :: 0 <= j < i ==> h.idHash(es[j].eventId) != h.idHash(es[i].eventId)
  }

  /** Recovery classifies a retried id by the payload registered first for it. */
  lemma {:induction false} FirstPayloadWins(h: Hashing, d: DedupeState, es: seq<UsageEvent>, i: nat, p: Hash)
    requires Rep(d) && i < |es| && FirstToRegister(h, es, i) && h.idHash(es[i].eventId) !in d.cache
    ensures Classify(RegisterAll(h, d, es).cache, h.idHash(es[i].eventId), p)
         == if p == PayloadHash(h, es[i]) then ExactDuplicate else PayloadConflict
    decreases |es|
  {
    hide Rep, InsertKnown;
    var n := |es| - 1;
    var k := h.idHash(es[i].eventId);
    var q := RegisterAll(h, d, es[..n]);
    RegisterAllKeeps(h, d, es[..n]);
    InsertKnownKeepsRep(q, h.idHash(es[n].eventId), PayloadHash(h, es[n]), es[n].ingestedAtMs);
    if i < n {
      assert es[..n][i] == es[i];
      FirstPayloadWins(h, d, es[..n], i, p);
      assert k in q.cache;
    } else {
      InsertKnownKeys(q, k, PayloadHash(h, es[n]), es[n].ingestedAtMs);
      assert k !in q.cache;
    }
  }

  lemma {:induction false} RegisterUnique(h: Hashing, d: DedupeState, es: seq<UsageEvent>, m: multiset<UsageEvent>)
    requires Injective(h) && Rep(d) && Remembers(h, d.cache, m) && UniqueLedger(m + multiset(es))
    ensures Rep(RegisterAll(h, d, es)) && Remembers(h, RegisterAll(h, d, es).cache, m + multiset(es))
    decreases |es|
  {
    hide Rep, InsertKnown, UniqueLedger, Remembers;
    if es == [] {
      assert m + multiset(es) == m;
    } else {
      var n := |es| - 1;
      var front, e := es[..n], es[n];
      assert es == front + [e];
      assert m + multiset(es) == m + multiset(front) + multiset{e};
      UniqueSubset(m + multiset(front), m + multiset(es));
      RegisterUnique(h, d, front, m);
      RegisterOne(h, RegisterAll(h, d, front), e, m + multiset(front));
    }
  }

  lemma StoredTwice(m: multiset<UsageEvent>, x: UsageEvent, e: UsageEvent)
    requires UniqueLedger(m + multiset{e}) && x in m
    ensures x.eventId != e.eventId
  {
    var n := m + multiset{e};
    assert x in n && e in n && n[e] == m[e] + 1;
  }

  lemma RegisterOne(h: Hashing, d: DedupeState, e: UsageEvent, m: multiset<UsageEvent>)
    requires Injective(h) && Rep(d) && Remembers(h, d.cache, m) && UniqueLedger(m + multiset{e})
    ensures var r := InsertKnown(d, h.idHash(e.eventId), PayloadHash(h, e), e.ingestedAtMs);
            Rep(r) && Remembers(h, r.cache, m + multiset{e})
  {
    hide Rep, Remembers, UniqueLedger, Injective, InsertKnown, PayloadHash;
    var k := h.idHash(e.eventId);
    InsertKnownKeepsRep(d, k, PayloadHash(h, e), e.ingestedAtMs);
    InsertKnownKeys(d, k, PayloadHash(h, e), e.ingestedAtMs);
    IdIsNew(h, d.cache, e, m);
    RemembersOneMore(h, d.cache, InsertKnown(d, k, PayloadHash(h, e), e.ingestedAtMs).cache, e, m);
  }

  lemma IdIsNew(h: Hashing, cache: map<Hash, DedupeEntry>, e: UsageEvent, m: multiset<UsageEvent>)
    requires Injective(h) && Remembers(h, cache, m) && UniqueLedger(m + multiset{e})
    ensures h.idHash(e.eventId) !in cache
  {
    hide UniqueLedger, Known;
    if h.idHash(e.eventId) in cache {
      var x :| x in m && h.idHash(x.eventId) == h.idHash(e.eventId);
      StoredTwice(m, x, e);
    }
  }

  lemma RemembersOneMore(
    h: Hashing, cache: map<Hash, DedupeEntry>, cache': map<Hash, DedupeEntry>, e: UsageEvent, m: multiset<UsageEvent>)
    requires Remembers(h, cache, m) && h.idHash(e.eventId) !in cache
    requires cache'.Keys == cache.Keys + {h.idHash(e.eventId)}
             && cache'[h.idHash(e.eventId)].payloadHash == PayloadHash(h, e)
    requires forall g :: g in cache ==> cache'[g] == cache[g]
    ensures Remembers(h, cache', m + multiset{e})
  {
    hide PayloadHash;
    var n := m + multiset{e};
    assert e in n;
    forall x | x in n ensures Known(h, cache', x) {
      if x in m { assert Known(h, cache, x); }
    }
    forall g | g in cache' ensures exists x :: x in n && h.idHash(x.eventId) == g {
      if g in cache {
        var x :| x in m && h.idHash(x.eventId) == g;
        assert x in n;
      }
    }
  }

  lemma RecoverRemembers(c: Config, s: State, s': State, now: int)
    requires RecoverStep(c, s, s', now) && UniqueLedger(Ledger(s.disk)) && AllReachWindow(s.disk, now)
    requires Injective(c.hashing) && CoreInv(c, s)
    ensures Rep(s'.mem.dedupe) && Remembers(c.hashing, s'.mem.dedupe.cache, Ledger(s.disk))
  {
    hide RegisterAll, UniqueLedger, Remembers, Rep, AllEvents, Unsealed, ReplayRange, Coupled, CoreInv, CatalogOk,
      RecentEvents, WindowEvents, ReachesWindow, WellStored, RecoveryCutoff;
    RecoverKeepsCoupling(c, s, s', now);
    CoreIsWellStored(c, s);
    RecentIsWindow(c, s.disk, now);
    WindowHoldsAll(s.disk.manifest.rawSegments, s.disk.segs, now);
    var replayed, raw := s'.mem.memtable, RawSeq(s.disk);
    assert multiset{} + multiset(replayed) == multiset(replayed);
    assert Ledger(s.disk) == multiset(replayed) + multiset(raw);
    UniqueSubset(multiset(replayed), Ledger(s.disk));
    EmptyRemembers(c.hashing);
    RegisterUnique(c.hashing, EMPTY_DEDUPE, replayed, multiset{});
    RegisterUnique(c.hashing, RegisterAll(c.hashing, EMPTY_DEDUPE, replayed), raw, multiset(replayed));
  }

  lemma EmptyRemembers(h: Hashing)
    ensures Rep(EMPTY_DEDUPE) && Remembers(h, EMPTY_DEDUPE.cache, multiset{})
  {
  }

  /** One step keeps ids unique and the cache in line with the ledger. */
  lemma StepKeepsOnce(c: Config, s: State, step: Step, s': State)
    requires Injective(c.hashing)
    requires CoreInv(c, s) && OnceInv(c, s) && Next(c, s, step, s') && Remembering(c, s, step)
    ensures CoreInv(c, s') && OnceInv(c, s')
    ensures Ledger(s'.disk) == Ledger(s.disk) + multiset(Added(c, s, step))
  {
    hide CoreInv, Ledger, Remembers, UniqueLedger, Rep, Accepted, TornEvents, Injective, Retrying;
    RememberingIsRetrying(c, s, step, s');
    StepStoresUnique(c, s, step, s');
    if step.Ingest? {
      IngestRemembers(c, s, s', step.now, step.batch);
    } else if step.Recover? {
      RecoverRemembers(c, s, s', step.now);
      assert Ledger(s'.disk) == Ledger(s.disk);
    } else if s'.Up? {
      assert s.Up? && s'.mem.dedupe == s.mem.dedupe;
      assert Ledger(s'.disk) == Ledger(s.disk) by { OnlyIngestAdds(c, s, step); }
    }
  }

  ghost predicate RememberingRun(c: Config, states: seq<State>, steps: seq<Step>)
    requires |states| == |steps| + 1
  {
    forall i :: 0 <= i < |steps| ==> Remembering(c, states[i], steps[i])
  }

  lemma InitialIsOnce(c: Config, s: State)
    requires Initial(s)
    ensures CoreInv(c, s) && OnceInv(c, s)
  {
    hide CoreInv, Ledger;
    InitialIsSound(c, s);
  }

  lemma RememberingPrefix(c: Config, states: seq<State>, steps: seq<Step>, n: nat)
    requires Run(c, states, steps) && RememberingRun(c, states, steps) && n < |steps|
    ensures Next(c, states[n], steps[n], states[n + 1]) && Remembering(c, states[n], steps[n])
  {
  }

  /** Exactly once: in every state of every run that forgets nothing, no id is stored twice across
      segments, in-flight messages and memtable, and the cache answers for exactly what is stored. */
  lemma {:induction false} RunStoresOnce(c: Config, states: seq<State>, steps: seq<Step>, n: nat)
    requires Injective(c.hashing)
    requires Run(c, states, steps) && RememberingRun(c, states, steps) && Initial(states[0]) && n <= |steps|
    ensures CoreInv(c, states[n]) && OnceInv(c, states[n])
    decreases n
  {
    hide Next, Remembering, CoreInv, OnceInv, Run, RememberingRun, Initial, Injective;
    assert |states| == |steps| + 1 by { RunLength(c, states, steps); }
    if n == 0 {
      InitialIsOnce(c, states[0]);
    } else {
      RunStoresOnce(c, states, steps, n - 1);
      RememberingPrefix(c, states, steps, n - 1);
      StepKeepsOnce(c, states[n - 1], steps[n - 1], states[n]);
    }
  }

  lemma PayloadHashEqual(h: Hashing, x: UsageEvent, e: UsageEvent)
    requires Injective(h)
    ensures PayloadHash(h, x) == PayloadHash(h, e) <==> x == e.(ingestedAtMs := x.ingestedAtMs)
  {
    assert x.(ingestedAtMs := 0) == e.(ingestedAtMs := 0) <==> x == e.(ingestedAtMs := x.ingestedAtMs);
  }

  /** `x` is a stored event with the id of `e`. */
  ghost predicate StoredAs(m: multiset<UsageEvent>, e: UsageEvent, x: UsageEvent)
  {
    x in m && x.eventId == e.eventId
  }

  /** What a client is told about an event is the truth about the ledger: new exactly when its id is
      not stored, duplicate exactly when the stored event equals it up to ingest time. */
  lemma ClassificationIsTruthful(c: Config, s: State, e: UsageEvent)
    requires Injective(c.hashing) && s.Up? && OnceInv(c, s)
    ensures var r := Classify(s.mem.dedupe.cache, c.hashing.idHash(e.eventId), PayloadHash(c.hashing, e));
            var m := Ledger(s.disk);
            && (r.NewEvent? <==> !exists x :: StoredAs(m, e, x))
            && (r.ExactDuplicate? <==> exists x :: StoredAs(m, e, x) && x == e.(ingestedAtMs := x.ingestedAtMs))
            && (r.PayloadConflict? <==> exists x :: StoredAs(m, e, x) && x != e.(ingestedAtMs := x.ingestedAtMs))
  {
    hide Ledger, Rep, PayloadHash;
    var h, cache, m := c.hashing, s.mem.dedupe.cache, Ledger(s.disk);
    if h.idHash(e.eventId) in cache {
      var x :| x in m && h.idHash(x.eventId) == h.idHash(e.eventId);
      assert Known(h, cache, x);
      assert StoredAs(m, e, x);
      PayloadHashEqual(h, x, e);
      hide Injective;
      assert forall y :: StoredAs(m, e, y) ==> y == x;
    } else {
      forall x | x in m ensures x.eventId != e.eventId {
        assert Known(h, cache, x);
      }
    }
  }
}
