/** How long the engine remembers an id, and exactly-once storage for clients that retry within that
    time. */
module RetryWindow {
  import opened Model
  import opened Sums
  import opened Dedupe
  import opened Wals
  import opened Ingest
  import opened Query
  import opened Engine
  import opened Durability
  import opened Catalog
  import opened Runs
  import opened RecoveryWindow
  import opened ExactlyOnce

  // One batch.

  lemma {:induction false} CommitAllKeepsRep(d: DedupeState, novel: seq<Classified>, now: int, capacity: nat,
                                             ttlMs: int)
    requires Rep(d)
    ensures Rep(CommitAll(d, novel, now, capacity, ttlMs))
    decreases |novel|
  {
    hide Rep, Commit;
    if novel != [] {
      var n := |novel| - 1;
      CommitAllKeepsRep(d, novel[..n], now, capacity, ttlMs);
      CommitKeepsRep(CommitAll(d, novel[..n], now, capacity, ttlMs), novel[n].idHash, novel[n].payloadHash, now,
                     capacity, ttlMs);
    }
  }

  /** A batch keeps an entry that has not expired and has room behind it for the whole batch. */
  lemma {:induction false} CommitAllHolds(
    d: DedupeState, novel: seq<Classified>, now: int, capacity: nat, ttlMs: int, h: Hash)
    requires Rep(d) && h in d.cache && now - ttlMs <= d.cache[h].firstSeenMs && Behind(d.order, h) + |novel| < capacity
    ensures EntryStays(d, CommitAll(d, novel, now, capacity, ttlMs), h, |novel|)
    decreases |novel|
  {
    hide Rep, Commit, Behind;
    if novel != [] {
      var n := |novel| - 1;
      CommitAllHolds(d, novel[..n], now, capacity, ttlMs, h);
      CommitHolds(CommitAll(d, novel[..n], now, capacity, ttlMs), novel[n].idHash, novel[n].payloadHash, now, capacity,
                  ttlMs, h);
    }
  }

  lemma {:induction false} CommitAllAvoids(d: DedupeState, novel: seq<Classified>, now: int, capacity: nat, ttlMs: int,
                                           h: Hash)
    requires Rep(d) && h !in d.cache && forall i :: 0 <= i < |novel| ==> novel[i].idHash != h
    ensures h !in CommitAll(d, novel, now, capacity, ttlMs).cache
    decreases |novel|
  {
    hide Rep, Commit;
    if novel != [] {
      var n := |novel| - 1;
      CommitAllAvoids(d, novel[..n], now, capacity, ttlMs, h);
      CommitAllKeepsRep(d, novel[..n], now, capacity, ttlMs);
      CommitAvoids(CommitAll(d, novel[..n], now, capacity, ttlMs), novel[n].idHash, novel[n].payloadHash, now,
                   capacity, ttlMs, h);
    }
  }

  lemma CommitAvoids(d: DedupeState, g: Hash, p: Hash, now: int, capacity: nat, ttlMs: int, h: Hash)
    requires Rep(d) && h !in d.cache && h != g
    ensures h !in Commit(d, g, p, now, capacity, ttlMs).cache
  {
    hide Rep, Evict, Trim;
    EvictKeepsUnexpired(d, now - ttlMs);
    var live := Evict(d, now - ttlMs);
    if g !in live.cache {
      InsertKnownKeepsRep(live, g, p, now);
      var full := InsertKnown(live, g, p, now);
      assert full.order != [];
      TrimKeepsNewest(full, capacity);
    }
  }

  /** A new event of a batch that fits the cache is registered with the batch's time. */
  lemma {:induction false} CommitAllRegisters(
    d: DedupeState, novel: seq<Classified>, now: int, capacity: nat, ttlMs: int, i: nat)
    requires Rep(d) && DistinctIds(novel) && i < |novel| <= capacity && 0 <= ttlMs && novel[i].idHash !in d.cache
    ensures var r := CommitAll(d, novel, now, capacity, ttlMs);
            var h := novel[i].idHash;
            Rep(r) && h in r.cache && r.cache[h].firstSeenMs == now && Behind(r.order, h) < |novel| - i
    decreases |novel|
  {
    hide Rep, Commit, Behind;
    var n := |novel| - 1;
    var front, last, h := novel[..n], novel[n], novel[i].idHash;
    var q := CommitAll(d, front, now, capacity, ttlMs);
    if i < n {
      CommitAllRegisters(d, front, now, capacity, ttlMs, i);
      CommitHolds(q, last.idHash, last.payloadHash, now, capacity, ttlMs, h);
    } else {
      CommitAllKeepsRep(d, front, now, capacity, ttlMs);
      CommitAllAvoids(d, front, now, capacity, ttlMs, h);
      CommitRegisters(q, h, last.payloadHash, now, capacity, ttlMs);
    }
  }

  // Stretches without a restart.

  lemma StepKeepsRep(c: Config, s: State, step: Step, s': State)
    requires Next(c, s, step, s') && (s.Up? ==> Rep(s.mem.dedupe))
    ensures s'.Up? ==> Rep(s'.mem.dedupe)
  {
    hide Rep, Triaged, FlushedAs, FreshListing, CompactionPlan, NeedsForceDrain, IsTickTarget, NewRollups, TickStart,
      Filter, Grows, RegisterAll, RecentEvents, ReplayRange;
    if step.Ingest? {
      CommitAllKeepsRep(s.mem.dedupe, Triaged(c, s, step.now, step.batch).novel, step.now, c.dedupeCapacity, c.ttlMs);
    } else if step.Recover? {
      RecoveredRep(c, s, s', step.now);
    }
  }

  lemma RecoveredRep(c: Config, s: State, s': State, now: int)
    requires RecoverStep(c, s, s', now)
    ensures Rep(s'.mem.dedupe)
  {
    hide RegisterAll, RecentEvents, ReplayRange;
    var replayed := s'.mem.memtable;
    RegisterAllKeeps(c.hashing, EMPTY_DEDUPE, replayed);
    RegisterAllKeeps(c.hashing, RegisterAll(c.hashing, EMPTY_DEDUPE, replayed),
                     RecentEvents(s.disk.manifest.rawSegments, s.disk.segs, RecoveryCutoff(now)));
  }

  lemma {:induction false} RunKeepsRep(c: Config, states: seq<State>, steps: seq<Step>, n: nat)
    requires Run(c, states, steps) && n <= |steps| && states[0].Down?
    ensures states[n].Up? ==> Rep(states[n].mem.dedupe)
    decreases n
  {
    hide Next, Rep, Run;
    assert |states| == |steps| + 1 by { RunLength(c, states, steps); }
    if n > 0 {
      RunKeepsRep(c, states, steps, n - 1);
      StepOf(c, states, steps, n - 1);
      StepKeepsRep(c, states[n - 1], steps[n - 1], states[n]);
    }
  }

  lemma StepOf(c: Config, states: seq<State>, steps: seq<Step>, n: nat)
    requires Run(c, states, steps) && n < |steps|
    ensures Next(c, states[n], steps[n], states[n + 1])
  {
  }

  lemma {:induction false} ClockMoves(c: Config, states: seq<State>, steps: seq<Step>, i: nat, j: nat)
    requires Run(c, states, steps) && i <= j <= |steps|
    ensures states[i].clock <= states[j].clock
    decreases j - i
  {
    hide Run;
    assert |states| == |steps| + 1 by { RunLength(c, states, steps); }
    if i < j {
      ClockMoves(c, states, steps, i, j - 1);
      assert states[j - 1].clock <= states[j].clock by { StepOf(c, states, steps, j - 1); }
    }
  }

  /** The engine stays up from state `i` through state `j`. */
  ghost predicate NoRestart(states: seq<State>, i: nat, j: nat)
  {
    i <= j < |states| && forall k :: i <= k <= j ==> states[k].Up?
  }

  /** How many ids the steps `i` up to `j` register. */
  ghost function Registered(c: Config, states: seq<State>, steps: seq<Step>, i: nat, j: nat): nat
    requires |states| == |steps| + 1 && i <= j <= |steps|
    decreases j
  {
    if i == j then 0
    else
      Registered(c, states, steps, i, j - 1)
      + if steps[j - 1].Ingest? && states[j - 1].Up? then
          |Accepted(c, states[j - 1], steps[j - 1].now, steps[j - 1].batch)| else 0
  }

  lemma UpStepHolds(c: Config, s: State, step: Step, s': State, h: Hash)
    requires Next(c, s, step, s') && s.Up? && s'.Up? && Rep(s.mem.dedupe) && h in s.mem.dedupe.cache
    requires s'.clock - s.mem.dedupe.cache[h].firstSeenMs <= c.ttlMs
    requires var more := if step.Ingest? then |Accepted(c, s, step.now, step.batch)| else 0;
             Behind(s.mem.dedupe.order, h) + more < c.dedupeCapacity
    ensures var more := if step.Ingest? then |Accepted(c, s, step.now, step.batch)| else 0;
            EntryStays(s.mem.dedupe, s'.mem.dedupe, h, more)
  {
    hide Rep, Triaged, FlushedAs, FreshListing, CompactionPlan, NeedsForceDrain, IsTickTarget, NewRollups, TickStart,
      Filter, Grows, RecoveredDedupe, Behind, CommitAll;
    if step.Ingest? {
      var novel := Triaged(c, s, step.now, step.batch).novel;
      CommitAllHolds(s.mem.dedupe, novel, step.now, c.dedupeCapacity, c.ttlMs, h);
    }
  }

  /** Over any stretch of a run without a restart, an id first seen at time t is still cached, with the
      same payload, while no more than the TTL has passed since t and fewer ids than the capacity have
      been registered after it. */
  lemma {:induction false} StretchKeeps(c: Config, states: seq<State>, steps: seq<Step>, i: nat, j: nat, h: Hash)
    requires Run(c, states, steps) && i <= j <= |steps| && NoRestart(states, i, j)
    requires Rep(states[i].mem.dedupe) && h in states[i].mem.dedupe.cache
    requires states[j].clock - states[i].mem.dedupe.cache[h].firstSeenMs <= c.ttlMs
    requires |states| == |steps| + 1
    requires Behind(states[i].mem.dedupe.order, h) + Registered(c, states, steps, i, j) < c.dedupeCapacity
    ensures EntryStays(states[i].mem.dedupe, states[j].mem.dedupe, h, Registered(c, states, steps, i, j))
    decreases j - i
  {
    hide Run, Next, Rep, Behind, Accepted;
    if i < j {
      assert states[j - 1].clock <= states[j].clock by { ClockMoves(c, states, steps, j - 1, j); }
      StretchKeeps(c, states, steps, i, j - 1, h);
      StepOf(c, states, steps, j - 1);
      UpStepHolds(c, states[j - 1], steps[j - 1], states[j], h);
    }
  }

  // What recovery registers.

  ghost predicate DistinctHashes(h: Hashing, es: seq<UsageEvent>)
  {
    forall i, j :: 0 <= i < j < |es| ==> h.idHash(es[i].eventId) != h.idHash(es[j].eventId)
  }

  /** With distinct ids, recovery queues the events in the order it meets them. */
  lemma {:induction false} RegisterAllSeen(h: Hashing, es: seq<UsageEvent>, i: nat)
    requires DistinctHashes(h, es) && i < |es|
    ensures var r := RegisterAll(h, EMPTY_DEDUPE, es);
            var k := h.idHash(es[i].eventId);
            Rep(r) && k in r.cache && r.cache[k].firstSeenMs == es[i].ingestedAtMs && Behind(r.order, k) == |es| - 1 - i
    decreases |es|
  {
    hide Rep, Behind, PayloadHash, InsertKnown;
    var n := |es| - 1;
    var front, last, k := es[..n], es[n], h.idHash(es[i].eventId);
    var q := RegisterAll(h, EMPTY_DEDUPE, front);
    EmptyRemembers(h);
    LastUnregistered(h, es);
    RegisterAllKeeps(h, EMPTY_DEDUPE, front);
    InsertKnownKeepsRep(q, h.idHash(last.eventId), PayloadHash(h, last), last.ingestedAtMs);
    InsertKnownLast(q, h.idHash(last.eventId), PayloadHash(h, last), last.ingestedAtMs);
    if i < n {
      RegisterAllSeen(h, front, i);
      HashesOf(q, k);
      BehindSnoc(q.order, k, (h.idHash(last.eventId), last.ingestedAtMs));
    } else {
      HashesOf(q, k);
      BehindLast(q.order, (k, last.ingestedAtMs));
    }
  }

  lemma LastUnregistered(h: Hashing, es: seq<UsageEvent>)
    requires DistinctHashes(h, es) && es != []
    ensures h.idHash(es[|es| - 1].eventId) !in RegisterAll(h, EMPTY_DEDUPE, es[..|es| - 1]).cache
  {
    hide RegisterAll;
    EmptyRemembers(h);
    RegisterAllKeeps(h, EMPTY_DEDUPE, es[..|es| - 1]);
  }

  lemma InsertKnownLast(d: DedupeState, k: Hash, p: Hash, seenMs: int)
    requires k !in d.cache
    ensures InsertKnown(d, k, p, seenMs).order == d.order + [(k, seenMs)]
    ensures InsertKnown(d, k, p, seenMs).cache[k].firstSeenMs == seenMs
  {
  }

  lemma HashesOf(d: DedupeState, k: Hash)
    requires Rep(d)
    ensures k in d.cache <==> k in Hashes(d.order)
  {
  }

  lemma {:induction false} RegisterAllJoin(h: Hashing, d: DedupeState, a: seq<UsageEvent>, b: seq<UsageEvent>)
    ensures RegisterAll(h, d, a + b) == RegisterAll(h, RegisterAll(h, d, a), b)
    decreases |b|
  {
    hide InsertKnown;
    if b == [] {
      assert a + b == a;
    } else {
      RegisterAllJoin(h, d, a, b[..|b| - 1]);
      assert (a + b)[..|a + b| - 1] == a + b[..|b| - 1];
    }
  }

  /** The events recovery registers, in order: the replayed log, then the segments that reach into the window. */
  ghost function Recovered(s: State, s': State, now: int): seq<UsageEvent>
    requires s'.Up?
  {
    s'.mem.memtable + WindowEvents(s.disk.manifest.rawSegments, s.disk.segs, now)
  }

  lemma RecoveredAreRegistered(c: Config, s: State, s': State, now: int)
    requires RecoverStep(c, s, s', now) && WellStored(c, s.disk)
    ensures s'.mem.dedupe == RegisterAll(c.hashing, EMPTY_DEDUPE, Recovered(s, s', now))
  {
    hide RegisterAll, RecentEvents, WindowEvents, ReplayRange, RecoveryCutoff, WellStored;
    RecentIsWindow(c, s.disk, now);
    RegisterAllJoin(c.hashing, EMPTY_DEDUPE, s'.mem.memtable,
                    WindowEvents(s.disk.manifest.rawSegments, s.disk.segs, now));
  }

  lemma RecoveredAreDistinct(c: Config, s: State, s': State, now: int)
    requires RecoverStep(c, s, s', now) && WellStored(c, s.disk) && UniqueLedger(Ledger(s.disk)) && Injective(c.hashing)
    ensures DistinctHashes(c.hashing, Recovered(s, s', now))
    ensures s'.mem.dedupe == RegisterAll(c.hashing, EMPTY_DEDUPE, Recovered(s, s', now))
  {
    hide RegisterAll, RecentEvents, WindowEvents, UniqueLedger, AllEvents, Unsealed, Coupled, ReplayRange, WellStored;
    var recent := WindowEvents(s.disk.manifest.rawSegments, s.disk.segs, now);
    RecoverKeepsCoupling(c, s, s', now);
    RecoveredAreRegistered(c, s, s', now);
    WindowWithin(s.disk.manifest.rawSegments, s.disk.segs, now);
    var all := s'.mem.memtable + recent;
    assert multiset(all) == multiset(s'.mem.memtable) + multiset(recent);
    assert multiset(all) <= Ledger(s.disk);
    UniqueSubset(multiset(all), Ledger(s.disk));
    UniqueLedgerGivesUniqueIds(all);
  }

  // Clients that retry in time.

  /** `x` was accepted by step `r`; since then the engine has not restarted, no more than the TTL has
      passed, and the ids registered with and after it fit the cache. */
  ghost predicate AckedInTime(c: Config, states: seq<State>, steps: seq<Step>, r: nat, n: nat, now: int, x: UsageEvent)
    requires |states| == |steps| + 1 && r < n <= |steps|
  {
    && steps[r].Ingest? && states[r].Up? && NoRestart(states, r + 1, n)
    && x in Accepted(c, states[r], steps[r].now, steps[r].batch)
    && now - steps[r].now <= c.ttlMs
    && |Accepted(c, states[r], steps[r].now, steps[r].batch)|
        + Registered(c, states, steps, r + 1, n) <= c.dedupeCapacity
  }

  /** `x` was registered by the recovery at step `r`; since then the engine has not restarted, no more
      than the TTL has passed since `x` was ingested, and the ids registered after it fit the cache. */
  ghost predicate RecoveredInTime(c: Config, states: seq<State>, steps: seq<Step>, r: nat, n: nat, now: int,
                                  x: UsageEvent)
    requires |states| == |steps| + 1 && r < n <= |steps|
  {
    && steps[r].Recover? && NoRestart(states, r + 1, n) && now - x.ingestedAtMs <= c.ttlMs
    && var all := Recovered(states[r], states[r + 1], steps[r].now);
       exists i :: 0 <= i < |all| && all[i] == x
           && |all| - i + Registered(c, states, steps, r + 1, n) <= c.dedupeCapacity
  }

  /** The engine can still know `x` before step `n`, which runs at `now`. */
  ghost predicate InTime(c: Config, states: seq<State>, steps: seq<Step>, n: nat, now: int, x: UsageEvent)
    requires |states| == |steps| + 1 && n < |steps|
  {
    exists r: nat :: r < n && (AckedInTime(c, states, steps, r, n, now, x)
                               || RecoveredInTime(c, states, steps, r, n, now, x))
  }

  /** Every id that step `n` resends is resent in time, and nothing is appended to a torn file. */
  ghost predicate RetriesInTime(c: Config, states: seq<State>, steps: seq<Step>, n: nat)
    requires |states| == |steps| + 1 && n < |steps|
  {
    match steps[n]
    case Ingest(now, batch) => AppendsToCleanFile(c, states[n], now, batch)
        && ResentInTime(c, states, steps, n, now, batch)
    case IngestCrash(now, batch, _, _) => AppendsToCleanFile(c, states[n], now, batch)
        && ResentInTime(c, states, steps, n, now, batch)
    case _ => true
  }

  ghost predicate ResentInTime(c: Config, states: seq<State>, steps: seq<Step>, n: nat, now: int,
                               batch: seq<UsageEvent>)
    requires |states| == |steps| + 1 && n < |steps|
  {
    forall e, x :: e in batch && x in Ledger(states[n].disk) && x.eventId == e.eventId ==>
        InTime(c, states, steps, n, now, x)
  }

  lemma AckedIsKnown(c: Config, states: seq<State>, steps: seq<Step>, r: nat, n: nat, now: int, x: UsageEvent)
    requires Run(c, states, steps) && |states| == |steps| + 1 && r < n <= |steps| && states[0].Down? && 0 <= c.ttlMs
    requires AckedInTime(c, states, steps, r, n, now, x) && states[n].clock <= now
    ensures c.hashing.idHash(x.eventId) in states[n].mem.dedupe.cache
  {
    hide Run, Next, Rep, Behind, Accepted, Triaged, CommitAll, Registered, IngestStep;
    var s, s', t, batch := states[r], states[r + 1], steps[r].now, steps[r].batch;
    var es := Accepted(c, s, t, batch);
    var i :| 0 <= i < |es| && es[i] == x;
    StepOf(c, states, steps, r);
    RunKeepsRep(c, states, steps, r);
    IngestRegisters(c, s, s', t, batch, i);
    StretchKeeps(c, states, steps, r + 1, n, c.hashing.idHash(x.eventId));
  }

  lemma IngestRegisters(c: Config, s: State, s': State, now: int, batch: seq<UsageEvent>, i: nat)
    requires Next(c, s, Ingest(now, batch), s') && s.Up? && Rep(s.mem.dedupe) && 0 <= c.ttlMs
    requires i < |Accepted(c, s, now, batch)| <= c.dedupeCapacity
    ensures var h := c.hashing.idHash(Accepted(c, s, now, batch)[i].eventId);
            && s'.Up? && Rep(s'.mem.dedupe) && h in s'.mem.dedupe.cache && s'.mem.dedupe.cache[h].firstSeenMs == now
            && Behind(s'.mem.dedupe.order, h) < |Accepted(c, s, now, batch)| - i
  {
    hide Rep, Behind, TriageBatch, Admit, CommitAll;
    var novel := Triaged(c, s, now, batch).novel;
    AcceptedSound(c, s, now, batch);
    TriageSound(s.mem.dedupe.cache, HashedAll(c.hashing, Admit(c.calendar, s.disk.manifest.closedPeriods, now, batch)));
    assert novel[i].idHash !in s.mem.dedupe.cache;
    CommitAllRegisters(s.mem.dedupe, novel, now, c.dedupeCapacity, c.ttlMs, i);
  }

  lemma RecoveredIsKnown(c: Config, states: seq<State>, steps: seq<Step>, r: nat, n: nat, now: int, x: UsageEvent)
    requires Run(c, states, steps) && |states| == |steps| + 1 && r < n <= |steps| && Injective(c.hashing)
    requires RecoveredInTime(c, states, steps, r, n, now, x) && states[n].clock <= now
             && CoreInv(c, states[r]) && UniqueLedger(Ledger(states[r].disk))
    ensures c.hashing.idHash(x.eventId) in states[n].mem.dedupe.cache
  {
    hide Run, Rep, Behind, RegisterAll, Registered, Ledger, UniqueLedger, Injective, RecoverStep, DistinctHashes,
      Recovered, Next, CoreInv, WellStored;
    var s, s', t := states[r], states[r + 1], steps[r].now;
    assert RecoverStep(c, s, s', t) by { StepOf(c, states, steps, r); RecoverIs(c, s, steps[r], s'); }
    var all := Recovered(s, s', t);
    CoreIsWellStored(c, s);
    RecoveredAreDistinct(c, s, s', t);
    var i :| 0 <= i < |all| && all[i] == x && |all| - i + Registered(c, states, steps, r + 1, n) <= c.dedupeCapacity;
    RegisterAllSeen(c.hashing, all, i);
    StretchKeeps(c, states, steps, r + 1, n, c.hashing.idHash(x.eventId));
  }

  lemma RecoverIs(c: Config, s: State, step: Step, s': State)
    requires Next(c, s, step, s') && step.Recover?
    ensures RecoverStep(c, s, s', step.now)
  {
  }

  lemma InTimeIsKnown(c: Config, states: seq<State>, steps: seq<Step>, n: nat, now: int, x: UsageEvent)
    requires Run(c, states, steps) && |states| == |steps| + 1 && n < |steps| && states[0].Down?
    requires Injective(c.hashing) && 0 <= c.ttlMs && InTime(c, states, steps, n, now, x) && states[n].clock <= now
    requires forall r :: 0 <= r < n ==> CoreInv(c, states[r]) && UniqueLedger(Ledger(states[r].disk))
    ensures states[n].Up? && c.hashing.idHash(x.eventId) in states[n].mem.dedupe.cache
  {
    hide Run, CoreInv, UniqueLedger, Ledger, Injective;
    var r: nat :| r < n && (AckedInTime(c, states, steps, r, n, now, x)
                            || RecoveredInTime(c, states, steps, r, n, now, x));
    if AckedInTime(c, states, steps, r, n, now, x) {
      AckedIsKnown(c, states, steps, r, n, now, x);
    } else {
      RecoveredIsKnown(c, states, steps, r, n, now, x);
    }
  }

  lemma TimelyRetryIsKnown(c: Config, states: seq<State>, steps: seq<Step>, n: nat)
    requires Run(c, states, steps) && |states| == |steps| + 1 && n < |steps| && states[0].Down?
    requires Injective(c.hashing) && 0 <= c.ttlMs && RetriesInTime(c, states, steps, n)
    requires forall r :: 0 <= r < n ==> CoreInv(c, states[r]) && UniqueLedger(Ledger(states[r].disk))
    ensures Retrying(c, states[n], steps[n])
  {
    hide Run, CoreInv, UniqueLedger, Ledger, Injective, InTime, IngestStep, IngestCrashStep, AppendsToCleanFile;
    if steps[n].Ingest? || steps[n].IngestCrash? {
      assert states[n].Up? && states[n].clock <= steps[n].now by {
        StepOf(c, states, steps, n);
        IngestTime(c, states[n], steps[n], states[n + 1]);
      }
      forall e, x | e in steps[n].batch && x in Ledger(states[n].disk) && x.eventId == e.eventId
        ensures c.hashing.idHash(e.eventId) in states[n].mem.dedupe.cache
      {
        InTimeIsKnown(c, states, steps, n, steps[n].now, x);
      }
    }
  }

  lemma IngestTime(c: Config, s: State, step: Step, s': State)
    requires Next(c, s, step, s') && (step.Ingest? || step.IngestCrash?)
    ensures s.Up? && s.clock <= step.now
  {
  }

  ghost predicate TimelyRetries(c: Config, states: seq<State>, steps: seq<Step>)
    requires |states| == |steps| + 1
  {
    forall n :: 0 <= n < |steps| ==> RetriesInTime(c, states, steps, n)
  }

  /** Exactly once for clients that retry in time: from an empty database, whatever has been evicted or
      left out of recovery, and wherever the crashes fall, no id is ever stored twice. */
  lemma {:induction false} TimelyRetriesStoreOnce(c: Config, states: seq<State>, steps: seq<Step>, n: nat)
    requires Run(c, states, steps) && |states| == |steps| + 1 && TimelyRetries(c, states, steps) && Initial(states[0])
    requires Injective(c.hashing) && 0 <= c.ttlMs && n <= |steps|
    ensures forall r :: 0 <= r <= n ==> CoreInv(c, states[r]) && UniqueLedger(Ledger(states[r].disk))
    decreases n
  {
    hide Run, Next, Retrying, CoreInv, UniqueLedger, Ledger, Injective, RetriesInTime;
    if n == 0 {
      assert CoreInv(c, states[0]) && UniqueLedger(Ledger(states[0].disk)) by { InitialIsOnce(c, states[0]); }
    } else {
      TimelyRetriesStoreOnce(c, states, steps, n - 1);
      TimelyRetryIsKnown(c, states, steps, n - 1);
      StepOf(c, states, steps, n - 1);
      StepStoresUnique(c, states[n - 1], steps[n - 1], states[n]);
    }
  }
}
