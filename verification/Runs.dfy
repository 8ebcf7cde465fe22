/** Conservation over whole runs: whatever happens, the disk accounts for every acknowledged event,
    once per acknowledgement. */
module Runs {
  import opened Model
  import opened Wals
  import opened Ingest
  import opened Sorting
  import opened Engine
  import opened Durability
  import opened Catalog

  ghost predicate Positive(m: multiset<UsageEvent>)
  {
    forall e :: e in m ==> 0 < e.timestampMs
  }

  /** The manifest is truthful, log and memory agree, and every event has a positive time. */
  ghost predicate CoreInv(c: Config, s: State)
  {
    && CatalogOk(c, s.disk)
    && (s.Up? ==> Coupled(s.disk, s.mem))
    && Positive(Ledger(s.disk))
  }

  /** The side conditions under which nothing is lost: no append to a torn file, and no compaction of
      inputs that repeat an id. */
  ghost predicate Careful(c: Config, s: State, step: Step)
  {
    match step
    case Ingest(now, batch) => AppendsToCleanFile(c, s, now, batch)
    case IngestCrash(now, batch, _, _) => AppendsToCleanFile(c, s, now, batch)
    case Compact(_, inputs, _, _) => UniqueIds(ReadSegments(s.disk.segs, inputs))
    case _ => true
  }

  /** The events a step makes durable. */
  ghost function Added(c: Config, s: State, step: Step): seq<UsageEvent>
  {
    match step
    case Ingest(now, batch) => if s.Up? then Accepted(c, s, now, batch) else []
    case IngestCrash(now, batch, whole, tail) =>
      if s.Up? && whole <= |Accepted(c, s, now, batch)| then TornEvents(Accepted(c, s, now, batch), whole, tail) else []
    case _ => []
  }

  /** The events a step acknowledges to its client. */
  ghost function Acked(c: Config, s: State, step: Step): seq<UsageEvent>
  {
    if step.Ingest? then Added(c, s, step) else []
  }

  lemma AcceptedSound(c: Config, s: State, now: int, batch: seq<UsageEvent>)
    requires s.Up?
    ensures forall e :: e in Accepted(c, s, now, batch) ==>
              && Admissible(c.calendar, s.disk.manifest.closedPeriods, e) && 0 < e.timestampMs
              && c.hashing.idHash(e.eventId) !in s.mem.dedupe.cache
    ensures forall i :: 0 <= i < |Accepted(c, s, now, batch)| ==>
              Triaged(c, s, now, batch).novel[i] == Hashed(c.hashing, Accepted(c, s, now, batch)[i])
  {
    hide Admit, TriageBatch, Admissible;
    var admitted := Admit(c.calendar, s.disk.manifest.closedPeriods, now, batch);
    var cs := HashedAll(c.hashing, admitted);
    var es := Accepted(c, s, now, batch);
    AdmitSound(c.calendar, s.disk.manifest.closedPeriods, now, batch);
    TriageSound(s.mem.dedupe.cache, cs);
    var novel := Triaged(c, s, now, batch).novel;
    forall i | 0 <= i < |es| ensures novel[i] == Hashed(c.hashing, es[i]) && es[i] in admitted {
      assert novel[i] in cs;
      var k :| 0 <= k < |cs| && cs[k] == novel[i];
      assert admitted[k] in admitted;
    }
  }

  lemma TornEventsSubset(batch: seq<UsageEvent>, whole: nat, tail: WalTail)
    requires TornAppend(batch, whole, tail)
    ensures forall e :: e in TornEvents(batch, whole, tail) ==> e in batch
  {
  }

  lemma AddedPositive(c: Config, s: State, step: Step, s': State)
    requires Next(c, s, step, s')
    ensures Positive(multiset(Added(c, s, step)))
  {
    hide TriageBatch, Admit, TornEvents;
    if step.Ingest? {
      AcceptedSound(c, s, step.now, step.batch);
    } else if step.IngestCrash? {
      AcceptedSound(c, s, step.now, step.batch);
      TornEventsSubset(Accepted(c, s, step.now, step.batch), step.whole, step.tail);
    }
  }

  /** Every step keeps the catalogue truthful. */
  lemma StepKeepsCatalog(c: Config, s: State, step: Step, s': State)
    requires CatalogOk(c, s.disk) && Next(c, s, step, s')
    ensures CatalogOk(c, s'.disk)
  {
    hide CatalogOk, Raw, CommitFlushStep, TickCommitStep, RebuildStep, CompactStep, DeleteReplacedStep, SweepStep,
      OrphanStep;
    match step
    case CommitFlush(metas) => FlushKeepsCatalog(c, s, s', metas);
    case Orphans => OrphansKeepCatalog(c, s, s');
    case Tick(now) =>
      if target, metas :| TickCommitStep(c, s, s', now, target, metas) {
        TickKeepsCatalog(c, s, s', now, target, metas);
      } else {
        UnrelatedKeepsCatalog(c, s.disk, s'.disk);
      }
    case Rebuild(fromMs, toMs) => RebuildKeepsCatalog(c, s, s', fromMs, toMs);
    case Compact(now, ids, bucket, outputId) => CompactKeepsCatalog(c, s, s', now, ids, bucket, outputId);
    case DeleteReplaced(now, ids) => DeletionKeepsCatalog(c, s, s', now, ids);
    case Sweep(now) => SweepKeepsCatalog(c, s, s', now);
    case _ => UnrelatedKeepsCatalog(c, s.disk, s'.disk);
  }

  /** What a step does to the listed events. */
  lemma StepChangesRaw(c: Config, s: State, step: Step, s': State)
    requires CatalogOk(c, s.disk) && Next(c, s, step, s') && Careful(c, s, step)
    ensures Raw(s'.disk) == Raw(s.disk)
              + if step.CommitFlush? && s.Up? && s.mem.inflight != []
                then multiset(s.mem.inflight[0].events) else multiset{}
  {
    hide CatalogOk, Raw, CommitFlushStep, TickCommitStep, RebuildStep, CompactStep, DeleteReplacedStep, SweepStep,
      OrphanStep;
    match step
    case CommitFlush(metas) =>
      CommitNeedsMessage(c, s, step, s');
      FlushKeepsCatalog(c, s, s', metas);
    case Orphans => OrphansKeepCatalog(c, s, s');
    case Tick(now) =>
      if target, metas :| TickCommitStep(c, s, s', now, target, metas) {
        TickKeepsCatalog(c, s, s', now, target, metas);
      } else {
        UnrelatedKeepsCatalog(c, s.disk, s'.disk);
      }
    case Rebuild(fromMs, toMs) => RebuildKeepsCatalog(c, s, s', fromMs, toMs);
    case Compact(now, ids, bucket, outputId) => CompactConserves(c, s, s', now, ids, bucket, outputId);
    case DeleteReplaced(now, ids) => DeletionKeepsCatalog(c, s, s', now, ids);
    case Sweep(now) => SweepKeepsCatalog(c, s, s', now);
    case _ => UnrelatedKeepsCatalog(c, s.disk, s'.disk);
  }

  /** What a step does to the log. */
  lemma StepKeepsCoupling(c: Config, s: State, step: Step, s': State)
    requires Next(c, s, step, s') && Careful(c, s, step) && (s.Up? ==> Coupled(s.disk, s.mem))
    ensures s'.Up? ==> Coupled(s'.disk, s'.mem)
    ensures if step.CommitFlush? && s.Up? && s.mem.inflight != []
            then Unsealed(s.disk) == s.mem.inflight[0].events + Unsealed(s'.disk)
            else Unsealed(s'.disk) == Unsealed(s.disk) + Added(c, s, step)
  {
    hide Coupled, Unsealed, TriageBatch;
    match step
    case Ingest(now, batch) => IngestKeepsCoupling(c, s, s', now, batch);
    case IngestCrash(now, batch, whole, tail) => IngestCrashAccounts(c, s, s', now, batch, whole, tail);
    case Drain => DrainKeepsCoupling(s, s');
    case CommitFlush(metas) => FlushKeepsCoupling(c, s, s', metas);
    case DeleteWal(ids) => DeleteWalKeepsCoupling(s, s', ids);
    case Recover(now) => RecoverKeepsCoupling(c, s, s', now);
    case Tick(now) => TickKeepsCoupling(c, s, s', now);
    case Crash => assert s'.disk == s.disk;
    case _ => UntouchedKeepsCoupling(s, s');
  }

  lemma TickKeepsCoupling(c: Config, s: State, s': State, now: int)
    requires TickStep(c, s, s', now) && Coupled(s.disk, s.mem)
    ensures Coupled(s'.disk, s'.mem) && Unsealed(s'.disk) == Unsealed(s.disk)
  {
    hide Coupled, Unsealed;
    if !FlushInFlight(s) && NeedsForceDrain(c, s, now) {
      DrainKeepsCoupling(s, s');
    } else {
      UntouchedKeepsCoupling(s, s');
    }
  }

  /** One step conserves: the ledger gains exactly what the step made durable. */
  lemma StepConserves(c: Config, s: State, step: Step, s': State)
    requires CoreInv(c, s) && Next(c, s, step, s') && Careful(c, s, step)
    ensures CoreInv(c, s')
    ensures Ledger(s'.disk) == Ledger(s.disk) + multiset(Added(c, s, step))
  {
    hide CatalogOk, Raw, Unsealed, Coupled, Next, Careful, Added, Positive;
    StepKeepsCatalog(c, s, step, s');
    StepChangesRaw(c, s, step, s');
    StepKeepsCoupling(c, s, step, s');
    assert Ledger(s'.disk) == Ledger(s.disk) + multiset(Added(c, s, step)) by {
      if step.CommitFlush? {
        assert Added(c, s, step) == [] by { OnlyIngestAdds(c, s, step); }
        CommitNeedsMessage(c, s, step, s');
      }
    }
    AddedPositive(c, s, step, s');
    PositiveUnion(Ledger(s.disk), multiset(Added(c, s, step)));
  }

  lemma PositiveUnion(m: multiset<UsageEvent>, n: multiset<UsageEvent>)
    requires Positive(m) && Positive(n)
    ensures Positive(m + n)
  {
  }

  lemma OnlyIngestAdds(c: Config, s: State, step: Step)
    requires !step.Ingest? && !step.IngestCrash?
    ensures Added(c, s, step) == []
  {
  }

  lemma CommitNeedsMessage(c: Config, s: State, step: Step, s': State)
    requires Next(c, s, step, s') && step.CommitFlush?
    ensures s.Up? && s.mem.inflight != []
  {
  }

  // Whole runs.

  ghost predicate CarefulRun(c: Config, states: seq<State>, steps: seq<Step>)
    requires |states| == |steps| + 1
  {
    forall i :: 0 <= i < |steps| ==> Careful(c, states[i], steps[i])
  }

  /** All events made durable by a run, with repetitions. */
  ghost function AllAdded(c: Config, states: seq<State>, steps: seq<Step>): multiset<UsageEvent>
    requires |states| == |steps| + 1
  {
    if steps == [] then multiset{}
    else
      var n := |steps| - 1;
      AllAdded(c, states[..n + 1], steps[..n]) + multiset(Added(c, states[n], steps[n]))
  }

  ghost function AllAcked(c: Config, states: seq<State>, steps: seq<Step>): multiset<UsageEvent>
    requires |states| == |steps| + 1
  {
    if steps == [] then multiset{}
    else
      var n := |steps| - 1;
      AllAcked(c, states[..n + 1], steps[..n]) + multiset(Acked(c, states[n], steps[n]))
  }

  lemma RunPrefix(c: Config, states: seq<State>, steps: seq<Step>)
    requires Run(c, states, steps) && CarefulRun(c, states, steps) && steps != []
    ensures var n := |steps| - 1;
            && Run(c, states[..n + 1], steps[..n]) && CarefulRun(c, states[..n + 1], steps[..n])
            && Next(c, states[n], steps[n], states[n + 1]) && Careful(c, states[n], steps[n])
  {
    hide Next, Careful;
  }

  /** However a run interleaves ingest, flush, rollup, compaction, crashes and recoveries, the ledger
      at its end is the ledger at its start plus everything made durable in between. */
  lemma {:induction false} RunConserves(c: Config, states: seq<State>, steps: seq<Step>)
    requires Run(c, states, steps) && CarefulRun(c, states, steps) && CoreInv(c, states[0])
    ensures CoreInv(c, states[|steps|])
    ensures Ledger(states[|steps|].disk) == Ledger(states[0].disk) + AllAdded(c, states, steps)
    ensures AllAcked(c, states, steps) <= AllAdded(c, states, steps)
    decreases |steps|
  {
    hide Next, Careful, CoreInv, Ledger, Added, Run, CarefulRun;
    assert |states| == |steps| + 1 by { RunLength(c, states, steps); }
    if steps != [] {
      var n := |steps| - 1;
      RunPrefix(c, states, steps);
      RunConserves(c, states[..n + 1], steps[..n]);
      StepConserves(c, states[n], steps[n], states[n + 1]);
    }
  }

  lemma RunLength(c: Config, states: seq<State>, steps: seq<Step>)
    requires Run(c, states, steps)
    ensures |states| == |steps| + 1
  {
  }

  lemma InitialIsSound(c: Config, s: State)
    requires Initial(s)
    ensures CoreInv(c, s) && Ledger(s.disk) == multiset{}
  {
    hide ReplayRange;
    ReplayBeyond(s.disk.wal, 0, 0, MaxOf(s.disk.wal.Keys));
    EmptyReplay(s.disk.wal, 0);
  }

  lemma EmptyReplay(wal: WalDir, lo: nat)
    ensures ReplayRange(wal, lo, lo) == []
  {
  }

  /** Crash durability.  Start from an empty database and run anything; whenever the engine is up
      with an empty flush queue (in particular right after any recovery), the segments and the
      memtable together hold every event ever made durable, each once per time it was accepted; the
      acknowledged ones are among them. */
  lemma AcknowledgedEventsSurvive(c: Config, states: seq<State>, steps: seq<Step>)
    requires Run(c, states, steps) && CarefulRun(c, states, steps) && Initial(states[0])
    requires states[|steps|].Up? && states[|steps|].mem.inflight == []
    ensures var s := states[|steps|];
            && Raw(s.disk) + multiset(s.mem.memtable) == AllAdded(c, states, steps)
            && AllAcked(c, states, steps) <= Raw(s.disk) + multiset(s.mem.memtable)
  {
    hide Run, CarefulRun, Raw, Unsealed, AllAdded, AllAcked, CatalogOk, Coupled;
    assert |states| == |steps| + 1 by { RunLength(c, states, steps); }
    InitialIsSound(c, states[0]);
    RunConserves(c, states, steps);
    var s := states[|steps|];
    CoupledMeansReplay(s.disk, s.mem);
    assert InflightEvents([]) + s.mem.memtable == s.mem.memtable;
  }
}
