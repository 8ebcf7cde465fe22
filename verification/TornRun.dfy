/** A run, from an empty database, that loses an acknowledged event. */
module TornRun {
  import opened Model
  import opened Dedupe
  import opened Wals
  import opened Manifests
  import opened Ingest
  import opened Engine
  import opened Runs

  const FRESH_MANIFEST := Manifest(1, [], [], [], 0, 0, [])

  function DiskWith(wal: WalDir): Disk
  {
    Disk(FRESH_MANIFEST, wal, map[], map[], 0)
  }

  function Serving(wal: WalDir): State
  {
    Up(0, DiskWith(wal), Memory(1, [], None, [], EMPTY_DEDUPE))
  }

  const TORN: WalDir := map[1 := WalFile([], Partial)]
  const EMPTY_LOG: WalDir := map[1 := EMPTY_FILE]

  /** An admissible event with an unknown id, sent alone, is accepted. */
  lemma SingleAccepted(c: Config, s: State, now: int, a: UsageEvent)
    requires s.Up? && c.hashing.idHash(a.eventId) !in s.mem.dedupe.cache
    requires Admissible(c.calendar, s.disk.manifest.closedPeriods, a)
    ensures var e := a.(ingestedAtMs := now);
            Triaged(c, s, now, [a]).novel == [Hashed(c.hashing, e)] && Accepted(c, s, now, [a]) == [e]
  {
    hide Admissible;
    var e := a.(ingestedAtMs := now);
    var closed := s.disk.manifest.closedPeriods;
    assert [a][..0] == [];
    assert Admit(c.calendar, closed, now, [a]) == [e];
    var cs := HashedAll(c.hashing, [e]);
    assert cs == [Hashed(c.hashing, e)];
    assert cs[..0] == [];
    assert TriageBatch(s.mem.dedupe.cache, cs) == TriageOne(s.mem.dedupe.cache, Triage([], 0, 0), cs[0]);
  }

  /** Recovery of a database whose only log file replays to nothing. */
  lemma EmptyRecovery(c: Config, wal: WalDir, wal': WalDir)
    requires wal' == map[1 := if 1 in wal then wal[1] else EMPTY_FILE] && wal.Keys <= {1} && Replay(wal'[1]) == []
    ensures RecoverStep(c, Down(0, DiskWith(wal)), Serving(wal'), 0)
  {
    var cleaned := DeleteThrough(wal, 0);
    assert cleaned == wal;
    assert IsActiveId(wal, 0, 1);
    assert OpenActive(wal, 1) == wal';
    assert ReplayRange(wal, 0, 1) == ReplayRange(wal, 0, 0) + ReplayId(wal, 1);
    assert RecoveredDedupe(c.hashing, DiskWith(wal), 0, []) == EMPTY_DEDUPE;
  }

  /** Start, tear a write, restart, acknowledge an event, crash, restart: the event is gone. */
  lemma AcknowledgedEventLost(c: Config, a: UsageEvent) returns (states: seq<State>, steps: seq<Step>)
    requires Admissible(c.calendar, [], a)
    ensures Run(c, states, steps) && Initial(states[0])
    ensures a.(ingestedAtMs := 0) in AllAcked(c, states, steps)
    ensures states[|steps|].Up? && states[|steps|].mem.memtable == [] && Ledger(states[|steps|].disk) == multiset{}
  {
    hide RecoverStep, Admissible, TriageBatch, Admit, IngestStep, CommitAll, Ledger;
    var acked := CommitAll(EMPTY_DEDUPE, [Hashed(c.hashing, a.(ingestedAtMs := 0))], 0, c.dedupeCapacity, c.ttlMs);
    var busy := Up(0, DiskWith(EMPTY_LOG), Memory(1, [a.(ingestedAtMs := 0)], Some(0), [], acked));
    states := [Down(0, DiskWith(map[])), Serving(EMPTY_LOG), Down(0, DiskWith(TORN)), Serving(TORN), busy,
               Down(0, DiskWith(EMPTY_LOG)), Serving(EMPTY_LOG)];
    steps := [Recover(0), IngestCrash(0, [a], 0, Partial), Recover(0), Ingest(0, [a]), Crash, Recover(0)];
    EmptyRecovery(c, map[], EMPTY_LOG);
    EmptyRecovery(c, TORN, TORN);
    EmptyRecovery(c, EMPTY_LOG, EMPTY_LOG);
    SingleAccepted(c, Serving(EMPTY_LOG), 0, a);
    SingleAccepted(c, Serving(TORN), 0, a);
    assert Next(c, states[1], steps[1], states[2]) by { assert EMPTY_LOG[1 := WalFile([], Partial)] == TORN; }
    AckOntoTornFile(c, a, busy);
    AckedAt(c, states, steps, 3, a.(ingestedAtMs := 0));
    NothingStored();
  }

  lemma AckOntoTornFile(c: Config, a: UsageEvent, busy: State)
    requires Admissible(c.calendar, [], a)
    requires var e := a.(ingestedAtMs := 0);
             busy == Up(0, DiskWith(EMPTY_LOG), Memory(1, [e], Some(0), [],
                        CommitAll(EMPTY_DEDUPE, [Hashed(c.hashing, e)], 0, c.dedupeCapacity, c.ttlMs)))
    ensures IngestStep(c, Serving(TORN), busy, 0, [a])
  {
    hide Admissible, TriageBatch, Admit, CommitAll;
    SingleAccepted(c, Serving(TORN), 0, a);
    var e := a.(ingestedAtMs := 0);
    assert [e][1..] == [] && AppendLines(TORN[1], [e]) == EMPTY_FILE;
    assert TORN[1 := EMPTY_FILE] == EMPTY_LOG;
    assert [] + [e] == [e];
  }

  lemma {:induction false} AckedAt(c: Config, states: seq<State>, steps: seq<Step>, i: nat, e: UsageEvent)
    requires |states| == |steps| + 1 && i < |steps| && e in Acked(c, states[i], steps[i])
    ensures e in AllAcked(c, states, steps)
    decreases |steps|
  {
    hide Acked;
    var n := |steps| - 1;
    if i < n { AckedAt(c, states[..n + 1], steps[..n], i, e); }
  }

  lemma NothingStored()
    ensures Ledger(DiskWith(EMPTY_LOG)) == multiset{}
  {
    var d := DiskWith(EMPTY_LOG);
    MaxOfBounds(d.wal.Keys);
    assert ReplayRange(d.wal, 0, 1) == ReplayRange(d.wal, 0, 0) + ReplayId(d.wal, 1);
  }
}
