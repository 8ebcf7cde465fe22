/** Two runs, from an empty database, after which a closed period reports a wrong net total. */
module PeriodRuns {
  import opened Model
  import opened Sums
  import opened Dedupe
  import opened Wals
  import opened Manifests
  import opened Ingest
  import opened Query
  import opened Engine
  import opened Runs
  import opened RollupSafety
  import opened QueryRefinement
  import opened Periods
  import opened TornRun

  /** The first state of a database: recovered from nothing. */
  lemma FreshStart(c: Config)
    ensures Initial(Down(0, DiskWith(map[]))) && Next(c, Down(0, DiskWith(map[])), Recover(0), Serving(EMPTY_LOG))
    ensures CoreInv(c, Serving(EMPTY_LOG)) && Ledger(Serving(EMPTY_LOG).disk) == multiset{}
  {
    hide RecoverStep, CoreInv, Ledger;
    var down := Down(0, DiskWith(map[]));
    EmptyRecovery(c, map[], EMPTY_LOG);
    InitialIsSound(c, down);
    StepConserves(c, down, Recover(0), Serving(EMPTY_LOG));
    OnlyIngestAdds(c, down, Recover(0));
  }

  lemma FreshIsQueryable(c: Config, p: Period)
    requires CalendarOk(c.calendar) && IsPeriod(c, p) && JsonRoundTrips(c.json)
    ensures Queryable(c, Serving(EMPTY_LOG), TotalPlan(p, RollupHourly))
  {
    hide CoreInv, Sum;
    FreshStart(c);
    var s := Serving(EMPTY_LOG);
    SumZero(Raw(s.disk) + multiset(s.mem.memtable), AbsQuantity());
    assert RollupInv(c, s.disk, None) by { NothingRolledUp(c, s.disk); }
  }

  /** Without rollups nothing can be wrong with them. */
  lemma NothingRolledUp(c: Config, d: Disk)
    requires d.manifest.rollupSegments == [] && d.manifest.hourlyRollupMs == 0 && Positive(Ledger(d))
    ensures RollupInv(c, d, None)
  {
    hide Raw, Pending, HourOf, BucketFor;
    forall e | e in Raw(d) || e in Pending(d) ensures 0 <= HourOf(e.timestampMs) {
      assert e in Ledger(d);
      HourOfBounds(e.timestampMs);
    }
  }

  /** What closing the period records in `s`. */
  ghost function EntryFor(c: Config, s: State, p: Period): ClosedPeriod
    requires s.Up?
  {
    ClosedPeriod(p.account, p.year, p.month, 0, Some(LiveTotal(c, s, p, RollupHourly)),
                 Some(CountOf(AnswerTo(c, s, TotalPlan(p, RollupHourly)))), Some(0))
  }

  ghost function Closed(s: State, entry: ClosedPeriod): State
    requires s.Up?
  {
    s.(disk := s.disk.(manifest := s.disk.manifest.(closedPeriods := [entry])))
  }

  /** The first event `e` was acknowledged in `s`. */
  ghost function Corrected(c: Config, s: State, e: UsageEvent): State
    requires s.Up?
  {
    s.(disk := s.disk.(wal := map[1 := WalFile([e], Clean)]),
       mem := Memory(1, [e], Some(0), [],
                     CommitAll(EMPTY_DEDUPE, [Hashed(c.hashing, e)], 0, c.dedupeCapacity, c.ttlMs)))
  }

  lemma ClosesFirst(c: Config, s: State, p: Period)
    requires s.Up? && s.clock == 0 && s.disk.manifest.closedPeriods == [] && s.disk.manifest.hourlyRollupMs == 0
    ensures var entry := EntryFor(c, s, p);
            ClosesWithSnapshot(c, s, Closed(s, entry), 0, p, entry) && Next(c, s, Close(0, entry), Closed(s, entry))
  {
    hide AnswerTo;
    assert [] + [EntryFor(c, s, p)] == [EntryFor(c, s, p)];
  }

  lemma CorrectionAccepted(c: Config, s: State, a: UsageEvent)
    requires s.Up? && s.clock == 0 && s.disk.wal == EMPTY_LOG && s.mem == Serving(EMPTY_LOG).mem
    requires ValidateEvent(a).None? && !a.kind.Usage?
    ensures var e := a.(ingestedAtMs := 0);
            && Next(c, s, Ingest(0, [a]), Corrected(c, s, e)) && Careful(c, s, Ingest(0, [a]))
            && Added(c, s, Ingest(0, [a])) == [e]
  {
    hide Admit, TriageBatch, CommitAll;
    var e := a.(ingestedAtMs := 0);
    SingleAccepted(c, s, 0, a);
    assert [] + [e] == [e];
    var wal := s.disk.wal;
    assert wal[1 := AppendLines(wal[1], [e])] == map[1 := WalFile([e], Clean)];
  }

  lemma OneCorrection(p: Period, e: UsageEvent)
    requires InPeriod(p, e) && !e.kind.Usage? && Abs(e.quantity) <= I128_MAX
    ensures Sum(multiset{e}, UsageWeight(p)) == 0 && Sum(multiset{e}, AdjustmentWeight(p)) == e.quantity
    ensures Sum(multiset{e}, NarrowAdjustmentWeight(p)) == (if IsI64(e.quantity) then e.quantity else 0)
            && Fits(multiset{e})
  {
    hide Sum;
    SumOne(e, NarrowAdjustmentWeight(p));
    SumOne(e, AdjustmentWeight(p));
    SumOne(e, UsageWeight(p));
    SumOne(e, AbsQuantity());
  }

  lemma SumOne(e: UsageEvent, f: UsageEvent -> int)
    ensures Sum(multiset{e}, f) == f(e)
  {
    hide Sum;
    SumSnoc([], f, e);
    assert [] + [e] == [e] && multiset([e]) == multiset{e};
    SumZero(multiset([]), f);
  }

  /** What a closed period reports when `e` is all that is stored. */
  lemma ReportsOne(c: Config, s: State, p: Period, entry: ClosedPeriod, e: UsageEvent)
    requires s.Up? && CoreInv(c, s) && IsPeriod(c, p) && s.mem.inflight == [] && Ledger(s.disk) == multiset{e}
    requires InPeriod(p, e) && !e.kind.Usage? && Abs(e.quantity) <= I128_MAX && entry.frozenQuantity.Some?
    ensures NetTotal(c, s, p, entry)
         == Some(SatAdd128(entry.frozenQuantity.value, if IsI64(e.quantity) then e.quantity else 0))
    ensures LiveTotal(c, s, p, RawEvents) == e.quantity
  {
    hide CoreInv, Ledger, AnswerTo, Sum, Fits, Raw;
    LedgerIsVisible(c, s);
    OneCorrection(p, e);
    AdjustmentRowsSum(c, s, p);
    RawTotal(c, s, p);
    PeriodSplits(multiset{e}, p);
  }

  /** Start, close a period, acknowledge one correction of 2^63 units in it: the live total is 2^63, and
      the closed period reports 0. */
  lemma WideCorrectionIsDropped(c: Config, p: Period, a: UsageEvent) returns (states: seq<State>, steps: seq<Step>)
    requires CalendarOk(c.calendar) && IsPeriod(c, p) && JsonRoundTrips(c.json)
    requires ValidateEvent(a).None? && !a.kind.Usage? && InPeriod(p, a) && a.quantity == I64_MAX + 1
    ensures Run(c, states, steps) && Initial(states[0]) && |steps| == 3 && steps[0] == Recover(0)
    ensures steps[1].Close? && states[1].Up? && ClosesWithSnapshot(c, states[1], states[2], 0, p, steps[1].entry)
    ensures steps[2] == Ingest(0, [a]) && Acked(c, states[2], steps[2]) == [a.(ingestedAtMs := 0)]
    ensures states[3].Up? && LiveTotal(c, states[3], p, RawEvents) == I64_MAX + 1
    ensures NetTotal(c, states[3], p, steps[1].entry) == Some(0)
  {
    hide RecoverStep, CoreInv, Ledger, Queryable, ClosesWithSnapshot, CalendarOk, Next, Careful, Added, AnswerTo,
      NetTotal, Sum, Fits, Initial;
    var s, e := Serving(EMPTY_LOG), a.(ingestedAtMs := 0);
    var entry := EntryFor(c, s, p);
    var closed := Closed(s, entry);
    states := [Down(0, DiskWith(map[])), s, closed, Corrected(c, closed, e)];
    steps := [Recover(0), Close(0, entry), Ingest(0, [a])];
    FreshStart(c);
    FreshIsQueryable(c, p);
    ClosesFirst(c, s, p);
    CorrectionAccepted(c, closed, a);
    CloseIsStep(c, s, closed, 0, p, entry);
    StepConserves(c, closed, steps[2], states[3]);
    assert Ledger(states[3].disk) == multiset{e};
    FrozenIsTotal(c, s, closed, 0, p, entry);
    SumZero(Ledger(s.disk), UsageWeight(p));
    SumZero(Ledger(s.disk), AdjustmentWeight(p));
    ReportsOne(c, states[3], p, entry, e);
  }

  lemma CorrectedIsQueryable(c: Config, p: Period, e: UsageEvent)
    requires CalendarOk(c.calendar) && IsPeriod(c, p) && JsonRoundTrips(c.json) && Abs(e.quantity) <= I128_MAX
    requires var s := Corrected(c, Serving(EMPTY_LOG), e); CoreInv(c, s) && Ledger(s.disk) == multiset{e}
    ensures Queryable(c, Corrected(c, Serving(EMPTY_LOG), e), TotalPlan(p, RollupHourly))
  {
    hide CoreInv, Sum, Ledger, Raw, CommitAll;
    var s := Corrected(c, Serving(EMPTY_LOG), e);
    SumOne(e, AbsQuantity());
    LedgerIsVisible(c, s);
    assert Positive(Ledger(s.disk)) by { CoreIsPositive(c, s); }
    NothingRolledUp(c, s.disk);
  }

  lemma CoreIsPositive(c: Config, s: State)
    requires CoreInv(c, s)
    ensures Positive(Ledger(s.disk))
  {
  }

  /** Start, acknowledge a correction, then close its period: the frozen figure already holds the
      correction, and the report adds it once more. */
  lemma EarlyCorrectionCountsTwice(c: Config, p: Period, a: UsageEvent) returns (states: seq<State>, steps: seq<Step>)
    requires CalendarOk(c.calendar) && IsPeriod(c, p) && JsonRoundTrips(c.json)
    requires ValidateEvent(a).None? && !a.kind.Usage? && InPeriod(p, a) && IsI64(a.quantity)
    ensures Run(c, states, steps) && Initial(states[0]) && |steps| == 3 && steps[0] == Recover(0)
    ensures steps[1] == Ingest(0, [a]) && Acked(c, states[1], steps[1]) == [a.(ingestedAtMs := 0)]
    ensures steps[2].Close? && states[2].Up? && ClosesWithSnapshot(c, states[2], states[3], 0, p, steps[2].entry)
    ensures states[3].Up? && LiveTotal(c, states[3], p, RawEvents) == a.quantity
    ensures NetTotal(c, states[3], p, steps[2].entry) == Some(2 * a.quantity)
  {
    hide RecoverStep, CoreInv, Ledger, Queryable, ClosesWithSnapshot, CalendarOk, Next, Careful, Added, AnswerTo,
      NetTotal, Sum, Fits, Initial;
    var s0, e := Serving(EMPTY_LOG), a.(ingestedAtMs := 0);
    var s := Corrected(c, s0, e);
    var entry := EntryFor(c, s, p);
    states := [Down(0, DiskWith(map[])), s0, s, Closed(s, entry)];
    steps := [Recover(0), Ingest(0, [a]), Close(0, entry)];
    FreshStart(c);
    CorrectionAccepted(c, s0, a);
    StepConserves(c, s0, steps[1], s);
    assert Ledger(s.disk) == multiset{e};
    CorrectedIsQueryable(c, p, e);
    ClosesFirst(c, s, p);
    CloseIsStep(c, s, states[3], 0, p, entry);
    FrozenIsTotal(c, s, states[3], 0, p, entry);
    OneCorrection(p, e);
    ReportsOne(c, states[3], p, entry, e);
  }
}
