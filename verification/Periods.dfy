/** Closing a billing period freezes its usage. */
module Periods {
  import opened Model
  import opened Sums
  import opened Wals
  import opened Manifests
  import opened Ingest
  import opened Query
  import opened Rollup
  import opened Engine
  import opened Durability
  import opened Catalog
  import opened Runs
  import opened RollupSafety
  import opened QueryRefinement
  import opened Compaction
  import opened DrillDown

  /** A billing period of one account: a half-open, hour-aligned range of time. */
  datatype Period = Period(account: string, year: nat, month: nat, fromMs: int, toMs: int)

  ghost predicate IsPeriod(c: Config, p: Period)
  {
    c.calendar.bounds(p.year, p.month) == Some((p.fromMs, p.toMs)) && IsI64(p.fromMs) && IsI64(p.toMs)
  }

  predicate InPeriod(p: Period, e: UsageEvent)
  {
    e.accountId == p.account && p.fromMs <= e.timestampMs < p.toMs
  }

  function InPeriodWeight(p: Period): UsageEvent -> int
  {
    (e: UsageEvent) => if InPeriod(p, e) then e.quantity else 0
  }

  function UsageWeight(p: Period): UsageEvent -> int
  {
    (e: UsageEvent) => if InPeriod(p, e) && e.kind.Usage? then e.quantity else 0
  }

  function AdjustmentWeight(p: Period): UsageEvent -> int
  {
    (e: UsageEvent) => if InPeriod(p, e) && !e.kind.Usage? then e.quantity else 0
  }

  lemma PeriodSplits(m: multiset<UsageEvent>, p: Period)
    ensures Sum(m, InPeriodWeight(p)) == Sum(m, UsageWeight(p)) + Sum(m, AdjustmentWeight(p))
  {
    hide Sum;
    SumAdd(m, UsageWeight(p), AdjustmentWeight(p), InPeriodWeight(p));
  }

  // Closed means closed.

  /** Nothing admitted while the period is closed adds to its usage. */
  lemma ClosedAdmitsNoUsage(c: Config, s: State, p: Period, now: int, batch: seq<UsageEvent>, e: UsageEvent)
    requires CalendarOk(c.calendar) && IsPeriod(c, p) && s.Up?
    requires IsClosed(s.disk.manifest.closedPeriods, p.account, p.year, p.month) && e in Accepted(c, s, now, batch)
    ensures UsageWeight(p)(e) == 0
  {
    hide Triaged;
    AcceptedSound(c, s, now, batch);
    assert p.fromMs <= e.timestampMs < p.toMs ==> c.calendar.periodOf(e.timestampMs) == Some((p.year, p.month));
  }

  lemma ClosedStepAddsNoUsage(c: Config, s: State, step: Step, s': State, p: Period)
    requires CalendarOk(c.calendar) && IsPeriod(c, p) && Next(c, s, step, s')
    requires IsClosed(s.disk.manifest.closedPeriods, p.account, p.year, p.month)
    ensures Sum(multiset(Added(c, s, step)), UsageWeight(p)) == 0
  {
    hide Accepted, TornEvents, Sum, CalendarOk;
    forall e | e in multiset(Added(c, s, step)) ensures UsageWeight(p)(e) == 0 {
      assert e in Added(c, s, step);
      if step.Ingest? {
        ClosedAdmitsNoUsage(c, s, p, step.now, step.batch, e);
      } else {
        TornEventsSubset(Accepted(c, s, step.now, step.batch), step.whole, step.tail);
        ClosedAdmitsNoUsage(c, s, p, step.now, step.batch, e);
      }
    }
    SumZero(multiset(Added(c, s, step)), UsageWeight(p));
  }

  predicate Reopens(step: Step, p: Period)
  {
    step.Reopen? && step.account == p.account && step.year == p.year && step.month == p.month
  }

  /** Only reopening that very period removes its mark. */
  lemma StaysClosed(c: Config, s: State, step: Step, s': State, p: Period)
    requires Next(c, s, step, s') && !Reopens(step, p)
    requires IsClosed(s.disk.manifest.closedPeriods, p.account, p.year, p.month)
    ensures IsClosed(s'.disk.manifest.closedPeriods, p.account, p.year, p.month)
  {
    hide FlushedAs, FreshListing, Triaged, Accepted, CompactionPlan, NeedsForceDrain, IsTickTarget, NewRollups,
      TickStart, Filter, RecoveredDedupe, Grows;
    var closed := s.disk.manifest.closedPeriods;
    var i :| 0 <= i < |closed| && closed[i].accountId == p.account && closed[i].year == p.year
        && closed[i].month == p.month;
    if step.Reopen? {
      FilterMember(closed, OtherPeriod(step.account, step.year, step.month), closed[i]);
      var k :| 0 <= k < |s'.disk.manifest.closedPeriods| && s'.disk.manifest.closedPeriods[k] == closed[i];
    } else if step.Close? {
      assert s'.disk.manifest.closedPeriods[i] == closed[i];
    }
  }

  /** `step` closes or reopens a period of `account`. */
  ghost predicate TouchesPeriodOf(step: Step, account: string)
  {
    (step.Close? && step.entry.accountId == account) || (step.Reopen? && step.account == account)
  }

  lemma OthersEnterAsBefore(c: Config, s: State, step: Step, s': State, account: string, e: UsageEvent)
    requires Next(c, s, step, s') && TouchesPeriodOf(step, account) && e.accountId != account
    ensures MayEnter(c.calendar, s'.disk.manifest.closedPeriods, e)
       <==> MayEnter(c.calendar, s.disk.manifest.closedPeriods, e)
  {
    hide Filter;
    var closed, closed' := s.disk.manifest.closedPeriods, s'.disk.manifest.closedPeriods;
    forall p: ClosedPeriod | p.accountId == e.accountId ensures p in closed' <==> p in closed {
      if step.Reopen? { FilterMember(closed, OtherPeriod(step.account, step.year, step.month), p); }
    }
  }

  /** Closing or reopening a period of one account changes nothing for the events of other accounts. */
  lemma OtherAccountsUnaffected(c: Config, s: State, step: Step, s': State, account: string, now: int,
                                batch: seq<UsageEvent>)
    requires Next(c, s, step, s') && TouchesPeriodOf(step, account)
    requires forall e :: e in batch ==> e.accountId != account
    ensures s.Up? && s'.Up? && Accepted(c, s', now, batch) == Accepted(c, s, now, batch)
  {
    hide MayEnter, TriageBatch, Admit, Filter;
    var cal, closed, closed' := c.calendar, s.disk.manifest.closedPeriods, s'.disk.manifest.closedPeriods;
    AdmitIs(cal, closed, now, batch);
    AdmitIs(cal, closed', now, batch);
    forall e | e in StampedAt(batch, now) ensures Entering(cal, closed)(e) == Entering(cal, closed')(e) {
      OthersEnterAsBefore(c, s, step, s', account, e);
    }
    FilterEqual(StampedAt(batch, now), Entering(cal, closed), Entering(cal, closed'));
  }

  ghost predicate StaysUnopened(steps: seq<Step>, p: Period)
  {
    forall i :: 0 <= i < |steps| ==> !Reopens(steps[i], p)
  }

  /** From the moment a period is closed until it is reopened, every run leaves its usage untouched. */
  lemma {:induction false} ClosedPeriodIsStable(c: Config, states: seq<State>, steps: seq<Step>, n: nat, p: Period)
    requires CalendarOk(c.calendar) && IsPeriod(c, p)
    requires Run(c, states, steps) && CarefulRun(c, states, steps) && StaysUnopened(steps, p) && n <= |steps|
    requires CoreInv(c, states[0]) && IsClosed(states[0].disk.manifest.closedPeriods, p.account, p.year, p.month)
    ensures CoreInv(c, states[n]) && IsClosed(states[n].disk.manifest.closedPeriods, p.account, p.year, p.month)
    ensures Sum(Ledger(states[n].disk), UsageWeight(p)) == Sum(Ledger(states[0].disk), UsageWeight(p))
    decreases n
  {
    hide Run, Next, CarefulRun, CoreInv, Ledger, Sum, IsClosed, CalendarOk, Careful, Added;
    assert |states| == |steps| + 1 by { RunLength(c, states, steps); }
    if n > 0 {
      var s, step, s' := states[n - 1], steps[n - 1], states[n];
      ClosedPeriodIsStable(c, states, steps, n - 1, p);
      RunStep(c, states, steps, n - 1);
      assert Careful(c, s, step) by { CarefulAt(c, states, steps, n - 1); }
      StepConserves(c, s, step, s');
      SumUnion(Ledger(s.disk), multiset(Added(c, s, step)), UsageWeight(p));
      ClosedStepAddsNoUsage(c, s, step, s', p);
      StaysClosed(c, s, step, s', p);
    }
  }

  lemma CarefulAt(c: Config, states: seq<State>, steps: seq<Step>, i: nat)
    requires |states| == |steps| + 1 && CarefulRun(c, states, steps) && i < |steps|
    ensures Careful(c, states[i], steps[i])
  {
  }

  // The figures.

  /** The query behind a period's total. */
  function TotalPlan(p: Period, source: QuerySource): QueryPlan
  {
    QueryPlan(source, Some(p.account), p.fromMs, p.toMs, [], [], map["quantity" := SumQuantity])
  }

  function TotalOf(a: Answer): int
  {
    if a.Table? then QuantityAt(a.groups, []) else 0
  }

  function CountOf(a: Answer): nat
  {
    if a.Table? then CountAt(a.groups, []) else 0
  }

  ghost function LiveTotal(c: Config, s: State, p: Period, source: QuerySource): int
    requires s.Up?
  {
    TotalOf(AnswerTo(c, s, TotalPlan(p, source)))
  }

  lemma TotalPlanWeight(p: Period, source: QuerySource, m: multiset<UsageEvent>)
    ensures Sum(m, RowWeight(TotalPlan(p, source), [])) == Sum(m, InPeriodWeight(p))
  {
    hide Sum;
    var plan := TotalPlan(p, source);
    forall e | e in m ensures RowWeight(plan, [])(e) == InPeriodWeight(p)(e) {
      assert GroupKey(plan.groupBy, e) == [];
    }
    SumEqual(m, RowWeight(plan, []), InPeriodWeight(p));
  }

  /** The raw total of a period is the sum over segments and memtable. */
  lemma RawTotal(c: Config, s: State, p: Period)
    requires s.Up? && CoreInv(c, s) && IsPeriod(c, p) && Fits(Raw(s.disk) + multiset(s.mem.memtable))
    ensures LiveTotal(c, s, p, RawEvents) == Sum(Raw(s.disk) + multiset(s.mem.memtable), InPeriodWeight(p))
  {
    hide Raw, Sum, Filter, GroupAll, Fits, Coupled, Ledger, FilesBelow, ReplacedUnlisted, RawListed, Collect,
      CollectRaw, GroupKey, Aggregate;
    var plan := TotalPlan(p, RawEvents);
    var es := CollectIn(c, s, plan);
    assert plan == plan.(source := RawEvents);
    SourceIrrelevant(c, s, plan, []);
    RawWeight(c, s, plan, p.fromMs, []);
    var matching := Filter(es, Matching(plan));
    RawCollectionFits(c, s, plan);
    FitsFilter(es, Matching(plan));
    GroupAllSums([], matching, []);
    AggregateTotal(plan, es);
    MatchingSum(plan, es, []);
    WindowWeight(plan, Raw(s.disk));
    WindowWeight(plan, multiset(s.mem.memtable));
    SumUnion(Raw(s.disk), multiset(s.mem.memtable), RowWeight(plan, []));
    TotalPlanWeight(p, RawEvents, Raw(s.disk) + multiset(s.mem.memtable));
  }

  lemma AggregateTotal(plan: QueryPlan, es: seq<UsageEvent>)
    requires plan.groupBy == [] && "quantity" in plan.metrics
    ensures TotalOf(Aggregate(plan, es)) == QuantityAt(GroupAll([], Filter(es, Matching(plan))), [])
  {
    hide Filter, GroupAll;
  }

  lemma WindowWeight(plan: QueryPlan, m: multiset<UsageEvent>)
    ensures Sum(m, WeightFrom(plan, plan.fromMs, [])) == Sum(m, RowWeight(plan, []))
  {
    hide Sum, GroupKey, MatchesFilter;
    SumEqual(m, WeightFrom(plan, plan.fromMs, []), RowWeight(plan, []));
  }

  /** Through the rollups the total is the same. */
  lemma RollupTotal(c: Config, s: State, p: Period)
    requires CalendarOk(c.calendar) && IsPeriod(c, p) && Queryable(c, s, TotalPlan(p, RollupHourly))
    ensures LiveTotal(c, s, p, RollupHourly) == LiveTotal(c, s, p, RawEvents)
  {
    hide Queryable, Collect, GroupAll, Filter;
    var plan := TotalPlan(p, RollupHourly);
    assert s.Up? by { QueryableIs(c, s, plan); }
    assert plan.(source := RollupHourly) == plan && plan.(source := RawEvents) == TotalPlan(p, RawEvents);
    assert "quantity" in plan.metrics;
    RollupQueryIsRawQuery(c, s, plan);
    TotalIsSum(AnswerTo(c, s, plan));
    TotalIsSum(AnswerTo(c, s, TotalPlan(p, RawEvents)));
  }

  lemma TotalIsSum(a: Answer)
    ensures TotalOf(a) == if [] in SumsOf(a) then SumsOf(a)[[]] else 0
  {
  }

  /** What closing records: the total as the rollup query sees it. */
  ghost predicate ClosesWithSnapshot(c: Config, s: State, s': State, now: int, p: Period, entry: ClosedPeriod)
  {
    && CloseStep(s, s', now, entry)
    && entry.accountId == p.account && entry.year == p.year && entry.month == p.month && entry.closedAtMs == now
    && entry.frozenQuantity == Some(LiveTotal(c, s, p, RollupHourly))
    && entry.frozenEventCount == Some(CountOf(AnswerTo(c, s, TotalPlan(p, RollupHourly))))
    && entry.watermarkAtCloseMs == Some(s.disk.manifest.hourlyRollupMs)
  }

  ghost predicate NoAdjustments(m: multiset<UsageEvent>, p: Period)
  {
    forall e :: e in m && InPeriod(p, e) ==> e.kind.Usage?
  }

  lemma LedgerIsVisible(c: Config, s: State)
    requires s.Up? && CoreInv(c, s) && s.mem.inflight == []
    ensures Ledger(s.disk) == Raw(s.disk) + multiset(s.mem.memtable)
  {
    hide Raw, Unsealed, CatalogOk, Coupled;
    CoupledMeansReplay(s.disk, s.mem);
    assert InflightEvents([]) + s.mem.memtable == s.mem.memtable;
  }

  /** With nothing in flight, the frozen figure is the period's usage and the adjustments made so far. */
  lemma FrozenIsTotal(c: Config, s: State, s': State, now: int, p: Period, entry: ClosedPeriod)
    requires CalendarOk(c.calendar) && IsPeriod(c, p) && Queryable(c, s, TotalPlan(p, RollupHourly))
    requires ClosesWithSnapshot(c, s, s', now, p, entry) && s.mem.inflight == []
    ensures entry.frozenQuantity == Some(Sum(Ledger(s.disk), UsageWeight(p)) + Sum(Ledger(s.disk), AdjustmentWeight(p)))
  {
    hide Raw, Sum, Queryable, CoreInv, RollupInv, Ledger, AnswerTo, CalendarOk, Fits;
    var plan := TotalPlan(p, RollupHourly);
    QueryableIs(c, s, plan);
    RollupTotal(c, s, p);
    RawTotal(c, s, p);
    LedgerIsVisible(c, s);
    PeriodSplits(Ledger(s.disk), p);
  }

  /** Without corrections before the close it is the period's usage. */
  lemma FrozenIsUsage(c: Config, s: State, s': State, now: int, p: Period, entry: ClosedPeriod)
    requires CalendarOk(c.calendar) && IsPeriod(c, p) && Queryable(c, s, TotalPlan(p, RollupHourly))
    requires ClosesWithSnapshot(c, s, s', now, p, entry) && s.mem.inflight == [] && NoAdjustments(Ledger(s.disk), p)
    ensures entry.frozenQuantity == Some(Sum(Ledger(s.disk), UsageWeight(p)))
  {
    hide Sum, Queryable, Ledger, CalendarOk, ClosesWithSnapshot, NoAdjustments;
    FrozenIsTotal(c, s, s', now, p, entry);
    NoAdjustmentsSum(Ledger(s.disk), p);
  }

  /** Invoice stability.  Close a period with nothing in flight; run anything but a reopening of it;
      then, whenever nothing is in flight, the live raw total is the frozen figure plus the corrections
      and retractions that arrived since. */
  lemma LiveTotalIsFrozenPlusAdjustments(
    c: Config, s: State, now: int, entry: ClosedPeriod, p: Period, states: seq<State>, steps: seq<Step>, n: nat)
    requires CalendarOk(c.calendar) && IsPeriod(c, p) && Queryable(c, s, TotalPlan(p, RollupHourly))
             && s.mem.inflight == []
    requires Run(c, states, steps) && CarefulRun(c, states, steps) && StaysUnopened(steps, p) && n <= |steps|
    requires ClosesWithSnapshot(c, s, states[0], now, p, entry) && s.clock <= now
    requires states[n].Up? && states[n].mem.inflight == [] && Fits(Ledger(states[n].disk))
    ensures CoreInv(c, states[n])
    ensures entry.frozenQuantity == Some(Sum(Ledger(states[n].disk), UsageWeight(p))
                                         + Sum(Ledger(s.disk), AdjustmentWeight(p)))
    ensures LiveTotal(c, states[n], p, RawEvents)
         == entry.frozenQuantity.value
            + Sum(Ledger(states[n].disk), AdjustmentWeight(p)) - Sum(Ledger(s.disk), AdjustmentWeight(p))
  {
    hide Raw, Sum, Queryable, CoreInv, RollupInv, Ledger, AnswerTo, CalendarOk, Run, CarefulRun, Fits, IsClosed,
      UsageWeight, AdjustmentWeight;
    assert |states| == |steps| + 1 by { RunLength(c, states, steps); }
    QueryableIs(c, s, TotalPlan(p, RollupHourly));
    FrozenIsTotal(c, s, states[0], now, p, entry);
    CloseIsStep(c, s, states[0], now, p, entry);
    ClosedPeriodIsStable(c, states, steps, n, p);
    LedgerIsVisible(c, states[n]);
    RawTotal(c, states[n], p);
    PeriodSplits(Ledger(states[n].disk), p);
  }

  lemma CloseIsStep(c: Config, s: State, s': State, now: int, p: Period, entry: ClosedPeriod)
    requires CoreInv(c, s) && ClosesWithSnapshot(c, s, s', now, p, entry) && s.clock <= now
    ensures CoreInv(c, s') && Ledger(s'.disk) == Ledger(s.disk)
    ensures IsClosed(s'.disk.manifest.closedPeriods, p.account, p.year, p.month)
  {
    hide CoreInv, Ledger, AnswerTo;
    StepConserves(c, s, Close(now, entry), s');
    assert Ledger(s.disk) + multiset([]) == Ledger(s.disk);
    var closed := s'.disk.manifest.closedPeriods;
    assert closed[|closed| - 1] == entry;
  }

  // The reported net total.

  /** The query for corrections and retractions of a period. */
  function AdjustmentPlan(p: Period): QueryPlan
  {
    QueryPlan(RawEvents, Some(p.account), p.fromMs, p.toMs, [QueryFilter("kind", ["Correction", "Retraction"])], [],
              map[])
  }

  /** Adjustments are added up from their JSON form, where a quantity outside 64 bits is skipped. */
  function AdjustmentsQuantity(rows: seq<UsageEvent>): int
  {
    if rows == [] then 0
    else
      var last := rows[|rows| - 1].quantity;
      AdjustmentsQuantity(rows[..|rows| - 1]) + if IsI64(last) then last else 0
  }

  ghost function NetTotal(c: Config, s: State, p: Period, entry: ClosedPeriod): Option<int>
    requires s.Up?
  {
    var a := AnswerTo(c, s, AdjustmentPlan(p));
    if entry.frozenQuantity.Some? && a.Rows?
    then Some(SatAdd128(entry.frozenQuantity.value, AdjustmentsQuantity(a.rows))) else None
  }

  function WideAdjustmentWeight(p: Period): UsageEvent -> int
  {
    (e: UsageEvent) => if InPeriod(p, e) && !e.kind.Usage? && !IsI64(e.quantity) then e.quantity else 0
  }

  function NarrowWeight(): UsageEvent -> int
  {
    (e: UsageEvent) => if IsI64(e.quantity) then e.quantity else 0
  }

  function NarrowAdjustmentWeight(p: Period): UsageEvent -> int
  {
    (e: UsageEvent) => if InPeriod(p, e) && !e.kind.Usage? && IsI64(e.quantity) then e.quantity else 0
  }

  lemma {:induction false} AdjustmentsQuantityIsSum(rows: seq<UsageEvent>)
    ensures AdjustmentsQuantity(rows) == Sum(multiset(rows), NarrowWeight())
    decreases |rows|
  {
    hide Sum;
    if rows == [] {
      SumZero(multiset(rows), NarrowWeight());
    } else {
      var front, last := rows[..|rows| - 1], rows[|rows| - 1];
      assert rows == front + [last];
      AdjustmentsQuantityIsSum(front);
      SumSnoc(front, NarrowWeight(), last);
    }
  }

  lemma AdjustmentMatches(p: Period, e: UsageEvent)
    ensures Matches(AdjustmentPlan(p), e) <==> InPeriod(p, e) && !e.kind.Usage?
  {
    var plan := AdjustmentPlan(p);
    var f := QueryFilter("kind", ["Correction", "Retraction"]);
    assert plan.filters == [f];
    assert FieldText(e, "kind") == Some(KindText(e.kind));
    assert |"Usage"| != |"Correction"| && |"Usage"| != |"Retraction"|;
    assert MatchesFilter(f, e) <==> !e.kind.Usage?;
  }

  /** The multiset of adjustment rows, summed with the 64-bit filter. */
  lemma AdjustmentRowsSum(c: Config, s: State, p: Period)
    requires s.Up? && CoreInv(c, s) && IsPeriod(c, p)
    ensures var a := AnswerTo(c, s, AdjustmentPlan(p));
            && a.Rows?
            && AdjustmentsQuantity(a.rows) == Sum(Raw(s.disk) + multiset(s.mem.memtable), NarrowAdjustmentWeight(p))
  {
    hide Raw, Sum, Filter, Matches, Coupled, Ledger, FilesBelow, ReplacedUnlisted, RawListed, Collect,
      AdjustmentsQuantity;
    var plan := AdjustmentPlan(p);
    assert plan == plan.(source := RawEvents);
    var rows := Filter(CollectIn(c, s, plan), Matching(plan));
    var all := Raw(s.disk) + multiset(s.mem.memtable);
    AdjustmentsQuantityIsSum(rows);
    forall e ensures multiset(rows)[e] == if Matches(plan, e) then all[e] else 0 {
      MatchingMultiset(c, s, plan, e);
    }
    assert multiset(rows) <= all;
    var skipped := all - multiset(rows);
    assert all == multiset(rows) + skipped;
    SumUnion(multiset(rows), skipped, NarrowAdjustmentWeight(p));
    forall e | e in skipped ensures NarrowAdjustmentWeight(p)(e) == 0 { AdjustmentMatches(p, e); }
    SumZero(skipped, NarrowAdjustmentWeight(p));
    forall e | e in multiset(rows)
      ensures NarrowWeight()(e) == NarrowAdjustmentWeight(p)(e)
    {
      AdjustmentMatches(p, e);
    }
    SumEqual(multiset(rows), NarrowWeight(), NarrowAdjustmentWeight(p));
  }

  lemma WideSplit(m: multiset<UsageEvent>, p: Period)
    ensures Sum(m, AdjustmentWeight(p)) == Sum(m, NarrowAdjustmentWeight(p)) + Sum(m, WideAdjustmentWeight(p))
  {
    hide Sum;
    SumAdd(m, NarrowAdjustmentWeight(p), WideAdjustmentWeight(p), AdjustmentWeight(p));
  }

  /** Frozen figure `usage + before`, live total `usage + adjustments`: the reported net total is the live
      total exactly when what was counted before the close equals the adjustments outside 64 bits, or the
      sum saturates at a live total that is itself the greatest 128-bit number. */
  lemma NetTotalExactIff(c: Config, s: State, p: Period, entry: ClosedPeriod, before: int)
    requires s.Up? && CoreInv(c, s) && IsPeriod(c, p) && s.mem.inflight == [] && Fits(Ledger(s.disk))
    requires entry.frozenQuantity == Some(Sum(Ledger(s.disk), UsageWeight(p)) + before)
    requires LiveTotal(c, s, p, RawEvents) == Sum(Ledger(s.disk), UsageWeight(p))
             + Sum(Ledger(s.disk), AdjustmentWeight(p))
    ensures var wide := Sum(Ledger(s.disk), WideAdjustmentWeight(p));
            var live := LiveTotal(c, s, p, RawEvents);
            && (NetTotal(c, s, p, entry) == Some(live) <==> before == wide || (live == I128_MAX && before > wide))
            && (before == 0 ==> (NetTotal(c, s, p, entry) == Some(live) <==> wide == 0))
  {
    hide Raw, Sum, CoreInv, AnswerTo, AdjustmentsQuantity, UsageWeight, AdjustmentWeight, NarrowAdjustmentWeight,
      WideAdjustmentWeight;
    var m := Ledger(s.disk);
    LedgerIsVisible(c, s);
    hide Ledger;
    AdjustmentRowsSum(c, s, p);
    WideSplit(m, p);
    NarrowTotalFits(m, p);
    var narrow, wide := Sum(m, NarrowAdjustmentWeight(p)), Sum(m, WideAdjustmentWeight(p));
    var usage, live := Sum(m, UsageWeight(p)), LiveTotal(c, s, p, RawEvents);
    assert live == usage + narrow + wide;
    assert NetTotal(c, s, p, entry) == Some(SatAdd128(usage + before, narrow));
    SaturatedSum(usage + before, narrow, live, before - wide);
  }

  lemma NarrowTotalFits(m: multiset<UsageEvent>, p: Period)
    requires Fits(m)
    ensures Abs(Sum(m, UsageWeight(p)) + Sum(m, NarrowAdjustmentWeight(p))) <= I128_MAX
    ensures Abs(Sum(m, UsageWeight(p)) + Sum(m, AdjustmentWeight(p))) <= I128_MAX
  {
    hide Sum;
    var both := (e: UsageEvent) => UsageWeight(p)(e) + NarrowAdjustmentWeight(p)(e);
    SumAdd(m, UsageWeight(p), NarrowAdjustmentWeight(p), both);
    forall e | e in m ensures Abs(both(e)) <= Abs(e.quantity) { WeightBounds(p, e); }
    SumWithinAbs(m, both);
    PeriodSplits(m, p);
    SumWithinAbs(m, InPeriodWeight(p));
  }

  /** A saturating sum that is off by `d` from a number in range. */
  lemma SaturatedSum(a: int, b: int, live: int, d: int)
    requires a + b == live + d && Abs(live) <= I128_MAX
    ensures SatAdd128(a, b) == live <==> d == 0 || (live == I128_MAX && d > 0)
  {
  }

  lemma WeightBounds(p: Period, e: UsageEvent)
    ensures Abs(UsageWeight(p)(e) + NarrowAdjustmentWeight(p)(e)) <= Abs(e.quantity)
  {
  }

  /** The same over whole runs: what the period reports after any run is its live total, exactly when
      the adjustments made before the close sum to those that lie outside 64 bits now (or the figure
      saturates); with none before the close, exactly when the latter cancel out. */
  lemma ReportedTotalIsLiveIff(
    c: Config, s: State, now: int, entry: ClosedPeriod, p: Period, states: seq<State>, steps: seq<Step>, n: nat)
    requires CalendarOk(c.calendar) && IsPeriod(c, p) && Queryable(c, s, TotalPlan(p, RollupHourly))
             && s.mem.inflight == []
    requires Run(c, states, steps) && CarefulRun(c, states, steps) && StaysUnopened(steps, p) && n <= |steps|
    requires ClosesWithSnapshot(c, s, states[0], now, p, entry) && s.clock <= now
    requires states[n].Up? && states[n].mem.inflight == [] && Fits(Ledger(states[n].disk))
    ensures var before := Sum(Ledger(s.disk), AdjustmentWeight(p));
            var wide := Sum(Ledger(states[n].disk), WideAdjustmentWeight(p));
            var live := LiveTotal(c, states[n], p, RawEvents);
            && (NetTotal(c, states[n], p, entry) == Some(live)
                <==> before == wide || (live == I128_MAX && before > wide))
            && (NoAdjustments(Ledger(s.disk), p) ==> (NetTotal(c, states[n], p, entry) == Some(live) <==> wide == 0))
  {
    hide Raw, Sum, Queryable, CoreInv, Ledger, AnswerTo, CalendarOk, Run, CarefulRun, Fits, ClosesWithSnapshot,
      NetTotal, UsageWeight, AdjustmentWeight, WideAdjustmentWeight, NoAdjustments;
    assert |states| == |steps| + 1 by { RunLength(c, states, steps); }
    LiveTotalIsFrozenPlusAdjustments(c, s, now, entry, p, states, steps, n);
    NetTotalExactIff(c, states[n], p, entry, Sum(Ledger(s.disk), AdjustmentWeight(p)));
    if NoAdjustments(Ledger(s.disk), p) { NoAdjustmentsSum(Ledger(s.disk), p); }
  }

  lemma NoAdjustmentsSum(m: multiset<UsageEvent>, p: Period)
    requires NoAdjustments(m, p)
    ensures Sum(m, AdjustmentWeight(p)) == 0
  {
    hide Sum;
    SumZero(m, AdjustmentWeight(p));
  }

  // What a period reports.

  datatype PeriodReport =
    | OpenReport(total: int)
    | ClosedReport(entry: ClosedPeriod, adjustments: seq<UsageEvent>, quantity: int, netTotal: Option<int>,
                   liveFallback: Option<int>)

  ghost predicate Reports(c: Config, s: State, p: Period, r: PeriodReport)
    requires s.Up?
  {
    var closed := s.disk.manifest.closedPeriods;
    match r
    case OpenReport(total) =>
      !IsClosed(closed, p.account, p.year, p.month) && total == LiveTotal(c, s, p, RollupHourly)
    case ClosedReport(entry, adjustments, quantity, netTotal, liveFallback) =>
      && entry in closed && !OtherPeriod(p.account, p.year, p.month)(entry)
      && AnswerTo(c, s, AdjustmentPlan(p)) == Rows(adjustments) && quantity == AdjustmentsQuantity(adjustments)
      && netTotal == NetTotal(c, s, p, entry)
      && liveFallback == if entry.frozenQuantity.None? then Some(LiveTotal(c, s, p, RollupHourly)) else None
  }

  function Adjusts(p: Period): UsageEvent -> bool
  {
    (e: UsageEvent) => InPeriod(p, e) && e.kind != Usage
  }

  /** An open period reports the sum of everything stored in it. */
  lemma OpenReportIs(c: Config, s: State, p: Period, r: PeriodReport)
    requires s.Up? && Reports(c, s, p, r) && r.OpenReport? && s.mem.inflight == []
    requires CalendarOk(c.calendar) && IsPeriod(c, p) && Queryable(c, s, TotalPlan(p, RollupHourly))
    ensures forall x :: x in s.disk.manifest.closedPeriods ==>
              x.accountId != p.account || x.year != p.year || x.month != p.month
    ensures r.total == Sum(Ledger(s.disk), InPeriodWeight(p))
  {
    hide Raw, Sum, Queryable, CoreInv, RollupInv, Ledger, AnswerTo, CalendarOk, Fits;
    QueryableIs(c, s, TotalPlan(p, RollupHourly));
    RollupTotal(c, s, p);
    RawTotal(c, s, p);
    LedgerIsVisible(c, s);
  }

  /** A closed period reports its entry, exactly the corrections and retractions stored in it, and the frozen quantity
      plus those of them that fit 64 bits; without a snapshot, the sum of everything instead. */
  lemma ClosedReportIs(c: Config, s: State, p: Period, r: PeriodReport)
    requires s.Up? && Reports(c, s, p, r) && r.ClosedReport? && s.mem.inflight == []
    requires CalendarOk(c.calendar) && IsPeriod(c, p) && Queryable(c, s, TotalPlan(p, RollupHourly))
    ensures r.entry in s.disk.manifest.closedPeriods
            && r.entry.accountId == p.account && r.entry.year == p.year && r.entry.month == p.month
    ensures r.adjustments == Filter(RawSeq(s.disk) + s.mem.memtable, Adjusts(p))
    ensures r.quantity == Sum(Ledger(s.disk), NarrowAdjustmentWeight(p))
    ensures r.entry.frozenQuantity.Some? ==>
              r.netTotal == Some(SatAdd128(r.entry.frozenQuantity.value, r.quantity)) && r.liveFallback == None
    ensures r.entry.frozenQuantity.None? ==>
              r.netTotal == None && r.liveFallback == Some(Sum(Ledger(s.disk), InPeriodWeight(p)))
  {
    hide Raw, Sum, Queryable, CoreInv, RollupInv, Ledger, AnswerTo, CalendarOk, Fits, Filter, CatalogOk, RawSeq,
      Matches;
    var plan := AdjustmentPlan(p);
    QueryableIs(c, s, TotalPlan(p, RollupHourly));
    assert CatalogOk(c, s.disk) by { CoreIsCatalogued(c, s); }
    RollupTotal(c, s, p);
    RawTotal(c, s, p);
    LedgerIsVisible(c, s);
    AdjustmentRowsSum(c, s, p);
    RawAnswerIs(c, s, plan);
    assert r.adjustments == Filter(RawSeq(s.disk) + s.mem.memtable, Matching(plan));
    forall e ensures Matching(plan)(e) == Adjusts(p)(e) { AdjustmentMatches(p, e); }
    FilterEqual(RawSeq(s.disk) + s.mem.memtable, Matching(plan), Adjusts(p));
  }

  lemma CoreIsCatalogued(c: Config, s: State)
    requires CoreInv(c, s)
    ensures CatalogOk(c, s.disk)
  {
  }
}
