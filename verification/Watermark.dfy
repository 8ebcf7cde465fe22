/** The rollup watermark against the clock and the memtable. */
module Watermark {
  import opened Model
  import opened Manifests
  import opened Memtables
  import opened Engine
  import opened Durability
  import opened Catalog
  import opened Runs
  import opened RollupRuns

  /** A whole hour at or below `bound` and at or below the time of every event. */
  ghost predicate HourBehind(t: int, bound: int, events: seq<UsageEvent>)
  {
    t % 3_600_000 == 0 && t <= bound && forall e :: e in events ==> t <= e.timestampMs
  }

  /** The last such hour. */
  ghost predicate LastHourBehind(t: int, bound: int, events: seq<UsageEvent>)
  {
    HourBehind(t, bound, events) && forall h :: HourBehind(h, bound, events) ==> h <= t
  }

  lemma MemtableIsPositive(c: Config, s: State, e: UsageEvent)
    requires s.Up? && CoreInv(c, s) && e in s.mem.memtable
    ensures 0 < e.timestampMs
  {
    hide Coupled, CatalogOk, Unsealed, InflightEvents, Raw;
    CoupledMeansReplay(s.disk, s.mem);
    assert e in Ledger(s.disk);
  }

  lemma HourIsLast(ts: int, h: int)
    requires 0 <= ts && h % 3_600_000 == 0
    ensures HourOf(ts) % 3_600_000 == 0 && HourOf(ts) <= ts && (h <= ts <==> h <= HourOf(ts))
  {
    HourOfBounds(ts);
  }

  /** Where a tick ends is the last whole hour behind the safety lag and behind the memtable. */
  lemma TargetIsLastHour(c: Config, s: State, now: int, target: int)
    requires s.Up? && CoreInv(c, s) && c.safetyLagMs <= now && IsTickTarget(c, s, now, target)
    ensures LastHourBehind(target, now - c.safetyLagMs, s.mem.memtable)
  {
    hide HourOf, CoreInv;
    var t :| IsMinTimestamp(s.mem.memtable, t) && target == TargetFor(c, now, t);
    var events := s.mem.memtable;
    forall e | e in events ensures 0 < e.timestampMs { MemtableIsPositive(c, s, e); }
    forall h | h % 3_600_000 == 0 ensures HourBehind(h, now - c.safetyLagMs, events) <==> h <= target {
      HourIsLast(now - c.safetyLagMs, h);
      if t.Some? { HourIsLast(t.value, h); }
    }
    HourIsLast(now - c.safetyLagMs, 0);
    if t.Some? { HourIsLast(t.value, 0); }
  }

  lemma OnlyOneLast(t: int, u: int, bound: int, events: seq<UsageEvent>)
    requires LastHourBehind(t, bound, events) && LastHourBehind(u, bound, events)
    ensures t == u
  {
  }

  /** Only a rebuild lowers the watermark; only a tick raises it, to the last whole hour that lies behind the safety
      lag and behind every event of the memtable. */
  lemma WatermarkMoves(c: Config, s: State, step: Step, s': State)
    requires Next(c, s, step, s') && CoreInv(c, s)
    ensures s'.disk.manifest.hourlyRollupMs < s.disk.manifest.hourlyRollupMs ==> step.Rebuild?
    ensures s'.disk.manifest.hourlyRollupMs > s.disk.manifest.hourlyRollupMs ==>
              step.Tick? && s.Up? && (c.safetyLagMs <= step.now ==>
                LastHourBehind(s'.disk.manifest.hourlyRollupMs, step.now - c.safetyLagMs, s.mem.memtable))
  {
    hide Next, CoreInv, LastHourBehind, IsTickTarget;
    WatermarkTarget(c, s, step, s');
    if s'.disk.manifest.hourlyRollupMs > s.disk.manifest.hourlyRollupMs && c.safetyLagMs <= step.now {
      TargetIsLastHour(c, s, step.now, s'.disk.manifest.hourlyRollupMs);
    }
  }

  /** What a tick does about the memtable: wait for a sealed file that is not committed yet, or seal a memtable that
      has grown too old. */
  lemma TickFirst(c: Config, s: State, s': State, now: int)
    requires Next(c, s, Tick(now), s') && s.Up?
    ensures s.mem.activeId > s.disk.manifest.lastSealedWalId + 1 ==> s' == s.(clock := now)
    ensures s.mem.activeId <= s.disk.manifest.lastSealedWalId + 1 && s.mem.oldestInsertAtMs.Some?
            && s.mem.oldestInsertAtMs.value + c.memtableMaxAgeMs <= now ==>
              && s'.Up? && s'.mem.memtable == [] && s'.disk.manifest == s.disk.manifest
              && s'.mem.inflight == s.mem.inflight + [FlushMessage(s.mem.memtable, s.mem.activeId)]
  {
    hide TickCommitStep, IsTickTarget, TickStart;
  }

  /** Otherwise it moves the watermark to the last whole hour behind lag and memtable, exactly if that is ahead of the
      watermark and, on a database that has never rolled up, ahead of some segment's first event. */
  lemma TickMovesTo(c: Config, s: State, s': State, now: int, t: int)
    requires Next(c, s, Tick(now), s') && s.Up? && CoreInv(c, s) && c.safetyLagMs <= now
    requires s.mem.activeId <= s.disk.manifest.lastSealedWalId + 1
    requires s.mem.oldestInsertAtMs.Some? ==> now < s.mem.oldestInsertAtMs.value + c.memtableMaxAgeMs
    requires LastHourBehind(t, now - c.safetyLagMs, s.mem.memtable)
    ensures var m := s.disk.manifest;
            s'.Up? && s'.mem == s.mem
            && s'.disk.manifest.hourlyRollupMs
                 == if m.hourlyRollupMs < t
                       && (m.hourlyRollupMs == 0 && m.rawSegments != [] ==>
                             exists seg :: seg in m.rawSegments && seg.minTimestampMs < t)
                    then t else m.hourlyRollupMs
  {
    hide CoreInv, IsTickTarget, NewRollups, Grows, FreshListing, LastHourBehind, HourOf;
    forall target | IsTickTarget(c, s, now, target) ensures target == t {
      TargetIsLastHour(c, s, now, target);
      OnlyOneLast(target, t, now - c.safetyLagMs, s.mem.memtable);
    }
    assert t % 3_600_000 == 0 by { LastIsHour(t, now - c.safetyLagMs, s.mem.memtable); }
    StartsBefore(c, s, t);
  }

  lemma LastIsHour(t: int, bound: int, events: seq<UsageEvent>)
    requires LastHourBehind(t, bound, events)
    ensures t % 3_600_000 == 0
  {
  }

  lemma StartsBefore(c: Config, s: State, t: int)
    requires s.Up? && CoreInv(c, s) && t % 3_600_000 == 0
    ensures var m := s.disk.manifest;
            TickStart(m) < t
            <==> m.hourlyRollupMs < t && (m.hourlyRollupMs == 0 && m.rawSegments != [] ==>
                                            exists seg :: seg in m.rawSegments && seg.minTimestampMs < t)
  {
    hide CatalogOk, Coupled, Ledger, Positive, HourOf, EarliestMin;
    var m := s.disk.manifest;
    if m.hourlyRollupMs == 0 && m.rawSegments != [] {
      EarliestNonNegative(c, s.disk);
      EarliestAmong(m.rawSegments);
      EarliestIsLeast(m.rawSegments);
      HourIsLast(EarliestMin(m.rawSegments), t);
      HourIsLast(EarliestMin(m.rawSegments), 0);
    }
  }

  lemma {:induction false} EarliestIsLeast(metas: seq<SegmentMeta>)
    requires metas != []
    ensures forall m :: m in metas ==> EarliestMin(metas) <= m.minTimestampMs
    decreases |metas|
  {
    if |metas| > 1 {
      var n := |metas| - 1;
      EarliestIsLeast(metas[..n]);
      assert metas == metas[..n] + [metas[n]];
    }
  }

  ghost predicate BehindClock(c: Config, s: State)
  {
    s.disk.manifest.hourlyRollupMs <= Max(0, s.clock - c.safetyLagMs)
  }

  lemma StepStaysBehind(c: Config, s: State, step: Step, s': State)
    requires Next(c, s, step, s') && BehindClock(c, s)
    ensures BehindClock(c, s')
  {
    hide FlushedAs, FreshListing, Triaged, Accepted, CompactionPlan, NeedsForceDrain, NewRollups, TickStart, Grows,
      RecoveredDedupe, HourOf, IsMinTimestamp;
    if step.Tick? {
      if target, metas :| TickCommitStep(c, s, s', step.now, target, metas) {
        assert HourOf(step.now - c.safetyLagMs) <= Max(0, step.now - c.safetyLagMs) by {
          HourAtMost(step.now - c.safetyLagMs);
        }
      }
    }
  }

  lemma HourAtMost(ts: int)
    ensures HourOf(ts) <= Max(0, ts)
  {
  }

  /** In no run does the watermark come closer to the clock than the safety lag. */
  lemma {:induction false} RunStaysBehindClock(c: Config, states: seq<State>, steps: seq<Step>, n: nat)
    requires Run(c, states, steps) && |states| == |steps| + 1 && n <= |steps| && BehindClock(c, states[0])
    ensures BehindClock(c, states[n])
  {
    hide Next, BehindClock;
    if n > 0 {
      RunStaysBehindClock(c, states, steps, n - 1);
      assert Next(c, states[n - 1], steps[n - 1], states[n - 1 + 1]);
      StepStaysBehind(c, states[n - 1], steps[n - 1], states[n]);
    }
  }

  // The age of the memtable.

  ghost predicate AgeKnown(s: State)
  {
    s.Up? ==> (s.mem.oldestInsertAtMs.None? <==> s.mem.memtable == [])
  }

  /** A memtable that fills is as old as the state it fills in, and stays that old until it is emptied. */
  lemma StepAges(c: Config, s: State, step: Step, s': State)
    requires Next(c, s, step, s') && AgeKnown(s) && s'.Up?
    ensures AgeKnown(s')
    ensures s'.mem.memtable != [] ==>
              s'.mem.oldestInsertAtMs
                == if s.Up? && s.mem.memtable != [] then s.mem.oldestInsertAtMs else Some(s'.clock)
  {
    hide FlushedAs, FreshListing, Triaged, CompactionPlan, NeedsForceDrain, NewRollups, TickStart, Grows,
      RecoveredDedupe, IsTickTarget;
  }

  /** Since state `r` the memtable has not been empty, and before it was. */
  ghost predicate FilledAt(states: seq<State>, r: nat, n: nat)
    requires n < |states|
  {
    && 0 < r <= n && (forall k :: r <= k <= n ==> states[k].Up? && states[k].mem.memtable != [])
    && (states[r - 1].Down? || states[r - 1].mem.memtable == [])
  }

  /** In every run the time kept with the memtable is that of the state in which it last filled. */
  lemma {:induction false} RunKnowsAge(c: Config, states: seq<State>, steps: seq<Step>, n: nat) returns (r: nat)
    requires Run(c, states, steps) && |states| == |steps| + 1 && n <= |steps| && states[0].Down?
    ensures AgeKnown(states[n])
    ensures states[n].Up? && states[n].mem.memtable != [] ==>
              FilledAt(states, r, n) && states[n].mem.oldestInsertAtMs == Some(states[r].clock)
  {
    hide Next;
    r := 0;
    if n > 0 {
      r := RunKnowsAge(c, states, steps, n - 1);
      var s, s' := states[n - 1], states[n];
      assert Next(c, states[n - 1], steps[n - 1], states[n - 1 + 1]);
      if s'.Up? {
        StepAges(c, s, steps[n - 1], s');
        if s.Down? || s.mem.memtable == [] { r := n; }
      }
    }
  }
}
