/** The log and the memory agree in every reachable state, so a crash loses nothing that was
    acknowledged and duplicates nothing. */
module Durability {
  import opened Model
  import opened Wals
  import opened Manifests
  import opened Ingest
  import opened Engine

  // The coupling of log and memory.

  /** WAL id below which the first `i` messages are complete. */
  function Boundary(lo: nat, msgs: seq<FlushMessage>, i: nat): nat
    requires i <= |msgs|
  {
    if i == 0 then lo else msgs[i - 1].sealedWalId
  }

  /** Message `i` holds exactly the events of its own run of WAL files. */
  ghost predicate Linked(wal: WalDir, lo: nat, msgs: seq<FlushMessage>, i: nat)
    requires i < |msgs|
  {
    && Boundary(lo, msgs, i) < msgs[i].sealedWalId
    && msgs[i].events == ReplayRange(wal, Boundary(lo, msgs, i), msgs[i].sealedWalId)
    && msgs[i].events != []
  }

  ghost predicate Chained(wal: WalDir, lo: nat, msgs: seq<FlushMessage>)
  {
    forall i :: 0 <= i < |msgs| ==> Linked(wal, lo, msgs, i)
  }

  ghost function Top(d: Disk, m: Memory): nat
  {
    Boundary(d.manifest.lastSealedWalId, m.inflight, |m.inflight|)
  }

  /** The unsealed WAL files hold the in-flight messages followed by the memtable. */
  ghost predicate Coupled(d: Disk, m: Memory)
  {
    && m.activeId in d.wal && (forall id :: id in d.wal ==> id <= m.activeId)
    && Chained(d.wal, d.manifest.lastSealedWalId, m.inflight)
    && Top(d, m) < m.activeId
    && m.memtable == ReplayRange(d.wal, Top(d, m), m.activeId)
    && (m.oldestInsertAtMs.None? <==> m.memtable == [])
  }

  lemma {:induction false} ChainMonotone(wal: WalDir, lo: nat, msgs: seq<FlushMessage>, i: nat, j: nat)
    requires Chained(wal, lo, msgs) && i <= j <= |msgs|
    ensures Boundary(lo, msgs, i) <= Boundary(lo, msgs, j)
    decreases j - i
  {
    hide ReplayRange;
    if i < j {
      assert Linked(wal, lo, msgs, j - 1);
      ChainMonotone(wal, lo, msgs, i, j - 1);
    }
  }

  lemma ChainFront(wal: WalDir, lo: nat, msgs: seq<FlushMessage>)
    requires Chained(wal, lo, msgs) && msgs != []
    ensures Chained(wal, lo, msgs[..|msgs| - 1])
    ensures Boundary(lo, msgs[..|msgs| - 1], |msgs| - 1) == Boundary(lo, msgs, |msgs| - 1)
  {
    hide ReplayRange;
    var front := msgs[..|msgs| - 1];
    forall i | 0 <= i < |front| ensures Linked(wal, lo, front, i) {
      assert Linked(wal, lo, msgs, i);
    }
  }

  lemma {:induction false} ChainFlat(wal: WalDir, lo: nat, msgs: seq<FlushMessage>)
    requires Chained(wal, lo, msgs)
    ensures ReplayRange(wal, lo, Boundary(lo, msgs, |msgs|)) == InflightEvents(msgs)
    decreases |msgs|
  {
    hide Chained;
    if msgs != [] {
      var n := |msgs| - 1;
      ChainFront(wal, lo, msgs);
      ChainFlat(wal, lo, msgs[..n]);
      ChainMonotone(wal, lo, msgs, 0, n);
      ChainAt(wal, lo, msgs, n);
      ReplaySplit(wal, lo, Boundary(lo, msgs, n), msgs[n].sealedWalId);
    }
  }

  lemma ChainAt(wal: WalDir, lo: nat, msgs: seq<FlushMessage>, i: nat)
    requires Chained(wal, lo, msgs) && i < |msgs|
    ensures lo <= Boundary(lo, msgs, i) < msgs[i].sealedWalId <= Boundary(lo, msgs, |msgs|)
    ensures msgs[i].events == ReplayRange(wal, Boundary(lo, msgs, i), msgs[i].sealedWalId) && msgs[i].events != []
  {
    hide ReplayRange;
    assert Linked(wal, lo, msgs, i);
    ChainMonotone(wal, lo, msgs, 0, i);
    ChainMonotone(wal, lo, msgs, i + 1, |msgs|);
  }

  /** Changing files outside `(lo, top]` leaves the chain alone. */
  lemma ChainFrame(wal: WalDir, wal': WalDir, lo: nat, msgs: seq<FlushMessage>)
    requires Chained(wal, lo, msgs)
    requires forall id :: lo < id <= Boundary(lo, msgs, |msgs|) ==> ReplayId(wal, id) == ReplayId(wal', id)
    ensures Chained(wal', lo, msgs)
  {
    hide ReplayRange, ReplayId, Boundary;
    forall i | 0 <= i < |msgs| ensures Linked(wal', lo, msgs, i) {
      ChainAt(wal, lo, msgs, i);
      ReplaySame(wal, wal', Boundary(lo, msgs, i), msgs[i].sealedWalId);
    }
  }

  lemma ActiveIsHighest(d: Disk, m: Memory)
    requires Coupled(d, m)
    ensures MaxOf(d.wal.Keys) == m.activeId
  {
    MaxOfBounds(d.wal.Keys);
  }

  /** The coupling, spelled out: replaying the unsealed files yields the in-flight events and then
      the memtable. */
  lemma CoupledMeansReplay(d: Disk, m: Memory)
    requires Coupled(d, m)
    ensures Unsealed(d) == InflightEvents(m.inflight) + m.memtable
  {
    hide ReplayRange;
    var lo := d.manifest.lastSealedWalId;
    ActiveIsHighest(d, m);
    ChainFlat(d.wal, lo, m.inflight);
    ChainMonotone(d.wal, lo, m.inflight, 0, |m.inflight|);
    ReplaySplit(d.wal, lo, Top(d, m), m.activeId);
  }

  /** What a run must avoid: appending to a WAL file that a crash left without its last newline. */
  ghost predicate AppendsToCleanFile(c: Config, s: State, now: int, batch: seq<UsageEvent>)
  {
    s.Up? && s.mem.activeId in s.disk.wal
    && (s.disk.wal[s.mem.activeId].tail.Clean? || Accepted(c, s, now, batch) == [])
  }

  // Each step keeps the coupling and accounts for every event.

  lemma GrowLast(wal: WalDir, lo: nat, id: nat, f: WalFile, extra: seq<UsageEvent>)
    requires lo < id && id in wal && Replay(f) == Replay(wal[id]) + extra
    ensures ReplayRange(wal[id := f], lo, id) == ReplayRange(wal, lo, id) + extra
  {
    ReplaySame(wal, wal[id := f], lo, id - 1);
    var before := ReplayRange(wal, lo, id - 1);
    assert before + (Replay(wal[id]) + extra) == (before + Replay(wal[id])) + extra;
  }

  /** Replacing the active file by one that replays `extra` more. */
  lemma GrowActive(d: Disk, m: Memory, f: WalFile, extra: seq<UsageEvent>)
    requires Coupled(d, m) && Replay(f) == Replay(d.wal[m.activeId]) + extra
    ensures var wal' := d.wal[m.activeId := f];
            && Chained(wal', d.manifest.lastSealedWalId, m.inflight)
            && ReplayRange(wal', Top(d, m), m.activeId) == m.memtable + extra
            && MaxOf(wal'.Keys) == m.activeId
            && ReplayRange(wal', d.manifest.lastSealedWalId, m.activeId) == Unsealed(d) + extra
  {
    hide Chained, ReplayRange;
    var wal', lo, top := d.wal[m.activeId := f], d.manifest.lastSealedWalId, Top(d, m);
    ChainMonotone(d.wal, lo, m.inflight, 0, |m.inflight|);
    ChainFrame(d.wal, wal', lo, m.inflight);
    GrowLast(d.wal, top, m.activeId, f, extra);
    GrowLast(d.wal, lo, m.activeId, f, extra);
    ActiveIsHighest(d, m);
    assert wal'.Keys == d.wal.Keys;
  }

  lemma IngestKeepsCoupling(c: Config, s: State, s': State, now: int, batch: seq<UsageEvent>)
    requires IngestStep(c, s, s', now, batch) && Coupled(s.disk, s.mem) && AppendsToCleanFile(c, s, now, batch)
    ensures Coupled(s'.disk, s'.mem)
    ensures Unsealed(s'.disk) == Unsealed(s.disk) + Accepted(c, s, now, batch)
  {
    hide ReplayRange, Chained, AppendLines;
    var es := Accepted(c, s, now, batch);
    var f := s.disk.wal[s.mem.activeId];
    ViewAppendIffClean(f, es);
    GrowActive(s.disk, s.mem, AppendLines(f, es), es);
  }

  /** And conversely: an ingest that accepts something onto a torn file breaks the coupling. */
  lemma IngestKeepsCouplingIffClean(c: Config, s: State, s': State, now: int, batch: seq<UsageEvent>)
    requires IngestStep(c, s, s', now, batch) && Coupled(s.disk, s.mem)
    ensures Coupled(s'.disk, s'.mem) <==> AppendsToCleanFile(c, s, now, batch)
  {
    if AppendsToCleanFile(c, s, now, batch) {
      IngestKeepsCoupling(c, s, s', now, batch);
    } else {
      TornIngestBreaksCoupling(s.disk, s.mem, Accepted(c, s, now, batch));
    }
  }

  lemma TornIngestBreaksCoupling(d: Disk, m: Memory, es: seq<UsageEvent>)
    requires Coupled(d, m) && !d.wal[m.activeId].tail.Clean? && es != []
    ensures var wal' := d.wal[m.activeId := AppendLines(d.wal[m.activeId], es)];
            ReplayRange(wal', Top(d, m), m.activeId) != m.memtable + es
  {
    hide Chained, AppendLines, Replay;
    var id, top := m.activeId, Top(d, m);
    var f := d.wal[id];
    var f' := AppendLines(f, es);
    ViewAppendLoses(f, es);
    ReplaySame(d.wal, d.wal[id := f'], top, id - 1);
    assert |multiset(Replay(f) + es)| == |Replay(f) + es| && |multiset(Replay(f'))| == |Replay(f')|;
    assert |Replay(f')| < |Replay(f) + es|;
  }

  /** What the log loses when an ingest appends to a torn file: the first event it acknowledges, and
      the event whose newline was missing. */
  lemma TornIngestLoses(d: Disk, m: Memory, es: seq<UsageEvent>)
    requires Coupled(d, m) && !d.wal[m.activeId].tail.Clean? && es != []
    ensures var f := d.wal[m.activeId];
            var d' := d.(wal := d.wal[m.activeId := AppendLines(f, es)]);
            Pending(d') + multiset{es[0]} + (if f.tail.Unterminated? then multiset{f.tail.event} else multiset{})
              == Pending(d) + multiset(es)
  {
    hide Coupled, AppendLines, Replay, Unsealed;
    assert m.activeId in d.wal && 0 < m.activeId by { ActiveIsThere(d, m); }
    var f := d.wal[m.activeId];
    var f' := AppendLines(f, es);
    var before := ReplayRange(d.wal, d.manifest.lastSealedWalId, m.activeId - 1);
    ActiveFileLast(d, m, f');
    hide ReplayRange;
    ViewAppendLoses(f, es);
    var lost := multiset{es[0]} + if f.tail.Unterminated? then multiset{f.tail.event} else multiset{};
    LossAccounts(before, Replay(f), Replay(f'), es, lost);
  }

  lemma ActiveIsThere(d: Disk, m: Memory)
    requires Coupled(d, m)
    ensures m.activeId in d.wal && 0 < m.activeId
  {
  }

  /** The active file is replayed last, whatever it holds. */
  lemma ActiveFileLast(d: Disk, m: Memory, f': WalFile)
    requires Coupled(d, m) && m.activeId in d.wal && 0 < m.activeId
    ensures var before := ReplayRange(d.wal, d.manifest.lastSealedWalId, m.activeId - 1);
            && Unsealed(d) == before + Replay(d.wal[m.activeId])
            && Unsealed(d.(wal := d.wal[m.activeId := f'])) == before + Replay(f')
  {
    hide Chained, Replay;
    var id, lo := m.activeId, d.manifest.lastSealedWalId;
    var d' := d.(wal := d.wal[id := f']);
    ActiveIsHighest(d, m);
    assert d'.wal.Keys == d.wal.Keys;
    ChainMonotone(d.wal, lo, m.inflight, 0, |m.inflight|);
    ReplaySame(d.wal, d'.wal, lo, id - 1);
  }

  lemma LossAccounts(
    before: seq<UsageEvent>, r: seq<UsageEvent>, r': seq<UsageEvent>, es: seq<UsageEvent>, lost: multiset<UsageEvent>)
    requires multiset(r + es) == multiset(r') + lost
    ensures multiset(before + r') + lost == multiset(before + r) + multiset(es)
  {
    assert multiset(r + es) == multiset(r) + multiset(es);
    assert multiset(before + r') + lost == multiset(before) + (multiset(r') + lost);
    assert multiset(before + r) + multiset(es) == multiset(before) + (multiset(r) + multiset(es));
  }

  /** Durability fails in the code as it stands: a crash that tears the last WAL line, a restart, and
      the next ingest that accepts anything acknowledges an event the log cannot replay. */
  lemma AckAfterTornCrashIsLost(
    c: Config, s: State, crashed: State, up: State, s': State,
    at: int, torn: seq<UsageEvent>, whole: nat, tail: WalTail, restart: int, now: int, batch: seq<UsageEvent>)
    requires s.Up? && Coupled(s.disk, s.mem) && !tail.Clean?
    requires IngestCrashStep(c, s, crashed, at, torn, whole, tail) && RecoverStep(c, crashed, up, restart)
    requires IngestStep(c, up, s', now, batch) && Accepted(c, up, now, batch) != []
    ensures Coupled(up.disk, up.mem) && !Coupled(s'.disk, s'.mem)
    ensures Pending(s'.disk) + multiset{Accepted(c, up, now, batch)[0]}
         <= Pending(up.disk) + multiset(Accepted(c, up, now, batch))
  {
    hide Chained, ReplayRange, Accepted, Triaged, RecoveredDedupe, Unsealed;
    ChainMonotone(s.disk.wal, s.disk.manifest.lastSealedWalId, s.mem.inflight, 0, |s.mem.inflight|);
    RecoverKeepsCoupling(c, crashed, up, restart);
    ActiveIdUnique(DeleteThrough(crashed.disk.wal, s.disk.manifest.lastSealedWalId), s.disk.manifest.lastSealedWalId,
                   up.mem.activeId, s.mem.activeId);
    assert !up.disk.wal[up.mem.activeId].tail.Clean?;
    AcceptedIsNovel(c, up, now, batch);
    TornIngestLoses(up.disk, up.mem, Accepted(c, up, now, batch));
    IngestKeepsCouplingIffClean(c, up, s', now, batch);
  }

  lemma AcceptedIsNovel(c: Config, s: State, now: int, batch: seq<UsageEvent>)
    requires s.Up?
    ensures Accepted(c, s, now, batch) == Events(Triaged(c, s, now, batch).novel)
  {
  }

  lemma IngestCrashAccounts(
    c: Config, s: State, s': State, now: int, batch: seq<UsageEvent>, whole: nat, tail: WalTail)
    requires IngestCrashStep(c, s, s', now, batch, whole, tail) && Coupled(s.disk, s.mem)
    requires AppendsToCleanFile(c, s, now, batch)
    ensures Unsealed(s'.disk) == Unsealed(s.disk) + TornEvents(Accepted(c, s, now, batch), whole, tail)
  {
    hide ReplayRange, Chained, AppendTorn, TornEvents;
    var es := Accepted(c, s, now, batch);
    var f := s.disk.wal[s.mem.activeId];
    var extra := TornEvents(es, whole, tail);
    TornReplay(f, es, whole, tail);
    GrowActive(s.disk, s.mem, AppendTorn(f, es, whole, tail), extra);
  }

  lemma TornReplay(f: WalFile, batch: seq<UsageEvent>, whole: nat, tail: WalTail)
    requires TornAppend(batch, whole, tail) && (f.tail.Clean? || batch == [])
    ensures Replay(AppendTorn(f, batch, whole, tail)) == Replay(f) + TornEvents(batch, whole, tail)
  {
    if f.tail.Clean? {
      ViewTornReplay(f, batch, whole, tail);
    }
  }

  lemma AddedFileReplay(wal: WalDir, id: nat, lo: nat)
    requires id + 1 !in wal && lo <= id
    ensures var wal' := wal[id + 1 := EMPTY_FILE];
            && ReplayRange(wal', id, id + 1) == []
            && ReplayRange(wal', lo, id + 1) == ReplayRange(wal, lo, id)
            && (forall k :: ReplayId(wal', k) == ReplayId(wal, k))
  {
    var wal' := wal[id + 1 := EMPTY_FILE];
    assert forall k :: ReplayId(wal', k) == ReplayId(wal, k);
    ReplaySame(wal, wal', lo, id);
  }

  lemma DrainKeepsCoupling(s: State, s': State)
    requires DrainStep(s, s') && Coupled(s.disk, s.mem)
    ensures Coupled(s'.disk, s'.mem)
    ensures Unsealed(s'.disk) == Unsealed(s.disk)
  {
    hide ReplayRange, Chained, ReplayId;
    var wal, wal', lo, id := s.disk.wal, s'.disk.wal, s.disk.manifest.lastSealedWalId, s.mem.activeId;
    var top := Top(s.disk, s.mem);
    ActiveIsHighest(s.disk, s.mem);
    ChainMonotone(wal, lo, s.mem.inflight, 0, |s.mem.inflight|);
    AddedFileReplay(wal, id, lo);
    ChainFrame(wal, wal', lo, s.mem.inflight);
    ReplaySame(wal, wal', top, id);
    ChainSnoc(wal', lo, s.mem.inflight, FlushMessage(s.mem.memtable, id));
    assert Coupled(s'.disk, s'.mem);
    ActiveIsHighest(s'.disk, s'.mem);
  }

  lemma ChainSnoc(wal: WalDir, lo: nat, msgs: seq<FlushMessage>, msg: FlushMessage)
    requires Chained(wal, lo, msgs)
    requires Boundary(lo, msgs, |msgs|) < msg.sealedWalId && msg.events != []
    requires msg.events == ReplayRange(wal, Boundary(lo, msgs, |msgs|), msg.sealedWalId)
    ensures Chained(wal, lo, msgs + [msg])
  {
    hide ReplayRange;
    var all := msgs + [msg];
    forall i | 0 <= i < |all| ensures Linked(wal, lo, all, i) {
      assert Boundary(lo, all, i) == Boundary(lo, msgs, i);
      if i < |msgs| { assert Linked(wal, lo, msgs, i); }
    }
  }

  lemma FlushKeepsCoupling(c: Config, s: State, s': State, metas: seq<SegmentMeta>)
    requires CommitFlushStep(c, s, s', metas) && Coupled(s.disk, s.mem)
    ensures Coupled(s'.disk, s'.mem)
    ensures Unsealed(s.disk) == s.mem.inflight[0].events + Unsealed(s'.disk)
  {
    hide ReplayRange, FlushedAs, FreshListing, Grows;
    var lo, msgs := s.disk.manifest.lastSealedWalId, s.mem.inflight;
    var tail, lo' := msgs[1..], msgs[0].sealedWalId;
    assert Linked(s.disk.wal, lo, msgs, 0);
    assert s'.disk.manifest.lastSealedWalId == lo';
    forall i | 0 <= i < |tail| ensures Linked(s'.disk.wal, lo', tail, i) {
      assert Linked(s.disk.wal, lo, msgs, i + 1);
    }
    assert Chained(s'.disk.wal, lo', tail);
    assert Top(s'.disk, s'.mem) == Top(s.disk, s.mem);
    ActiveIsHighest(s.disk, s.mem);
    ChainMonotone(s.disk.wal, lo, msgs, 1, |msgs|);
    ReplaySplit(s.disk.wal, lo, lo', s.mem.activeId);
  }

  lemma DeleteWalKeepsCoupling(s: State, s': State, ids: set<nat>)
    requires DeleteWalStep(s, s', ids) && (s.Up? ==> Coupled(s.disk, s.mem))
    ensures s'.Up? ==> Coupled(s'.disk, s'.mem)
    ensures Unsealed(s'.disk) == Unsealed(s.disk)
  {
    var wal, wal', lo := s.disk.wal, s'.disk.wal, s.disk.manifest.lastSealedWalId;
    SealedFilesIrrelevant(s.disk, s'.disk, ids);
    if s.Up? {
      hide ReplayRange;
      assert forall id :: lo < id ==> ReplayId(wal, id) == ReplayId(wal', id);
      ChainFrame(wal, wal', lo, s.mem.inflight);
      ChainMonotone(wal, lo, s.mem.inflight, 0, |s.mem.inflight|);
      ReplaySame(wal, wal', Top(s.disk, s.mem), s.mem.activeId);
    }
  }

  lemma SealedFilesIrrelevant(d: Disk, d': Disk, ids: set<nat>)
    requires forall id :: id in ids ==> id <= d.manifest.lastSealedWalId
    requires d' == d.(wal := d.wal - ids)
    ensures Unsealed(d') == Unsealed(d)
  {
    hide ReplayRange;
    var lo, hi, hi' := d.manifest.lastSealedWalId, MaxOf(d.wal.Keys), MaxOf(d'.wal.Keys);
    MaxOfBounds(d.wal.Keys);
    MaxOfBounds(d'.wal.Keys);
    assert hi' <= hi;
    ReplaySame(d.wal, d'.wal, lo, hi);
    ReplayBeyond(d'.wal, lo, hi', hi);
  }

  lemma RecoverKeepsCoupling(c: Config, s: State, s': State, now: int)
    requires RecoverStep(c, s, s', now)
    ensures Coupled(s'.disk, s'.mem)
    ensures Unsealed(s'.disk) == Unsealed(s.disk)
    ensures multiset(s'.mem.memtable) == Pending(s.disk)
  {
    hide ReplayRange, RecoveredDedupe;
    var lo, id := s.disk.manifest.lastSealedWalId, s'.mem.activeId;
    var wal := DeleteThrough(s.disk.wal, lo);
    var doomed := set k | k in s.disk.wal && k <= lo;
    assert wal == s.disk.wal - doomed;
    var cleaned := s.disk.(wal := wal);
    SealedFilesIrrelevant(s.disk, cleaned, doomed);
    var wal' := s'.disk.wal;
    assert forall k :: ReplayId(wal', k) == ReplayId(wal, k);
    ReplaySame(wal, wal', lo, id);
    assert Coupled(s'.disk, s'.mem);
    ActiveIsHighest(s'.disk, s'.mem);
    MaxOfBounds(wal.Keys);
    ReplayBeyond(wal, lo, MaxOf(wal.Keys), Larger(id, MaxOf(wal.Keys)));
    ReplayBeyond(wal, lo, id, Larger(id, MaxOf(wal.Keys)));
  }

  /** Steps that touch neither the WAL, the seal position nor the queue. */
  ghost predicate LogUntouched(s: State, s': State)
  {
    && s.Up? && s'.Up?
    && s'.disk.wal == s.disk.wal
    && s'.disk.manifest.lastSealedWalId == s.disk.manifest.lastSealedWalId
    && s'.mem == s.mem
  }

  lemma UntouchedKeepsCoupling(s: State, s': State)
    requires LogUntouched(s, s') && Coupled(s.disk, s.mem)
    ensures Coupled(s'.disk, s'.mem) && Unsealed(s'.disk) == Unsealed(s.disk)
  {
  }
}
