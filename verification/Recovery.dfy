/** Startup recovery: replay the log, and rebuild the dedupe cache from sidecar indexes or, where a
    sidecar is missing or unusable, from the segments themselves. */
module Recovery {
  import opened Model
  import opened Dedupe
  import opened Wals
  import opened WalText
  import opened Memtables
  import opened Manifests
  import opened Query
  import opened Codecs
  import opened SegmentCodec
  import opened ManifestLog
  import opened Engine
  import opened Catalog
  import opened Runs
  import opened RecoveryWindow
  import opened ExactlyOnce
  import opened RetryWindow

  // Sidecar files.

  /** Id hash, payload hash and ingest time of one event. */
  type IndexEntry = (Hash, Hash, int)

  const INDEX_MAGIC: seq<Byte> := Ascii("UDBIDX01")

  datatype IndexLibrary = IndexLibrary(
    ser: seq<IndexEntry> -> seq<Byte>,
    de: seq<Byte> -> Option<seq<IndexEntry>>,
    checksum: seq<Byte> -> nat)

  ghost predicate IndexLibraryOk(lib: IndexLibrary)
  {
    && (forall es: seq<IndexEntry> :: lib.de(lib.ser(es)) == Some(es))
    && (forall bs: seq<Byte> :: lib.checksum(bs) < TWO_64)
  }

  function WriteIndex(lib: IndexLibrary, entries: seq<IndexEntry>): seq<Byte>
  {
    var buf := INDEX_MAGIC + LeBytes(|entries| % TWO_32, 4) + lib.ser(entries);
    buf + LeBytes(lib.checksum(buf), 8)
  }

  /** The entries of a sidecar, or nothing if it is too short, mislabelled, damaged or miscounted. */
  function ReadIndex(lib: IndexLibrary, bytes: seq<Byte>): Option<seq<IndexEntry>>
  {
    if |bytes| < 20 || bytes[..8] != INDEX_MAGIC then None
    else
      var end := |bytes| - 8;
      if lib.checksum(bytes[..end]) != LeValue(bytes[end..]) then None
      else
        var entries := lib.de(bytes[12..end]);
        if entries.None? || |entries.value| != LeValue(bytes[8..12]) then None else entries
  }

  /** A sidecar read back is what was written, or is rejected: the count field wraps at 2^32 entries,
      and then no longer matches. */
  lemma SidecarRoundTrip(lib: IndexLibrary, entries: seq<IndexEntry>)
    requires IndexLibraryOk(lib)
    ensures ReadIndex(lib, WriteIndex(lib, entries)) == if |entries| < TWO_32 then Some(entries) else None
  {
    hide LeBytes, LeValue;
    var count := |entries| % TWO_32;
    var buf := INDEX_MAGIC + LeBytes(count, 4) + lib.ser(entries);
    var bytes := WriteIndex(lib, entries);
    var end := |bytes| - 8;
    U32Fits(count);
    LeRoundTrip(count, 4);
    U64Fits(lib.checksum(buf));
    LeRoundTrip(lib.checksum(buf), 8);
    assert bytes[..8] == INDEX_MAGIC && bytes[8..12] == LeBytes(count, 4);
    assert bytes[..end] == buf && bytes[end..] == LeBytes(lib.checksum(buf), 8) && bytes[12..end] == lib.ser(entries);
  }

  function EntryOf(h: Hashing, e: UsageEvent): IndexEntry
  {
    (h.idHash(e.eventId), PayloadHash(h, e), e.ingestedAtMs)
  }

  function EntriesOf(h: Hashing, es: seq<UsageEvent>): (r: seq<IndexEntry>)
    ensures |r| == |es|
  {
    seq(|es|, i requires 0 <= i < |es| => EntryOf(h, es[i]))
  }

  type Sidecars = map<SegmentId, seq<Byte>>

  function SidecarOf(lib: IndexLibrary, sidecars: Sidecars, id: SegmentId): Option<seq<IndexEntry>>
  {
    if id in sidecars then ReadIndex(lib, sidecars[id]) else None
  }

  /** Every sidecar that can be read lists the events of its segment. */
  ghost predicate Truthful(h: Hashing, lib: IndexLibrary, segs: SegmentFiles, sidecars: Sidecars)
  {
    forall id :: id in segs && SidecarOf(lib, sidecars, id).Some? ==>
      SidecarOf(lib, sidecars, id).value == EntriesOf(h, segs[id])
  }

  /** A directory in which each sidecar is missing, unreadable, or as written is truthful. */
  lemma WrittenSidecarsAreTruthful(h: Hashing, lib: IndexLibrary, segs: SegmentFiles, sidecars: Sidecars)
    requires IndexLibraryOk(lib)
    requires forall id :: id in segs && id in sidecars ==>
               ReadIndex(lib, sidecars[id]).None? || sidecars[id] == WriteIndex(lib, EntriesOf(h, segs[id]))
    ensures Truthful(h, lib, segs, sidecars)
  {
    hide ReadIndex, WriteIndex;
    forall id | id in segs && SidecarOf(lib, sidecars, id).Some?
      ensures SidecarOf(lib, sidecars, id).value == EntriesOf(h, segs[id])
    {
      SidecarRoundTrip(lib, EntriesOf(h, segs[id]));
    }
  }

  // Rebuilding the cache.

  function RegisterEntries(d: DedupeState, entries: seq<IndexEntry>): DedupeState
  {
    if entries == [] then d
    else
      var e := entries[|entries| - 1];
      InsertKnown(RegisterEntries(d, entries[..|entries| - 1]), e.0, e.1, e.2)
  }

  lemma {:induction false} EntriesRegisterEvents(h: Hashing, d: DedupeState, es: seq<UsageEvent>)
    ensures RegisterEntries(d, EntriesOf(h, es)) == RegisterAll(h, d, es)
    decreases |es|
  {
    hide InsertKnown;
    if es != [] {
      var n := |es| - 1;
      EntriesRegisterEvents(h, d, es[..n]);
      assert EntriesOf(h, es)[..n] == EntriesOf(h, es[..n]);
    }
  }

  /** What the recovery loop over the manifest does with one segment. */
  function RegisterSegment(
    h: Hashing, lib: IndexLibrary, segs: SegmentFiles, sidecars: Sidecars, cutoff: int, s: SegmentMeta, d: DedupeState)
    : DedupeState
  {
    if s.maxTimestampMs < cutoff || s.segmentId !in segs then d
    else
      var sidecar := SidecarOf(lib, sidecars, s.segmentId);
      if sidecar.Some? then RegisterEntries(d, sidecar.value) else RegisterAll(h, d, segs[s.segmentId])
  }

  function Rebuilt(
    h: Hashing, lib: IndexLibrary, metas: seq<SegmentMeta>, segs: SegmentFiles, sidecars: Sidecars, cutoff: int,
    d: DedupeState)
    : DedupeState
  {
    if metas == [] then d
    else RegisterSegment(h, lib, segs, sidecars, cutoff, metas[|metas| - 1],
                         Rebuilt(h, lib, metas[..|metas| - 1], segs, sidecars, cutoff, d))
  }

  /** Whichever sidecars are missing or rejected, the rebuilt cache and its order are those of a full
      scan of the recent segments. */
  lemma {:induction false} SidecarsDoNotMatter(
    h: Hashing, lib: IndexLibrary, metas: seq<SegmentMeta>, segs: SegmentFiles, sidecars: Sidecars, cutoff: int,
    d: DedupeState)
    requires Truthful(h, lib, segs, sidecars)
    ensures Rebuilt(h, lib, metas, segs, sidecars, cutoff, d) == RegisterAll(h, d, RecentEvents(metas, segs, cutoff))
    decreases |metas|
  {
    hide RegisterAll, RegisterEntries, SidecarOf;
    if metas == [] {
      assert RegisterAll(h, d, []) == d by { RegisterNothing(h, d); }
    } else {
      var n := |metas| - 1;
      var s := metas[n];
      SidecarsDoNotMatter(h, lib, metas[..n], segs, sidecars, cutoff, d);
      var before := RecentEvents(metas[..n], segs, cutoff);
      var events := if s.maxTimestampMs < cutoff then [] else FileEvents(segs, s.segmentId);
      RegisterAllJoin(h, d, before, events);
      RegisterNothing(h, RegisterAll(h, d, before));
      EntriesRegisterEvents(h, RegisterAll(h, d, before), events);
    }
  }

  lemma RegisterNothing(h: Hashing, d: DedupeState)
    ensures RegisterAll(h, d, []) == d
  {
  }

  /** A sidecar begins with its mark and the number of its entries. */
  lemma SidecarFrameIs(lib: IndexLibrary, entries: seq<IndexEntry>)
    ensures var file := WriteIndex(lib, entries);
            && |file| >= 20 && file[..8] == [85, 68, 66, 73, 68, 88, 48, 49]
            && LeValue(file[8..12]) == |entries| % 0x1_0000_0000
  {
    hide LeBytes, LeValue;
    assert "UDBIDX01" == ['U', 'D', 'B', 'I', 'D', 'X', '0', '1'];
    var count := LeBytes(|entries| % TWO_32, 4);
    U32Fits(|entries| % TWO_32);
    LeRoundTrip(|entries| % TWO_32, 4);
    var file := WriteIndex(lib, entries);
    assert file[..8] == INDEX_MAGIC && file[8..12] == count;
  }

  /** After recovery, with any sidecars, an event that was replayed, or stored in a segment that reaches into the window
      without having been replayed, is classified by the payload registered first under its id. */
  lemma RecoveredClassifies(c: Config, d: Disk, now: int, replayed: seq<UsageEvent>, i: nat, p: Hash)
    requires WellStored(c, d)
    requires var all := replayed + WindowEvents(d.manifest.rawSegments, d.segs, now);
             i < |all| && FirstToRegister(c.hashing, all, i)
    ensures var all := replayed + WindowEvents(d.manifest.rawSegments, d.segs, now);
            Classify(RecoveredDedupe(c.hashing, d, now, replayed).cache, c.hashing.idHash(all[i].eventId), p)
              == if p == PayloadHash(c.hashing, all[i]) then ExactDuplicate else PayloadConflict
  {
    hide RegisterAll, RecentEvents, WindowEvents, FirstToRegister, Classify, InsertKnown, WellStored,
      RecoveryCutoff;
    var recent := WindowEvents(d.manifest.rawSegments, d.segs, now);
    RecentIsWindow(c, d, now);
    RegisterAllJoin(c.hashing, EMPTY_DEDUPE, replayed, recent);
    FirstPayloadWins(c.hashing, EMPTY_DEDUPE, replayed + recent, i, p);
  }

  // The recovery code.

  method RegisterIndex(dedupe: HotDedupe, entries: seq<IndexEntry>)
    requires dedupe.Valid()
    modifies dedupe
    ensures dedupe.Valid() && dedupe.State() == RegisterEntries(old(dedupe.State()), entries)
  {
    hide InsertKnown, Rep;
    for i := 0 to |entries|
      invariant dedupe.Valid() && dedupe.State() == RegisterEntries(old(dedupe.State()), entries[..i])
    {
      assert entries[..i + 1][..i] == entries[..i];
      dedupe.InsertKnownEvent(entries[i].0, entries[i].1, entries[i].2);
    }
    assert entries[..|entries|] == entries;
  }

  method RegisterEvents(h: Hashing, dedupe: HotDedupe, es: seq<UsageEvent>)
    requires dedupe.Valid()
    modifies dedupe
    ensures dedupe.Valid() && dedupe.State() == RegisterAll(h, old(dedupe.State()), es)
  {
    hide InsertKnown, Rep;
    for i := 0 to |es|
      invariant dedupe.Valid() && dedupe.State() == RegisterAll(h, old(dedupe.State()), es[..i])
    {
      assert es[..i + 1][..i] == es[..i];
      dedupe.InsertKnownEvent(h.idHash(es[i].eventId), PayloadHash(h, es[i]), es[i].ingestedAtMs);
    }
    assert es[..|es|] == es;
  }

  method RebuildDedupe(
    h: Hashing, lib: IndexLibrary, metas: seq<SegmentMeta>, segs: SegmentFiles, sidecars: Sidecars, cutoff: int,
    dedupe: HotDedupe)
    requires dedupe.Valid()
    modifies dedupe
    ensures dedupe.Valid() && dedupe.State() == Rebuilt(h, lib, metas, segs, sidecars, cutoff, old(dedupe.State()))
  {
    hide Rep, ReadIndex, RegisterAll, RegisterEntries;
    for i := 0 to |metas|
      invariant dedupe.Valid() && dedupe.State()
                == Rebuilt(h, lib, metas[..i], segs, sidecars, cutoff, old(dedupe.State()))
    {
      assert metas[..i + 1][..i] == metas[..i];
      var s := metas[i];
      if s.maxTimestampMs < cutoff { continue; }
      if s.segmentId !in segs { continue; }
      var sidecar := if s.segmentId in sidecars then ReadIndex(lib, sidecars[s.segmentId]) else None;
      if sidecar.Some? {
        RegisterIndex(dedupe, sidecar.value);
      } else {
        RegisterEvents(h, dedupe, segs[s.segmentId]);
      }
    }
    assert metas[..|metas|] == metas;
  }

  lemma RegisterJoin(h: Hashing, d: DedupeState, a: seq<UsageEvent>, b: seq<UsageEvent>)
    ensures RegisterAll(h, RegisterAll(h, d, a), b) == RegisterAll(h, d, a + b)
  {
    hide RegisterAll;
    RegisterAllJoin(h, d, a, b);
  }

  /** Register the events of one file and put them in the memtable. */
  method ReplayEvents(h: Hashing, events: seq<UsageEvent>, now: int, dedupe: HotDedupe, memtable: Memtable)
    requires dedupe.Valid() && memtable.Valid()
    modifies dedupe, memtable
    ensures dedupe.Valid() && memtable.Valid() && memtable.events == old(memtable.events) + events
    ensures memtable.oldestInsertAtMs
         == if old(memtable.events) == [] && events != [] then Some(now) else old(memtable.oldestInsertAtMs)
    ensures dedupe.State() == RegisterAll(h, old(dedupe.State()), events)
  {
    hide InsertKnown, Rep, SizeOf, PayloadHash;
    for i := 0 to |events|
      invariant memtable.oldestInsertAtMs
             == if old(memtable.events) == [] && i > 0 then Some(now) else old(memtable.oldestInsertAtMs)
      invariant dedupe.Valid() && memtable.Valid() && memtable.events == old(memtable.events) + events[..i]
      invariant dedupe.State() == RegisterAll(h, old(dedupe.State()), events[..i])
    {
      var e := events[i];
      assert events[..i + 1][..i] == events[..i];
      dedupe.InsertKnownEvent(h.idHash(e.eventId), PayloadHash(h, e), e.ingestedAtMs);
      memtable.Insert(e, now);
    }
    assert events[..|events|] == events;
  }

  /** Replay the listed WAL files into cache and memtable. */
  method ReplayLog(h: Hashing, j: LineJson, wal: TextDir, ids: seq<nat>, now: int, dedupe: HotDedupe,
                   memtable: Memtable)
    requires dedupe.Valid() && memtable.Valid() && memtable.events == []
    modifies dedupe, memtable
    ensures dedupe.Valid() && memtable.Valid()
    ensures memtable.events == ReplayFiles(DirOf(j, wal), ids)
    ensures memtable.oldestInsertAtMs == if memtable.events == [] then None else Some(now)
    ensures dedupe.State() == RegisterAll(h, old(dedupe.State()), ReplayFiles(DirOf(j, wal), ids))
  {
    hide RegisterAll, Rep, SizeOf, ReplayText, ViewOf, Replay;
    RegisterNothing(h, dedupe.State());
    for k := 0 to |ids|
      invariant dedupe.Valid() && memtable.Valid()
      invariant memtable.events == ReplayFiles(DirOf(j, wal), ids[..k])
      invariant memtable.oldestInsertAtMs == if memtable.events == [] then None else Some(now)
      invariant dedupe.State() == RegisterAll(h, old(dedupe.State()), memtable.events)
    {
      assert ids[..k + 1][..k] == ids[..k];
      var events: seq<UsageEvent> := [];
      if ids[k] in wal {
        events := ReplayFile(j, wal[ids[k]]);
        ViewReplays(j, wal[ids[k]]);
      }
      assert events == ReplayId(DirOf(j, wal), ids[k]);
      RegisterJoin(h, old(dedupe.State()), memtable.events, events);
      ReplayEvents(h, events, now, dedupe, memtable);
    }
    assert ids[..|ids|] == ids;
  }

  /** The files of a database directory as startup finds them. */
  datatype Directory = Directory(
    manifest: Dir,
    tmp: set<string>,
    wal: TextDir,
    segs: SegmentFiles,
    sidecars: Sidecars,
    rollups: RollupFiles,
    nextId: SegmentId)

  const DEFAULT_MANIFEST := Manifest(0, [], [], [], 0, 0, [])

  /** The catalogue a directory stores; a new database has the default one. */
  function CatalogueOf(j: ManifestJson, dir: Directory): Result<Manifest>
  {
    match Stored(j, dir.manifest)
    case Err(m) => Err(m)
    case Ok(None) => Ok(DEFAULT_MANIFEST)
    case Ok(Some(found)) => Ok(found.0)
  }

  /** The engine's view of a directory under a catalogue. */
  function DiskOf(c: Config, m: Manifest, dir: Directory): Disk
  {
    Disk(m, DirOf(c.lines, dir.wal), dir.segs, dir.rollups, dir.nextId)
  }

  /** Drop sealed log files, replay the rest, rebuild the cache and reopen the log. */
  method RecoverUnder(c: Config, lib: IndexLibrary, m: Manifest, dir: Directory, ghost clock: int, now: int)
    returns (dedupe: HotDedupe, memtable: Memtable, wal: Wal)
    requires LineJsonOk(c.lines) && AllTidy(dir.wal) && Truthful(c.hashing, lib, dir.segs, dir.sidecars)
    ensures fresh(dedupe) && fresh(memtable) && fresh(wal)
    ensures dedupe.Valid() && memtable.Valid() && wal.Valid() && wal.json == c.lines
    ensures dedupe.maxCapacity == c.dedupeCapacity && dedupe.ttlMs == c.ttlMs && memtable.estimate == c.estimate
    ensures var d := DiskOf(c, m, dir);
            var mem := Memory(wal.activeId, memtable.events, memtable.oldestInsertAtMs, [], dedupe.State());
            RecoverStep(c, Down(clock, d), Up(now, d.(wal := wal.Dir()), mem), now)
  {
    hide Rep, RegisterAll, Rebuilt, ReplayRange, ReplayFiles, RecentEvents, SizeOf, Truthful, LineJsonOk, Tidy, ViewOf;
    var sealedId := m.lastSealedWalId;
    var files := DeleteFilesOf(dir.wal, sealedId);
    DirDeletes(c.lines, dir.wal, sealedId);
    dedupe := new HotDedupe(c.dedupeCapacity, c.ttlMs);
    memtable := new Memtable(c.estimate);
    var ids := ListFilesAfter(files, sealedId);
    ReplayLog(c.hashing, c.lines, files, ids, now, dedupe, memtable);
    RebuildDedupe(c.hashing, lib, m.rawSegments, dir.segs, dir.sidecars, RecoveryCutoff(now), dedupe);
    wal := new Wal.Open(c.lines, files, sealedId);
    ListsUpToActive(c.lines, files, ids, sealedId, wal.activeId);
    ReplayListed(DirOf(c.lines, files), ids, sealedId, wal.activeId);
    SidecarsDoNotMatter(c.hashing, lib, m.rawSegments, dir.segs, dir.sidecars, RecoveryCutoff(now),
                        RegisterAll(c.hashing, EMPTY_DEDUPE, memtable.events));
  }

  lemma ListsUpToActive(j: LineJson, files: TextDir, ids: seq<nat>, sealedId: nat, activeId: nat)
    requires Ascending(ids) && (forall id :: id in ids <==> id in files && sealedId < id)
    requires IsActiveId(DirOf(j, files), sealedId, activeId)
    ensures Listing(DirOf(j, files), ids, sealedId, activeId)
  {
    hide ViewOf;
    var view := DirOf(j, files);
    assert view.Keys == files.Keys;
    forall id | id in ids ensures id <= activeId { assert id in view; }
  }

  datatype Started = Started(manifest: Manifest, dedupe: HotDedupe, memtable: Memtable, wal: Wal, tmp: set<string>)

  /** The whole of startup recovery: load the catalogue, clear temporary files, then recover under it.
      It fails only where the catalogue cannot be loaded, and otherwise brings the engine up exactly as
      the recovery step says. */
  method RunStartupRecovery(c: Config, lib: IndexLibrary, store: ManifestStore, dir: Directory, ghost clock: int,
                            now: int)
    returns (r: Result<Started>)
    requires store.dir == dir.manifest && store.currentGeneration == 0
    requires LineJsonOk(c.lines) && AllTidy(dir.wal) && Truthful(c.hashing, lib, dir.segs, dir.sidecars)
    modifies store
    ensures CatalogueOf(store.json, dir).Err? <==> r.Err?
    ensures r.Ok? ==>
              var a := r.value;
              && a.manifest == CatalogueOf(store.json, dir).value && a.tmp == {}
              && fresh(a.dedupe) && fresh(a.memtable) && fresh(a.wal)
              && a.dedupe.Valid() && a.memtable.Valid() && a.wal.Valid() && a.wal.json == c.lines
              && a.dedupe.maxCapacity == c.dedupeCapacity && a.dedupe.ttlMs == c.ttlMs
                  && a.memtable.estimate == c.estimate
              && var d := DiskOf(c, a.manifest, dir);
                 var mem := Memory(a.wal.activeId, a.memtable.events, a.memtable.oldestInsertAtMs, [],
                                   a.dedupe.State());
                 RecoverStep(c, Down(clock, d), Up(now, d.(wal := a.wal.Dir()), mem), now)
  {
    hide Rep, SizeOf, Truthful, LineJsonOk, Tidy, ViewOf, Stored, Saved, RoundTrips, RecoverStep, AllTidy, DirOf;
    var loaded := store.Load();
    if loaded.Err? { return Err(loaded.message); }
    var m := if loaded.value.Some? then loaded.value.value else DEFAULT_MANIFEST;
    var tmp := RemoveAll(dir.tmp);
    var dedupe, memtable, wal := RecoverUnder(c, lib, m, dir, clock, now);
    r := Ok(Started(m, dedupe, memtable, wal, tmp));
  }

  /** Remove the files of a directory one by one. */
  method RemoveAll(names: set<string>) returns (left: set<string>)
    ensures left == {}
  {
    left := names;
    while left != {}
      decreases |left|
    {
      var name :| name in left;
      left := left - {name};
    }
  }
}
