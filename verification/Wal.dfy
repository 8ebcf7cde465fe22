/** The write-ahead log as the engine's steps see it: which events each numbered file replays, and how
    it ends. */
module Wals {
  import opened Model

  /** What stands after the last newline of a file: nothing; bytes that do not parse;
      or a complete event whose newline never reached the disk. */
  datatype WalTail = Clean | Partial | Unterminated(event: UsageEvent)

  /** `lines` are the newline-terminated events that parse, in order. */
  datatype WalFile = WalFile(lines: seq<UsageEvent>, tail: WalTail)

  type WalDir = map<nat, WalFile>

  const EMPTY_FILE := WalFile([], Clean)

  /** What `replay_file` yields: an unterminated last line still parses; a partial one is skipped. */
  function Replay(f: WalFile): seq<UsageEvent>
  {
    if f.tail.Unterminated? then f.lines + [f.tail.event] else f.lines
  }

  /** Append complete lines.  The first is glued to whatever stands after the last newline, and is then
      lost with it. */
  function AppendLines(f: WalFile, batch: seq<UsageEvent>): WalFile
  {
    if batch == [] then f
    else if f.tail.Clean? then WalFile(f.lines + batch, Clean)
    else WalFile(f.lines + batch[1..], Clean)
  }

  lemma AppendLinesSnoc(f: WalFile, batch: seq<UsageEvent>, e: UsageEvent)
    ensures AppendLines(AppendLines(f, batch), [e]) == AppendLines(f, batch + [e])
  {
    if batch != [] {
      assert (batch + [e])[1..] == batch[1..] + [e];
      assert f.lines + (batch + [e]) == f.lines + batch + [e];
      assert f.lines + (batch[1..] + [e]) == f.lines + batch[1..] + [e];
    }
  }

  /** The file after a crash inside an append of `batch`: `whole` lines reached the disk complete,
      followed by `tail`. */
  function AppendTorn(f: WalFile, batch: seq<UsageEvent>, whole: nat, tail: WalTail): WalFile
    requires whole <= |batch|
  {
    var g := AppendLines(f, batch[..whole]);
    if tail.Clean? then g
    else if g.tail.Clean? then g.(tail := tail)
    else g.(tail := Partial)
  }

  /** A torn append leaves a prefix of the batch, then possibly a piece of the next event. */
  predicate TornAppend(batch: seq<UsageEvent>, whole: nat, tail: WalTail)
  {
    && whole <= |batch|
    && (!tail.Clean? ==> whole < |batch|)
    && (tail.Unterminated? ==> whole < |batch| && tail.event == batch[whole])
  }

  /** The events a crash inside an append makes durable without acknowledging them. */
  function TornEvents(batch: seq<UsageEvent>, whole: nat, tail: WalTail): seq<UsageEvent>
    requires whole <= |batch|
  {
    batch[..whole] + if tail.Unterminated? then [tail.event] else []
  }

  /** An append is replayed in full exactly when the file ended with a newline, or nothing was
      appended. */
  lemma ViewAppendIffClean(f: WalFile, batch: seq<UsageEvent>)
    ensures Replay(AppendLines(f, batch)) == Replay(f) + batch <==> f.tail.Clean? || batch == []
  {
    if f.tail.Clean? || batch == [] {
      assert Replay(f) + batch == f.lines + batch || batch == [];
    } else {
      assert |Replay(AppendLines(f, batch))| < |Replay(f) + batch|;
    }
  }

  /** The damage is exactly one acknowledged event, or two when the last line lacked its newline. */
  lemma ViewAppendLoses(f: WalFile, batch: seq<UsageEvent>)
    requires !f.tail.Clean? && batch != []
    ensures multiset(Replay(f) + batch) ==
            multiset(Replay(AppendLines(f, batch))) + multiset{batch[0]}
              + (if f.tail.Unterminated? then multiset{f.tail.event} else multiset{})
  {
    assert batch == [batch[0]] + batch[1..];
    assert Replay(f) + batch == Replay(f) + [batch[0]] + batch[1..];
    assert multiset(Replay(AppendLines(f, batch))) == multiset(f.lines) + multiset(batch[1..]);
  }

  lemma ViewTornReplay(f: WalFile, batch: seq<UsageEvent>, whole: nat, tail: WalTail)
    requires TornAppend(batch, whole, tail) && f.tail.Clean?
    ensures Replay(AppendTorn(f, batch, whole, tail)) == Replay(f) + TornEvents(batch, whole, tail)
  {
  }

  function ReplayId(wal: WalDir, id: nat): seq<UsageEvent>
  {
    if id in wal then Replay(wal[id]) else []
  }

  /** The events of the files numbered above `lo` up to `hi`, in file order. */
  function ReplayRange(wal: WalDir, lo: nat, hi: nat): seq<UsageEvent>
  {
    if hi <= lo then [] else ReplayRange(wal, lo, hi - 1) + ReplayId(wal, hi)
  }

  lemma {:induction false} ReplaySplit(wal: WalDir, lo: nat, mid: nat, hi: nat)
    requires lo <= mid <= hi
    ensures ReplayRange(wal, lo, hi) == ReplayRange(wal, lo, mid) + ReplayRange(wal, mid, hi)
  {
    if mid < hi {
      ReplaySplit(wal, lo, mid, hi - 1);
    }
  }

  lemma {:induction false} ReplaySame(wal: WalDir, wal': WalDir, lo: nat, hi: nat)
    requires forall id :: lo < id <= hi ==> ReplayId(wal, id) == ReplayId(wal', id)
    ensures ReplayRange(wal, lo, hi) == ReplayRange(wal', lo, hi)
  {
    if lo < hi {
      ReplaySame(wal, wal', lo, hi - 1);
    }
  }

  /** Files beyond the highest id contribute nothing. */
  lemma {:induction false} ReplayBeyond(wal: WalDir, lo: nat, hi: nat, hi': nat)
    requires hi <= hi' && forall id :: id in wal ==> id <= hi || id <= lo
    ensures ReplayRange(wal, lo, hi') == ReplayRange(wal, lo, hi)
  {
    if hi < hi' && lo < hi' {
      ReplayBeyond(wal, lo, hi, hi' - 1);
    }
  }

  /** The file `open` appends to: the highest id above `lastSealed`, else the next id. */
  ghost predicate IsActiveId(wal: WalDir, lastSealed: nat, id: nat)
  {
    && lastSealed < id
    && (forall k :: k in wal ==> k <= id || k <= lastSealed)
    && (id in wal || id == lastSealed + 1)
  }

  lemma ActiveIdUnique(wal: WalDir, lastSealed: nat, a: nat, b: nat)
    requires IsActiveId(wal, lastSealed, a) && IsActiveId(wal, lastSealed, b)
    ensures a == b
  {
  }

  function OpenActive(wal: WalDir, id: nat): WalDir
  {
    if id in wal then wal else wal[id := EMPTY_FILE]
  }

  predicate Ascending(ids: seq<nat>)
  {
    forall i, j :: 0 <= i < j < |ids| ==> ids[i] < ids[j]
  }

  function ReplayFiles(wal: WalDir, ids: seq<nat>): seq<UsageEvent>
  {
    if ids == [] then [] else ReplayFiles(wal, ids[..|ids| - 1]) + ReplayId(wal, ids[|ids| - 1])
  }

  /** `ids` lists, in order, the files of `wal` numbered above `lo` up to `hi`. */
  ghost predicate Listing(wal: WalDir, ids: seq<nat>, lo: nat, hi: nat)
  {
    Ascending(ids) && forall id :: id in ids <==> id in wal && lo < id <= hi
  }

  lemma HeadIsMember(ids: seq<nat>)
    ensures ids == [] || ids[0] in ids
  {
  }

  lemma ListingEmpty(wal: WalDir, ids: seq<nat>, lo: nat, hi: nat)
    requires Listing(wal, ids, lo, hi) && hi <= lo
    ensures ids == []
  {
    HeadIsMember(ids);
  }

  lemma ListingLast(wal: WalDir, ids: seq<nat>, lo: nat, hi: nat)
    requires Listing(wal, ids, lo, hi) && lo < hi && hi in wal
    ensures ids != [] && ids[|ids| - 1] == hi
    ensures Listing(wal, ids[..|ids| - 1], lo, hi - 1)
  {
    assert hi in ids;
    var n := |ids| - 1;
    var k :| 0 <= k <= n && ids[k] == hi;
    assert ids[n] in ids;
    forall id | id in ids[..n] ensures id in wal && lo < id <= hi - 1 {
      var i :| 0 <= i < n && ids[i] == id;
      assert id in ids && ids[i] < ids[n];
    }
    forall id | id in wal && lo < id <= hi - 1 ensures id in ids[..n] {
      assert id in ids;
      var i :| 0 <= i <= n && ids[i] == id;
      assert ids[..n][i] == id;
    }
  }

  /** Replaying the listed files one after another is replaying the whole range. */
  lemma {:induction false} ReplayListed(wal: WalDir, ids: seq<nat>, lo: nat, hi: nat)
    requires Listing(wal, ids, lo, hi)
    ensures ReplayFiles(wal, ids) == ReplayRange(wal, lo, hi)
    decreases hi
  {
    hide Listing, ReplayId;
    if hi <= lo {
      ListingEmpty(wal, ids, lo, hi);
    } else if hi in wal {
      ListingLast(wal, ids, lo, hi);
      ReplayListed(wal, ids[..|ids| - 1], lo, hi - 1);
    } else {
      ListingSkips(wal, ids, lo, hi);
      ReplayListed(wal, ids, lo, hi - 1);
      assert ReplayRange(wal, lo, hi - 1) + [] == ReplayRange(wal, lo, hi - 1);
    }
  }

  lemma ListingSkips(wal: WalDir, ids: seq<nat>, lo: nat, hi: nat)
    requires Listing(wal, ids, lo, hi) && 0 < hi && hi !in wal
    ensures Listing(wal, ids, lo, hi - 1) && ReplayId(wal, hi) == []
  {
  }

  /** Directory walk that removes every file numbered `upTo` or below. */
  method DeleteFilesOf<T>(dir: map<nat, T>, upTo: nat) returns (left: map<nat, T>)
    ensures left == DeleteThrough(dir, upTo)
  {
    left := dir;
    var rest := dir.Keys;
    while rest != {}
      invariant rest <= dir.Keys
      invariant left.Keys == set id | id in dir && (id in rest || upTo < id)
      invariant forall id :: id in left ==> left[id] == dir[id]
      decreases |rest|
    {
      var id :| id in rest;
      rest := rest - {id};
      if id <= upTo {
        left := left - {id};
      }
    }
  }

  function DeleteThrough<T>(dir: map<nat, T>, upTo: nat): map<nat, T>
  {
    map id | id in dir && upTo < id :: dir[id]
  }

  /** Insertion into an ascending list: the listing is sorted before it is used. */
  function InsertId(ids: seq<nat>, id: nat): (r: seq<nat>)
    requires Ascending(ids)
    ensures Ascending(r)
    ensures forall k :: k in r <==> k in ids || k == id
    decreases |ids|
  {
    if ids == [] then [id]
    else
      var n := |ids| - 1;
      assert forall k :: k in ids <==> k in ids[..n] || k == ids[n];
      if ids[n] < id then ids + [id]
      else if ids[n] == id then ids
      else
        var front := InsertId(ids[..n], id);
        assert forall i :: 0 <= i < |front| ==> front[i] in front;
        front + [ids[n]]
  }

  method ListFilesAfter<T>(dir: map<nat, T>, lastSealed: nat) returns (ids: seq<nat>)
    ensures Ascending(ids)
    ensures forall id :: id in ids <==> id in dir && lastSealed < id
  {
    ids := [];
    var rest := dir.Keys;
    while rest != {}
      invariant rest <= dir.Keys
      invariant Ascending(ids)
      invariant forall id :: id in ids <==> id in dir && id !in rest && lastSealed < id
      decreases |rest|
    {
      var id :| id in rest;
      rest := rest - {id};
      if lastSealed < id {
        ids := InsertId(ids, id);
      }
    }
  }
}
