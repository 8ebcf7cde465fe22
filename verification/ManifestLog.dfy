/** The manifest on disk: numbered generation files, a CURRENT file, and a crash at any point of a
    save. */
module ManifestLog {
  import opened Model
  import opened Manifests
  import opened Query
  import opened Sql

  const KEEP_GENERATIONS: nat := 10
  const U64_MAX: nat := 0xFFFF_FFFF_FFFF_FFFF

  /** JSON of a manifest.  The generation number is not part of it. */
  datatype ManifestJson = ManifestJson(encode: Manifest -> string, decode: string -> Option<Manifest>)

  ghost predicate RoundTrips(j: ManifestJson)
  {
    forall m: Manifest :: j.decode(j.encode(m)) == Some(m)
  }

  /** The files of a database that hold manifests. */
  datatype Dir = Dir(
    gens: map<nat, string>,
    genTmps: map<nat, string>,
    current: Option<string>,
    currentTmp: Option<string>,
    legacy: Option<string>)

  // The CURRENT file.

  predicate IsSpace(ch: char) { ch == ' ' || ch == '\t' || ch == '\n' || ch == '\r' }

  function TrimSpace(s: string): string
    decreases |s|
  {
    if s == "" then ""
    else if IsSpace(s[0]) then TrimSpace(s[1..])
    else if IsSpace(s[|s| - 1]) then TrimSpace(s[..|s| - 1])
    else s
  }

  function ParseU64(s: string): Option<nat>
  {
    var digits := if s != "" && s[0] == '+' then s[1..] else s;
    if digits == "" || !AllDigits(digits) || DigitsValue(digits) > U64_MAX then None else Some(DigitsValue(digits))
  }

  /** The number a save writes into CURRENT is the number a load reads from it. */
  lemma CurrentRoundTrip(g: nat)
    requires g <= U64_MAX
    ensures ParseU64(TrimSpace(Digits(g))) == Some(g)
  {
    hide Digits, DigitsValue;
    DigitsRoundTrip(g);
    var s := Digits(g);
    assert '0' <= s[0] <= '9' && '0' <= s[|s| - 1] <= '9';
  }

  // Loading.

  function Intact(j: ManifestJson, dir: Dir, g: nat): Option<Manifest>
  {
    if g in dir.gens then j.decode(dir.gens[g]) else None
  }

  /** Walk from generation `g` down to the first that parses. */
  function WalkBack(j: ManifestJson, dir: Dir, g: nat): (r: Option<(Manifest, nat)>)
    ensures r.Some? ==> 0 < r.value.1 <= g
  {
    if g == 0 then None
    else if Intact(j, dir, g).Some? then Some((Intact(j, dir, g).value, g))
    else WalkBack(j, dir, g - 1)
  }

  function LoadGenerations(j: ManifestJson, dir: Dir, current: string): Result<(Manifest, nat)>
  {
    var g := ParseU64(TrimSpace(current));
    if g.None? then Err("CURRENT")
    else
      var found := WalkBack(j, dir, g.value);
      if found.Some? then Ok(found.value) else Err("generations")
  }

  /** What the files say: a manifest and its generation, or that the database is new. */
  function Stored(j: ManifestJson, dir: Dir): Result<Option<(Manifest, nat)>>
  {
    if dir.current.Some? then
      (match LoadGenerations(j, dir, dir.current.value)
       case Ok(found) => Ok(Some(found))
       case Err(m) => Err(m))
    else if dir.legacy.Some? then
      (match j.decode(dir.legacy.value)
       case Some(m) => Ok(Some((m, 0)))
       case None => Err("legacy"))
    else Ok(None)
  }

  /** `g` is the newest generation at or below `top` that parses. */
  ghost predicate NewestIntact(j: ManifestJson, dir: Dir, top: nat, g: nat)
  {
    && 0 < g <= top && Intact(j, dir, g).Some?
    && forall k :: g < k <= top ==> Intact(j, dir, k).None?
  }

  /** Whatever has happened to the files, a load finds the newest intact generation at or below
      CURRENT, and fails only if there is none. */
  lemma {:induction false} WalkBackFindsNewest(j: ManifestJson, dir: Dir, top: nat)
    ensures WalkBack(j, dir, top).Some? <==> exists g: nat :: NewestIntact(j, dir, top, g)
    ensures forall g: nat :: NewestIntact(j, dir, top, g) ==>
            WalkBack(j, dir, top) == Some((Intact(j, dir, g).value, g))
  {
    hide Intact;
    if top > 0 && Intact(j, dir, top).Some? {
      assert NewestIntact(j, dir, top, top);
    } else if top > 0 {
      var below := top - 1;
      WalkBackFindsNewest(j, dir, below);
      forall g: nat ensures NewestIntact(j, dir, top, g) <==> NewestIntact(j, dir, below, g) {
      }
      if g: nat :| NewestIntact(j, dir, below, g) { assert NewestIntact(j, dir, top, g); }
    }
  }

  // Saving.

  /** How far a save of `text` as generation `next` got before the process died. */
  datatype Stage =
    | Nothing
    | GenerationTmp(written: string)
    | GenerationRenamed
    | CurrentTmp(written: string)
    | CurrentRenamed
    | Pruning(deleted: set<nat>)

  predicate Prunable(current: nat, g: nat)
  {
    current > KEEP_GENERATIONS && g < current - KEEP_GENERATIONS + 1
  }

  function After(dir: Dir, next: nat, text: string, stage: Stage): Dir
  {
    var renamed := dir.(gens := dir.gens[next := text], genTmps := dir.genTmps - {next});
    var pointed := renamed.(current := Some(Digits(next)), currentTmp := None);
    match stage
    case Nothing => dir
    case GenerationTmp(written) => dir.(genTmps := dir.genTmps[next := written])
    case GenerationRenamed => renamed
    case CurrentTmp(written) => renamed.(currentTmp := Some(written))
    case CurrentRenamed => pointed
    case Pruning(deleted) => pointed.(gens := pointed.gens - deleted)
  }

  predicate Possible(next: nat, stage: Stage)
  {
    stage.Pruning? ==> forall g :: g in stage.deleted ==> Prunable(next, g)
  }

  predicate Reached(stage: Stage) { stage.CurrentRenamed? || stage.Pruning? }

  /** The directory after a completed save. */
  function Saved(dir: Dir, next: nat, text: string): Dir
  {
    After(dir, next, text, Pruning(set g | g in dir.gens && Prunable(next, g)))
  }

  /** `dir` stores `m` as generation `g`, and a load will say so. */
  ghost predicate Holds(j: ManifestJson, dir: Dir, m: Manifest, g: nat)
  {
    && dir.current == Some(Digits(g)) && 0 < g <= U64_MAX
    && g in dir.gens && j.decode(dir.gens[g]) == Some(m)
  }

  lemma HoldsMeansStored(j: ManifestJson, dir: Dir, m: Manifest, g: nat)
    requires Holds(j, dir, m, g)
    ensures Stored(j, dir) == Ok(Some((m, g)))
  {
    CurrentRoundTrip(g);
  }

  /** The generation the next save builds on. */
  function Base(j: ManifestJson, dir: Dir): nat
  {
    var s := Stored(j, dir);
    if s.Ok? && s.value.Some? then s.value.value.1 else 0
  }

  /** The directory is one a program that only ever saves and crashes can leave behind. */
  ghost predicate Sane(j: ManifestJson, dir: Dir)
  {
    || (dir.current.None? && Stored(j, dir).Ok?)
    || (exists m, g :: Holds(j, dir, m, g))
  }

  /** A save is atomic: wherever it stops, a load sees the manifest from before or the new one; and
      the new one exactly from the rename of CURRENT on. */
  lemma SaveIsAtomic(j: ManifestJson, dir: Dir, m: Manifest, stage: Stage)
    requires RoundTrips(j) && Sane(j, dir) && Base(j, dir) < U64_MAX && Possible(Base(j, dir) + 1, stage)
    ensures var dir' := After(dir, Base(j, dir) + 1, j.encode(m), stage);
            && Sane(j, dir')
            && Stored(j, dir') == if Reached(stage) then Ok(Some((m, Base(j, dir) + 1))) else Stored(j, dir)
  {
    hide WalkBack, ParseU64, TrimSpace, Digits;
    var next := Base(j, dir) + 1;
    var dir' := After(dir, next, j.encode(m), stage);
    if Reached(stage) {
      assert Holds(j, dir', m, next);
      HoldsMeansStored(j, dir', m, next);
    } else if dir.current.Some? {
      var m0, g :| Holds(j, dir, m0, g);
      HoldsMeansStored(j, dir, m0, g);
      assert Holds(j, dir', m0, g);
      HoldsMeansStored(j, dir', m0, g);
    }
  }

  // Whole runs.

  datatype LogStep =
    | Save(manifest: Manifest)
    | CrashIn(manifest: Manifest, stage: Stage)
    | DropLegacy

  /** Saves complete or crash; a restart in between loads what is stored and goes on from there.  The
      legacy file disappears only after a save has replaced it. */
  ghost predicate LogNext(j: ManifestJson, dir: Dir, step: LogStep, dir': Dir)
  {
    && Base(j, dir) < U64_MAX
    && var next := Base(j, dir) + 1;
       match step
       case Save(m) => dir' == Saved(dir, next, j.encode(m))
       case CrashIn(m, stage) => Possible(next, stage) && dir' == After(dir, next, j.encode(m), stage)
       case DropLegacy => dir.current.Some? && dir' == dir.(legacy := None)
  }

  ghost predicate LogRun(j: ManifestJson, dirs: seq<Dir>, steps: seq<LogStep>)
  {
    && |dirs| == |steps| + 1
    && forall i :: 0 <= i < |steps| ==> LogNext(j, dirs[i], steps[i], dirs[i + 1])
  }

  /** Step `i` saved `m`, and no later save completed. */
  ghost predicate LatestSave(steps: seq<LogStep>, i: nat, m: Manifest)
  {
    && i < |steps| && !steps[i].DropLegacy? && steps[i].manifest == m
    && forall k :: i < k < |steps| ==> !steps[k].Save?
  }

  ghost predicate NoneCompleted(steps: seq<LogStep>)
  {
    forall k :: 0 <= k < |steps| ==> !steps[k].Save?
  }

  lemma StepIsAtomic(j: ManifestJson, dir: Dir, step: LogStep, dir': Dir)
    requires RoundTrips(j) && Sane(j, dir) && LogNext(j, dir, step, dir')
    ensures Sane(j, dir')
    ensures step.Save? ==> Stored(j, dir') == Ok(Some((step.manifest, Base(j, dir) + 1)))
    ensures step.CrashIn? ==>
              Stored(j, dir') == Stored(j, dir) || Stored(j, dir') == Ok(Some((step.manifest, Base(j, dir) + 1)))
    ensures step.DropLegacy? ==> Stored(j, dir') == Stored(j, dir)
  {
    hide WalkBack, ParseU64, TrimSpace, Digits, After, Prunable;
    var next := Base(j, dir) + 1;
    match step
    case Save(m) => SaveIsAtomic(j, dir, m, Pruning(set g | g in dir.gens && Prunable(next, g)));
    case CrashIn(m, stage) => SaveIsAtomic(j, dir, m, stage);
    case DropLegacy =>
      var m0, g :| Holds(j, dir, m0, g);
      HoldsMeansStored(j, dir, m0, g);
      assert Holds(j, dir', m0, g);
      HoldsMeansStored(j, dir', m0, g);
  }

  /** After any run of saves and crashes, a load returns the manifest of the last completed save or of
      a save that crashed after it, never an older one; before the first completed save it may also
      still return what was stored at the start. */
  lemma {:induction false} LoadReturnsLatest(j: ManifestJson, dirs: seq<Dir>, steps: seq<LogStep>)
    requires RoundTrips(j) && LogRun(j, dirs, steps) && Sane(j, dirs[0])
    ensures Sane(j, dirs[|steps|])
    ensures var stored := Stored(j, dirs[|steps|]);
            || (stored == Stored(j, dirs[0]) && NoneCompleted(steps))
            || (stored.Ok? && stored.value.Some? && exists i :: LatestSave(steps, i, stored.value.value.0))
    decreases |steps|
  {
    hide Stored, Sane, LogNext;
    if steps != [] {
      var n := |steps| - 1;
      var front := steps[..n];
      LoadReturnsLatest(j, dirs[..n + 1], front);
      StepIsAtomic(j, dirs[n], steps[n], dirs[n + 1]);
      var before, after := Stored(j, dirs[n]), Stored(j, dirs[n + 1]);
      if after == before && !steps[n].Save? {
        if i :| before.Ok? && before.value.Some? && LatestSave(front, i, before.value.value.0) {
          assert LatestSave(steps, i, before.value.value.0);
        }
      } else {
        assert LatestSave(steps, n, after.value.value.0);
      }
    }
  }

  // History.

  /** The step got as far as pointing CURRENT at its generation. */
  predicate Publishes(step: LogStep)
  {
    step.Save? || (step.CrashIn? && Reached(step.stage))
  }

  /** The manifests a run published, in order. */
  function Published(steps: seq<LogStep>): seq<Manifest>
  {
    if steps == [] then []
    else
      var last := steps[|steps| - 1];
      Published(steps[..|steps| - 1]) + if Publishes(last) then [last.manifest] else []
  }

  /** A database that never saved; it may have a legacy manifest. */
  ghost predicate NeverSaved(j: ManifestJson, dir: Dir)
  {
    dir.gens == map[] && dir.current.None? && Stored(j, dir).Ok?
  }

  /** `dir` retains `ms`, of which the last is current: every generation file up to CURRENT holds the
      manifest published under its number, the last ten are there, and at most one file lies beyond. */
  ghost predicate History(j: ManifestJson, dir: Dir, ms: seq<Manifest>)
  {
    && |ms| <= U64_MAX
    && dir.current == (if ms == [] then None else Some(Digits(|ms|)))
    && (forall g :: g in dir.gens ==> 0 < g <= |ms| + 1)
    && (forall g :: g in dir.gens && 0 < g <= |ms| ==> dir.gens[g] == j.encode(ms[g - 1]))
    && (forall g :: 0 < g <= |ms| && !Prunable(|ms|, g) ==> g in dir.gens)
  }

  /** Nothing but the last ten generations is there. */
  ghost predicate OnlyTen(dir: Dir, n: nat)
  {
    forall g :: g in dir.gens <==> 0 < g <= n && !Prunable(n, g)
  }

  lemma HistoryIsStored(j: ManifestJson, dir: Dir, ms: seq<Manifest>)
    requires RoundTrips(j) && History(j, dir, ms) && (ms == [] ==> Stored(j, dir).Ok?)
    ensures Base(j, dir) == |ms|
  {
    hide Digits, WalkBack, ParseU64, TrimSpace;
    if ms != [] {
      var n := |ms|;
      assert n in dir.gens && dir.gens[n] == j.encode(ms[n - 1]);
      HoldsMeansStored(j, dir, ms[n - 1], n);
    }
  }

  /** Publishing `m` keeps the history, whichever old generations are removed. */
  lemma PublishKeepsHistory(j: ManifestJson, dir: Dir, m: Manifest, deleted: set<nat>, dir': Dir, ms: seq<Manifest>)
    requires History(j, dir, ms) && |ms| < U64_MAX && forall g :: g in deleted ==> Prunable(|ms| + 1, g)
    requires dir'.current == Some(Digits(|ms| + 1)) && dir'.gens == dir.gens[|ms| + 1 := j.encode(m)] - deleted
    ensures History(j, dir', ms + [m])
    ensures (forall g :: g in dir.gens && Prunable(|ms| + 1, g) ==> g in deleted) ==> OnlyTen(dir', |ms| + 1)
  {
    hide Digits;
    var ms', n := ms + [m], |ms| + 1;
    forall g | g in dir'.gens ensures 0 < g <= n && dir'.gens[g] == j.encode(ms'[g - 1]) {
      if g != n { assert g in dir.gens && 0 < g <= |ms| && ms'[g - 1] == ms[g - 1]; }
    }
    forall g | 0 < g <= n && !Prunable(n, g) ensures g in dir'.gens {
      assert g != n ==> !Prunable(|ms|, g);
    }
  }

  /** A step that publishes nothing touches no published generation. */
  lemma OtherStepKeepsHistory(j: ManifestJson, dir: Dir, step: LogStep, dir': Dir, ms: seq<Manifest>)
    requires History(j, dir, ms) && Base(j, dir) == |ms| && LogNext(j, dir, step, dir') && !Publishes(step)
    ensures History(j, dir', ms) && dir'.current == dir.current && (dir.current.None? ==> dir'.legacy == dir.legacy)
  {
    hide Digits, WalkBack, ParseU64, TrimSpace, Stored, Prunable;
  }

  /** One step keeps the history, and a completed save leaves nothing else. */
  lemma StepKeepsHistory(j: ManifestJson, dir: Dir, step: LogStep, dir': Dir, ms: seq<Manifest>)
    requires RoundTrips(j) && History(j, dir, ms) && (ms == [] ==> Stored(j, dir).Ok?) && LogNext(j, dir, step, dir')
    ensures var ms' := ms + if Publishes(step) then [step.manifest] else [];
            History(j, dir', ms') && (ms' == [] ==> Stored(j, dir').Ok?) && (step.Save? ==> OnlyTen(dir', |ms'|))
  {
    hide Digits, LoadGenerations, Prunable, RoundTrips, OnlyTen;
    HistoryIsStored(j, dir, ms);
    var next := |ms| + 1;
    if Publishes(step) {
      hide History;
      var stage := if step.Save? then Pruning(set g | g in dir.gens && Prunable(next, g)) else step.stage;
      var deleted := if stage.Pruning? then stage.deleted else {};
      var renamed := dir.gens[next := j.encode(step.manifest)];
      assert renamed - {} == renamed;
      PublishKeepsHistory(j, dir, step.manifest, deleted, dir', ms);
    } else {
      OtherStepKeepsHistory(j, dir, step, dir', ms);
      assert ms + [] == ms;
    }
  }

  /** After any run of saves and crashes from a database that never saved, every retained generation at
      or below CURRENT holds the manifest of the save that published it, the last ten published are
      retained, and right after a completed save nothing else is. */
  lemma {:induction false} RunKeepsHistory(j: ManifestJson, dirs: seq<Dir>, steps: seq<LogStep>)
    requires RoundTrips(j) && LogRun(j, dirs, steps) && NeverSaved(j, dirs[0])
    ensures History(j, dirs[|steps|], Published(steps))
    ensures Published(steps) == [] ==> Stored(j, dirs[|steps|]).Ok?
    ensures steps != [] && steps[|steps| - 1].Save? ==> OnlyTen(dirs[|steps|], |Published(steps)|)
    decreases |steps|
  {
    hide Stored, LogNext, OnlyTen, Publishes;
    if steps != [] {
      hide History;
      var n := |steps| - 1;
      RunKeepsHistory(j, dirs[..n + 1], steps[..n]);
      StepKeepsHistory(j, dirs[n], steps[n], dirs[n + 1], Published(steps[..n]));
    }
  }

  /** After any such run: if the generation files above `k` are destroyed and generation `k` is one of
      the last ten and untouched, a load goes back to the `k`-th published manifest. */
  lemma CorruptionRollsBack(j: ManifestJson, dirs: seq<Dir>, steps: seq<LogStep>, dir: Dir, k: nat)
    requires RoundTrips(j) && LogRun(j, dirs, steps) && NeverSaved(j, dirs[0])
    requires 0 < k <= |Published(steps)| && !Prunable(|Published(steps)|, k)
    requires var whole := dirs[|steps|];
             dir.current == whole.current && k in dir.gens && (k in whole.gens ==> dir.gens[k] == whole.gens[k])
    requires forall g :: k < g <= |Published(steps)| ==> Intact(j, dir, g).None?
    ensures Stored(j, dir) == Ok(Some((Published(steps)[k - 1], k)))
  {
    hide WalkBack, ParseU64, TrimSpace, Digits, Published, LogRun, NeverSaved;
    assert |dirs| == |steps| + 1 by { LogRunLength(j, dirs, steps); }
    RunKeepsHistory(j, dirs, steps);
    var n := |Published(steps)|;
    CurrentRoundTrip(n);
    assert NewestIntact(j, dir, n, k);
    WalkBackFindsNewest(j, dir, n);
  }

  lemma LogRunLength(j: ManifestJson, dirs: seq<Dir>, steps: seq<LogStep>)
    requires LogRun(j, dirs, steps)
    ensures |dirs| == |steps| + 1
  {
  }

  // The code, step by step on the directory.

  class ManifestStore {
    var dir: Dir
    var currentGeneration: nat
    const json: ManifestJson

    constructor (dir: Dir, json: ManifestJson)
      ensures this.dir == dir && this.json == json && currentGeneration == 0
    {
      this.dir, this.json, this.currentGeneration := dir, json, 0;
    }

    method Save(m: Manifest)
      modifies this
      ensures dir == Saved(old(dir), old(currentGeneration) + 1, json.encode(m))
      ensures currentGeneration == old(currentGeneration) + 1
    {
      var next := currentGeneration + 1;
      var text := json.encode(m);
      dir := dir.(genTmps := dir.genTmps[next := text]);
      assert dir == After(old(dir), next, text, GenerationTmp(text));
      dir := dir.(gens := dir.gens[next := dir.genTmps[next]], genTmps := dir.genTmps - {next});
      assert old(dir).genTmps[next := text] - {next} == old(dir).genTmps - {next};
      assert dir == After(old(dir), next, text, GenerationRenamed);
      dir := dir.(currentTmp := Some(Digits(next)));
      assert dir == After(old(dir), next, text, CurrentTmp(Digits(next)));
      dir := dir.(current := dir.currentTmp, currentTmp := None);
      assert dir == After(old(dir), next, text, CurrentRenamed);
      currentGeneration := next;
      PruneOldGenerations(next);
      assert dir.gens
          == After(old(dir), next, text, CurrentRenamed).gens - (set g | g in old(dir).gens && Prunable(next, g));
    }

    method PruneOldGenerations(current: nat)
      modifies this`dir
      ensures dir == old(dir).(gens := old(dir).gens - set g | g in old(dir).gens && Prunable(current, g))
    {
      if current <= KEEP_GENERATIONS {
        assert old(dir).gens - {} == old(dir).gens;
        assert (set g | g in old(dir).gens && Prunable(current, g)) == {};
        return;
      }
      var floor := current - KEEP_GENERATIONS + 1;
      var entries := dir.gens.Keys;
      while entries != {}
        invariant entries <= old(dir).gens.Keys
        invariant dir == old(dir).(gens := old(dir).gens - set g | g in old(dir).gens && g !in entries && g < floor)
        decreases entries
      {
        var g :| g in entries;
        ghost var gone := set k | k in old(dir).gens && k !in entries && k < floor;
        entries := entries - {g};
        if g < floor {
          dir := dir.(gens := dir.gens - {g});
          assert (set k | k in old(dir).gens && k !in entries && k < floor) == gone + {g};
          assert old(dir).gens - (gone + {g}) == old(dir).gens - gone - {g};
        } else {
          assert (set k | k in old(dir).gens && k !in entries && k < floor) == gone;
        }
      }
      assert (set g | g in old(dir).gens && Prunable(current, g))
          == set g | g in old(dir).gens && g !in entries && g < floor;
    }

    method LoadFromGenerations(current: string) returns (r: Result<Manifest>)
      modifies this`currentGeneration
      ensures match LoadGenerations(json, dir, current)
              case Ok(found) => r == Ok(found.0) && currentGeneration == found.1
              case Err(m) => r == Err(m) && currentGeneration == old(currentGeneration)
    {
      hide ParseU64, TrimSpace;
      var top := ParseU64(TrimSpace(current));
      if top.None? { return Err("CURRENT"); }
      var g := top.value;
      while g > 0
        invariant WalkBack(json, dir, top.value) == WalkBack(json, dir, g)
      {
        if g in dir.gens {
          var parsed := json.decode(dir.gens[g]);
          if parsed.Some? {
            currentGeneration := g;
            return Ok(parsed.value);
          }
        }
        g := g - 1;
      }
      r := Err("generations");
    }

    /** Load; a legacy file is migrated into generation 1 and removed. */
    method Load() returns (r: Result<Option<Manifest>>)
      requires currentGeneration == 0
      modifies this
      ensures match Stored(json, old(dir))
              case Err(m) => r == Err(m) && dir == old(dir)
              case Ok(None) => r == Ok(None) && dir == old(dir)
              case Ok(Some(found)) =>
                && r == Ok(Some(found.0))
                && (found.1 > 0 ==> currentGeneration == found.1 && dir == old(dir))
                && (found.1 == 0 ==>
                      currentGeneration == 1 && dir == Saved(old(dir), 1, json.encode(found.0)).(legacy := None))
                && (RoundTrips(json) ==> Stored(json, dir) == Ok(Some((found.0, currentGeneration))))
    {
      hide ParseU64, TrimSpace, Digits, WalkBack, After;
      if dir.current.Some? {
        var loaded := LoadFromGenerations(dir.current.value);
        if loaded.Err? { return Err(loaded.message); }
        r := Ok(Some(loaded.value));
      } else if dir.legacy.Some? {
        var parsed := json.decode(dir.legacy.value);
        if parsed.None? { return Err("legacy"); }
        Save(parsed.value);
        if RoundTrips(json) { MigrationKeeps(json, old(dir), parsed.value); }
        dir := dir.(legacy := None);
        r := Ok(Some(parsed.value));
      } else {
        r := Ok(None);
      }
    }
  }

  lemma MigrationKeeps(j: ManifestJson, dir: Dir, m: Manifest)
    requires RoundTrips(j) && dir.current.None? && Stored(j, dir) == Ok(Some((m, 0)))
    ensures Stored(j, Saved(dir, 1, j.encode(m)).(legacy := None)) == Ok(Some((m, 1)))
  {
    hide ParseU64, TrimSpace, Digits, WalkBack, After, Prunable;
    var dir' := Saved(dir, 1, j.encode(m));
    StepIsAtomic(j, dir, LogStep.Save(m), dir');
    assert dir'.current.Some? by { SavedPoints(dir, 1, j.encode(m)); }
    StepIsAtomic(j, dir', DropLegacy, dir'.(legacy := None));
  }

  lemma SavedPoints(dir: Dir, next: nat, text: string)
    ensures Saved(dir, next, text).current == Some(Digits(next))
  {
  }
}
