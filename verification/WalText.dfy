/** The write-ahead log on disk: text files of one JSON line per event, opened in append mode, split at
    newlines on replay, and cut anywhere by a crash. */
module WalText {
  import opened Model
  import opened Wals

  /** JSON of one event. */
  datatype LineJson = LineJson(encode: UsageEvent -> string, decode: string -> Option<UsageEvent>)

  predicate IsBlank(s: string)
  {
    forall i :: 0 <= i < |s| ==> s[i] == ' ' || s[i] == '\t' || s[i] == '\n' || s[i] == '\r'
  }

  predicate OneLine(s: string) { '\n' !in s }

  /** An object is written on one line and read back; no proper piece of it is an object; and text that
      begins like an object followed by another object, or a piece of one, is not an object. */
  ghost predicate LineJsonOk(j: LineJson)
  {
    && (forall e: UsageEvent ::
          OneLine(j.encode(e)) && j.encode(e) != "" && j.encode(e)[0] == '{' && j.decode(j.encode(e)) == Some(e))
    && (forall e: UsageEvent, k: nat :: 0 < k < |j.encode(e)| ==> j.decode(j.encode(e)[..k]) == None)
    && (forall p: string, e: UsageEvent, k: nat ::
          p != "" && p[0] == '{' && 0 < k <= |j.encode(e)| ==> j.decode(p + j.encode(e)[..k]) == None)
  }

  // Writing.

  /** What appending a batch adds to a file. */
  function Written(j: LineJson, batch: seq<UsageEvent>): string
  {
    if batch == [] then "" else Written(j, batch[..|batch| - 1]) + j.encode(batch[|batch| - 1]) + "\n"
  }

  // Reading.

  /** The complete lines of a text, and what stands after the last newline. */
  function Split(f: string): (seq<string>, string)
  {
    if f == "" then ([], "")
    else
      var (lines, tail) := Split(f[..|f| - 1]);
      if f[|f| - 1] == '\n' then (lines + [tail], "") else (lines, tail + [f[|f| - 1]])
  }

  function ParseLine(j: LineJson, line: string): seq<UsageEvent>
  {
    if IsBlank(line) || j.decode(line).None? then [] else [j.decode(line).value]
  }

  function ParseLines(j: LineJson, lines: seq<string>): seq<UsageEvent>
  {
    if lines == [] then [] else ParseLines(j, lines[..|lines| - 1]) + ParseLine(j, lines[|lines| - 1])
  }

  /** Replay: every line that parses, the last one even without its newline. */
  function ReplayText(j: LineJson, f: string): seq<UsageEvent>
  {
    ParseLines(j, Split(f).0) + ParseLine(j, Split(f).1)
  }

  /** The loop over the lines of a file. */
  method ReplayFile(j: LineJson, f: string) returns (events: seq<UsageEvent>)
    ensures events == ReplayText(j, f)
  {
    events := [];
    var line := "";
    ghost var lines: seq<string> := [];
    for i := 0 to |f|
      invariant Split(f[..i]) == (lines, line) && events == ParseLines(j, lines)
    {
      assert f[..i + 1][..i] == f[..i];
      if f[i] == '\n' {
        assert (lines + [line])[..|lines|] == lines;
        events := events + ParseLine(j, line);
        lines := lines + [line];
        line := "";
      } else {
        line := line + [f[i]];
      }
    }
    assert f[..|f|] == f;
    events := events + ParseLine(j, line);
  }

  // The view of a file that the engine's steps use.

  function TailOf(j: LineJson, tail: string): WalTail
  {
    if tail == "" then Clean
    else if ParseLine(j, tail) == [] then Partial
    else Unterminated(ParseLine(j, tail)[0])
  }

  function ViewOf(j: LineJson, f: string): WalFile
  {
    WalFile(ParseLines(j, Split(f).0), TailOf(j, Split(f).1))
  }

  lemma ViewReplays(j: LineJson, f: string)
    ensures Replay(ViewOf(j, f)) == ReplayText(j, f)
  {
    var tail := Split(f).1;
    assert IsBlank("");
    if tail == "" { assert ParseLine(j, tail) == []; }
  }

  /** The file ends with a newline, or is empty. */
  predicate EndsLine(f: string)
  {
    f == "" || f[|f| - 1] == '\n'
  }

  lemma CleanIffEndsLine(j: LineJson, f: string)
    ensures ViewOf(j, f).tail.Clean? <==> EndsLine(f)
    ensures Split(f).1 == "" <==> EndsLine(f)
  {
    if f != "" {
      var (lines, tail) := Split(f[..|f| - 1]);
    }
  }

  /** Whatever stands after the last newline begins like an object; every append keeps this. */
  predicate Tidy(f: string)
  {
    Split(f).1 == "" || Split(f).1[0] == '{'
  }

  // Splitting what has been appended.

  lemma {:induction false} SplitJoin(f: string, g: string)
    requires OneLine(g)
    ensures Split(f + g) == (Split(f).0, Split(f).1 + g)
    decreases |g|
  {
    if g == "" {
      assert f + g == f && Split(f).1 + g == Split(f).1;
    } else {
      var n := |g| - 1;
      assert g[n] in g && forall ch :: ch in g[..n] ==> ch in g;
      SplitJoin(f, g[..n]);
      assert (f + g)[..|f + g| - 1] == f + g[..n];
      assert Split(f).1 + g[..n] + [g[n]] == Split(f).1 + g;
    }
  }

  lemma SplitLine(f: string, g: string)
    requires OneLine(g)
    ensures Split(f + g + "\n") == (Split(f).0 + [Split(f).1 + g], "")
  {
    SplitJoin(f, g);
    assert (f + g + "\n")[..|f + g|] == f + g;
  }

  lemma ParseSnoc(j: LineJson, lines: seq<string>, line: string)
    ensures ParseLines(j, lines + [line]) == ParseLines(j, lines) + ParseLine(j, line)
  {
    assert (lines + [line])[..|lines|] == lines;
  }

  lemma NotBlank(s: string)
    requires s != "" && s[0] == '{'
    ensures !IsBlank(s)
  {
  }

  /** One complete line after a tidy text is read back, unless it is glued to something. */
  lemma LineParses(j: LineJson, tail: string, e: UsageEvent)
    requires LineJsonOk(j) && (tail == "" || tail[0] == '{')
    ensures ParseLine(j, tail + j.encode(e)) == if tail == "" then [e] else []
  {
    hide IsBlank;
    var enc := j.encode(e);
    NotBlank(enc);
    if tail == "" {
      assert tail + enc == enc;
    } else {
      assert enc[..|enc|] == enc;
      assert j.decode(tail + enc[..|enc|]) == None;
    }
  }

  /** A piece of a line after a tidy text does not parse. */
  lemma PieceFails(j: LineJson, tail: string, e: UsageEvent, k: nat)
    requires LineJsonOk(j) && (tail == "" || tail[0] == '{') && 0 < k <= |j.encode(e)|
    requires tail == "" ==> k < |j.encode(e)|
    ensures ParseLine(j, tail + j.encode(e)[..k]) == []
  {
    hide IsBlank;
    if tail == "" { assert tail + j.encode(e)[..k] == j.encode(e)[..k]; }
  }

  lemma AppendOne(j: LineJson, f: string, e: UsageEvent)
    requires LineJsonOk(j) && Tidy(f)
    ensures ViewOf(j, f + j.encode(e) + "\n") == AppendLines(ViewOf(j, f), [e]) && Tidy(f + j.encode(e) + "\n")
  {
    hide IsBlank, ParseLine, ParseLines;
    var (lines, tail) := Split(f);
    SplitLine(f, j.encode(e));
    ParseSnoc(j, lines, tail + j.encode(e));
    LineParses(j, tail, e);
    CleanIffEndsLine(j, f);
    assert ParseLines(j, lines) + [] == ParseLines(j, lines);
  }

  /** Appending a batch to a file does to its view what the engine's step says. */
  lemma {:induction false} AppendRefines(j: LineJson, f: string, batch: seq<UsageEvent>)
    requires LineJsonOk(j) && Tidy(f)
    ensures ViewOf(j, f + Written(j, batch)) == AppendLines(ViewOf(j, f), batch) && Tidy(f + Written(j, batch))
    decreases |batch|
  {
    hide LineJsonOk, ViewOf, Tidy;
    if batch == [] {
      assert f + Written(j, batch) == f;
    } else {
      var front, e := batch[..|batch| - 1], batch[|batch| - 1];
      AppendRefines(j, f, front);
      AppendOne(j, f + Written(j, front), e);
      assert f + Written(j, batch) == f + Written(j, front) + j.encode(e) + "\n";
      AppendLinesSnoc(ViewOf(j, f), front, e);
      assert batch == front + [e];
    }
  }

  // A crash keeps any prefix of what was being written.

  /** How many complete lines the first `k` characters hold, and how they end. */
  function Cut(j: LineJson, batch: seq<UsageEvent>, k: nat): (nat, WalTail)
  {
    if batch == [] then (0, Clean)
    else
      var n := |batch| - 1;
      var before, enc := |Written(j, batch[..n])|, j.encode(batch[n]);
      if k <= before then Cut(j, batch[..n], k)
      else if k < before + |enc| then (n, Partial)
      else if k == before + |enc| then (n, Unterminated(batch[n]))
      else (n + 1, Clean)
  }

  lemma {:induction false} CutIsTorn(j: LineJson, batch: seq<UsageEvent>, k: nat)
    requires k <= |Written(j, batch)|
    ensures TornAppend(batch, Cut(j, batch, k).0, Cut(j, batch, k).1)
    decreases |batch|
  {
    if batch != [] && k <= |Written(j, batch[..|batch| - 1])| {
      CutIsTorn(j, batch[..|batch| - 1], k);
    }
  }

  lemma CutLast(j: LineJson, f: string, e: UsageEvent, k: nat)
    requires LineJsonOk(j) && Tidy(f) && 0 < k <= |j.encode(e)|
    ensures ViewOf(j, f + j.encode(e)[..k])
         == AppendTorn(ViewOf(j, f), [e], 0, if k < |j.encode(e)| then Partial else Unterminated(e))
    ensures Tidy(f + j.encode(e)[..k])
  {
    hide IsBlank, ParseLine, ParseLines;
    var (lines, tail) := Split(f);
    var enc := j.encode(e);
    assert OneLine(enc[..k]);
    SplitJoin(f, enc[..k]);
    CleanIffEndsLine(j, f);
    if tail == "" && k == |enc| {
      assert enc[..k] == enc;
      LineParses(j, tail, e);
    } else {
      PieceFails(j, tail, e, k);
    }
  }

  /** A crash inside an append does to the file's view what the engine's step says, for some split of
      the batch. */
  lemma {:induction false} CrashRefines(j: LineJson, f: string, batch: seq<UsageEvent>, k: nat)
    requires LineJsonOk(j) && Tidy(f) && k <= |Written(j, batch)|
    ensures var (whole, tail) := Cut(j, batch, k);
            && TornAppend(batch, whole, tail)
            && ViewOf(j, f + Written(j, batch)[..k]) == AppendTorn(ViewOf(j, f), batch, whole, tail)
    ensures Tidy(f + Written(j, batch)[..k])
    decreases |batch|
  {
    hide LineJsonOk, ViewOf, Tidy;
    CutIsTorn(j, batch, k);
    if batch == [] {
      assert f + Written(j, batch)[..k] == f;
    } else {
      var n := |batch| - 1;
      var front, e := batch[..n], batch[n];
      var text, enc := Written(j, front), j.encode(e);
      if k <= |text| {
        CrashRefines(j, f, front, k);
        assert Written(j, batch)[..k] == text[..k];
        assert front[..Cut(j, front, k).0] == batch[..Cut(j, front, k).0];
      } else if k <= |text| + |enc| {
        var i := k - |text|;
        AppendRefines(j, f, front);
        CutLast(j, f + text, e, i);
        assert f + Written(j, batch)[..k] == f + text + enc[..i];
        AppendNothing(ViewOf(j, f + text));
      } else {
        assert Written(j, batch)[..k] == Written(j, batch);
        AppendRefines(j, f, batch);
        assert batch[..n + 1] == batch;
      }
    }
  }

  /** Conversely, every torn append is what some crash leaves, as long as no event is a single character. */
  lemma {:induction false} TornIsCut(j: LineJson, batch: seq<UsageEvent>, whole: nat, tail: WalTail) returns (k: nat)
    requires TornAppend(batch, whole, tail) && forall e :: e in batch ==> 1 < |j.encode(e)|
    ensures k <= |Written(j, batch)| && Cut(j, batch, k) == (whole, tail)
    ensures tail.Clean? ==> k == |Written(j, batch[..whole])|
    decreases |batch|
  {
    if batch == [] {
      k := 0;
    } else {
      var n := |batch| - 1;
      assert batch == batch[..n] + [batch[n]];
      if whole < n || (whole == n && tail.Clean?) {
        k := TornIsCut(j, batch[..n], whole, tail);
        assert batch[..n][..whole] == batch[..whole];
      } else if whole == n {
        k := |Written(j, batch[..n])| + if tail.Partial? then 1 else |j.encode(batch[n])|;
        assert batch[n] in batch;
      } else {
        assert batch[..whole] == batch;
        k := |Written(j, batch)|;
      }
    }
  }

  lemma AppendNothing(f: WalFile)
    ensures AppendLines(f, []) == f
  {
  }

  // What replay finds.

  /** An append is replayed in full if and only if the file ended with a newline, or nothing was
      appended. */
  lemma AppendReplayedIffClean(j: LineJson, f: string, batch: seq<UsageEvent>)
    requires LineJsonOk(j) && Tidy(f)
    ensures ReplayText(j, f + Written(j, batch)) == ReplayText(j, f) + batch <==> EndsLine(f) || batch == []
  {
    hide LineJsonOk, Tidy, Split, ReplayText, ParseLines, Written, AppendLines;
    AppendRefines(j, f, batch);
    ViewReplays(j, f);
    ViewReplays(j, f + Written(j, batch));
    CleanIffEndsLine(j, f);
    ViewAppendIffClean(ViewOf(j, f), batch);
  }

  /** Otherwise the first appended event is lost, and with it the event of an unterminated last line. */
  lemma AppendToTornFileLoses(j: LineJson, f: string, batch: seq<UsageEvent>)
    requires LineJsonOk(j) && Tidy(f) && !EndsLine(f) && batch != []
    ensures multiset(ReplayText(j, f) + batch)
         == multiset(ReplayText(j, f + Written(j, batch))) + multiset{batch[0]} + multiset(ParseLine(j, Split(f).1))
  {
    hide LineJsonOk, Tidy, Split, ReplayText, ParseLines, Written, AppendLines;
    AppendRefines(j, f, batch);
    ViewReplays(j, f);
    ViewReplays(j, f + Written(j, batch));
    CleanIffEndsLine(j, f);
    ViewAppendLoses(ViewOf(j, f), batch);
    var parsed := ParseLine(j, Split(f).1);
    assert parsed == [] || parsed == [parsed[0]];
  }

  /** After a crash inside an append to a file that ended with a newline, replay finds what it found
      before and a prefix of the batch. */
  lemma TornAppendReplay(j: LineJson, f: string, batch: seq<UsageEvent>, k: nat)
    requires LineJsonOk(j) && Tidy(f) && EndsLine(f) && k <= |Written(j, batch)|
    ensures var (whole, tail) := Cut(j, batch, k);
            whole <= |batch| && ReplayText(j, f + Written(j, batch)[..k]) == ReplayText(j, f)
                + TornEvents(batch, whole, tail)
  {
    hide LineJsonOk, Tidy, Split, ReplayText, ParseLines, Written, AppendTorn;
    CrashRefines(j, f, batch, k);
    ViewReplays(j, f);
    ViewReplays(j, f + Written(j, batch)[..k]);
    CleanIffEndsLine(j, f);
    var (whole, tail) := Cut(j, batch, k);
    ViewTornReplay(ViewOf(j, f), batch, whole, tail);
  }

  // Directories and the log object.

  type TextDir = map<nat, string>

  function DirOf(j: LineJson, files: TextDir): WalDir
  {
    map id | id in files :: ViewOf(j, files[id])
  }

  ghost predicate AllTidy(files: TextDir)
  {
    forall id :: id in files ==> Tidy(files[id])
  }

  lemma EmptyFileView(j: LineJson)
    ensures ViewOf(j, "") == EMPTY_FILE && Tidy("")
  {
  }

  lemma DirUpdates(j: LineJson, files: TextDir, id: nat, text: string)
    ensures DirOf(j, files[id := text]) == DirOf(j, files)[id := ViewOf(j, text)]
  {
    hide ViewOf;
  }

  lemma DirDeletes(j: LineJson, files: TextDir, upTo: nat)
    ensures DirOf(j, DeleteThrough(files, upTo)) == DeleteThrough(DirOf(j, files), upTo)
  {
    hide ViewOf;
  }

  class Wal {
    var files: TextDir
    var activeId: nat
    const json: LineJson

    ghost predicate Valid()
      reads this
    {
      LineJsonOk(json) && AllTidy(files) && activeId in files && forall id :: id in files ==> id <= activeId
    }

    ghost function Dir(): WalDir
      reads this
    {
      DirOf(json, files)
    }

    /** Select the active file of a directory and reopen it for append. */
    constructor Open(json: LineJson, dir: TextDir, lastSealed: nat)
      requires LineJsonOk(json) && AllTidy(dir)
      ensures Valid() && this.json == json
      ensures IsActiveId(DirOf(json, dir), lastSealed, activeId)
      ensures Dir() == OpenActive(DirOf(json, dir), activeId)
    {
      hide LineJsonOk, Tidy, ViewOf;
      var highest := lastSealed;
      var rest := dir.Keys;
      while rest != {}
        invariant rest <= dir.Keys && lastSealed <= highest
        invariant forall id :: id in dir && id !in rest ==> id <= highest
        invariant highest == lastSealed || highest in dir
        decreases |rest|
      {
        var id :| id in rest;
        rest := rest - {id};
        if id > lastSealed && id > highest {
          highest := id;
        }
      }
      var active := if highest == lastSealed then lastSealed + 1 else highest;
      this.json := json;
      activeId := active;
      files := if active in dir then dir else dir[active := ""];
      EmptyFileView(json);
      DirUpdates(json, dir, active, "");
    }

    /** Append and sync a batch, one line per event. */
    method AppendBatch(events: seq<UsageEvent>)
      requires Valid()
      modifies this`files
      ensures Valid()
      ensures files == old(files)[activeId := old(files)[activeId] + Written(json, events)]
      ensures Dir() == old(Dir())[activeId := AppendLines(old(Dir())[activeId], events)]
    {
      hide LineJsonOk, Tidy, ViewOf, AppendLines;
      ghost var f := files[activeId];
      assert f + "" == f;
      for i := 0 to |events|
        invariant files == old(files)[activeId := f + Written(json, events[..i])]
      {
        assert events[..i + 1][..i] == events[..i];
        assert f + Written(json, events[..i + 1]) == f + Written(json, events[..i]) + json.encode(events[i]) + "\n";
        files := files[activeId := files[activeId] + json.encode(events[i]) + "\n"];
      }
      assert events[..|events|] == events;
      AppendRefines(json, f, events);
      DirUpdates(json, old(files), activeId, f + Written(json, events));
    }

    method Rotate() returns (sealedId: nat)
      requires Valid()
      modifies this
      ensures Valid()
      ensures sealedId == old(activeId) && activeId == sealedId + 1
      ensures files == old(files)[activeId := ""] && Dir() == old(Dir())[activeId := EMPTY_FILE]
    {
      hide LineJsonOk, Tidy, ViewOf;
      sealedId := activeId;
      activeId := activeId + 1;
      EmptyFileView(json);
      DirUpdates(json, files, activeId, "");
      files := files[activeId := ""];
    }

    method DeleteFilesThrough(upTo: nat)
      requires Valid()
      modifies this`files
      ensures files == DeleteThrough(old(files), upTo) && Dir() == DeleteThrough(old(Dir()), upTo)
      ensures upTo < activeId ==> Valid()
    {
      hide LineJsonOk, Tidy, ViewOf;
      DirDeletes(json, files, upTo);
      files := DeleteFilesOf(files, upTo);
    }
  }
}
