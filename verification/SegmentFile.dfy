/** Framing of a segment file, its writer and its reader. */
module SegmentFile {
  import opened Model
  import opened Codecs
  import opened SegmentCodec

  const MAGIC: seq<Byte> := Ascii("UDBRAW1\n")
  const MAGIC_END: seq<Byte> := Ascii("UDBEND01")
  const VERSION: Byte := 1
  const CODEC_NONE: Byte := 0
  const CODEC_ZSTD: Byte := 1
  const CODEC_LZ4: Byte := 2
  const HEADER_LEN: nat := 15
  const FOOTER_LEN: nat := 16

  // Writing.

  function ColumnBytes(lib: Library, name: string, k: Chunk): seq<Byte>
  {
    var packed := lib.compress(k.payload);
    LeBytes(|name| % 0x1_0000, 2) + Ascii(name) + [EncodingByte(k.encoding), CODEC_ZSTD]
      + LeBytes(|packed| % TWO_32, 4) + packed
  }

  function AllColumnBytes(lib: Library, names: seq<string>, ks: seq<Chunk>): seq<Byte>
    requires |names| == |ks|
  {
    if ks == [] then []
    else
      var n := |ks| - 1;
      AllColumnBytes(lib, names[..n], ks[..n]) + ColumnBytes(lib, names[n], ks[n])
  }

  function Header(rows: nat, columns: nat): (h: seq<Byte>)
    ensures |h| == HEADER_LEN
  {
    MAGIC + [VERSION] + LeBytes(rows % TWO_32, 4) + LeBytes(columns % 0x1_0000, 2)
  }

  function Sealed(lib: Library, body: seq<Byte>): seq<Byte>
  {
    body + LeBytes(lib.checksum(body), 8) + MAGIC_END
  }

  function WrittenFile(lib: Library, c: Columns): seq<Byte>
  {
    Sealed(lib, Header(|c.eventId|, |ORDER|) + AllColumnBytes(lib, ORDER, Chunks(lib, c)))
  }

  // Reading.

  function ReadLe(body: seq<Byte>, off: nat, width: nat): Option<nat>
  {
    if off + width > |body| then None else Some(LeValue(body[off..off + width]))
  }

  function Unpack(lib: Library, codec: Byte, packed: seq<Byte>): Option<seq<Byte>>
  {
    if codec == CODEC_NONE then Some(packed)
    else if codec == CODEC_ZSTD then lib.unzstd(packed)
    else if codec == CODEC_LZ4 then lib.unlz4(packed)
    else None
  }

  /** What parsing comes to: a value, an error, or a panic of the reader. */
  datatype Parsed<T> = Good(value: T) | Corrupt | Panic

  /** The name of the column entry at `off` ends less than two bytes before the end. */
  predicate CutAfterName(lib: Library, body: seq<Byte>, off: nat)
  {
    var nameLen := ReadLe(body, off, 2);
    && nameLen.Some? && |body| - 2 < off + 2 + nameLen.value <= |body|
    && lib.utf8(body[off + 2..off + 2 + nameLen.value]).Some?
  }

  /** One column entry at `off`: its name, its chunk, and the offset after it.  The two bytes after the
      name are read without a length check. */
  function ReadColumn(lib: Library, body: seq<Byte>, off: nat): (r: Parsed<(string, Chunk, nat)>)
    ensures r.Good? ==> off <= r.value.2 <= |body|
  {
    var nameLen := ReadLe(body, off, 2);
    if nameLen.None? || off + 2 + nameLen.value > |body| then Corrupt
    else
      var o := off + 2 + nameLen.value;
      var name := lib.utf8(body[off + 2..o]);
      if name.None? then Corrupt
      else if o + 2 > |body| then Panic
      else
        var encoding, len := EncodingOf(body[o]), ReadLe(body, o + 2, 4);
        if encoding.None? || len.None? || o + 6 + len.value > |body| then Corrupt
        else
          var raw := Unpack(lib, body[o + 1], body[o + 6..o + 6 + len.value]);
          if raw.None? then Corrupt else Good((name.value, Chunk(encoding.value, raw.value), o + 6 + len.value))
  }

  function ReadColumns(lib: Library, body: seq<Byte>, off: nat, n: nat): Parsed<(map<string, Chunk>, nat)>
    decreases n
  {
    if n == 0 then Good((map[], off))
    else match ReadColumns(lib, body, off, n - 1)
      case Good(front) =>
        (match ReadColumn(lib, body, front.1)
         case Good(column) => Good((front.0[column.0 := column.1], column.2))
         case Corrupt => Corrupt
         case Panic => Panic)
      case Corrupt => Corrupt
      case Panic => Panic
  }

  /** Column entry `k` is reached and cut off right after its name. */
  predicate CutAt(lib: Library, body: seq<Byte>, off: nat, k: nat)
  {
    var front := ReadColumns(lib, body, off, k);
    front.Good? && CutAfterName(lib, body, front.value.1)
  }

  /** The walk panics exactly when one of its entries is cut off right after its name. */
  lemma {:induction false} ColumnsPanicIff(lib: Library, body: seq<Byte>, off: nat, n: nat)
    ensures ReadColumns(lib, body, off, n).Panic? <==> exists k: nat :: k < n && CutAt(lib, body, off, k)
  {
    hide ReadColumn, CutAt;
    if n > 0 {
      hide ReadColumns;
      ColumnsPanicIff(lib, body, off, n - 1);
      NextColumnPanics(lib, body, off, n - 1);
      if k: nat :| k < n && CutAt(lib, body, off, k) { assert k < n - 1 || CutAt(lib, body, off, n - 1); }
      if k: nat :| k < n - 1 && CutAt(lib, body, off, k) { assert k < n; }
    }
  }

  lemma NextColumnPanics(lib: Library, body: seq<Byte>, off: nat, n: nat)
    ensures ReadColumns(lib, body, off, n + 1).Panic?
            <==> ReadColumns(lib, body, off, n).Panic? || CutAt(lib, body, off, n)
  {
    hide CutAfterName, ReadColumn;
    var front := ReadColumns(lib, body, off, n);
    if front.Good? { PanicIsCut(lib, body, front.value.1); }
  }

  lemma PanicIsCut(lib: Library, body: seq<Byte>, off: nat)
    ensures ReadColumn(lib, body, off).Panic? <==> CutAfterName(lib, body, off)
  {
  }

  /** The chunks in the order the reader asks for them, if none is missing. */
  function InOrder(m: map<string, Chunk>): Option<seq<Chunk>>
  {
    if forall i :: 0 <= i < |ORDER| ==> ORDER[i] in m
    then Some(seq(|ORDER|, i requires 0 <= i < |ORDER| => m[ORDER[i]]))
    else None
  }

  /** The checksummed body of a file, if both magics, the checksum and the version are right. */
  function BodyOf(lib: Library, bytes: seq<Byte>): (r: Option<seq<Byte>>)
    ensures r.Some? ==> |r.value| >= HEADER_LEN
  {
    if |bytes| < HEADER_LEN + FOOTER_LEN then None
    else
      var end := |bytes| - 8;
      var body := bytes[..end - 8];
      if bytes[end..] != MAGIC_END || lib.checksum(body) != LeValue(bytes[end - 8..end]) || body[..8] != MAGIC
          || body[8] != VERSION
      then None else Some(body)
  }

  function OpenedFile(lib: Library, bytes: seq<Byte>): (r: Parsed<(Columns, nat)>)
    ensures r.Good? ==> HaveRows(r.value.0, r.value.1)
  {
    var body := BodyOf(lib, bytes);
    if body.None? then Corrupt
    else match ReadColumns(lib, body.value, HEADER_LEN, LeValue(body.value[13..15]))
      case Corrupt => Corrupt
      case Panic => Panic
      case Good(all) =>
        var chunks := InOrder(all.0);
        var columns := if chunks.Some? then DecodeColumns(lib, chunks.value) else None;
        var rows := LeValue(body.value[9..13]);
        if columns.Some? && HaveRows(columns.value, rows) then Good((columns.value, rows)) else Corrupt
  }

  /** Opening a file indexes past its end exactly when its frame is right and a counted column entry is cut
      off after its name. */
  lemma IndexesPastEndIff(lib: Library, bytes: seq<Byte>)
    ensures OpenedFile(lib, bytes).Panic?
       <==> var body := BodyOf(lib, bytes);
            body.Some? && exists k: nat :: k < LeValue(body.value[13..15]) && CutAt(lib, body.value, HEADER_LEN, k)
  {
    hide ReadColumns, BodyOf, CutAt, DecodeColumns, InOrder, HaveRows, LeValue;
    var body := BodyOf(lib, bytes);
    if body.Some? {
      ColumnsPanicIff(lib, body.value, HEADER_LEN, LeValue(body.value[13..15]));
    }
  }

  /** Every event of a file, in order. */
  function ReadFile(lib: Library, bytes: seq<Byte>): Option<seq<UsageEvent>>
  {
    var file := OpenedFile(lib, bytes);
    if !file.Good? then None else Rows(file.value.0, file.value.1, file.value.1)
  }

  // Reading back what was written.

  /** Lengths fit their fields. */
  predicate ColumnFits(lib: Library, name: string, k: Chunk)
  {
    IsAscii(name) && |name| < 0x1_0000 && |lib.compress(k.payload)| < TWO_32
  }

  /** A file with a right frame that counts one column, whose entry ends after an empty name. */
  function CutFile(lib: Library): seq<Byte>
  {
    Sealed(lib, Header(0, 1) + [0, 0])
  }

  lemma CutFilePanics(lib: Library)
    requires LibraryOk(lib)
    ensures OpenedFile(lib, CutFile(lib)).Panic?
  {
    hide LeBytes, LeValue, BodyOf, Header, Sealed, ReadColumns, DecodeColumns, HaveRows, InOrder;
    var body := Header(0, 1) + [0, 0];
    HeaderBack(0, 1, [0, 0]);
    BodyBack(lib, body);
    assert CutAt(lib, body, HEADER_LEN, 0) by { EmptyNameIsCut(lib, body); }
    IndexesPastEndIff(lib, CutFile(lib));
  }

  lemma EmptyNameIsCut(lib: Library, body: seq<Byte>)
    requires LibraryOk(lib) && |body| == HEADER_LEN + 2 && body[HEADER_LEN] == 0 && body[HEADER_LEN + 1] == 0
    ensures CutAt(lib, body, HEADER_LEN, 0)
  {
    assert body[HEADER_LEN..HEADER_LEN + 2] == [0, 0];
    assert LeValue([0, 0]) == 0;
    assert IsAscii("") && Ascii("") == [];
    assert lib.utf8([]) == Some("");
    assert body[HEADER_LEN + 2..HEADER_LEN + 2] == [];
  }

  /** `piece` stands in `body` at `off`. */
  predicate At(body: seq<Byte>, off: nat, piece: seq<Byte>)
  {
    off + |piece| <= |body| && body[off..off + |piece|] == piece
  }

  lemma AtSplit(body: seq<Byte>, off: nat, a: seq<Byte>, b: seq<Byte>)
    requires At(body, off, a + b)
    ensures At(body, off, a) && At(body, off + |a|, b)
  {
    var whole := body[off..off + |a + b|];
    assert body[off..off + |a|] == whole[..|a|];
    assert body[off + |a|..off + |a| + |b|] == whole[|a|..];
  }

  lemma AtEnd(pre: seq<Byte>, piece: seq<Byte>)
    ensures At(pre + piece, |pre|, piece)
  {
  }

  lemma ReadLeBack(body: seq<Byte>, off: nat, n: nat, width: nat)
    requires FitsIn(n, width) && At(body, off, LeBytes(n, width))
    ensures ReadLe(body, off, width) == Some(n)
  {
    hide LeBytes, LeValue;
    LeRoundTrip(n, width);
  }

  /** The pieces of one column entry stand one after the other. */
  lemma ColumnPieces(lib: Library, body: seq<Byte>, off: nat, name: string, k: Chunk)
    requires ColumnFits(lib, name, k) && At(body, off, ColumnBytes(lib, name, k))
    ensures var packed := lib.compress(k.payload);
            var o := off + 2 + |name|;
            && At(body, off, LeBytes(|name|, 2)) && At(body, off + 2, Ascii(name))
            && At(body, o, [EncodingByte(k.encoding), CODEC_ZSTD])
            && At(body, o + 2, LeBytes(|packed|, 4)) && At(body, o + 6, packed)
            && |ColumnBytes(lib, name, k)| == 8 + |name| + |packed|
  {
    hide LeBytes, Ascii, At, IsAscii;
    var packed := lib.compress(k.payload);
    var nameLen, len := LeBytes(|name|, 2), LeBytes(|packed|, 4);
    var tags := [EncodingByte(k.encoding), CODEC_ZSTD];
    AtSplit(body, off, nameLen + Ascii(name) + tags + len, packed);
    AtSplit(body, off, nameLen + Ascii(name) + tags, len);
    AtSplit(body, off, nameLen + Ascii(name), tags);
    AtSplit(body, off, nameLen, Ascii(name));
  }

  lemma ReadColumnBack(lib: Library, body: seq<Byte>, off: nat, name: string, k: Chunk)
    requires LibraryOk(lib) && ColumnFits(lib, name, k) && At(body, off, ColumnBytes(lib, name, k))
    ensures ReadColumn(lib, body, off) == Good((name, k, off + |ColumnBytes(lib, name, k)|))
  {
    hide LeBytes, LeValue, FitsIn, Ascii, At, IsAscii, ColumnBytes;
    var packed := lib.compress(k.payload);
    var o := off + 2 + |name|;
    ColumnPieces(lib, body, off, name, k);
    U16Fits(|name|);
    ReadLeBack(body, off, |name|, 2);
    U32Fits(|packed|);
    ReadLeBack(body, o + 2, |packed|, 4);
    PieceAt(body, off + 2, Ascii(name));
    PieceAt(body, o, [EncodingByte(k.encoding), CODEC_ZSTD]);
    assert body[o] == body[o..o + 2][0] && body[o + 1] == body[o..o + 2][1];
    PieceAt(body, o + 6, packed);
  }

  lemma PieceAt(body: seq<Byte>, off: nat, piece: seq<Byte>)
    requires At(body, off, piece)
    ensures off + |piece| <= |body| && body[off..off + |piece|] == piece
  {
  }

  function ChunkMap(names: seq<string>, ks: seq<Chunk>): map<string, Chunk>
    requires |names| == |ks|
  {
    if ks == [] then map[] else ChunkMap(names[..|ks| - 1], ks[..|ks| - 1])[names[|ks| - 1] := ks[|ks| - 1]]
  }

  predicate AllFit(lib: Library, names: seq<string>, ks: seq<Chunk>)
    requires |names| == |ks|
  {
    forall i :: 0 <= i < |ks| ==> ColumnFits(lib, names[i], ks[i])
  }

  lemma {:induction false} ReadColumnsBack(lib: Library, body: seq<Byte>, off: nat, names: seq<string>, ks: seq<Chunk>)
    requires LibraryOk(lib) && |names| == |ks| && AllFit(lib, names, ks)
    requires At(body, off, AllColumnBytes(lib, names, ks))
    ensures ReadColumns(lib, body, off, |ks|) == Good((ChunkMap(names, ks), off + |AllColumnBytes(lib, names, ks)|))
    decreases |ks|
  {
    hide LibraryOk, ReadColumn, ColumnBytes, At;
    if ks != [] {
      var n := |ks| - 1;
      var front := AllColumnBytes(lib, names[..n], ks[..n]);
      AtSplit(body, off, front, ColumnBytes(lib, names[n], ks[n]));
      ReadColumnsBack(lib, body, off, names[..n], ks[..n]);
      ReadColumnBack(lib, body, off + |front|, names[n], ks[n]);
    }
  }

  predicate DistinctNames(names: seq<string>)
  {
    forall i, j :: 0 <= i < j < |names| ==> names[i] != names[j]
  }

  lemma {:induction false} ChunkMapAt(names: seq<string>, ks: seq<Chunk>, i: nat)
    requires |names| == |ks| && DistinctNames(names) && i < |ks|
    ensures names[i] in ChunkMap(names, ks) && ChunkMap(names, ks)[names[i]] == ks[i]
    decreases |ks|
  {
    var n := |ks| - 1;
    if i < n { ChunkMapAt(names[..n], ks[..n], i); }
  }

  /** Length and first two letters tell the column names apart. */
  function Print(name: string): (nat, char, char)
    requires |name| >= 2
  {
    (|name|, name[0], name[1])
  }

  const PRINTS: seq<(nat, char, char)> := [
    (8, 'e', 'v'), (4, 'k', 'i'), (14, 'c', 'o'), (10, 'a', 'c'), (15, 's', 'u'), (10, 'p', 'r'), (8, 'm', 'e'),
    (12, 't', 'i'), (8, 'q', 'u'), (4, 'u', 'n'), (6, 's', 'o'), (8, 'm', 'o'), (10, 'd', 'i'), (14, 'i', 'n')]

  lemma NamesPrint()
    ensures |PRINTS| == |ORDER| && forall i :: 0 <= i < |ORDER| ==> |ORDER[i]| >= 2 && Print(ORDER[i]) == PRINTS[i]
  {
  }

  lemma NamesDistinct()
    ensures DistinctNames(ORDER)
  {
    NamesPrint();
    assert forall i, j :: 0 <= i < j < |PRINTS| ==> PRINTS[i] != PRINTS[j];
  }

  lemma NamesFit()
    ensures forall i :: 0 <= i < |ORDER| ==> IsAscii(ORDER[i]) && |ORDER[i]| < 0x1_0000
  {
  }

  lemma InOrderBack(ks: seq<Chunk>)
    requires |ks| == |ORDER|
    ensures InOrder(ChunkMap(ORDER, ks)) == Some(ks)
  {
    hide ChunkMap;
    NamesDistinct();
    forall i | 0 <= i < |ORDER| ensures ORDER[i] in ChunkMap(ORDER, ks) && ChunkMap(ORDER, ks)[ORDER[i]] == ks[i] {
      ChunkMapAt(ORDER, ks, i);
    }
    assert InOrder(ChunkMap(ORDER, ks)).value == ks;
  }

  lemma BodyBack(lib: Library, body: seq<Byte>)
    requires LibraryOk(lib) && |body| >= HEADER_LEN && body[..8] == MAGIC && body[8] == VERSION
    ensures BodyOf(lib, Sealed(lib, body)) == Some(body)
  {
    hide LeBytes, LeValue;
    var bytes := Sealed(lib, body);
    var end := |bytes| - 8;
    U64Fits(lib.checksum(body));
    LeRoundTrip(lib.checksum(body), 8);
    assert bytes[end..] == MAGIC_END && bytes[end - 8..end] == LeBytes(lib.checksum(body), 8)
           && bytes[..end - 8] == body;
  }

  lemma HeaderBack(rows: nat, columns: nat, rest: seq<Byte>)
    requires rows < TWO_32 && columns < 0x1_0000
    ensures var body := Header(rows, columns) + rest;
            && body[..8] == MAGIC && body[8] == VERSION
            && LeValue(body[9..13]) == rows && LeValue(body[13..15]) == columns
  {
    hide LeBytes, LeValue;
    U32Fits(rows);
    LeRoundTrip(rows, 4);
    U16Fits(columns);
    LeRoundTrip(columns, 2);
    var body := Header(rows, columns) + rest;
    assert body[9..13] == LeBytes(rows, 4) && body[13..15] == LeBytes(columns, 2) && body[..8] == MAGIC;
  }

  /** The frame of a file, byte by byte: the two marks, the version, the number of rows and of columns, and the checksum
      of all before it, with numbers in little-endian order. */
  lemma FrameIs(lib: Library, c: Columns)
    requires LibraryOk(lib)
    ensures var file := WrittenFile(lib, c);
            && |file| >= 31
            && file[..9] == [85, 68, 66, 82, 65, 87, 49, 10, 1]
            && LeValue(file[9..13]) == |c.eventId| % 0x1_0000_0000 && LeValue(file[13..15]) == 14
            && file[|file| - 8..] == [85, 68, 66, 69, 78, 68, 48, 49]
            && LeValue(file[|file| - 16..|file| - 8]) == lib.checksum(file[..|file| - 16])
  {
    hide LeBytes, LeValue, AllColumnBytes, Chunks, Header;
    var rows, tail := |c.eventId| % TWO_32, AllColumnBytes(lib, ORDER, Chunks(lib, c));
    var body, file := Header(|c.eventId|, |ORDER|) + tail, WrittenFile(lib, c);
    assert Header(|c.eventId|, |ORDER|) == Header(rows, 14) by { RowsWrap(|c.eventId|); }
    HeaderBack(rows, 14, tail);
    Marks();
    var end := |file| - 8;
    U64Fits(lib.checksum(body));
    LeRoundTrip(lib.checksum(body), 8);
    assert file[end..] == MAGIC_END && file[end - 8..end] == LeBytes(lib.checksum(body), 8) && file[..end - 8] == body;
    assert file[..9] == body[..8] + [body[8]] && file[9..13] == body[9..13] && file[13..15] == body[13..15];
  }

  /** A column entry, byte by byte: the length of the name, the name, the number of the encoding, 1 for zstd, the length
      of the payload and the payload. */
  lemma ColumnEntryIs(lib: Library, name: string, k: Chunk)
    requires |name| < 0x1_0000
    ensures var entry, n, packed := ColumnBytes(lib, name, k), |name|, lib.compress(k.payload);
            && |entry| == n + 8 + |packed|
            && LeValue(entry[..2]) == n && entry[2..2 + n] == Ascii(name)
            && entry[2 + n] == (match k.encoding
                                case Plain => 0
                                case DictionaryEncoding => 1
                                case Delta => 2
                                case ZigzagVarint => 3
                                case Rle => 4)
            && entry[3 + n] == 1
            && LeValue(entry[4 + n..8 + n]) == |packed| % 0x1_0000_0000 && entry[8 + n..] == packed
  {
    hide LeBytes, LeValue;
    var entry, n, packed := ColumnBytes(lib, name, k), |name|, lib.compress(k.payload);
    var size := LeBytes(|packed| % TWO_32, 4);
    U16Fits(n);
    LeRoundTrip(n, 2);
    U32Fits(|packed| % TWO_32);
    LeRoundTrip(|packed| % TWO_32, 4);
    assert entry[..2] == LeBytes(n, 2) && entry[2..2 + n] == Ascii(name);
    assert entry[4 + n..8 + n] == size && entry[8 + n..] == packed;
  }

  lemma RowsWrap(rows: nat)
    ensures Header(rows, |ORDER|) == Header(rows % TWO_32, 14)
  {
    hide LeBytes;
  }

  lemma Marks()
    ensures MAGIC == [85, 68, 66, 82, 65, 87, 49, 10] && MAGIC_END == [85, 68, 66, 69, 78, 68, 48, 49]
  {
    assert "UDBRAW1\n" == ['U', 'D', 'B', 'R', 'A', 'W', '1', '\n'];
    assert "UDBEND01" == ['U', 'D', 'B', 'E', 'N', 'D', '0', '1'];
  }

  lemma FileBack(lib: Library, c: Columns, n: nat)
    requires LibraryOk(lib) && HaveRows(c, n) && n < TWO_32 && InMachineRange(c)
    requires forall i :: 0 <= i < |ORDER| ==> |lib.compress(Chunks(lib, c)[i].payload)| < TWO_32
    ensures OpenedFile(lib, WrittenFile(lib, c)) == Good((c, n))
  {
    hide LibraryOk, ReadColumns, InOrder, DecodeColumns, Chunks, BodyOf, Sealed, Header, LeValue, AllColumnBytes,
      InMachineRange, IsAscii;
    var ks := Chunks(lib, c);
    var columns := AllColumnBytes(lib, ORDER, ks);
    var body := Header(n, |ORDER|) + columns;
    NamesFit();
    assert AllFit(lib, ORDER, ks);
    HeaderBack(n, |ORDER|, columns);
    BodyBack(lib, body);
    AtEnd(Header(n, |ORDER|), columns);
    ReadColumnsBack(lib, body, HEADER_LEN, ORDER, ks);
    InOrderBack(ks);
    ChunksRoundTrip(lib, c, n);
  }

  predicate MachineEvent(e: UsageEvent)
  {
    IsI64(e.timestampMs) && IsI64(e.ingestedAtMs) && IsI128(e.quantity)
  }

  lemma {:induction false} ColumnsInRange(events: seq<UsageEvent>)
    requires forall e :: e in events ==> MachineEvent(e)
    ensures InMachineRange(ColumnsOf(events))
    decreases |events|
  {
    if events != [] {
      ColumnsInRange(events[..|events| - 1]);
      assert MachineEvent(events[|events| - 1]);
    }
  }

  /** A segment read back is the segment that was written: every event, field by field, in order, with
      quantities over the whole 128-bit range and timestamps whose differences wrap. */
  lemma SegmentRoundTrip(lib: Library, events: seq<UsageEvent>)
    requires LibraryOk(lib) && |events| < TWO_32
    requires forall e :: e in events ==> MachineEvent(e)
    requires forall i :: 0 <= i < |ORDER| ==> |lib.compress(Chunks(lib, ColumnsOf(events))[i].payload)| < TWO_32
    ensures ReadFile(lib, WrittenFile(lib, ColumnsOf(events))) == Some(events)
  {
    hide LibraryOk, OpenedFile, WrittenFile, Chunks, HaveRows, InMachineRange, IsAscii, ColumnsOf;
    ColumnsHaveRows(events);
    ColumnsInRange(events);
    FileBack(lib, ColumnsOf(events), |events|);
    RowsOfColumns(events, |events|);
    assert events[..|events|] == events;
  }

  // The writer and the reader.

  class RawSegmentWriter {
    var columns: Columns

    constructor ()
      ensures columns == ColumnsOf([])
    {
      columns := NO_COLUMNS;
    }

    method WriteEvent(e: UsageEvent, ghost written: seq<UsageEvent>)
      requires columns == ColumnsOf(written)
      modifies this
      ensures columns == ColumnsOf(written + [e])
    {
      assert (written + [e])[..|written|] == written;
      columns := Push(columns, e);
    }

    method Finish(lib: Library) returns (bytes: seq<Byte>)
      ensures bytes == WrittenFile(lib, columns)
    {
      hide Chunks, ColumnBytes, IsAscii, LeBytes;
      var chunks := EncodeColumns(lib, columns);
      var body := Header(|columns.eventId|, |chunks|);
      for i := 0 to |chunks|
        invariant body == Header(|columns.eventId|, |ORDER|) + AllColumnBytes(lib, ORDER[..i], chunks[..i])
      {
        assert ORDER[..i + 1][..i] == ORDER[..i] && chunks[..i + 1][..i] == chunks[..i];
        body := body + ColumnBytes(lib, ORDER[i], chunks[i]);
      }
      assert ORDER[..|chunks|] == ORDER && chunks[..|chunks|] == chunks;
      bytes := Sealed(lib, body);
    }
  }

  method EncodeColumns(lib: Library, c: Columns) returns (chunks: seq<Chunk>)
    ensures chunks == Chunks(lib, c)
  {
    var kind := EncodeRle(c.kind);
    var accountId := EncodeDictStrings(c.accountId);
    var subscriptionId := EncodeDictOptionStrings(c.subscriptionId);
    var productId := EncodeDictStrings(c.productId);
    var meterId := EncodeDictStrings(c.meterId);
    var timestampMs := EncodeDelta(c.timestampMs);
    var quantity := EncodeZigzagVarint(c.quantity);
    var unit := EncodeDictStrings(c.unit);
    var source := EncodeDictStrings(c.source);
    var modelId := EncodeDictOptionStrings(c.modelId);
    var ingestedAtMs := EncodeDelta(c.ingestedAtMs);
    chunks := [
      Chunk(Plain, lib.ser(Strings(c.eventId))), Chunk(Rle, lib.ser(RunList(kind))),
      Chunk(Plain, lib.ser(CorrectionRefs(c.correctionRef))),
      Chunk(DictionaryEncoding, lib.ser(StringDict(accountId))),
          Chunk(DictionaryEncoding, lib.ser(OptionDict(subscriptionId))),
      Chunk(DictionaryEncoding, lib.ser(StringDict(productId))),
          Chunk(DictionaryEncoding, lib.ser(StringDict(meterId))),
      Chunk(Delta, lib.ser(Ints(timestampMs))), Chunk(ZigzagVarint, quantity),
      Chunk(DictionaryEncoding, lib.ser(StringDict(unit))), Chunk(DictionaryEncoding, lib.ser(StringDict(source))),
      Chunk(DictionaryEncoding, lib.ser(OptionDict(modelId))), Chunk(Plain, lib.ser(DimensionMaps(c.dimensions))),
      Chunk(Delta, lib.ser(Ints(ingestedAtMs)))];
  }

  class RawSegmentReader {
    const columns: Columns
    const rowCount: nat
    var cursor: nat

    ghost predicate Valid() reads this
    {
      HaveRows(columns, rowCount) && cursor <= rowCount
    }

    constructor (columns: Columns, rowCount: nat)
      requires HaveRows(columns, rowCount)
      ensures Valid() && this.columns == columns && this.rowCount == rowCount && cursor == 0
    {
      this.columns, this.rowCount, this.cursor := columns, rowCount, 0;
    }

    method ReadNext() returns (r: Result<Option<UsageEvent>>)
      requires Valid()
      modifies this
      ensures Valid()
      ensures old(cursor) == rowCount ==> r == Ok(None) && cursor == old(cursor)
      ensures old(cursor) < rowCount ==> cursor == old(cursor) + 1
      ensures old(cursor) < rowCount ==>
                match EventAt(columns, rowCount, old(cursor))
                case Some(e) => r == Ok(Some(e))
                case None => r.Err?
    {
      if cursor >= rowCount { return Ok(None); }
      var i := cursor;
      cursor := cursor + 1;
      var e := EventAt(columns, rowCount, i);
      if e.None? { return Err("kind"); }
      r := Ok(Some(e.value));
    }

    /** Read from the start to the end of the file. */
    method ReadAll() returns (r: Option<seq<UsageEvent>>)
      requires Valid() && cursor == 0
      modifies this
      ensures r == Rows(columns, rowCount, rowCount)
    {
      hide EventAt, HaveRows;
      var events: seq<UsageEvent> := [];
      while cursor < rowCount
        invariant Valid() && Rows(columns, rowCount, cursor) == Some(events)
        decreases rowCount - cursor
      {
        var next := ReadNext();
        if next.Err? {
          RowsFail(columns, rowCount, cursor, rowCount);
          return None;
        }
        events := events + [next.value.value];
      }
      r := Some(events);
    }
  }

  lemma {:induction false} RowsFail(c: Columns, n: nat, k: nat, m: nat)
    requires HaveRows(c, n) && k <= m <= n && Rows(c, n, k).None?
    ensures Rows(c, n, m).None?
    decreases m
  {
    if k < m { RowsFail(c, n, k, m - 1); }
  }

  /** Parse a file: walk its column entries, then decode them. */
  method OpenSegment(lib: Library, bytes: seq<Byte>) returns (r: Parsed<(Columns, nat)>)
    ensures r == OpenedFile(lib, bytes)
  {
    hide BodyOf, ReadColumn, DecodeColumns, LeValue;
    var found := BodyOf(lib, bytes);
    if found.None? { return Corrupt; }
    var body := found.value;
    var rows, count := LeValue(body[9..13]), LeValue(body[13..15]);
    var chunks: map<string, Chunk>, off: nat := map[], HEADER_LEN;
    for i := 0 to count
      invariant ReadColumns(lib, body, HEADER_LEN, i) == Good((chunks, off))
    {
      var column := ReadColumn(lib, body, off);
      if !column.Good? {
        ColumnsFail(lib, body, HEADER_LEN, i + 1, count);
        return if column.Panic? then Panic else Corrupt;
      }
      chunks := chunks[column.value.0 := column.value.1];
      off := column.value.2;
    }
    var ordered := InOrder(chunks);
    if ordered.None? { return Corrupt; }
    var columns := DecodeChunks(lib, ordered.value);
    if columns.None? || !HaveRows(columns.value, rows) { return Corrupt; }
    r := Good((columns.value, rows));
  }

  /** Decode the columns one by one, dispatching on each column's encoding. */
  method DecodeChunks(lib: Library, ks: seq<Chunk>) returns (r: Option<Columns>)
    requires |ks| == |ORDER|
    ensures r == DecodeColumns(lib, ks)
  {
    hide DecodeStrings, DecodeOptionStrings, DecodeInts, DecodeBigInts, DecodeBytes, DecodeRefs, DecodeDimensions;
    var eventId := DecodeStrings(lib, ks[0]);
    var kind := DecodeByteColumn(lib, ks[1]);
    var correctionRef := DecodeRefs(lib, ks[2]);
    var accountId, subscriptionId := DecodeStrings(lib, ks[3]), DecodeOptionStrings(lib, ks[4]);
    var productId, meterId := DecodeStrings(lib, ks[5]), DecodeStrings(lib, ks[6]);
    var timestampMs := DecodeIntColumn(lib, ks[7]);
    var quantity := DecodeQuantityColumn(lib, ks[8]);
    var unit, source, modelId := DecodeStrings(lib, ks[9]), DecodeStrings(lib, ks[10]),
        DecodeOptionStrings(lib, ks[11]);
    var dimensions := DecodeDimensions(lib, ks[12]);
    var ingestedAtMs := DecodeIntColumn(lib, ks[13]);
    if eventId.None? || kind.None? || correctionRef.None? || accountId.None? || subscriptionId.None? || productId.None?
       || meterId.None? || timestampMs.None? || quantity.None? || unit.None? || source.None? || modelId.None?
       || dimensions.None? || ingestedAtMs.None? {
      return None;
    }
    r := Some(Columns(eventId.value, kind.value, correctionRef.value, accountId.value, subscriptionId.value,
                      productId.value,
                      meterId.value, timestampMs.value, quantity.value, unit.value, source.value, modelId.value,
                      dimensions.value, ingestedAtMs.value));
  }

  method DecodeIntColumn(lib: Library, k: Chunk) returns (r: Option<seq<int>>)
    ensures r == DecodeInts(lib, k)
  {
    if !k.encoding.Plain? && !k.encoding.Delta? { return None; }
    var v := lib.de(AsInts, k.payload);
    if v.None? || !v.value.Ints? { return None; }
    if k.encoding.Plain? { return Some(v.value.ints); }
    var values := DecodeDelta(v.value.ints);
    r := Some(values);
  }

  method DecodeByteColumn(lib: Library, k: Chunk) returns (r: Option<seq<Byte>>)
    ensures r == DecodeBytes(lib, k)
  {
    if k.encoding.Plain? {
      var v := lib.de(AsBytes, k.payload);
      return if v.Some? && v.value.Bytes? then Some(v.value.bytes) else None;
    }
    if !k.encoding.Rle? { return None; }
    var v := lib.de(AsRunList, k.payload);
    if v.None? || !v.value.RunList? { return None; }
    r := DecodeRle(v.value.runs);
  }

  method DecodeQuantityColumn(lib: Library, k: Chunk) returns (r: Option<seq<int>>)
    ensures r == DecodeBigInts(lib, k)
  {
    if k.encoding.Plain? {
      var v := lib.de(AsBigInts, k.payload);
      return if v.Some? && v.value.BigInts? then Some(v.value.bigInts) else None;
    }
    if !k.encoding.ZigzagVarint? { return None; }
    r := DecodeZigzagVarint(k.payload);
  }

  lemma {:induction false} ColumnsFail(lib: Library, body: seq<Byte>, off: nat, k: nat, n: nat)
    requires k <= n && !ReadColumns(lib, body, off, k).Good?
    ensures ReadColumns(lib, body, off, n) == ReadColumns(lib, body, off, k)
    decreases n
  {
    if k < n { ColumnsFail(lib, body, off, k, n - 1); }
  }
}
