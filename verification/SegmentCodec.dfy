/** The segment file: fourteen encoded, compressed columns between a header and a checksummed footer. */
module SegmentCodec {
  import opened Model
  import opened Codecs

  /** What the serializer is asked to store. */
  datatype Value =
    | Strings(strings: seq<string>)
    | OptionStrings(optionStrings: seq<Option<string>>)
    | CorrectionRefs(refs: seq<Option<CorrectionRef>>)
    | DimensionMaps(maps: seq<Dimensions>)
    | StringDict(stringDict: Dictionary<nat>)
    | OptionDict(optionDict: Dictionary<Option<nat>>)
    | Ints(ints: seq<int>)
    | BigInts(bigInts: seq<int>)
    | Bytes(bytes: seq<Byte>)
    | RunList(runs: seq<(Byte, nat)>)

  /** The Rust type a caller asks the deserializer for. */
  datatype Shape =
    | AsStrings | AsOptionStrings | AsCorrectionRefs | AsDimensionMaps | AsStringDict | AsOptionDict
    | AsInts | AsBigInts | AsBytes | AsRunList

  function ShapeOf(v: Value): Shape
  {
    match v
    case Strings(_) => AsStrings
    case OptionStrings(_) => AsOptionStrings
    case CorrectionRefs(_) => AsCorrectionRefs
    case DimensionMaps(_) => AsDimensionMaps
    case StringDict(_) => AsStringDict
    case OptionDict(_) => AsOptionDict
    case Ints(_) => AsInts
    case BigInts(_) => AsBigInts
    case Bytes(_) => AsBytes
    case RunList(_) => AsRunList
  }

  /** bincode, zstd, lz4, the UTF-8 check and blake3, as far as the file format can tell. */
  datatype Library = Library(
    ser: Value -> seq<Byte>,
    de: (Shape, seq<Byte>) -> Option<Value>,
    compress: seq<Byte> -> seq<Byte>,
    unzstd: seq<Byte> -> Option<seq<Byte>>,
    unlz4: seq<Byte> -> Option<seq<Byte>>,
    utf8: seq<Byte> -> Option<string>,
    checksum: seq<Byte> -> nat)

  predicate IsAscii(s: string) { forall i :: 0 <= i < |s| ==> s[i] as int < 128 }

  function Ascii(s: string): (bs: seq<Byte>)
    ensures |bs| == |s|
  {
    seq(|s|, i requires 0 <= i < |s| => s[i] as int % 256)
  }

  ghost predicate LibraryOk(lib: Library)
  {
    && (forall v: Value :: lib.de(ShapeOf(v), lib.ser(v)) == Some(v))
    && (forall bs: seq<Byte> :: lib.unzstd(lib.compress(bs)) == Some(bs))
    && (forall s: string :: IsAscii(s) ==> lib.utf8(Ascii(s)) == Some(s))
    && (forall bs: seq<Byte> :: lib.checksum(bs) < TWO_64)
  }

  // Columns.

  datatype Columns = Columns(
    eventId: seq<string>,
    kind: seq<Byte>,
    correctionRef: seq<Option<CorrectionRef>>,
    accountId: seq<string>,
    subscriptionId: seq<Option<string>>,
    productId: seq<string>,
    meterId: seq<string>,
    timestampMs: seq<int>,
    quantity: seq<int>,
    unit: seq<string>,
    source: seq<string>,
    modelId: seq<Option<string>>,
    dimensions: seq<Dimensions>,
    ingestedAtMs: seq<int>)

  function KindByte(k: EventKind): Byte
  {
    match k
    case Usage => 0
    case Correction => 1
    case Retraction => 2
  }

  function KindOf(b: Byte): Option<EventKind>
  {
    if b == 0 then Some(Usage) else if b == 1 then Some(Correction) else if b == 2 then Some(Retraction) else None
  }

  function Push(c: Columns, e: UsageEvent): Columns
  {
    Columns(
      c.eventId + [e.eventId], c.kind + [KindByte(e.kind)], c.correctionRef + [e.correctionRef],
      c.accountId + [e.accountId], c.subscriptionId + [e.subscriptionId], c.productId + [e.productId],
      c.meterId + [e.meterId], c.timestampMs + [e.timestampMs], c.quantity + [e.quantity], c.unit + [e.unit],
      c.source + [e.source], c.modelId + [e.modelId], c.dimensions + [e.dimensions], c.ingestedAtMs + [e.ingestedAtMs])
  }

  const NO_COLUMNS := Columns([], [], [], [], [], [], [], [], [], [], [], [], [], [])

  function ColumnsOf(events: seq<UsageEvent>): Columns
  {
    if events == [] then NO_COLUMNS else Push(ColumnsOf(events[..|events| - 1]), events[|events| - 1])
  }

  predicate HaveRows(c: Columns, n: nat)
  {
    && |c.eventId| == n && |c.kind| == n && |c.correctionRef| == n && |c.accountId| == n
    && |c.subscriptionId| == n && |c.productId| == n && |c.meterId| == n && |c.timestampMs| == n
    && |c.quantity| == n && |c.unit| == n && |c.source| == n && |c.modelId| == n
    && |c.dimensions| == n && |c.ingestedAtMs| == n
  }

  /** Row `i` as an event, unless its kind byte is unknown. */
  function EventAt(c: Columns, n: nat, i: nat): Option<UsageEvent>
    requires HaveRows(c, n) && i < n
  {
    var kind := KindOf(c.kind[i]);
    if kind.None? then None
    else Some(UsageEvent(
      c.eventId[i], kind.value, c.correctionRef[i], c.accountId[i], c.subscriptionId[i], c.productId[i], c.meterId[i],
      c.timestampMs[i], c.quantity[i], c.unit[i], c.source[i], c.modelId[i], c.dimensions[i], c.ingestedAtMs[i]))
  }

  /** The first `k` rows. */
  function Rows(c: Columns, n: nat, k: nat): Option<seq<UsageEvent>>
    requires HaveRows(c, n) && k <= n
  {
    if k == 0 then Some([])
    else
      var front, e := Rows(c, n, k - 1), EventAt(c, n, k - 1);
      if front.None? || e.None? then None else Some(front.value + [e.value])
  }

  lemma {:induction false} ColumnsHaveRows(events: seq<UsageEvent>)
    ensures HaveRows(ColumnsOf(events), |events|)
    decreases |events|
  {
    if events != [] { ColumnsHaveRows(events[..|events| - 1]); }
  }

  /** Columns hold what was pushed, row by row. */
  lemma {:induction false} ColumnsAt(events: seq<UsageEvent>, i: nat)
    requires i < |events| && HaveRows(ColumnsOf(events), |events|)
    ensures EventAt(ColumnsOf(events), |events|, i) == Some(events[i])
    decreases |events|
  {
    var front := events[..|events| - 1];
    ColumnsHaveRows(front);
    if i < |front| {
      ColumnsAt(front, i);
      PushKeeps(ColumnsOf(front), |front|, events[|front|], i);
    }
  }

  lemma PushKeeps(c: Columns, n: nat, e: UsageEvent, i: nat)
    requires HaveRows(c, n) && i < n
    ensures HaveRows(Push(c, e), n + 1) && EventAt(Push(c, e), n + 1, i) == EventAt(c, n, i)
  {
  }

  lemma {:induction false} RowsOfColumns(events: seq<UsageEvent>, k: nat)
    requires k <= |events| && HaveRows(ColumnsOf(events), |events|)
    ensures Rows(ColumnsOf(events), |events|, k) == Some(events[..k])
    decreases k
  {
    hide ColumnsOf, HaveRows, EventAt;
    if k > 0 {
      RowsOfColumns(events, k - 1);
      ColumnsAt(events, k - 1);
      assert events[..k] == events[..k - 1] + [events[k - 1]];
    }
  }

  // Encoded columns.

  datatype Encoding = Plain | DictionaryEncoding | Delta | ZigzagVarint | Rle

  function EncodingByte(e: Encoding): Byte
  {
    match e
    case Plain => 0
    case DictionaryEncoding => 1
    case Delta => 2
    case ZigzagVarint => 3
    case Rle => 4
  }

  function EncodingOf(b: Byte): Option<Encoding>
  {
    if b == 0 then Some(Plain) else if b == 1 then Some(DictionaryEncoding) else if b == 2 then Some(Delta)
    else if b == 3 then Some(ZigzagVarint) else if b == 4 then Some(Rle) else None
  }

  datatype Chunk = Chunk(encoding: Encoding, payload: seq<Byte>)

  const ORDER: seq<string> := [
    "event_id", "kind", "correction_ref", "account_id", "subscription_id", "product_id", "meter_id",
    "timestamp_ms", "quantity", "unit", "source", "model_id", "dimensions", "ingested_at_ms"]

  function Chunks(lib: Library, c: Columns): (chunks: seq<Chunk>)
    ensures |chunks| == |ORDER|
  {
    [Chunk(Plain, lib.ser(Strings(c.eventId))),
     Chunk(Rle, lib.ser(RunList(Runs(c.kind)))),
     Chunk(Plain, lib.ser(CorrectionRefs(c.correctionRef))),
     Chunk(DictionaryEncoding, lib.ser(StringDict(DictOf(c.accountId)))),
     Chunk(DictionaryEncoding, lib.ser(OptionDict(OptionDictOf(c.subscriptionId)))),
     Chunk(DictionaryEncoding, lib.ser(StringDict(DictOf(c.productId)))),
     Chunk(DictionaryEncoding, lib.ser(StringDict(DictOf(c.meterId)))),
     Chunk(Delta, lib.ser(Ints(Deltas(c.timestampMs)))),
     Chunk(ZigzagVarint, EncodedZigzag(c.quantity)),
     Chunk(DictionaryEncoding, lib.ser(StringDict(DictOf(c.unit)))),
     Chunk(DictionaryEncoding, lib.ser(StringDict(DictOf(c.source)))),
     Chunk(DictionaryEncoding, lib.ser(OptionDict(OptionDictOf(c.modelId)))),
     Chunk(Plain, lib.ser(DimensionMaps(c.dimensions))),
     Chunk(Delta, lib.ser(Ints(Deltas(c.ingestedAtMs))))]
  }

  // Decoders, each accepting every encoding the reader accepts for its type.

  function DecodeStrings(lib: Library, k: Chunk): Option<seq<string>>
  {
    if k.encoding.Plain? then
      var v := lib.de(AsStrings, k.payload);
      if v.Some? && v.value.Strings? then Some(v.value.strings) else None
    else if k.encoding.DictionaryEncoding? then
      var v := lib.de(AsStringDict, k.payload);
      if v.Some? && v.value.StringDict? then Lookup(v.value.stringDict.dict, v.value.stringDict.indices) else None
    else None
  }

  function DecodeOptionStrings(lib: Library, k: Chunk): Option<seq<Option<string>>>
  {
    if k.encoding.Plain? then
      var v := lib.de(AsOptionStrings, k.payload);
      if v.Some? && v.value.OptionStrings? then Some(v.value.optionStrings) else None
    else if k.encoding.DictionaryEncoding? then
      var v := lib.de(AsOptionDict, k.payload);
      if v.Some? && v.value.OptionDict? then OptionLookup(v.value.optionDict.dict, v.value.optionDict.indices) else None
    else None
  }

  function DecodeInts(lib: Library, k: Chunk): Option<seq<int>>
  {
    if !k.encoding.Plain? && !k.encoding.Delta? then None
    else
      var v := lib.de(AsInts, k.payload);
      if v.None? || !v.value.Ints? then None
      else if k.encoding.Plain? then Some(v.value.ints) else Some(Undelta(v.value.ints))
  }

  function DecodeBigInts(lib: Library, k: Chunk): Option<seq<int>>
  {
    if k.encoding.Plain? then
      var v := lib.de(AsBigInts, k.payload);
      if v.Some? && v.value.BigInts? then Some(v.value.bigInts) else None
    else if k.encoding.ZigzagVarint? then DecodedZigzag(k.payload)
    else None
  }

  function DecodeBytes(lib: Library, k: Chunk): Option<seq<Byte>>
  {
    if k.encoding.Plain? then
      var v := lib.de(AsBytes, k.payload);
      if v.Some? && v.value.Bytes? then Some(v.value.bytes) else None
    else if k.encoding.Rle? then
      var v := lib.de(AsRunList, k.payload);
      if v.Some? && v.value.RunList? then Expand(v.value.runs) else None
    else None
  }

  function DecodeRefs(lib: Library, k: Chunk): Option<seq<Option<CorrectionRef>>>
  {
    var v := if k.encoding.Plain? then lib.de(AsCorrectionRefs, k.payload) else None;
    if v.Some? && v.value.CorrectionRefs? then Some(v.value.refs) else None
  }

  function DecodeDimensions(lib: Library, k: Chunk): Option<seq<Dimensions>>
  {
    var v := if k.encoding.Plain? then lib.de(AsDimensionMaps, k.payload) else None;
    if v.Some? && v.value.DimensionMaps? then Some(v.value.maps) else None
  }

  /** Decode the columns, given their chunks in `ORDER`. */
  function DecodeColumns(lib: Library, ks: seq<Chunk>): Option<Columns>
    requires |ks| == |ORDER|
  {
    var eventId, kind, correctionRef := DecodeStrings(lib, ks[0]), DecodeBytes(lib, ks[1]), DecodeRefs(lib, ks[2]);
    var accountId, subscriptionId := DecodeStrings(lib, ks[3]), DecodeOptionStrings(lib, ks[4]);
    var productId, meterId := DecodeStrings(lib, ks[5]), DecodeStrings(lib, ks[6]);
    var timestampMs, quantity := DecodeInts(lib, ks[7]), DecodeBigInts(lib, ks[8]);
    var unit, source, modelId := DecodeStrings(lib, ks[9]), DecodeStrings(lib, ks[10]),
        DecodeOptionStrings(lib, ks[11]);
    var dimensions, ingestedAtMs := DecodeDimensions(lib, ks[12]), DecodeInts(lib, ks[13]);
    if eventId.Some? && kind.Some? && correctionRef.Some? && accountId.Some? && subscriptionId.Some? && productId.Some?
       && meterId.Some? && timestampMs.Some? && quantity.Some? && unit.Some? && source.Some? && modelId.Some?
       && dimensions.Some? && ingestedAtMs.Some?
    then Some(Columns(eventId.value, kind.value, correctionRef.value, accountId.value, subscriptionId.value,
                      productId.value,
                      meterId.value, timestampMs.value, quantity.value, unit.value, source.value, modelId.value,
                      dimensions.value, ingestedAtMs.value))
    else None
  }

  /** Machine values only: what an event's fields can hold. */
  predicate InMachineRange(c: Columns)
  {
    AllI64(c.timestampMs) && AllI64(c.ingestedAtMs) && AllI128(c.quantity)
  }

  lemma StringsRoundTrip(lib: Library, values: seq<string>)
    requires LibraryOk(lib) && |values| < TWO_32
    ensures DecodeStrings(lib, Chunk(DictionaryEncoding, lib.ser(StringDict(DictOf(values))))) == Some(values)
  {
    hide DictOf, Lookup;
    assert ShapeOf(StringDict(DictOf(values))) == AsStringDict;
    DictRoundTrip(values);
  }

  lemma OptionStringsRoundTrip(lib: Library, values: seq<Option<string>>)
    requires LibraryOk(lib) && |values| < TWO_32
    ensures DecodeOptionStrings(lib, Chunk(DictionaryEncoding, lib.ser(OptionDict(OptionDictOf(values)))))
            == Some(values)
  {
    hide OptionDictOf, OptionLookup;
    assert ShapeOf(OptionDict(OptionDictOf(values))) == AsOptionDict;
    OptionDictRoundTrip(values);
  }

  lemma IntsRoundTrip(lib: Library, values: seq<int>)
    requires LibraryOk(lib) && AllI64(values)
    ensures DecodeInts(lib, Chunk(Delta, lib.ser(Ints(Deltas(values))))) == Some(values)
  {
    hide Deltas, Undelta;
    assert ShapeOf(Ints(Deltas(values))) == AsInts;
    DeltaRoundTrip(values);
  }

  lemma BytesRoundTrip(lib: Library, values: seq<Byte>)
    requires LibraryOk(lib) && |values| < TWO_32
    ensures DecodeBytes(lib, Chunk(Rle, lib.ser(RunList(Runs(values))))) == Some(values)
  {
    hide Runs, Expand;
    assert ShapeOf(RunList(Runs(values))) == AsRunList;
    RleRoundTrip(values);
  }

  lemma PlainRoundTrip(lib: Library, c: Columns)
    requires LibraryOk(lib)
    ensures DecodeStrings(lib, Chunk(Plain, lib.ser(Strings(c.eventId)))) == Some(c.eventId)
    ensures DecodeRefs(lib, Chunk(Plain, lib.ser(CorrectionRefs(c.correctionRef)))) == Some(c.correctionRef)
    ensures DecodeDimensions(lib, Chunk(Plain, lib.ser(DimensionMaps(c.dimensions)))) == Some(c.dimensions)
  {
    assert ShapeOf(Strings(c.eventId)) == AsStrings;
    assert ShapeOf(CorrectionRefs(c.correctionRef)) == AsCorrectionRefs;
    assert ShapeOf(DimensionMaps(c.dimensions)) == AsDimensionMaps;
  }

  lemma ChunksRoundTrip(lib: Library, c: Columns, n: nat)
    requires LibraryOk(lib) && HaveRows(c, n) && n < TWO_32 && InMachineRange(c)
    ensures DecodeColumns(lib, Chunks(lib, c)) == Some(c)
  {
    hide DecodeStrings, DecodeOptionStrings, DecodeInts, DecodeBigInts, DecodeBytes, DecodeRefs, DecodeDimensions;
    hide DictOf, OptionDictOf, Deltas, Runs, EncodedZigzag, LibraryOk, AllI64, AllI128;
    PlainRoundTrip(lib, c);
    BytesRoundTrip(lib, c.kind);
    StringsRoundTrip(lib, c.accountId);
    OptionStringsRoundTrip(lib, c.subscriptionId);
    StringsRoundTrip(lib, c.productId);
    StringsRoundTrip(lib, c.meterId);
    IntsRoundTrip(lib, c.timestampMs);
    QuantitiesRoundTrip(lib, c.quantity);
    StringsRoundTrip(lib, c.unit);
    StringsRoundTrip(lib, c.source);
    OptionStringsRoundTrip(lib, c.modelId);
    IntsRoundTrip(lib, c.ingestedAtMs);
  }

  lemma QuantitiesRoundTrip(lib: Library, values: seq<int>)
    requires AllI128(values) && |values| < TWO_32
    ensures DecodeBigInts(lib, Chunk(ZigzagVarint, EncodedZigzag(values))) == Some(values)
  {
    hide EncodedZigzag, DecodedZigzag;
    ZigzagColumnRoundTrip(values);
  }
}
