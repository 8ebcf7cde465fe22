/** Column encodings of a segment file: dictionary, wrapping delta, zigzag varint and run length. */
module Codecs {
  import opened Model

  type Byte = b: nat | b < 256

  const TWO_32: nat := 0x1_0000_0000
  const TWO_64: nat := 0x1_0000_0000_0000_0000
  const TWO_128: nat := 0x1_0000_0000_0000_0000_0000_0000_0000_0000
  const MAX_EXPANDED: nat := 10_000_000_000

  // Little-endian integers.

  function LeBytes(n: nat, width: nat): (bs: seq<Byte>)
    ensures |bs| == width
  {
    if width == 0 then [] else [n % 256] + LeBytes(n / 256, width - 1)
  }

  function LeValue(bs: seq<Byte>): nat
  {
    if bs == [] then 0 else bs[0] + 256 * LeValue(bs[1..])
  }

  predicate FitsIn(n: nat, width: nat)
  {
    if width == 0 then n == 0 else FitsIn(n / 256, width - 1)
  }

  lemma {:induction false} LeRoundTrip(n: nat, width: nat)
    requires FitsIn(n, width)
    ensures LeValue(LeBytes(n, width)) == n
    decreases width
  {
    if width > 0 {
      LeRoundTrip(n / 256, width - 1);
      assert LeBytes(n, width)[1..] == LeBytes(n / 256, width - 1);
    }
  }

  lemma U16Fits(n: nat)
    requires n < 0x1_0000
    ensures FitsIn(n, 2)
  {
    assert FitsIn(n / 256 / 256, 0);
  }

  lemma U32Fits(n: nat)
    requires n < TWO_32
    ensures FitsIn(n, 4)
  {
    U16Fits(n / 256 / 256);
    assert FitsIn(n / 256, 3);
  }

  lemma U64Fits(n: nat)
    requires n < TWO_64
    ensures FitsIn(n, 8)
  {
    var high := n / 256 / 256 / 256 / 256;
    assert high < TWO_32;
    U32Fits(high);
    assert FitsIn(n / 256 / 256 / 256, 5);
    assert FitsIn(n / 256, 7);
  }

  // Dictionary.

  datatype Dictionary<V> = Dictionary(dict: seq<string>, indices: seq<V>)

  function IndexOf(dict: seq<string>, v: string): (i: nat)
    requires v in dict
    ensures i < |dict| && dict[i] == v
    decreases |dict|
  {
    if dict[0] == v then 0 else 1 + IndexOf(dict[1..], v)
  }

  lemma {:induction false} IndexOfStable(dict: seq<string>, v: string, w: string)
    requires v in dict
    ensures IndexOf(dict + [w], v) == IndexOf(dict, v)
    decreases |dict|
  {
    if dict[0] != v {
      assert (dict + [w])[1..] == dict[1..] + [w];
      IndexOfStable(dict[1..], v, w);
    }
  }

  lemma {:induction false} IndexOfNew(dict: seq<string>, v: string)
    requires v !in dict
    ensures v in dict + [v] && IndexOf(dict + [v], v) == |dict|
    decreases |dict|
  {
    assert (dict + [v])[|dict|] == v;
    if dict != [] {
      assert (dict + [v])[1..] == dict[1..] + [v];
      IndexOfNew(dict[1..], v);
    }
  }

  /** The dictionary with `v` in it, and `v`'s 32-bit index. */
  function Learn(dict: seq<string>, v: string): (r: (seq<string>, nat))
  {
    if v in dict then (dict, IndexOf(dict, v) % TWO_32) else (dict + [v], |dict| % TWO_32)
  }

  function DictOf(values: seq<string>): Dictionary<nat>
  {
    if values == [] then Dictionary([], [])
    else
      var d := DictOf(values[..|values| - 1]);
      var r := Learn(d.dict, values[|values| - 1]);
      Dictionary(r.0, d.indices + [r.1])
  }

  /** The nullable form: a missing value has no entry and no index. */
  function OptionDictOf(values: seq<Option<string>>): Dictionary<Option<nat>>
  {
    if values == [] then Dictionary([], [])
    else
      var d := OptionDictOf(values[..|values| - 1]);
      var v := values[|values| - 1];
      if v.None? then Dictionary(d.dict, d.indices + [None])
      else var r := Learn(d.dict, v.value); Dictionary(r.0, d.indices + [Some(r.1)])
  }

  function Lookup(dict: seq<string>, indices: seq<nat>): Option<seq<string>>
  {
    if indices == [] then Some([])
    else
      var front := Lookup(dict, indices[..|indices| - 1]);
      var i := indices[|indices| - 1];
      if front.None? || i >= |dict| then None else Some(front.value + [dict[i]])
  }

  function OptionLookup(dict: seq<string>, indices: seq<Option<nat>>): Option<seq<Option<string>>>
  {
    if indices == [] then Some([])
    else
      var front := OptionLookup(dict, indices[..|indices| - 1]);
      var i := indices[|indices| - 1];
      if front.None? then None
      else if i.None? then Some(front.value + [None])
      else if i.value >= |dict| then None
      else Some(front.value + [Some(dict[i.value])])
  }

  lemma {:induction false} LookupGrows(dict: seq<string>, dict': seq<string>, indices: seq<nat>)
    requires dict <= dict' && Lookup(dict, indices).Some?
    ensures Lookup(dict', indices) == Lookup(dict, indices)
    decreases |indices|
  {
    if indices != [] {
      LookupGrows(dict, dict', indices[..|indices| - 1]);
    }
  }

  lemma {:induction false} OptionLookupGrows(dict: seq<string>, dict': seq<string>, indices: seq<Option<nat>>)
    requires dict <= dict' && OptionLookup(dict, indices).Some?
    ensures OptionLookup(dict', indices) == OptionLookup(dict, indices)
    decreases |indices|
  {
    if indices != [] {
      OptionLookupGrows(dict, dict', indices[..|indices| - 1]);
    }
  }

  lemma Learns(dict: seq<string>, v: string)
    requires |dict| < TWO_32
    ensures var r := Learn(dict, v);
            dict <= r.0 && |r.0| <= |dict| + 1 && r.1 < |r.0| && r.0[r.1] == v
  {
    if v !in dict { assert (dict + [v])[|dict|] == v; }
  }

  lemma {:induction false} DictRoundTrip(values: seq<string>)
    requires |values| < TWO_32
    ensures var d := DictOf(values); |d.dict| <= |values| && Lookup(d.dict, d.indices) == Some(values)
    decreases |values|
  {
    hide Learn;
    if values != [] {
      var front, v := values[..|values| - 1], values[|values| - 1];
      DictRoundTrip(front);
      var d := DictOf(front);
      Learns(d.dict, v);
      var r := Learn(d.dict, v);
      LookupGrows(d.dict, r.0, d.indices);
      assert (d.indices + [r.1])[..|d.indices|] == d.indices;
      assert values == front + [v];
    }
  }

  lemma {:induction false} OptionDictRoundTrip(values: seq<Option<string>>)
    requires |values| < TWO_32
    ensures var d := OptionDictOf(values); |d.dict| <= |values| && OptionLookup(d.dict, d.indices) == Some(values)
    decreases |values|
  {
    hide Learn;
    if values != [] {
      var front, v := values[..|values| - 1], values[|values| - 1];
      OptionDictRoundTrip(front);
      var d := OptionDictOf(front);
      assert values == front + [v];
      if v.None? {
        assert (d.indices + [None])[..|d.indices|] == d.indices;
      } else {
        Learns(d.dict, v.value);
        var r := Learn(d.dict, v.value);
        OptionLookupGrows(d.dict, r.0, d.indices);
        assert (d.indices + [Some(r.1)])[..|d.indices|] == d.indices;
      }
    }
  }

  /** The index map agrees with the dictionary. */
  ghost predicate Indexes(indexOf: map<string, nat>, dict: seq<string>)
  {
    (forall v :: v in indexOf <==> v in dict) && forall v :: v in indexOf ==> indexOf[v] == IndexOf(dict, v) % TWO_32
  }

  lemma IndexesNew(indexOf: map<string, nat>, dict: seq<string>, v: string)
    requires Indexes(indexOf, dict) && v !in dict
    ensures Indexes(indexOf[v := |dict| % TWO_32], dict + [v])
  {
    IndexOfNew(dict, v);
    forall w | w in dict ensures IndexOf(dict + [v], w) == IndexOf(dict, w) { IndexOfStable(dict, w, v); }
  }

  method EncodeDictStrings(values: seq<string>) returns (d: Dictionary<nat>)
    ensures d == DictOf(values)
  {
    var dict: seq<string>, indices: seq<nat> := [], [];
    var indexOf: map<string, nat> := map[];
    for k := 0 to |values|
      invariant Dictionary(dict, indices) == DictOf(values[..k])
      invariant Indexes(indexOf, dict)
    {
      var v := values[k];
      assert values[..k + 1][..k] == values[..k];
      if v in indexOf {
        indices := indices + [indexOf[v]];
      } else {
        var i := |dict| % TWO_32;
        IndexesNew(indexOf, dict, v);
        dict := dict + [v];
        indexOf := indexOf[v := i];
        indices := indices + [i];
      }
    }
    assert values[..|values|] == values;
    d := Dictionary(dict, indices);
  }

  method EncodeDictOptionStrings(values: seq<Option<string>>) returns (d: Dictionary<Option<nat>>)
    ensures d == OptionDictOf(values)
  {
    var dict: seq<string>, indices: seq<Option<nat>> := [], [];
    var indexOf: map<string, nat> := map[];
    for k := 0 to |values|
      invariant Dictionary(dict, indices) == OptionDictOf(values[..k])
      invariant Indexes(indexOf, dict)
    {
      var v := values[k];
      assert values[..k + 1][..k] == values[..k];
      if v.None? {
        indices := indices + [None];
      } else if v.value in indexOf {
        indices := indices + [Some(indexOf[v.value])];
      } else {
        var i := |dict| % TWO_32;
        IndexesNew(indexOf, dict, v.value);
        dict := dict + [v.value];
        indexOf := indexOf[v.value := i];
        indices := indices + [Some(i)];
      }
    }
    assert values[..|values|] == values;
    d := Dictionary(dict, indices);
  }

  // Wrapping delta.

  /** Two's-complement wrap into 64 bits. */
  function Wrap64(n: int): (r: int)
    ensures IsI64(r)
  {
    (n + 0x8000_0000_0000_0000) % TWO_64 - 0x8000_0000_0000_0000
  }

  lemma WrapUndoes(prev: int, v: int)
    requires IsI64(prev) && IsI64(v)
    ensures Wrap64(prev + Wrap64(v - prev)) == v
  {
    var d := v - prev;
    assert Wrap64(d) == d || Wrap64(d) == d + TWO_64 || Wrap64(d) == d - TWO_64;
  }

  function LastOr0(values: seq<int>): int
  {
    if values == [] then 0 else values[|values| - 1]
  }

  function Deltas(values: seq<int>): seq<int>
  {
    if values == [] then []
    else Deltas(values[..|values| - 1]) + [Wrap64(values[|values| - 1] - LastOr0(values[..|values| - 1]))]
  }

  function Undelta(deltas: seq<int>): seq<int>
  {
    if deltas == [] then []
    else
      var front := Undelta(deltas[..|deltas| - 1]);
      front + [Wrap64(LastOr0(front) + deltas[|deltas| - 1])]
  }

  predicate AllI64(values: seq<int>)
  {
    forall i :: 0 <= i < |values| ==> IsI64(values[i])
  }

  lemma UndeltaSnoc(deltas: seq<int>, d: int)
    ensures Undelta(deltas + [d]) == Undelta(deltas) + [Wrap64(LastOr0(Undelta(deltas)) + d)]
  {
    hide Wrap64;
    assert (deltas + [d])[..|deltas|] == deltas;
  }

  lemma NoDeltas()
    ensures Deltas([]) == [] && Undelta([]) == []
  {
  }

  lemma DeltasSnoc(values: seq<int>)
    requires AllI64(values) && values != []
    ensures var front, v := values[..|values| - 1], values[|values| - 1];
            && Deltas(values) == Deltas(front) + [Wrap64(v - LastOr0(front))]
            && AllI64(front) && IsI64(LastOr0(front)) && IsI64(v)
  {
    hide Wrap64;
  }

  /** Deltas that wrap around 64 bits still add back up. */
  lemma {:induction false} DeltaRoundTrip(values: seq<int>)
    requires AllI64(values)
    ensures Undelta(Deltas(values)) == values
    decreases |values|
  {
    hide Wrap64, Undelta, Deltas, AllI64, LastOr0;
    if values == [] {
      NoDeltas();
    } else {
      var front, v := values[..|values| - 1], values[|values| - 1];
      DeltasSnoc(values);
      DeltaRoundTrip(front);
      WrapUndoes(LastOr0(front), v);
      UndeltaSnoc(Deltas(front), Wrap64(v - LastOr0(front)));
      assert values == front + [v];
    }
  }

  method EncodeDelta(values: seq<int>) returns (deltas: seq<int>)
    ensures deltas == Deltas(values)
  {
    deltas := [];
    var prev := 0;
    for i := 0 to |values|
      invariant deltas == Deltas(values[..i]) && prev == LastOr0(values[..i])
    {
      assert values[..i + 1][..i] == values[..i];
      deltas := deltas + [Wrap64(values[i] - prev)];
      prev := values[i];
    }
    assert values[..|values|] == values;
  }

  method DecodeDelta(deltas: seq<int>) returns (values: seq<int>)
    ensures values == Undelta(deltas)
  {
    values := [];
    var prev := 0;
    for i := 0 to |deltas|
      invariant values == Undelta(deltas[..i]) && prev == LastOr0(values)
    {
      assert deltas[..i + 1][..i] == deltas[..i];
      var v := Wrap64(prev + deltas[i]);
      values := values + [v];
      prev := v;
    }
    assert deltas[..|deltas|] == deltas;
  }

  // Zigzag.

  /** `(n << 1) ^ (n >> 127)` on 128 bits: doubling drops the top bit, and the sign word flips every
      bit of a negative number. */
  function Zigzag(n: int): (x: nat)
  {
    var doubled := (2 * n) % TWO_128;
    if n < 0 then TWO_128 - 1 - doubled else doubled
  }

  /** `(x >> 1) ^ -(x & 1)`. */
  function Unzigzag(x: nat): int
  {
    var half: int := x / 2;
    if x % 2 == 0 then half else -half - 1
  }

  /** Zigzag is a bijection between the 128-bit signed and unsigned integers, extremes included. */
  lemma ZigzagRoundTrip(n: int)
    requires IsI128(n)
    ensures Zigzag(n) < TWO_128 && Unzigzag(Zigzag(n)) == n
  {
    if n < 0 {
      assert (2 * n) % TWO_128 == 2 * n + TWO_128;
    } else {
      assert (2 * n) % TWO_128 == 2 * n;
    }
  }

  lemma UnzigzagRoundTrip(x: nat)
    requires x < TWO_128
    ensures IsI128(Unzigzag(x)) && Zigzag(Unzigzag(x)) == x
  {
    var n := Unzigzag(x);
    if n < 0 {
      assert (2 * n) % TWO_128 == 2 * n + TWO_128;
    }
  }

  // Varint.

  function VarintBytes(x: nat): (bs: seq<Byte>)
    ensures bs != []
  {
    if x < 128 then [x] else [x % 128 + 128] + VarintBytes(x / 128)
  }

  /** Shift left; `unit` is two to the shift. */
  function Shl(x: nat, unit: nat): nat
  {
    x * unit
  }

  /** Read one varint at `i`.  `unit` is two to the current shift; each group of seven bits lands above
      the bits read so far, so or-ing it in is adding it.  Bits beyond 128 fall off. */
  function ReadVarint(bytes: seq<Byte>, i: nat, x: nat, unit: nat): Option<(nat, nat)>
    decreases |bytes| - i
  {
    if i >= |bytes| then None
    else
      var x' := x + Shl(bytes[i] % 128, unit) % TWO_128;
      if bytes[i] < 128 then Some((x', i + 1))
      else if unit * 128 >= TWO_128 then None
      else ReadVarint(bytes, i + 1, x', unit * 128)
  }

  /** The low seven bits and the rest, shifted, make up the whole. */
  lemma ShlSplit(x: nat, unit: nat)
    requires 0 < unit && Shl(x, unit) < TWO_128
    ensures Shl(x % 128, unit) + Shl(x / 128, unit * 128) == Shl(x, unit)
    ensures Shl(x % 128, unit) % TWO_128 == Shl(x % 128, unit)
    ensures 128 <= x ==> unit * 128 < TWO_128
  {
    var q, r := x / 128, x % 128;
    assert q * (unit * 128) == (q * 128) * unit;
    assert (q * 128 + r) * unit == (q * 128) * unit + r * unit;
    assert 0 <= q * (unit * 128) && 0 <= r * unit;
    if 128 <= x { assert 0 <= (x - 128) * unit; }
  }

  /** Reading back what was written, in any surroundings. */
  lemma {:induction false} VarintRoundTrip(bytes: seq<Byte>, i: nat, x: nat, below: nat, unit: nat)
    requires 0 < unit && Shl(x, unit) < TWO_128
    requires i + |VarintBytes(x)| <= |bytes| && bytes[i..i + |VarintBytes(x)|] == VarintBytes(x)
    ensures ReadVarint(bytes, i, below, unit) == Some((below + Shl(x, unit), i + |VarintBytes(x)|))
    decreases x
  {
    hide Shl;
    var enc := VarintBytes(x);
    assert bytes[i] == bytes[i..i + |enc|][0] == enc[0];
    ShlSplit(x, unit);
    if x < 128 {
      assert Shl(0, unit * 128) == 0 by { ShlZero(unit * 128); }
    } else {
      var rest := VarintBytes(x / 128);
      assert enc[1..] == rest;
      assert bytes[i + 1..i + 1 + |rest|] == bytes[i..i + |enc|][1..];
      VarintRoundTrip(bytes, i + 1, x / 128, below + Shl(x % 128, unit), unit * 128);
    }
  }

  lemma ShlZero(unit: nat)
    ensures Shl(0, unit) == 0
  {
  }

  function ZigzagBytes(values: seq<int>): seq<Byte>
  {
    if values == [] then [] else ZigzagBytes(values[..|values| - 1]) + VarintBytes(Zigzag(values[|values| - 1]))
  }

  /** `count` varints from `i` on, and where they end. */
  function ReadVarints(bytes: seq<Byte>, i: nat, count: nat): Option<(seq<int>, nat)>
    decreases count
  {
    if count == 0 then Some(([], i))
    else
      var front := ReadVarints(bytes, i, count - 1);
      if front.None? then None
      else
        var one := ReadVarint(bytes, front.value.1, 0, 1);
        if one.None? then None else Some((front.value.0 + [Unzigzag(one.value.0)], one.value.1))
  }

  function EncodedZigzag(values: seq<int>): seq<Byte>
  {
    LeBytes(|values| % TWO_32, 4) + ZigzagBytes(values)
  }

  function DecodedZigzag(bytes: seq<Byte>): Option<seq<int>>
  {
    if |bytes| < 4 then None
    else
      var all := ReadVarints(bytes, 4, LeValue(bytes[..4]));
      if all.None? then None else Some(all.value.0)
  }

  predicate AllI128(values: seq<int>)
  {
    forall i :: 0 <= i < |values| ==> IsI128(values[i])
  }

  lemma NextVarint(bytes: seq<Byte>, i: nat, n: nat, front: seq<int>, k: nat, v: int)
    requires ReadVarints(bytes, i, n) == Some((front, k)) && IsI128(v)
    requires var enc := VarintBytes(Zigzag(v)); k + |enc| <= |bytes| && bytes[k..k + |enc|] == enc
    ensures ReadVarints(bytes, i, n + 1) == Some((front + [v], k + |VarintBytes(Zigzag(v))|))
  {
    hide Zigzag, Unzigzag, ReadVarint, VarintBytes;
    ZigzagRoundTrip(v);
    VarintRoundTrip(bytes, k, Zigzag(v), 0, 1);
  }

  lemma SplitPiece(bytes: seq<Byte>, i: nat, a: seq<Byte>, b: seq<Byte>)
    requires i + |a + b| <= |bytes| && bytes[i..i + |a + b|] == a + b
    ensures bytes[i..i + |a|] == a && bytes[i + |a|..i + |a| + |b|] == b
  {
    var piece := bytes[i..i + |a + b|];
    assert bytes[i..i + |a|] == piece[..|a|] && bytes[i + |a|..i + |a| + |b|] == piece[|a|..];
  }

  lemma NoVarints(bytes: seq<Byte>, i: nat)
    ensures ZigzagBytes([]) == [] && ReadVarints(bytes, i, 0) == Some(([], i))
  {
  }

  lemma AllI128Snoc(values: seq<int>)
    requires AllI128(values) && values != []
    ensures AllI128(values[..|values| - 1]) && IsI128(values[|values| - 1])
  {
  }

  lemma ZigzagBytesSnoc(values: seq<int>)
    requires values != []
    ensures ZigzagBytes(values) == ZigzagBytes(values[..|values| - 1]) + VarintBytes(Zigzag(values[|values| - 1]))
  {
  }

  lemma {:induction false} VarintsRoundTrip(bytes: seq<Byte>, i: nat, values: seq<int>)
    requires AllI128(values) && i + |ZigzagBytes(values)| <= |bytes|
    requires bytes[i..i + |ZigzagBytes(values)|] == ZigzagBytes(values)
    ensures ReadVarints(bytes, i, |values|) == Some((values, i + |ZigzagBytes(values)|))
    decreases |values|
  {
    hide Zigzag, ReadVarints, VarintBytes, ZigzagBytes, AllI128;
    if values == [] {
      NoVarints(bytes, i);
    } else {
      var front, v := values[..|values| - 1], values[|values| - 1];
      assert AllI128(front) && IsI128(v) by { AllI128Snoc(values); }
      ZigzagBytesSnoc(values);
      SplitPiece(bytes, i, ZigzagBytes(front), VarintBytes(Zigzag(v)));
      VarintsRoundTrip(bytes, i, front);
      NextVarint(bytes, i, |front|, front, i + |ZigzagBytes(front)|, v);
      assert values == front + [v];
    }
  }

  lemma ZigzagColumnRoundTrip(values: seq<int>)
    requires AllI128(values) && |values| < TWO_32
    ensures DecodedZigzag(EncodedZigzag(values)) == Some(values)
  {
    hide ReadVarints, ZigzagBytes, LeBytes, LeValue;
    var bytes := EncodedZigzag(values);
    assert bytes[..4] == LeBytes(|values|, 4);
    U32Fits(|values|);
    LeRoundTrip(|values|, 4);
    assert bytes[4..4 + |ZigzagBytes(values)|] == ZigzagBytes(values);
    VarintsRoundTrip(bytes, 4, values);
  }

  method EncodeZigzagVarint(values: seq<int>) returns (out: seq<Byte>)
    ensures out == EncodedZigzag(values)
  {
    hide Zigzag;
    out := LeBytes(|values| % TWO_32, 4);
    for i := 0 to |values|
      invariant out == LeBytes(|values| % TWO_32, 4) + ZigzagBytes(values[..i])
    {
      assert values[..i + 1][..i] == values[..i];
      var x := Zigzag(values[i]);
      ghost var before := out;
      while x >= 128
        invariant out + VarintBytes(x) == before + VarintBytes(Zigzag(values[i]))
        decreases x
      {
        out := out + [x % 128 + 128];
        x := x / 128;
      }
      out := out + [x];
      assert out == before + VarintBytes(Zigzag(values[i]));
    }
    assert values[..|values|] == values;
  }

  method DecodeZigzagVarint(bytes: seq<Byte>) returns (r: Option<seq<int>>)
    ensures r == DecodedZigzag(bytes)
  {
    hide LeValue, Unzigzag;
    if |bytes| < 4 { return None; }
    var count := LeValue(bytes[..4]);
    var out: seq<int> := [];
    var i: nat := 4;
    for n := 0 to count
      invariant ReadVarints(bytes, 4, n) == Some((out, i))
    {
      var x: nat, unit: nat := 0, 1;
      ghost var start := i;
      while true
        invariant ReadVarint(bytes, start, 0, 1) == ReadVarint(bytes, i, x, unit)
        decreases |bytes| - i
      {
        if i >= |bytes| {
          FailsOnward(bytes, 4, n + 1, count);
          return None;
        }
        var b := bytes[i];
        i := i + 1;
        x := x + Shl(b % 128, unit) % TWO_128;
        if b < 128 { break; }
        if unit * 128 >= TWO_128 {
          FailsOnward(bytes, 4, n + 1, count);
          return None;
        }
        unit := unit * 128;
      }
      out := out + [Unzigzag(x)];
    }
    r := Some(out);
  }

  lemma {:induction false} FailsOnward(bytes: seq<Byte>, i: nat, n: nat, count: nat)
    requires n <= count && ReadVarints(bytes, i, n).None?
    ensures ReadVarints(bytes, i, count).None?
    decreases count
  {
    if n < count { FailsOnward(bytes, i, n, count - 1); }
  }

  // Run length.

  function Repeat(v: Byte, n: nat): seq<Byte>
  {
    seq(n, _ => v)
  }

  function Runs(values: seq<Byte>): seq<(Byte, nat)>
  {
    if values == [] then []
    else
      var runs, v := Runs(values[..|values| - 1]), values[|values| - 1];
      if runs != [] && runs[|runs| - 1].0 == v
      then runs[..|runs| - 1] + [(v, Longer(runs[|runs| - 1].1))]
      else runs + [(v, 1)]
  }

  /** A 32-bit run counter that saturates. */
  function Longer(count: nat): nat
  {
    if count + 1 < TWO_32 then count + 1 else TWO_32 - 1
  }

  function Expand(runs: seq<(Byte, nat)>): Option<seq<Byte>>
  {
    if runs == [] then Some([])
    else
      var front, run := Expand(runs[..|runs| - 1]), runs[|runs| - 1];
      if front.None? || |front.value| + run.1 > MAX_EXPANDED then None else Some(front.value + Repeat(run.0, run.1))
  }

  lemma {:induction false} RleRoundTrip(values: seq<Byte>)
    requires |values| < TWO_32
    ensures Expand(Runs(values)) == Some(values)
    decreases |values|
  {
    if values != [] {
      var front, v := values[..|values| - 1], values[|values| - 1];
      RleRoundTrip(front);
      LongerRun(Runs(front), front, v);
      assert values == front + [v];
    }
  }

  lemma ExpandSnoc(runs: seq<(Byte, nat)>, values: seq<Byte>, v: Byte, count: nat)
    requires Expand(runs) == Some(values) && |values| + count < TWO_32
    ensures Expand(runs + [(v, count)]) == Some(values + Repeat(v, count))
  {
    assert (runs + [(v, count)])[..|runs|] == runs;
  }

  lemma RepeatSnoc(v: Byte, n: nat)
    ensures Repeat(v, n + 1) == Repeat(v, n) + [v] && Repeat(v, 0) == [] && |Repeat(v, n)| == n
  {
  }

  lemma LastRun(runs: seq<(Byte, nat)>, values: seq<Byte>) returns (head: seq<Byte>)
    requires Expand(runs) == Some(values) && runs != []
    ensures Expand(runs[..|runs| - 1]) == Some(head) && values == head + Repeat(runs[|runs| - 1].0, runs[|runs| - 1].1)
  {
    head := Expand(runs[..|runs| - 1]).value;
  }

  /** One more value extends the last run or starts a new one. */
  lemma LongerRun(runs: seq<(Byte, nat)>, values: seq<Byte>, v: Byte)
    requires Expand(runs) == Some(values) && |values| + 1 < TWO_32
    ensures Expand(runs + [(v, 1)]) == Some(values + [v])
    ensures runs != [] && runs[|runs| - 1].0 == v ==>
              Expand(runs[..|runs| - 1] + [(v, Longer(runs[|runs| - 1].1))]) == Some(values + [v])
  {
    hide Expand, Repeat;
    RepeatSnoc(v, 0);
    assert [] + [v] == [v];
    ExpandSnoc(runs, values, v, 1);
    if runs != [] && runs[|runs| - 1].0 == v {
      var front, count := runs[..|runs| - 1], runs[|runs| - 1].1;
      var head := LastRun(runs, values);
      RepeatSnoc(v, count);
      ExpandSnoc(front, head, v, count + 1);
      assert head + (Repeat(v, count) + [v]) == values + [v];
    }
  }

  method EncodeRle(values: seq<Byte>) returns (runs: seq<(Byte, nat)>)
    ensures runs == Runs(values)
  {
    runs := [];
    if values != [] {
      var current, count := values[0], 1;
      assert values[..1][..0] == [];
      for i := 1 to |values|
        invariant runs + [(current, count)] == Runs(values[..i])
      {
        assert values[..i + 1][..i] == values[..i];
        var v := values[i];
        if v == current {
          count := Longer(count);
        } else {
          runs := runs + [(current, count)];
          current, count := v, 1;
        }
      }
      runs := runs + [(current, count)];
      assert values[..|values|] == values;
    }
  }

  method DecodeRle(runs: seq<(Byte, nat)>) returns (r: Option<seq<Byte>>)
    ensures r == Expand(runs)
  {
    var out: seq<Byte> := [];
    for i := 0 to |runs|
      invariant Expand(runs[..i]) == Some(out)
    {
      assert runs[..i + 1][..i] == runs[..i];
      var (v, c) := runs[i];
      if |out| + c > MAX_EXPANDED {
        ExpandFails(runs, i + 1);
        return None;
      }
      ghost var before := out;
      for k := 0 to c
        invariant out == before + Repeat(v, k)
      {
        assert Repeat(v, k + 1) == Repeat(v, k) + [v];
        out := out + [v];
      }
    }
    assert runs[..|runs|] == runs;
    r := Some(out);
  }

  lemma {:induction false} ExpandFails(runs: seq<(Byte, nat)>, n: nat)
    requires n <= |runs| && Expand(runs[..n]).None?
    ensures Expand(runs).None?
    decreases |runs|
  {
    if n == |runs| {
      assert runs[..n] == runs;
    } else {
      assert runs[..|runs| - 1][..n] == runs[..n];
      ExpandFails(runs[..|runs| - 1], n);
    }
  }
}
