/** Events, identifiers, machine arithmetic and time, shared by every other module. */
module Model {

  datatype Option<+T> = None | Some(value: T)

  datatype Result<+T> = Ok(value: T) | Err(message: string)

  datatype EventKind = Usage | Correction | Retraction

  datatype CorrectionRef = CorrectionRef(originalEventId: string, reason: string)

  type Dimensions = map<string, string>

  datatype UsageEvent = UsageEvent(
    eventId: string,
    kind: EventKind,
    correctionRef: Option<CorrectionRef>,
    accountId: string,
    subscriptionId: Option<string>,
    productId: string,
    meterId: string,
    timestampMs: int,
    quantity: int,
    unit: string,
    source: string,
    modelId: Option<string>,
    dimensions: Dimensions,
    ingestedAtMs: int)

  // Machine integers.

  const I64_MAX: int := 0x7FFF_FFFF_FFFF_FFFF
  const I64_MIN: int := -0x8000_0000_0000_0000
  const I128_MAX: int := 0x7FFF_FFFF_FFFF_FFFF_FFFF_FFFF_FFFF_FFFF
  const I128_MIN: int := -0x8000_0000_0000_0000_0000_0000_0000_0000

  predicate IsI64(n: int) { I64_MIN <= n <= I64_MAX }

  predicate IsI128(n: int) { I128_MIN <= n <= I128_MAX }

  function Max(a: int, b: int): int { if a < b then b else a }

  function Min(a: int, b: int): int { if b < a then b else a }

  function Abs(a: int): nat { if a < 0 then -a else a }

  /** `saturating_add` on a type whose range is `[lo, hi]`. */
  function Clamp(lo: int, n: int, hi: int): int { if n < lo then lo else if hi < n then hi else n }

  function SatAdd128(a: int, b: int): int { Clamp(I128_MIN, a + b, I128_MAX) }

  function SatAdd64(a: int, b: int): int { Clamp(I64_MIN, a + b, I64_MAX) }

  // Time.

  const HOUR_MS: int := 3_600_000
  const DAY_MS: int := 86_400_000
  const DEFAULT_TTL_MS: int := 7 * 24 * 3600 * 1000

  /** The machine's integer division, which truncates toward zero. */
  function TruncDiv(a: int, b: int): int
    requires 0 < b
  {
    if 0 <= a then a / b else -(-a / b)
  }

  function FloorTo(ts: int, unit: int): int
    requires 0 < unit
  {
    TruncDiv(ts, unit) * unit
  }

  function HourOf(ts: int): int { FloorTo(ts, HOUR_MS) }

  predicate Aligned(ts: int) { ts % HOUR_MS == 0 }

  lemma HourOfBounds(ts: int)
    requires 0 <= ts
    ensures HourOf(ts) == ts - ts % HOUR_MS
    ensures Aligned(HourOf(ts)) && HourOf(ts) <= ts < HourOf(ts) + HOUR_MS
  {
  }

  /** Truncation may move a negative time up, but the result is always aligned. */
  lemma HourOfAligned(ts: int)
    ensures Aligned(HourOf(ts))
  {
    if ts < 0 { HourOfBounds(-ts); }
  }

  lemma HourOfUnique(ts: int, hour: int)
    requires 0 <= ts && Aligned(hour) && hour <= ts < hour + HOUR_MS
    ensures HourOf(ts) == hour
  {
    HourOfBounds(ts);
  }

  /** Two events of one hour fall in the same day. */
  lemma HourDeterminesDay(ts: int)
    requires 0 <= ts
    ensures FloorTo(HourOf(ts), DAY_MS) == FloorTo(ts, DAY_MS)
    ensures HourOf(HourOf(ts)) == HourOf(ts)
  {
    var h := ts / HOUR_MS;
    var q, r := h / 24, h % 24;
    assert HourOf(ts) == DAY_MS * q + HOUR_MS * r;
    assert ts / DAY_MS == q && HourOf(ts) / DAY_MS == q;
  }

  // Functions whose inner workings are not part of the model.  Every theorem
  // holds for any choice of them that satisfies the stated predicate.

  type Hash = nat

  /** blake3 over an id, over a serialized event, and the account prefix that picks a bucket. */
  datatype Hashing = Hashing(
    idHash: string -> Hash,
    payloadHash: UsageEvent -> Hash,
    accountHash: string -> nat)

  ghost predicate Injective(h: Hashing)
  {
    && (forall a: string, b: string :: h.idHash(a) == h.idHash(b) ==> a == b)
    && (forall a: UsageEvent, b: UsageEvent :: h.payloadHash(a) == h.payloadHash(b) ==> a == b)
  }

  /** The payload hash is taken with `ingested_at_ms` zeroed, so a retry hashes like the original. */
  function PayloadHash(h: Hashing, e: UsageEvent): Hash
  {
    h.payloadHash(e.(ingestedAtMs := 0))
  }

  function BucketFor(h: Hashing, account: string, bucketCount: nat): nat
  {
    if bucketCount == 0 then 0 else h.accountHash(account) % bucketCount
  }

  /** A bucket is the residue of the account's hash; without buckets it is 0. */
  lemma BucketIsResidue(h: Hashing, account: string, bucketCount: nat)
    ensures bucketCount == 0 ==> BucketFor(h, account, bucketCount) == 0
    ensures bucketCount > 0 ==>
              && BucketFor(h, account, bucketCount) < bucketCount
              && exists q: nat :: h.accountHash(account) == q * bucketCount + BucketFor(h, account, bucketCount)
  {
    if bucketCount > 0 {
      var x := h.accountHash(account);
      assert x == (x / bucketCount) * bucketCount + x % bucketCount;
    }
  }

  /** Canonical JSON of an event's dimensions. */
  datatype Json = Json(encode: Dimensions -> string, decode: string -> Option<Dimensions>)

  ghost predicate JsonRoundTrips(j: Json)
  {
    forall d: Dimensions :: j.decode(j.encode(d)) == Some(d)
  }
}
