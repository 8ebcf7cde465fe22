/** The manifest: the durable catalogue of segments, periods and positions. */
module Manifests {
  import opened Model

  /** Segment ids are random uuids; a counter of unused ids stands for that supply. */
  type SegmentId = nat

  datatype SegmentMeta = SegmentMeta(
    segmentId: SegmentId,
    minTimestampMs: int,
    maxTimestampMs: int,
    bucket: nat,
    rowCount: nat,
    minAccountId: Option<string>,
    maxAccountId: Option<string>,
    productIds: set<string>,
    meterIds: set<string>,
    modelIds: set<string>,
    quantitySum: int)

  datatype ReplacementRecord = ReplacementRecord(
    oldSegments: seq<SegmentId>,
    newSegments: seq<SegmentId>,
    committedAtMs: int)

  datatype ClosedPeriod = ClosedPeriod(
    accountId: string,
    year: nat,
    month: nat,
    closedAtMs: int,
    frozenQuantity: Option<int>,
    frozenEventCount: Option<nat>,
    watermarkAtCloseMs: Option<int>)

  datatype Manifest = Manifest(
    bucketCount: nat,
    rawSegments: seq<SegmentMeta>,
    rollupSegments: seq<SegmentMeta>,
    compactedReplacements: seq<ReplacementRecord>,
    hourlyRollupMs: int,
    lastSealedWalId: nat,
    closedPeriods: seq<ClosedPeriod>)

  function Buckets(m: Manifest): (n: nat)
    ensures 1 <= n
  {
    if m.bucketCount == 0 then 1 else m.bucketCount
  }

  predicate IsClosed(closed: seq<ClosedPeriod>, account: string, year: nat, month: nat)
  {
    exists i :: 0 <= i < |closed| && closed[i].accountId == account && closed[i].year == year
        && closed[i].month == month
  }

  /** Month arithmetic on UTC timestamps. */
  datatype Calendar = Calendar(
    periodOf: int -> Option<(nat, nat)>,
    bounds: (nat, nat) -> Option<(int, int)>)

  /** Months are hour-aligned and every timestamp within a month's bounds belongs to that month. */
  ghost predicate CalendarOk(c: Calendar)
  {
    forall y: nat, m: nat :: c.bounds(y, m).Some? ==>
      && Aligned(c.bounds(y, m).value.0) && Aligned(c.bounds(y, m).value.1)
      && forall ts: int :: 0 < ts && c.bounds(y, m).value.0 <= ts < c.bounds(y, m).value.1 ==>
                             c.periodOf(ts) == Some((y, m))
  }
}
