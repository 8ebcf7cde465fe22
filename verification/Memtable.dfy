/** The buffer of accepted events that are not yet in a segment. */
module Memtables {
  import opened Model

  function SizeOf(estimate: UsageEvent -> nat, events: seq<UsageEvent>): nat
  {
    if events == [] then 0
    else SizeOf(estimate, events[..|events| - 1]) + estimate(events[|events| - 1])
  }

  /** `t` is the least timestamp of `events`, or `None` when there are no events. */
  ghost predicate IsMinTimestamp(events: seq<UsageEvent>, t: Option<int>)
  {
    match t
    case None => events == []
    case Some(v) =>
      && (exists i :: 0 <= i < |events| && events[i].timestampMs == v)
      && (forall i :: 0 <= i < |events| ==> v <= events[i].timestampMs)
  }

  lemma MinTimestampUnique(events: seq<UsageEvent>, t: Option<int>, u: Option<int>)
    requires IsMinTimestamp(events, t) && IsMinTimestamp(events, u)
    ensures t == u
  {
    if t.Some? && u.Some? {
      var i :| 0 <= i < |events| && events[i].timestampMs == t.value;
      var j :| 0 <= j < |events| && events[j].timestampMs == u.value;
    }
  }

  class Memtable {
    var events: seq<UsageEvent>
    var approxSizeBytes: nat
    var oldestInsertAtMs: Option<int>
    const estimate: UsageEvent -> nat

    ghost predicate Valid()
      reads this
    {
      && approxSizeBytes == SizeOf(estimate, events)
      && (oldestInsertAtMs.None? <==> events == [])
    }

    constructor (estimate: UsageEvent -> nat)
      ensures Valid() && events == [] && oldestInsertAtMs == None && this.estimate == estimate
    {
      this.estimate := estimate;
      events, approxSizeBytes, oldestInsertAtMs := [], 0, None;
    }

    method Insert(event: UsageEvent, now: int)
      requires Valid()
      modifies this
      ensures Valid()
      ensures events == old(events) + [event]
      ensures oldestInsertAtMs == if old(events) == [] then Some(now) else old(oldestInsertAtMs)
    {
      approxSizeBytes := approxSizeBytes + estimate(event);
      if events == [] {
        oldestInsertAtMs := Some(now);
      }
      assert (events + [event])[..|events|] == events;
      events := events + [event];
    }

    method MinEventTimestampMs() returns (t: Option<int>)
      ensures IsMinTimestamp(events, t)
    {
      t := None;
      for i := 0 to |events|
        invariant IsMinTimestamp(events[..i], t)
      {
        ghost var before := t;
        if t.None? || events[i].timestampMs < t.value {
          t := Some(events[i].timestampMs);
        }
        assert events[..i + 1] == events[..i] + [events[i]];
        if t == before {
          var k :| 0 <= k < i && events[..i][k].timestampMs == t.value;
          assert events[..i + 1][k].timestampMs == t.value;
        } else {
          assert events[..i + 1][i].timestampMs == t.value;
        }
        assert forall k :: 0 <= k < i ==> events[..i + 1][k] == events[..i][k];
      }
      assert events[..|events|] == events;
    }

    method DrainAll() returns (drained: seq<UsageEvent>)
      modifies this
      ensures Valid()
      ensures drained == old(events) && events == [] && oldestInsertAtMs == None
    {
      drained := events;
      events, approxSizeBytes, oldestInsertAtMs := [], 0, None;
    }
  }
}
