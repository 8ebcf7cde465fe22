/** The canonical billing order, and the sort-and-dedupe at the heart of compaction. */
module Sorting {
  import opened Model
  import opened Sums

  // Lexicographic order on strings.

  predicate StrLe(a: string, b: string)
  {
    a == "" || (b != "" && (a[0] < b[0] || (a[0] == b[0] && StrLe(a[1..], b[1..]))))
  }

  lemma {:induction false} StrTotal(a: string, b: string)
    ensures StrLe(a, b) || StrLe(b, a)
    ensures StrLe(a, b) && StrLe(b, a) ==> a == b
  {
    if a != "" && b != "" && a[0] == b[0] {
      StrTotal(a[1..], b[1..]);
      assert a == [a[0]] + a[1..] && b == [b[0]] + b[1..];
    }
  }

  lemma {:induction false} StrTransitive(a: string, b: string, c: string)
    requires StrLe(a, b) && StrLe(b, c)
    ensures StrLe(a, c)
  {
    if a != "" && a[0] == b[0] && b[0] == c[0] {
      StrTransitive(a[1..], b[1..], c[1..]);
    }
  }

  /** `a` and `b` agree up to index `i` and differ there. */
  predicate FirstDifference(a: string, b: string, i: nat)
  {
    i < |a| && i < |b| && a[..i] == b[..i] && a[i] != b[i]
  }

  /** The order is that of dictionaries: a prefix comes first, otherwise the first difference decides. */
  lemma {:induction false} StrLeIff(a: string, b: string)
    ensures StrLe(a, b) <==> a <= b || exists i: nat :: FirstDifference(a, b, i) && a[i] < b[i]
  {
    if a == "" {
    } else if b == "" {
    } else if a[0] != b[0] {
      assert FirstDifference(a, b, 0);
      forall i: nat | FirstDifference(a, b, i) ensures i == 0 {
        DiffersAtOnce(a, b, i);
      }
    } else {
      StrLeIff(a[1..], b[1..]);
      assert a <= b <==> a[1..] <= b[1..] by {
        assert a == [a[0]] + a[1..] && b == [b[0]] + b[1..];
        if a[1..] <= b[1..] { assert forall k :: 0 < k < |a| ==> a[k] == a[1..][k - 1] == b[1..][k - 1] == b[k]; }
        if a <= b { assert forall k :: 0 <= k < |a| - 1 ==> a[1..][k] == a[k + 1] == b[k + 1] == b[1..][k]; }
      }
      forall i: nat | i > 0 ensures FirstDifference(a, b, i) <==> FirstDifference(a[1..], b[1..], i - 1) {
        DifferenceShifts(a, b, i);
      }
      if i: nat :| FirstDifference(a[1..], b[1..], i) && a[1..][i] < b[1..][i] {
        assert FirstDifference(a, b, i + 1);
      }
    }
  }

  lemma DiffersAtOnce(a: string, b: string, i: nat)
    requires a != "" && b != "" && a[0] != b[0]
    ensures FirstDifference(a, b, i) ==> i == 0
  {
    if 0 < i < |a| && i < |b| {
      assert a[..i][0] != b[..i][0];
    }
  }

  lemma DifferenceShifts(a: string, b: string, i: nat)
    requires a != "" && b != "" && a[0] == b[0] && i > 0
    ensures FirstDifference(a, b, i) <==> FirstDifference(a[1..], b[1..], i - 1)
  {
    if i < |a| && i < |b| {
      assert a[..i] == [a[0]] + a[1..][..i - 1] && b[..i] == [b[0]] + b[1..][..i - 1];
      assert a[..i][1..] == a[1..][..i - 1] && b[..i][1..] == b[1..][..i - 1];
    }
  }

  /** `a` may stand before `b`: by account, product, meter, model (none as empty) and time. */
  predicate InBillingOrder(a: UsageEvent, b: UsageEvent)
  {
    && StrLe(a.accountId, b.accountId)
    && (a.accountId == b.accountId ==>
          && StrLe(a.productId, b.productId)
          && (a.productId == b.productId ==>
                && StrLe(a.meterId, b.meterId)
                && (a.meterId == b.meterId ==>
                      var am, bm := if a.modelId.None? then "" else a.modelId.value,
                                    if b.modelId.None? then "" else b.modelId.value;
                      StrLe(am, bm) && (am == bm ==> a.timestampMs <= b.timestampMs))))
  }

  // The sort key, compared field by field.

  datatype SortKey = SortKey(account: string, product: string, meter: string, model: string, ts: int)

  function KeyOf(e: UsageEvent): SortKey
  {
    SortKey(e.accountId, e.productId, e.meterId, if e.modelId.Some? then e.modelId.value else "", e.timestampMs)
  }

  predicate LeModel(a: SortKey, b: SortKey)
  {
    if a.model != b.model then StrLe(a.model, b.model) else a.ts <= b.ts
  }

  predicate LeMeter(a: SortKey, b: SortKey)
  {
    if a.meter != b.meter then StrLe(a.meter, b.meter) else LeModel(a, b)
  }

  predicate LeProduct(a: SortKey, b: SortKey)
  {
    if a.product != b.product then StrLe(a.product, b.product) else LeMeter(a, b)
  }

  predicate KeyLe(a: SortKey, b: SortKey)
  {
    if a.account != b.account then StrLe(a.account, b.account) else LeProduct(a, b)
  }

  /** Comparing keys is comparing the events' own fields. */
  lemma KeyLeIff(a: UsageEvent, b: UsageEvent)
    ensures KeyLe(KeyOf(a), KeyOf(b)) <==> InBillingOrder(a, b)
  {
    StrTotal(a.accountId, b.accountId);
    StrTotal(a.productId, b.productId);
    StrTotal(a.meterId, b.meterId);
    StrTotal(KeyOf(a).model, KeyOf(b).model);
  }

  lemma KeyTotal(a: SortKey, b: SortKey)
    ensures KeyLe(a, b) || KeyLe(b, a)
    ensures KeyLe(a, b) && KeyLe(b, a) ==> a == b
  {
    StrTotal(a.account, b.account);
    StrTotal(a.product, b.product);
    StrTotal(a.meter, b.meter);
    StrTotal(a.model, b.model);
  }

  /** One level of a lexicographic comparison is transitive when the next one is. */
  lemma LexTransitive(x: string, y: string, z: string, xy: bool, yz: bool, xz: bool)
    requires if x != y then StrLe(x, y) else xy
    requires if y != z then StrLe(y, z) else yz
    requires x == y == z && xy && yz ==> xz
    ensures if x != z then StrLe(x, z) else xz
  {
    if x != y && y != z {
      StrTransitive(x, y, z);
      StrTotal(x, y);
    }
  }

  lemma KeyTransitive(a: SortKey, b: SortKey, c: SortKey)
    requires KeyLe(a, b) && KeyLe(b, c)
    ensures KeyLe(a, c)
  {
    if a.account == b.account == c.account {
      if a.product == b.product == c.product {
        if a.meter == b.meter == c.meter {
          LexTransitive(a.model, b.model, c.model, a.ts <= b.ts, b.ts <= c.ts, a.ts <= c.ts);
        }
        LexTransitive(a.meter, b.meter, c.meter, LeModel(a, b), LeModel(b, c), LeModel(a, c));
      }
      LexTransitive(a.product, b.product, c.product, LeMeter(a, b), LeMeter(b, c), LeMeter(a, c));
    }
    LexTransitive(a.account, b.account, c.account, LeProduct(a, b), LeProduct(b, c), LeProduct(a, c));
  }

  // Stable sorting.

  ghost predicate Sorted(s: seq<UsageEvent>)
  {
    forall i, j :: 0 <= i < j < |s| ==> KeyLe(KeyOf(s[i]), KeyOf(s[j]))
  }

  /** No event stands after one that it must precede. */
  ghost predicate InOrderThroughout(s: seq<UsageEvent>)
  {
    forall i, j :: 0 <= i < j < |s| ==> InBillingOrder(s[i], s[j])
  }

  lemma SortedIff(s: seq<UsageEvent>)
    ensures Sorted(s) <==> InOrderThroughout(s)
  {
    hide KeyLe, KeyOf, InBillingOrder;
    forall i, j | 0 <= i < j < |s| ensures KeyLe(KeyOf(s[i]), KeyOf(s[j])) <==> InBillingOrder(s[i], s[j]) {
      KeyLeIff(s[i], s[j]);
    }
  }

  function SameKey(k: SortKey): UsageEvent -> bool
  {
    e => KeyOf(e) == k
  }

  function InsertSorted(s: seq<UsageEvent>, e: UsageEvent): seq<UsageEvent>
  {
    if s == [] then [e]
    else
      var n := |s| - 1;
      if KeyLe(KeyOf(s[n]), KeyOf(e)) then s + [e] else InsertSorted(s[..n], e) + [s[n]]
  }

  /** The library's stable sort, by insertion. */
  function SortCanonical(s: seq<UsageEvent>): seq<UsageEvent>
  {
    if s == [] then [] else InsertSorted(SortCanonical(s[..|s| - 1]), s[|s| - 1])
  }

  lemma {:induction false} InsertSortedCounts(s: seq<UsageEvent>, e: UsageEvent)
    ensures multiset(InsertSorted(s, e)) == multiset(s) + multiset{e}
    decreases |s|
  {
    if s != [] {
      var n := |s| - 1;
      assert s == s[..n] + [s[n]];
      if !KeyLe(KeyOf(s[n]), KeyOf(e)) {
        InsertSortedCounts(s[..n], e);
      }
    }
  }

  lemma SortedSnoc(s: seq<UsageEvent>, e: UsageEvent)
    requires Sorted(s)
    requires s != [] ==> KeyLe(KeyOf(s[|s| - 1]), KeyOf(e))
    ensures Sorted(s + [e])
    ensures forall i :: 0 <= i < |s| ==> KeyLe(KeyOf(s[i]), KeyOf(e))
  {
    hide KeyLe, KeyOf;
    forall i | 0 <= i < |s| ensures KeyLe(KeyOf(s[i]), KeyOf(e)) {
      if i < |s| - 1 {
        KeyTransitive(KeyOf(s[i]), KeyOf(s[|s| - 1]), KeyOf(e));
      }
    }
  }

  lemma {:induction false} InsertSortedSorted(s: seq<UsageEvent>, e: UsageEvent)
    requires Sorted(s)
    ensures Sorted(InsertSorted(s, e))
    decreases |s|
  {
    hide KeyLe, KeyOf;
    if s != [] {
      var n := |s| - 1;
      if KeyLe(KeyOf(s[n]), KeyOf(e)) {
        SortedSnoc(s, e);
      } else {
        KeyTotal(KeyOf(s[n]), KeyOf(e));
        InsertSortedSorted(s[..n], e);
        InsertedLast(s[..n], e, s[n]);
        SortedSnoc(InsertSorted(s[..n], e), s[n]);
      }
    }
  }

  lemma InsertedLast(s: seq<UsageEvent>, e: UsageEvent, last: UsageEvent)
    requires KeyLe(KeyOf(e), KeyOf(last))
    requires forall i :: 0 <= i < |s| ==> KeyLe(KeyOf(s[i]), KeyOf(last))
    ensures var r := InsertSorted(s, e); r != [] && KeyLe(KeyOf(r[|r| - 1]), KeyOf(last))
  {
  }

  lemma {:induction false} InsertSortedStable(s: seq<UsageEvent>, e: UsageEvent, k: SortKey)
    ensures Filter(InsertSorted(s, e), SameKey(k)) == Filter(s, SameKey(k)) + if KeyOf(e) == k then [e] else []
    decreases |s|
  {
    hide KeyLe, KeyOf, Filter;
    FilterSnoc(s, SameKey(k), e);
    if s == [] {
      assert s + [e] == [e];
    } else {
      var n := |s| - 1;
      assert s == s[..n] + [s[n]];
      KeyTotal(KeyOf(e), KeyOf(e));
      if !KeyLe(KeyOf(s[n]), KeyOf(e)) {
        InsertSortedStable(s[..n], e, k);
        FilterSnoc(s[..n], SameKey(k), s[n]);
        FilterSnoc(InsertSorted(s[..n], e), SameKey(k), s[n]);
      }
    }
  }

  lemma {:induction false} SortIsPermutation(s: seq<UsageEvent>)
    ensures multiset(SortCanonical(s)) == multiset(s)
  {
    hide InsertSorted;
    if s != [] {
      var n := |s| - 1;
      SortIsPermutation(s[..n]);
      InsertSortedCounts(SortCanonical(s[..n]), s[n]);
      assert s == s[..n] + [s[n]];
    }
  }

  lemma SortedEmpty()
    ensures Sorted([])
  {
  }

  lemma {:induction false} SortIsSorted(s: seq<UsageEvent>)
    ensures Sorted(SortCanonical(s)) && InOrderThroughout(SortCanonical(s))
  {
    hide InsertSorted, Sorted, InOrderThroughout;
    if s == [] {
      assert Sorted([]) by { SortedEmpty(); }
    } else {
      SortIsSorted(s[..|s| - 1]);
      InsertSortedSorted(SortCanonical(s[..|s| - 1]), s[|s| - 1]);
    }
    SortedIff(SortCanonical(s));
  }

  lemma {:induction false} SortIsStable(s: seq<UsageEvent>, k: SortKey)
    ensures Filter(SortCanonical(s), SameKey(k)) == Filter(s, SameKey(k))
  {
    hide InsertSorted, KeyOf;
    if s != [] {
      SortIsStable(s[..|s| - 1], k);
      InsertSortedStable(SortCanonical(s[..|s| - 1]), s[|s| - 1], k);
    }
  }

  lemma LastOfKey(s: seq<UsageEvent>)
    requires s != []
    ensures var last := s[|s| - 1];
            Filter(s, SameKey(KeyOf(last))) == Filter(s[..|s| - 1], SameKey(KeyOf(last))) + [last]
  {
    hide Filter, KeyOf;
    assert s == s[..|s| - 1] + [s[|s| - 1]];
    FilterSnoc(s[..|s| - 1], SameKey(KeyOf(s[|s| - 1])), s[|s| - 1]);
  }

  /** In a sorted sequence the last key is the greatest. */
  lemma LastIsGreatest(s: seq<UsageEvent>, k: SortKey)
    requires Sorted(s) && Filter(s, SameKey(k)) != []
    ensures s != [] && KeyLe(k, KeyOf(s[|s| - 1]))
  {
    var e := Filter(s, SameKey(k))[0];
    FilterMember(s, SameKey(k), e);
    var i :| 0 <= i < |s| && s[i] == e;
    KeyTotal(k, k);
  }

  /** Two sequences order every key class alike. */
  ghost predicate SameClasses(s: seq<UsageEvent>, t: seq<UsageEvent>)
  {
    forall k :: Filter(s, SameKey(k)) == Filter(t, SameKey(k))
  }

  lemma SameClassAt(s: seq<UsageEvent>, t: seq<UsageEvent>, k: SortKey)
    requires SameClasses(s, t)
    ensures Filter(s, SameKey(k)) == Filter(t, SameKey(k))
  {
  }

  /** Sorted sequences with like classes end alike. */
  lemma SameLast(s: seq<UsageEvent>, t: seq<UsageEvent>)
    requires Sorted(s) && Sorted(t) && SameClasses(s, t) && s != []
    ensures t != [] && s[|s| - 1] == t[|t| - 1]
  {
    hide KeyLe, KeyOf, SameClasses, Sorted;
    var k := KeyOf(s[|s| - 1]);
    LastOfKey(s);
    SameClassAt(s, t, k);
    LastIsGreatest(t, k);
    var m := KeyOf(t[|t| - 1]);
    LastOfKey(t);
    SameClassAt(s, t, m);
    LastIsGreatest(s, m);
    KeyTotal(k, m);
    var c := Filter(s, SameKey(k));
    assert c[|c| - 1] == s[|s| - 1] && c[|c| - 1] == t[|t| - 1];
  }

  lemma SameFronts(s: seq<UsageEvent>, t: seq<UsageEvent>, e: UsageEvent)
    requires SameClasses(s + [e], t + [e])
    ensures SameClasses(s, t)
  {
    hide KeyOf;
    forall k ensures Filter(s, SameKey(k)) == Filter(t, SameKey(k)) {
      FilterSnoc(s, SameKey(k), e);
      FilterSnoc(t, SameKey(k), e);
      SameClassAt(s + [e], t + [e], k);
      var a, b, tail := Filter(s, SameKey(k)), Filter(t, SameKey(k)), if SameKey(k)(e) then [e] else [];
      assert a + tail == b + tail;
      assert (a + tail)[..|a|] == a && (b + tail)[..|b|] == b;
    }
  }

  /** Two sorted sequences that order every key class alike are equal: the sort is determined by
      being sorted and stable. */
  lemma {:induction false} SortedStableUnique(s: seq<UsageEvent>, t: seq<UsageEvent>)
    requires Sorted(s) && Sorted(t) && SameClasses(s, t)
    ensures s == t
    decreases |s| + |t|
  {
    hide KeyLe, KeyOf, SameClasses;
    if s == [] && t == [] {
    } else if s == [] {
      LastOfKey(t);
      SameClassAt(s, t, KeyOf(t[|t| - 1]));
      assert false;
    } else {
      SameLast(s, t);
      var e := s[|s| - 1];
      assert s == s[..|s| - 1] + [e] && t == t[..|t| - 1] + [e];
      SameFronts(s[..|s| - 1], t[..|t| - 1], e);
      SortedStableUnique(s[..|s| - 1], t[..|t| - 1]);
    }
  }

  lemma SortOfSorted(s: seq<UsageEvent>)
    requires Sorted(s)
    ensures SortCanonical(s) == s
  {
    hide Sorted, SortCanonical;
    SortIsSorted(s);
    assert SameClasses(SortCanonical(s), s) by {
      forall k ensures Filter(SortCanonical(s), SameKey(k)) == Filter(s, SameKey(k)) {
        SortIsStable(s, k);
      }
    }
    SortedStableUnique(SortCanonical(s), s);
  }

  // Keeping the first event of each id.

  ghost predicate UniqueIds(s: seq<UsageEvent>)
  {
    forall i, j :: 0 <= i < j < |s| ==> s[i].eventId != s[j].eventId
  }

  function Ids(s: seq<UsageEvent>): set<string>
  {
    set i | 0 <= i < |s| :: s[i].eventId
  }

  function KeepFirst(s: seq<UsageEvent>): seq<UsageEvent>
  {
    if s == [] then []
    else
      var kept := KeepFirst(s[..|s| - 1]);
      if s[|s| - 1].eventId in Ids(kept) then kept else kept + [s[|s| - 1]]
  }

  function SortAndDedupe(s: seq<UsageEvent>): seq<UsageEvent>
  {
    KeepFirst(SortCanonical(s))
  }

  lemma IdsSnoc(s: seq<UsageEvent>, e: UsageEvent)
    ensures Ids(s + [e]) == Ids(s) + {e.eventId}
  {
    assert (s + [e])[|s|] == e;
    forall id | id in Ids(s) ensures id in Ids(s + [e]) {
      var i :| 0 <= i < |s| && s[i].eventId == id;
      assert (s + [e])[i].eventId == id;
    }
  }

  /** No id is lost and none is kept twice. */
  lemma {:induction false} KeepFirstIds(s: seq<UsageEvent>)
    ensures Ids(KeepFirst(s)) == Ids(s)
    ensures UniqueIds(KeepFirst(s))
  {
    if s != [] {
      var front, last := s[..|s| - 1], s[|s| - 1];
      KeepFirstIds(front);
      assert s == front + [last];
      IdsSnoc(front, last);
      IdsSnoc(KeepFirst(front), last);
      var kept := KeepFirst(front);
      if last.eventId !in Ids(kept) {
        forall i | 0 <= i < |kept| ensures kept[i].eventId != last.eventId {
          assert kept[i].eventId in Ids(kept);
        }
      }
    }
  }

  /** Position `i` holds the first event of its id. */
  ghost predicate FirstOfId(s: seq<UsageEvent>, i: nat)
    requires i < |s|
  {
    forall j :: 0 <= j < i ==> s[j].eventId != s[i].eventId
  }

  /** The first events of `front` are first in any longer list, and the last event is first exactly when
      its id is new. */
  lemma FirstsOfLonger(front: seq<UsageEvent>, last: UsageEvent)
    ensures var s := front + [last];
            && (forall i :: 0 <= i < |front| ==> (FirstOfId(s, i) <==> FirstOfId(front, i)))
            && (FirstOfId(s, |front|) <==> last.eventId !in Ids(front))
  {
    var s := front + [last];
    forall i | 0 <= i < |front| ensures FirstOfId(s, i) <==> FirstOfId(front, i) {
      assert forall j :: 0 <= j <= i ==> s[j] == front[j];
    }
    assert forall j :: 0 <= j < |front| ==> s[j] == front[j];
    assert last.eventId in Ids(front) <==> exists j :: 0 <= j < |front| && front[j].eventId == last.eventId;
  }

  /** What is kept of each id is its first event. */
  lemma {:induction false} KeepFirstIsFirst(s: seq<UsageEvent>, e: UsageEvent)
    ensures e in KeepFirst(s) <==> exists i :: 0 <= i < |s| && s[i] == e && FirstOfId(s, i)
  {
    if s != [] {
      hide FirstOfId;
      var n := |s| - 1;
      var front, last := s[..n], s[n];
      assert s == front + [last];
      KeepFirstIsFirst(front, e);
      KeepFirstIds(front);
      FirstsOfLonger(front, last);
      hide Ids;
      if e in KeepFirst(front) {
        var i :| 0 <= i < |front| && front[i] == e && FirstOfId(front, i);
        assert s[i] == e && FirstOfId(s, i);
      }
      if i :| 0 <= i < n && s[i] == e && FirstOfId(s, i) {
        assert front[i] == e && FirstOfId(front, i);
      }
    }
  }

  lemma {:induction false} KeepFirstSorted(s: seq<UsageEvent>)
    requires Sorted(s)
    ensures Sorted(KeepFirst(s))
    ensures forall e :: e in KeepFirst(s) ==> e in s
  {
    hide KeyLe, KeyOf;
    if s != [] {
      var front, last := s[..|s| - 1], s[|s| - 1];
      KeepFirstSorted(front);
      var kept := KeepFirst(front);
      forall i | 0 <= i < |kept| ensures KeyLe(KeyOf(kept[i]), KeyOf(last)) {
        assert kept[i] in front;
      }
    }
  }

  lemma {:induction false} KeepFirstUnique(s: seq<UsageEvent>)
    requires UniqueIds(s)
    ensures KeepFirst(s) == s
  {
    if s != [] {
      var front, last := s[..|s| - 1], s[|s| - 1];
      KeepFirstUnique(front);
      assert s == front + [last];
    }
  }

  /** Unique ids are a property of the multiset, so sorting keeps them. */
  lemma UniqueIdsPermuted(s: seq<UsageEvent>, t: seq<UsageEvent>)
    requires multiset(s) == multiset(t) && UniqueIds(s)
    ensures UniqueIds(t)
  {
    forall i, j | 0 <= i < j < |t| ensures t[i].eventId != t[j].eventId {
      assert t[i] in multiset(t) && t[j] in multiset(t);
      if t[i] == t[j] {
        TwiceInSeq(t, i, j);
        OnceInUnique(s, t[i]);
        assert false;
      }
      var a :| 0 <= a < |s| && s[a] == t[i];
      var b :| 0 <= b < |s| && s[b] == t[j];
      assert a < b || b < a;
    }
  }

  lemma TwiceInSeq(t: seq<UsageEvent>, i: nat, j: nat)
    requires i < j < |t| && t[i] == t[j]
    ensures multiset(t)[t[i]] >= 2
  {
    assert t == t[..j] + t[j..];
    assert t[..j][i] in multiset(t[..j]) && t[j..][0] in multiset(t[j..]);
  }

  lemma {:induction false} OnceInUnique(s: seq<UsageEvent>, e: UsageEvent)
    requires UniqueIds(s)
    ensures multiset(s)[e] <= 1
  {
    if s != [] {
      var front, last := s[..|s| - 1], s[|s| - 1];
      OnceInUnique(front, e);
      assert s == front + [last];
      if last == e {
        assert e !in front;
      }
    }
  }

  /** The compaction output is canonically sorted and holds one event per distinct id, the first in
      stable sort order; compacting it again changes nothing. */
  lemma SortAndDedupeSound(s: seq<UsageEvent>)
    ensures var r := SortAndDedupe(s);
            && Sorted(r) && InOrderThroughout(r) && UniqueIds(r) && Ids(r) == Ids(s)
            && SortAndDedupe(r) == r
  {
    SortIsSorted(s);
    var t := SortCanonical(s);
    KeepFirstSorted(t);
    SortedIff(KeepFirst(t));
    KeepFirstIds(t);
    SortOfSorted(KeepFirst(t));
    KeepFirstUnique(KeepFirst(t));
    SortIsPermutation(s);
    IdsPermuted(t, s);
  }

  /** Of the input events of one id, compaction keeps one that may stand before all of them. */
  lemma KeptIsLeast(s: seq<UsageEvent>, kept: UsageEvent, e: UsageEvent)
    requires kept in SortAndDedupe(s) && e in s && e.eventId == kept.eventId
    ensures InBillingOrder(kept, e)
  {
    hide SortCanonical, KeepFirst;
    var t := SortCanonical(s);
    SortIsSorted(s);
    SortIsPermutation(s);
    KeepFirstIsFirst(t, kept);
    assert e in multiset(t);
    var i :| 0 <= i < |t| && t[i] == kept && FirstOfId(t, i);
    var j :| 0 <= j < |t| && t[j] == e;
    assert i <= j;
    KeyTotal(KeyOf(e), KeyOf(e));
    KeyLeIff(e, e);
  }

  lemma IdsPermuted(s: seq<UsageEvent>, t: seq<UsageEvent>)
    requires multiset(s) == multiset(t)
    ensures Ids(s) == Ids(t)
  {
    forall id | id in Ids(s) ensures id in Ids(t) {
      var i :| 0 <= i < |s| && s[i].eventId == id;
      assert s[i] in multiset(t);
      assert s[i] in t;
    }
    forall id | id in Ids(t) ensures id in Ids(s) {
      var i :| 0 <= i < |t| && t[i].eventId == id;
      assert t[i] in multiset(s);
      assert t[i] in s;
    }
  }

  /** With unique ids nothing is dropped. */
  lemma SortAndDedupePreserves(s: seq<UsageEvent>)
    requires UniqueIds(s)
    ensures multiset(SortAndDedupe(s)) == multiset(s)
  {
    SortIsPermutation(s);
    UniqueIdsPermuted(s, SortCanonical(s));
    KeepFirstUnique(SortCanonical(s));
  }

  /** Sort, then retain the events whose id has not been seen. */
  method SortAndDedupeEvents(input: seq<UsageEvent>) returns (events: seq<UsageEvent>)
    ensures events == SortAndDedupe(input)
  {
    var sorted := SortCanonical(input);
    var seen: set<string> := {};
    events := [];
    for i := 0 to |sorted|
      invariant events == KeepFirst(sorted[..i])
      invariant seen == Ids(events)
    {
      var e := sorted[i];
      assert sorted[..i + 1][..i] == sorted[..i];
      if e.eventId !in seen {
        IdsSnoc(events, e);
        seen := seen + {e.eventId};
        events := events + [e];
      }
    }
    assert sorted[..|sorted|] == sorted;
  }
}
