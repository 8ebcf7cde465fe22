/** What the groups and filters of a query mean, on the events' own fields. */
module DrillDown {
  import opened Model
  import opened Sums
  import opened Manifests
  import opened Query
  import opened Engine
  import opened Catalog
  import opened QueryRefinement

  /** A filter on a named column accepts the events whose own field has one of the values; on any other name, those
      with such a dimension. */
  lemma FilterMeans(e: UsageEvent, field: string, values: seq<string>)
    ensures MatchesFilter(QueryFilter("account_id", values), e) <==> e.accountId in values
    ensures MatchesFilter(QueryFilter("subscription_id", values), e)
       <==> e.subscriptionId.Some? && e.subscriptionId.value in values
    ensures MatchesFilter(QueryFilter("product_id", values), e) <==> e.productId in values
    ensures MatchesFilter(QueryFilter("meter_id", values), e) <==> e.meterId in values
    ensures MatchesFilter(QueryFilter("model_id", values), e) <==> e.modelId.Some? && e.modelId.value in values
    ensures MatchesFilter(QueryFilter("source", values), e) <==> e.source in values
    ensures MatchesFilter(QueryFilter("unit", values), e) <==> e.unit in values
    ensures MatchesFilter(QueryFilter("kind", values), e)
       <==> || (e.kind == Usage && "Usage" in values)
            || (e.kind == Correction && "Correction" in values)
            || (e.kind == Retraction && "Retraction" in values)
    ensures field !in ["account_id", "subscription_id", "product_id", "meter_id", "model_id", "source", "unit", "kind"]
            ==> (MatchesFilter(QueryFilter(field, values), e)
                 <==> field in e.dimensions && e.dimensions[field] in values)
  {
  }

  // A group is a narrower query.

  predicate IsTimeGroup(field: string) { field == "hour_start_ms" || field == "day" }

  /** One filter per column: the column has this value. */
  function Pinned(fields: seq<string>, key: seq<string>): seq<QueryFilter>
    requires |fields| == |key|
  {
    seq(|fields|, i requires 0 <= i < |fields| => QueryFilter(fields[i], [key[i]]))
  }

  /** The ungrouped query for what falls under `key`. */
  function Narrowed(plan: QueryPlan, key: seq<string>): QueryPlan
    requires |plan.groupBy| == |key|
  {
    plan.(groupBy := [], filters := plan.filters + Pinned(plan.groupBy, key))
  }

  function CellAt(a: Answer, key: seq<string>): Agg
  {
    if a.Table? && key in a.groups then a.groups[key] else Agg(0, 0)
  }

  function UnderKey(groupBy: seq<string>, key: seq<string>): UsageEvent -> bool
  {
    (e: UsageEvent) => GroupKey(groupBy, e) == key
  }

  /** The group of `key` is the ungrouped aggregate of the rows under `key`, saturating or not. */
  lemma {:induction false} GroupIsTotal(groupBy: seq<string>, es: seq<UsageEvent>, key: seq<string>)
    ensures var part := GroupAll([], Filter(es, UnderKey(groupBy, key)));
            && (key in GroupAll(groupBy, es) <==> [] in part)
            && (key in GroupAll(groupBy, es) ==> GroupAll(groupBy, es)[key] == part[[]])
    decreases |es|
  {
    hide SatAdd128, GroupKey;
    if es != [] {
      var front, e := es[..|es| - 1], es[|es| - 1];
      GroupIsTotal(groupBy, front, key);
      var rows := Filter(front, UnderKey(groupBy, key));
      assert es == front + [e];
      FilterSnoc(front, UnderKey(groupBy, key), e);
      if GroupKey(groupBy, e) == key {
        assert (rows + [e])[..|rows|] == rows && GroupKey([], e) == [];
      } else {
        assert rows + [] == rows;
      }
    }
  }

  /** Off the time columns, an event groups under its own field's text, and under "" if it has none. */
  lemma GroupsUnder(field: string, e: UsageEvent, value: string)
    requires !IsTimeGroup(field)
    ensures GroupValue(field, e) == value
       <==> MatchesFilter(QueryFilter(field, [value]), e) || (FieldText(e, field).None? && value == "")
  {
  }

  lemma UnderKeyIff(plan: QueryPlan, key: seq<string>, e: UsageEvent)
    requires |plan.groupBy| == |key| && "" !in key && forall f :: f in plan.groupBy ==> !IsTimeGroup(f)
    ensures Matches(plan, e) && GroupKey(plan.groupBy, e) == key <==> Matches(Narrowed(plan, key), e)
  {
    hide MatchesFilter, GroupValue, FieldText;
    var groupBy, pins := plan.groupBy, Pinned(plan.groupBy, key);
    forall i | 0 <= i < |key| ensures GroupValue(groupBy[i], e) == key[i] <==> MatchesFilter(pins[i], e) {
      assert groupBy[i] in groupBy && key[i] in key;
      GroupsUnder(groupBy[i], e, key[i]);
    }
    assert (forall f :: f in pins ==> MatchesFilter(f, e))
           <==> forall i :: 0 <= i < |key| ==> MatchesFilter(pins[i], e);
    assert GroupKey(groupBy, e) == key <==> forall i :: 0 <= i < |key| ==> GroupKey(groupBy, e)[i] == key[i];
    assert forall f :: f in plan.filters + pins <==> f in plan.filters || f in pins;
  }

  /** Drilling down: the cell of a group is the total of the ungrouped query that filters each column by the group's
      value for it. */
  lemma GroupIsNarrowedQuery(plan: QueryPlan, es: seq<UsageEvent>, key: seq<string>)
    requires plan.metrics != map[] && |plan.groupBy| == |key| && "" !in key
    requires forall f :: f in plan.groupBy ==> !IsTimeGroup(f)
    ensures CellAt(Aggregate(plan, es), key) == CellAt(Aggregate(Narrowed(plan, key), es), [])
  {
    hide Matches, GroupKey, GroupAll, Filter;
    var narrow := Narrowed(plan, key);
    var rows, under := Filter(es, Matching(plan)), UnderKey(plan.groupBy, key);
    GroupIsTotal(plan.groupBy, rows, key);
    forall e ensures Matching(narrow)(e) == (Matching(plan)(e) && under(e)) {
      UnderKeyIff(plan, key, e);
    }
    FilterBoth(es, Matching(plan), under, Matching(narrow));
    KeysOfTotal(Filter(es, Matching(narrow)));
    NoGroupKey(plan.groupBy, key);
  }

  lemma NoGroupKey(groupBy: seq<string>, key: seq<string>)
    requires |groupBy| == |key|
    ensures groupBy == [] <==> key == []
  {
  }

  lemma {:induction false} FilterBoth<T>(s: seq<T>, p: T -> bool, q: T -> bool, both: T -> bool)
    requires forall x :: x in s ==> both(x) == (p(x) && q(x))
    ensures Filter(Filter(s, p), q) == Filter(s, both)
    decreases |s|
  {
    if s != [] {
      var front, last := s[..|s| - 1], s[|s| - 1];
      FilterBoth(front, p, q, both);
      FilterSnoc(Filter(front, p), q, last);
      assert Filter(front, p) + [] == Filter(front, p) && Filter(front, both) + [] == Filter(front, both);
    }
  }

  /** An ungrouped aggregate has the one group. */
  lemma {:induction false} KeysOfTotal(es: seq<UsageEvent>)
    ensures GroupAll([], es).Keys <= {[]} && (GroupAll([], es) == map[] <==> es == [])
    ensures [] in GroupAll([], es) <==> es != []
    decreases |es|
  {
    hide SatAdd128;
    if es != [] { KeysOfTotal(es[..|es| - 1]); }
  }

  /** The column is empty, or the event does not have it. */
  function Lacks(field: string): UsageEvent -> bool
  {
    (e: UsageEvent) => FieldText(e, field).None? || MatchesFilter(QueryFilter(field, [""]), e)
  }

  /** The group "" collects the events whose column is empty and those without the column. */
  lemma EmptyGroupIs(plan: QueryPlan, es: seq<UsageEvent>, field: string)
    requires plan.metrics != map[] && plan.groupBy == [field] && !IsTimeGroup(field)
    ensures CellAt(Aggregate(plan, es), [""]) == CellAt(Aggregate(plan.(groupBy := []), Filter(es, Lacks(field))), [])
  {
    hide Matches, GroupAll, Filter, GroupValue, MatchesFilter, FieldText;
    var rows, under, flat := Filter(es, Matching(plan)), UnderKey(plan.groupBy, [""]), plan.(groupBy := []);
    GroupIsTotal(plan.groupBy, rows, [""]);
    forall e ensures under(e) == Lacks(field)(e) && Matching(flat)(e) == Matching(plan)(e) {
      GroupsUnder(field, e, "");
      assert GroupKey([field], e) == [GroupValue(field, e)];
      GroupingIgnored(plan, e);
    }
    var both := (e: UsageEvent) => Matching(plan)(e) && Lacks(field)(e);
    FilterBoth(es, Matching(plan), under, both);
    FilterBoth(es, Lacks(field), Matching(flat), both);
    KeysOfTotal(Filter(es, both));
  }

  lemma GroupingIgnored(plan: QueryPlan, e: UsageEvent)
    ensures Matches(plan.(groupBy := []), e) <==> Matches(plan, e)
  {
  }

  /** Grouped by time, an event goes under the decimal of the whole hour or day that it lies in. */
  lemma TimeGroupIs(e: UsageEvent, h: int, d: int)
    requires 0 <= e.timestampMs
    requires h % 3_600_000 == 0 && h <= e.timestampMs < h + 3_600_000
    requires d % 86_400_000 == 0 && d <= e.timestampMs < d + 86_400_000
    ensures GroupValue("hour_start_ms", e) == Decimal(h) && GroupValue("day", e) == Decimal(d)
  {
    hide Decimal;
    HourOfUnique(e.timestampMs, h);
    assert FloorTo(e.timestampMs, DAY_MS) == d;
  }

  /** An ungrouped aggregate is one row: the sum and the number of the matching events, also of none. */
  lemma TotalIs(plan: QueryPlan, es: seq<UsageEvent>)
    requires plan.groupBy == [] && plan.metrics != map[] && Fits(multiset(Filter(es, Matching(plan))))
    ensures var rows := Filter(es, Matching(plan));
            Aggregate(plan, es) == Table(map[[] := Agg(Sum(multiset(rows), Quantity()), |rows|)])
  {
    hide GroupAll, Filter, Sum, Matches;
    var rows := Filter(es, Matching(plan));
    KeysOfTotal(rows);
    GroupAllSums([], rows, []);
    SumEqual(multiset(rows), InGroup([], []), Quantity());
    CountIsLength(rows);
    SumZero(multiset([]), Quantity());
    var groups := GroupAll([], rows);
    if rows != [] { assert groups == map[[] := groups[[]]]; }
  }

  lemma {:induction false} CountIsLength(es: seq<UsageEvent>)
    ensures Sum(multiset(es), InGroupCount([], [])) == |es|
    decreases |es|
  {
    hide Sum;
    if es == [] {
      SumZero(multiset(es), InGroupCount([], []));
    } else {
      var front, e := es[..|es| - 1], es[|es| - 1];
      CountIsLength(front);
      assert es == front + [e] && GroupKey([], e) == [];
      SumSnoc(front, InGroupCount([], []), e);
    }
  }

  // In a running engine.

  /** A raw query answers from all stored and buffered events, whatever segments it skips. */
  lemma RawAnswerIs(c: Config, s: State, plan: QueryPlan)
    requires s.Up? && CatalogOk(c, s.disk) && plan.source == RawEvents && IsI64(plan.fromMs) && IsI64(plan.toMs)
    ensures AnswerTo(c, s, plan) == Aggregate(plan, RawSeq(s.disk) + s.mem.memtable)
  {
    hide GroupAll, Filter, Matches, PrunedScan, AllEvents, MetaMatchesFile, FilesBelow, ReplacedUnlisted;
    var m, near := s.disk.manifest, InRange(plan.fromMs, plan.toMs);
    var scan, raw := PrunedScan(m.rawSegments, s.disk.segs, c.hashing, plan, plan.fromMs, plan.toMs, Buckets(m)),
                     RawSeq(s.disk);
    PrunedScanIsFullScan(m.rawSegments, s.disk.segs, c.hashing, plan, plan.fromMs, plan.toMs, Buckets(m));
    FilterAppend(scan, Filter(s.mem.memtable, near), Matching(plan));
    FilterAppend(raw, s.mem.memtable, Matching(plan));
    forall e | Matching(plan)(e) ensures near(e) { MatchIsNear(plan, e); }
    FilterTwice(raw, near, Matching(plan));
    FilterTwice(s.mem.memtable, near, Matching(plan));
  }

  lemma MatchIsNear(plan: QueryPlan, e: UsageEvent)
    requires Matches(plan, e)
    ensures plan.fromMs <= e.timestampMs < plan.toMs
  {
  }

  /** Drilling down in a running engine, though the narrower query skips more segments. */
  lemma AnswerDrillsDown(c: Config, s: State, plan: QueryPlan, key: seq<string>)
    requires s.Up? && CatalogOk(c, s.disk) && plan.source == RawEvents && IsI64(plan.fromMs) && IsI64(plan.toMs)
    requires plan.metrics != map[] && |plan.groupBy| == |key| && "" !in key
    requires forall f :: f in plan.groupBy ==> !IsTimeGroup(f)
    ensures CellAt(AnswerTo(c, s, plan), key) == CellAt(AnswerTo(c, s, Narrowed(plan, key)), [])
  {
    hide CatalogOk, AnswerTo, Aggregate, RawSeq;
    RawAnswerIs(c, s, plan);
    RawAnswerIs(c, s, Narrowed(plan, key));
    GroupIsNarrowedQuery(plan, RawSeq(s.disk) + s.mem.memtable, key);
  }
}
