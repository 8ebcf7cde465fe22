/** Exactly when the plan of a WHERE clause means what the clause says, read off the clause. */
module SqlFaithful {
  import opened Model
  import opened Query
  import opened Sql

  // What a clause constrains.

  /** The least and, half-open, the greatest time a clause allows. */
  function Lower(expr: Expr): int
    requires Supported(expr)
  {
    match expr
    case Binary(left, op, right) =>
      if op.And? then Max(Lower(left), Lower(right))
      else if op.Gt? then SatAdd64(ParseI64(right.text).value, 1)
      else if op.GtEq? then ParseI64(right.text).value
      else I64_MIN
    case InList(_, _, _) => I64_MIN
  }

  function Upper(expr: Expr): int
    requires Supported(expr)
  {
    match expr
    case Binary(left, op, right) =>
      if op.And? then Min(Upper(left), Upper(right))
      else if op.Lt? then ParseI64(right.text).value
      else if op.LtEq? then SatAdd64(ParseI64(right.text).value, 1)
      else I64_MAX
    case InList(_, _, _) => I64_MAX
  }

  function Texts(list: seq<Expr>): seq<string>
    requires forall i :: 0 <= i < |list| ==> IsLiteral(list[i])
  {
    seq(|list|, i requires 0 <= i < |list| && IsLiteral(list[i]) => list[i].text)
  }

  /** The value lists of a clause, except the single accounts. */
  function ValueLists(expr: Expr): seq<QueryFilter>
    requires Supported(expr)
  {
    match expr
    case Binary(left, op, right) =>
      if op.And? then ValueLists(left) + ValueLists(right)
      else if op.Eq? && left.name != "account_id" then [QueryFilter(left.name, [right.text])]
      else []
    case InList(column, list, _) =>
      if column.name == "account_id" && |list| == 1 then [] else [QueryFilter(column.name, Texts(list))]
  }

  const KIND_NAMES := ["Usage", "Correction", "Retraction"]

  /** Everything demanded of the columns: the value lists, the last named account, and that a kind has
      one of its three names. */
  function Demands(expr: Expr): seq<QueryFilter>
    requires Supported(expr)
  {
    var named := NamedAccounts(expr);
    ValueLists(expr)
    + (if named == [] then [] else [QueryFilter("account_id", [named[|named| - 1]])])
    + [QueryFilter("kind", KIND_NAMES)]
  }

  predicate AllowedBy(lists: seq<QueryFilter>, field: string, v: string)
  {
    forall f :: f in lists && f.field == field ==> v in f.values
  }

  /** Some value is in every list on `field`. */
  predicate Satisfiable(lists: seq<QueryFilter>, field: string)
  {
    exists v :: v in WantedValues(lists, field) && AllowedBy(lists, field, v)
  }

  /** The clause's bounds leave no time, or its lists leave some column no value. */
  predicate Contradictory(expr: Expr)
    requires Supported(expr)
  {
    Lower(expr) >= Upper(expr) || exists f :: f in Demands(expr) && !Satisfiable(Demands(expr), f.field)
  }

  lemma {:induction false} BoundsAreI64(expr: Expr)
    requires Supported(expr)
    ensures IsI64(Lower(expr)) && IsI64(Upper(expr))
    decreases expr
  {
    hide ParseI64;
    match expr
    case Binary(left, op, right) =>
      if op.And? {
        BoundsAreI64(left);
        BoundsAreI64(right);
      }
    case InList(_, _, _) =>
  }

  // The plan holds exactly these constraints.

  function Constrained(expr: Expr, plan: QueryPlan): QueryPlan
    requires Supported(expr)
  {
    plan.(
    fromMs := Max(plan.fromMs, Lower(expr)),
    toMs := Min(plan.toMs, Upper(expr)),
    accountId := LastOr(NamedAccounts(expr), plan.accountId),
    filters := plan.filters + ValueLists(expr))
  }

  lemma TextsAreLiterals(list: seq<Expr>)
    requires forall i :: 0 <= i < |list| ==> IsLiteral(list[i])
    ensures Literals(list) == Ok(Texts(list))
  {
    LiteralsAre(list);
    assert Literals(list).value == Texts(list);
  }

  lemma ConstrainedTwice(left: Expr, right: Expr, plan: QueryPlan)
    requires Supported(left) && Supported(right)
    ensures Constrained(right, Constrained(left, plan)) == Constrained(Binary(left, And, right), plan)
  {
    hide Lower, Upper, ValueLists, NamedAccounts, Supported;
    AndParts(left, right);
    assert plan.filters + ValueLists(left) + ValueLists(right) == plan.filters + (ValueLists(left) + ValueLists(right));
  }

  lemma AndParts(left: Expr, right: Expr)
    requires Supported(left) && Supported(right)
    ensures var both := Binary(left, And, right);
            && Supported(both)
            && Lower(both) == Max(Lower(left), Lower(right)) && Upper(both) == Min(Upper(left), Upper(right))
            && ValueLists(both) == ValueLists(left) + ValueLists(right)
            && NamedAccounts(both) == NamedAccounts(left) + NamedAccounts(right)
  {
  }

  lemma {:induction false} PlanIsConstrained(expr: Expr, plan: QueryPlan)
    requires Supported(expr) && IsI64(plan.fromMs) && IsI64(plan.toMs)
    ensures Extract(expr, plan) == Ok(Constrained(expr, plan))
    decreases expr
  {
    hide ParseI64, Literals;
    match expr
    case Binary(left, op, right) =>
      if op.And? {
        hide Constrained;
        PlanIsConstrained(left, plan);
        StaysI64(left, plan);
        PlanIsConstrained(right, Constrained(left, plan));
        ConstrainedTwice(left, right, plan);
      } else {
        assert plan.filters + [] == plan.filters;
      }
    case InList(_, list, _) =>
      TextsAreLiterals(list);
      assert plan.filters + [] == plan.filters;
  }

  lemma StaysI64(expr: Expr, plan: QueryPlan)
    requires Supported(expr) && IsI64(plan.fromMs) && IsI64(plan.toMs)
    ensures IsI64(Constrained(expr, plan).fromMs) && IsI64(Constrained(expr, plan).toMs)
  {
    hide Lower, Upper;
    BoundsAreI64(expr);
  }

  // A contradictory clause's plan matches nothing.

  lemma DemandsMet(expr: Expr, plan: QueryPlan, e: UsageEvent)
    requires Supported(expr) && plan == OpenPlan(plan.source, plan.groupBy, plan.metrics)
    requires Matches(Constrained(expr, plan), e)
    ensures forall f :: f in Demands(expr) ==> MatchesFilter(f, e)
  {
    hide ValueLists, Lower, Upper, NamedAccounts;
    var p := Constrained(expr, plan);
    forall f | f in Demands(expr) ensures MatchesFilter(f, e) {
      if f in ValueLists(expr) {
        assert f in p.filters;
      } else if f.field == "kind" {
        assert KIND_NAMES[0] == "Usage" && KIND_NAMES[1] == "Correction" && KIND_NAMES[2] == "Retraction";
        assert KindText(e.kind) in KIND_NAMES;
      }
    }
  }

  lemma MetMeansSatisfiable(lists: seq<QueryFilter>, f: QueryFilter, e: UsageEvent)
    requires f in lists && forall g :: g in lists ==> MatchesFilter(g, e)
    ensures Satisfiable(lists, f.field)
  {
    assert MatchesFilter(f, e);
    var v := FieldText(e, f.field).value;
    assert v in WantedValues(lists, f.field) && AllowedBy(lists, f.field, v);
  }

  lemma MatchMeansConsistent(expr: Expr, plan: QueryPlan, e: UsageEvent)
    requires Supported(expr) && plan == OpenPlan(plan.source, plan.groupBy, plan.metrics)
    requires Matches(Constrained(expr, plan), e)
    ensures !Contradictory(expr)
  {
    hide Demands, Satisfiable, MatchesFilter;
    DemandsMet(expr, plan, e);
    forall f | f in Demands(expr) ensures Satisfiable(Demands(expr), f.field) {
      MetMeansSatisfiable(Demands(expr), f, e);
    }
  }

  // Otherwise some event matches.

  /** A value every list on `field` allows. */
  ghost function Chosen(lists: seq<QueryFilter>, field: string): (v: string)
    ensures Satisfiable(lists, field) ==> AllowedBy(lists, field, v)
  {
    if Satisfiable(lists, field) then
      var v :| v in WantedValues(lists, field) && AllowedBy(lists, field, v); v
    else ""
  }

  function KindNamed(name: string): EventKind
  {
    if name == "Usage" then Usage else if name == "Correction" then Correction else Retraction
  }

  /** An event with a chosen value in every column. */
  ghost function Witness(lists: seq<QueryFilter>, ts: int): UsageEvent
  {
    UsageEvent(
      "", KindNamed(Chosen(lists, "kind")), None, Chosen(lists, "account_id"), Some(Chosen(lists, "subscription_id")),
      Chosen(lists, "product_id"), Chosen(lists, "meter_id"), ts, 0, Chosen(lists, "unit"), Chosen(lists, "source"),
      Some(Chosen(lists, "model_id")),
      map field | field in (set f | f in lists :: f.field) :: Chosen(lists, field), 0)
  }

  lemma WitnessHas(lists: seq<QueryFilter>, ts: int, f: QueryFilter)
    requires f in lists && f.field != "kind"
    ensures FieldText(Witness(lists, ts), f.field) == Some(Chosen(lists, f.field))
  {
    hide Chosen;
    assert f.field in (set g | g in lists :: g.field);
  }

  lemma WitnessMeets(lists: seq<QueryFilter>, ts: int, f: QueryFilter)
    requires f in lists && QueryFilter("kind", KIND_NAMES) in lists && Satisfiable(lists, f.field)
    ensures MatchesFilter(f, Witness(lists, ts))
  {
    hide Satisfiable;
    var v := Chosen(lists, f.field);
    assert AllowedBy(lists, f.field, v);
    if f.field == "kind" {
      assert v in QueryFilter("kind", KIND_NAMES).values;
      assert KindText(KindNamed(v)) == v;
      assert FieldText(Witness(lists, ts), "kind") == Some(v);
    } else {
      WitnessHas(lists, ts, f);
    }
  }

  /** The witness is of the last named account. */
  lemma WitnessAccount(expr: Expr, ts: int)
    requires Supported(expr) && forall g :: g in Demands(expr) && g.field == "account_id" ==>
             Satisfiable(Demands(expr), g.field)
    ensures var named := NamedAccounts(expr);
            named != [] ==> Witness(Demands(expr), ts).accountId == named[|named| - 1]
  {
    hide NamedAccounts, ValueLists, Satisfiable, MatchesFilter, Witness;
    var named := NamedAccounts(expr);
    if named != [] {
      var account := QueryFilter("account_id", [named[|named| - 1]]);
      assert account in Demands(expr);
      WitnessMeets(Demands(expr), ts, account);
      AccountIs(account, Witness(Demands(expr), ts));
    }
  }

  lemma WitnessMatches(expr: Expr, plan: QueryPlan)
    requires Supported(expr) && plan == OpenPlan(plan.source, plan.groupBy, plan.metrics) && !Contradictory(expr)
    ensures Matches(Constrained(expr, plan), Witness(Demands(expr), Lower(expr)))
  {
    hide Lower, Upper, NamedAccounts, ValueLists, Satisfiable, MatchesFilter, Chosen;
    BoundsAreI64(expr);
    var lists, p := Demands(expr), Constrained(expr, plan);
    var w := Witness(lists, Lower(expr));
    forall f | f in p.filters ensures MatchesFilter(f, w) {
      assert f in lists;
      WitnessMeets(lists, Lower(expr), f);
    }
    WitnessAccount(expr, Lower(expr));
  }

  lemma AccountIs(f: QueryFilter, e: UsageEvent)
    requires f.field == "account_id" && |f.values| == 1
    ensures MatchesFilter(f, e) <==> e.accountId == f.values[0]
  {
  }

  // What a clause means: an interval of times, value lists over all columns, and accounts.

  predicate IsTimeColumn(field: string) { field == "timestamp_ms" || field == "hour_start_ms" }

  /** The first hour that is not before `v`, and the first time whose hour is not before `v`: hours are cut toward
      zero, so up to an hour of times before it count as the hour 0 and each hour below. */
  function HourAtOrAfter(v: int): int { v + (-v) % HOUR_MS }

  function FirstTimeOf(v: int): int
  {
    var hour := HourAtOrAfter(v);
    if 0 < hour then hour else hour - HOUR_MS + 1
  }

  lemma HourAtOrAfterIs(v: int)
    ensures Aligned(HourAtOrAfter(v)) && v <= HourAtOrAfter(v) < v + HOUR_MS
  {
    var q, r := (-v) / HOUR_MS, (-v) % HOUR_MS;
    assert HourAtOrAfter(v) == -q * HOUR_MS;
  }

  lemma HoursApart(a: int, b: int)
    requires Aligned(a) && Aligned(b) && a < b
    ensures a + HOUR_MS <= b
  {
  }

  lemma FirstTimeIs(v: int, ts: int)
    ensures v <= HourOf(ts) <==> FirstTimeOf(v) <= ts
  {
    hide HourOf, HourAtOrAfter;
    var at, hour := HourOf(ts), HourAtOrAfter(v);
    HourAtOrAfterIs(v);
    HourOfAligned(ts);
    if at < hour { HoursApart(at, hour); }
    if 0 <= ts {
      HourOfBounds(ts);
    } else {
      HourOfBounds(-ts);
      assert at == -HourOf(-ts) by { HourOfNegative(ts); }
    }
  }

  lemma HourOfNegative(ts: int)
    requires ts < 0
    ensures HourOf(ts) == -HourOf(-ts)
  {
  }

  /** The interval of 64-bit times the comparisons of a clause ask for. */
  function MeantLower(expr: Expr): int
    requires Supported(expr)
  {
    match expr
    case Binary(left, op, right) =>
      if op.And? then Max(MeantLower(left), MeantLower(right))
      else if op.Gt? then Max(I64_MIN, LeastTime(left.name, ParseI64(right.text).value + 1))
      else if op.GtEq? then Max(I64_MIN, LeastTime(left.name, ParseI64(right.text).value))
      else I64_MIN
    case InList(_, _, _) => I64_MIN
  }

  function MeantUpper(expr: Expr): int
    requires Supported(expr)
  {
    match expr
    case Binary(left, op, right) =>
      if op.And? then Min(MeantUpper(left), MeantUpper(right))
      else if op.Lt? then Min(I64_MAX, LeastTime(left.name, ParseI64(right.text).value))
      else if op.LtEq? then Min(I64_MAX, LeastTime(left.name, ParseI64(right.text).value + 1))
      else I64_MAX
    case InList(_, _, _) => I64_MAX
  }

  /** The first time at which a time column is at least `v`. */
  function LeastTime(column: string, v: int): int
  {
    if column == "hour_start_ms" then FirstTimeOf(v) else v
  }

  lemma LeastTimeIs(column: string, v: int, e: UsageEvent)
    ensures v <= TimeColumn(e, column) <==> LeastTime(column, v) <= e.timestampMs
  {
    hide HourOf, FirstTimeOf;
    FirstTimeIs(v, e.timestampMs);
  }

  /** The column of `f`, read as the clause reads it, has one of the values of `f`. */
  predicate MeetsColumn(f: QueryFilter, e: UsageEvent)
  {
    ColumnText(e, f.field).Some? && ColumnText(e, f.field).value in f.values
  }

  predicate MeetsAll(lists: seq<QueryFilter>, e: UsageEvent)
  {
    forall f :: f in lists ==> MeetsColumn(f, e)
  }

  lemma MeetsBoth(a: seq<QueryFilter>, b: seq<QueryFilter>, e: UsageEvent)
    ensures MeetsAll(a + b, e) <==> MeetsAll(a, e) && MeetsAll(b, e)
  {
    assert forall f :: f in a + b <==> f in a || f in b;
  }

  lemma MeetsOne(f: QueryFilter, e: UsageEvent)
    ensures MeetsAll([f], e) <==> MeetsColumn(f, e)
    ensures MeetsAll([], e)
  {
    assert f in [f];
  }

  /** A clause holds of an event exactly when its time, its columns and its account are as demanded. */
  lemma {:induction false} SatisfiesIff(expr: Expr, e: UsageEvent)
    requires Supported(expr) && IsI64(e.timestampMs) && e.timestampMs < I64_MAX
    ensures Satisfies(expr, e)
       <==> && MeantLower(expr) <= e.timestampMs < MeantUpper(expr)
            && MeetsAll(ValueLists(expr), e) && OfEach(NamedAccounts(expr), e)
    decreases expr
  {
    hide ParseI64, MeetsAll, OfEach, LeastTime, TimeColumn, MeetsColumn, ColumnText, Texts;
    match expr
    case Binary(left, op, right) =>
      if op.And? {
        SatisfiesIff(left, e);
        SatisfiesIff(right, e);
        MeetsBoth(ValueLists(left), ValueLists(right), e);
        OfEachBoth(NamedAccounts(left), NamedAccounts(right), e);
      } else if op.Eq? {
        LeafMeets(left.name, [right.text], e);
        assert [right.text][0] == right.text;
      } else {
        LeastTimeIs(left.name, ParseI64(right.text).value, e);
        LeastTimeIs(left.name, ParseI64(right.text).value + 1, e);
        LeafMeets("", [], e);
      }
    case InList(column, list, _) =>
      LeafMeets(column.name, Texts(list), e);
      TextsAt(list);
  }

  lemma TextsAt(list: seq<Expr>)
    requires forall i :: 0 <= i < |list| ==> IsLiteral(list[i])
    ensures |Texts(list)| == |list| && forall i :: 0 <= i < |list| ==> Texts(list)[i] == list[i].text
  {
  }

  /** One equality or IN: a value list, or one named account. */
  lemma LeafMeets(field: string, values: seq<string>, e: UsageEvent)
    ensures var f := QueryFilter(field, values);
            && (MeetsAll([f], e) <==> exists i :: 0 <= i < |values| && ColumnText(e, field) == Some(values[i]))
            && MeetsAll([], e) && OfEach([], e)
            && (field == "account_id" && |values| == 1 ==>
                  (OfEach([values[0]], e)
                   <==> exists i :: 0 <= i < |values| && ColumnText(e, field) == Some(values[i])))
  {
    MeetsOne(QueryFilter(field, values), e);
    if field == "account_id" && |values| == 1 {
      assert values[0] in [values[0]];
      assert ColumnText(e, field) == Some(e.accountId);
      assert OfEach([values[0]], e) <==> e.accountId == values[0];
    }
  }

  // When no event satisfies a clause.

  function TimeText(field: string, ts: int): string
  {
    if field == "hour_start_ms" then Decimal(HourOf(ts)) else Decimal(ts)
  }

  /** The value lists on time columns allow the time `ts`. */
  predicate TimeListsAllow(expr: Expr, ts: int)
    requires Supported(expr)
  {
    forall f :: f in ValueLists(expr) && IsTimeColumn(f.field) ==> TimeText(f.field, ts) in f.values
  }

  /** The clause names different accounts, leaves no time, or leaves some other column no value. */
  predicate Unsatisfiable(expr: Expr)
    requires Supported(expr)
  {
    || !AccountsAgree(expr)
    || !(exists ts :: MeantLower(expr) <= ts < MeantUpper(expr) && TimeListsAllow(expr, ts))
    || exists f :: f in Demands(expr) && !IsTimeColumn(f.field) && !Satisfiable(Demands(expr), f.field)
  }

  lemma SatisfiedMeansSatisfiable(expr: Expr, e: UsageEvent)
    requires Supported(expr) && IsI64(e.timestampMs) && e.timestampMs < I64_MAX && Satisfies(expr, e)
    ensures !Unsatisfiable(expr)
  {
    hide Satisfies, ValueLists, NamedAccounts, MeantLower, MeantUpper, Satisfiable, Decimal, HourOf;
    SatisfiesIff(expr, e);
    var ts := e.timestampMs;
    assert TimeListsAllow(expr, ts) by {
      forall f | f in ValueLists(expr) && IsTimeColumn(f.field) ensures TimeText(f.field, ts) in f.values {
        assert MeetsColumn(f, e);
      }
    }
    forall f | f in Demands(expr) && !IsTimeColumn(f.field) ensures Satisfiable(Demands(expr), f.field) {
      ColumnHasValue(expr, e, f);
    }
  }

  lemma ColumnHasValue(expr: Expr, e: UsageEvent, f: QueryFilter)
    requires Supported(expr) && MeetsAll(ValueLists(expr), e) && OfEach(NamedAccounts(expr), e)
    requires f in Demands(expr) && !IsTimeColumn(f.field)
    ensures Satisfiable(Demands(expr), f.field)
  {
    hide ValueLists, NamedAccounts;
    var named := NamedAccounts(expr);
    assert named != [] ==> named[|named| - 1] in named;
    assert KIND_NAMES[0] == "Usage" && KIND_NAMES[1] == "Correction" && KIND_NAMES[2] == "Retraction";
    assert KindText(e.kind) in KIND_NAMES;
    forall g | g in Demands(expr) && g.field == f.field ensures MatchesFilter(g, e) {
      if g in ValueLists(expr) { assert MeetsColumn(g, e); }
    }
    var v := FieldText(e, f.field).value;
    assert v in WantedValues(Demands(expr), f.field) && AllowedBy(Demands(expr), f.field, v);
  }

  /** At any time its lists allow, a clause without contradiction is satisfied by the witness. */
  lemma WitnessSatisfies(expr: Expr, ts: int)
    requires Supported(expr) && !Unsatisfiable(expr) && IsI64(ts) && ts < I64_MAX
    requires MeantLower(expr) <= ts < MeantUpper(expr) && TimeListsAllow(expr, ts)
    ensures Satisfies(expr, Witness(Demands(expr), ts))
  {
    hide Satisfies, ValueLists, NamedAccounts, MeantLower, MeantUpper, Satisfiable, Chosen, Decimal, HourOf,
      MatchesFilter;
    var lists := Demands(expr);
    var w := Witness(lists, ts);
    forall f | f in ValueLists(expr) ensures MeetsColumn(f, w) {
      assert f in lists;
      if !IsTimeColumn(f.field) {
        WitnessMeets(lists, ts, f);
        SameColumn(f, w);
      }
    }
    WitnessAccount(expr, ts);
    OneAccount(expr, w);
    SatisfiesIff(expr, w);
  }

  lemma SameColumn(f: QueryFilter, e: UsageEvent)
    requires !IsTimeColumn(f.field)
    ensures MeetsColumn(f, e) <==> MatchesFilter(f, e)
  {
  }

  lemma OneAccount(expr: Expr, e: UsageEvent)
    requires Supported(expr) && AccountsAgree(expr)
    ensures var named := NamedAccounts(expr);
            OfEach(named, e) <==> named == [] || e.accountId == named[|named| - 1]
  {
    hide NamedAccounts;
    var named := NamedAccounts(expr);
    if named != [] { assert named[|named| - 1] in named; }
  }

  // The exact condition.

  /** The plan and the clause accept the same events. */
  ghost predicate Faithful(expr: Expr, p: QueryPlan)
    requires Supported(expr)
  {
    forall e: UsageEvent :: IsI64(e.timestampMs) && e.timestampMs < I64_MAX ==> (Matches(p, e) <==> Satisfies(expr, e))
  }

  /** No value list on a time column. */
  predicate NoTimeLists(expr: Expr)
    requires Supported(expr)
  {
    forall f :: f in ValueLists(expr) ==> !IsTimeColumn(f.field)
  }

  /** The accounts named one by one agree, time columns are compared by ranges only, and the bounds of the plan are
      those the clause means. */
  predicate TranslatesAsMeant(expr: Expr)
    requires Supported(expr)
  {
    && AccountsAgree(expr) && NoTimeLists(expr)
    && Lower(expr) == MeantLower(expr) && Upper(expr) == MeantUpper(expr)
  }

  lemma PlanMatchesIff(expr: Expr, plan: QueryPlan, e: UsageEvent)
    requires Supported(expr) && plan == OpenPlan(plan.source, plan.groupBy, plan.metrics)
    ensures var named := NamedAccounts(expr);
            Matches(Constrained(expr, plan), e)
            <==> && Lower(expr) <= e.timestampMs < Upper(expr) && (named == [] || e.accountId == named[|named| - 1])
                 && forall f :: f in ValueLists(expr) ==> MatchesFilter(f, e)
  {
    hide Lower, Upper, NamedAccounts, ValueLists, MatchesFilter;
    BoundsAreI64(expr);
    assert plan.filters + ValueLists(expr) == ValueLists(expr);
  }

  lemma MeantIsFaithful(expr: Expr, plan: QueryPlan, e: UsageEvent)
    requires Supported(expr) && plan == OpenPlan(plan.source, plan.groupBy, plan.metrics) && TranslatesAsMeant(expr)
    requires IsI64(e.timestampMs) && e.timestampMs < I64_MAX
    ensures Matches(Constrained(expr, plan), e) <==> Satisfies(expr, e)
  {
    hide Lower, Upper, MeantLower, MeantUpper, NamedAccounts, ValueLists, MatchesFilter, MeetsColumn, Satisfies,
      Matches, Constrained, AccountsAgree, OfEach;
    PlanMatchesIff(expr, plan, e);
    SatisfiesIff(expr, e);
    OneAccount(expr, e);
    forall f | f in ValueLists(expr) ensures MeetsColumn(f, e) <==> MatchesFilter(f, e) { SameColumn(f, e); }
  }

  /** A clause translated as meant contradicts itself exactly when its plan does. */
  lemma MeantAlike(expr: Expr)
    requires Supported(expr) && TranslatesAsMeant(expr)
    ensures Contradictory(expr) <==> Unsatisfiable(expr)
  {
    hide Lower, Upper, MeantLower, MeantUpper, NamedAccounts, ValueLists, Satisfiable, AccountsAgree;
    if Lower(expr) < Upper(expr) { assert TimeListsAllow(expr, Lower(expr)); }
    forall f | f in Demands(expr) ensures !IsTimeColumn(f.field) {
      assert f in ValueLists(expr) || f.field == "account_id" || f.field == "kind";
    }
  }

  /** Both the plan and the clause accept something, yet the translation is not as meant: some event tells them
      apart. */
  lemma ToldApart(expr: Expr, plan: QueryPlan) returns (e: UsageEvent)
    requires Supported(expr) && plan == OpenPlan(plan.source, plan.groupBy, plan.metrics)
    requires !Contradictory(expr) && !Unsatisfiable(expr) && !TranslatesAsMeant(expr)
    ensures IsI64(e.timestampMs) && e.timestampMs < I64_MAX
    ensures Matches(Constrained(expr, plan), e) != Satisfies(expr, e)
  {
    hide Lower, Upper, MeantLower, MeantUpper, NamedAccounts, ValueLists, Satisfiable, Satisfies, Matches, Constrained,
      Witness;
    if !NoTimeLists(expr) {
      e := ByDimension(expr, plan);
    } else {
      e := ByTime(expr, plan);
    }
  }

  /** A list on a time column is taken for one on a dimension, which the clause does not speak of. */
  lemma ByDimension(expr: Expr, plan: QueryPlan) returns (e: UsageEvent)
    requires Supported(expr) && plan == OpenPlan(plan.source, plan.groupBy, plan.metrics)
    requires !Contradictory(expr) && !NoTimeLists(expr)
    ensures IsI64(e.timestampMs) && e.timestampMs < I64_MAX
    ensures Matches(Constrained(expr, plan), e) != Satisfies(expr, e)
  {
    hide Lower, Upper, MeantLower, MeantUpper, NamedAccounts, ValueLists, Satisfies, Matches, Constrained,
      Contradictory, OfEach;
    var f :| f in ValueLists(expr) && IsTimeColumn(f.field);
    e := Witness(Demands(expr), Lower(expr));
    WitnessMatches(expr, plan);
    WitnessTime(expr);
    if Satisfies(expr, e) {
      e := Without(e, f.field);
      DimensionUnread(expr, Witness(Demands(expr), Lower(expr)), f.field);
      PlanMatchesIff(expr, plan, e);
      assert !MatchesFilter(f, e) by { NoDimension(e, f); }
    }
  }

  function Without(e: UsageEvent, field: string): UsageEvent { e.(dimensions := e.dimensions - {field}) }

  lemma NoDimension(e: UsageEvent, f: QueryFilter)
    requires IsTimeColumn(f.field) && f.field !in e.dimensions
    ensures !MatchesFilter(f, e)
  {
  }

  lemma DimensionUnread(expr: Expr, e: UsageEvent, field: string)
    requires Supported(expr) && IsTimeColumn(field) && IsI64(e.timestampMs) && e.timestampMs < I64_MAX
    ensures Satisfies(expr, Without(e, field)) <==> Satisfies(expr, e)
  {
    hide Satisfies, MeantLower, MeantUpper, ValueLists, NamedAccounts, Decimal, HourOf;
    var bare := Without(e, field);
    SatisfiesIff(expr, e);
    SatisfiesIff(expr, bare);
    forall f: QueryFilter ensures MeetsColumn(f, bare) <==> MeetsColumn(f, e) {
      assert ColumnText(bare, f.field) == ColumnText(e, f.field);
    }
  }

  /** Two non-empty intervals that differ, told apart by a time of one of them. */
  function ApartAt(a: int, b: int, a': int, b': int): int
  {
    if a < a' then a else if a' < a then a' else if b < b' then b else b'
  }

  lemma ApartAtIs(a: int, b: int, a': int, b': int)
    requires a < b && a' < b' && (a != a' || b != b')
    ensures var t := ApartAt(a, b, a', b');
            && (a <= t < b) != (a' <= t < b') && (a <= t < b || a' <= t < b')
  {
  }

  /** With other bounds than meant, an event at a time in one interval and not in the other. */
  lemma ByTime(expr: Expr, plan: QueryPlan) returns (e: UsageEvent)
    requires Supported(expr) && plan == OpenPlan(plan.source, plan.groupBy, plan.metrics)
    requires !Contradictory(expr) && !Unsatisfiable(expr) && NoTimeLists(expr)
    requires Lower(expr) != MeantLower(expr) || Upper(expr) != MeantUpper(expr)
    ensures IsI64(e.timestampMs) && e.timestampMs < I64_MAX
    ensures Matches(Constrained(expr, plan), e) != Satisfies(expr, e)
  {
    hide Lower, Upper, MeantLower, MeantUpper, NamedAccounts, ValueLists, Satisfiable, Satisfies, Matches, Constrained,
      OfEach, MatchesFilter, MeetsColumn, Chosen, AccountsAgree;
    BoundsAreI64(expr);
    MeantBounds(expr);
    var ts := ApartAt(Lower(expr), Upper(expr), MeantLower(expr), MeantUpper(expr));
    ApartAtIs(Lower(expr), Upper(expr), MeantLower(expr), MeantUpper(expr));
    var lists := Demands(expr);
    e := Witness(lists, ts);
    PlanMatchesIff(expr, plan, e);
    SatisfiesIff(expr, e);
    WitnessAccount(expr, ts);
    OneAccount(expr, e);
    forall f | f in ValueLists(expr) ensures MatchesFilter(f, e) && MeetsColumn(f, e) {
      assert f in lists;
      WitnessMeets(lists, ts, f);
      SameColumn(f, e);
    }
  }

  lemma {:induction false} MeantBounds(expr: Expr)
    requires Supported(expr)
    ensures I64_MIN <= MeantLower(expr) && MeantUpper(expr) <= I64_MAX
    decreases expr
  {
    hide ParseI64, LeastTime;
    match expr
    case Binary(left, op, right) =>
      if op.And? {
        MeantBounds(left);
        MeantBounds(right);
      }
    case InList(_, _, _) =>
  }

  /** The translation of any supported clause is faithful exactly when it is as meant, or both the plan and the
      clause contradict themselves. */
  lemma FaithfulIff(expr: Expr, plan: QueryPlan)
    requires Supported(expr) && plan == OpenPlan(plan.source, plan.groupBy, plan.metrics)
    ensures Extract(expr, plan).Ok?
    ensures Faithful(expr, Extract(expr, plan).value)
       <==> TranslatesAsMeant(expr) || (Contradictory(expr) && Unsatisfiable(expr))
  {
    hide Extract, Satisfies, Matches, Contradictory, Unsatisfiable, TranslatesAsMeant, Constrained, Witness, Demands;
    PlanIsConstrained(expr, plan);
    if TranslatesAsMeant(expr) {
      forall e: UsageEvent | IsI64(e.timestampMs) && e.timestampMs < I64_MAX
        ensures Matches(Constrained(expr, plan), e) <==> Satisfies(expr, e)
      {
        MeantIsFaithful(expr, plan, e);
      }
    } else if Contradictory(expr) {
      NothingMatches(expr, plan);
      if Unsatisfiable(expr) { NothingSatisfies(expr); } else { SomethingSatisfies(expr); }
    } else if Unsatisfiable(expr) {
      NothingSatisfies(expr);
      WitnessMatches(expr, plan);
      WitnessTime(expr);
    } else {
      var e := ToldApart(expr, plan);
    }
  }

  lemma NothingSatisfies(expr: Expr)
    requires Supported(expr) && Unsatisfiable(expr)
    ensures forall e: UsageEvent :: IsI64(e.timestampMs) && e.timestampMs < I64_MAX ==> !Satisfies(expr, e)
  {
    hide Satisfies, Unsatisfiable;
    forall e: UsageEvent | IsI64(e.timestampMs) && e.timestampMs < I64_MAX ensures !Satisfies(expr, e) {
      if Satisfies(expr, e) { SatisfiedMeansSatisfiable(expr, e); }
    }
  }

  lemma SomethingSatisfies(expr: Expr)
    requires Supported(expr) && !Unsatisfiable(expr)
    ensures exists e: UsageEvent :: IsI64(e.timestampMs) && e.timestampMs < I64_MAX && Satisfies(expr, e)
  {
    hide Satisfies, MeantLower, MeantUpper, AccountsAgree, Demands, Satisfiable;
    MeantBounds(expr);
    var ts :| MeantLower(expr) <= ts < MeantUpper(expr) && TimeListsAllow(expr, ts);
    WitnessSatisfies(expr, ts);
  }

  lemma NothingMatches(expr: Expr, plan: QueryPlan)
    requires Supported(expr) && plan == OpenPlan(plan.source, plan.groupBy, plan.metrics) && Contradictory(expr)
    ensures forall e :: !Matches(Constrained(expr, plan), e)
  {
    hide Matches, Constrained, Contradictory;
    forall e ensures !Matches(Constrained(expr, plan), e) {
      if Matches(Constrained(expr, plan), e) {
        MatchMeansConsistent(expr, plan, e);
      }
    }
  }

  lemma WitnessTime(expr: Expr)
    requires Supported(expr) && !Contradictory(expr)
    ensures var ts := Witness(Demands(expr), Lower(expr)).timestampMs; IsI64(ts) && ts < I64_MAX
  {
    BoundsAreI64(expr);
  }

  /** Clauses that keep to ranges of `timestamp_ms`, or of `hour_start_ms` with bounds on positive hours, have the
      bounds they mean. */
  predicate BoundsOnHours(expr: Expr)
    requires Supported(expr)
  {
    match expr
    case Binary(left, op, right) =>
      if op.And? then BoundsOnHours(left) && BoundsOnHours(right)
      else
        IsRange(op) && left.name == "hour_start_ms" ==>
          var v := ParseI64(right.text).value;
          var bound := if op.Gt? || op.LtEq? then v + 1 else v;
          0 < bound && Aligned(bound)
    case InList(_, _, _) => true
  }

  lemma {:induction false} HourBoundsAsMeant(expr: Expr)
    requires Supported(expr) && BoundsOnHours(expr)
    ensures Lower(expr) < I64_MAX || MeantLower(expr) < I64_MAX ==> Lower(expr) == MeantLower(expr)
    ensures Upper(expr) == MeantUpper(expr)
    decreases expr
  {
    hide ParseI64, FirstTimeOf;
    match expr
    case Binary(left, op, right) =>
      if op.And? {
        HourBoundsAsMeant(left);
        HourBoundsAsMeant(right);
      } else if IsRange(op) && left.name == "hour_start_ms" {
        var v := ParseI64(right.text).value;
        OnHour(v);
        OnHour(v + 1);
      }
    case InList(_, _, _) =>
  }

  lemma OnHour(v: int)
    ensures 0 < v && Aligned(v) ==> FirstTimeOf(v) == v
  {
    if Aligned(v) {
      var q := v / HOUR_MS;
      assert -v == (-q) * HOUR_MS;
    }
  }

  lemma {:induction false} RangesOnly(expr: Expr)
    requires Supported(expr) && TimeByRangesOnly(expr)
    ensures BoundsOnHours(expr) && NoTimeLists(expr)
    decreases expr
  {
    hide ParseI64, Texts;
    match expr
    case Binary(left, op, right) =>
      if op.And? {
        RangesOnly(left);
        RangesOnly(right);
      }
    case InList(_, _, _) =>
  }

  /** With time columns compared by ranges of `timestamp_ms` only, the accounts decide, unless the plan contradicts
      itself anyway. */
  lemma RangesOnlyFaithfulIff(expr: Expr, plan: QueryPlan)
    requires Supported(expr) && TimeByRangesOnly(expr)
    requires plan == OpenPlan(plan.source, plan.groupBy, plan.metrics)
    ensures Extract(expr, plan).Ok?
    ensures Faithful(expr, Extract(expr, plan).value) <==> AccountsAgree(expr) || Contradictory(expr)
  {
    hide Extract, Faithful, Demands, AccountsAgree, Lower, Upper, MeantLower, MeantUpper, TimeByRangesOnly, ValueLists;
    FaithfulIff(expr, plan);
    RangesOnly(expr);
    HourBoundsAsMeant(expr);
    MeantBounds(expr);
    BoundsAreI64(expr);
  }
}
