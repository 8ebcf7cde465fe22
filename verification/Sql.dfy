/** Translating a WHERE clause into a query plan. */
module Sql {
  import opened Model
  import opened Query

  datatype BinaryOperator = And | Or | Eq | Gt | GtEq | Lt | LtEq | OtherOperator

  /** The part of a parsed SQL expression the translator distinguishes. */
  datatype Expr =
    | Binary(left: Expr, op: BinaryOperator, right: Expr)
    | InList(column: Expr, list: seq<Expr>, negated: bool)
    | Identifier(name: string)
    | Quoted(text: string)
    | Number(text: string)
    | OtherExpr

  predicate IsLiteral(e: Expr) { e.Quoted? || e.Number? }

  function ExtractLiteral(e: Expr): Result<string>
  {
    if IsLiteral(e) then Ok(e.text) else Err("literal")
  }

  // Integer literals.

  predicate AllDigits(s: string)
  {
    forall i :: 0 <= i < |s| ==> '0' <= s[i] <= '9'
  }

  function DigitsValue(s: string): nat
    requires AllDigits(s)
  {
    if s == "" then 0 else DigitsValue(s[..|s| - 1]) * 10 + (s[|s| - 1] - '0') as int
  }

  /** Rust's `str::parse::<i64>`: an optional sign, then at least one digit, in range. */
  function ParseI64(s: string): (r: Option<int>)
    ensures r.Some? ==> IsI64(r.value)
  {
    var signed := s != "" && (s[0] == '-' || s[0] == '+');
    var digits := if signed then s[1..] else s;
    if digits == "" || !AllDigits(digits) then None
    else
      var magnitude: int := DigitsValue(digits);
      var n := if signed && s[0] == '-' then -magnitude else magnitude;
      if IsI64(n) then Some(n) else None
  }

  lemma {:induction false} DigitsRoundTrip(n: nat)
    ensures Digits(n) != "" && AllDigits(Digits(n)) && DigitsValue(Digits(n)) == n
  {
    hide DigitsValue, AllDigits;
    var last := "0123456789"[n % 10];
    DigitIs(n % 10);
    if n < 10 {
      NoDigits();
      DigitsValueSnoc("", last);
      assert Digits(n) == "" + [last];
    } else {
      DigitsRoundTrip(n / 10);
      DigitsValueSnoc(Digits(n / 10), last);
    }
  }

  lemma NoDigits()
    ensures AllDigits("") && DigitsValue("") == 0
  {
  }

  lemma DigitIs(d: nat)
    requires d < 10
    ensures '0' <= "0123456789"[d] <= '9' && ("0123456789"[d] - '0') as int == d
  {
  }

  lemma DigitsValueSnoc(s: string, ch: char)
    requires AllDigits(s) && '0' <= ch <= '9'
    ensures AllDigits(s + [ch]) && DigitsValue(s + [ch]) == DigitsValue(s) * 10 + (ch - '0') as int
  {
    assert (s + [ch])[..|s|] == s;
  }

  /** A number reads as itself, with or without a plus sign, exactly if it fits 64 bits. */
  lemma DecimalParses(n: int)
    ensures ParseI64(Decimal(n)) == if IsI64(n) then Some(n) else None
    ensures 0 <= n ==> ParseI64("+" + Decimal(n)) == if IsI64(n) then Some(n) else None
  {
    hide Digits, DigitsValue;
    DigitsRoundTrip(Abs(n));
    var digits := Digits(Abs(n));
    assert '0' <= digits[0] <= '9';
    assert ("-" + digits)[1..] == digits && ("+" + digits)[1..] == digits;
  }

  // The translation.

  function ApplyField(field: string, values: seq<string>, plan: QueryPlan): QueryPlan
  {
    if field == "account_id" && |values| == 1 then plan.(accountId := Some(values[0]))
    else plan.(filters := plan.filters + [QueryFilter(field, values)])
  }

  predicate IsRange(op: BinaryOperator) { op.Gt? || op.GtEq? || op.Lt? || op.LtEq? }

  /** Half-open bounds: strict lower and inclusive upper bounds move by one, saturating. */
  function Narrow(op: BinaryOperator, v: int, plan: QueryPlan): QueryPlan
    requires IsRange(op)
  {
    match op
    case Gt => plan.(fromMs := Max(plan.fromMs, SatAdd64(v, 1)))
    case GtEq => plan.(fromMs := Max(plan.fromMs, v))
    case Lt => plan.(toMs := Min(plan.toMs, v))
    case LtEq => plan.(toMs := Min(plan.toMs, SatAdd64(v, 1)))
  }

  function ApplyRange(left: Expr, op: BinaryOperator, right: Expr, plan: QueryPlan): Result<QueryPlan>
    requires IsRange(op)
  {
    if !left.Identifier? then Err("range: not a column")
    else if left.name != "timestamp_ms" && left.name != "hour_start_ms" then Err("range: not a time")
    else match ExtractLiteral(right)
      case Err(m) => Err(m)
      case Ok(text) =>
        var v := ParseI64(text);
        if v.None? then Err("range: not an i64") else Ok(Narrow(op, v.value, plan))
  }

  function ApplyEq(left: Expr, right: Expr, plan: QueryPlan): Result<QueryPlan>
  {
    if !left.Identifier? then Err("=: not a column")
    else match ExtractLiteral(right)
      case Err(m) => Err(m)
      case Ok(text) => Ok(ApplyField(left.name, [text], plan))
  }

  function Literals(list: seq<Expr>): Result<seq<string>>
  {
    if list == [] then Ok([])
    else match Literals(list[..|list| - 1])
      case Err(m) => Err(m)
      case Ok(front) => match ExtractLiteral(list[|list| - 1])
        case Err(m) => Err(m)
        case Ok(text) => Ok(front + [text])
  }

  function Extract(expr: Expr, plan: QueryPlan): Result<QueryPlan>
    decreases expr
  {
    match expr
    case Binary(left, op, right) =>
      if op.And? then
        (match Extract(left, plan)
         case Err(m) => Err(m)
         case Ok(p) => Extract(right, p))
      else if op.Or? then Err("OR")
      else if op.Eq? then ApplyEq(left, right, plan)
      else if IsRange(op) then ApplyRange(left, op, right, plan)
      else Err("operator")
    case InList(column, list, negated) =>
      if negated then Err("NOT IN")
      else if !column.Identifier? then Err("IN: not a column")
      else
        (match Literals(list)
         case Err(m) => Err(m)
         case Ok(values) => Ok(ApplyField(column.name, values, plan)))
    case _ => Err("expression")
  }

  /** The plan a translation starts from. */
  function OpenPlan(source: QuerySource, groupBy: seq<string>, metrics: map<string, AggregationFunction>): QueryPlan
  {
    QueryPlan(source, None, I64_MIN, I64_MAX, [], groupBy, metrics)
  }

  // What a WHERE clause means.

  /** The text of any column, the time columns included. */
  function ColumnText(e: UsageEvent, field: string): Option<string>
  {
    if field == "timestamp_ms" then Some(Decimal(e.timestampMs))
    else if field == "hour_start_ms" then Some(Decimal(HourOf(e.timestampMs)))
    else FieldText(e, field)
  }

  function TimeColumn(e: UsageEvent, field: string): int
  {
    if field == "hour_start_ms" then HourOf(e.timestampMs) else e.timestampMs
  }

  predicate Compares(op: BinaryOperator, a: int, b: int)
    requires IsRange(op)
  {
    match op
    case Gt => a > b
    case GtEq => a >= b
    case Lt => a < b
    case LtEq => a <= b
  }

  /** The clauses the dialect allows. */
  predicate Supported(expr: Expr)
  {
    match expr
    case Binary(left, op, right) =>
      if op.And? then Supported(left) && Supported(right)
      else if op.Eq? then left.Identifier? && IsLiteral(right)
      else IsRange(op) && left.Identifier? && (left.name == "timestamp_ms" || left.name == "hour_start_ms")
           && IsLiteral(right) && ParseI64(right.text).Some?
    case InList(column, list, negated) =>
      !negated && column.Identifier? && forall i :: 0 <= i < |list| ==> IsLiteral(list[i])
    case _ => false
  }

  /** Event `e` satisfies a supported clause. */
  predicate Satisfies(expr: Expr, e: UsageEvent)
    requires Supported(expr)
  {
    match expr
    case Binary(left, op, right) =>
      if op.And? then Satisfies(left, e) && Satisfies(right, e)
      else if op.Eq? then ColumnText(e, left.name) == Some(right.text)
      else Compares(op, TimeColumn(e, left.name), ParseI64(right.text).value)
    case InList(column, list, _) =>
      exists i :: 0 <= i < |list| && ColumnText(e, column.name) == Some(list[i].text)
  }

  /** The accounts named by single-valued constraints, left to right. */
  function NamedAccounts(expr: Expr): seq<string>
    requires Supported(expr)
  {
    match expr
    case Binary(left, op, right) =>
      if op.And? then NamedAccounts(left) + NamedAccounts(right)
      else if op.Eq? && left.name == "account_id" then [right.text]
      else []
    case InList(column, list, _) =>
      if column.name == "account_id" && |list| == 1 then [list[0].text] else []
  }

  /** Time columns are only compared by ranges, and only on `timestamp_ms`. */
  predicate TimeByRangesOnly(expr: Expr)
    requires Supported(expr)
  {
    match expr
    case Binary(left, op, right) =>
      if op.And? then TimeByRangesOnly(left) && TimeByRangesOnly(right)
      else if op.Eq? then left.name != "timestamp_ms" && left.name != "hour_start_ms"
      else left.name == "timestamp_ms"
    case InList(column, _, _) => column.name != "timestamp_ms" && column.name != "hour_start_ms"
  }

  // The translator accepts exactly the supported clauses.

  lemma {:induction false} LiteralsAre(list: seq<Expr>)
    ensures Literals(list).Ok? <==> forall i :: 0 <= i < |list| ==> IsLiteral(list[i])
    ensures Literals(list).Ok? ==> |Literals(list).value| == |list|
    ensures Literals(list).Ok? ==> forall i :: 0 <= i < |list| ==> list[i].text == Literals(list).value[i]
  {
    if list != [] {
      LiteralsAre(list[..|list| - 1]);
    }
  }

  lemma {:induction false} AcceptedIffSupported(expr: Expr, plan: QueryPlan)
    ensures Extract(expr, plan).Ok? <==> Supported(expr)
    decreases expr
  {
    hide ParseI64, Narrow, ApplyField, Literals;
    match expr
    case Binary(left, op, right) =>
      if op.And? {
        AcceptedIffSupported(left, plan);
        if Extract(left, plan).Ok? {
          AcceptedIffSupported(right, Extract(left, plan).value);
        }
      }
    case InList(_, list, _) => LiteralsAre(list);
    case _ =>
  }

  // The translation means what the clause says.

  /** Everything a plan checks except the account. */
  predicate MatchesRest(plan: QueryPlan, e: UsageEvent)
  {
    plan.fromMs <= e.timestampMs < plan.toMs && forall f :: f in plan.filters ==> MatchesFilter(f, e)
  }

  predicate OfEach(accounts: seq<string>, e: UsageEvent)
  {
    forall a :: a in accounts ==> e.accountId == a
  }

  lemma OfEachBoth(a: seq<string>, b: seq<string>, e: UsageEvent)
    ensures OfEach(a + b, e) <==> OfEach(a, e) && OfEach(b, e)
  {
    assert forall x :: x in a + b <==> x in a || x in b;
  }

  lemma FieldMeaning(field: string, values: seq<string>, plan: QueryPlan, e: UsageEvent)
    requires field != "timestamp_ms" && field != "hour_start_ms"
    ensures var p := ApplyField(field, values, plan);
            var named := if field == "account_id" && |values| == 1 then [values[0]] else [];
            && (MatchesRest(p, e) && OfEach(named, e)
                <==> MatchesRest(plan, e) && exists i :: 0 <= i < |values| && ColumnText(e, field) == Some(values[i]))
            && p.accountId == (if named == [] then plan.accountId else Some(values[0]))
  {
    if field == "account_id" && |values| == 1 {
      assert values[0] in [values[0]];
      assert OfEach([values[0]], e) <==> e.accountId == values[0];
      assert ColumnText(e, field) == Some(e.accountId);
    } else {
      var f := QueryFilter(field, values);
      var p := ApplyField(field, values, plan);
      assert forall g :: g in p.filters <==> g in plan.filters || g == f;
      assert OfEach([], e);
      assert MatchesFilter(f, e) <==> exists i :: 0 <= i < |values| && ColumnText(e, field) == Some(values[i]);
    }
  }

  /** Saturation never shows for times below the maximum. */
  lemma RangeMeaning(op: BinaryOperator, v: int, plan: QueryPlan, e: UsageEvent)
    requires IsRange(op) && IsI64(v) && e.timestampMs < I64_MAX
    ensures MatchesRest(Narrow(op, v, plan), e) <==> MatchesRest(plan, e) && Compares(op, e.timestampMs, v)
    ensures Narrow(op, v, plan).accountId == plan.accountId
  {
  }

  function LastOr(accounts: seq<string>, otherwise: Option<string>): Option<string>
  {
    if accounts == [] then otherwise else Some(accounts[|accounts| - 1])
  }

  lemma {:induction false} ExtractMeaning(expr: Expr, plan: QueryPlan, e: UsageEvent)
    requires Supported(expr) && TimeByRangesOnly(expr) && e.timestampMs < I64_MAX
    ensures Extract(expr, plan).Ok?
    ensures var p := Extract(expr, plan).value;
            && (MatchesRest(p, e) && OfEach(NamedAccounts(expr), e) <==> MatchesRest(plan, e) && Satisfies(expr, e))
            && p.accountId == LastOr(NamedAccounts(expr), plan.accountId)
    decreases expr
  {
    hide MatchesRest, OfEach, ColumnText, ApplyField, Narrow, ParseI64, Literals;
    match expr
    case Binary(left, op, right) =>
      if op.And? {
        ExtractMeaning(left, plan, e);
        ExtractMeaning(right, Extract(left, plan).value, e);
        OfEachBoth(NamedAccounts(left), NamedAccounts(right), e);
      } else if op.Eq? {
        FieldMeaning(left.name, [right.text], plan, e);
        assert ColumnText(e, left.name) == Some([right.text][0]) <==> ColumnText(e, left.name) == Some(right.text);
      } else {
        RangeMeaning(op, ParseI64(right.text).value, plan, e);
        assert OfEach([], e) by { NoneNamed(e); }
      }
    case InList(column, list, _) =>
      LiteralsAre(list);
      FieldMeaning(column.name, Literals(list).value, plan, e);
  }

  lemma NoneNamed(e: UsageEvent)
    ensures OfEach([], e)
  {
  }

  predicate AccountsAgree(expr: Expr)
    requires Supported(expr)
  {
    forall a, b :: a in NamedAccounts(expr) && b in NamedAccounts(expr) ==> a == b
  }

  /** What the plan of a clause accepts, for every clause: it checks the last named account only. */
  lemma PlanAccepts(expr: Expr, plan: QueryPlan, e: UsageEvent)
    requires Supported(expr) && TimeByRangesOnly(expr) && e.timestampMs < I64_MAX && IsI64(e.timestampMs)
    requires plan == OpenPlan(plan.source, plan.groupBy, plan.metrics)
    ensures Extract(expr, plan).Ok?
    ensures Satisfies(expr, e) <==> Matches(Extract(expr, plan).value, e) && OfEach(NamedAccounts(expr), e)
  {
    hide Extract, Satisfies, NamedAccounts;
    ExtractMeaning(expr, plan, e);
    var named := NamedAccounts(expr);
    assert named != [] ==> named[|named| - 1] in named;
  }

  /** The WHERE translation preserves meaning: unless two different accounts are required at once, the
      plan accepts exactly the events that satisfy the clause. */
  lemma WherePreservesMeaning(expr: Expr, plan: QueryPlan, e: UsageEvent)
    requires Supported(expr) && TimeByRangesOnly(expr) && AccountsAgree(expr)
    requires plan == OpenPlan(plan.source, plan.groupBy, plan.metrics)
    requires IsI64(e.timestampMs) && e.timestampMs < I64_MAX
    ensures Extract(expr, plan).Ok?
    ensures Matches(Extract(expr, plan).value, e) <==> Satisfies(expr, e)
  {
    hide Extract, Satisfies, NamedAccounts, MatchesRest;
    ExtractMeaning(expr, plan, e);
    PlanAccepts(expr, plan, e);
    var named := NamedAccounts(expr);
    assert named != [] ==> named[|named| - 1] in named;
  }

  /** Two accounts: the plan keeps the events of the second, which cannot satisfy the clause. */
  lemma LastAccountWins(plan: QueryPlan, e: UsageEvent)
    requires plan == OpenPlan(plan.source, plan.groupBy, plan.metrics)
    requires e.accountId == "b" && IsI64(e.timestampMs) && e.timestampMs < I64_MAX
    ensures var column := Identifier("account_id");
            var expr := Binary(Binary(column, Eq, Quoted("a")), And, Binary(column, Eq, Quoted("b")));
            && Extract(expr, plan).Ok? && Matches(Extract(expr, plan).value, e)
            && Supported(expr) && !Satisfies(expr, e)
  {
    var column := Identifier("account_id");
    var first, second := Binary(column, Eq, Quoted("a")), Binary(column, Eq, Quoted("b"));
    assert Extract(first, plan) == Ok(plan.(accountId := Some("a")));
    assert Extract(second, plan.(accountId := Some("a"))) == Ok(plan.(accountId := Some("b")));
    assert ColumnText(e, "account_id") == Some("b");
    assert "a"[0] != "b"[0];
    assert !Satisfies(first, e);
  }

  /** The translator's code, which edits one plan in place. */
  class WhereTranslator {
    var plan: QueryPlan

    constructor (plan: QueryPlan)
      ensures this.plan == plan
    {
      this.plan := plan;
    }

    method ExtractFilters(expr: Expr) returns (r: Result<()>)
      modifies this
      ensures match Extract(expr, old(plan))
              case Ok(p) => r.Ok? && plan == p
              case Err(m) => r == Err(m)
      decreases expr
    {
      match expr {
        case Binary(left, op, right) =>
          match op {
            case And =>
              r := ExtractFilters(left);
              if r.Err? { return; }
              r := ExtractFilters(right);
            case Or => r := Err("OR");
            case Eq => r := AddEquality(left, right);
            case OtherOperator => r := Err("operator");
            case _ => r := AddRange(left, op, right);
          }
        case InList(column, list, negated) =>
          if negated { return Err("NOT IN"); }
          if !column.Identifier? { return Err("IN: not a column"); }
          var values: seq<string> := [];
          for i := 0 to |list|
            invariant plan == old(plan)
            invariant Literals(list[..i]) == Ok(values)
          {
            assert list[..i + 1][..i] == list[..i];
            var literal := ExtractLiteral(list[i]);
            if literal.Err? {
              LiteralFails(list, i);
              return Err(literal.message);
            }
            values := values + [literal.value];
          }
          assert list[..|list|] == list;
          AddField(column.name, values);
          r := Ok(());
        case _ => r := Err("expression");
      }
    }

    method AddEquality(left: Expr, right: Expr) returns (r: Result<()>)
      modifies this
      ensures match ApplyEq(left, right, old(plan))
              case Ok(p) => r.Ok? && plan == p
              case Err(m) => r == Err(m)
    {
      if !left.Identifier? { return Err("=: not a column"); }
      var literal := ExtractLiteral(right);
      if literal.Err? { return Err(literal.message); }
      AddField(left.name, [literal.value]);
      r := Ok(());
    }

    method AddField(field: string, values: seq<string>)
      modifies this
      ensures plan == ApplyField(field, values, old(plan))
    {
      if field == "account_id" && |values| == 1 {
        plan := plan.(accountId := Some(values[0]));
      } else {
        plan := plan.(filters := plan.filters + [QueryFilter(field, values)]);
      }
    }

    method AddRange(left: Expr, op: BinaryOperator, right: Expr) returns (r: Result<()>)
      requires IsRange(op)
      modifies this
      ensures match ApplyRange(left, op, right, old(plan))
              case Ok(p) => r.Ok? && plan == p
              case Err(m) => r == Err(m)
    {
      hide ParseI64;
      if !left.Identifier? { return Err("range: not a column"); }
      if left.name != "timestamp_ms" && left.name != "hour_start_ms" {
        return Err("range: not a time");
      }
      var literal := ExtractLiteral(right);
      if literal.Err? { return Err(literal.message); }
      var v := ParseI64(literal.value);
      if v.None? { return Err("range: not an i64"); }
      match op {
        case Gt => plan := plan.(fromMs := Max(plan.fromMs, SatAdd64(v.value, 1)));
        case GtEq => plan := plan.(fromMs := Max(plan.fromMs, v.value));
        case Lt => plan := plan.(toMs := Min(plan.toMs, v.value));
        case LtEq => plan := plan.(toMs := Min(plan.toMs, SatAdd64(v.value, 1)));
      }
      r := Ok(());
    }
  }

  /** The first element that is not a literal decides the error. */
  lemma {:induction false} LiteralFails(list: seq<Expr>, i: nat)
    requires i < |list| && Literals(list[..i]).Ok? && ExtractLiteral(list[i]).Err?
    ensures Literals(list) == Err(ExtractLiteral(list[i]).message)
    decreases |list|
  {
    var front := list[..|list| - 1];
    if i == |list| - 1 {
      assert front == list[..i];
    } else {
      assert front[..i] == list[..i];
      LiteralFails(front, i);
    }
  }
}
