/**
 * A recursive-descent recognizer for the query grammar over tokens. Its
 * contract makes derivability decidable: `Parse(ts)` is `Some(s)` exactly when
 * `s` is a valid statement that derives `ts`, so a token sequence is derivable
 * exactly when it parses, and its derivation is unique.
 */
module QueryParser {
  import opened Wrappers
  import opened QueryGrammar

  /** A parsed node and the tokens after it. */
  datatype Parsed<T> = Parsed(node: T, rest: seq<Token>)

  /** The head of `ts`, if any, is not `t`. */
  predicate NotLedBy(ts: seq<Token>, t: Token)
  {
    ts == [] || ts[0] != t
  }

  /** `ts` starts with one of the keywords `ks`. */
  predicate LedBy(ts: seq<Token>, ks: set<Keyword>)
  {
    |ts| > 0 && ts[0].Kw? && ts[0].keyword in ks
  }

  /** `ts` is a head, a separator, a tail and a rest, once the separated part is split off. */
  lemma {:induction false} Regroup<T>(ts: seq<T>, head: seq<T>, mid: seq<T>, sep: T, tail: seq<T>, rest: seq<T>)
    requires ts == head + mid
    requires |mid| > 0 && mid[0] == sep && mid[1..] == tail + rest
    ensures ts == head + [sep] + tail + rest
  {
    assert mid == [sep] + mid[1..];
  }

  /** The converse split, for the completeness proofs. */
  lemma Ungroup<T>(head: seq<T>, sep: T, tail: seq<T>, rest: seq<T>)
    ensures head + [sep] + tail + rest == head + ([sep] + tail + rest)
    ensures ([sep] + tail + rest)[1..] == tail + rest
  {
  }

  function AggregateOf(k: Keyword): (r: Option<AggregateFunction>)
    ensures r.Some? ==> AggregateKeyword(r.value) == k
    ensures forall f :: AggregateKeyword(f) == k ==> r == Some(f)
  {
    match k
    case COUNT => Some(CountFn) case SUM => Some(SumFn) case AVG => Some(AvgFn)
    case MIN => Some(MinFn) case MAX => Some(MaxFn)
    case _ => None
  }

  // ---------- Select list ----------

  function ParseSelectExpr(ts: seq<Token>): (r: Option<Parsed<SelectExpr>>)
    ensures r.Some? ==> SelectExprTokens(r.value.node) + r.value.rest == ts && |r.value.rest| < |ts|
  {
    if |ts| == 0 then None
    else match ts[0]
      case Col(c) => Some(Parsed(ColExpr(c), ts[1..]))
      case Kw(k) =>
        (match AggregateOf(k)
         case None => None
         case Some(f) =>
           if |ts| >= 3 && ts[1] == LParen && ts[2] == RParen then
             assert ts == ts[..3] + ts[3..];
             Some(Parsed(AggExpr(Aggregation(f, None)), ts[3..]))
           else if |ts| >= 4 && ts[1] == LParen && ts[2].Col? && ts[3] == RParen then
             assert ts == ts[..4] + ts[4..];
             Some(Parsed(AggExpr(Aggregation(f, Some(AggregateArgument(false, ts[2].column)))), ts[4..]))
           else if |ts| >= 5 && ts[1] == LParen && ts[2] == Kw(DISTINCT) && ts[3].Col? && ts[4] == RParen then
             assert ts == ts[..5] + ts[5..];
             Some(Parsed(AggExpr(Aggregation(f, Some(AggregateArgument(true, ts[3].column)))), ts[5..]))
           else None)
      case _ => None
  }

  function ParseSelectList(ts: seq<Token>): (r: Option<Parsed<seq<SelectExpr>>>)
    ensures r.Some? ==> |r.value.node| > 0 && SelectListTokens(r.value.node) + r.value.rest == ts && |r.value.rest| < |ts|
    decreases |ts|
  {
    match ParseSelectExpr(ts)
    case None => None
    case Some(first) =>
      if |first.rest| > 0 && first.rest[0] == Comma then
        match ParseSelectList(first.rest[1..])
        case None => None
        case Some(more) =>
          SelectListCons(first.node, more.node);
          Regroup(ts, SelectExprTokens(first.node), first.rest, Comma, SelectListTokens(more.node), more.rest);
          Some(Parsed([first.node] + more.node, more.rest))
      else Some(Parsed([first.node], first.rest))
  }

  lemma {:induction false} SelectListCons(e: SelectExpr, es: seq<SelectExpr>)
    requires |es| > 0
    ensures SelectListTokens([e] + es) == SelectExprTokens(e) + [Comma] + SelectListTokens(es)
  {
    assert ([e] + es)[1..] == es;
  }

  lemma {:induction false} SelectExprComplete(e: SelectExpr, rest: seq<Token>)
    ensures ParseSelectExpr(SelectExprTokens(e) + rest) == Some(Parsed(e, rest))
  {
    var ts := SelectExprTokens(e) + rest;
    match e
    case ColExpr(c) =>
      assert ts[1..] == rest;
    case AggExpr(a) =>
      assert AggregateOf(AggregateKeyword(a.func)) == Some(a.func);
      match a.argument
      case None => assert ts[3..] == rest;
      case Some(arg) =>
        if arg.distinct { assert ts[5..] == rest; } else { assert ts[4..] == rest; }
  }

  lemma {:induction false} SelectListComplete(es: seq<SelectExpr>, rest: seq<Token>)
    requires |es| > 0 && NotLedBy(rest, Comma)
    ensures ParseSelectList(SelectListTokens(es) + rest) == Some(Parsed(es, rest))
  {
    if |es| == 1 {
      assert es == [es[0]];
      SelectExprComplete(es[0], rest);
    } else {
      var tail := [Comma] + SelectListTokens(es[1..]) + rest;
      assert [es[0]] + es[1..] == es;
      SelectListCons(es[0], es[1..]);
      Ungroup(SelectExprTokens(es[0]), Comma, SelectListTokens(es[1..]), rest);
      SelectExprComplete(es[0], tail);
      SelectListComplete(es[1..], rest);
    }
  }

  // ---------- Conditions ----------

  function ParseCondition(ts: seq<Token>): (r: Option<Parsed<Condition>>)
    ensures r.Some? ==> ValidCondition(r.value.node) && ConditionTokens(r.value.node) + r.value.rest == ts && |r.value.rest| < |ts|
  {
    if |ts| < 3 || !ts[0].Col? || !ts[1].Cmp? then None
    else
      assert ts == [ts[0], ts[1], ts[2]] + ts[3..];
      var op := ts[1].comparator;
      match (ts[0].column, ts[2])
      case (YearOfBirth, YearLit(y)) => if IsYear(y) then Some(Parsed(YearOfBirthCondition(op, y), ts[3..])) else None
      case (Gender, GenderLit(g)) => Some(Parsed(GenderCondition(op, g), ts[3..]))
      case (Ethnicity, EthnicityLit(e)) => Some(Parsed(EthnicityCondition(op, e), ts[3..]))
      case (ChildsFirstName, NameLit(n)) => if IsName(n) then Some(Parsed(FirstNameCondition(op, n), ts[3..])) else None
      case (CountColumn, NumberLit(n)) => if IsNumber(n) then Some(Parsed(CountCondition(op, n), ts[3..])) else None
      case (Rank, NumberLit(n)) => if IsNumber(n) then Some(Parsed(RankCondition(op, n), ts[3..])) else None
      case _ => None
  }

  function ParseConditionList(ts: seq<Token>): (r: Option<Parsed<seq<Condition>>>)
    ensures r.Some? ==>
      && |r.value.node| > 0
      && (forall i :: 0 <= i < |r.value.node| ==> ValidCondition(r.value.node[i]))
      && ConditionListTokens(r.value.node) + r.value.rest == ts
      && |r.value.rest| < |ts|
    decreases |ts|
  {
    match ParseCondition(ts)
    case None => None
    case Some(first) =>
      if |first.rest| > 0 && first.rest[0] == Kw(AND) then
        match ParseConditionList(first.rest[1..])
        case None => None
        case Some(more) =>
          ConditionListCons(first.node, more.node);
          Regroup(ts, ConditionTokens(first.node), first.rest, Kw(AND), ConditionListTokens(more.node), more.rest);
          var cs := [first.node] + more.node;
          assert forall i :: 0 < i < |cs| ==> cs[i] == more.node[i - 1];
          Some(Parsed(cs, more.rest))
      else Some(Parsed([first.node], first.rest))
  }

  lemma {:induction false} ConditionListCons(c: Condition, cs: seq<Condition>)
    requires |cs| > 0
    ensures ConditionListTokens([c] + cs) == ConditionTokens(c) + [Kw(AND)] + ConditionListTokens(cs)
  {
    assert ([c] + cs)[1..] == cs;
  }

  lemma {:induction false} ConditionComplete(c: Condition, rest: seq<Token>)
    requires ValidCondition(c)
    ensures ParseCondition(ConditionTokens(c) + rest) == Some(Parsed(c, rest))
  {
    assert (ConditionTokens(c) + rest)[3..] == rest;
  }

  lemma {:induction false} ConditionListComplete(cs: seq<Condition>, rest: seq<Token>)
    requires |cs| > 0 && forall i :: 0 <= i < |cs| ==> ValidCondition(cs[i])
    requires NotLedBy(rest, Kw(AND))
    ensures ParseConditionList(ConditionListTokens(cs) + rest) == Some(Parsed(cs, rest))
  {
    if |cs| == 1 {
      assert cs == [cs[0]];
      ConditionComplete(cs[0], rest);
    } else {
      var tail := [Kw(AND)] + ConditionListTokens(cs[1..]) + rest;
      assert [cs[0]] + cs[1..] == cs;
      ConditionListCons(cs[0], cs[1..]);
      Ungroup(ConditionTokens(cs[0]), Kw(AND), ConditionListTokens(cs[1..]), rest);
      ConditionComplete(cs[0], tail);
      assert forall i :: 0 <= i < |cs[1..]| ==> cs[1..][i] == cs[i + 1];
      ConditionListComplete(cs[1..], rest);
    }
  }

  // ---------- GROUP BY columns ----------

  function ParseColumnList(ts: seq<Token>): (r: Option<Parsed<seq<ColumnName>>>)
    ensures r.Some? ==> |r.value.node| > 0 && ColumnListTokens(r.value.node) + r.value.rest == ts && |r.value.rest| < |ts|
    decreases |ts|
  {
    if |ts| == 0 || !ts[0].Col? then None
    else
      assert ts == [ts[0]] + ts[1..];
      var rest := ts[1..];
      if |rest| > 0 && rest[0] == Comma then
        match ParseColumnList(rest[1..])
        case None => None
        case Some(more) =>
          ColumnListCons(ts[0].column, more.node);
          Regroup(ts, [ts[0]], rest, Comma, ColumnListTokens(more.node), more.rest);
          Some(Parsed([ts[0].column] + more.node, more.rest))
      else Some(Parsed([ts[0].column], rest))
  }

  lemma {:induction false} ColumnListCons(c: ColumnName, cs: seq<ColumnName>)
    requires |cs| > 0
    ensures ColumnListTokens([c] + cs) == [Col(c)] + [Comma] + ColumnListTokens(cs)
  {
    assert ([c] + cs)[1..] == cs;
  }

  lemma {:induction false} ColumnListComplete(cs: seq<ColumnName>, rest: seq<Token>)
    requires |cs| > 0 && NotLedBy(rest, Comma)
    ensures ParseColumnList(ColumnListTokens(cs) + rest) == Some(Parsed(cs, rest))
  {
    var ts := ColumnListTokens(cs) + rest;
    if |cs| == 1 {
      assert cs == [cs[0]];
      assert ts[1..] == rest;
    } else {
      assert [cs[0]] + cs[1..] == cs;
      ColumnListCons(cs[0], cs[1..]);
      Ungroup([Col(cs[0])], Comma, ColumnListTokens(cs[1..]), rest);
      assert ts[1..] == [Comma] + ColumnListTokens(cs[1..]) + rest;
      ColumnListComplete(cs[1..], rest);
    }
  }

  // ---------- ORDER BY items ----------

  function ParseOrderExpr(ts: seq<Token>): (r: Option<Parsed<OrderExpr>>)
    ensures r.Some? ==> OrderExprTokens(r.value.node) + r.value.rest == ts && |r.value.rest| < |ts|
  {
    if |ts| == 0 || !ts[0].Col? then None
    else if |ts| > 1 && ts[1] == Kw(ASC) then
      assert ts == [ts[0], ts[1]] + ts[2..];
      Some(Parsed(OrderExpr(ts[0].column, Some(Asc)), ts[2..]))
    else if |ts| > 1 && ts[1] == Kw(DESC) then
      assert ts == [ts[0], ts[1]] + ts[2..];
      Some(Parsed(OrderExpr(ts[0].column, Some(Desc)), ts[2..]))
    else
      assert ts == [ts[0]] + ts[1..];
      Some(Parsed(OrderExpr(ts[0].column, None), ts[1..]))
  }

  function ParseOrderList(ts: seq<Token>): (r: Option<Parsed<seq<OrderExpr>>>)
    ensures r.Some? ==> |r.value.node| > 0 && OrderListTokens(r.value.node) + r.value.rest == ts && |r.value.rest| < |ts|
    decreases |ts|
  {
    match ParseOrderExpr(ts)
    case None => None
    case Some(first) =>
      if |first.rest| > 0 && first.rest[0] == Comma then
        match ParseOrderList(first.rest[1..])
        case None => None
        case Some(more) =>
          OrderListCons(first.node, more.node);
          Regroup(ts, OrderExprTokens(first.node), first.rest, Comma, OrderListTokens(more.node), more.rest);
          Some(Parsed([first.node] + more.node, more.rest))
      else Some(Parsed([first.node], first.rest))
  }

  lemma {:induction false} OrderListCons(o: OrderExpr, os: seq<OrderExpr>)
    requires |os| > 0
    ensures OrderListTokens([o] + os) == OrderExprTokens(o) + [Comma] + OrderListTokens(os)
  {
    assert ([o] + os)[1..] == os;
  }

  lemma {:induction false} OrderExprComplete(o: OrderExpr, rest: seq<Token>)
    requires NotLedBy(rest, Kw(ASC)) && NotLedBy(rest, Kw(DESC))
    ensures ParseOrderExpr(OrderExprTokens(o) + rest) == Some(Parsed(o, rest))
  {
    var ts := OrderExprTokens(o) + rest;
    if o.direction.Some? { assert ts[2..] == rest; } else { assert ts[1..] == rest; }
  }

  lemma {:induction false} OrderListComplete(os: seq<OrderExpr>, rest: seq<Token>)
    requires |os| > 0 && NotLedBy(rest, Comma) && NotLedBy(rest, Kw(ASC)) && NotLedBy(rest, Kw(DESC))
    ensures ParseOrderList(OrderListTokens(os) + rest) == Some(Parsed(os, rest))
  {
    if |os| == 1 {
      assert os == [os[0]];
      OrderExprComplete(os[0], rest);
    } else {
      var tail := [Comma] + OrderListTokens(os[1..]) + rest;
      assert [os[0]] + os[1..] == os;
      OrderListCons(os[0], os[1..]);
      Ungroup(OrderExprTokens(os[0]), Comma, OrderListTokens(os[1..]), rest);
      OrderExprComplete(os[0], tail);
      OrderListComplete(os[1..], rest);
    }
  }

  // ---------- Optional clauses ----------

  /** A sequence that starts with `p` and continues with `body + rest` is `(p + body) + rest`. */
  lemma Prefixed<T>(ts: seq<T>, p: seq<T>, body: seq<T>, rest: seq<T>)
    requires |p| <= |ts| && ts[..|p|] == p && body + rest == ts[|p|..]
    ensures (p + body) + rest == ts
  {
    assert ts == p + ts[|p|..];
  }

  /** The converse: `(p + body) + rest` starts with `p`, and `body + rest` follows it. */
  lemma Unprefixed<T>(p: seq<T>, body: seq<T>, rest: seq<T>)
    ensures var ts := (p + body) + rest; |p| <= |ts| && ts[..|p|] == p && ts[|p|..] == body + rest
  {
  }

  function ParseWhere(ts: seq<Token>): (r: Option<Parsed<seq<Condition>>>)
    ensures r.Some? ==>
      && (forall i :: 0 <= i < |r.value.node| ==> ValidCondition(r.value.node[i]))
      && WhereTokens(r.value.node) + r.value.rest == ts
  {
    if |ts| > 0 && ts[0] == Kw(WHERE) then
      match ParseConditionList(ts[1..])
      case None => None
      case Some(c) =>
        assert ts[..1] == [Kw(WHERE)];
        Prefixed(ts, [Kw(WHERE)], ConditionListTokens(c.node), c.rest);
        Some(c)
    else Some(Parsed([], ts))
  }

  function ParseGroupBy(ts: seq<Token>): (r: Option<Parsed<seq<ColumnName>>>)
    ensures r.Some? ==> GroupByTokens(r.value.node) + r.value.rest == ts
  {
    if |ts| > 0 && ts[0] == Kw(GROUP) then
      if |ts| > 1 && ts[1] == Kw(BY) then
        match ParseColumnList(ts[2..])
        case None => None
        case Some(c) =>
          assert ts[..2] == [Kw(GROUP), Kw(BY)];
          Prefixed(ts, [Kw(GROUP), Kw(BY)], ColumnListTokens(c.node), c.rest);
          Some(c)
      else None
    else Some(Parsed([], ts))
  }

  function ParseOrderBy(ts: seq<Token>): (r: Option<Parsed<seq<OrderExpr>>>)
    ensures r.Some? ==> OrderByTokens(r.value.node) + r.value.rest == ts
  {
    if |ts| > 0 && ts[0] == Kw(ORDER) then
      if |ts| > 1 && ts[1] == Kw(BY) then
        match ParseOrderList(ts[2..])
        case None => None
        case Some(o) =>
          assert ts[..2] == [Kw(ORDER), Kw(BY)];
          Prefixed(ts, [Kw(ORDER), Kw(BY)], OrderListTokens(o.node), o.rest);
          Some(o)
      else None
    else Some(Parsed([], ts))
  }

  function ParseLimit(ts: seq<Token>): (r: Option<Parsed<Option<string>>>)
    ensures r.Some? ==> (r.value.node.Some? ==> IsNumber(r.value.node.value)) && LimitTokens(r.value.node) + r.value.rest == ts
  {
    if |ts| > 0 && ts[0] == Kw(LIMIT) then
      if |ts| > 1 && ts[1].NumberLit? && IsNumber(ts[1].number) then
        assert ts[..2] == [Kw(LIMIT), ts[1]];
        Prefixed(ts, [Kw(LIMIT), ts[1]], [], ts[2..]);
        Some(Parsed(Some(ts[1].number), ts[2..]))
      else None
    else Some(Parsed(None, ts))
  }

  lemma {:induction false} WhereComplete(cs: seq<Condition>, rest: seq<Token>)
    requires forall i :: 0 <= i < |cs| ==> ValidCondition(cs[i])
    requires LedBy(rest, {GROUP, ORDER, LIMIT, FORMAT})
    ensures ParseWhere(WhereTokens(cs) + rest) == Some(Parsed(cs, rest))
  {
    if cs != [] {
      var ts := WhereTokens(cs) + rest;
      Unprefixed([Kw(WHERE)], ConditionListTokens(cs), rest);
      assert ts[0] == ts[..1][0] == Kw(WHERE);
      assert NotLedBy(rest, Kw(AND));
      ConditionListComplete(cs, rest);
    } else {
      assert WhereTokens(cs) + rest == rest;
    }
  }

  lemma {:induction false} GroupByComplete(cs: seq<ColumnName>, rest: seq<Token>)
    requires LedBy(rest, {ORDER, LIMIT, FORMAT})
    ensures ParseGroupBy(GroupByTokens(cs) + rest) == Some(Parsed(cs, rest))
  {
    if cs != [] {
      var ts := GroupByTokens(cs) + rest;
      Unprefixed([Kw(GROUP), Kw(BY)], ColumnListTokens(cs), rest);
      assert ts[0] == ts[..2][0] == Kw(GROUP) && ts[1] == ts[..2][1] == Kw(BY);
      assert NotLedBy(rest, Comma);
      ColumnListComplete(cs, rest);
    } else {
      assert GroupByTokens(cs) + rest == rest;
    }
  }

  lemma {:induction false} OrderByComplete(os: seq<OrderExpr>, rest: seq<Token>)
    requires LedBy(rest, {LIMIT, FORMAT})
    ensures ParseOrderBy(OrderByTokens(os) + rest) == Some(Parsed(os, rest))
  {
    if os != [] {
      var ts := OrderByTokens(os) + rest;
      Unprefixed([Kw(ORDER), Kw(BY)], OrderListTokens(os), rest);
      assert ts[0] == ts[..2][0] == Kw(ORDER) && ts[1] == ts[..2][1] == Kw(BY);
      assert NotLedBy(rest, Comma) && NotLedBy(rest, Kw(ASC)) && NotLedBy(rest, Kw(DESC));
      OrderListComplete(os, rest);
    } else {
      assert OrderByTokens(os) + rest == rest;
    }
  }

  lemma {:induction false} LimitComplete(limit: Option<string>, rest: seq<Token>)
    requires limit.Some? ==> IsNumber(limit.value)
    requires LedBy(rest, {FORMAT})
    ensures ParseLimit(LimitTokens(limit) + rest) == Some(Parsed(limit, rest))
  {
    if limit.Some? {
      var ts := LimitTokens(limit) + rest;
      Unprefixed([Kw(LIMIT), NumberLit(limit.value)], [], rest);
      assert ts[0] == ts[..2][0] == Kw(LIMIT) && ts[1] == ts[..2][1] == NumberLit(limit.value);
    } else {
      assert LimitTokens(limit) + rest == rest;
    }
  }

  // ---------- Statements ----------

  const Trailer: seq<Token> := [Kw(FORMAT), FormatType]

  /** `(LIMIT NUMBER)? FORMAT FORMAT_TYPE`, completing a statement whose other parts are parsed. */
  function ParseLimitStage(select: seq<SelectExpr>, conditions: seq<Condition>, groupBy: seq<ColumnName>,
                           orderBy: seq<OrderExpr>, ts: seq<Token>): (r: Option<SelectStmt>)
    ensures r.Some? ==>
      && r.value == SelectStmt(select, conditions, groupBy, orderBy, r.value.limit)
      && (r.value.limit.Some? ==> IsNumber(r.value.limit.value))
      && LimitTokens(r.value.limit) + Trailer == ts
  {
    match ParseLimit(ts)
    case None => None
    case Some(l) => if l.rest == Trailer then Some(SelectStmt(select, conditions, groupBy, orderBy, l.node)) else None
  }

  /** `(ORDER BY order_by_clause)?` and what follows it. */
  function ParseOrderStage(select: seq<SelectExpr>, conditions: seq<Condition>, groupBy: seq<ColumnName>,
                           ts: seq<Token>): (r: Option<SelectStmt>)
    ensures r.Some? ==>
      && r.value.select == select && r.value.conditions == conditions && r.value.groupBy == groupBy
      && (r.value.limit.Some? ==> IsNumber(r.value.limit.value))
      && OrderByTokens(r.value.orderBy) + (LimitTokens(r.value.limit) + Trailer) == ts
  {
    match ParseOrderBy(ts)
    case None => None
    case Some(o) => ParseLimitStage(select, conditions, groupBy, o.node, o.rest)
  }

  /** `(GROUP BY group_by_clause)?` and what follows it. */
  function ParseGroupStage(select: seq<SelectExpr>, conditions: seq<Condition>, ts: seq<Token>): (r: Option<SelectStmt>)
    ensures r.Some? ==>
      && r.value.select == select && r.value.conditions == conditions
      && (r.value.limit.Some? ==> IsNumber(r.value.limit.value))
      && GroupByTokens(r.value.groupBy) + (OrderByTokens(r.value.orderBy) + (LimitTokens(r.value.limit) + Trailer)) == ts
  {
    match ParseGroupBy(ts)
    case None => None
    case Some(g) => ParseOrderStage(select, conditions, g.node, g.rest)
  }

  /** `(WHERE where_clause)?` and what follows it: everything after `FROM baby_names`. */
  function ParseWhereStage(select: seq<SelectExpr>, ts: seq<Token>): (r: Option<SelectStmt>)
    ensures r.Some? ==>
      && r.value.select == select
      && (forall i :: 0 <= i < |r.value.conditions| ==> ValidCondition(r.value.conditions[i]))
      && (r.value.limit.Some? ==> IsNumber(r.value.limit.value))
      && ClauseTokens(r.value) == ts
  {
    match ParseWhere(ts)
    case None => None
    case Some(w) => ParseGroupStage(select, w.node, w.rest)
  }

  /** Recognizes `select_stmt`; the tokens must end exactly after `FORMAT CSVWithNames`. */
  function Parse(ts: seq<Token>): (r: Option<SelectStmt>)
    ensures r.Some? ==> ValidStmt(r.value) && Serialize(r.value) == ts
  {
    if |ts| == 0 || ts[0] != Kw(SELECT) then None
    else
      match ParseSelectList(ts[1..])
      case None => None
      case Some(sel) =>
        if |sel.rest| < 2 || sel.rest[0] != Kw(FROM) || sel.rest[1] != TableName then None
        else
          assert sel.rest == [Kw(FROM), TableName] + sel.rest[2..];
          assert ts == [Kw(SELECT)] + ts[1..];
          ParseWhereStage(sel.node, sel.rest[2..])
  }

  /** A token sequence the grammar derives from `select_stmt`. */
  ghost predicate Derivable(ts: seq<Token>)
  {
    exists s :: ValidStmt(s) && Serialize(s) == ts
  }

  lemma ClauseTailsLed(s: SelectStmt)
    ensures LedBy(GroupByTokens(s.groupBy) + (OrderByTokens(s.orderBy) + (LimitTokens(s.limit) + Trailer)), {GROUP, ORDER, LIMIT, FORMAT})
    ensures LedBy(OrderByTokens(s.orderBy) + (LimitTokens(s.limit) + Trailer), {ORDER, LIMIT, FORMAT})
    ensures LedBy(LimitTokens(s.limit) + Trailer, {LIMIT, FORMAT})
  {
  }

  lemma {:induction false} WhereStageComplete(s: SelectStmt)
    requires ValidStmt(s)
    ensures ParseWhereStage(s.select, ClauseTokens(s)) == Some(s)
  {
    var afterOrder := LimitTokens(s.limit) + Trailer;
    var afterGroup := OrderByTokens(s.orderBy) + afterOrder;
    var afterWhere := GroupByTokens(s.groupBy) + afterGroup;
    ClauseTailsLed(s);
    WhereComplete(s.conditions, afterWhere);
    GroupByComplete(s.groupBy, afterGroup);
    OrderByComplete(s.orderBy, afterOrder);
    LimitComplete(s.limit, Trailer);
  }

  /** Every valid statement parses back from the tokens it derives. */
  lemma {:induction false} ParseComplete(s: SelectStmt)
    requires ValidStmt(s)
    ensures Parse(Serialize(s)) == Some(s)
  {
    var ts := Serialize(s);
    var afterList := [Kw(FROM), TableName] + ClauseTokens(s);
    assert ts[1..] == SelectListTokens(s.select) + afterList;
    SelectListComplete(s.select, afterList);
    assert afterList[2..] == ClauseTokens(s);
    WhereStageComplete(s);
  }

  /** The parser is exactly the grammar: it returns `s` for `ts` iff `s` is valid and derives `ts`. */
  lemma {:induction false} ParseIsDerivation(ts: seq<Token>, s: SelectStmt)
    ensures Parse(ts) == Some(s) <==> ValidStmt(s) && Serialize(s) == ts
  {
    if ValidStmt(s) && Serialize(s) == ts { ParseComplete(s); }
  }

  /** Derivability is decided by the parser. */
  lemma {:induction false} ParseDecidesDerivable(ts: seq<Token>)
    ensures Parse(ts).Some? <==> Derivable(ts)
  {
    if Derivable(ts) {
      var s :| ValidStmt(s) && Serialize(s) == ts;
      ParseComplete(s);
    }
  }

  /** The grammar is unambiguous: distinct valid statements derive distinct tokens. */
  lemma {:induction false} SerializeInjective(s: SelectStmt, s': SelectStmt)
    requires ValidStmt(s) && ValidStmt(s')
    requires Serialize(s) == Serialize(s')
    ensures s == s'
  {
    ParseComplete(s);
    ParseComplete(s');
  }

  /**
   * A multiple of ten can be neither the LIMIT of a parsed statement nor the
   * literal of one of its count or rank conditions.
   */
  lemma {:induction false} MultipleOfTenNeverParsed(n: nat, ts: seq<Token>)
    requires n % 10 == 0
    ensures Parse(ts).Some? ==> Parse(ts).value.limit != Some(Show(n))
    ensures Parse(ts).Some? ==> forall i :: 0 <= i < |Parse(ts).value.conditions| ==>
      var c := Parse(ts).value.conditions[i];
      (c.CountCondition? || c.RankCondition?) ==> c.number != Show(n)
  {
    MultipleOfTenIsNoNumber(n);
  }

  predicate EndsWith<T(==)>(s: seq<T>, t: seq<T>)
  {
    |s| >= |t| && s[|s| - |t|..] == t
  }

  lemma {:induction false} PrefixKeepsEnd<T>(pre: seq<T>, s: seq<T>, t: seq<T>)
    requires EndsWith(s, t)
    ensures EndsWith(pre + s, t)
  {
    assert (pre + s)[|pre + s| - |t|..] == s[|s| - |t|..];
  }

  /** Every statement's tokens open with SELECT and close with `FORMAT CSVWithNames`. */
  lemma {:induction false} SerializeShape(s: SelectStmt)
    requires |s.select| > 0
    ensures var ts := Serialize(s); |ts| >= 6 && ts[0] == Kw(SELECT) && EndsWith(ts, Trailer)
  {
    var limitPart := LimitTokens(s.limit) + Trailer;
    var orderPart := OrderByTokens(s.orderBy) + limitPart;
    var groupPart := GroupByTokens(s.groupBy) + orderPart;
    var fromPart := [Kw(FROM), TableName] + ClauseTokens(s);
    var selectPart := SelectListTokens(s.select) + fromPart;
    assert EndsWith(Trailer, Trailer);
    PrefixKeepsEnd(LimitTokens(s.limit), Trailer, Trailer);
    PrefixKeepsEnd(OrderByTokens(s.orderBy), limitPart, Trailer);
    PrefixKeepsEnd(GroupByTokens(s.groupBy), orderPart, Trailer);
    PrefixKeepsEnd(WhereTokens(s.conditions), groupPart, Trailer);
    PrefixKeepsEnd([Kw(FROM), TableName], ClauseTokens(s), Trailer);
    PrefixKeepsEnd(SelectListTokens(s.select), fromPart, Trailer);
    PrefixKeepsEnd([Kw(SELECT)], selectPart, Trailer);
    assert |SelectListTokens(s.select)| > 0;
    assert |ClauseTokens(s)| >= 2;
    assert Serialize(s) == [Kw(SELECT)] + selectPart;
  }

  /** Every derivable query opens with SELECT and closes with `FORMAT CSVWithNames`. */
  lemma {:induction false} DerivableShape(ts: seq<Token>)
    requires Derivable(ts)
    ensures |ts| >= 6 && ts[0] == Kw(SELECT) && ts[|ts| - 2..] == Trailer
  {
    var s :| ValidStmt(s) && Serialize(s) == ts;
    SerializeShape(s);
  }
}
