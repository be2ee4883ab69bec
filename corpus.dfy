/**
 * The expected queries of the evaluation corpus, read against the grammar the
 * generation service is constrained to. Each query is written as the token
 * sequence its text lexes into; the lemmas say which of them the grammar
 * derives, and where the others leave it.
 */
module Corpus {
  import opened Wrappers
  import opened QueryGrammar
  import opened QueryParser

  // ---------- Rejections that hold for every continuation ----------

  /** DISTINCT may only stand inside an aggregation, so `SELECT DISTINCT ...` never parses. */
  lemma {:induction false} SelectDistinctRejected(rest: seq<Token>)
    ensures Parse([Kw(SELECT), Kw(DISTINCT)] + rest) == None
  {
    var ts := [Kw(SELECT), Kw(DISTINCT)] + rest;
    assert ts[1..][0] == Kw(DISTINCT);
    assert ParseSelectExpr(ts[1..]) == None;
  }

  /** An ORDER BY item is a column, so an aggregate keyword right after `ORDER BY` is rejected. */
  lemma {:induction false} OrderByAggregateRejected(f: AggregateFunction, rest: seq<Token>)
    ensures ParseOrderBy([Kw(ORDER), Kw(BY), Kw(AggregateKeyword(f))] + rest) == None
  {
    var ts := [Kw(ORDER), Kw(BY), Kw(AggregateKeyword(f))] + rest;
    assert ts[2..][0] == Kw(AggregateKeyword(f));
    assert ParseOrderExpr(ts[2..]) == None;
  }

  /** A year condition takes a bare YEAR; a quoted year is a NAME and is rejected. */
  lemma QuotedYearRejected(op: Comparator, name: string, rest: seq<Token>)
    ensures ParseCondition([Col(YearOfBirth), Cmp(op), NameLit(name)] + rest) == None
  {
  }

  // ---------- Parsing a statement clause by clause ----------

  lemma {:induction false} SelectStage(sel: seq<SelectExpr>, clauses: seq<Token>)
    requires |sel| > 0
    ensures Parse([Kw(SELECT)] + (SelectListTokens(sel) + ([Kw(FROM), TableName] + clauses)))
      == ParseWhereStage(sel, clauses)
  {
    var rest := [Kw(FROM), TableName] + clauses;
    var ts := [Kw(SELECT)] + (SelectListTokens(sel) + rest);
    assert ts[0] == Kw(SELECT) && ts[1..] == SelectListTokens(sel) + rest;
    SelectListComplete(sel, rest);
    assert rest[0] == Kw(FROM) && rest[1] == TableName && rest[2..] == clauses;
  }

  lemma {:induction false} WhereStage(sel: seq<SelectExpr>, conds: seq<Condition>, rest: seq<Token>)
    requires forall i :: 0 <= i < |conds| ==> ValidCondition(conds[i])
    requires LedBy(rest, {GROUP, ORDER, LIMIT, FORMAT})
    ensures ParseWhereStage(sel, WhereTokens(conds) + rest) == ParseGroupStage(sel, conds, rest)
  {
    WhereComplete(conds, rest);
  }

  lemma {:induction false} GroupStage(sel: seq<SelectExpr>, conds: seq<Condition>, cols: seq<ColumnName>, rest: seq<Token>)
    requires LedBy(rest, {ORDER, LIMIT, FORMAT})
    ensures ParseGroupStage(sel, conds, GroupByTokens(cols) + rest) == ParseOrderStage(sel, conds, cols, rest)
  {
    GroupByComplete(cols, rest);
  }

  /** The years the corpus compares against are YEAR terminals. */
  lemma {:induction false} CorpusYears()
    ensures IsYear("2012") && IsYear("2021")
  {
    assert "2012"[..3] == "201" && "2021"[..3] == "202";
  }

  /** The names the corpus compares against are NAME terminals. */
  lemma CorpusNames()
    ensures IsName("'SOPHIA'") && IsName("'KEVIN'")
  {
  }

  // ---------- The corpus, token by token ----------
  // Each query is written clause by clause, in the order the statement derives them.

  /** "top hispanic name for boys and girls in 2021". */
  const HispanicQuery: seq<Token> :=
    [Kw(SELECT)]
    + ([Col(Gender), Comma, Col(ChildsFirstName), Comma, Col(CountColumn)]
    + ([Kw(FROM), TableName]
    + ([Kw(WHERE), Col(YearOfBirth), Cmp(Eq), YearLit("2021"), Kw(AND), Col(Ethnicity), Cmp(Eq), EthnicityLit(Hispanic),
        Kw(AND), Col(Rank), Cmp(Eq), NumberLit("1")]
    + [Kw(FORMAT), FormatType])))

  const HispanicStmt: SelectStmt := SelectStmt(
    [ColExpr(Gender), ColExpr(ChildsFirstName), ColExpr(CountColumn)],
    [YearOfBirthCondition(Eq, "2021"), EthnicityCondition(Eq, Hispanic), RankCondition(Eq, "1")],
    [], [], None)

  lemma {:induction false} HispanicSelectTokens()
    ensures SelectListTokens(HispanicStmt.select) == [Col(Gender), Comma, Col(ChildsFirstName), Comma, Col(CountColumn)]
  {
    var es := HispanicStmt.select;
    assert SelectListTokens(es[2..]) == [Col(CountColumn)];
    assert SelectListTokens(es[1..]) == [Col(ChildsFirstName), Comma, Col(CountColumn)];
  }

  lemma {:induction false} HispanicWhereTokens()
    ensures WhereTokens(HispanicStmt.conditions) == [Kw(WHERE), Col(YearOfBirth), Cmp(Eq), YearLit("2021"), Kw(AND),
      Col(Ethnicity), Cmp(Eq), EthnicityLit(Hispanic), Kw(AND), Col(Rank), Cmp(Eq), NumberLit("1")]
  {
    var cs := HispanicStmt.conditions;
    assert ConditionListTokens(cs[2..]) == [Col(Rank), Cmp(Eq), NumberLit("1")];
    assert ConditionListTokens(cs[1..])
      == [Col(Ethnicity), Cmp(Eq), EthnicityLit(Hispanic), Kw(AND), Col(Rank), Cmp(Eq), NumberLit("1")];
  }

  /** The grammar derives this query, and in exactly one way. */
  lemma {:induction false} HispanicQueryDerivable()
    ensures Parse(HispanicQuery) == Some(HispanicStmt)
  {
    CorpusYears();
    var s := HispanicStmt;
    assert ValidStmt(s);
    HispanicSelectTokens();
    HispanicWhereTokens();
    assert ClauseTokens(s) == WhereTokens(s.conditions) + Trailer;
    ParseComplete(s);
  }

  /** "Which year had the highest number of babies named Sophia?": ordered by an aggregate. */
  const SophiaQuery: seq<Token> :=
    [Kw(SELECT)]
    + ([Col(YearOfBirth)]
    + ([Kw(FROM), TableName]
    + ([Kw(WHERE), Col(ChildsFirstName), Cmp(Eq), NameLit("'SOPHIA'")]
    + ([Kw(GROUP), Kw(BY), Col(YearOfBirth)]
    + ([Kw(ORDER), Kw(BY), Kw(SUM)] + [LParen, Col(CountColumn), RParen, Kw(DESC), Kw(LIMIT), NumberLit("1"), Kw(FORMAT), FormatType])))))

  /** The grammar cannot produce the corpus's own answer to the Sophia question. */
  lemma {:induction false} SophiaQueryRejected()
    ensures Parse(SophiaQuery) == None
  {
    var sel := [ColExpr(YearOfBirth)];
    var conds := [FirstNameCondition(Eq, "'SOPHIA'")];
    var orderRest := [LParen, Col(CountColumn), RParen, Kw(DESC), Kw(LIMIT), NumberLit("1"), Kw(FORMAT), FormatType];
    var orderPart := [Kw(ORDER), Kw(BY), Kw(SUM)] + orderRest;
    assert SelectListTokens(sel) == [Col(YearOfBirth)];
    assert WhereTokens(conds) == [Kw(WHERE), Col(ChildsFirstName), Cmp(Eq), NameLit("'SOPHIA'")];
    assert GroupByTokens([YearOfBirth]) == [Kw(GROUP), Kw(BY), Col(YearOfBirth)];
    SelectStage(sel, WhereTokens(conds) + (GroupByTokens([YearOfBirth]) + orderPart));
    CorpusNames();
    WhereStage(sel, conds, GroupByTokens([YearOfBirth]) + orderPart);
    GroupStage(sel, conds, [YearOfBirth], orderPart);
    OrderByAggregateRejected(SumFn, orderRest);
  }

  /** "How many children were named Kevin in 2012?": the year is quoted, so it is a NAME. */
  const KevinQuery: seq<Token> :=
    [Kw(SELECT)]
    + ([Kw(SUM), LParen, Col(CountColumn), RParen]
    + ([Kw(FROM), TableName]
    + ([Kw(WHERE)]
    + ([Col(ChildsFirstName), Cmp(Eq), NameLit("'KEVIN'")]
    + ([Kw(AND)]
    + ([Col(YearOfBirth), Cmp(Eq), NameLit("'2012'")]
    + [Kw(FORMAT), FormatType]))))))

  /** The same query with the year bare. */
  const KevinQueryUnquoted: seq<Token> :=
    [Kw(SELECT)]
    + ([Kw(SUM), LParen, Col(CountColumn), RParen]
    + ([Kw(FROM), TableName]
    + ([Kw(WHERE), Col(ChildsFirstName), Cmp(Eq), NameLit("'KEVIN'"), Kw(AND), Col(YearOfBirth), Cmp(Eq), YearLit("2012")]
    + [Kw(FORMAT), FormatType])))

  const KevinStmt: SelectStmt := SelectStmt(
    [AggExpr(Aggregation(SumFn, Some(AggregateArgument(false, CountColumn))))],
    [FirstNameCondition(Eq, "'KEVIN'"), YearOfBirthCondition(Eq, "2012")],
    [], [], None)

  /** A WHERE clause whose second condition does not parse rejects the statement. */
  lemma {:induction false} SecondConditionRejected(sel: seq<SelectExpr>, c: Condition, rest: seq<Token>)
    requires ValidCondition(c) && ParseConditionList(rest) == None
    ensures ParseWhereStage(sel, [Kw(WHERE)] + (ConditionTokens(c) + ([Kw(AND)] + rest))) == None
  {
    var andRest := [Kw(AND)] + rest;
    var list := ConditionTokens(c) + andRest;
    var ts := [Kw(WHERE)] + list;
    assert ts[0] == Kw(WHERE) && ts[1..] == list;
    ConditionComplete(c, andRest);
    assert andRest[0] == Kw(AND) && andRest[1..] == rest;
    assert ParseConditionList(list) == None;
    assert ParseWhere(ts) == None;
  }

  /** The quoted year makes the corpus's Kevin query underivable. */
  lemma {:induction false} KevinQueryRejected()
    ensures Parse(KevinQuery) == None
  {
    var sel := [AggExpr(Aggregation(SumFn, Some(AggregateArgument(false, CountColumn))))];
    var first := FirstNameCondition(Eq, "'KEVIN'");
    var second := [Col(YearOfBirth), Cmp(Eq), NameLit("'2012'")] + [Kw(FORMAT), FormatType];
    assert SelectListTokens(sel) == [Kw(SUM), LParen, Col(CountColumn), RParen];
    assert ConditionTokens(first) == [Col(ChildsFirstName), Cmp(Eq), NameLit("'KEVIN'")];
    SelectStage(sel, [Kw(WHERE)] + (ConditionTokens(first) + ([Kw(AND)] + second)));
    CorpusNames();
    QuotedYearRejected(Eq, "'2012'", [Kw(FORMAT), FormatType]);
    assert ParseConditionList(second) == None;
    SecondConditionRejected(sel, first, second);
  }

  /** Written with a bare year, the Kevin query is derivable. */
  lemma {:induction false} KevinQueryUnquotedDerivable()
    ensures Parse(KevinQueryUnquoted) == Some(KevinStmt)
  {
    var s := KevinStmt;
    CorpusNames();
    CorpusYears();
    assert ValidStmt(s);
    assert SelectListTokens(s.select) == [Kw(SUM), LParen, Col(CountColumn), RParen];
    assert ConditionListTokens(s.conditions[1..]) == [Col(YearOfBirth), Cmp(Eq), YearLit("2012")];
    assert WhereTokens(s.conditions)
      == [Kw(WHERE), Col(ChildsFirstName), Cmp(Eq), NameLit("'KEVIN'"), Kw(AND), Col(YearOfBirth), Cmp(Eq), YearLit("2012")];
    assert ClauseTokens(s) == WhereTokens(s.conditions) + Trailer;
    ParseComplete(s);
  }

  /** "top 5 girl names in 2012": `SELECT DISTINCT` directly, and a quoted year as well. */
  const GirlNamesQuery: seq<Token> :=
    [Kw(SELECT), Kw(DISTINCT)]
    + [Col(ChildsFirstName), Comma, Col(CountColumn), Kw(FROM), TableName,
       Kw(WHERE), Col(YearOfBirth), Cmp(Eq), NameLit("'2012'"), Kw(AND), Col(Gender), Cmp(Eq), GenderLit(Female),
       Kw(ORDER), Kw(BY), Col(CountColumn), Kw(DESC), Kw(LIMIT), NumberLit("5"),
       Kw(FORMAT), FormatType]

  lemma {:induction false} GirlNamesQueryRejected()
    ensures Parse(GirlNamesQuery) == None
  {
    SelectDistinctRejected(GirlNamesQuery[2..]);
  }
}
