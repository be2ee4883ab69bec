/**
 * The query language the generation service is constrained to: a SELECT over
 * the single table baby_names, with optional WHERE / GROUP BY / ORDER BY /
 * LIMIT clauses in that order and a mandatory `FORMAT CSVWithNames`.
 *
 * The grammar is modelled at the level of its terminals: an abstract syntax
 * tree (`SelectStmt`), a validity predicate for the terminals given by regular
 * expressions (YEAR, NUMBER, NAME), the token sequence a statement derives
 * (`Serialize`), and the texts each token stands for (`Lexeme`, `Spells`).
 */
module QueryGrammar {
  import opened Wrappers

  // ---------- Vocabulary ----------

  /** The six column names; every column reference is one of them. */
  datatype ColumnName = YearOfBirth | Gender | Ethnicity | ChildsFirstName | CountColumn | Rank

  datatype AggregateFunction = CountFn | SumFn | AvgFn | MinFn | MaxFn

  datatype Comparator = Eq | Ne | Gt | Lt | Ge | Le

  datatype GenderValue = Male | Female

  datatype EthnicityValue = Hispanic | WhiteNonHispanic | BlackNonHispanic | AsianAndPacificIslander

  datatype Direction = Asc | Desc

  // ---------- Abstract syntax ----------

  /** `aggregation: func_name "(" ((DISTINCT)? column_name)? ")"`: DISTINCT only before a column. */
  datatype AggregateArgument = AggregateArgument(distinct: bool, column: ColumnName)

  datatype Aggregation = Aggregation(func: AggregateFunction, argument: Option<AggregateArgument>)

  datatype SelectExpr = AggExpr(aggregation: Aggregation) | ColExpr(column: ColumnName)

  /** One condition form per column; the literal's kind is fixed by the column. */
  datatype Condition =
    | YearOfBirthCondition(op: Comparator, year: string)
    | GenderCondition(op: Comparator, gender: GenderValue)
    | EthnicityCondition(op: Comparator, ethnicity: EthnicityValue)
    | FirstNameCondition(op: Comparator, name: string)
    | CountCondition(op: Comparator, number: string)
    | RankCondition(op: Comparator, number: string)

  /** `order_expr: column_name (ASC | DESC)?`: a plain column, never an aggregate. */
  datatype OrderExpr = OrderExpr(column: ColumnName, direction: Option<Direction>)

  /** An empty `conditions`, `groupBy` or `orderBy` is an absent clause. */
  datatype SelectStmt = SelectStmt(
    select: seq<SelectExpr>,
    conditions: seq<Condition>,
    groupBy: seq<ColumnName>,
    orderBy: seq<OrderExpr>,
    limit: Option<string>)

  // ---------- Regular-expression terminals ----------

  /** NUMBER: /[1-9]+/. */
  predicate IsNumber(s: string)
  {
    |s| > 0 && forall i :: 0 <= i < |s| ==> '1' <= s[i] <= '9'
  }

  /** NAME: /'[^']*'/, a single-quoted string with no quote inside. */
  predicate IsName(s: string)
  {
    |s| >= 2 && s[0] == '\'' && s[|s| - 1] == '\'' && forall i :: 0 < i < |s| - 1 ==> s[i] != '\''
  }

  /** YEAR: /201[1-9]|202[01]/. */
  predicate IsYear(s: string)
  {
    && |s| == 4
    && ((s[..3] == "201" && '1' <= s[3] <= '9') || (s[..3] == "202" && (s[3] == '0' || s[3] == '1')))
  }

  /** A valid year condition compares against a four-digit year from 2011 through 2021. */
  predicate ValidCondition(c: Condition): (ok: bool)
    ensures ok && c.YearOfBirthCondition? ==>
      && |c.year| == 4 && (forall i :: 0 <= i < 4 ==> IsDigit(c.year[i]))
      && 2011 <= Decimal(c.year) <= 2021
  {
    match c
    case YearOfBirthCondition(_, year) => YearIsRange(year); IsYear(year)
    case FirstNameCondition(_, name) => IsName(name)
    case CountCondition(_, number) => IsNumber(number)
    case RankCondition(_, number) => IsNumber(number)
    case _ => true
  }

  /** The statement's literals match their terminals and the select list is non-empty. */
  predicate ValidStmt(s: SelectStmt)
  {
    && |s.select| > 0
    && (forall i :: 0 <= i < |s.conditions| ==> ValidCondition(s.conditions[i]))
    && (s.limit.Some? ==> IsNumber(s.limit.value))
  }

  // ---------- Decimal numerals ----------

  predicate IsDigit(c: char) { '0' <= c <= '9' }

  function DigitValue(c: char): nat
    requires IsDigit(c)
  {
    c as int - '0' as int
  }

  function DigitChar(d: nat): (c: char)
    requires d < 10
    ensures IsDigit(c) && DigitValue(c) == d
  {
    ('0' as int + d) as char
  }

  /** The number a string of digits denotes. */
  function Decimal(s: string): nat
    requires forall i :: 0 <= i < |s| ==> IsDigit(s[i])
  {
    if s == [] then 0 else Decimal(s[..|s| - 1]) * 10 + DigitValue(s[|s| - 1])
  }

  /** The decimal numeral of n, without leading zeros. */
  function Show(n: nat): (s: string)
    ensures |s| > 0 && forall i :: 0 <= i < |s| ==> IsDigit(s[i])
    ensures n > 0 ==> s[0] != '0'
    ensures Decimal(s) == n
  {
    if n < 10 then [DigitChar(n)] else
      var s := Show(n / 10) + [DigitChar(n % 10)];
      assert s[..|s| - 1] == Show(n / 10);
      s
  }

  /** No decimal digit of n is zero. */
  predicate NoZeroDigit(n: nat)
  {
    n % 10 != 0 && (n < 10 || NoZeroDigit(n / 10))
  }

  /** YEAR matches exactly the four-digit numerals of 2011 through 2021. */
  lemma {:induction false} YearIsRange(s: string)
    ensures IsYear(s) <==>
      |s| == 4 && (forall i :: 0 <= i < 4 ==> IsDigit(s[i])) && 2011 <= Decimal(s) <= 2021
  {
    if |s| == 4 && forall i :: 0 <= i < 4 ==> IsDigit(s[i]) {
      assert s[..3][..2] == s[..2] && s[..2][..1] == s[..1] && s[..1][..0] == [];
      assert Decimal(s[..1]) == DigitValue(s[0]);
      assert Decimal(s[..2]) == DigitValue(s[0]) * 10 + DigitValue(s[1]);
      assert Decimal(s[..3]) == Decimal(s[..2]) * 10 + DigitValue(s[2]);
      assert Decimal(s) == Decimal(s[..3]) * 10 + DigitValue(s[3]);
      assert s[..3] == [s[0], s[1], s[2]];
    }
  }

  /** The numeral of n is a NUMBER exactly when n is positive and none of its digits is 0. */
  lemma {:induction false} NumberIsZeroFree(n: nat)
    ensures IsNumber(Show(n)) <==> n > 0 && NoZeroDigit(n)
  {
    var s := Show(n);
    if n >= 10 {
      NumberIsZeroFree(n / 10);
      assert s == Show(n / 10) + [DigitChar(n % 10)];
      assert forall i :: 0 <= i < |Show(n / 10)| ==> s[i] == Show(n / 10)[i];
    }
  }

  /** So no multiple of ten (10, 20, 100, ...) can be written as a NUMBER, as a LIMIT or anywhere else. */
  lemma {:induction false} MultipleOfTenIsNoNumber(n: nat)
    requires n % 10 == 0
    ensures !IsNumber(Show(n))
  {
    NumberIsZeroFree(n);
  }

  /** Every YEAR contains a 0, so no YEAR is a NUMBER. */
  lemma {:induction false} YearIsNoNumber(s: string)
    requires IsYear(s)
    ensures !IsNumber(s)
  {
    assert s[..3][1] == s[1];
  }

  // ---------- Tokens ----------

  datatype Keyword =
    | SELECT | FROM | WHERE | GROUP | BY | ORDER | LIMIT | AND | DISTINCT
    | ASC | DESC | COUNT | SUM | AVG | MIN | MAX | FORMAT

  /** The grammar's terminals, each carrying the text it matched where that text varies. */
  datatype Token =
    | Kw(keyword: Keyword)
    | Col(column: ColumnName)
    | Comma | LParen | RParen
    | Cmp(comparator: Comparator)
    | GenderLit(gender: GenderValue)
    | EthnicityLit(ethnicity: EthnicityValue)
    | NameLit(name: string)
    | NumberLit(number: string)
    | YearLit(year: string)
    | TableName
    | FormatType

  function KeywordText(k: Keyword): string
  {
    match k
    case SELECT => "SELECT" case FROM => "FROM" case WHERE => "WHERE" case GROUP => "GROUP"
    case BY => "BY" case ORDER => "ORDER" case LIMIT => "LIMIT" case AND => "AND"
    case DISTINCT => "DISTINCT" case ASC => "ASC" case DESC => "DESC" case COUNT => "COUNT"
    case SUM => "SUM" case AVG => "AVG" case MIN => "MIN" case MAX => "MAX" case FORMAT => "FORMAT"
  }

  function ColumnText(c: ColumnName): string
  {
    match c
    case YearOfBirth => "year_of_birth" case Gender => "gender" case Ethnicity => "ethnicity"
    case ChildsFirstName => "child_s_first_name" case CountColumn => "count" case Rank => "rank"
  }

  function ComparatorText(op: Comparator): string
  {
    match op
    case Eq => "=" case Ne => "!=" case Gt => ">" case Lt => "<" case Ge => ">=" case Le => "<="
  }

  function EthnicityText(e: EthnicityValue): string
  {
    match e
    case Hispanic => "'HISPANIC'"
    case WhiteNonHispanic => "'WHITE NON HISPANIC'"
    case BlackNonHispanic => "'BLACK NON HISPANIC'"
    case AsianAndPacificIslander => "'ASIAN AND PACIFIC ISLANDER'"
  }

  /** The canonical text of a token. */
  function Lexeme(t: Token): string
  {
    match t
    case Kw(k) => KeywordText(k)
    case Col(c) => ColumnText(c)
    case Comma => ","
    case LParen => "("
    case RParen => ")"
    case Cmp(op) => ComparatorText(op)
    case GenderLit(g) => if g == Male then "'MALE'" else "'FEMALE'"
    case EthnicityLit(e) => EthnicityText(e)
    case NameLit(s) => s
    case NumberLit(s) => s
    case YearLit(s) => s
    case TableName => "baby_names"
    case FormatType => "CSVWithNames"
  }

  function LowerChar(c: char): char
  {
    if 'A' <= c <= 'Z' then (c as int - 'A' as int + 'a' as int) as char else c
  }

  /**
   * ASCII lower case: no upper-case letter is left, each upper-case letter
   * becomes its lower-case counterpart, and every other character is kept.
   */
  function Lower(s: string): (r: string)
    ensures |r| == |s|
    ensures forall i :: 0 <= i < |r| ==> !('A' <= r[i] <= 'Z')
    ensures forall i :: 0 <= i < |s| && 'A' <= s[i] <= 'Z' ==> r[i] as int == s[i] as int + ('a' as int - 'A' as int)
    ensures forall i :: 0 <= i < |s| && !('A' <= s[i] <= 'Z') ==> r[i] == s[i]
  {
    seq(|s|, i requires 0 <= i < |s| => LowerChar(s[i]))
  }

  /** Lower-casing twice is lower-casing once. */
  lemma {:induction false} LowerIdempotent(s: string)
    ensures Lower(Lower(s)) == Lower(s)
  {
    var r := Lower(s);
    assert forall i :: 0 <= i < |r| ==> Lower(r)[i] == r[i];
  }

  /** The texts the lexer takes for a keyword: SELECT exactly, every other keyword in any case. */
  predicate Spells(k: Keyword, text: string)
  {
    if k == SELECT then text == "SELECT" else Lower(text) == Lower(KeywordText(k))
  }

  /** Whether a text spells a keyword does not depend on its case, SELECT apart. */
  lemma {:induction false} KeywordCase(k: Keyword, text: string)
    ensures Spells(k, KeywordText(k))
    ensures k == SELECT ==> (Spells(k, text) <==> text == "SELECT")
    ensures k != SELECT ==> (Spells(k, text) <==> Spells(k, Lower(text)))
  {
    LowerIdempotent(text);
  }

  /**
   * The column literal `"count"` is also a spelling of the case-insensitive
   * keyword COUNT: one text, two terminals.
   */
  lemma CountColumnSpellsCountKeyword()
    ensures Lexeme(Col(CountColumn)) == "count" && Spells(COUNT, Lexeme(Col(CountColumn)))
  {
  }

  // ---------- Serialization ----------

  function AggregateKeyword(f: AggregateFunction): Keyword
  {
    match f case CountFn => COUNT case SumFn => SUM case AvgFn => AVG case MinFn => MIN case MaxFn => MAX
  }

  function AggregationTokens(a: Aggregation): seq<Token>
  {
    [Kw(AggregateKeyword(a.func)), LParen]
    + (match a.argument
       case None => []
       case Some(arg) => (if arg.distinct then [Kw(DISTINCT)] else []) + [Col(arg.column)])
    + [RParen]
  }

  function SelectExprTokens(e: SelectExpr): seq<Token>
  {
    match e
    case AggExpr(a) => AggregationTokens(a)
    case ColExpr(c) => [Col(c)]
  }

  /** `select_expr ("," select_expr)*`. */
  function SelectListTokens(es: seq<SelectExpr>): seq<Token>
  {
    if es == [] then []
    else if |es| == 1 then SelectExprTokens(es[0])
    else SelectExprTokens(es[0]) + [Comma] + SelectListTokens(es[1..])
  }

  function ConditionTokens(c: Condition): seq<Token>
  {
    match c
    case YearOfBirthCondition(op, year) => [Col(YearOfBirth), Cmp(op), YearLit(year)]
    case GenderCondition(op, g) => [Col(Gender), Cmp(op), GenderLit(g)]
    case EthnicityCondition(op, e) => [Col(Ethnicity), Cmp(op), EthnicityLit(e)]
    case FirstNameCondition(op, name) => [Col(ChildsFirstName), Cmp(op), NameLit(name)]
    case CountCondition(op, number) => [Col(CountColumn), Cmp(op), NumberLit(number)]
    case RankCondition(op, number) => [Col(Rank), Cmp(op), NumberLit(number)]
  }

  /** `condition (AND condition)*`. */
  function ConditionListTokens(cs: seq<Condition>): seq<Token>
  {
    if cs == [] then []
    else if |cs| == 1 then ConditionTokens(cs[0])
    else ConditionTokens(cs[0]) + [Kw(AND)] + ConditionListTokens(cs[1..])
  }

  /** `column_name ("," column_name)*`. */
  function ColumnListTokens(cs: seq<ColumnName>): seq<Token>
  {
    if cs == [] then []
    else if |cs| == 1 then [Col(cs[0])]
    else [Col(cs[0])] + [Comma] + ColumnListTokens(cs[1..])
  }

  function OrderExprTokens(o: OrderExpr): seq<Token>
  {
    [Col(o.column)] + (match o.direction case None => [] case Some(Asc) => [Kw(ASC)] case Some(Desc) => [Kw(DESC)])
  }

  /** `order_expr ("," order_expr)*`. */
  function OrderListTokens(os: seq<OrderExpr>): seq<Token>
  {
    if os == [] then []
    else if |os| == 1 then OrderExprTokens(os[0])
    else OrderExprTokens(os[0]) + [Comma] + OrderListTokens(os[1..])
  }

  function WhereTokens(cs: seq<Condition>): seq<Token>
  {
    if cs == [] then [] else [Kw(WHERE)] + ConditionListTokens(cs)
  }

  function GroupByTokens(cs: seq<ColumnName>): seq<Token>
  {
    if cs == [] then [] else [Kw(GROUP), Kw(BY)] + ColumnListTokens(cs)
  }

  function OrderByTokens(os: seq<OrderExpr>): seq<Token>
  {
    if os == [] then [] else [Kw(ORDER), Kw(BY)] + OrderListTokens(os)
  }

  function LimitTokens(limit: Option<string>): seq<Token>
  {
    match limit case None => [] case Some(n) => [Kw(LIMIT), NumberLit(n)]
  }

  /** The tokens after the select list and FROM: the optional clauses and the format trailer. */
  function ClauseTokens(s: SelectStmt): seq<Token>
  {
    WhereTokens(s.conditions) + (GroupByTokens(s.groupBy) + (OrderByTokens(s.orderBy)
    + (LimitTokens(s.limit) + [Kw(FORMAT), FormatType])))
  }

  /** The token sequence `select_stmt` derives for a statement. */
  function Serialize(s: SelectStmt): seq<Token>
  {
    [Kw(SELECT)] + (SelectListTokens(s.select) + ([Kw(FROM), TableName] + ClauseTokens(s)))
  }
}
