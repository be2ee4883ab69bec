# CFG-constrained query evaluation, modelled in Dafny

This project models the core of an evaluator for natural-language-to-SQL
generation, where the generator is constrained by a context-free grammar.
It has two parts.

- **The evaluator** (`clients/evaluation.py`). Each test case goes through
  three steps:
  - the question is wrapped in a fixed prompt;
  - a generation service turns the prompt into a query;
  - the query-execution backend runs it, and the result is scored.

  Scoring is three checks, each reached only when the one before passed:
  *did it execute*, *does the result have the expected columns* (schema
  check), and *does each expected column's set of distinct non-null values
  fit inside the returned column's* (data check). The batch runner scores
  every case in order. It then computes three rates: success,
  schema compliance and accuracy.
- **The query grammar** (`clients/generate_query.py`). This is the Lark
  grammar the generator is held to: a `SELECT` over the single table
  `baby_names`, then optional `WHERE`, `GROUP BY`, `ORDER BY` and `LIMIT`
  clauses in that order, then the mandatory `FORMAT CSVWithNames`. The grammar
  is modelled at the level of its terminals:
  - an abstract syntax tree;
  - a validity predicate for the regular-expression terminals (`YEAR`,
    `NUMBER`, `NAME`);
  - the token sequence a statement derives (`Serialize`);
  - a parser (`Parse`), proved to decide derivability: `Parse(ts) ==
    Some(s)` exactly when `s` is valid and `Serialize(s) == ts`.

The two external services are function parameters:
- `generate: string -> Result<string, string>`: the generation service, which
  may raise;
- `execute: string -> Execution`: the backend, which returns a table or the
  error it raised.

Exceptions that escape `evaluate_single_case` or `run_evaluation` in the
source are modelled as a `Fault` result that aborts the run:
- `GenerationFailed`: the generation service raised;
- `NoExpectedData`: a case's expected data was never filled in;
- `MissingColumn`: the `KeyError` from indexing a returned column the table
  lacks;
- `DivisionByZero`: the metrics of an empty batch.

A table is a sequence of named columns, in the order the backend reports them.
Each column holds one cell per row, and a cell is a value or null.

Files:

| module | file | contents |
|---|---|---|
| `Wrappers` | `wrappers.dfy` | `Option`, `Result` |
| `Tables` | `tables.dfy` | tables, column lookup, distinct non-null values |
| `Checks` | `checks.dfy` | schema check, data check, their laws |
| `Records` | `records.dfy` | `TestCase`, `EvalResult` |
| `Metrics` | `metrics.dfy` | the three rates |
| `Evaluation` | `evaluation.dfy` | prompt template, single case, batch run |
| `Scenarios` | `scenarios.dfy` | worked examples of the checks and of a case |
| `QueryGrammar` | `query_grammar.dfy` | syntax tree, terminals, tokens, serializer |
| `QueryParser` | `query_parser.dfy` | parser, derivability |
| `Corpus` | `corpus.dfy` | the corpus's reference queries against the grammar |

## Model

| member | source | states |
|---|---|---|
| `Tables.Lookup` | clients/evaluation.py:70 | Indexing a table by a column name fails exactly when no column has that name. Otherwise it yields the cells of a column of that name. |
| `Tables.NonNull` | clients/evaluation.py:67-70 | The distinct non-null values of a column are exactly the values that occur in one of its non-null cells. |
| `Checks.SchemaMatches` | clients/evaluation.py:56-60 | The schema check holds exactly when every expected column name can be looked up in the returned table. |
| `Checks.SchemaIgnoresColumnOrder` | clients/evaluation.py:56-60 | Reordering the returned columns never changes the schema verdict. |
| `Checks.SchemaIgnoresExtraColumns` | clients/evaluation.py:56-60 | Inserting extra returned columns anywhere never turns a schema match into a mismatch. |
| `Checks.SchemaIgnoresUnexpectedColumns` | clients/evaluation.py:56-60 | Inserting returned columns whose names are not expected leaves the schema verdict unchanged in both directions: a match stays a match and a mismatch stays a mismatch. |
| `Checks.CheckDataCorrectness` | clients/evaluation.py:62-75 | The loop over the expected columns, with its early `False` return and the `KeyError` on a missing column, computes exactly the data-check verdict `DataCheck`. |
| `Checks.DataCheckPasses` | clients/evaluation.py:62-75 | The data check returns true exactly when, for every expected column, the returned table has a same-named column holding all of its distinct non-null values. |
| `Checks.DataCheckFaults` | clients/evaluation.py:66-70 | The data check raises exactly when it reaches an expected column missing from the returned table before any uncovered column. The fault then names that first missing column. |
| `Checks.AllPresentNeverFaults` | clients/evaluation.py:66-70 | When every expected column name is present in the returned table, the data check never raises. |
| `Checks.DataCheckConcat` | clients/evaluation.py:66-75 | Checking `first + second` is checking `first`, and then `second` only if `first` passed. |
| `Checks.AllNullColumnPasses` | clients/evaluation.py:67-74 | An expected column with no non-null values, whose name is present, can be removed without changing the verdict. |
| `Checks.DataCheckRespectsValues` | clients/evaluation.py:67-70 | Tables that differ only in nulls, repeated values and row order get the same verdict, on either side. |
| `Checks.DataCheckIgnoresNulls` | clients/evaluation.py:67-70 | Adding a null cell to any returned column and to any expected column leaves the verdict unchanged. |
| `Checks.DataCheckMonotone` | clients/evaluation.py:72-74 | A pass survives any growth of the returned columns' value sets. |
| `Checks.DataCheckIgnoresExtraRows` | clients/evaluation.py:62-75 | Extra returned rows, or extra columns appended to the returned table, never turn a pass into a fail. |
| `Evaluation.GenerateSql` | clients/evaluation.py:43-46 | The generation service is asked with the one prompt whose recovered request is the question (`PromptRoundTrip`, `PromptOfRequest`). |
| `Evaluation.SupportingPrompt` | clients/evaluation.py:44 | The prompt starts with the fixed prefix, ends with the fixed suffix, and is exactly as long as prefix, request and suffix together. That the part between them is the request is `PromptRoundTrip`. |
| `Evaluation.PromptRoundTrip` | clients/evaluation.py:43-46 | The request can always be recovered from its prompt. |
| `Evaluation.PromptOfRequest` | clients/evaluation.py:43-46 | Every text of the prompt's shape is the prompt of the request recovered from it. |
| `Evaluation.EvaluateSingleCase` | clients/evaluation.py:77-112 | The method computes the same result or fault as the specification function `CaseResult`. Its flags are assigned step by step: generation, execution, schema check, then data check. |
| `Evaluation.ExecutionFailureScoresNothing` | clients/evaluation.py:85-112 | When the backend raises, the case is scored false on all three flags, keeps the error message, and has no returned table. |
| `Evaluation.CaseVerdict` | clients/evaluation.py:82-111 | A scored case records its test case and the generated query. Success means the backend returned a table. The schema flag is the schema check of that table once success held, and the data flag is the data check once the schema matched. The flags weaken left to right, the message is present exactly on failure, and the table exactly on success. |
| `Evaluation.CaseFaults` | clients/evaluation.py:82-102 | A case raises exactly when generation raises, or when the schema matched and the data check cannot run: there is no expected data, or an expected column is missing and is reached before any uncovered column (`DataCheckFaults`). |
| `Evaluation.MissingExpectedColumnNeverPasses` | clients/evaluation.py:66-74 | When the returned table lacks the name of some expected column, the case is never scored correct: it either raises or has its data flag false. So the corpus's second case is never passed by an answer without a `count` column. |
| `Evaluation.RunEvaluation` | clients/evaluation.py:114-137 | The run succeeds exactly when the batch is non-empty and no case raises. Its results are then the cases' results in input order, with the metrics computed over them, and accuracy <= schema compliance <= success <= batch size. An empty batch fails with division by zero. Any other failure is the fault of the first case that raises, all earlier cases having been scored. |
| `Metrics.CalculateMetrics` | clients/evaluation.py:123-130 | The metrics fail exactly on an empty batch, with division by zero. Otherwise each rate is the number of results with its flag set over the batch size; `MetricsOrdered` orders them inside [0, 1]. |
| `Metrics.Count` | clients/evaluation.py:126-129 | A flag's count never exceeds the batch size. |
| `Metrics.AsReal` | clients/evaluation.py:126-129 | A rate's ratio lies in [0, 1]. |
| `Metrics.CountAppend` | clients/evaluation.py:126-129 | Appending a result adds one to a flag's count exactly when that result raises the flag. |
| `Metrics.CountIsNumberOfHits` | clients/evaluation.py:126-129 | A flag's count is the number of results with that flag set, so a rate is the batch mean of the flag. |
| `Metrics.CountMonotone` | clients/evaluation.py:126-129 | A flag implied by another, result by result, is counted at least as often. |
| `Metrics.MetricsOrdered` | clients/evaluation.py:123-130 | Over consistent results, the metrics exist exactly for a non-empty batch. Every rate then has the batch size as its total and the number of set flags as its hits, and 0 <= accuracy <= schema compliance <= success <= 1. |
| `Scenarios.SupersetOfValuesPasses` | clients/evaluation.py:62-75 | Expected years {2015} against returned {2014, 2015, 2016} pass the data check. |
| `Scenarios.MissingValueFails` | clients/evaluation.py:72-74 | Expected years {2015, 2016} against returned {2015} fail the data check without raising. |
| `Scenarios.NullCellIgnored` | clients/evaluation.py:67-69 | A null among the expected cells asks nothing of the returned column. |
| `Scenarios.ExtraColumnPasses` | clients/evaluation.py:56-60 | A returned table with an extra `count` column still matches the schema. |
| `Scenarios.MissingColumnFailsSchema` | clients/evaluation.py:91-102 | A returned table lacking an expected column gives a scored case with success true and both checks false: no fault. |
| `Scenarios.ExactColumnsAbortSecondCase` | clients/evaluation.py:147-151 | The corpus's second case expects the columns {gender, child_s_first_name}, but its expected data also holds `count`. A generated query returning exactly the expected columns, whose gender and name values cover the expected ones (here all empty), passes the schema check and then raises on `count`. |
| `QueryGrammar.ValidCondition` | clients/generate_query.py:31-52 | A condition's literal matches the terminal its column takes (`YEAR`, `NAME` or `NUMBER`; fixed constants need nothing). A valid year condition's literal is a four-digit year from 2011 through 2021. |
| `QueryGrammar.ValidStmt` | clients/generate_query.py:9-93 | A statement's select list is non-empty and every literal matches its terminal. It has no contract of its own; `ParseIsDerivation` states that the valid statements are exactly those yielded by derivable token sequences. |
| `QueryGrammar.Serialize` | clients/generate_query.py:9-59 | The tokens `select_stmt` derives for a statement. It has no contract of its own; `SerializeShape` gives their frame, `ParseIsDerivation` ties them to the parser, and `SerializeInjective` shows no two valid statements share them. |
| `QueryGrammar.YearIsRange` | clients/generate_query.py:93 | `YEAR` matches exactly the four-digit numerals of 2011 through 2021. |
| `QueryGrammar.NumberIsZeroFree` | clients/generate_query.py:91 | The numeral of n is a `NUMBER` exactly when n is positive and none of its digits is zero. |
| `QueryGrammar.MultipleOfTenIsNoNumber` | clients/generate_query.py:91 | The decimal numeral of a multiple of ten is never a `NUMBER`. |
| `QueryGrammar.YearIsNoNumber` | clients/generate_query.py:91-93 | No `YEAR` is a `NUMBER`. |
| `QueryGrammar.Show` | clients/generate_query.py:91 | The decimal numeral of n is a non-empty digit string denoting n, with no leading zero when n is positive. |
| `QueryGrammar.Lower` | clients/generate_query.py:62-78 | Lower-casing keeps the length and leaves no upper-case ASCII letter. Each upper-case letter becomes its lower-case counterpart, and every other character is kept. |
| `QueryGrammar.LowerIdempotent` | clients/generate_query.py:62-78 | Lower-casing an already lower-cased text changes nothing. |
| `QueryGrammar.CountColumnSpellsCountKeyword` | clients/generate_query.py:25-73 | The column literal `count` is also a spelling of the keyword `COUNT`: the same text matches two terminals. |
| `QueryGrammar.KeywordCase` | clients/generate_query.py:62-78 | Each keyword's canonical text spells it. `SELECT` is spelt only in upper case. Every other keyword is spelt by a text exactly when it is spelt by the text's lower-case form. |
| `QueryParser.AggregateOf` | clients/generate_query.py:18 | Decoding a keyword as an aggregate function is the inverse of the function's keyword. |
| `QueryParser.ParseSelectExpr` | clients/generate_query.py:13-17 | A parsed select expression is a prefix of the input, followed by the unparsed rest. |
| `QueryParser.SelectExprComplete` | clients/generate_query.py:13-18 | Every select expression is parsed back from its tokens, whatever follows. |
| `QueryParser.ParseSelectList` | clients/generate_query.py:12 | A parsed select list is non-empty, and its tokens are a prefix of the input. |
| `QueryParser.SelectListComplete` | clients/generate_query.py:12 | Every non-empty select list is parsed back from its tokens when no comma follows. |
| `QueryParser.ParseCondition` | clients/generate_query.py:31-45 | A parsed condition is valid (its literal matches its column's terminal), and its tokens are a prefix of the input. |
| `QueryParser.ConditionComplete` | clients/generate_query.py:31-52 | Every valid condition is parsed back from its tokens. |
| `QueryParser.ParseConditionList` | clients/generate_query.py:29 | A parsed `AND` list is a non-empty list of valid conditions, and its tokens are a prefix of the input. |
| `QueryParser.ConditionListComplete` | clients/generate_query.py:29 | Every non-empty list of valid conditions is parsed back when no `AND` follows. |
| `QueryParser.ParseColumnList` | clients/generate_query.py:55 | A parsed `GROUP BY` column list is non-empty, and its tokens are a prefix of the input. |
| `QueryParser.ColumnListComplete` | clients/generate_query.py:55 | Every non-empty column list is parsed back when no comma follows. |
| `QueryParser.ParseOrderExpr` | clients/generate_query.py:59 | A parsed order item is a column with an optional direction, and its tokens are a prefix of the input. |
| `QueryParser.OrderExprComplete` | clients/generate_query.py:59 | Every order item is parsed back when no direction keyword follows. |
| `QueryParser.ParseOrderList` | clients/generate_query.py:58 | A parsed order list is non-empty, and its tokens are a prefix of the input. |
| `QueryParser.OrderListComplete` | clients/generate_query.py:58-59 | Every non-empty order list is parsed back when neither a comma nor a direction follows. |
| `QueryParser.ParseWhere` | clients/generate_query.py:9 | The optional `WHERE` clause parses to valid conditions whose tokens are a prefix of the input. |
| `QueryParser.WhereComplete` | clients/generate_query.py:9 | Any valid condition list (empty meaning no clause) is parsed back before a later clause or the trailer. |
| `QueryParser.ParseGroupBy` | clients/generate_query.py:9 | The optional `GROUP BY` clause parses to columns whose tokens are a prefix of the input. |
| `QueryParser.GroupByComplete` | clients/generate_query.py:9 | Any column list is parsed back before `ORDER`, `LIMIT` or `FORMAT`. |
| `QueryParser.ParseOrderBy` | clients/generate_query.py:9 | The optional `ORDER BY` clause parses to order items whose tokens are a prefix of the input. |
| `QueryParser.OrderByComplete` | clients/generate_query.py:9 | Any order list is parsed back before `LIMIT` or `FORMAT`. |
| `QueryParser.ParseLimit` | clients/generate_query.py:9 | The optional `LIMIT` parses to a `NUMBER`, and its tokens are a prefix of the input. |
| `QueryParser.LimitComplete` | clients/generate_query.py:9 | Any absent limit, or a limit that is a `NUMBER`, is parsed back before `FORMAT`. |
| `QueryParser.Parse` | clients/generate_query.py:6-9 | A parsed statement is valid and serializes back to exactly the input tokens. |
| `QueryParser.WhereStageComplete` | clients/generate_query.py:9 | The clause stages parse back every valid statement's clause tokens. |
| `QueryParser.ParseComplete` | clients/generate_query.py:6-9 | Every valid statement is parsed back from its serialization. |
| `QueryParser.ParseIsDerivation` | clients/generate_query.py:6-59 | The parser yields a statement from some tokens exactly when the statement is valid and derives those tokens. |
| `QueryParser.ParseDecidesDerivable` | clients/generate_query.py:6-93 | The parser accepts exactly the token sequences the grammar derives. |
| `QueryParser.SerializeInjective` | clients/generate_query.py:6-59 | Two valid statements with the same tokens are equal: the grammar is unambiguous. |
| `QueryParser.MultipleOfTenNeverParsed` | clients/generate_query.py:9-91 | No parsed statement has a multiple of ten as its `LIMIT`, nor as the literal of a `count` or `rank` condition. |
| `QueryParser.SerializeShape` | clients/generate_query.py:9 | The tokens of every statement with a non-empty select list start with `SELECT`, end with `FORMAT CSVWithNames`, and number at least six. |
| `QueryParser.DerivableShape` | clients/generate_query.py:9 | Every derivable token sequence starts with `SELECT` and ends with the format trailer. |
| `Corpus.SelectDistinctRejected` | clients/generate_query.py:12-17 | `DISTINCT` directly after `SELECT` is never derivable: it is allowed only inside an aggregation. |
| `Corpus.OrderByAggregateRejected` | clients/generate_query.py:58-59 | An aggregate right after `ORDER BY` is rejected: order items are plain columns. |
| `Corpus.QuotedYearRejected` | clients/generate_query.py:31 | A year condition whose literal is a quoted `NAME` is rejected. |
| `Corpus.SecondConditionRejected` | clients/generate_query.py:29 | A `WHERE` clause whose condition after `AND` does not parse rejects the statement. |
| `Corpus.CorpusYears` | clients/generate_query.py:93 | The years 2012 and 2021 used by the corpus are `YEAR` terminals. |
| `Corpus.CorpusNames` | clients/generate_query.py:92 | `'SOPHIA'` and `'KEVIN'` are `NAME` terminals. |
| `Corpus.HispanicQueryDerivable` | clients/evaluation.py:149 | The second reference query is derivable, and from exactly the expected statement. |
| `Corpus.GirlNamesQueryRejected` | clients/evaluation.py:154 | The third reference query (`SELECT DISTINCT ...`) is not derivable. |
| `Corpus.SophiaQueryRejected` | clients/evaluation.py:159 | The fourth reference query (`ORDER BY SUM(count)`) is not derivable. |
| `Corpus.KevinQueryRejected` | clients/evaluation.py:164 | The fifth reference query (`year_of_birth = '2012'`) is not derivable. |
| `Corpus.KevinQueryUnquotedDerivable` | clients/evaluation.py:164 | The fifth reference query with the year written bare is derivable, from the intended statement. |

## Left out

- Lexing is not modelled: whitespace and the tokenizing itself (`%ignore WS`,
  generate_query.py:96-97). The model starts from typed tokens. `Spells`
  states which texts each keyword token accepts, with the case folding below.
- Case folding is modelled for ASCII only. A case-insensitive Lark literal
  such as `"sum"i` is matched with regular-expression IGNORECASE. That also
  accepts a few non-ASCII letters (`ſ` for `s`, `ı` for `i`, so `ſum` and
  `lımit` match), which `Lower` and `Spells` do not.
- Keyword/literal collisions in Lark's lexer are not modelled. The column
  name `count` and the keyword `COUNT` (`"count"i`) match the same text
  (`CountColumnSpellsCountKeyword`), and the model keeps them as distinct
  tokens. Which terminal the lexer picks is not modelled.
- The backtick in the first reference query (`` `count` ``,
  evaluation.py:144) has no terminal in the grammar, so that query cannot be
  written as tokens. The model makes no statement about it.
- `QueryGenerator` (generate_query.py:100-124) is left out. It is the
  OpenAI call with the grammar as a tool constraint; it appears only as the
  `generate` parameter. Its output is not assumed to be grammatical.
- `query_db` is not part of this model: the HTTP call to the backend, CSV
  parsing and pandas' type inference. It is the `execute` parameter returning
  a table or an error. The query client parses any response body as CSV
  without checking the HTTP status, so an error response can come back as a
  table and be scored as a success. The unconstrained `execute` covers this:
  nothing in the model assumes that a returned table means the backend
  accepted the query.
- `test_cases` (evaluation.py:139-172) runs each reference query against the
  backend to fill in the expected data, which needs the network. The model
  takes the expected data as a field of `TestCase`. When it is absent and
  the data check is reached, the case raises `NoExpectedData`, as
  `expected_data.columns` would on `None`.
- Credentials, the token generator, the UI and the local evaluation script
  are outside the core.
- Metrics: the source divides with floating point. The model keeps each rate
  as an exact count over the batch size; `AsReal` gives the exact ratio and
  rounding is not modelled.
- Values are integers or text. Cells that Python compares equal across
  types, such as `2015` and `2015.0` (pandas reads an integer column with a
  blank cell as floats), are encoded as the same `Value`. Values with no
  integer or text form, such as the floating-point result of `AVG`, are
  outside the model.
- Duplicate column labels are not modelled. With them, pandas indexing
  yields a frame rather than a column; `Lookup` takes the first column of
  that name.
- The external services are modelled as deterministic functions of their
  input. Repeated calls with the same prompt could differ in reality.
- `EvalResult.error_message`: the source stores the exception object (any
  exception is truthy for `not error_message`). The model stores its message
  and promises only that it is present, not that it is non-empty.
- The model follows the code, including where it is surprising:
  - the metrics of an empty batch raise a division by zero;
  - an exception from the generation service is not caught, and aborts the
    run;
  - a data check that indexes a missing column raises `KeyError`, and aborts
    the run;
  - column names and literal terminals are matched case-sensitively; only
    keywords other than `SELECT` are case-insensitive.
