/**
 * Worked examples of the evaluator on small tables, one per behaviour of the
 * evaluator: a superset of values passes, a missing value fails, a null cell
 * is ignored, an extra column does not break the schema, a missing column
 * fails the schema without raising, and the corpus's second case aborts the
 * run when the generated query returns exactly the expected columns.
 */
module Scenarios {
  import opened Wrappers
  import opened Tables
  import opened Checks
  import opened Records
  import opened Evaluation

  function Years(ys: seq<int>): (cells: seq<Cell>)
    ensures |cells| == |ys| && forall i :: 0 <= i < |ys| ==> cells[i] == Some(Int(ys[i]))
  {
    seq(|ys|, i requires 0 <= i < |ys| => Some(Int(ys[i])))
  }

  /** Expected {2015} against actual {2014, 2015, 2016}: a superset passes. */
  lemma {:induction false} SupersetOfValuesPasses()
    ensures DataCheck([Column("year_of_birth", Years([2014, 2015, 2016]))], [Column("year_of_birth", Years([2015]))])
      == Success(true)
  {
    var actual := Years([2014, 2015, 2016]);
    assert NonNull(Years([2015])) == {Int(2015)};
    assert Some(Int(2015)) == actual[1];
  }

  /** Expected {2015, 2016} against actual {2015}: a missing value fails. */
  lemma {:induction false} MissingValueFails()
    ensures DataCheck([Column("year_of_birth", Years([2015]))], [Column("year_of_birth", Years([2015, 2016]))])
      == Success(false)
  {
    var expected := Years([2015, 2016]);
    assert Int(2016) in NonNull(expected) by { assert expected[1] == Some(Int(2016)); }
    assert NonNull(Years([2015])) == {Int(2015)};
  }

  /** A null among the expected cells asks nothing of the actual column. */
  lemma {:induction false} NullCellIgnored()
    ensures DataCheck([Column("gender", [Some(Text("MALE"))])], [Column("gender", [Some(Text("MALE")), None])])
      == Success(true)
  {
    assert NonNull([Some(Text("MALE")), None]) == {Text("MALE")};
  }

  /** Expected {child_s_first_name} against returned [child_s_first_name, count]: extra columns pass. */
  lemma {:induction false} ExtraColumnPasses()
    ensures SchemaMatches([Column("child_s_first_name", []), Column("count", [])], {"child_s_first_name"})
  {
    assert Lookup([Column("child_s_first_name", []), Column("count", [])], "child_s_first_name").Some?;
  }

  /** Dropping an expected column from the result fails the schema, without raising. */
  lemma {:induction false} MissingColumnFailsSchema(generate: Generator, execute: Executor, tc: TestCase)
    requires tc.expectedColumns == {"child_s_first_name", "gender"}
    requires GenerateSql(tc.naturalLanguage, generate).Success?
    requires execute(GenerateSql(tc.naturalLanguage, generate).value) == Rows([Column("child_s_first_name", [])])
    ensures CaseResult(tc, generate, execute).Success?
    ensures var r := CaseResult(tc, generate, execute).value; r.success && !r.schemaMatches && !r.dataCorrect
  {
    assert Lookup([Column("child_s_first_name", [])], "gender").None?;
  }

  /**
   * The corpus's second case expects the columns {gender, child_s_first_name},
   * but its expected data is the result of a query that also selects `count`.
   * A generated query that returns exactly the expected columns, here with
   * empty gender and name columns that cover the expected (empty) ones, passes
   * the schema check and then makes the data check raise on `count`. Whatever
   * the values, such an answer is never scored correct
   * (`MissingExpectedColumnNeverPasses`).
   */
  lemma {:induction false} ExactColumnsAbortSecondCase(generate: Generator, execute: Executor, tc: TestCase)
    requires tc.expectedColumns == {"child_s_first_name", "gender"}
    requires tc.expectedData == Some([Column("gender", []), Column("child_s_first_name", []), Column("count", [])])
    requires GenerateSql(tc.naturalLanguage, generate).Success?
    requires execute(GenerateSql(tc.naturalLanguage, generate).value)
      == Rows([Column("gender", []), Column("child_s_first_name", [])])
    ensures CaseResult(tc, generate, execute) == Failure(MissingColumn("count"))
  {
    var actual := [Column("gender", []), Column("child_s_first_name", [])];
    var expected := [Column("gender", []), Column("child_s_first_name", []), Column("count", [])];
    assert Lookup(actual, "gender") == Some([]);
    assert Lookup(actual, "child_s_first_name") == Some([]);
    assert Lookup(actual, "count") == None;
    assert SchemaMatches(actual, tc.expectedColumns);
    assert expected[1..][1..] == [Column("count", [])];
    assert DataCheck(actual, expected) == Failure(MissingColumn("count"));
  }
}
