/** The evaluator's two records: a test case and the result of evaluating it. */
module Records {
  import opened Wrappers
  import opened Tables

  /** A natural-language question with the columns and the data its answer must contain. */
  datatype TestCase = TestCase(
    naturalLanguage: string,
    expectedSql: string,
    expectedColumns: set<string>,
    expectedData: Option<Table>)

  datatype EvalResult = EvalResult(
    testCase: TestCase,
    generatedSql: string,
    success: bool,
    schemaMatches: bool,
    dataCorrect: bool,
    errorMessage: Option<string>,
    actualResults: Option<Table>)

  /**
   * What every result the evaluator builds satisfies: the three flags only ever
   * weaken left to right, the error message is there exactly when execution
   * failed, and the returned table exactly when it succeeded.
   */
  ghost predicate Consistent(r: EvalResult)
  {
    && (r.dataCorrect ==> r.schemaMatches)
    && (r.schemaMatches ==> r.success)
    && (r.errorMessage.Some? <==> !r.success)
    && (r.actualResults.Some? <==> r.success)
  }
}
