/**
 * The evaluator's driver: wrap the question in the fixed prompt, have the
 * generation service produce a query, have the backend execute it, then score
 * the outcome (execute -> schema -> data, each step guarding the next); and the
 * batch loop that scores every case in order and computes the metrics.
 *
 * The generation service and the backend are outside the model and appear as
 * function parameters: `generate` maps a prompt to a query or raises,
 * `execute` maps a query to a table or to the error it raised.
 */
module Evaluation {
  import opened Wrappers
  import opened Tables
  import opened Checks
  import opened Records
  import opened Metrics

  /** The outcome of `execute_query`: a table, or the exception it caught. */
  datatype Execution = Rows(table: Table) | ExecError(message: string)

  type Generator = string -> Result<string, string>
  type Executor = string -> Execution

  datatype Report = Report(results: seq<EvalResult>, metrics: Metrics)

  const PromptPrefix: string := "Generate a query for the Tinybird baby_names dataset for the following request: "
  const PromptSuffix: string := ". Do not impose any constraints beyond what is described in the request."

  /** The instruction template of generate_sql: fixed prefix, the request, fixed suffix. */
  function SupportingPrompt(request: string): (p: string)
    ensures |p| == |PromptPrefix| + |request| + |PromptSuffix|
    ensures p[..|PromptPrefix|] == PromptPrefix && p[|p| - |PromptSuffix|..] == PromptSuffix
  {
    PromptPrefix + request + PromptSuffix
  }

  /** Recovers the request from a prompt, if the prompt has the template's shape. */
  function RequestOf(prompt: string): Option<string>
  {
    if |prompt| >= |PromptPrefix| + |PromptSuffix|
       && prompt[..|PromptPrefix|] == PromptPrefix
       && prompt[|prompt| - |PromptSuffix|..] == PromptSuffix
    then Some(prompt[|PromptPrefix|..|prompt| - |PromptSuffix|])
    else None
  }

  /** The template loses nothing: the request is always recoverable from its prompt ... */
  lemma {:induction false} PromptRoundTrip(request: string)
    ensures RequestOf(SupportingPrompt(request)) == Some(request)
  {
    var p := SupportingPrompt(request);
    assert p[|PromptPrefix|..|p| - |PromptSuffix|] == request;
  }

  /** ... and every prompt of that shape is the template applied to what it recovers. */
  lemma {:induction false} PromptOfRequest(prompt: string, request: string)
    requires RequestOf(prompt) == Some(request)
    ensures SupportingPrompt(request) == prompt
  {
    assert prompt == prompt[..|PromptPrefix|] + prompt[|PromptPrefix|..|prompt| - |PromptSuffix|] + prompt[|prompt| - |PromptSuffix|..];
  }

  /** generate_sql: the service is asked with the one prompt whose request is the question. */
  function GenerateSql(naturalLanguage: string, generate: Generator): (r: Result<string, string>)
    ensures forall prompt :: RequestOf(prompt) == Some(naturalLanguage) ==> r == generate(prompt)
  {
    assert forall prompt :: RequestOf(prompt) == Some(naturalLanguage) ==> prompt == SupportingPrompt(naturalLanguage) by {
      forall prompt | RequestOf(prompt) == Some(naturalLanguage) ensures prompt == SupportingPrompt(naturalLanguage) {
        PromptOfRequest(prompt, naturalLanguage);
      }
    }
    generate(SupportingPrompt(naturalLanguage))
  }

  /** The result of evaluate_single_case, or the exception that escapes it. */
  function CaseResult(tc: TestCase, generate: Generator, execute: Executor): Result<EvalResult, Fault>
  {
    match GenerateSql(tc.naturalLanguage, generate)
    case Failure(message) => Failure(GenerationFailed(message))
    case Success(sql) =>
      match execute(sql)
      case ExecError(message) =>
        Success(EvalResult(tc, sql, false, false, false, Some(message), None))
      case Rows(actual) =>
        if !SchemaMatches(actual, tc.expectedColumns) then
          Success(EvalResult(tc, sql, true, false, false, None, Some(actual)))
        else
          match tc.expectedData
          case None => Failure(NoExpectedData)
          case Some(expected) =>
            match DataCheck(actual, expected)
            case Failure(fault) => Failure(fault)
            case Success(correct) => Success(EvalResult(tc, sql, true, true, correct, None, Some(actual)))
  }

  /** evaluate_single_case, step by step as the source assigns its flags. */
  method EvaluateSingleCase(tc: TestCase, generate: Generator, execute: Executor) returns (r: Result<EvalResult, Fault>)
    ensures r == CaseResult(tc, generate, execute)
  {
    var generated := GenerateSql(tc.naturalLanguage, generate);
    if generated.Failure? {
      return Failure(GenerationFailed(generated.error));
    }
    var generatedSql := generated.value;
    var execution := execute(generatedSql);
    var success := execution.Rows?;
    var schemaMatches := false;
    if success {
      schemaMatches := SchemaMatches(execution.table, tc.expectedColumns);
    }
    var dataCorrect := false;
    if success && schemaMatches {
      if tc.expectedData.None? {
        return Failure(NoExpectedData);
      }
      var checked := CheckDataCorrectness(execution.table, tc.expectedData.value);
      if checked.Failure? {
        return Failure(checked.error);
      }
      dataCorrect := checked.value;
    }
    var errorMessage := if execution.ExecError? then Some(execution.message) else None;
    var actualResults := if execution.Rows? then Some(execution.table) else None;
    return Success(EvalResult(tc, generatedSql, success, schemaMatches, dataCorrect, errorMessage, actualResults));
  }

  /** A failed execution is scored false on all three flags, with its message kept. */
  lemma ExecutionFailureScoresNothing(tc: TestCase, generate: Generator, execute: Executor)
    requires GenerateSql(tc.naturalLanguage, generate).Success?
    requires execute(GenerateSql(tc.naturalLanguage, generate).value).ExecError?
    ensures CaseResult(tc, generate, execute).Success?
    ensures var r := CaseResult(tc, generate, execute).value;
      && !r.success && !r.schemaMatches && !r.dataCorrect
      && r.errorMessage == Some(execute(GenerateSql(tc.naturalLanguage, generate).value).message)
      && r.actualResults.None?
  {
  }

  /**
   * What a scored case means: it records the generated query; success is "the
   * backend returned a table"; the schema flag is the schema check of that
   * table, and the data flag the data check, each only once the previous one held.
   */
  lemma CaseVerdict(tc: TestCase, generate: Generator, execute: Executor)
    requires CaseResult(tc, generate, execute).Success?
    ensures var r := CaseResult(tc, generate, execute).value;
      && Consistent(r)
      && r.testCase == tc
      && GenerateSql(tc.naturalLanguage, generate) == Success(r.generatedSql)
      && (r.success <==> execute(r.generatedSql).Rows?)
      && (r.success ==> r.actualResults == Some(execute(r.generatedSql).table))
      && (r.schemaMatches <==> r.success && tc.expectedColumns <= Names(execute(r.generatedSql).table))
      && (r.dataCorrect <==> r.schemaMatches && DataCheck(execute(r.generatedSql).table, tc.expectedData.value) == Success(true))
  {
  }

  /**
   * A case raises only when generation fails, or when the schema matched and the
   * data check cannot run: no expected data, or an expected column missing that
   * the walk reaches before any uncovered column (see `DataCheckFaults`).
   */
  lemma CaseFaults(tc: TestCase, generate: Generator, execute: Executor)
    ensures CaseResult(tc, generate, execute).Failure? <==>
      match GenerateSql(tc.naturalLanguage, generate)
      case Failure(_) => true
      case Success(sql) =>
        && execute(sql).Rows?
        && SchemaMatches(execute(sql).table, tc.expectedColumns)
        && (tc.expectedData.None? || DataCheck(execute(sql).table, tc.expectedData.value).Failure?)
  {
  }

  /**
   * An expected column whose name the returned table lacks can never be
   * scored correct: the case either raises or has its data flag false.
   */
  lemma {:induction false} MissingExpectedColumnNeverPasses(tc: TestCase, generate: Generator, execute: Executor, k: nat)
    requires tc.expectedData.Some? && k < |tc.expectedData.value|
    requires GenerateSql(tc.naturalLanguage, generate).Success?
    requires execute(GenerateSql(tc.naturalLanguage, generate).value).Rows?
    requires tc.expectedData.value[k].name !in Names(execute(GenerateSql(tc.naturalLanguage, generate).value).table)
    ensures CaseResult(tc, generate, execute).Success? ==> !CaseResult(tc, generate, execute).value.dataCorrect
  {
    var actual := execute(GenerateSql(tc.naturalLanguage, generate).value).table;
    DataCheckPasses(actual, tc.expectedData.value);
    assert !Covers(actual, tc.expectedData.value[k]);
  }

  /** run_evaluation: score every case in order, then compute the metrics. */
  method RunEvaluation(cases: seq<TestCase>, generate: Generator, execute: Executor) returns (r: Result<Report, Fault>)
    ensures r.Success? <==> |cases| > 0 && forall i :: 0 <= i < |cases| ==> CaseResult(cases[i], generate, execute).Success?
    ensures r.Success? ==>
      && |r.value.results| == |cases|
      && (forall i :: 0 <= i < |cases| ==> CaseResult(cases[i], generate, execute) == Success(r.value.results[i]))
      && CalculateMetrics(r.value.results) == Success(r.value.metrics)
    ensures r.Success? ==>
      var m := r.value.metrics;
      m.accuracyRate.hits <= m.schemaComplianceRate.hits <= m.successRate.hits <= m.successRate.total == |cases|
    ensures |cases| == 0 ==> r == Failure(DivisionByZero)
    ensures r.Failure? && |cases| > 0 ==>
      exists k :: 0 <= k < |cases| && CaseResult(cases[k], generate, execute) == Failure(r.error)
        && forall j :: 0 <= j < k ==> CaseResult(cases[j], generate, execute).Success?
  {
    var cfgResults: seq<EvalResult> := [];
    var i := 0;
    while i < |cases|
      invariant 0 <= i <= |cases|
      invariant |cfgResults| == i
      invariant forall j :: 0 <= j < i ==> CaseResult(cases[j], generate, execute) == Success(cfgResults[j])
      invariant forall j :: 0 <= j < i ==> Consistent(cfgResults[j])
    {
      var cfgResult := EvaluateSingleCase(cases[i], generate, execute);
      if cfgResult.Failure? {
        return Failure(cfgResult.error);
      }
      CaseVerdict(cases[i], generate, execute);
      cfgResults := cfgResults + [cfgResult.value];
      i := i + 1;
    }
    var metrics := CalculateMetrics(cfgResults);
    if metrics.Failure? {
      return Failure(metrics.error);
    }
    MetricsOrdered(cfgResults);
    return Success(Report(cfgResults, metrics.value));
  }
}
