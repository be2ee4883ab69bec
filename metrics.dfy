/**
 * calculate_metrics: the success, schema-compliance and accuracy rates of a
 * batch of results, each the number of results whose flag is set over the
 * batch size. Rates are kept as exact counts; `AsReal` gives the ratio.
 */
module Metrics {
  import opened Wrappers
  import opened Records
  import opened Checks

  datatype Flag = Succeeded | SchemaMatched | DataCorrect

  predicate Raised(r: EvalResult, f: Flag)
  {
    match f
    case Succeeded => r.success
    case SchemaMatched => r.schemaMatches
    case DataCorrect => r.dataCorrect
  }

  /** `sum(r.<flag> for r in results)`. */
  function Count(rs: seq<EvalResult>, f: Flag): (n: nat)
    ensures n <= |rs|
  {
    if rs == [] then 0 else (if Raised(rs[0], f) then 1 else 0) + Count(rs[1..], f)
  }

  datatype Rate = Rate(hits: nat, total: nat)

  datatype Metrics = Metrics(successRate: Rate, schemaComplianceRate: Rate, accuracyRate: Rate)

  /** The ratio the source computes with `/`. */
  function AsReal(r: Rate): (x: real)
    requires 0 < r.total && r.hits <= r.total
    ensures 0.0 <= x <= 1.0
  {
    assert r.hits as real <= r.total as real;
    r.hits as real / r.total as real
  }

  /**
   * The three rates; an empty batch divides by zero. Each rate counts the
   * results with its flag set over the batch size.
   */
  function CalculateMetrics(rs: seq<EvalResult>): (r: Result<Metrics, Fault>)
    ensures r.Failure? <==> |rs| == 0
    ensures r.Failure? ==> r.error == DivisionByZero
    ensures r.Success? ==>
      && r.value.successRate == Rate(|Hits(rs, Succeeded)|, |rs|)
      && r.value.schemaComplianceRate == Rate(|Hits(rs, SchemaMatched)|, |rs|)
      && r.value.accuracyRate == Rate(|Hits(rs, DataCorrect)|, |rs|)
  {
    CountIsNumberOfHits(rs, Succeeded);
    CountIsNumberOfHits(rs, SchemaMatched);
    CountIsNumberOfHits(rs, DataCorrect);
    var total := |rs|;
    if total == 0 then Failure(DivisionByZero)
    else Success(Metrics(
      Rate(Count(rs, Succeeded), total),
      Rate(Count(rs, SchemaMatched), total),
      Rate(Count(rs, DataCorrect), total)))
  }

  lemma {:induction false} CountAppend(rs: seq<EvalResult>, r: EvalResult, f: Flag)
    ensures Count(rs + [r], f) == Count(rs, f) + (if Raised(r, f) then 1 else 0)
  {
    if rs != [] {
      assert (rs + [r])[1..] == rs[1..] + [r];
      CountAppend(rs[1..], r, f);
    } else {
      assert [r][1..] == [];
    }
  }

  /** The indices of the results whose flag is set. */
  ghost function Hits(rs: seq<EvalResult>, f: Flag): set<nat>
  {
    set i: nat | i < |rs| && Raised(rs[i], f)
  }

  lemma {:induction false} HitsAppend(rs: seq<EvalResult>, r: EvalResult, f: Flag)
    ensures Hits(rs + [r], f) == Hits(rs, f) + (if Raised(r, f) then {|rs|} else {})
  {
    var s := rs + [r];
    assert forall i :: 0 <= i < |rs| ==> s[i] == rs[i];
    assert s[|rs|] == r;
  }

  /** A count is the number of results whose flag is set, so a rate is the batch mean of that flag. */
  lemma {:induction false} CountIsNumberOfHits(rs: seq<EvalResult>, f: Flag)
    ensures Count(rs, f) == |Hits(rs, f)|
  {
    if rs != [] {
      var init, last := rs[..|rs| - 1], rs[|rs| - 1];
      assert rs == init + [last];
      CountIsNumberOfHits(init, f);
      CountAppend(init, last, f);
      HitsAppend(init, last, f);
      assert |init| !in Hits(init, f);
    }
  }

  /** A flag implied by another is counted at least as often. */
  lemma {:induction false} CountMonotone(rs: seq<EvalResult>, weaker: Flag, stronger: Flag)
    requires forall i :: 0 <= i < |rs| ==> Raised(rs[i], stronger) ==> Raised(rs[i], weaker)
    ensures Count(rs, stronger) <= Count(rs, weaker)
  {
    if rs != [] {
      assert forall i :: 0 <= i < |rs[1..]| ==> rs[1..][i] == rs[i + 1];
      CountMonotone(rs[1..], weaker, stronger);
    }
  }

  /**
   * Over a non-empty batch of consistent results every rate has the batch size
   * as its total and lies in [0, 1], and success >= schema compliance >= accuracy.
   */
  lemma {:induction false} MetricsOrdered(rs: seq<EvalResult>)
    requires forall i :: 0 <= i < |rs| ==> Consistent(rs[i])
    ensures CalculateMetrics(rs).Success? <==> |rs| > 0
    ensures CalculateMetrics(rs).Success? ==>
      var m := CalculateMetrics(rs).value;
      && m.successRate.total == m.schemaComplianceRate.total == m.accuracyRate.total == |rs|
      && m.successRate.hits == |Hits(rs, Succeeded)|
      && m.schemaComplianceRate.hits == |Hits(rs, SchemaMatched)|
      && m.accuracyRate.hits == |Hits(rs, DataCorrect)|
      && m.accuracyRate.hits <= m.schemaComplianceRate.hits <= m.successRate.hits <= |rs|
      && 0.0 <= AsReal(m.accuracyRate) <= AsReal(m.schemaComplianceRate) <= AsReal(m.successRate) <= 1.0
  {
    CountMonotone(rs, SchemaMatched, DataCorrect);
    CountMonotone(rs, Succeeded, SchemaMatched);
    CountIsNumberOfHits(rs, Succeeded);
    CountIsNumberOfHits(rs, SchemaMatched);
    CountIsNumberOfHits(rs, DataCorrect);
    if |rs| > 0 {
      var n := |rs| as real;
      var a, s, t := Count(rs, DataCorrect) as real, Count(rs, SchemaMatched) as real, Count(rs, Succeeded) as real;
      DivideMonotone(a, s, n);
      DivideMonotone(s, t, n);
    }
  }

  lemma DivideMonotone(x: real, y: real, d: real)
    requires x <= y && 0.0 < d
    ensures x / d <= y / d
  {
  }
}
