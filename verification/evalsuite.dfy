/** The code_passk suite and the threshold gate of internal/eval/runner.go. */
module EvalSuite {
  import opened Text
  import opened PassAtK
  import Algebra

  /** What one sample of one case comes to: the generator fails, or the case's tests do or do not pass. */
  datatype Sample = GeneratorError | Failed | Passed

  datatype Row = Row(id: string, passed: bool, score: real, detail: string)

  /** The samples of a run, by case and by sample number. */
  type Samples = (nat, nat) -> Sample

  function CountPassed(draw: Samples, i: nat, n: nat): (c: nat)
    ensures c <= n
  {
    if n == 0 then 0 else CountPassed(draw, i, n - 1) + if draw(i, n - 1) == Passed then 1 else 0
  }

  function CountNotPassed(draw: Samples, i: nat, n: nat): nat {
    if n == 0 then 0 else CountNotPassed(draw, i, n - 1) + if draw(i, n - 1) == Passed then 0 else 1
  }

  lemma {:induction false} CountsAddUp(draw: Samples, i: nat, n: nat)
    ensures CountPassed(draw, i, n) + CountNotPassed(draw, i, n) == n
  {
    if n > 0 { CountsAddUp(draw, i, n - 1); }
  }

  /** The samples among the first n that passed, or that did not. */
  ghost function Outcomes(draw: Samples, i: nat, n: nat, pass: bool): set<nat> {
    set s: nat | s < n && (draw(i, s) == Passed <==> pass)
  }

  lemma OutcomesNext(draw: Samples, i: nat, n: nat, pass: bool)
    requires n > 0
    ensures |Outcomes(draw, i, n, pass)| ==
      |Outcomes(draw, i, n - 1, pass)| + if draw(i, n - 1) == Passed <==> pass then 1 else 0
  {
    var before := Outcomes(draw, i, n - 1, pass);
    assert Outcomes(draw, i, n, pass) == before + if draw(i, n - 1) == Passed <==> pass then {n - 1} else {};
    assert n - 1 !in before;
  }

  /** Both counts are numbers of samples. */
  lemma {:induction false} CountsMean(draw: Samples, i: nat, n: nat)
    ensures CountPassed(draw, i, n) == |Outcomes(draw, i, n, true)|
    ensures CountNotPassed(draw, i, n) == |Outcomes(draw, i, n, false)|
  {
    if n > 0 {
      CountsMean(draw, i, n - 1);
      OutcomesNext(draw, i, n, true);
      OutcomesNext(draw, i, n, false);
    }
  }

  function Score(draw: Samples, i: nat, k: nat, n: nat): real
    requires k <= n
  {
    Estimate(n, CountPassed(draw, i, n), k)
  }

  lemma PassedIff(draw: Samples, i: nat, k: nat, n: nat)
    requires k <= n
    ensures 0.0 <= Score(draw, i, k, n) <= 1.0
    ensures Score(draw, i, k, n) >= 1.0 <==> CountNotPassed(draw, i, n) < k
  {
    EstimateRange(n, CountPassed(draw, i, n), k);
    CountsAddUp(draw, i, n);
  }

  function Total(draw: Samples, cases: nat, k: nat, n: nat): real
    requires k <= n
  {
    if cases == 0 then 0.0 else Total(draw, cases - 1, k, n) + Score(draw, cases - 1, k, n)
  }

  predicate Erring(draw: Samples, i: nat, n: nat) {
    exists s: nat :: s < n && draw(i, s) == GeneratorError
  }

  predicate RowOf(row: Row, id: string, draw: Samples, i: nat, k: nat, n: nat)
    requires k <= n
  {
    && row.id == id && row.score == Score(draw, i, k, n)
    && (row.passed <==> CountNotPassed(draw, i, n) < k)
    && row.detail == Dec(CountPassed(draw, i, n)) + "/" + Dec(n) + " correct"
  }

  function PassRate(draw: Samples, cases: nat, k: nat, n: nat): real
    requires k <= n && cases > 0
  {
    Total(draw, cases, k, n) / cases as real
  }

  function Metrics(draw: Samples, cases: nat, k: nat, n: nat): map<string, real>
    requires k <= n
  {
    if cases == 0 then map[]
    else map["pass@" + Dec(k) := PassRate(draw, cases, k, n), "pass_rate" := PassRate(draw, cases, k, n)]
  }

  /** The samples of one case: all of them, or up to a generator error. */
  method RunCase(draw: Samples, i: nat, n: nat) returns (failed: bool, correct: nat)
    ensures failed <==> Erring(draw, i, n)
    ensures !failed ==> correct == CountPassed(draw, i, n)
  {
    correct := 0;
    for s := 0 to n
      invariant correct == CountPassed(draw, i, s)
      invariant forall t: nat :: t < s ==> draw(i, t) != GeneratorError
    {
      var sample := draw(i, s);
      if sample == GeneratorError { return true, correct; }
      if sample == Passed { correct := correct + 1; }
    }
    failed := false;
  }

  /** What a run with n samples a case and pass@k comes to. */
  ghost predicate SuiteRun(ids: seq<string>, draw: Samples, k: nat, n: nat, err: bool, rows: seq<Row>,
                           metrics: map<string, real>)
    requires k <= n
  {
    && |rows| <= |ids| && (|rows| < |ids| <==> err)
    && (err ==> Erring(draw, |rows|, n))
    && (forall i: nat :: i < |rows| ==> !Erring(draw, i, n) && RowOf(rows[i], ids[i], draw, i, k, n))
    && metrics == if err then map[] else Metrics(draw, |ids|, k, n)
  }

  /**
   runCodePassK. A generator error ends the run; the rows of the cases before it stay. A case
   is recorded as passed exactly when fewer than k of its samples did not pass.
   */
  method RunCodePassK(ids: seq<string>, kConfigured: int, nSamples: int, draw: Samples)
    returns (err: bool, rows: seq<Row>, metrics: map<string, real>)
    ensures var k := if kConfigured <= 0 then 1 else kConfigured;
      SuiteRun(ids, draw, k, if nSamples < k then k else nSamples, err, rows, metrics)
  {
    var k := kConfigured;
    if k <= 0 { k := 1; }
    var n := nSamples;
    if n < k { n := k; }
    err, rows, metrics := false, [], map[];
    var sum := 0.0;
    for i := 0 to |ids|
      invariant |rows| == i && sum == Total(draw, i, k, n)
      invariant forall j: nat :: j < i ==> !Erring(draw, j, n) && RowOf(rows[j], ids[j], draw, j, k, n)
    {
      var failed, correct := RunCase(draw, i, n);
      if failed { return true, rows, map[]; }
      var pk := PassAtK.PassAtK(n, correct, k);
      sum := sum + pk;
      PassedIff(draw, i, k, n);
      rows := rows + [Row(ids[i], pk >= 1.0, pk, Dec(correct) + "/" + Dec(n) + " correct")];
    }
    if |ids| > 0 {
      var passRate := sum / |ids| as real;
      metrics := map["pass@" + Dec(k) := passRate, "pass_rate" := passRate];
    }
  }

  // ---------------------------------------------------------------- thresholds

  predicate Missed(metrics: map<string, real>, threshold: map<string, real>, name: string) {
    name in threshold && (name !in metrics || metrics[name] < threshold[name])
  }

  predicate Met(metrics: map<string, real>, threshold: map<string, real>) {
    forall name <- threshold :: !Missed(metrics, threshold, name)
  }

  /** The threshold part of RunSuite: the map is walked in any order. */
  method CheckThresholds(metrics: map<string, real>, threshold: map<string, real>)
    returns (passed: bool, failures: seq<string>)
    ensures passed <==> Met(metrics, threshold)
    ensures forall name :: name in failures <==> Missed(metrics, threshold, name)
    ensures forall i, j :: 0 <= i < j < |failures| ==> failures[i] != failures[j]
  {
    passed, failures := true, [];
    var rest := threshold.Keys;
    while rest != {}
      invariant rest <= threshold.Keys
      invariant forall name :: name in failures <==> name !in rest && Missed(metrics, threshold, name)
      invariant forall i, j :: 0 <= i < j < |failures| ==> failures[i] != failures[j]
      invariant passed <==> failures == []
      decreases rest
    {
      var name :| name in rest;
      rest := rest - {name};
      if name !in metrics || metrics[name] < threshold[name] {
        assert name !in failures;
        passed, failures := false, failures + [name];
      }
    }
    if !passed { assert Missed(metrics, threshold, failures[0]); }
  }

  lemma {:induction false} TotalRange(draw: Samples, cases: nat, k: nat, n: nat)
    requires k <= n
    ensures 0.0 <= Total(draw, cases, k, n) <= cases as real
    ensures Total(draw, cases, k, n) == cases as real <==> forall i: nat :: i < cases ==> CountNotPassed(draw, i, n) < k
  {
    if cases > 0 {
      TotalRange(draw, cases - 1, k, n);
      PassedIff(draw, cases - 1, k, n);
    }
  }

  /** A gate that asks 1 of either metric opens exactly when in every case fewer than k samples did not pass. */
  lemma GateAtOne(draw: Samples, cases: nat, k: nat, n: nat, metric: string)
    requires k <= n && cases > 0 && metric in {"pass_rate", "pass@" + Dec(k)}
    ensures Met(Metrics(draw, cases, k, n), map[metric := 1.0]) <==>
      forall i: nat :: i < cases ==> CountNotPassed(draw, i, n) < k
  {
    TotalRange(draw, cases, k, n);
    Algebra.QuotientIsOne(Total(draw, cases, k, n), cases as real);
    OneThreshold(Metrics(draw, cases, k, n), metric, 1.0);
  }

  lemma OneThreshold(metrics: map<string, real>, metric: string, least: real)
    ensures Met(metrics, map[metric := least]) <==> metric in metrics && metrics[metric] >= least
  {
    assert Met(metrics, map[metric := least]) <==> !Missed(metrics, map[metric := least], metric);
  }

  /** A dataset without cases has no metrics: it opens no gate that asks for one. */
  lemma NoCases(draw: Samples, k: nat, n: nat, threshold: map<string, real>)
    requires k <= n
    ensures Met(Metrics(draw, 0, k, n), threshold) <==> threshold == map[]
  {
  }

  lemma {:induction false} CountMonotone(d: Samples, e: Samples, i: nat, n: nat)
    requires forall s: nat :: s < n && d(i, s) == Passed ==> e(i, s) == Passed
    ensures CountPassed(d, i, n) <= CountPassed(e, i, n)
  {
    if n > 0 { CountMonotone(d, e, i, n - 1); }
  }

  lemma {:induction false} TotalMonotone(d: Samples, e: Samples, cases: nat, k: nat, n: nat)
    requires k <= n
    requires forall i: nat, s: nat :: i < cases && s < n && d(i, s) == Passed ==> e(i, s) == Passed
    ensures Total(d, cases, k, n) <= Total(e, cases, k, n)
  {
    if cases > 0 {
      TotalMonotone(d, e, cases - 1, k, n);
      CountMonotone(d, e, cases - 1, n);
      EstimateMonotoneInC(n, CountPassed(d, cases - 1, n), CountPassed(e, cases - 1, n), k);
    }
  }

  /** Further passing samples never close a gate. */
  lemma GateMonotone(d: Samples, e: Samples, cases: nat, k: nat, n: nat, threshold: map<string, real>)
    requires k <= n
    requires forall i: nat, s: nat :: i < cases && s < n && d(i, s) == Passed ==> e(i, s) == Passed
    requires Met(Metrics(d, cases, k, n), threshold)
    ensures Met(Metrics(e, cases, k, n), threshold)
  {
    TotalMonotone(d, e, cases, k, n);
    if cases > 0 {
      Algebra.QuotientMonotone(Total(d, cases, k, n), Total(e, cases, k, n), cases as real);
      var m, m' := Metrics(d, cases, k, n), Metrics(e, cases, k, n);
      forall name <- threshold ensures !Missed(m', threshold, name) {
        assert !Missed(m, threshold, name);
      }
    }
  }
}
