/**
 The pass@k estimator of internal/eval/runner.go and of faraday_eval/judge.py, over reals.
 */
module PassAtK {
  import Algebra

  // ---------------------------------------------------------------- binomial coefficients

  function Choose(n: nat, k: nat): nat {
    if k == 0 then 1 else if n == 0 then 0 else Choose(n - 1, k - 1) + Choose(n - 1, k)
  }

  lemma {:induction false} ChooseRange(n: nat, k: nat)
    ensures k <= n ==> Choose(n, k) >= 1
    ensures k > n ==> Choose(n, k) == 0
  {
    if k > 0 && n > 0 {
      ChooseRange(n - 1, k - 1);
      ChooseRange(n - 1, k);
    }
  }

  /** C(n, k+1) (k+1) = C(n, k) (n-k), which also holds beyond n, where both sides vanish. */
  lemma {:induction false} ChooseStep(n: nat, k: nat)
    ensures Choose(n, k + 1) * (k + 1) == Choose(n, k) * (n - k)
  {
    if n == 0 {
      ChooseRange(0, k);
    } else {
      var a := Choose(n - 1, k);
      ChooseStep(n - 1, k);
      Algebra.StepUp(a, Choose(n - 1, k + 1), k, n);
      if k > 0 {
        ChooseStep(n - 1, k - 1);
        Algebra.StepAcross(a, Choose(n - 1, k - 1), k, n);
      }
    }
  }

  lemma {:induction false} ChooseMonotone(m: nat, n: nat, k: nat)
    requires m <= n
    ensures Choose(m, k) <= Choose(n, k)
    decreases n
  {
    if m < n && k > 0 { ChooseMonotone(m, n - 1, k); }
  }

  // ---------------------------------------------------------------- the estimator

  /** C(m, k) / C(n, k): the share of the k-subsets of n samples that lie within m of them. */
  function Share(m: nat, n: nat, k: nat): real
    requires k <= n
  {
    ChooseRange(n, k);
    Choose(m, k) as real / Choose(n, k) as real
  }

  /** 1 - C(n-c, k) / C(n, k), as both doc comments have it. */
  function Estimate(n: nat, c: nat, k: nat): real
    requires c <= n && k <= n
  {
    1.0 - Share(n - c, n, k)
  }

  /** The Python twin. */
  function PyPassAtK(n: nat, c: nat, k: nat): real
    requires c <= n
  {
    if n - c < k then 1.0
    else 1.0 - Share(n - c, n, k)
  }

  lemma ChooseStepReal(n: nat, k: nat)
    ensures Choose(n, k + 1) as real * (k + 1) as real == Choose(n, k) as real * (n - k) as real
  {
    ChooseStep(n, k);
  }

  lemma StepParts(n: nat, i: nat) returns (a: real, a': real, j: real, x: real)
    ensures a == Choose(n, i) as real && a' == Choose(n, i + 1) as real && j == (i + 1) as real && x == (n - i) as real
    ensures a' * j == a * x
  {
    ChooseStepReal(n, i);
    a, a', j, x := Choose(n, i) as real, Choose(n, i + 1) as real, (i + 1) as real, (n - i) as real;
  }

  lemma ShareStep(m: nat, n: nat, i: nat)
    requires i < n
    ensures Share(m, n, i + 1) == Share(m, n, i) * ((m - i) as real / (n - i) as real)
  {
    var a, a', j, x := StepParts(m, i);
    var b, b', j', y := StepParts(n, i);
    ChooseRange(n, i);
    ChooseRange(n, i + 1);
    Algebra.QuotientStep(a, b, a', b', j, x, y);
  }

  lemma ShareRange(m: nat, n: nat, k: nat)
    requires m <= n && k <= n
    ensures 0.0 <= Share(m, n, k) <= 1.0
    ensures Share(m, n, k) == 0.0 <==> m < k
  {
    ChooseRange(n, k);
    ChooseRange(m, k);
    ChooseMonotone(m, n, k);
    Algebra.QuotientRange(Choose(m, k) as real, Choose(n, k) as real);
  }

  /** passAtK. It never divides by zero, and outside 0 <= k <= n its answer is a constant. */
  method PassAtK(n: int, c: int, k: int) returns (r: real)
    requires 0 <= c <= n
    ensures 0 <= k <= n ==> r == Estimate(n, c, k)
    ensures k > n ==> r == 1.0
    ensures k < 0 ==> r == 0.0
    ensures k >= 0 ==> r == PyPassAtK(n, c, k)
  {
    if n - c < k {
      if k <= n { ShareRange(n - c, n, k); }
      return 1.0;
    }
    var p := 1.0;
    var i := 0;
    while i < k
      invariant 0 <= i && (k >= 0 ==> i <= k) && (k < 0 ==> i == 0)
      invariant i <= n && p == Share(n - c, n, i)
    {
      ShareStep(n - c, n, i);
      p := p * ((n - c - i) as real / (n - i) as real);
      i := i + 1;
    }
    return 1.0 - p;
  }

  /** The early return of the Python twin is no special case. */
  lemma PythonAgrees(n: nat, c: nat, k: nat)
    requires c <= n && k <= n
    ensures PyPassAtK(n, c, k) == Estimate(n, c, k)
  {
    ShareRange(n - c, n, k);
  }

  /** A probability, and certain exactly when fewer than k samples failed. */
  lemma EstimateRange(n: nat, c: nat, k: nat)
    requires c <= n && k <= n
    ensures 0.0 <= Estimate(n, c, k) <= 1.0
    ensures Estimate(n, c, k) == 1.0 <==> n - c < k
  {
    ShareRange(n - c, n, k);
  }

  lemma EstimateMonotoneInC(n: nat, c: nat, d: nat, k: nat)
    requires c <= d <= n && k <= n
    ensures Estimate(n, c, k) <= Estimate(n, d, k)
  {
    ChooseRange(n, k);
    ChooseMonotone(n - d, n - c, k);
    Algebra.QuotientMonotone(Choose(n - d, k) as real, Choose(n - c, k) as real, Choose(n, k) as real);
  }

  lemma {:induction false} EstimateMonotoneInK(n: nat, c: nat, j: nat, k: nat)
    requires c <= n && j <= k <= n
    ensures Estimate(n, c, j) <= Estimate(n, c, k)
    decreases k
  {
    if j < k {
      EstimateMonotoneInK(n, c, j, k - 1);
      ShareShrinks(n - c, n, k - 1);
    }
  }

  lemma ShareShrinks(m: nat, n: nat, i: nat)
    requires m <= n && i < n
    ensures Share(m, n, i + 1) <= Share(m, n, i)
  {
    var s, t, x, y := ShareParts(m, n, i);
    Algebra.QuotientShrinks(s, t, x, y);
  }

  lemma ShareParts(m: nat, n: nat, i: nat) returns (s: real, t: real, x: real, y: real)
    requires m <= n && i < n
    ensures s == Share(m, n, i) && t == Share(m, n, i + 1) && s >= 0.0 && x <= y && y > 0.0 && t == s * (x / y)
  {
    ShareStep(m, n, i);
    ShareRange(m, n, i);
    s, t, x, y := Share(m, n, i), Share(m, n, i + 1), (m - i) as real, (n - i) as real;
  }

  // ---------------------------------------------------------------- unbiasedness

  function Pow(x: real, n: nat): real {
    if n == 0 then 1.0 else x * Pow(x, n - 1)
  }

  /** The probability that exactly c of n samples pass, each passing with probability p and failing with q. */
  function Binomial(n: nat, p: real, q: real, c: nat): real {
    if c > n then 0.0 else Choose(n, c) as real * Pow(p, c) * Pow(q, n - c)
  }

  function Distribution(n: nat, p: real, q: real): nat -> real {
    (c: nat) => Binomial(n, p, q, c)
  }

  /** The sum of w(c) f(c) over c = 0 .. m - 1. */
  function Dot(w: nat -> real, f: nat -> real, m: nat): real {
    if m == 0 then 0.0 else w(m - 1) * f(m - 1) + Dot(w, f, m - 1)
  }

  /** The mean of f(c) when c of n samples pass. */
  function Mean(n: nat, p: real, f: nat -> real): real {
    Dot(Distribution(n, p, 1.0 - p), f, n + 1)
  }

  ghost predicate Linear(f: nat -> real, g: nat -> real, h: nat -> real, b: real, m: nat) {
    forall c: nat :: c < m ==> LinearAt(f, g, h, b, c)
  }

  ghost predicate LinearAt(f: nat -> real, g: nat -> real, h: nat -> real, b: real, c: nat) {
    h(c) == f(c) + b * g(c)
  }

  lemma {:induction false} DotLinear(w: nat -> real, f: nat -> real, g: nat -> real, h: nat -> real, b: real, m: nat)
    requires Linear(f, g, h, b, m)
    ensures Dot(w, h, m) == Dot(w, f, m) + b * Dot(w, g, m)
    decreases m, 0
  {
    if m > 0 {
      assert LinearAt(f, g, h, b, m - 1);
      var F, G, H := DotParts(w, f, g, h, b, m - 1);
    }
  }

  lemma {:induction false} DotParts(w: nat -> real, f: nat -> real, g: nat -> real, h: nat -> real, b: real, m: nat)
    returns (F: real, G: real, H: real)
    requires Linear(f, g, h, b, m)
    ensures F == Dot(w, f, m) && G == Dot(w, g, m) && H == Dot(w, h, m)
    ensures H == F + b * G
    decreases m, 1
  {
    DotLinear(w, f, g, h, b, m);
    F, G, H := Dot(w, f, m), Dot(w, g, m), Dot(w, h, m);
  }

  /** The weights t arise from w by one more trial, which shifts the count with weight p. */
  ghost predicate OneMore(t: nat -> real, w: nat -> real, p: real, q: real) {
    t(0) == q * w(0) && forall c: nat :: OneMoreAt(t, w, p, q, c)
  }

  ghost predicate OneMoreAt(t: nat -> real, w: nat -> real, p: real, q: real, c: nat) {
    t(c + 1) == q * w(c + 1) + p * w(c)
  }

  lemma {:induction false} DotStep(t: nat -> real, w: nat -> real, f: nat -> real, g: nat -> real, p: real, q: real,
                                   m: nat)
    requires OneMore(t, w, p, q)
    requires forall c: nat :: c < m ==> g(c) == f(c + 1)
    ensures Dot(t, f, m + 1) == q * Dot(w, f, m + 1) + p * Dot(w, g, m)
    decreases m, 0
  {
    var T, W, V := t(m), w(m), if m == 0 then 0.0 else w(m - 1);
    var F, G, H := 0.0, 0.0, 0.0;
    if m > 0 {
      F, G, H := DotStepParts(t, w, f, g, p, q, m - 1);
      assert OneMoreAt(t, w, p, q, m - 1);
    }
    Algebra.MeanStep(q, p, T, W, V, f(m), F, G, H);
  }

  lemma {:induction false} DotStepParts(t: nat -> real, w: nat -> real, f: nat -> real, g: nat -> real, p: real,
                                        q: real, m: nat)
    returns (F: real, G: real, H: real)
    requires OneMore(t, w, p, q)
    requires forall c: nat :: c < m ==> g(c) == f(c + 1)
    ensures H == Dot(t, f, m + 1) && F == Dot(w, f, m + 1) && G == Dot(w, g, m)
    ensures H == q * F + p * G
    decreases m, 1
  {
    DotStep(t, w, f, g, p, q, m);
    F, G, H := Dot(w, f, m + 1), Dot(w, g, m), Dot(t, f, m + 1);
  }

  /** The last of c passing samples out of n + 1 fails or passes. */
  lemma BinomialStep(n: nat, p: real, q: real, c: nat)
    ensures OneMoreAt(Distribution(n + 1, p, q), Distribution(n, p, q), p, q, c)
  {
    if c < n {
    } else if c == n {
      LastBinomial(n, p, q);
    }
  }

  lemma LastBinomial(n: nat, p: real, q: real)
    ensures Binomial(n + 1, p, q, n + 1) == p * Binomial(n, p, q, n)
  {
    ChooseRange(n, n + 1);
  }

  lemma DistributionStep(n: nat, p: real, q: real)
    ensures OneMore(Distribution(n + 1, p, q), Distribution(n, p, q), p, q)
  {
    assert Binomial(n + 1, p, q, 0) == q * Binomial(n, p, q, 0);
    var t, w := Distribution(n + 1, p, q), Distribution(n, p, q);
    forall c: nat ensures OneMoreAt(t, w, p, q, c) {
      BinomialStep(n, p, q, c);
    }
  }

  /** Averaging over n + 1 samples: one more sample fails, or passes and shifts the count. */
  lemma MeanStep(n: nat, p: real, f: nat -> real, g: nat -> real) returns (x: real, y: real, z: real)
    requires forall c: nat :: c <= n ==> g(c) == f(c + 1)
    ensures x == Mean(n, p, f) && y == Mean(n, p, g) && z == Mean(n + 1, p, f)
    ensures z == (1.0 - p) * x + p * y
  {
    DistributionStep(n, p, 1.0 - p);
    x, y, z := DotStepParts(Distribution(n + 1, p, 1.0 - p), Distribution(n, p, 1.0 - p), f, g, p, 1.0 - p, n + 1);
  }

  /** C(n-c, k) as a function of the number c of passing samples. */
  function FailSubsets(n: nat, k: nat): nat -> real {
    (c: nat) => if c <= n then Choose(n - c, k) as real else 0.0
  }

  lemma {:induction false} DotEqual(w: nat -> real, f: nat -> real, g: nat -> real, m: nat)
    requires forall c: nat :: c < m ==> f(c) == g(c)
    ensures Dot(w, f, m) == Dot(w, g, m)
  {
    if m > 0 { DotEqual(w, f, g, m - 1); }
  }

  /** With one more failing sample: the subsets without it and those with it. */
  lemma FailSubsetsSplit(n: nat, k: nat, p: real)
    ensures Mean(n, p, FailSubsets(n + 1, k + 1)) == Mean(n, p, FailSubsets(n, k + 1)) + Mean(n, p, FailSubsets(n, k))
  {
    var f, g, e := FailSubsets(n + 1, k + 1), FailSubsets(n, k + 1), FailSubsets(n, k);
    forall c: nat | c < n + 1 ensures f(c) == g(c) + e(c) {
      assert Choose(n + 1 - c, k + 1) == Choose(n - c, k) + Choose(n - c, k + 1);
    }
    DotSum(Distribution(n, p, 1.0 - p), g, e, f, n + 1);
  }

  lemma DotSum(w: nat -> real, f: nat -> real, g: nat -> real, h: nat -> real, m: nat)
    requires forall c: nat :: c < m ==> h(c) == f(c) + g(c)
    ensures Dot(w, h, m) == Dot(w, f, m) + Dot(w, g, m)
  {
  }

  /** The expected number of k-subsets of failing samples, which is C(n, k) (1-p)^k. */
  function ExpectedFails(p: real): (nat, nat) -> real {
    (n: nat, k: nat) => Mean(n, p, FailSubsets(n, k))
  }

  ghost predicate PascalAt(e: (nat, nat) -> real, q: real, n: nat, k: nat) {
    e(n + 1, k + 1) == e(n, k + 1) + q * e(n, k)
  }

  ghost predicate LikeFails(e: (nat, nat) -> real, q: real) {
    && (forall k: nat :: e(0, k) == if k == 0 then 1.0 else 0.0)
    && (forall n: nat :: e(n, 0) == 1.0)
    && (forall n: nat, k: nat :: PascalAt(e, q, n, k))
  }

  /** ch and pw obey the recurrences of C(n, k) and of q^k. */
  ghost predicate LikeBinomials(ch: (nat, nat) -> real, pw: nat -> real, q: real) {
    && (forall k: nat :: ch(0, k) == if k == 0 then 1.0 else 0.0)
    && (forall n: nat :: ch(n, 0) == 1.0)
    && (forall n: nat, k: nat :: PascalAt(ch, 1.0, n, k))
    && pw(0) == 1.0 && (forall k: nat :: PowerAt(pw, q, k))
  }

  ghost predicate PowerAt(pw: nat -> real, q: real, k: nat) {
    pw(k + 1) == q * pw(k)
  }

  lemma {:induction false} ClosedForm(e: (nat, nat) -> real, ch: (nat, nat) -> real, pw: nat -> real, q: real, n: nat,
                                      k: nat)
    requires LikeFails(e, q) && LikeBinomials(ch, pw, q)
    ensures e(n, k) == ch(n, k) * pw(k)
    decreases n, k
  {
    if n > 0 && k > 0 {
      ClosedForm(e, ch, pw, q, n - 1, k);
      ClosedForm(e, ch, pw, q, n - 1, k - 1);
      assert PascalAt(e, q, n - 1, k - 1) && PascalAt(ch, 1.0, n - 1, k - 1) && PowerAt(pw, q, k - 1);
    }
  }

  lemma BinomialsRecur(q: real) returns (ch: (nat, nat) -> real, pw: nat -> real)
    ensures LikeBinomials(ch, pw, q)
    ensures forall n: nat, k: nat :: ch(n, k) == Choose(n, k) as real
    ensures forall k: nat :: pw(k) == Pow(q, k)
  {
    ch, pw := (n: nat, k: nat) => Choose(n, k) as real, (k: nat) => Pow(q, k);
    forall k: nat ensures ch(0, k) == if k == 0 then 1.0 else 0.0 { }
    forall n: nat, k: nat ensures PascalAt(ch, 1.0, n, k) { }
    forall k: nat ensures PowerAt(pw, q, k) { }
  }

  lemma FailStep(n: nat, k: nat, p: real, q: real)
    requires q == 1.0 - p
    ensures Mean(n + 1, p, FailSubsets(n + 1, k + 1)) ==
      Mean(n, p, FailSubsets(n, k + 1)) + q * Mean(n, p, FailSubsets(n, k))
  {
    FailSubsetsSplit(n, k, p);
    var x, y, z := MeanStep(n, p, FailSubsets(n + 1, k + 1), FailSubsets(n, k + 1));
  }

  lemma {:induction false} MeanOfOne(n: nat, p: real)
    ensures Mean(n, p, FailSubsets(n, 0)) == 1.0
  {
    if n == 0 {
      MeanOfNone(p, 0);
    } else {
      MeanOfOne(n - 1, p);
      var f, g := FailSubsets(n, 0), FailSubsets(n - 1, 0);
      forall c: nat | c < n ensures f(c) == g(c) {
        assert Choose(n - c, 0) == Choose(n - 1 - c, 0) == 1;
      }
      DotEqual(Distribution(n - 1, p, 1.0 - p), f, g, n);
      var x, y, z := MeanStep(n - 1, p, f, g);
    }
  }

  lemma MeanOfNone(p: real, k: nat)
    ensures Mean(0, p, FailSubsets(0, k)) == if k == 0 then 1.0 else 0.0
  {
    var f := FailSubsets(0, k);
    assert Distribution(0, p, 1.0 - p)(0) == 1.0 && f(0) == Choose(0, k) as real;
    assert Dot(Distribution(0, p, 1.0 - p), f, 0) == 0.0;
  }

  lemma FailsRecur(p: real, q: real)
    requires q == 1.0 - p
    ensures LikeFails(ExpectedFails(p), q)
  {
    var e := ExpectedFails(p);
    forall k: nat ensures e(0, k) == if k == 0 then 1.0 else 0.0 { MeanOfNone(p, k); }
    forall n: nat ensures e(n, 0) == 1.0 { MeanOfOne(n, p); }
    forall n: nat, k: nat ensures PascalAt(e, q, n, k) { FailStep(n, k, p, q); }
  }

  lemma MeanFailSubsets(n: nat, k: nat, p: real) returns (a: real, b: real, u: real)
    ensures a == Mean(n, p, FailSubsets(n, k)) && b == Choose(n, k) as real && u == Pow(1.0 - p, k)
    ensures a == b * u
  {
    FailsRecur(p, 1.0 - p);
    var ch, pw := BinomialsRecur(1.0 - p);
    ClosedForm(ExpectedFails(p), ch, pw, 1.0 - p, n, k);
    a, b, u := ExpectedFails(p)(n, k), ch(n, k), pw(k);
  }

  /** The estimator as a function of the number of passing samples. */
  function Estimator(n: nat, k: nat): nat -> real
    requires k <= n
  {
    (c: nat) => if c <= n then Estimate(n, c, k) else 0.0
  }

  /**
   The estimator is unbiased: averaged over the samples it is the probability that at least
   one of k independent attempts passes, for every pass probability p.
   */
  lemma Unbiased(n: nat, k: nat, p: real)
    requires k <= n
    ensures Mean(n, p, Estimator(n, k)) == 1.0 - Pow(1.0 - p, k)
  {
    MeanOfOne(n, p);
    var a, b, u := MeanFailSubsets(n, k, p);
    ChooseRange(n, k);
    EstimatorParts(n, k, b, -1.0 / b);
    var e, y, z := MeanEstimator(n, k, p, -1.0 / b);
  }

  lemma MeanEstimator(n: nat, k: nat, p: real, i: real) returns (e: real, y: real, z: real)
    requires k <= n && Linear(FailSubsets(n, 0), FailSubsets(n, k), Estimator(n, k), i, n + 1)
    ensures e == Mean(n, p, FailSubsets(n, 0)) && y == Mean(n, p, FailSubsets(n, k)) && z == Mean(n, p, Estimator(n, k))
    ensures z == e + i * y
  {
    e, y, z := DotParts(Distribution(n, p, 1.0 - p), FailSubsets(n, 0), FailSubsets(n, k), Estimator(n, k), i, n + 1);
  }

  lemma EstimatorParts(n: nat, k: nat, b: real, i: real)
    requires k <= n && b == Choose(n, k) as real && b > 0.0 && i == -1.0 / b
    ensures Linear(FailSubsets(n, 0), FailSubsets(n, k), Estimator(n, k), i, n + 1)
  {
  }

}
