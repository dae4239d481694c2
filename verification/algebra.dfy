/** Facts of nonlinear arithmetic, each on its own variables. */
module Algebra {
  lemma StepUp(a: int, d: int, k: int, n: int)
    requires d * (k + 1) == a * (n - 1 - k)
    ensures (a + d) * (k + 1) == a * n
  {
  }

  lemma StepAcross(a: int, b: int, k: int, n: int)
    requires a * k == b * (n - k)
    ensures (b + a) * (n - k) == a * n
  {
  }

  lemma QuotientStep(a: real, b: real, a': real, b': real, j: real, x: real, y: real)
    requires b > 0.0 && b' > 0.0 && j > 0.0 && y > 0.0
    requires a' * j == a * x && b' * j == b * y
    ensures a' / b' == (a / b) * (x / y)
  {
  }

  lemma QuotientRange(a: real, b: real)
    requires b > 0.0 && 0.0 <= a <= b
    ensures 0.0 <= a / b <= 1.0 && (a / b == 0.0 <==> a == 0.0)
  {
  }

  lemma QuotientMonotone(x: real, y: real, b: real)
    requires b > 0.0 && x <= y
    ensures x / b <= y / b
  {
  }

  lemma QuotientIsOne(x: real, y: real)
    requires y > 0.0 && x <= y
    ensures x / y >= 1.0 <==> x == y
  {
    if x / y >= 1.0 { ScaleUp(x / y, y); }
  }

  lemma ScaleUp(f: real, s: real)
    requires s > 0.0 && f >= 1.0
    ensures f * s >= s
  {
  }

  lemma QuotientShrinks(s: real, t: real, x: real, y: real)
    requires s >= 0.0 && x <= y && y > 0.0 && t == s * (x / y)
    ensures t <= s
  {
    QuotientMonotone(x, y, y);
    ScaleDown(s, x / y);
  }

  lemma ScaleDown(s: real, f: real)
    requires s >= 0.0 && f <= 1.0
    ensures s * f <= s
  {
  }

  /** One more summand, of a mean over one more sample. */
  lemma MeanStep(q: real, p: real, t: real, w: real, v: real, x: real, F: real, G: real, H: real)
    requires t == q * w + p * v && H == q * F + p * G
    ensures t * x + H == q * (w * x + F) + p * (v * x + G)
  {
  }

}
