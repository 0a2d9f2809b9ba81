/**
 * Facts about multiplication by a positive block size that the solver does
 * not find unaided.
 */
module Arithmetic {

  lemma MulPos(step: int, k: int)
    requires step > 0 && k >= 1
    ensures step * k >= step
  {
  }

  lemma MulNeg(step: int, k: int)
    requires step > 0 && k <= -1
    ensures step * k <= -step
  {
  }

  lemma MulNonneg(step: int, k: int)
    requires step > 0 && k >= 0
    ensures step * k >= 0
  {
    if k >= 1 {
      MulPos(step, k);
    }
  }

  lemma MulMonotone(step: int, i: int, j: int)
    requires step > 0 && i <= j
    ensures step * i <= step * j
  {
    MulNonneg(step, j - i);
    assert step * j == step * i + step * (j - i);
  }

  lemma MulSucc(a: int, n: int)
    ensures a * (n + 1) == a * n + a
  {
  }

  /** A multiple of step leaves no remainder. */
  lemma ModMultiple(step: int, k: int)
    requires step > 0
    ensures (step * k) % step == 0
  {
    var q := (step * k) / step;
    var m := (step * k) % step;
    assert step * k == step * q + m;
    assert step * (k - q) == m;
    if k - q >= 1 {
      MulPos(step, k - q);
    } else if k - q <= -1 {
      MulNeg(step, k - q);
    }
  }

  /** Dividing a multiple of step by step gives back the factor. */
  lemma DivMultiple(step: int, k: int)
    requires step > 0
    ensures (step * k) / step == k
  {
    var q := (step * k) / step;
    ModMultiple(step, k);
    assert step * k == step * q;
    assert step * (k - q) == 0;
    if k - q >= 1 {
      MulPos(step, k - q);
    } else if k - q <= -1 {
      MulNeg(step, k - q);
    }
  }

  /** Adding or taking away one step keeps a value a multiple of step. */
  lemma ModShift(step: int, a: int)
    requires step > 0 && a % step == 0
    ensures (a + step) % step == 0 && (a - step) % step == 0
  {
    var q := a / step;
    assert a == step * q;
    assert a + step == step * (q + 1);
    assert a - step == step * (q - 1);
    ModMultiple(step, q + 1);
    ModMultiple(step, q - 1);
  }
}
