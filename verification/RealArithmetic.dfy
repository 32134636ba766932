/** Order and magnitude of numbers, and small facts about products of reals, each stated over plain variables so that
    the solver can use them without searching. */
module RealArithmetic {

  function Min(x: real, y: real): real { if x <= y then x else y }

  function Max(x: real, y: real): real { if x >= y then x else y }

  function Abs(x: real): real { if x >= 0.0 then x else -x }

  function AbsInt(n: int): nat { if n >= 0 then n else -n }

  predicate Within(x: real, exact: real, error: real) {
    -error <= x - exact <= error
  }

  /** Multiplication under a name, so that facts about products can be matched without being multiplied out. */
  function Times(x: real, y: real): real {
    x * y
  }

  lemma ProductSign(x: real, y: real)
    ensures x >= 0.0 && y >= 0.0 ==> Times(x, y) >= 0.0
    ensures x > 0.0 && y > 0.0 ==> Times(x, y) > 0.0
  {
  }

  lemma SquareNonNegative(x: real)
    ensures x * x >= 0.0
  {
    if x >= 0.0 { ProductSign(x, x); } else { ProductSign(-x, -x); }
  }

  /** Scaling by a non-negative factor keeps an inequality; by a positive one, a strict inequality. */
  lemma Scale(k: real, a: real, b: real)
    requires k >= 0.0
    ensures a <= b ==> k * a <= k * b
    ensures a < b && k > 0.0 ==> k * a < k * b
  {
    ProductSign(k, b - a);
    assert k * (b - a) == k * b - k * a;
  }

  lemma TimesMonotone(a: real, b: real, k: real)
    requires k >= 0.0 && a <= b
    ensures Times(a, k) <= Times(b, k)
  {
    Scale(k, a, b);
  }

  lemma TimesSymmetric(x: real, y: real)
    ensures Times(x, y) == Times(y, x)
  {
  }

  lemma CancelScale(k: real, a: real, b: real)
    requires k > 0.0
    ensures k * a < k * b ==> a < b
    ensures k * a <= k * b ==> a <= b
    ensures k * a == k * b ==> a == b
  {
    Scale(k, a, b);
    Scale(k, b, a);
  }

  lemma SquareMonotone(a: real, b: real)
    requires 0.0 <= a <= b
    ensures a * a <= b * b
    ensures a < b ==> a * a < b * b
  {
    ProductSign(b - a, a + b);
    assert (b - a) * (a + b) == b * b - a * a;
  }

  lemma Divide(a: real, d: real) returns (q: real)
    requires d != 0.0
    ensures a == Times(d, q)
  {
    q := a / d;
  }
}
