/** The generators of `edge_api.py`: the FNV-style string hash and the linear congruential generator.
    Both are 32-bit state machines; the theorems are that neither ever loses state: the generator has
    full period 2^32 from every seed, and the hash distinguishes every single-character substitution. */
module EdgeHash {
  import opened PowersOfTwo

  const MODULUS: int := 0x1_0000_0000
  const MULTIPLIER: int := 1664525
  const INCREMENT: int := 1013904223
  const FNV_OFFSET: int := 2166136261
  const FNV_PRIME: int := 16777619

  // ---------- divisibility by powers of two ----------

  /** 2^k divides x, stated by halving. */
  predicate Halves(k: nat, x: int) {
    k == 0 || (x % 2 == 0 && Halves(k - 1, x / 2))
  }

  lemma {:induction false} HalvesIsDivides(k: nat, x: int)
    ensures Halves(k, x) <==> x % Pow2(k) == 0
  {
    if k > 0 {
      HalvesIsDivides(k - 1, x / 2);
      TwiceDivides(Pow2(k - 1), x);
    }
  }

  /** 2p divides x exactly if x is even and p divides its half. */
  lemma TwiceDivides(p: int, x: int)
    requires p > 0
    ensures x % (2 * p) == 0 <==> x % 2 == 0 && (x / 2) % p == 0
  {
    if x % (2 * p) == 0 { TwiceDown(p, x, x / (2 * p)); }
    if x % 2 == 0 && (x / 2) % p == 0 { TwiceUp(p, x, x / 2 / p); }
  }

  lemma TwiceDown(p: int, x: int, q: int)
    requires p > 0 && x == (2 * p) * q
    ensures x % 2 == 0 && (x / 2) % p == 0
  {
    assert x == 2 * (p * q);
    MultipleMod(p, q);
  }

  lemma TwiceUp(p: int, x: int, q: int)
    requires p > 0 && x % 2 == 0 && x / 2 == p * q
    ensures x % (2 * p) == 0
  {
    assert x == (2 * p) * q;
    MultipleMod(2 * p, q);
  }

  lemma MultipleMod(m: int, q: int)
    requires m > 0
    ensures (m * q) % m == 0
  {
    ModUnique(m * q, m, q, 0);
  }

  lemma ModUnique(x: int, m: int, q: int, r: int)
    requires m > 0 && 0 <= r < m && x == m * q + r
    ensures x % m == r && x / m == q
  {
    var d := q - x / m;
    assert m * d == x % m - r by { assert m * d == m * q - m * (x / m); }
    if d > 0 {
      ProductAtLeast(m, d);
    } else if d < 0 {
      ProductAtLeast(m, -d);
    }
  }

  lemma ProductAtLeast(m: int, d: int)
    requires m > 0 && d > 0
    ensures m * d >= m
  {
    assert m * d == m + m * (d - 1);
  }

  lemma {:induction false} ZeroHalves(k: nat)
    ensures Halves(k, 0)
  {
    if k > 0 { ZeroHalves(k - 1); }
  }

  /** An odd factor 2h + 1 is invisible to powers of two. */
  lemma {:induction false} OddFactorCancels(k: nat, x: int, h: int)
    ensures Halves(k, x * (2 * h + 1)) <==> Halves(k, x)
  {
    if k > 0 {
      OddTimes(h, x);
      if x % 2 == 0 {
        HalfOfProduct(x / 2, 2 * h + 1);
        assert 2 * (x / 2) == x;
        OddFactorCancels(k - 1, x / 2, h);
      }
    }
  }

  lemma OddTimes(h: int, g: int)
    ensures (g * (2 * h + 1)) % 2 == g % 2
  {
    assert g * (2 * h + 1) == 2 * (g * h) + g;
  }

  lemma HalfOfProduct(x: int, y: int)
    ensures ((2 * x) * y) / 2 == x * y
  {
    assert (2 * x) * y == 2 * (x * y);
  }

  // ---------- the linear congruential generator ----------

  function LcgStep(s: int): int {
    (MULTIPLIER * s + INCREMENT) % MODULUS
  }

  /** The state after n draws. */
  function StateAfter(s: int, n: nat): int {
    if n == 0 then s else LcgStep(StateAfter(s, n - 1))
  }

  class Lcg {
    var state: int

    ghost predicate Valid()
      reads this
    {
      0 <= state < MODULUS
    }

    constructor (seed: int)
      ensures Valid() && state == seed % MODULUS
    {
      state := seed % MODULUS;
    }

    method Next() returns (u: real)
      requires Valid()
      modifies this
      ensures Valid() && state == LcgStep(old(state))
      ensures 0.0 <= u < 1.0 && u * MODULUS as real == state as real
    {
      state := (1664525 * state + 1013904223) % 4294967296;
      u := state as real / 4294967296.0;
    }

    /** n draws move the state to StateAfter, and they bring back the state they started from exactly when
        2^32 divides n. */
    method Draw(n: nat)
      requires Valid()
      modifies this
      ensures Valid() && state == StateAfter(old(state), n)
      ensures state == old(state) <==> n % MODULUS == 0
    {
      for i := 0 to n
        invariant Valid() && state == StateAfter(old(state), i)
      {
        var _ := Next();
      }
      LcgFullPeriod(old(state), n);
    }
  }

  function Pow(a: int, n: nat): int {
    if n == 0 then 1 else a * Pow(a, n - 1)
  }

  /** 1 + a + ... + a^(n-1) */
  function Geometric(a: int, n: nat): int {
    if n == 0 then 0 else 1 + a * Geometric(a, n - 1)
  }

  /** The generator before reduction modulo 2^32. */
  function Unreduced(s: int, n: nat): int {
    if n == 0 then s else MULTIPLIER * Unreduced(s, n - 1) + INCREMENT
  }

  lemma {:induction false} PowGeometric(a: int, d: int, n: nat)
    requires a == d + 1
    ensures Pow(a, n) == 1 + d * Geometric(a, n)
  {
    if n > 0 {
      PowGeometric(a, d, n - 1);
      Telescope(d, Geometric(a, n - 1));
    }
  }

  lemma Telescope(d: int, g: int)
    ensures (d + 1) * (1 + d * g) == 1 + d * (1 + (d + 1) * g)
  {
  }

  lemma {:induction false} GeometricSplit(a: int, m: nat, n: nat)
    ensures Geometric(a, m + n) == Geometric(a, m) + Pow(a, m) * Geometric(a, n)
  {
    if m > 0 {
      GeometricSplit(a, m - 1, n);
      Horner(a, Geometric(a, m - 1), Pow(a, m - 1), Geometric(a, n));
    }
  }

  lemma Horner(a: int, x: int, p: int, g: int)
    ensures a * (x + p * g) == a * x + (a * p) * g
  {
  }

  /** When a is 1 mod 4, the geometric sum of n terms and n contain the same power of two. */
  lemma {:induction false} GeometricValuation(a: int, b: int, k: nat, n: nat)
    requires a == 4 * b + 1
    ensures Halves(k, Geometric(a, n)) <==> Halves(k, n)
    decreases n
  {
    if n == 0 {
      ZeroHalves(k);
    } else if n % 2 == 1 {
      GeometricParity(a, 2 * b, n);
    } else if k > 0 {
      var m := n / 2;
      var h := GeometricDouble(a, b, m);
      assert n == m + m;
      OddFactorCancels(k - 1, Geometric(a, m), h);
      GeometricValuation(a, b, k - 1, m);
    }
  }

  lemma GeometricDouble(a: int, b: int, m: nat) returns (h: int)
    requires a == 4 * b + 1
    ensures Geometric(a, m + m) == 2 * (Geometric(a, m) * (2 * h + 1))
  {
    h := b * Geometric(a, m);
    GeometricSplit(a, m, m);
    PowGeometric(a, 4 * b, m);
    DoubleSum(Geometric(a, m), b, Pow(a, m));
  }

  lemma DoubleSum(g: int, b: int, p: int)
    requires p == 1 + (4 * b) * g
    ensures g + p * g == 2 * (g * (2 * (b * g) + 1))
  {
  }

  lemma {:induction false} GeometricParity(a: int, h: int, n: nat)
    requires a == 2 * h + 1
    ensures Geometric(a, n) % 2 == n % 2
  {
    if n > 0 {
      GeometricParity(a, h, n - 1);
      ParityStep(a, h, Geometric(a, n - 1), Geometric(a, n), n);
    }
  }

  lemma ParityStep(a: int, h: int, g: int, next: int, n: nat)
    requires a == 2 * h + 1 && next == 1 + a * g && n > 0 && g % 2 == (n - 1) % 2
    ensures next % 2 == n % 2
  {
    assert a * g == 2 * (h * g) + g;
    EvenPlus(h * g, g, next, n);
  }

  lemma EvenPlus(q: int, g: int, next: int, n: nat)
    requires next == 1 + 2 * q + g && n > 0 && g % 2 == (n - 1) % 2
    ensures next % 2 == n % 2
  {
  }

  lemma {:induction false} UnreducedClosedForm(s: int, h: int, n: nat)
    requires 2 * h + 1 == (MULTIPLIER - 1) * s + INCREMENT
    ensures Unreduced(s, n) - s == Geometric(MULTIPLIER, n) * (2 * h + 1)
  {
    if n > 0 {
      UnreducedClosedForm(s, h, n - 1);
      NextTerm(Geometric(MULTIPLIER, n - 1), 2 * h + 1);
    }
  }

  lemma NextTerm(g: int, d: int)
    ensures (1 + MULTIPLIER * g) * d == d + MULTIPLIER * (g * d)
  {
  }

  lemma {:induction false} StateIsUnreducedMod(s: int, n: nat)
    requires 0 <= s < MODULUS
    ensures StateAfter(s, n) == Unreduced(s, n) % MODULUS
  {
    if n > 0 {
      StateIsUnreducedMod(s, n - 1);
      var u := Unreduced(s, n - 1);
      ReduceInside(MULTIPLIER, u, INCREMENT);
    }
  }

  lemma ReduceInside(a: int, u: int, c: int)
    ensures (a * (u % MODULUS) + c) % MODULUS == (a * u + c) % MODULUS
  {
    var q, r := u / MODULUS, u % MODULUS;
    var q', r' := (a * r + c) / MODULUS, (a * r + c) % MODULUS;
    assert a * u + c == a * (MODULUS * q + r) + c == MODULUS * (a * q + q') + r';
    ModUnique(a * u + c, MODULUS, a * q + q', r');
  }

  lemma Modulus32()
    ensures Pow2(32) == MODULUS
  {
    assert Pow2(8) == 256;
    assert Pow2(16) == 65536 by { assert Pow2(12) == 16 * Pow2(8); }
    assert Pow2(24) == 16777216 by { assert Pow2(20) == 16 * Pow2(16); }
    assert Pow2(32) == 16 * Pow2(28) && Pow2(28) == 16 * Pow2(24);
  }

  lemma MultipleOfModulus(x: int)
    ensures Halves(32, x) <==> x % MODULUS == 0
  {
    Modulus32();
    HalvesIsDivides(32, x);
  }

  /** Full period: from every seed the generator first returns to it after exactly 2^32 draws, and then
      only at multiples of 2^32. */
  lemma LcgFullPeriod(s: int, n: nat)
    requires 0 <= s < MODULUS
    ensures StateAfter(s, n) == s <==> n % MODULUS == 0
  {
    StateIsUnreducedMod(s, n);
    SameResidue(Unreduced(s, n), s);
    ReturnsWhenSumVanishes(s, n);
    MultipleOfModulus(n);
    GeometricValuation(MULTIPLIER, MULTIPLIER / 4, 32, n);
  }

  lemma ReturnsWhenSumVanishes(s: int, n: nat)
    ensures (Unreduced(s, n) - s) % MODULUS == 0 <==> Halves(32, Geometric(MULTIPLIER, n))
  {
    var h := (MULTIPLIER - 1) / 2 * s + INCREMENT / 2;
    UnreducedClosedForm(s, h, n);
    MultipleOfModulus(Unreduced(s, n) - s);
    OddFactorCancels(32, Geometric(MULTIPLIER, n), h);
  }

  lemma SameResidue(u: int, s: int)
    requires 0 <= s < MODULUS
    ensures u % MODULUS == s <==> (u - s) % MODULUS == 0
  {
    if (u - s) % MODULUS == 0 {
      ModUnique(u, MODULUS, (u - s) / MODULUS, s);
    }
  }

  /** No two of the 2^32 states of a period coincide. */
  lemma LcgPeriodHasNoRepeat(s: int, i: nat, j: nat)
    requires 0 <= s < MODULUS && i < j < i + MODULUS
    ensures StateAfter(s, i) != StateAfter(s, j)
  {
    StateAfterAdds(s, i, j - i);
    StateInRange(s, i);
    LcgFullPeriod(StateAfter(s, i), j - i);
  }

  lemma {:induction false} StateAfterAdds(s: int, i: nat, n: nat)
    ensures StateAfter(s, i + n) == StateAfter(StateAfter(s, i), n)
  {
    if n > 0 { StateAfterAdds(s, i, n - 1); }
  }

  lemma StateInRange(s: int, n: nat)
    requires 0 <= s < MODULUS
    ensures 0 <= StateAfter(s, n) < MODULUS
  {
  }

  // ---------- the string hash ----------

  /** Bitwise exclusive or. */
  function Xor(x: nat, y: nat): nat {
    if x == 0 && y == 0 then 0 else (x + y) % 2 + 2 * Xor(x / 2, y / 2)
  }

  lemma {:induction false} XorBound(k: nat, x: nat, y: nat)
    requires x < Pow2(k) && y < Pow2(k)
    ensures Xor(x, y) < Pow2(k)
  {
    if k > 0 && (x > 0 || y > 0) { XorBound(k - 1, x / 2, y / 2); }
  }

  lemma XorUnfold(x: nat, y: nat)
    ensures Xor(x, y) % 2 == (x + y) % 2 && Xor(x, y) / 2 == Xor(x / 2, y / 2)
  {
    if x > 0 || y > 0 {
      ModUnique(Xor(x, y), 2, Xor(x / 2, y / 2), (x + y) % 2);
    }
  }

  lemma ParityCancels(x: int, y: int, z: int)
    requires (x + y) % 2 == (x + z) % 2
    ensures y % 2 == z % 2
  {
  }

  lemma {:induction false} XorInjective(x: nat, y: nat, x': nat, y': nat)
    requires Xor(x, y) == Xor(x', y')
    ensures x == x' <==> y == y'
  {
    if x + y + x' + y' > 0 {
      XorUnfold(x, y);
      XorUnfold(x', y');
      XorInjective(x / 2, y / 2, x' / 2, y' / 2);
      if x == x' { ParityCancels(x, y, y'); }
      if y == y' { ParityCancels(y, x, x'); }
    }
  }

  function FnvStep(h: nat, c: char): (r: nat)
    ensures r < MODULUS
  {
    (Xor(h, c as nat) * FNV_PRIME) % MODULUS
  }

  function FnvFrom(h: nat, s: string): nat
    decreases s
  {
    if s == [] then h else FnvFrom(FnvStep(h, s[0]), s[1..])
  }

  /** The loop with its five shifts and mask computes exclusive-or-then-multiply by 16777619 modulo 2^32. */
  method HashString(value: string) returns (h: nat)
    ensures h == FnvFrom(FNV_OFFSET, value)
  {
    h := 2166136261;
    var i := 0;
    while i < |value|
      invariant 0 <= i <= |value|
      invariant FnvFrom(FNV_OFFSET, value) == FnvFrom(h, value[i..])
    {
      ghost var before := h;
      h := Xor(h, value[i] as nat);
      h := (h + h * 2 + h * 16 + h * 128 + h * 256 + h * 16777216) % MODULUS;
      assert h == FnvStep(before, value[i]);
      assert value[i..][1..] == value[i + 1..];
      i := i + 1;
    }
  }

  lemma PrimeMultiplicationInjective(x: int, y: int)
    requires 0 <= x < MODULUS && 0 <= y < MODULUS
    requires (x * FNV_PRIME) % MODULUS == (y * FNV_PRIME) % MODULUS
    ensures x == y
  {
    EqualResidues(x * FNV_PRIME, y * FNV_PRIME);
    MultipleOfModulus((x - y) * FNV_PRIME);
    OddFactorCancels(32, x - y, FNV_PRIME / 2);
    MultipleOfModulus(x - y);
  }

  lemma EqualResidues(u: int, v: int)
    requires u % MODULUS == v % MODULUS
    ensures (u - v) % MODULUS == 0
  {
  }

  lemma FnvStepInjective(h: nat, c: char, h': nat, c': char)
    requires h < MODULUS && h' < MODULUS
    requires FnvStep(h, c) == FnvStep(h', c')
    ensures h == h' <==> c == c'
  {
    Modulus32();
    XorBound(32, h, c as nat);
    XorBound(32, h', c' as nat);
    PrimeMultiplicationInjective(Xor(h, c as nat), Xor(h', c' as nat));
    XorInjective(h, c as nat, h', c' as nat);
  }

  lemma {:induction false} FnvFromInjective(h: nat, h': nat, s: string)
    requires h < MODULUS && h' < MODULUS && h != h'
    ensures FnvFrom(h, s) != FnvFrom(h', s)
    decreases s
  {
    if s != [] {
      if FnvStep(h, s[0]) == FnvStep(h', s[0]) { FnvStepInjective(h, s[0], h', s[0]); }
      FnvFromInjective(FnvStep(h, s[0]), FnvStep(h', s[0]), s[1..]);
    }
  }

  lemma {:induction false} FnvFromConcat(h: nat, s: string, t: string)
    ensures FnvFrom(h, s + t) == FnvFrom(FnvFrom(h, s), t)
    decreases s
  {
    if s == [] {
      assert s + t == t;
    } else {
      assert (s + t)[1..] == s[1..] + t;
      FnvFromConcat(FnvStep(h, s[0]), s[1..], t);
    }
  }

  lemma {:induction false} FnvFromRange(h: nat, s: string)
    requires h < MODULUS
    ensures FnvFrom(h, s) < MODULUS
    decreases s
  {
    if s != [] { FnvFromRange(FnvStep(h, s[0]), s[1..]); }
  }

  /** Replacing one character anywhere in a string always changes its hash. */
  lemma SubstitutionChangesHash(prefix: string, a: char, b: char, suffix: string)
    requires a != b
    ensures FnvFrom(FNV_OFFSET, prefix + [a] + suffix) != FnvFrom(FNV_OFFSET, prefix + [b] + suffix)
  {
    var h := FnvFrom(FNV_OFFSET, prefix);
    FnvFromRange(FNV_OFFSET, prefix);
    SplitAtCharacter(prefix, a, suffix);
    SplitAtCharacter(prefix, b, suffix);
    if FnvStep(h, a) == FnvStep(h, b) { FnvStepInjective(h, a, h, b); }
    FnvFromInjective(FnvStep(h, a), FnvStep(h, b), suffix);
  }

  lemma SplitAtCharacter(prefix: string, c: char, suffix: string)
    ensures FnvFrom(FNV_OFFSET, prefix + [c] + suffix) == FnvFrom(FnvStep(FnvFrom(FNV_OFFSET, prefix), c), suffix)
  {
    FnvFromConcat(FNV_OFFSET, prefix + [c], suffix);
    FnvFromConcat(FNV_OFFSET, prefix, [c]);
    assert [c][1..] == [];
  }
}
