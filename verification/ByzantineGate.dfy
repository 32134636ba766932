/** The Byzantine check of `hq_server.py`: an incoming weight vector is compared with every stored baseline
    by cosine similarity, and rejected when the smallest similarity falls below mean - sigma * std or below
    the hard floor -0.5. The square-root routine is a parameter. */
module ByzantineGate {
  import opened Dictionaries
  import opened Dispersion
  import opened RealArithmetic

  type Vec = seq<real>

  type Baselines = Dictionary<Vec>

  datatype Parsed = Unreadable | Weights(vec: Vec)

  const HARD_FLOOR: real := -0.5

  // ---------- cosine similarity ----------

  function Dot(a: Vec, b: Vec): real
    requires |a| == |b|
  {
    if a == [] then 0.0 else Dot(a[..|a| - 1], b[..|b| - 1]) + a[|a| - 1] * b[|b| - 1]
  }

  function Cosine(root: real -> real, x: Vec, y: Vec): real {
    var n := if |x| <= |y| then |x| else |y|;
    var a, b := x[..n], y[..n];
    Ratio(Dot(a, b), root(Dot(a, a)), root(Dot(b, b)))
  }

  function Ratio(dot: real, normA: real, normB: real): real {
    var norm := normA * normB;
    if norm == 0.0 then 0.0 else dot / norm
  }

  function Quadratic(aa: real, ab: real, bb: real, t: real): real {
    aa * (t * t) - 2.0 * t * ab + bb
  }

  lemma {:induction false} QuadraticNonNegative(a: Vec, b: Vec, t: real)
    requires |a| == |b|
    ensures Quadratic(Dot(a, a), Dot(a, b), Dot(b, b), t) >= 0.0
  {
    if a != [] {
      var a', b', x, y := a[..|a| - 1], b[..|b| - 1], a[|a| - 1], b[|b| - 1];
      QuadraticNonNegative(a', b', t);
      QuadraticStep(Dot(a', a'), Dot(a', b'), Dot(b', b'), Dot(a, a), Dot(a, b), Dot(b, b), t, x, y);
    } else {
      assert Quadratic(0.0, 0.0, 0.0, t) == 0.0;
    }
  }

  lemma QuadraticStep(aa: real, ab: real, bb: real, aa': real, ab': real, bb': real, t: real, x: real, y: real)
    requires aa' == aa + x * x && ab' == ab + x * y && bb' == bb + y * y
    requires Quadratic(aa, ab, bb, t) >= 0.0
    ensures Quadratic(aa', ab', bb', t) >= 0.0
  {
    var e := t * x - y;
    SquareNonNegative(e);
    assert e * e == (x * x) * (t * t) - 2.0 * t * (x * y) + y * y;
    assert Quadratic(aa', ab', bb', t) == Quadratic(aa, ab, bb, t) + e * e;
  }

  lemma CauchySchwarz(a: Vec, b: Vec)
    requires |a| == |b|
    ensures Times(Dot(a, b), Dot(a, b)) <= Times(Dot(a, a), Dot(b, b))
  {
    var aa, ab, bb := Dot(a, a), Dot(a, b), Dot(b, b);
    QuadraticNonNegative(a, b, 0.0);
    QuadraticNonNegative(b, a, 0.0);
    if aa == 0.0 {
      DotOfZero(a, b);
    } else {
      var t := Divide(ab, aa);
      QuadraticNonNegative(a, b, t);
      Discriminant(aa, ab, bb, t);
    }
  }

  lemma Discriminant(aa: real, ab: real, bb: real, t: real)
    requires aa > 0.0 && ab == Times(aa, t) && Quadratic(aa, ab, bb, t) >= 0.0
    ensures Times(ab, ab) <= Times(aa, bb)
  {
    assert aa * (t * t) == t * ab;
    Scale(aa, t * ab, bb);
    assert ab * ab == aa * (t * ab);
  }

  lemma {:induction false} DotOfZero(a: Vec, b: Vec)
    requires |a| == |b| && Dot(a, a) == 0.0
    ensures Dot(a, b) == 0.0
  {
    if a != [] {
      var a', x := a[..|a| - 1], a[|a| - 1];
      QuadraticNonNegative(a', a', 0.0);
      SquareNonNegative(x);
      SquareIsZero(x);
      DotOfZero(a', b[..|b| - 1]);
    }
  }

  lemma SquareIsZero(x: real)
    ensures x * x == 0.0 ==> x == 0.0
  {
    if x > 0.0 { ProductSign(x, x); } else if x < 0.0 { ProductSign(-x, -x); }
  }

  /** Similarities always lie between -1 and 1. */
  lemma CosineRange(root: real -> real, x: Vec, y: Vec)
    requires IsRoot(root)
    ensures -1.0 <= Cosine(root, x, y) <= 1.0
  {
    var n := if |x| <= |y| then |x| else |y|;
    var a, b := x[..n], y[..n];
    var aa, bb := Dot(a, a), Dot(b, b);
    QuadraticNonNegative(a, a, 0.0);
    QuadraticNonNegative(b, b, 0.0);
    CauchySchwarz(a, b);
    RatioInUnit(Dot(a, b), aa, bb, root(aa), root(bb));
  }

  lemma RatioInUnit(ab: real, aa: real, bb: real, p: real, q: real)
    requires p >= 0.0 && q >= 0.0 && p * p == aa && q * q == bb
    requires Times(ab, ab) <= Times(aa, bb)
    ensures -1.0 <= Ratio(ab, p, q) <= 1.0
  {
    var norm := p * q;
    ProductSign(p, q);
    assert norm * norm == aa * bb;
    if norm != 0.0 {
      var c := ab / norm;
      assert norm * c == ab;
      if ab > norm { SquareMonotone(norm, ab); }
      if -ab > norm { SquareMonotone(norm, -ab); }
      CancelScale(norm, c, 1.0);
      CancelScale(norm, -1.0, c);
    }
  }

  // ---------- the threshold ----------

  function Similarities(root: real -> real, d: Baselines, v: Vec): seq<real> {
    seq(|d|, i requires 0 <= i < |d| => Cosine(root, v, d[i].1))
  }

  function Std(root: real -> real, xs: seq<real>): real
    requires xs != []
  {
    if |xs| > 1 then root(SquaredDeviations(xs, Mean(xs)) / |xs| as real) else 0.1
  }

  /** mean - sigma * max(std, 0.05) */
  function StatisticalThreshold(root: real -> real, sigma: real, xs: seq<real>): real
    requires xs != []
  {
    Mean(xs) - Times(sigma, Max(Std(root, xs), 0.05))
  }

  predicate AllAtLeast(xs: seq<real>, bound: real) {
    forall i :: 0 <= i < |xs| ==> xs[i] >= bound
  }

  predicate Passes(root: real -> real, sigma: real, xs: seq<real>)
    requires xs != []
  {
    AllAtLeast(xs, Max(StatisticalThreshold(root, sigma, xs), HARD_FLOOR))
  }

  lemma MeanAndStd(root: real -> real, xs: seq<real>)
    requires IsRoot(root) && xs != []
    ensures IsMean(xs, Mean(xs))
    ensures |xs| > 1 ==> IsStd(xs, Mean(xs), Std(root, xs))
  {
    var n, dev := |xs| as real, SquaredDeviations(xs, Mean(xs));
    QuotientTimes(Sum(xs), n);
    DeviationsNonNegative(xs, Mean(xs));
    QuotientTimes(dev, n);
    RootOfQuotient(root, dev, n);
  }

  lemma QuotientTimes(a: real, n: real)
    requires n > 0.0
    ensures Times(n, a / n) == a
  {
  }

  lemma RootOfQuotient(root: real -> real, dev: real, n: real)
    requires IsRoot(root) && n > 0.0 && dev >= 0.0
    ensures root(dev / n) >= 0.0 && SpreadOf(n, root(dev / n)) == dev
  {
    var v := dev / n;
    assert n * v == dev;
    if v < 0.0 { Scale(n, v, 0.0); }
    assert root(v) * root(v) == v;
  }

  /** While sigma^2 >= n - 1 the statistical threshold can reject nothing that the hard floor accepts. */
  lemma GateIsHardFloor(root: real -> real, sigma: real, xs: seq<real>)
    requires IsRoot(root) && xs != [] && sigma >= 0.0 && Times(sigma, sigma) >= (|xs| - 1) as real
    ensures Passes(root, sigma, xs) <==> AllAtLeast(xs, HARD_FLOOR)
  {
    forall j | 0 <= j < |xs|
      ensures xs[j] >= StatisticalThreshold(root, sigma, xs)
    {
      MeanAndStd(root, xs);
      var s, d := Std(root, xs), Mean(xs) - xs[j];
      var w := Max(s, 0.05);
      ProductSign(sigma, w);
      if |xs| > 1 {
        Samuelson(xs, Mean(xs), s, j, d);
        WithinSigma(d, (|xs| - 1) as real, sigma, s, w);
      } else {
        assert Sum(xs) == Sum(xs[..0]) + xs[0] == xs[0];
        assert IsMean(xs, Mean(xs)) && d == 0.0;
      }
    }
  }

  lemma WithinSigma(d: real, n1: real, sigma: real, s: real, w: real)
    requires Times(d, d) <= SpreadOf(n1, s) && n1 <= Times(sigma, sigma)
    requires sigma >= 0.0 && 0.0 <= s <= w
    ensures d <= Times(sigma, w)
  {
    var p := sigma * s;
    ProductSign(sigma, s);
    Scale(sigma, s, w);
    SquareNonNegative(s);
    Scale(s * s, n1, sigma * sigma);
    assert p * p == (s * s) * (sigma * sigma) && n1 * (s * s) == (s * s) * n1;
    if d > p { SquareMonotone(p, d); }
  }

  /** With the default sigma = 2.0 that covers up to five baselines. */
  lemma DefaultGateIsHardFloor(root: real -> real, xs: seq<real>)
    requires IsRoot(root) && 1 <= |xs| <= 5
    ensures Passes(root, 2.0, xs) <==> AllAtLeast(xs, HARD_FLOOR)
  {
    assert Times(2.0, 2.0) == 4.0;
    GateIsHardFloor(root, 2.0, xs);
  }

  /** The exact condition under which n similarities, none of them below the floor, can still be rejected. */
  predicate StatisticsCanReject(n: nat, sigma: real) {
    (n - 1) as real > Times(sigma, sigma) && 1.5 * (n - 1) as real > Times(0.05 * sigma, n as real)
  }

  /** One similarity at the floor and all others 1: the most extreme spread. */
  function Extreme(n: nat): seq<real> {
    if n == 0 then [] else if n == 1 then [HARD_FLOOR] else Extreme(n - 1) + [1.0]
  }

  lemma SumsOfAppended(xs: seq<real>, x: real)
    ensures Sum(xs + [x]) == Sum(xs) + x && SumOfSquares(xs + [x]) == SumOfSquares(xs) + x * x
  {
    assert (xs + [x])[..|xs|] == xs;
  }

  lemma {:induction false} ExtremeShape(n: nat)
    requires n >= 1
    ensures |Extreme(n)| == n && Extreme(n)[0] == HARD_FLOOR
    ensures forall i :: 0 < i < n ==> Extreme(n)[i] == 1.0
  {
    if n > 1 { ExtremeShape(n - 1); }
  }

  lemma {:induction false} ExtremeTotals(n: nat, size: real)
    requires n >= 1 && size == n as real
    ensures Sum(Extreme(n)) == size - 1.5 && SumOfSquares(Extreme(n)) == size - 0.75
  {
    if n == 1 {
      SumsOfAppended([], HARD_FLOOR);
      assert [] + [HARD_FLOOR] == [HARD_FLOOR];
    } else {
      ExtremeTotals(n - 1, size - 1.0);
      SumsOfAppended(Extreme(n - 1), 1.0);
    }
  }

  lemma ExtremeSums(n: nat)
    requires n >= 1
    ensures |Extreme(n)| == n && Extreme(n)[0] == HARD_FLOOR
    ensures forall i :: 0 < i < n ==> Extreme(n)[i] == 1.0
    ensures Sum(Extreme(n)) == n as real - 1.5 && SumOfSquares(Extreme(n)) == n as real - 0.75
  {
    ExtremeShape(n);
    ExtremeTotals(n, n as real);
  }

  /** The gate rejects the extreme list, although no element is below the floor. */
  lemma ExtremeIsRejected(root: real -> real, sigma: real, n: nat)
    requires IsRoot(root) && sigma >= 0.0 && StatisticsCanReject(n, sigma)
    ensures |Extreme(n)| == n && AllAtLeast(Extreme(n), HARD_FLOOR) && !Passes(root, sigma, Extreme(n))
  {
    SquareNonNegative(sigma);
    ExtremeSums(n);
    var xs := Extreme(n);
    var m, s := Mean(xs), Std(root, xs);
    MeanAndStd(root, xs);
    ExpandDeviations(xs, m);
    ExtremeSpread(n as real, m, s, sigma);
    assert xs[0] < StatisticalThreshold(root, sigma, xs);
  }

  lemma ExtremeSpread(n: real, m: real, s: real, sigma: real)
    requires n > 1.0 && Times(n, m) == n - 1.5 && s >= 0.0 && sigma >= 0.0
    requires SpreadOf(n, s) == Expanded(n - 0.75, n - 1.5, n, m)
    requires n - 1.0 > Times(sigma, sigma) && 1.5 * (n - 1.0) > Times(0.05 * sigma, n)
    ensures -0.5 < m - Times(sigma, Max(s, 0.05))
  {
    var d, e := m + 0.5, 1.5 * (n - 1.0);
    ExtremeVariance(n, m, s);
    ExtremeDeviation(n, s, sigma, n * (sigma * s), e);
    ShiftByHalf(n, m, d, e);
    BothBelow(n, d, e, sigma, s);
  }

  lemma ShiftByHalf(n: real, m: real, d: real, e: real)
    requires Times(n, m) == n - 1.5 && d == m + 0.5 && e == 1.5 * (n - 1.0)
    ensures Times(n, d) == e
  {
  }

  lemma BothBelow(n: real, d: real, e: real, sigma: real, s: real)
    requires n > 1.0 && Times(n, d) == e && n * (sigma * s) < e && Times(0.05 * sigma, n) < e
    ensures Times(sigma, Max(s, 0.05)) < d
  {
    CancelScale(n, sigma * s, d);
    CancelScale(n, sigma * 0.05, d);
  }

  lemma ExtremeVariance(n: real, m: real, s: real)
    requires Times(n, m) == n - 1.5 && SpreadOf(n, s) == Expanded(n - 0.75, n - 1.5, n, m)
    ensures Times(n, SpreadOf(n, s)) == 2.25 * (n - 1.0)
  {
    assert n * (n * (m * m)) == (n * m) * (n * m);
    assert n * (m * (n - 1.5)) == (n * m) * (n - 1.5);
  }

  lemma ExtremeDeviation(n: real, s: real, sigma: real, p: real, e: real)
    requires n > 1.0 && p == n * (sigma * s) && e == 1.5 * (n - 1.0)
    requires Times(n, SpreadOf(n, s)) == 2.25 * (n - 1.0) && n - 1.0 > Times(sigma, sigma)
    ensures p < e
  {
    Scale(2.25 * (n - 1.0), sigma * sigma, n - 1.0);
    assert p * p == (n * (n * (s * s))) * (sigma * sigma);
    if p >= e { SquareMonotone(e, p); }
  }

  /** The similarities that the hard floor lets through. */
  predicate FloorToOne(xs: seq<real>) {
    forall i :: 0 <= i < |xs| ==> HARD_FLOOR <= xs[i] <= 1.0
  }

  /** Conversely, a rejection of similarities between the floor and 1 needs StatisticsCanReject. */
  lemma RejectionNeedsSpread(root: real -> real, sigma: real, xs: seq<real>)
    requires IsRoot(root) && sigma >= 0.0 && xs != [] && FloorToOne(xs) && !Passes(root, sigma, xs)
    ensures StatisticsCanReject(|xs|, sigma)
  {
    if (|xs| - 1) as real <= Times(sigma, sigma) { GateIsHardFloor(root, sigma, xs); }
    var j :| 0 <= j < |xs| && xs[j] < StatisticalThreshold(root, sigma, xs);
    var w := Max(Std(root, xs), 0.05);
    MeanAndStd(root, xs);
    SumBound(xs, j);
    FloorArithmetic(|xs| as real, Mean(xs), Sum(xs), xs[j], sigma, w);
  }

  // ---------- vectors that reach the extreme ----------

  const ONES: Vec := [1.0, 1.0, 1.0, 1.0]
  const CONTRARY: Vec := [-1.0, -1.0, -1.0, 1.0]

  /** One contrary baseline and n - 1 equal ones, from different branches. */
  function ExtremeBaselines(n: nat): (d: Baselines)
    ensures |d| == n
  {
    if n == 0 then [] else if n == 1 then [(Name(0), CONTRARY)] else ExtremeBaselines(n - 1) + [(Name(n - 1), ONES)]
  }

  lemma DotOfFour(a: Vec, b: Vec)
    requires |a| == |b| == 4
    ensures Dot(a, b) == a[0] * b[0] + a[1] * b[1] + a[2] * b[2] + a[3] * b[3]
  {
    assert a[..3][..2] == a[..2] && a[..2][..1] == a[..1] && a[..1][..0] == [];
    assert b[..3][..2] == b[..2] && b[..2][..1] == b[..1] && b[..1][..0] == [];
    assert Dot(a[..1], b[..1]) == a[0] * b[0];
    assert Dot(a[..2], b[..2]) == Dot(a[..1], b[..1]) + a[1] * b[1];
    assert Dot(a[..3], b[..3]) == Dot(a[..2], b[..2]) + a[2] * b[2];
  }

  lemma RootOfFour(root: real -> real)
    requires IsRoot(root)
    ensures root(4.0) == 2.0
  {
    var r := root(4.0);
    assert r * r == 4.0 && r >= 0.0;
    if r < 2.0 { SquareMonotone(r, 2.0); } else { SquareMonotone(2.0, r); }
  }

  lemma ExtremeCosines(root: real -> real)
    requires IsRoot(root)
    ensures Cosine(root, ONES, CONTRARY) == HARD_FLOOR && Cosine(root, ONES, ONES) == 1.0
  {
    RootOfFour(root);
    DotOfFour(ONES, ONES);
    DotOfFour(ONES, CONTRARY);
    DotOfFour(CONTRARY, CONTRARY);
    assert ONES[..4] == ONES && CONTRARY[..4] == CONTRARY;
  }

  lemma {:induction false} ExtremeSimilarities(root: real -> real, n: nat)
    requires IsRoot(root) && n >= 1
    ensures Similarities(root, ExtremeBaselines(n), ONES) == Extreme(n)
  {
    ExtremeCosines(root);
    if n > 1 { ExtremeSimilarities(root, n - 1); }
  }

  /** These baselines let the floor pass the vector and the statistics reject it. */
  ghost predicate OnlyStatisticsReject(root: real -> real, sigma: real, d: Baselines, v: Vec) {
    d != [] && AllAtLeast(Similarities(root, d, v), HARD_FLOOR) && !Passes(root, sigma, Similarities(root, d, v))
  }

  /** For n baselines the statistics ever reject a vector that the floor lets through exactly under that condition. */
  lemma StatisticsRejectIff(root: real -> real, sigma: real, n: nat)
    requires IsRoot(root) && sigma >= 0.0 && n >= 1
    ensures (exists d: Baselines, v: Vec :: |d| == n && OnlyStatisticsReject(root, sigma, d, v))
       <==> StatisticsCanReject(n, sigma)
  {
    forall d: Baselines, v: Vec | |d| == n && OnlyStatisticsReject(root, sigma, d, v)
      ensures StatisticsCanReject(n, sigma)
    {
      forall i | 0 <= i < n ensures Similarities(root, d, v)[i] <= 1.0 { CosineRange(root, v, d[i].1); }
      RejectionNeedsSpread(root, sigma, Similarities(root, d, v));
    }
    if StatisticsCanReject(n, sigma) {
      ExtremeIsRejected(root, sigma, n);
      ExtremeSimilarities(root, n);
      assert OnlyStatisticsReject(root, sigma, ExtremeBaselines(n), ONES);
    }
  }

  lemma FloorArithmetic(n: real, m: real, s: real, x: real, sigma: real, w: real)
    requires n >= 1.0 && Times(n, m) == s && s <= x + (n - 1.0) && x >= -0.5
    requires sigma >= 0.0 && w >= 0.05 && x < m - Times(sigma, w)
    ensures 1.5 * (n - 1.0) > Times(0.05 * sigma, n)
  {
    Scale(sigma, 0.05, w);
    Scale(n, sigma * 0.05, m - x);
    assert n * (m - x) == s - n * x;
    Scale(n - 1.0, -1.5, x - 1.0);
    assert s - n * x <= x + (n - 1.0) - n * x == (n - 1.0) * (1.0 - x);
  }

  lemma {:induction false} SumBound(xs: seq<real>, j: nat)
    requires forall i :: 0 <= i < |xs| ==> xs[i] <= 1.0
    requires j <= |xs|
    ensures Sum(xs) <= |xs| as real
    ensures j < |xs| ==> Sum(xs) <= xs[j] + (|xs| as real - 1.0)
  {
    if xs != [] { SumBound(xs[..|xs| - 1], if j < |xs| then j else |xs| - 1); }
  }

  method Minimum(xs: seq<real>) returns (m: real)
    requires xs != []
    ensures m in xs && AllAtLeast(xs, m)
  {
    m := xs[0];
    for i := 1 to |xs|
      invariant m in xs && AllAtLeast(xs[..i], m)
    {
      if xs[i] < m { m := xs[i]; }
    }
    assert xs[..|xs|] == xs;
  }

  // ---------- the stateful check ----------

  class Gate {
    var baselines: Baselines
    var minNodes: int
    var sigma: real
    const root: real -> real

    constructor (minNodes: int, sigma: real, root: real -> real)
      ensures baselines == [] && this.minNodes == minNodes && this.sigma == sigma && this.root == root
    {
      baselines, this.minNodes, this.sigma, this.root := [], minNodes, sigma, root;
    }

    /** A vector that cannot be parsed is unsafe; before minNodes baselines exist everything is stored; from
        then on the vector is stored exactly when it passes, and a rejection leaves every baseline as it was. */
    method Check(branch: string, incoming: Parsed) returns (safe: bool)
      modifies this`baselines
      ensures incoming.Unreadable? ==> !safe
      ensures incoming.Weights? && (|old(baselines)| == 0 || |old(baselines)| < minNodes) ==> safe
      ensures incoming.Weights? && |old(baselines)| > 0 && |old(baselines)| >= minNodes ==>
                (safe <==> Passes(root, sigma, Similarities(root, old(baselines), incoming.vec)))
      ensures IsRoot(root) && sigma >= 0.0 && incoming.Weights? && |old(baselines)| > 0 &&
              |old(baselines)| >= minNodes && Times(sigma, sigma) >= (|old(baselines)| - 1) as real ==>
                (safe <==> AllAtLeast(Similarities(root, old(baselines), incoming.vec), HARD_FLOOR))
      ensures baselines == if safe then Put(old(baselines), branch, incoming.vec) else old(baselines)
    {
      if incoming.Unreadable? { return false; }
      var v := incoming.vec;
      if |baselines| == 0 || |baselines| < minNodes {
        baselines := Put(baselines, branch, v);
        return true;
      }
      var sims: seq<real> := [];
      for i := 0 to |baselines|
        invariant |sims| == i
        invariant forall k :: 0 <= k < i ==> sims[k] == Cosine(root, v, baselines[k].1)
      {
        sims := sims + [Cosine(root, v, baselines[i].1)];
      }
      assert sims == Similarities(root, baselines, v);
      var threshold := StatisticalThreshold(root, sigma, sims);
      var effective := Max(threshold, -0.5);
      var minSim := Minimum(sims);
      safe := minSim >= effective;
      assert safe <==> Passes(root, sigma, sims);
      if IsRoot(root) && sigma >= 0.0 && Times(sigma, sigma) >= (|sims| - 1) as real {
        GateIsHardFloor(root, sigma, sims);
      }
      if safe { baselines := Put(baselines, branch, v); }
    }
  }

  lemma {:induction false} ExtremeNames(n: nat)
    ensures forall e :: e in ExtremeBaselines(n) ==> |e.0| <= n
  {
    if n > 1 { ExtremeNames(n - 1); }
  }

  /** Another equal vector reaches the floor, and storing it gives the next baselines. */
  lemma NextExtreme(root: real -> real, n: nat)
    requires IsRoot(root) && n > 0
    ensures AllAtLeast(Similarities(root, ExtremeBaselines(n), ONES), HARD_FLOOR)
    ensures Put(ExtremeBaselines(n), Name(n), ONES) == ExtremeBaselines(n + 1)
  {
    ExtremeSimilarities(root, n);
    ExtremeSums(n);
    ExtremeNames(n);
    PutFresh(ExtremeBaselines(n), Name(n), ONES);
  }

  lemma SixthIsRejected(root: real -> real)
    requires IsRoot(root)
    ensures !Passes(root, 2.0, Similarities(root, ExtremeBaselines(6), ONES))
  {
    ExtremeSimilarities(root, 6);
    assert Times(2.0, 2.0) == 4.0 && Times(0.05 * 2.0, 6.0) == 0.6;
    ExtremeIsRejected(root, 2.0, 6);
  }

  /** A run of the default gate on which the statistics decide: after one contrary branch, five equal ones are accepted
      and the sixth is rejected, although it repeats what they sent. */
  method DefaultGateRejects(root: real -> real) returns (safe: bool)
    requires IsRoot(root)
    ensures !safe
  {
    var gate := new Gate(3, 2.0, root);
    assert Times(2.0, 2.0) == 4.0;
    var _ := gate.Check(Name(0), Weights(CONTRARY));
    for n := 1 to 6
      invariant gate.baselines == ExtremeBaselines(n) && gate.minNodes == 3 && gate.sigma == 2.0 && gate.root == root
    {
      NextExtreme(root, n);
      var accepted := gate.Check(Name(n), Weights(ONES));
    }
    SixthIsRejected(root);
    safe := gate.Check(Name(6), Weights(ONES));
  }
}
