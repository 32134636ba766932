/** The per-round two-sigma filter of the federated-learning simulator in `go_bff/hq.go`. */
module OutlierFilter {
  import opened Dispersion
  import Gate = ByzantineGate
  import opened RealArithmetic

  /** The elements whose similarity reaches the threshold, in order. */
  function Keep<V>(vectors: seq<V>, sims: seq<real>, threshold: real): (kept: seq<V>)
    requires |vectors| == |sims|
    ensures |kept| == |sims| - CountBelow(sims, threshold)
  {
    if vectors == [] then []
    else
      var n := |vectors| - 1;
      Keep(vectors[..n], sims[..n], threshold) + if sims[n] >= threshold then [vectors[n]] else []
  }

  /** These positions, in order, are exactly those whose similarity reaches the threshold. */
  predicate Reaching(at: seq<nat>, sims: seq<real>, threshold: real) {
    && (forall i, j :: 0 <= i < j < |at| ==> at[i] < at[j])
    && (forall i :: 0 <= i < |at| ==> at[i] < |sims| && sims[at[i]] >= threshold)
    && (forall p: nat :: p < |sims| && sims[p] >= threshold ==> p in at)
  }

  ghost predicate Taken<V>(kept: seq<V>, vectors: seq<V>, at: seq<nat>) {
    |kept| == |at| && forall i :: 0 <= i < |at| ==> at[i] < |vectors| && kept[i] == vectors[at[i]]
  }

  lemma ReachingStep(before: seq<nat>, n: nat, sims: seq<real>, threshold: real)
    requires |sims| == n + 1 && Reaching(before, sims[..n], threshold)
    ensures Reaching(before + if sims[n] >= threshold then [n] else [], sims, threshold)
  {
    var at := before + if sims[n] >= threshold then [n] else [];
    forall p: nat | p < |sims| && sims[p] >= threshold ensures p in at {
      if p < n { assert sims[..n][p] >= threshold && p in before; }
    }
  }

  /** Keeping is filtering: what is left are, in order, the elements at exactly the positions whose similarity reaches
      the threshold. */
  lemma {:induction false} KeepFilters<V>(vectors: seq<V>, sims: seq<real>, threshold: real) returns (at: seq<nat>)
    requires |vectors| == |sims|
    ensures Reaching(at, sims, threshold) && Taken(Keep(vectors, sims, threshold), vectors, at)
  {
    if vectors == [] { return []; }
    var n: nat := |vectors| - 1;
    var before := KeepFilters(vectors[..n], sims[..n], threshold);
    ReachingStep(before, n, sims, threshold);
    at := before + if sims[n] >= threshold then [n] else [];
  }

  /** Mean square minus squared mean, cut off at zero. */
  function Variance(squares: real, mean: real, n: real): real
    requires n > 0.0
  {
    var v := squares / n - mean * mean;
    if v < 0.0 then 0.0 else v
  }

  /** It is the mean squared deviation, so the threshold of a round is the one the Byzantine check uses. */
  lemma SameRule(root: real -> real, sims: seq<real>, std: real)
    requires |sims| >= 2 && IsRoot(root)
    requires std == root(Variance(SumOfSquares(sims), Mean(sims), |sims| as real))
    ensures std == Gate.Std(root, sims)
    ensures Mean(sims) - 2.0 * Max(std, 0.05) == Gate.StatisticalThreshold(root, 2.0, sims)
  {
    var m := Mean(sims);
    ExpandDeviations(sims, m);
    DeviationsNonNegative(sims, m);
    Gate.MeanAndStd(root, sims);
    VarianceArithmetic(SumOfSquares(sims), Sum(sims), |sims| as real, m, SquaredDeviations(sims, m));
  }

  lemma VarianceArithmetic(q: real, s: real, n: real, mean: real, dev: real)
    requires n > 0.0 && Times(n, mean) == s
    requires dev == Expanded(q, s, n, mean) && dev >= 0.0
    ensures Variance(q, mean, n) == dev / n
  {
    var a := Divide(q, n);
    var v := Divide(dev, n);
    assert n * (mean * mean) == mean * s;
    CancelScale(n, a - mean * mean, v);
    if v < 0.0 { Scale(n, v, 0.0); }
  }

  method Moments(sims: seq<real>) returns (simSum: real, simSumSq: real)
    ensures simSum == Sum(sims) && simSumSq == SumOfSquares(sims)
  {
    simSum, simSumSq := 0.0, 0.0;
    for i := 0 to |sims|
      invariant simSum == Sum(sims[..i]) && simSumSq == SumOfSquares(sims[..i])
    {
      assert sims[..i + 1][..i] == sims[..i];
      simSum := simSum + sims[i];
      simSumSq := simSumSq + sims[i] * sims[i];
    }
    assert sims[..|sims|] == sims;
  }

  method Partition<V>(vectors: seq<V>, sims: seq<real>, threshold: real) returns (accepted: seq<V>, rejected: nat)
    requires |vectors| == |sims|
    ensures accepted == Keep(vectors, sims, threshold) && rejected == CountBelow(sims, threshold)
  {
    accepted, rejected := [], 0;
    for i := 0 to |vectors|
      invariant accepted == Keep(vectors[..i], sims[..i], threshold)
      invariant rejected == CountBelow(sims[..i], threshold)
    {
      assert sims[..i + 1][..i] == sims[..i] && vectors[..i + 1][..i] == vectors[..i];
      if sims[i] >= threshold {
        accepted := accepted + [vectors[i]];
      } else {
        rejected := rejected + 1;
      }
    }
    assert vectors[..|vectors|] == vectors && sims[..|sims|] == sims;
  }

  /** One round, for at least two branches: the filter keeps exactly the branches at or above the same
      mean - 2 std threshold that the Byzantine check uses and rejects strictly fewer than a fifth of them. So
      it never reaches its keep-everything fallback, can never reject anyone among five branches or fewer,
      and rejects at most two of the thirteen a simulation may have, however many of them are hostile. */
  method FilterRound<V>(vectors: seq<V>, sims: seq<real>, root: real -> real)
    returns (accepted: seq<V>, rejected: nat)
    requires |vectors| == |sims| >= 2 && IsRoot(root)
    ensures accepted == Keep(vectors, sims, Gate.StatisticalThreshold(root, 2.0, sims))
    ensures |accepted| + rejected == |vectors|
    ensures 5 * rejected < |vectors| && accepted != []
    ensures |vectors| <= 5 ==> accepted == vectors
    ensures |vectors| <= 13 ==> rejected <= 2
  {
    var simSum, simSumSq := Moments(sims);
    var meanSim := simSum / |sims| as real;
    var std := root(Variance(simSumSq, meanSim, |sims| as real));
    SameRule(root, sims, std);
    var stdSim := if std < 0.05 then 0.05 else std;
    var threshold := meanSim - 2.0 * stdSim;
    accepted, rejected := Partition(vectors, sims, threshold);
    Gate.MeanAndStd(root, sims);
    FewerThanAFifthBelow(sims, meanSim, std, stdSim, threshold);
    if rejected == 0 { NoneBelow(vectors, sims, threshold); }
    if |accepted| == 0 { accepted := vectors; }
  }

  lemma {:induction false} NoneBelow<V>(vectors: seq<V>, sims: seq<real>, threshold: real)
    requires |vectors| == |sims| && CountBelow(sims, threshold) == 0
    ensures Keep(vectors, sims, threshold) == vectors
  {
    if vectors != [] {
      var n := |vectors| - 1;
      NoneBelow(vectors[..n], sims[..n], threshold);
      assert vectors[..n] + [vectors[n]] == vectors;
    }
  }
}
