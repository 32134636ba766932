/** Weighted sums of reals. */
module WeightedSums {
  import opened RealArithmetic

  function Total(w: seq<real>): real {
    if w == [] then 0.0 else w[0] + Total(w[1..])
  }

  /** w[0]*x[0] + w[1]*x[1] + ... */
  function WeightedSum(w: seq<real>, x: seq<real>): real
    requires |w| == |x|
  {
    if w == [] then 0.0 else Times(w[0], x[0]) + WeightedSum(w[1..], x[1..])
  }

  function Zeros(n: nat): (z: seq<real>)
    ensures |z| == n
  {
    seq(n, i => 0.0)
  }

  function AddAll(x: seq<real>, y: seq<real>): seq<real>
    requires |x| == |y|
  {
    seq(|x|, i requires 0 <= i < |x| => x[i] + y[i])
  }

  lemma {:induction false} WeightedSumOfZeros(w: seq<real>)
    ensures WeightedSum(w, Zeros(|w|)) == 0.0
  {
    if w != [] {
      assert Zeros(|w|)[1..] == Zeros(|w[1..]|);
      WeightedSumOfZeros(w[1..]);
    }
  }

  lemma {:induction false} WeightedSumAdds(w: seq<real>, x: seq<real>, y: seq<real>)
    requires |w| == |x| == |y|
    ensures WeightedSum(w, AddAll(x, y)) == WeightedSum(w, x) + WeightedSum(w, y)
  {
    if w != [] {
      assert AddAll(x, y)[1..] == AddAll(x[1..], y[1..]);
      WeightedSumAdds(w[1..], x[1..], y[1..]);
      Distribute(w[0], x[0], y[0]);
    }
  }

  lemma Distribute(k: real, a: real, b: real)
    ensures Times(k, a + b) == Times(k, a) + Times(k, b)
  {
  }

  /** Weights n_i/n add up to one. */
  function Shares(sizes: seq<int>, total: int): (w: seq<real>)
    requires total != 0
    ensures |w| == |sizes|
  {
    seq(|sizes|, i requires 0 <= i < |sizes| => sizes[i] as real / total as real)
  }

  function SumOf(sizes: seq<int>): int {
    if sizes == [] then 0 else sizes[0] + SumOf(sizes[1..])
  }

  lemma {:induction false} SharesTotal(sizes: seq<int>, total: int)
    requires total != 0
    ensures Total(Shares(sizes, total)) == SumOf(sizes) as real / total as real
  {
    if sizes != [] {
      SharesTotal(sizes[1..], total);
      assert Shares(sizes, total)[1..] == Shares(sizes[1..], total);
    }
  }
}
