/** Quantised top-k gradient compression of `branch_service/models.py`, for one gradient array. */
module Compression {
  import opened Options
  import opened RealArithmetic
  import opened Rounding
  import opened WeightedSums

  /** Only the positions and quantised values of the kept coordinates travel. */
  datatype Payload = Payload(indices: seq<nat>, values: seq<int>, shape: seq<nat>, scale: real)

  /** Number of elements of an array of this shape; an array without axes has one. */
  function Product(shape: seq<nat>): nat {
    if shape == [] then 1 else shape[0] * Product(shape[1..])
  }

  ghost predicate IsMaxAbs(flat: seq<real>, m: real) {
    (exists i :: 0 <= i < |flat| && Abs(flat[i]) == m) && forall i :: 0 <= i < |flat| ==> Abs(flat[i]) <= m
  }

  function ScaleFor(maxAbs: real): (s: real)
    requires maxAbs >= 0.0
    ensures s > 0.0
  {
    if maxAbs > 0.0 then maxAbs / 127.0 else 1.0
  }

  function Quantise(flat: seq<real>, scale: real): (q: seq<int>)
    requires scale > 0.0
    ensures |q| == |flat|
  {
    seq(|flat|, i requires 0 <= i < |flat| => RoundEven(flat[i] / scale))
  }

  /** Rounding to a floating-point number, as far as the selection depends on it: it keeps order, and leaves 0, 1 and
      the number of coordinates as they are. */
  ghost predicate Rounds(fl: real -> real, n: nat) {
    && fl(0.0) == 0.0 && fl(1.0) == 1.0 && fl(n as real) == n as real
    && forall x, y :: x <= y ==> fl(x) <= fl(y)
  }

  /** int(n * (ratio / 100.0)), at least one; quotient and product are rounded. */
  function KeepCount(fl: real -> real, n: nat, ratio: int): (k: nat)
    ensures k >= 1
  {
    var product := fl(Times(n as real, fl(ratio as real / 100.0)));
    if product < 1.0 then 1 else product.Floor
  }

  /** The value that a quantised coordinate stands for. */
  function Restore(q: int, scale: real): real {
    Times(q as real, scale)
  }

  predicate Distinct(indices: seq<nat>) {
    forall i, j :: 0 <= i < j < |indices| ==> indices[i] != indices[j]
  }

  /** k different positions whose magnitudes are at least those of all other positions: all that a partition
      around the k-th largest element promises. */
  predicate IsTopK(quant: seq<int>, k: nat, indices: seq<nat>) {
    && |indices| == k && Distinct(indices)
    && (forall i :: 0 <= i < k ==> indices[i] < |quant|)
    && (forall i, j :: 0 <= i < k && 0 <= j < |quant| && j !in indices ==>
        AbsInt(quant[j]) <= AbsInt(quant[indices[i]]))
  }

  /** A payload for a gradient with largest magnitude m of which k coordinates are kept. */
  ghost predicate IsCompressed(flat: seq<real>, m: real, k: nat, p: Payload) {
    && IsMaxAbs(flat, m) && m >= 0.0 && p.scale == ScaleFor(m)
    && IsTopK(Quantise(flat, p.scale), k, p.indices)
    && p.values == Gather(Quantise(flat, p.scale), p.indices)
  }

  function Gather(quant: seq<int>, indices: seq<nat>): (vs: seq<int>)
    requires forall i :: 0 <= i < |indices| ==> indices[i] < |quant|
    ensures |vs| == |indices|
  {
    seq(|indices|, i requires 0 <= i < |indices| => quant[indices[i]])
  }

  // ---------- compression ----------

  method MaxAbs(flat: seq<real>) returns (m: real)
    requires flat != []
    ensures IsMaxAbs(flat, m) && m >= 0.0
  {
    m := Abs(flat[0]);
    for i := 1 to |flat|
      invariant exists k :: 0 <= k < i && Abs(flat[k]) == m
      invariant forall k :: 0 <= k < i ==> Abs(flat[k]) <= m
      invariant m >= 0.0
    {
      if Abs(flat[i]) > m { m := Abs(flat[i]); }
    }
  }

  /** One way to select the k largest magnitudes. */
  method SelectTopK(quant: seq<int>, k: nat) returns (indices: seq<nat>)
    requires k <= |quant|
    ensures IsTopK(quant, k, indices)
  {
    indices := [];
    for n := 0 to k
      invariant IsTopK(quant, n, indices)
    {
      var best: nat := Fresh(quant, indices);
      for j := 0 to |quant|
        invariant best < |quant| && best !in indices
        invariant forall i :: 0 <= i < j && i !in indices ==> AbsInt(quant[i]) <= AbsInt(quant[best])
      {
        if j !in indices && AbsInt(quant[j]) > AbsInt(quant[best]) { best := j; }
      }
      indices := indices + [best];
    }
  }

  method Fresh(quant: seq<int>, indices: seq<nat>) returns (j: nat)
    requires |indices| < |quant|
    ensures j < |quant| && j !in indices
  {
    j := 0;
    while j < |quant| && j in indices
      invariant j <= |quant| && forall i: nat :: i < j ==> i in indices
    {
      j := j + 1;
    }
    if j == |quant| { Pigeonhole(|quant|, indices); }
  }

  lemma {:induction false} Pigeonhole(n: nat, indices: seq<nat>)
    requires forall i: nat :: i < n ==> i in indices
    ensures n <= |indices|
  {
    if n > 0 {
      var last: nat := n - 1;
      assert last in indices;
      var k :| 0 <= k < |indices| && indices[k] == last;
      var rest := indices[..k] + indices[k + 1..];
      forall i: nat | i < last ensures i in rest {
        assert i in indices;
        var m :| 0 <= m < |indices| && indices[m] == i;
        assert rest[if m < k then m else m - 1] == i;
      }
      Pigeonhole(last, rest);
    }
  }

  /** Asking for more coordinates than there are is an error; that needs a ratio above 100. An empty gradient has an
      empty payload. */
  method Compress(fl: real -> real, flat: seq<real>, shape: seq<nat>, ratio: int)
    returns (p: Option<Payload>, ghost m: real)
    requires Product(shape) == |flat| && Rounds(fl, |flat|)
    ensures p.Some? <==> flat == [] || KeepCount(fl, |flat|, ratio) <= |flat|
    ensures ratio <= 100 ==> p.Some?
    ensures p.Some? ==> p.value.shape == shape
    ensures flat == [] ==> p.Some? && p.value.indices == [] && p.value.values == []
    ensures flat != [] && p.Some? ==> IsCompressed(flat, m, KeepCount(fl, |flat|, ratio), p.value)
  {
    m := 0.0;
    KeepAtMostAll(fl, |flat|, ratio);
    if |flat| == 0 { return Some(Payload([], [], shape, 1.0)), 0.0; }
    var maxAbs := MaxAbs(flat);
    var scale := if maxAbs > 0.0 then maxAbs / 127.0 else 1.0;
    var quant := Quantise(flat, scale);
    var k := KeepCount(fl, |quant|, ratio);
    if k > |quant| { return None, maxAbs; }
    var top := SelectTopK(quant, k);
    return Some(Payload(top, Gather(quant, top), shape, scale)), maxAbs;
  }

  /** A larger share keeps no fewer. */
  lemma LargerShare(fl: real -> real, n: nat, x: real, y: real)
    requires Rounds(fl, n) && x <= y
    ensures fl(Times(n as real, x)) <= fl(Times(n as real, y))
  {
    Scale(n as real, x, y);
  }

  lemma KeepAtMostAll(fl: real -> real, n: nat, ratio: int)
    requires Rounds(fl, n)
    ensures ratio <= 100 && n > 0 ==> KeepCount(fl, n, ratio) <= n
  {
    if ratio <= 100 { LargerShare(fl, n, fl(ratio as real / 100.0), 1.0); }
  }

  /** How many are kept: one at least, all of them at a ratio of 100, and no fewer at a larger ratio. */
  lemma KeepCountMeans(fl: real -> real, n: nat, ratio: int, larger: int)
    requires Rounds(fl, n) && n > 0
    ensures ratio <= 0 ==> KeepCount(fl, n, ratio) == 1
    ensures KeepCount(fl, n, 100) == n
    ensures ratio <= larger ==> KeepCount(fl, n, ratio) <= KeepCount(fl, n, larger)
  {
    var x, y := fl(ratio as real / 100.0), fl(larger as real / 100.0);
    if ratio <= 0 { LargerShare(fl, n, x, 0.0); }
    if ratio <= larger { LargerShare(fl, n, x, y); }
  }

  /** The percentage itself, rounded down, where floating point is exact. */
  lemma KeepsPercentage(fl: real -> real, n: nat, ratio: int, share: real)
    requires Rounds(fl, n) && ratio > 0 && share == ratio as real / 100.0
    requires fl(share) == share && fl(Times(n as real, share)) == Times(n as real, share)
    ensures KeepCount(fl, n, ratio) == if n * ratio < 100 then 1 else n * ratio / 100
  {
    Percentage(n, ratio, n * ratio);
  }

  lemma Percentage(n: nat, ratio: int, all: int)
    requires ratio > 0 && all == n * ratio
    ensures Times(n as real, ratio as real / 100.0) == all as real / 100.0
    ensures (all as real / 100.0).Floor == all / 100
  {
  }

  // ---------- decompression ----------

  /** Writing the values at their positions, in order. */
  function Scatter(flat: seq<real>, indices: seq<nat>, values: seq<int>, scale: real): (r: seq<real>)
    requires |indices| == |values| && forall i :: 0 <= i < |indices| ==> indices[i] < |flat|
    ensures |r| == |flat|
  {
    if indices == [] then flat
    else
      var n := |indices| - 1;
      Scatter(flat, indices[..n], values[..n], scale)[indices[n] := Restore(values[n], scale)]
  }

  function DeclaredSize(shape: seq<nat>): nat {
    if shape == [] then 0 else Product(shape)
  }

  /** Fails when a position lies outside the declared size. */
  method Decompress(p: Payload) returns (r: Option<seq<real>>)
    requires |p.indices| == |p.values|
    ensures r.Some? <==> forall i :: 0 <= i < |p.indices| ==> p.indices[i] < DeclaredSize(p.shape)
    ensures r.Some? ==> r.value == Scatter(Zeros(DeclaredSize(p.shape)), p.indices, p.values, p.scale)
  {
    var size := if p.shape != [] then Product(p.shape) else 0;
    var flat := new real[size](i => 0.0);
    assert flat[..] == Zeros(size);
    for n := 0 to |p.indices|
      invariant forall i :: 0 <= i < n ==> p.indices[i] < size
      invariant flat[..] == Scatter(Zeros(size), p.indices[..n], p.values[..n], p.scale)
    {
      if p.indices[n] >= size { return None; }
      ScatterStep(Zeros(size), p.indices, p.values, p.scale, n);
      flat[p.indices[n]] := Restore(p.values[n], p.scale);
    }
    assert p.indices[..|p.indices|] == p.indices && p.values[..|p.values|] == p.values;
    return Some(flat[..]);
  }

  lemma ScatterStep(flat: seq<real>, indices: seq<nat>, values: seq<int>, scale: real, n: nat)
    requires |indices| == |values| && n < |indices| && forall i :: 0 <= i <= n ==> indices[i] < |flat|
    ensures Scatter(flat, indices[..n + 1], values[..n + 1], scale)
         == Scatter(flat, indices[..n], values[..n], scale)[indices[n] := Restore(values[n], scale)]
  {
    assert indices[..n + 1][..n] == indices[..n] && values[..n + 1][..n] == values[..n];
  }

  // ---------- the round trip ----------

  lemma {:induction false} ScatterAt(flat: seq<real>, indices: seq<nat>, values: seq<int>, scale: real, j: nat)
    requires |indices| == |values| && forall i :: 0 <= i < |indices| ==> indices[i] < |flat|
    requires Distinct(indices) && j < |flat|
    ensures j !in indices ==> Scatter(flat, indices, values, scale)[j] == flat[j]
    ensures forall i :: 0 <= i < |indices| && indices[i] == j ==>
              Scatter(flat, indices, values, scale)[j] == Restore(values[i], scale)
  {
    if indices != [] {
      var n := |indices| - 1;
      ScatterAt(flat, indices[..n], values[..n], scale, j);
      if indices[n] == j { assert j !in indices[..n]; }
      assert j !in indices ==> j !in indices[..n];
    }
  }

  lemma SameQuotient(x: real, scale: real, y: real)
    requires scale > 0.0 && x == Times(scale, y)
    ensures x / scale == y
  {
  }

  lemma QuantisationError(x: real, scale: real, half: real)
    requires scale > 0.0 && half == scale / 2.0
    ensures Within(Restore(RoundEven(x / scale), scale), x, half)
  {
    var y := Divide(x, scale);
    SameQuotient(x, scale, y);
    RestoreError(RoundEven(y) as real, y, scale, half);
  }

  lemma RestoreError(q: real, y: real, scale: real, half: real)
    requires scale > 0.0 && half == scale / 2.0 && -0.5 <= q - y <= 0.5
    ensures Within(Times(q, scale), Times(scale, y), half)
  {
    var low, high := y - 0.5, y + 0.5;
    TimesMonotone(low, q, scale);
    TimesMonotone(q, high, scale);
    HalfStep(low, y, scale, half);
    HalfStep(y, high, scale, half);
    TimesSymmetric(scale, y);
  }

  /** Kept coordinates come back within half a quantisation step; dropped ones come back as zero, and were larger
      than any kept one by no more than half a step. */
  lemma RoundTripError(flat: seq<real>, m: real, k: nat, p: Payload, r: seq<real>, j: nat, half: real)
    requires IsCompressed(flat, m, k, p) && j < |flat| && half == p.scale / 2.0
    requires r == Scatter(Zeros(|flat|), p.indices, p.values, p.scale)
    ensures j in p.indices ==> Within(r[j], flat[j], half)
    ensures j !in p.indices ==> r[j] == 0.0
    ensures j !in p.indices ==>
      forall i :: 0 <= i < |p.values| ==> Abs(flat[j]) <= Times(AbsInt(p.values[i]) as real + 0.5, p.scale)
  {
    var quant := Quantise(flat, p.scale);
    ScatterAt(Zeros(|flat|), p.indices, p.values, p.scale, j);
    QuantisationError(flat[j], p.scale, half);
    if j !in p.indices {
      forall i | 0 <= i < |p.values| ensures Abs(flat[j]) <= Times(AbsInt(p.values[i]) as real + 0.5, p.scale) {
        DroppedBound(flat[j], p.scale, half, quant[j], p.values[i]);
      }
    }
  }

  lemma DroppedBound(x: real, scale: real, half: real, q: int, kept: int)
    requires scale > 0.0 && half == scale / 2.0 && Within(Restore(q, scale), x, half) && AbsInt(q) <= AbsInt(kept)
    ensures Abs(x) <= Times(AbsInt(kept) as real + 0.5, scale)
  {
    AbsRestore(q, scale);
    TimesMonotone(AbsInt(q) as real, AbsInt(kept) as real, scale);
    HalfStep(AbsInt(kept) as real, AbsInt(kept) as real + 0.5, scale, half);
  }

  lemma AbsRestore(q: int, scale: real)
    requires scale > 0.0
    ensures Abs(Restore(q, scale)) == Times(AbsInt(q) as real, scale)
  {
    if q >= 0 {
      ProductSign(q as real, scale);
    } else {
      ProductSign(-(q as real), scale);
      assert AbsInt(q) as real == -(q as real);
    }
  }

  lemma HalfStep(b: real, up: real, scale: real, half: real)
    requires half == scale / 2.0 && up == b + 0.5
    ensures Times(up, scale) == Times(b, scale) + half
  {
  }

  /** A coordinate of the largest magnitude quantises to 127 or -127 and comes back exactly. */
  lemma LargestIsExact(x: real, m: real)
    requires m >= 0.0 && Abs(x) == m
    ensures m > 0.0 ==> AbsInt(RoundEven(x / ScaleFor(m))) == 127
    ensures Restore(RoundEven(x / ScaleFor(m)), ScaleFor(m)) == x
  {
    if m > 0.0 {
      var s := ScaleFor(m);
      assert s * 127.0 == m;
      SameQuotient(x, s, if x > 0.0 then 127.0 else -127.0);
    } else {
      assert x / 1.0 == 0.0;
    }
  }

  lemma QuantBound(x: real, m: real)
    requires m >= 0.0 && Abs(x) <= m
    ensures AbsInt(RoundEven(x / ScaleFor(m))) <= 127
  {
    if m > 0.0 {
      var s := ScaleFor(m);
      var y := Divide(x, s);
      SameQuotient(x, s, y);
      UnitBound(x, m, s, y);
    } else {
      assert x / 1.0 == 0.0;
    }
  }

  lemma UnitBound(x: real, m: real, s: real, y: real)
    requires m > 0.0 && s == m / 127.0 && x == Times(s, y) && Abs(x) <= m
    ensures -127.0 <= y <= 127.0
  {
    assert s * 127.0 == m && s * -127.0 == -m;
    CancelScale(s, y, 127.0);
    CancelScale(s, -127.0, y);
  }

  /** The quantised values fit a signed byte. */
  lemma ValuesFitByte(flat: seq<real>, m: real, k: nat, p: Payload, i: nat)
    requires IsCompressed(flat, m, k, p) && i < |p.values|
    ensures -127 <= p.values[i] <= 127
  {
    QuantBound(flat[p.indices[i]], m);
  }

  /** Every kept coordinate of the largest magnitude comes back unchanged. */
  lemma KeptLargestIsExact(flat: seq<real>, m: real, k: nat, p: Payload, r: seq<real>, j: nat)
    requires IsCompressed(flat, m, k, p) && j < |flat| && j in p.indices && Abs(flat[j]) == m
    requires r == Scatter(Zeros(|flat|), p.indices, p.values, p.scale)
    ensures r[j] == flat[j]
  {
    ScatterAt(Zeros(|flat|), p.indices, p.values, p.scale, j);
    LargestIsExact(flat[j], m);
  }

  /** Some kept coordinate comes back with exactly the largest magnitude of the gradient, even when ties with it
      have been preferred. */
  lemma LargestMagnitudeSurvives(flat: seq<real>, m: real, k: nat, p: Payload, r: seq<real>) returns (j: nat)
    requires IsCompressed(flat, m, k, p) && k > 0
    requires r == Scatter(Zeros(|flat|), p.indices, p.values, p.scale)
    ensures j < |flat| && j in p.indices && Abs(r[j]) == m
  {
    var top :| 0 <= top < |flat| && Abs(flat[top]) == m;
    if top in p.indices {
      j := top;
      KeptLargestIsExact(flat, m, k, p, r, j);
    } else {
      j := p.indices[0];
      LargestIsExact(flat[top], m);
      ValuesFitByte(flat, m, k, p, 0);
      ScatterAt(Zeros(|flat|), p.indices, p.values, p.scale, j);
      FullScale(p.values[0], m, flat[j]);
    }
  }

  lemma FullScale(q: int, m: real, x: real)
    requires m >= 0.0 && (m > 0.0 ==> AbsInt(q) == 127) && Abs(x) <= m && q == RoundEven(x / ScaleFor(m))
    ensures Abs(Restore(q, ScaleFor(m))) == m
  {
    if m > 0.0 {
      assert ScaleFor(m) * 127.0 == m;
    } else {
      assert x / 1.0 == 0.0;
    }
  }

  /** The array comes back, in full length, exactly when it has at least one axis: an array without axes declares
      size 0 for its single coordinate. */
  method RoundTrip(fl: real -> real, flat: seq<real>, shape: seq<nat>, ratio: int)
    returns (p: Payload, r: Option<seq<real>>, ghost m: real)
    requires Product(shape) == |flat| && ratio <= 100 && Rounds(fl, |flat|)
    ensures flat != [] ==> IsCompressed(flat, m, KeepCount(fl, |flat|, ratio), p)
    ensures r.Some? <==> shape != []
    ensures r.Some? && flat == [] ==> r.value == []
    ensures r.Some? && flat != [] ==> r.value == Scatter(Zeros(|flat|), p.indices, p.values, p.scale)
  {
    var c;
    c, m := Compress(fl, flat, shape, ratio);
    p := c.value;
    r := Decompress(p);
    if shape == [] { assert |p.indices| >= 1 && p.indices[0] >= DeclaredSize(p.shape); }
  }

  // ---------- no choice of k coordinates keeps more ----------

  function Kept(n: nat, indices: seq<nat>): (mask: seq<bool>)
    ensures |mask| == n
  {
    seq(n, i requires 0 <= i < n => i in indices)
  }

  function Count(mask: seq<bool>): nat {
    if mask == [] then 0 else Count(mask[..|mask| - 1]) + if mask[|mask| - 1] then 1 else 0
  }

  /** The quantised mass of the coordinates outside a selection. */
  function MassLeft(quant: seq<int>, mask: seq<bool>): nat
    requires |quant| == |mask|
  {
    if quant == [] then 0
    else MassLeft(quant[..|quant| - 1], mask[..|mask| - 1]) + if mask[|mask| - 1] then 0 else AbsInt(quant[|quant| - 1])
  }

  lemma {:induction false} ThresholdOptimal(quant: seq<int>, s: seq<bool>, t: seq<bool>, threshold: nat)
    requires |quant| == |s| == |t|
    requires forall i :: 0 <= i < |quant| ==>
        if s[i] then AbsInt(quant[i]) >= threshold else AbsInt(quant[i]) <= threshold
    ensures MassLeft(quant, s) + threshold * Count(s) <= MassLeft(quant, t) + threshold * Count(t)
  {
    if quant != [] {
      var n := |quant| - 1;
      ThresholdOptimal(quant[..n], s[..n], t[..n], threshold);
      OneMore(threshold, Count(s[..n]));
      OneMore(threshold, Count(t[..n]));
    }
  }

  lemma OneMore(h: nat, c: nat)
    ensures h * (c + 1) == h * c + h
  {
  }

  lemma {:induction false} KeptCount(n: nat, indices: seq<nat>)
    requires Distinct(indices) && forall i :: 0 <= i < |indices| ==> indices[i] < n
    ensures Count(Kept(n, indices)) == |indices|
  {
    if indices == [] {
      NoneKept(n);
    } else {
      var last, rest := indices[|indices| - 1], indices[..|indices| - 1];
      KeptCount(n, rest);
      assert Kept(n, indices) == Kept(n, rest)[last := true];
      CountOneMore(Kept(n, rest), last);
    }
  }

  lemma {:induction false} NoneKept(n: nat)
    ensures Count(Kept(n, [])) == 0
  {
    if n > 0 {
      assert Kept(n, [])[..n - 1] == Kept(n - 1, []);
      NoneKept(n - 1);
    }
  }

  lemma {:induction false} CountOneMore(mask: seq<bool>, i: nat)
    requires i < |mask| && !mask[i]
    ensures Count(mask[i := true]) == Count(mask) + 1
  {
    var n := |mask| - 1;
    if i < n {
      CountOneMore(mask[..n], i);
      assert mask[i := true][..n] == mask[..n][i := true];
    } else {
      assert mask[i := true][..n] == mask[..n];
    }
  }

  /** The smallest kept magnitude separates kept from dropped coordinates. */
  lemma SmallestKept(quant: seq<int>, k: nat, indices: seq<nat>) returns (threshold: nat)
    requires k > 0 && IsTopK(quant, k, indices)
    ensures forall i :: 0 <= i < |quant| ==>
              if i in indices then AbsInt(quant[i]) >= threshold else AbsInt(quant[i]) <= threshold
  {
    threshold := AbsInt(quant[indices[0]]);
    for n := 1 to k
      invariant exists i :: 0 <= i < n && AbsInt(quant[indices[i]]) == threshold
      invariant forall i :: 0 <= i < n ==> threshold <= AbsInt(quant[indices[i]])
    {
      if AbsInt(quant[indices[n]]) < threshold { threshold := AbsInt(quant[indices[n]]); }
    }
  }

  /** No other choice of k different coordinates leaves less quantised mass behind than the one that is sent. */
  lemma SelectionIsOptimal(quant: seq<int>, k: nat, sent: seq<nat>, other: seq<nat>)
    requires k > 0 && IsTopK(quant, k, sent)
    requires |other| == k && Distinct(other) && forall i :: 0 <= i < k ==> other[i] < |quant|
    ensures MassLeft(quant, Kept(|quant|, sent)) <= MassLeft(quant, Kept(|quant|, other))
  {
    var threshold := SmallestKept(quant, k, sent);
    KeptCount(|quant|, sent);
    KeptCount(|quant|, other);
    ThresholdOptimal(quant, Kept(|quant|, sent), Kept(|quant|, other), threshold);
  }
}
