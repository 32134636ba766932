/** The SCAFFOLD optimiser loop of `hq_server.py`: local steps corrected by control variates. The gradient of a
    client's loss is a parameter. */
module Scaffold {
  import opened Dispersion
  import opened RealArithmetic
  import opened WeightedSums

  type Vec = seq<real>

  /** Client number and point to the raw gradient there. */
  type Gradient = (nat, Vec) -> Vec

  ghost predicate KeepsDimension(g: Gradient, d: nat) {
    forall i, w :: |w| == d ==> |g(i, w)| == d
  }

  datatype Config = Config(lr: real, localSteps: nat)

  datatype State = State(w: Vec, cGlobal: Vec, cLocals: seq<Vec>)

  predicate Sized(s: State, d: nat) {
    |s.w| == d && |s.cGlobal| == d && s.cLocals != [] && forall i :: 0 <= i < |s.cLocals| ==> |s.cLocals[i]| == d
  }

  function Corrected(wl: real, lr: real, g: real, cLocal: real, cGlobal: real): real {
    wl - Times(lr, g - cLocal + cGlobal)
  }

  function StepVec(wl: Vec, lr: real, g: Vec, cLocal: Vec, cGlobal: Vec): (v: Vec)
    requires |wl| == |g| == |cLocal| == |cGlobal|
    ensures |v| == |wl|
  {
    seq(|wl|, j requires 0 <= j < |wl| => Corrected(wl[j], lr, g[j], cLocal[j], cGlobal[j]))
  }

  function AddVec(x: Vec, y: Vec): (v: Vec)
    requires |x| == |y|
    ensures |v| == |x|
  {
    seq(|x|, j requires 0 <= j < |x| => x[j] + y[j])
  }

  // ---------- one client's local steps ----------

  /** The local model after t corrected steps from w. */
  ghost function LocalModel(g: Gradient, i: nat, w: Vec, cLocal: Vec, cGlobal: Vec, lr: real, t: nat): (v: Vec)
    requires KeepsDimension(g, |w|) && |cLocal| == |cGlobal| == |w|
    ensures |v| == |w|
  {
    if t == 0 then w
    else
      var wl := LocalModel(g, i, w, cLocal, cGlobal, lr, t - 1);
      StepVec(wl, lr, g(i, wl), cLocal, cGlobal)
  }

  /** The sum of the raw gradients at the points visited. */
  ghost function RawSum(g: Gradient, i: nat, w: Vec, cLocal: Vec, cGlobal: Vec, lr: real, t: nat): (v: Vec)
    requires KeepsDimension(g, |w|) && |cLocal| == |cGlobal| == |w|
    ensures |v| == |w|
  {
    if t == 0 then Zeros(|w|)
    else AddVec(RawSum(g, i, w, cLocal, cGlobal, lr, t - 1), g(i, LocalModel(g, i, w, cLocal, cGlobal, lr, t - 1)))
  }

  /** w - lr * (raw - t * (cLocal - cGlobal)) */
  function Drifted(w: real, lr: real, raw: real, t: real, cLocal: real, cGlobal: real): real {
    w - Times(lr, raw - Times(t, cLocal - cGlobal))
  }

  lemma {:induction false} LocalClosedForm(g: Gradient, i: nat, w: Vec, cLocal: Vec, cGlobal: Vec, lr: real, t: nat,
                                           j: nat)
    requires KeepsDimension(g, |w|) && |cLocal| == |cGlobal| == |w| && j < |w|
    ensures LocalModel(g, i, w, cLocal, cGlobal, lr, t)[j]
         == Drifted(w[j], lr, RawSum(g, i, w, cLocal, cGlobal, lr, t)[j], t as real, cLocal[j], cGlobal[j])
  {
    if t > 0 {
      LocalClosedForm(g, i, w, cLocal, cGlobal, lr, t - 1, j);
      var raw := RawSum(g, i, w, cLocal, cGlobal, lr, t - 1)[j];
      var here := g(i, LocalModel(g, i, w, cLocal, cGlobal, lr, t - 1))[j];
      DriftStep(w[j], lr, raw, here, raw + here, (t - 1) as real, t as real, cLocal[j], cGlobal[j]);
    } else {
      DriftStart(w[j], lr, cLocal[j], cGlobal[j]);
    }
  }

  lemma DriftStart(w: real, lr: real, cLocal: real, cGlobal: real)
    ensures Drifted(w, lr, 0.0, 0.0, cLocal, cGlobal) == w
  {
  }

  lemma DriftStep(w: real, lr: real, raw: real, here: real, sum: real, t: real, next: real, cLocal: real, cGlobal: real)
    requires sum == raw + here && next == t + 1.0
    ensures Corrected(Drifted(w, lr, raw, t, cLocal, cGlobal), lr, here, cLocal, cGlobal)
         == Drifted(w, lr, sum, next, cLocal, cGlobal)
  {
    var c := cLocal - cGlobal;
    assert Times(next, c) == Times(t, c) + c;
  }

  // ---------- one round ----------

  /** The client's new control variate: old - global + (w - wl) / (K * lr). */
  function NewVariate(cLocal: real, cGlobal: real, w: real, wl: real, scale: real): real
    requires scale != 0.0
  {
    cLocal - cGlobal + (w - wl) / scale
  }

  /** It is the average raw gradient of the round. */
  lemma NewVariateIsAverage(cLocal: real, cGlobal: real, w: real, wl: real, lr: real, k: real, raw: real, scale: real)
    requires lr != 0.0 && k > 0.0 && scale == Times(k, lr) && wl == Drifted(w, lr, raw, k, cLocal, cGlobal)
    ensures scale != 0.0 && NewVariate(cLocal, cGlobal, w, wl, scale) == raw / k
  {
    var c, a := cLocal - cGlobal, raw / k;
    assert Times(k, a) == raw;
    assert lr * (k * a - k * c) == (k * lr) * (a - c);
    QuotientOf(w - wl, scale, a - c);
  }

  lemma QuotientOf(x: real, d: real, q: real)
    requires d != 0.0 && x == d * q
    ensures x / d == q
  {
  }

  function NewVariateVec(cLocal: Vec, cGlobal: Vec, w: Vec, wl: Vec, scale: real): (v: Vec)
    requires |cLocal| == |cGlobal| == |w| == |wl| && scale != 0.0
    ensures |v| == |w|
  {
    seq(|w|, j requires 0 <= j < |w| => NewVariate(cLocal[j], cGlobal[j], w[j], wl[j], scale))
  }

  /** Coordinate j of every vector. */
  function Column(vs: seq<Vec>, j: nat): (col: seq<real>)
    requires forall i :: 0 <= i < |vs| ==> j < |vs[i]|
    ensures |col| == |vs|
  {
    seq(|vs|, i requires 0 <= i < |vs| => vs[i][j])
  }

  function MeanVec(vs: seq<Vec>, d: nat): (v: Vec)
    requires vs != [] && forall i :: 0 <= i < |vs| ==> |vs[i]| == d
    ensures |v| == d
  {
    seq(d, j requires 0 <= j < d => Mean(Column(vs, j)))
  }

  function Differences(x: seq<real>, y: seq<real>): (z: seq<real>)
    requires |x| == |y|
    ensures |z| == |x|
  {
    seq(|x|, i requires 0 <= i < |x| => x[i] - y[i])
  }

  /** The global variate is the mean of the clients' variates. */
  predicate Centred(s: State, d: nat)
    requires Sized(s, d)
  {
    forall j :: 0 <= j < d ==> s.cGlobal[j] == Mean(Column(s.cLocals, j))
  }

  lemma {:induction false} SumOfDifferences(x: seq<real>, y: seq<real>)
    requires |x| == |y|
    ensures Sum(Differences(x, y)) == Sum(x) - Sum(y)
  {
    if x != [] {
      assert Differences(x, y)[..|x| - 1] == Differences(x[..|x| - 1], y[..|y| - 1]);
      SumOfDifferences(x[..|x| - 1], y[..|y| - 1]);
    }
  }

  lemma MeanOfDifferences(x: seq<real>, y: seq<real>)
    requires |x| == |y| > 0
    ensures Mean(Differences(x, y)) == Mean(x) - Mean(y)
  {
    SumOfDifferences(x, y);
  }

  predicate AllDrifted(wls: seq<real>, w: real, lr: real, raws: seq<real>, k: real, cs: seq<real>, c: real) {
    |wls| == |raws| == |cs| && forall i :: 0 <= i < |wls| ==> wls[i] == Drifted(w, lr, raws[i], k, cs[i], c)
  }

  /** n*w - lr * (sum of raw - k * (sum of variates - n*c)) */
  function DriftedSum(n: real, w: real, lr: real, raws: real, k: real, cs: real, c: real): real {
    Times(n, w) - Times(lr, raws - Times(k, cs - Times(n, c)))
  }

  lemma {:induction false} SumOfDrifted(wls: seq<real>, w: real, lr: real, raws: seq<real>, k: real, cs: seq<real>,
                                        c: real)
    requires AllDrifted(wls, w, lr, raws, k, cs, c)
    ensures Sum(wls) == DriftedSum(|wls| as real, w, lr, Sum(raws), k, Sum(cs), c)
  {
    if wls != [] {
      var n := |wls| - 1;
      SumOfDrifted(wls[..n], w, lr, raws[..n], k, cs[..n], c);
      AddDrifted(n as real, |wls| as real, w, lr, Sum(raws[..n]), raws[n], k, Sum(cs[..n]), cs[n], c);
    } else {
      NothingDrifted(w, lr, k, c);
    }
  }

  lemma NothingDrifted(w: real, lr: real, k: real, c: real)
    ensures DriftedSum(0.0, w, lr, 0.0, k, 0.0, c) == 0.0
  {
  }

  lemma AddDrifted(n: real, m: real, w: real, lr: real, raws: real, raw: real, k: real, cs: real, x: real, c: real)
    requires m == n + 1.0
    ensures DriftedSum(n, w, lr, raws, k, cs, c) + Drifted(w, lr, raw, k, x, c)
         == DriftedSum(m, w, lr, raws + raw, k, cs + x, c)
  {
    var a, b := cs - Times(n, c), x - c;
    assert (cs + x) - Times(m, c) == a + b;
    assert Times(k, a + b) == Times(k, a) + Times(k, b);
    var p, q := raws - Times(k, a), raw - Times(k, b);
    assert Times(lr, p + q) == Times(lr, p) + Times(lr, q);
  }

  /** With a centred global variate the corrections cancel in the mean. */
  lemma CorrectionsCancel(wls: seq<real>, w: real, lr: real, raws: seq<real>, k: real, cs: seq<real>, c: real)
    requires AllDrifted(wls, w, lr, raws, k, cs, c) && wls != [] && c == Mean(cs)
    ensures Mean(wls) == w - Times(lr, Mean(raws))
  {
    SumOfDrifted(wls, w, lr, raws, k, cs, c);
    CancelArithmetic(|wls| as real, w, lr, Sum(raws), k, Sum(cs), c);
  }

  lemma CancelArithmetic(n: real, w: real, lr: real, raws: real, k: real, cs: real, c: real)
    requires n > 0.0 && c == cs / n
    ensures DriftedSum(n, w, lr, raws, k, cs, c) / n == w - Times(lr, raws / n)
  {
    var a := raws / n;
    assert Times(n, c) == cs && n * a == raws;
    assert Times(k, 0.0) == 0.0;
    assert DriftedSum(n, w, lr, raws, k, cs, c) == n * w - lr * raws;
    assert n * w - lr * raws == n * (w - lr * a);
    QuotientOf(n * w - lr * raws, n, w - lr * a);
  }

  /** Every client's local model and new control variate. */
  ghost predicate ClientsDone(g: Gradient, cfg: Config, s: State, wls: seq<Vec>, newCs: seq<Vec>, d: nat)
    requires KeepsDimension(g, d) && Sized(s, d)
  {
    && |wls| == |newCs| <= |s.cLocals| && Times(cfg.localSteps as real, cfg.lr) != 0.0
    && forall i :: 0 <= i < |wls| ==> ClientDone(g, cfg, s, i, wls[i], newCs[i], d)
  }

  ghost predicate ClientDone(g: Gradient, cfg: Config, s: State, i: nat, wl: Vec, newC: Vec, d: nat)
    requires KeepsDimension(g, d) && Sized(s, d) && i < |s.cLocals| && Times(cfg.localSteps as real, cfg.lr) != 0.0
  {
    && |wl| == d
    && wl == LocalModel(g, i, s.w, s.cLocals[i], s.cGlobal, cfg.lr, cfg.localSteps)
    && newC == NewVariateVec(s.cLocals[i], s.cGlobal, s.w, wl, Times(cfg.localSteps as real, cfg.lr))
  }

  /** What one round of the optimiser computes. */
  ghost predicate IsRound(g: Gradient, cfg: Config, s: State, after: State, wls: seq<Vec>, d: nat) {
    && KeepsDimension(g, d) && Sized(s, d) && Sized(after, d) && cfg.localSteps > 0 && cfg.lr != 0.0
    && |wls| == |s.cLocals| == |after.cLocals|
    && ClientsDone(g, cfg, s, wls, after.cLocals, d)
    && (forall j :: 0 <= j < d ==> after.w[j] == Mean(Column(wls, j)))
    && forall j :: 0 <= j < d ==> after.cGlobal[j] == MovedVariate(s, after.cLocals, d, j)
  }

  function MovedVariate(s: State, newCs: seq<Vec>, d: nat, j: nat): real
    requires Sized(s, d) && j < d && |newCs| == |s.cLocals| && forall i :: 0 <= i < |newCs| ==> |newCs[i]| == d
  {
    s.cGlobal[j] + Mean(Differences(Column(newCs, j), Column(s.cLocals, j)))
  }

  /** The raw gradients summed by each client, coordinate j. */
  ghost function RawColumn(g: Gradient, cfg: Config, s: State, d: nat, j: nat): (col: seq<real>)
    requires KeepsDimension(g, d) && Sized(s, d) && j < d
    ensures |col| == |s.cLocals|
  {
    seq(|s.cLocals|, i requires 0 <= i < |s.cLocals| =>
      RawSum(g, i, s.w, s.cLocals[i], s.cGlobal, cfg.lr, cfg.localSteps)[j])
  }

  /** After a round every client variate is the average of the client's raw gradients in that round. */
  lemma VariatesAreAverages(g: Gradient, cfg: Config, s: State, after: State, wls: seq<Vec>, d: nat, i: nat, j: nat)
    requires IsRound(g, cfg, s, after, wls, d) && i < |wls| && j < d
    ensures after.cLocals[i][j]
         == RawSum(g, i, s.w, s.cLocals[i], s.cGlobal, cfg.lr, cfg.localSteps)[j] / cfg.localSteps as real
  {
    var raw := RawSum(g, i, s.w, s.cLocals[i], s.cGlobal, cfg.lr, cfg.localSteps)[j];
    LocalClosedForm(g, i, s.w, s.cLocals[i], s.cGlobal, cfg.lr, cfg.localSteps, j);
    NewVariateIsAverage(s.cLocals[i][j], s.cGlobal[j], s.w[j], wls[i][j], cfg.lr, cfg.localSteps as real, raw,
                        Times(cfg.localSteps as real, cfg.lr));
  }

  /** A round keeps the server variate the mean of the client variates. */
  lemma RoundKeepsCentred(g: Gradient, cfg: Config, s: State, after: State, wls: seq<Vec>, d: nat)
    requires IsRound(g, cfg, s, after, wls, d) && Centred(s, d)
    ensures Centred(after, d)
  {
    forall j | 0 <= j < d ensures after.cGlobal[j] == Mean(Column(after.cLocals, j)) {
      MeanOfDifferences(Column(after.cLocals, j), Column(s.cLocals, j));
    }
  }

  /** So the corrections cancel: the new model is the old one minus lr times the average summed raw gradient. */
  lemma RoundIsGradientStep(g: Gradient, cfg: Config, s: State, after: State, wls: seq<Vec>, d: nat, j: nat)
    requires IsRound(g, cfg, s, after, wls, d) && Centred(s, d) && j < d
    ensures after.w[j] == s.w[j] - Times(cfg.lr, Mean(RawColumn(g, cfg, s, d, j)))
  {
    forall i | 0 <= i < |wls|
      ensures wls[i][j] == Drifted(s.w[j], cfg.lr, RawColumn(g, cfg, s, d, j)[i], cfg.localSteps as real,
                                   s.cLocals[i][j], s.cGlobal[j])
    {
      LocalClosedForm(g, i, s.w, s.cLocals[i], s.cGlobal, cfg.lr, cfg.localSteps, j);
    }
    CorrectionsCancel(Column(wls, j), s.w[j], cfg.lr, RawColumn(g, cfg, s, d, j), cfg.localSteps as real,
                      Column(s.cLocals, j), s.cGlobal[j]);
  }

  // ---------- the loops ----------

  method LocalUpdate(g: Gradient, i: nat, w: Vec, cLocal: Vec, cGlobal: Vec, cfg: Config) returns (wl: Vec)
    requires KeepsDimension(g, |w|) && |cLocal| == |cGlobal| == |w|
    ensures wl == LocalModel(g, i, w, cLocal, cGlobal, cfg.lr, cfg.localSteps)
  {
    wl := w;
    for t := 0 to cfg.localSteps
      invariant wl == LocalModel(g, i, w, cLocal, cGlobal, cfg.lr, t)
    {
      wl := StepVec(wl, cfg.lr, g(i, wl), cLocal, cGlobal);
    }
  }

  method Round(g: Gradient, cfg: Config, s: State, d: nat) returns (after: State, wls: seq<Vec>)
    requires KeepsDimension(g, d) && Sized(s, d) && cfg.localSteps > 0 && cfg.lr != 0.0
    ensures IsRound(g, cfg, s, after, wls, d)
  {
    var newWs: seq<Vec>, newCs: seq<Vec> := [], [];
    var scale := Times(cfg.localSteps as real, cfg.lr);
    NonZeroProduct(cfg.localSteps as real, cfg.lr);
    for i := 0 to |s.cLocals|
      invariant |newWs| == |newCs| == i
      invariant ClientsDone(g, cfg, s, newWs, newCs, d)
    {
      var wl := LocalUpdate(g, i, s.w, s.cLocals[i], s.cGlobal, cfg);
      newCs := newCs + [NewVariateVec(s.cLocals[i], s.cGlobal, s.w, wl, scale)];
      newWs := newWs + [wl];
    }
    var moved := seq(d, j requires 0 <= j < d => MovedVariate(s, newCs, d, j));
    after := State(MeanVec(newWs, d), moved, newCs);
    wls := newWs;
  }

  lemma NonZeroProduct(x: real, y: real)
    requires x != 0.0 && y != 0.0
    ensures Times(x, y) != 0.0
  {
  }

  function StartState(clients: nat, d: nat): State {
    State(Zeros(d), Zeros(d), seq(clients, i => Zeros(d)))
  }

  /** The meaning of a round: both variates are averages, and the model takes one uncorrected gradient step. */
  ghost predicate GradientStep(g: Gradient, cfg: Config, s: State, after: State, d: nat) {
    && KeepsDimension(g, d) && Sized(s, d) && Sized(after, d) && cfg.localSteps > 0
    && |after.cLocals| == |s.cLocals|
    && Centred(after, d)
    && (forall i, j :: 0 <= i < |s.cLocals| && 0 <= j < d ==>
          after.cLocals[i][j] == RawColumn(g, cfg, s, d, j)[i] / cfg.localSteps as real)
    && forall j :: 0 <= j < d ==> after.w[j] == s.w[j] - Times(cfg.lr, Mean(RawColumn(g, cfg, s, d, j)))
  }

  lemma RoundIsMeaningful(g: Gradient, cfg: Config, s: State, after: State, wls: seq<Vec>, d: nat)
    requires IsRound(g, cfg, s, after, wls, d) && Centred(s, d)
    ensures GradientStep(g, cfg, s, after, d)
  {
    RoundKeepsCentred(g, cfg, s, after, wls, d);
    forall i, j | 0 <= i < |s.cLocals| && 0 <= j < d
      ensures after.cLocals[i][j] == RawColumn(g, cfg, s, d, j)[i] / cfg.localSteps as real
    {
      VariatesAreAverages(g, cfg, s, after, wls, d, i, j);
    }
    forall j | 0 <= j < d ensures after.w[j] == s.w[j] - Times(cfg.lr, Mean(RawColumn(g, cfg, s, d, j))) {
      RoundIsGradientStep(g, cfg, s, after, wls, d, j);
    }
  }

  ghost predicate Descends(g: Gradient, cfg: Config, trace: seq<State>, d: nat) {
    forall r :: 0 < r < |trace| ==> GradientStep(g, cfg, trace[r - 1], trace[r], d)
  }

  /** All rounds from zero variates: every round is an uncorrected gradient step over averaged variates. */
  method Run(g: Gradient, cfg: Config, clients: nat, d: nat, rounds: nat) returns (s: State, ghost trace: seq<State>)
    requires KeepsDimension(g, d) && clients > 0 && cfg.localSteps > 0 && cfg.lr != 0.0
    ensures |trace| == rounds + 1 && trace[rounds] == s && trace[0] == StartState(clients, d)
    ensures Sized(s, d) && Centred(s, d)
    ensures Descends(g, cfg, trace, d)
  {
    s := StartState(clients, d);
    trace := [s];
    ZerosCentred(s, clients, d);
    for r := 0 to rounds
      invariant |trace| == r + 1 && trace[r] == s && trace[0] == StartState(clients, d)
      invariant Sized(s, d) && Centred(s, d)
      invariant Descends(g, cfg, trace, d)
    {
      var after, wls := Round(g, cfg, s, d);
      RoundIsMeaningful(g, cfg, s, after, wls, d);
      s := after;
      trace := trace + [s];
    }
  }

  lemma ZerosCentred(s: State, clients: nat, d: nat)
    requires clients > 0 && s == StartState(clients, d)
    ensures Sized(s, d) && Centred(s, d)
  {
    forall j | 0 <= j < d ensures s.cGlobal[j] == Mean(Column(s.cLocals, j)) {
      SumOfZeros(Column(s.cLocals, j));
    }
  }

  lemma {:induction false} SumOfZeros(xs: seq<real>)
    requires forall i :: 0 <= i < |xs| ==> xs[i] == 0.0
    ensures Sum(xs) == 0.0
  {
    if xs != [] { SumOfZeros(xs[..|xs| - 1]); }
  }
}
