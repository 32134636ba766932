/** The decision trees that federated averaging works on, as values, and what averaging means for the scores
    they give. A node may carry a "leaf" entry, a "children" list, both or neither (a missing list and an empty
    one are treated alike); `split` stands for its other entries, which decide where an input is routed and
    which averaging never touches. */
module ModelTree {
  import opened Options
  import opened RealArithmetic
  import opened WeightedSums

  datatype Tree = Tree(split: nat, leaf: Option<real>, children: seq<Tree>)

  /** numpy's average: the weighted sum over the sum of the weights. */
  function Average(vals: seq<real>, w: seq<real>): real
    requires |vals| == |w| && Total(w) != 0.0
  {
    WeightedSum(w, vals) / Total(w)
  }

  // ---------- the averaging recursion on values ----------

  function LeafValues(own: real, inputs: seq<Tree>): (vals: seq<real>)
    ensures |vals| == |inputs|
  {
    seq(|inputs|, j requires 0 <= j < |inputs| => if inputs[j].leaf.Some? then inputs[j].leaf.value else own)
  }

  /** The i-th child of an input, or the template's own child when the input has none there. */
  function ChildOr(input: Tree, i: nat, own: Tree): Tree {
    if i < |input.children| then input.children[i] else own
  }

  function ChildInputs(inputs: seq<Tree>, i: nat, own: Tree): (cs: seq<Tree>)
    ensures |cs| == |inputs|
  {
    seq(|inputs|, j requires 0 <= j < |inputs| => ChildOr(inputs[j], i, own))
  }

  function Averaged(template: Tree, inputs: seq<Tree>, w: seq<real>): (t: Tree)
    requires |inputs| == |w| && Total(w) != 0.0
    decreases template
  {
    if template.leaf.Some? then
      template.(leaf := Some(Average(LeafValues(template.leaf.value, inputs), w)))
    else
      var own := template.children;
      template.(children := seq(|own|, i requires 0 <= i < |own| =>
                                  Averaged(own[i], ChildInputs(inputs, i, own[i]), w)))
  }

  // ---------- what a tree means ----------

  /** Inputs reach a node and are sent on to the child that its split chooses. */
  type Route = nat -> nat

  function Score(t: Tree, route: Route): real
    decreases t
  {
    if t.leaf.Some? then t.leaf.value
    else if route(t.split) < |t.children| then Score(t.children[route(t.split)], route)
    else 0.0
  }

  /** Same splits and same places for leaves and children, down to every leaf. */
  predicate SameShape(t: Tree, u: Tree)
    decreases t
  {
    && t.split == u.split && (t.leaf.Some? <==> u.leaf.Some?)
    && (t.leaf.None? ==>
          && |t.children| == |u.children|
          && forall i :: 0 <= i < |t.children| ==> SameShape(t.children[i], u.children[i]))
  }

  /** The template with the leaves of another tree laid over it wherever that tree has one. */
  function Overlay(t: Tree, u: Tree): Tree
    decreases t
  {
    if t.leaf.Some? then t.(leaf := if u.leaf.Some? then u.leaf else t.leaf)
    else
      var own := t.children;
      t.(children := seq(|own|, i requires 0 <= i < |own| => Overlay(own[i], ChildOr(u, i, own[i]))))
  }

  lemma {:induction false} OverlaySameShape(t: Tree, u: Tree, route: Route)
    requires SameShape(t, u)
    ensures Score(Overlay(t, u), route) == Score(u, route)
    decreases t
  {
    if t.leaf.None? && route(t.split) < |t.children| {
      OverlaySameShape(t.children[route(t.split)], u.children[route(t.split)], route);
    }
  }

  /** The result keeps the template's shape, whatever the inputs look like. */
  lemma {:induction false} AveragedKeepsShape(template: Tree, inputs: seq<Tree>, w: seq<real>)
    requires |inputs| == |w| && Total(w) != 0.0
    ensures SameShape(template, Averaged(template, inputs, w))
    decreases template
  {
    if template.leaf.None? {
      var own := template.children;
      forall i | 0 <= i < |own| ensures SameShape(own[i], Averaged(own[i], ChildInputs(inputs, i, own[i]), w)) {
        AveragedKeepsShape(own[i], ChildInputs(inputs, i, own[i]), w);
      }
    }
  }

  function OverlayScores(template: Tree, inputs: seq<Tree>, route: Route): (xs: seq<real>)
    ensures |xs| == |inputs|
  {
    seq(|inputs|, j requires 0 <= j < |inputs| => Score(Overlay(template, inputs[j]), route))
  }

  /** The meaning of averaging, for inputs of any shape: on every route, the averaged tree scores the weighted
      average of the scores of the overlaid trees. */
  lemma {:induction false} AveragedScore(template: Tree, inputs: seq<Tree>, w: seq<real>, route: Route)
    requires |inputs| == |w| && Total(w) != 0.0
    ensures Score(Averaged(template, inputs, w), route) == Average(OverlayScores(template, inputs, route), w)
    decreases template
  {
    if template.leaf.Some? {
      assert OverlayScores(template, inputs, route) == LeafValues(template.leaf.value, inputs);
    } else if route(template.split) < |template.children| {
      var i := route(template.split);
      var own := template.children[i];
      AveragedScore(own, ChildInputs(inputs, i, own), w, route);
      assert OverlayScores(template, inputs, route) == OverlayScores(own, ChildInputs(inputs, i, own), route);
    } else {
      assert OverlayScores(template, inputs, route) == Zeros(|w|);
      WeightedSumOfZeros(w);
    }
  }

  // ---------- trees without leaves ----------

  /** No leaf entry that the recursion reaches. */
  predicate LeafFree(t: Tree)
    decreases t
  {
    t.leaf.None? && forall i :: 0 <= i < |t.children| ==> LeafFree(t.children[i])
  }

  /** The tree with every reachable leaf one higher. */
  function Raised(t: Tree): Tree
    decreases t
  {
    if t.leaf.Some? then t.(leaf := Some(t.leaf.value + 1.0))
    else t.(children := seq(|t.children|, i requires 0 <= i < |t.children| => Raised(t.children[i])))
  }

  lemma {:induction false} LeafFreeStays(template: Tree, inputs: seq<Tree>, w: seq<real>)
    requires |inputs| == |w| && Total(w) != 0.0 && LeafFree(template)
    ensures Averaged(template, inputs, w) == template
    decreases template
  {
    var own := template.children;
    forall i | 0 <= i < |own| ensures Averaged(own[i], ChildInputs(inputs, i, own[i]), w) == own[i] {
      LeafFreeStays(own[i], ChildInputs(inputs, i, own[i]), w);
    }
    assert Averaged(template, inputs, w).children == own;
  }

  const HALVES: seq<real> := [0.5, 0.5]

  /** Averaging a tree with its raised copy changes it. */
  lemma {:induction false} RaisedDiffers(t: Tree)
    requires !LeafFree(t)
    ensures Total(HALVES) == 1.0 && Averaged(t, [t, Raised(t)], HALVES) != t
    decreases t
  {
    HalvesAverage(0.0, 0.0);
    if t.leaf.Some? {
      var x := t.leaf.value;
      assert LeafValues(x, [t, Raised(t)]) == [x, x + 1.0];
      HalvesAverage(x, x + 1.0);
    } else {
      var i :| 0 <= i < |t.children| && !LeafFree(t.children[i]);
      RaisedDiffers(t.children[i]);
      assert ChildInputs([t, Raised(t)], i, t.children[i]) == [t.children[i], Raised(t.children[i])];
      assert Averaged(t, [t, Raised(t)], HALVES).children[i] != t.children[i];
    }
  }

  lemma HalvesAverage(x: real, y: real)
    ensures Total(HALVES) == 1.0 && Average([x, y], HALVES) == (x + y) / 2.0
  {
    assert HALVES[1..] == [0.5] && [0.5][1..] == [] && [x, y][1..] == [y] && [y][1..] == [];
    assert WeightedSum([0.5], [y]) == Times(0.5, y);
  }

  // ---------- ensembles and the federated average ----------

  datatype BranchModel = BranchModel(size: int, trees: seq<Tree>)

  function Sizes(branches: seq<BranchModel>): (s: seq<int>)
    ensures |s| == |branches|
  {
    seq(|branches|, j requires 0 <= j < |branches| => branches[j].size)
  }

  function EnsembleScore(trees: seq<Tree>, route: Route): real {
    if trees == [] then 0.0 else Score(trees[0], route) + EnsembleScore(trees[1..], route)
  }

  /** The first branch with the largest training set. */
  predicate IsTemplate(branches: seq<BranchModel>, k: nat) {
    && k < |branches|
    && (forall j :: 0 <= j < |branches| ==> branches[j].size <= branches[k].size)
    && (forall j :: 0 <= j < k ==> branches[j].size < branches[k].size)
  }

  function TreeOr(branch: BranchModel, i: nat, own: Tree): Tree {
    if i < |branch.trees| then branch.trees[i] else own
  }

  function TreeInputs(branches: seq<BranchModel>, i: nat, own: Tree): (ts: seq<Tree>)
    ensures |ts| == |branches|
  {
    seq(|branches|, j requires 0 <= j < |branches| => TreeOr(branches[j], i, own))
  }

  function GlobalTrees(template: seq<Tree>, branches: seq<BranchModel>, w: seq<real>): (ts: seq<Tree>)
    requires |branches| == |w| && Total(w) != 0.0
    ensures |ts| == |template|
  {
    seq(|template|, i requires 0 <= i < |template| => Averaged(template[i], TreeInputs(branches, i, template[i]), w))
  }

  predicate SharedSplits(template: seq<Tree>, branches: seq<BranchModel>) {
    forall j :: 0 <= j < |branches| ==>
      |branches[j].trees| == |template|
      && forall i :: 0 <= i < |template| ==> SameShape(template[i], branches[j].trees[i])
  }

  /** Every branch's score over its trees from the i-th on. */
  function BranchScores(branches: seq<BranchModel>, i: nat, route: Route): (xs: seq<real>)
    requires forall j :: 0 <= j < |branches| ==> i <= |branches[j].trees|
    ensures |xs| == |branches|
  {
    seq(|branches|, j requires 0 <= j < |branches| => EnsembleScore(branches[j].trees[i..], route))
  }

  lemma {:induction false} GlobalScoreFrom(template: seq<Tree>, i: nat, branches: seq<BranchModel>, w: seq<real>,
                                           route: Route)
    requires |branches| == |w| && Total(w) == 1.0 && i <= |template| && SharedSplits(template, branches)
    ensures EnsembleScore(GlobalTrees(template, branches, w)[i..], route)
         == WeightedSum(w, BranchScores(branches, i, route))
    decreases |template| - i
  {
    if i == |template| {
      assert BranchScores(branches, i, route) == Zeros(|w|);
      WeightedSumOfZeros(w);
    } else {
      var own := template[i];
      var inputs := TreeInputs(branches, i, own);
      var here, later := OverlayScores(own, inputs, route), BranchScores(branches, i + 1, route);
      GlobalScoreFrom(template, i + 1, branches, w, route);
      AveragedScore(own, inputs, w, route);
      BranchScoresStep(template, i, branches, route);
      WeightedSumAdds(w, here, later);
      var trees := GlobalTrees(template, branches, w);
      assert trees[i..][1..] == trees[i + 1..];
    }
  }

  lemma BranchScoresStep(template: seq<Tree>, i: nat, branches: seq<BranchModel>, route: Route)
    requires i < |template| && SharedSplits(template, branches)
    ensures BranchScores(branches, i, route)
         == AddAll(OverlayScores(template[i], TreeInputs(branches, i, template[i]), route),
                   BranchScores(branches, i + 1, route))
  {
    forall j | 0 <= j < |branches|
      ensures EnsembleScore(branches[j].trees[i..], route)
           == Score(Overlay(template[i], branches[j].trees[i]), route)
               + EnsembleScore(branches[j].trees[i + 1..], route)
    {
      OverlaySameShape(template[i], branches[j].trees[i], route);
      assert branches[j].trees[i..][1..] == branches[j].trees[i + 1..];
    }
  }

  function EnsembleScores(branches: seq<BranchModel>, route: Route): (xs: seq<real>)
    ensures |xs| == |branches|
  {
    seq(|branches|, j requires 0 <= j < |branches| => EnsembleScore(branches[j].trees, route))
  }

  /** FedAvg preserves meaning: when the branches' trees share their splits, the global ensemble scores every
      input exactly the size-weighted average of the branch scores. */
  lemma FedAvgScore(template: seq<Tree>, branches: seq<BranchModel>, total: int, route: Route)
    requires total != 0 && total == SumOf(Sizes(branches)) && SharedSplits(template, branches)
    ensures Total(Shares(Sizes(branches), total)) == 1.0
    ensures EnsembleScore(GlobalTrees(template, branches, Shares(Sizes(branches), total)), route)
         == WeightedSum(Shares(Sizes(branches), total), EnsembleScores(branches, route))
  {
    var w := Shares(Sizes(branches), total);
    SharesTotal(Sizes(branches), total);
    assert total as real / total as real == 1.0;
    GlobalScoreFrom(template, 0, branches, w, route);
    assert GlobalTrees(template, branches, w)[0..] == GlobalTrees(template, branches, w);
    forall j | 0 <= j < |branches| ensures branches[j].trees[0..] == branches[j].trees {}
    assert BranchScores(branches, 0, route) == EnsembleScores(branches, route);
  }
  // ---------- when averaging changes nothing ----------

  /** Whatever the other branches send, a round publishes these trees as they are when they are the largest branch's. */
  ghost predicate AlwaysPublished(trees: seq<Tree>) {
    forall branches: seq<BranchModel>, k: nat ::
      IsTemplate(branches, k) && branches[k].trees == trees && SumOf(Sizes(branches)) != 0 ==>
        Published(trees, branches) == trees
  }

  /** The global trees of a round with this template. */
  function Published(template: seq<Tree>, branches: seq<BranchModel>): seq<Tree>
    requires SumOf(Sizes(branches)) != 0
  {
    var total := SumOf(Sizes(branches));
    SharesTotal(Sizes(branches), total);
    GlobalTrees(template, branches, Shares(Sizes(branches), total))
  }

  function RaisedAll(trees: seq<Tree>): (r: seq<Tree>)
    ensures |r| == |trees|
  {
    seq(|trees|, i requires 0 <= i < |trees| => Raised(trees[i]))
  }

  /** A branch and another one of the same size whose leaves are all one higher. */
  function Rivals(trees: seq<Tree>): seq<BranchModel> {
    [BranchModel(1, trees), BranchModel(1, RaisedAll(trees))]
  }

  lemma RivalsShares(trees: seq<Tree>)
    ensures SumOf(Sizes(Rivals(trees))) == 2 && Shares(Sizes(Rivals(trees)), 2) == HALVES
    ensures IsTemplate(Rivals(trees), 0)
  {
    assert Sizes(Rivals(trees)) == [1, 1] && [1, 1][1..] == [1] && [1][1..] == [];
    assert SumOf([1]) == 1;
  }

  lemma RivalsChange(trees: seq<Tree>, i: nat)
    requires i < |trees| && !LeafFree(trees[i])
    ensures !AlwaysPublished(trees)
  {
    var branches, t := Rivals(trees), trees[i];
    RivalsShares(trees);
    RaisedDiffers(t);
    assert TreeInputs(branches, i, t) == [t, Raised(t)];
    assert Published(trees, branches)[i] == Averaged(t, [t, Raised(t)], HALVES);
    assert IsTemplate(branches, 0) && branches[0].trees == trees;
  }

  /** Rounds publish the largest branch's trees as they are, whatever the others send, exactly when the recursion
      reaches no leaf entry in any of them. */
  lemma TemplateStaysIff(trees: seq<Tree>)
    ensures AlwaysPublished(trees) <==> forall i :: 0 <= i < |trees| ==> LeafFree(trees[i])
  {
    if i :| 0 <= i < |trees| && !LeafFree(trees[i]) {
      RivalsChange(trees, i);
    } else {
      forall branches: seq<BranchModel>, k: nat |
        IsTemplate(branches, k) && branches[k].trees == trees && SumOf(Sizes(branches)) != 0
        ensures Published(trees, branches) == trees
      {
        LeafFreePublished(trees, branches);
      }
    }
  }

  lemma LeafFreePublished(trees: seq<Tree>, branches: seq<BranchModel>)
    requires (forall i :: 0 <= i < |trees| ==> LeafFree(trees[i])) && SumOf(Sizes(branches)) != 0
    ensures Published(trees, branches) == trees
  {
    var w := Shares(Sizes(branches), SumOf(Sizes(branches)));
    SharesTotal(Sizes(branches), SumOf(Sizes(branches)));
    forall i | 0 <= i < |trees| ensures Averaged(trees[i], TreeInputs(branches, i, trees[i]), w) == trees[i] {
      LeafFreeStays(trees[i], TreeInputs(branches, i, trees[i]), w);
    }
  }
}
