/** Federated averaging on the mutable trees of `hq_server.py`: the recursion overwrites the template's leaves
    in place while it reads the other branches' trees, and wherever a branch has no matching node the template's
    own node stands in, so the template may occur among its own inputs. */
module FedAvg {
  import opened ModelTree
  import opened Options
  import opened RealArithmetic
  import opened WeightedSums

  /** A JSON tree node. Only its leaf entry is ever assigned. */
  class Node {
    const split: nat
    const children: seq<Node>
    var leaf: Option<real>
    ghost const repr: set<Node>

    /** The node is the root of a tree: its children's node sets are disjoint and do not contain it. */
    ghost predicate Valid()
      decreases repr
    {
      && this in repr
      && (forall i :: 0 <= i < |children| ==>
            children[i].repr < repr && this !in children[i].repr && children[i].Valid())
      && (forall i, j :: 0 <= i < j < |children| ==> children[i].repr !! children[j].repr)
    }

    /** The tree value stored below this node. */
    ghost function View(): Tree
      requires Valid()
      reads repr
      decreases repr
    {
      Tree(split, leaf, seq(|children|, i requires 0 <= i < |children| 
          reads if 0 <= i < |children| then children[i].repr else {} => children[i].View()))
    }

    constructor (split: nat, leaf: Option<real>, children: seq<Node>)
      requires forall i :: 0 <= i < |children| ==> children[i].Valid()
      requires forall i, j :: 0 <= i < j < |children| ==> children[i].repr !! children[j].repr
      ensures this.split == split && this.leaf == leaf && this.children == children
      ensures repr == {this} + Nodes(children) && Valid()
    {
      this.split, this.leaf, this.children := split, leaf, children;
      this.repr := {this} + Nodes(children);
    }
  }

  ghost function Nodes(trees: seq<Node>): set<Node> {
    set i, n | 0 <= i < |trees| && n in trees[i].repr :: n
  }

  ghost predicate AllValid(nodes: seq<Node>) {
    forall j :: 0 <= j < |nodes| ==> nodes[j].Valid()
  }

  ghost function Views(nodes: seq<Node>): (ts: seq<Tree>)
    requires AllValid(nodes)
    reads Nodes(nodes)
    ensures |ts| == |nodes|
  {
    seq(|nodes|, j requires 0 <= j < |nodes| 
      reads if 0 <= j < |nodes| then nodes[j].repr else {} => nodes[j].View())
  }

  twostate predicate Untouched(n: Node)
    reads n.repr
  {
    forall m :: m in n.repr ==> m.leaf == old(m.leaf)
  }

  /** A tree none of whose leaves changed still stores the same value. */
  twostate lemma ViewUnchanged(n: Node)
    requires n.Valid() && Untouched(n)
    ensures n.View() == old(n.View())
    decreases n.repr
  {
    forall i | 0 <= i < |n.children| ensures n.children[i].View() == old(n.children[i].View()) {
      ViewUnchanged(n.children[i]);
    }
  }

  /** Every input is the template itself or a tree that shares no node with it. */
  ghost predicate SelfOrApart(template: Node, inputs: seq<Node>) {
    forall j :: 0 <= j < |inputs| ==> inputs[j] == template || inputs[j].repr !! template.repr
  }

  /** The recursion overwrites the template with the pure weighted average of what the inputs were, and nothing
      else, even when the template is one of the inputs. */
  method AverageNodes(template: Node, inputs: seq<Node>, w: seq<real>)
    requires template.Valid() && AllValid(inputs) && SelfOrApart(template, inputs)
    requires |inputs| == |w| && Total(w) != 0.0
    modifies template.repr
    ensures template.View() == old(Averaged(template.View(), Views(inputs), w))
    decreases template.repr
  {
    ghost var before, given := template.View(), Views(inputs);
    if template.leaf.Some? {
      var vals: seq<real> := [];
      for j := 0 to |inputs|
        modifies {}
        invariant vals == LeafValues(before.leaf.value, given)[..j]
      {
        vals := vals + [if inputs[j].leaf.Some? then inputs[j].leaf.value else template.leaf.value];
      }
      assert vals == LeafValues(before.leaf.value, given);
      template.leaf := Some(Average(vals, w));
      return;
    }
    for i := 0 to |template.children|
      invariant template.leaf == None
      invariant forall k :: i <= k < |template.children| ==> Untouched(template.children[k])
      invariant forall k :: 0 <= k < i ==>
                  template.children[k].View()
                      == Averaged(before.children[k], ChildInputs(given, k, before.children[k]), w)
    {
      var child := template.children[i];
      var others: seq<Node> := [];
      for j := 0 to |inputs|
        modifies {}
        invariant |others| == j && AllValid(others) && SelfOrApart(child, others)
        invariant forall m :: 0 <= m < j ==> others[m].View() == ChildInputs(given, i, before.children[i])[m]
      {
        ViewUnchanged(child);
        if inputs[j] != template && i < |inputs[j].children| { ViewUnchanged(inputs[j].children[i]); }
        if i < |inputs[j].children| {
          others := others + [inputs[j].children[i]];
        } else {
          others := others + [child];
        }
      }
      ViewUnchanged(child);
      assert Views(others) == ChildInputs(given, i, before.children[i]);
      assert template !in child.repr && template.Valid();
      AverageNodes(child, others, w);
      forall k | i < k < |template.children| ensures Untouched(template.children[k]) {
        assert child.repr !! template.children[k].repr;
      }
    }
  }

  // ---------- the federated average ----------

  datatype Submission = Submission(branch: string, size: int, trees: seq<Node>)

  ghost predicate WellFormed(subs: seq<Submission>) {
    forall j :: 0 <= j < |subs| ==> AllValid(subs[j].trees)
  }

  ghost function SubmissionNodes(subs: seq<Submission>): set<Node> {
    set j, k, n | 0 <= j < |subs| && 0 <= k < |subs[j].trees| && n in subs[j].trees[k].repr :: n
  }

  /** The submissions as values. */
  ghost function Models(subs: seq<Submission>): (ms: seq<BranchModel>)
    requires WellFormed(subs)
    reads SubmissionNodes(subs)
    ensures |ms| == |subs|
  {
    seq(|subs|, j requires 0 <= j < |subs| reads SubmissionNodes(subs) =>
          assert Nodes(subs[j].trees) <= SubmissionNodes(subs);
          BranchModel(subs[j].size, Views(subs[j].trees)))
  }

  ghost predicate PairwiseApart(nodes: seq<Node>) {
    forall i, j :: 0 <= i < j < |nodes| ==> nodes[i].repr !! nodes[j].repr
  }

  twostate predicate AllFresh(new nodes: seq<Node>) {
    forall i :: 0 <= i < |nodes| ==> fresh(nodes[i].repr)
  }

  /** A round trip through JSON text: an equal tree made of new nodes. */
  method DeepCopy(n: Node) returns (c: Node)
    requires n.Valid()
    ensures c.Valid() && fresh(c.repr) && c.View() == n.View()
    decreases n.repr, 0
  {
    var copies := DeepCopyAll(n.children, n.repr - {n});
    c := new Node(n.split, n.leaf, copies);
  }

  method DeepCopyAll(nodes: seq<Node>, ghost within: set<Node>) returns (copies: seq<Node>)
    requires AllValid(nodes) && forall i :: 0 <= i < |nodes| ==> nodes[i].repr <= within
    ensures AllValid(copies) && PairwiseApart(copies) && AllFresh(copies) && Views(copies) == Views(nodes)
    decreases within, 1
  {
    copies := [];
    for i := 0 to |nodes|
      invariant |copies| == i && AllValid(copies) && PairwiseApart(copies) && AllFresh(copies)
      invariant forall k :: 0 <= k < i ==> copies[k].View() == nodes[k].View()
    {
      var c := DeepCopy(nodes[i]);
      copies := copies + [c];
    }
  }

  /** The branch with the largest training set, the first one among equals. */
  method LargestBranch(subs: seq<Submission>) returns (best: nat)
    requires subs != []
    ensures best < |subs|
    ensures forall j :: 0 <= j < |subs| ==> subs[j].size <= subs[best].size
    ensures forall j :: 0 <= j < best ==> subs[j].size < subs[best].size
  {
    best := 0;
    for j := 1 to |subs|
      invariant best < j
      invariant forall i :: 0 <= i < j ==> subs[i].size <= subs[best].size
      invariant forall i :: 0 <= i < best ==> subs[i].size < subs[best].size
    {
      if subs[j].size > subs[best].size { best := j; }
    }
  }

  method TotalSize(subs: seq<Submission>) returns (sizes: seq<int>, total: int)
    requires WellFormed(subs)
    ensures sizes == Sizes(Models(subs)) && total == SumOf(sizes)
  {
    sizes, total := [], 0;
    for j := |subs| downto 0
      invariant sizes == Sizes(Models(subs))[j..] && total == SumOf(sizes)
    {
      sizes, total := [subs[j].size] + sizes, subs[j].size + total;
    }
  }

  /** Every branch's t-th tree, or the template's own where a branch has fewer trees. */
  method TreesAt(subs: seq<Submission>, t: nat, own: Node) returns (inputs: seq<Node>)
    requires WellFormed(subs) && own.Valid()
    requires forall j, k :: 0 <= j < |subs| && 0 <= k < |subs[j].trees| ==> subs[j].trees[k].repr !! own.repr
    ensures AllValid(inputs) && SelfOrApart(own, inputs)
    ensures Views(inputs) == TreeInputs(Models(subs), t, own.View())
  {
    inputs := [];
    for j := 0 to |subs|
      invariant |inputs| == j && AllValid(inputs) && SelfOrApart(own, inputs)
      invariant forall i :: 0 <= i < j ==> inputs[i].View() == TreeInputs(Models(subs), t, own.View())[i]
    {
      inputs := inputs + [if t < |subs[j].trees| then subs[j].trees[t] else own];
    }
  }

  ghost predicate Apart(trees: seq<Node>, subs: seq<Submission>) {
    forall i, j, k :: 0 <= i < |trees| && 0 <= j < |subs| && 0 <= k < |subs[j].trees| ==>
      subs[j].trees[k].repr !! trees[i].repr
  }

  /** Averages one tree after the other, overwriting the copies and none of the submissions. */
  method AverageTrees(trees: seq<Node>, subs: seq<Submission>, w: seq<real>)
    requires AllValid(trees) && PairwiseApart(trees) && WellFormed(subs) && Apart(trees, subs)
    requires |subs| == |w| && Total(w) != 0.0
    modifies Nodes(trees)
    ensures Views(trees) == old(GlobalTrees(Views(trees), Models(subs), w))
    ensures Models(subs) == old(Models(subs))
  {
    ghost var own, models := Views(trees), Models(subs);
    assert SubmissionNodes(subs) !! Nodes(trees);
    for t := 0 to |trees|
      invariant models == Models(subs)
      invariant forall k :: 0 <= k < t ==> trees[k].View() == Averaged(own[k], TreeInputs(models, k, own[k]), w)
      invariant forall k :: t <= k < |trees| ==> trees[k].View() == own[k]
    {
      var inputs := TreesAt(subs, t, trees[t]);
      AverageNodes(trees[t], inputs, w);
    }
  }

  /** The averaged trees, in the shape of the largest branch. */
  ghost predicate IsFederatedAverage(global: seq<Tree>, models: seq<BranchModel>, template: nat) {
    var sizes := Sizes(models);
    && SumOf(sizes) != 0
    && IsTemplate(models, template)
    && Total(Shares(sizes, SumOf(sizes))) == 1.0
    && global == GlobalTrees(models[template].trees, models, Shares(sizes, SumOf(sizes)))
  }

  /** With no submission, or with training sets of total size zero, the average is undefined and the round is
      abandoned. Otherwise the global model consists of new nodes holding the averaged trees, and the
      submissions are left as they were. */
  method FederatedAverage(subs: seq<Submission>) returns (global: Option<seq<Node>>, ghost template: nat)
    requires WellFormed(subs)
    ensures Models(subs) == old(Models(subs))
    ensures global.None? <==> subs == [] || SumOf(Sizes(old(Models(subs)))) == 0
    ensures global.Some? ==> AllValid(global.value) && AllFresh(global.value)
    ensures global.Some? ==> IsFederatedAverage(Views(global.value), old(Models(subs)), template)
  {
    ghost var models, nodes := Models(subs), SubmissionNodes(subs);
    var sizes, total := TotalSize(subs);
    assert forall n :: n in nodes ==> n.leaf == old(n.leaf);
    if subs == [] || total == 0 { return None, 0; }
    var w := Shares(sizes, total);
    WeightsTotalOne(sizes, total);
    var best := LargestBranch(subs);
    assert IsTemplate(models, best);
    var trees := DeepCopyAll(subs[best].trees, Nodes(subs[best].trees));
    assert forall n :: n in nodes ==> n.leaf == old(n.leaf);
    assert Models(subs) == models && Views(trees) == models[best].trees;
    AverageTrees(trees, subs, w);
    global, template := Some(trees), best;
  }

  lemma WeightsTotalOne(sizes: seq<int>, total: int)
    requires total != 0 && total == SumOf(sizes)
    ensures Total(Shares(sizes, total)) == 1.0
  {
    SharesTotal(sizes, total);
    assert total as real / total as real == 1.0;
  }

  /** The promise of federated averaging for the model that FederatedAverage returns: when the branches' trees
      share their splits, it scores every input exactly the size-weighted average of the branch scores. */
  lemma GlobalModelScore(global: seq<Tree>, models: seq<BranchModel>, template: nat, route: Route)
    requires IsFederatedAverage(global, models, template) && SharedSplits(models[template].trees, models)
    ensures EnsembleScore(global, route)
         == WeightedSum(Shares(Sizes(models), SumOf(Sizes(models))), EnsembleScores(models, route))
  {
    FedAvgScore(models[template].trees, models, SumOf(Sizes(models)), route);
  }
}
