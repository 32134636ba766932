/** The Merkle root of `go_bff/chain.go`: layers are paired left to right and an odd last node is paired with
    itself. */
module Merkle {
  import opened HashText
  import opened PowersOfTwo

  /** One pass over a layer. */
  function NextLayer(H: HashFunction, layer: seq<string>): (next: seq<string>)
    ensures |layer| <= 2 * |next| <= |layer| + 1
  {
    if layer == [] then []
    else if |layer| == 1 then [H(layer[0] + layer[0])]
    else [H(layer[0] + layer[1])] + NextLayer(H, layer[2..])
  }

  function Root(H: HashFunction, leaves: seq<string>): string
    decreases |leaves|
  {
    if leaves == [] then Zeros(64)
    else if |leaves| == 1 then leaves[0]
    else Root(H, NextLayer(H, leaves))
  }

  method HashLayer(H: HashFunction, layer: seq<string>) returns (next: seq<string>)
    ensures next == NextLayer(H, layer)
  {
    next := [];
    var i := 0;
    while i < |layer|
      invariant 0 <= i && i % 2 == 0
      invariant i <= |layer| ==> next + NextLayer(H, layer[i..]) == NextLayer(H, layer)
      invariant i > |layer| ==> next == NextLayer(H, layer)
    {
      if i + 1 < |layer| {
        assert layer[i..][2..] == layer[i + 2..];
        next := next + [H(layer[i] + layer[i + 1])];
      } else {
        next := next + [H(layer[i] + layer[i])];
      }
      i := i + 2;
    }
  }

  /** The level-by-level loop ends, and computes the hash of a perfect tree in which the missing half of every
      incomplete pair is a copy of the other. */
  method MerkleRootHex(H: HashFunction, leaves: seq<string>) returns (root: string)
    ensures root == Root(H, leaves)
    ensures leaves != [] ==> root == TreeHash(H, Depth(|leaves|), leaves)
  {
    if |leaves| == 0 { return Zeros(64); }
    RootIsTreeHash(H, leaves);
    var layer := leaves;
    while |layer| > 1
      invariant layer != [] && Root(H, layer) == Root(H, leaves)
      decreases |layer|
    {
      layer := HashLayer(H, layer);
    }
    return layer[0];
  }

  // ---------- depth ----------

  /** The least d with n <= 2^d. */
  function Depth(n: nat): (d: nat)
    requires n > 0
    ensures n <= Pow2(d)
  {
    if n == 1 then 0 else 1 + Depth((n + 1) / 2)
  }

  // ---------- hash trees ----------

  datatype Tree<T> = Leaf(value: T) | Node(left: Tree<T>, right: Tree<T>)

  /** The perfect tree of depth d over at most 2^d elements, in which a missing right half is a copy of the left one. */
  function TreeOf<T>(d: nat, s: seq<T>): Tree<T>
    requires 0 < |s| <= Pow2(d)
  {
    if d == 0 then Leaf(s[0])
    else
      var h := Pow2(d - 1);
      if |s| <= h then var t := TreeOf(d - 1, s); Node(t, t)
      else Node(TreeOf(d - 1, s[..h]), TreeOf(d - 1, s[h..]))
  }

  function HashOf(H: HashFunction, t: Tree<string>): string {
    match t
    case Leaf(x) => x
    case Node(l, r) => H(HashOf(H, l) + HashOf(H, r))
  }

  /** The texts hashed in a tree. */
  function TextsOf(H: HashFunction, t: Tree<string>): set<string> {
    match t
    case Leaf(x) => {}
    case Node(l, r) => {HashOf(H, l) + HashOf(H, r)} + TextsOf(H, l) + TextsOf(H, r)
  }

  predicate Perfect<T>(t: Tree<T>, d: nat) {
    match t
    case Leaf(x) => d == 0
    case Node(l, r) => d > 0 && Perfect(l, d - 1) && Perfect(r, d - 1)
  }

  lemma {:induction false} TreeOfIsPerfect<T>(d: nat, s: seq<T>)
    requires 0 < |s| <= Pow2(d)
    ensures Perfect(TreeOf(d, s), d)
  {
    if d > 0 {
      var h := Pow2(d - 1);
      if |s| <= h {
        TreeOfIsPerfect(d - 1, s);
      } else {
        TreeOfIsPerfect(d - 1, s[..h]);
        TreeOfIsPerfect(d - 1, s[h..]);
      }
    }
  }

  function TreeHash(H: HashFunction, d: nat, leaves: seq<string>): string
    requires 0 < |leaves| <= Pow2(d)
  {
    HashOf(H, TreeOf(d, leaves))
  }

  // ---------- the loop computes a tree hash ----------

  /** Hashing the pairs of leaves at the bottom of a tree. */
  function Collapse(H: HashFunction, t: Tree<string>): Tree<string>
    requires t.Node?
  {
    if t.left.Leaf? && t.right.Leaf? then Leaf(H(t.left.value + t.right.value))
    else
      Node(if t.left.Node? then Collapse(H, t.left) else t.left,
           if t.right.Node? then Collapse(H, t.right) else t.right)
  }

  /** The texts hashed for these pairs. */
  function BottomTexts(t: Tree<string>): set<string>
    requires t.Node?
  {
    if t.left.Leaf? && t.right.Leaf? then {t.left.value + t.right.value}
    else (if t.left.Node? then BottomTexts(t.left) else {}) + (if t.right.Node? then BottomTexts(t.right) else {})
  }

  lemma {:induction false} CollapseKeepsHash(H: HashFunction, t: Tree<string>, d: nat)
    requires d > 0 && Perfect(t, d)
    ensures HashOf(H, Collapse(H, t)) == HashOf(H, t)
    ensures TextsOf(H, t) == BottomTexts(t) + TextsOf(H, Collapse(H, t))
  {
    if d > 1 {
      CollapseKeepsHash(H, t.left, d - 1);
      CollapseKeepsHash(H, t.right, d - 1);
      Shuffle(HashOf(H, t.left) + HashOf(H, t.right), BottomTexts(t.left), BottomTexts(t.right),
              TextsOf(H, Collapse(H, t.left)), TextsOf(H, Collapse(H, t.right)));
    }
  }

  lemma Shuffle(t: string, l: set<string>, r: set<string>, x: set<string>, y: set<string>)
    ensures {t} + (l + x) + (r + y) == (l + r) + ({t} + x + y)
  {
  }

  lemma {:induction false} NextLayerSplits(H: HashFunction, layer: seq<string>, q: nat, h: nat)
    requires h == 2 * q && h <= |layer|
    ensures NextLayer(H, layer)[..q] == NextLayer(H, layer[..h])
    ensures NextLayer(H, layer)[q..] == NextLayer(H, layer[h..])
  {
    if q > 0 {
      NextLayerSplits(H, layer[2..], q - 1, h - 2);
      assert layer[..h][2..] == layer[2..][..h - 2];
      assert layer[2..][h - 2..] == layer[h..];
      var rest := NextLayer(H, layer[2..]);
      assert ([H(layer[0] + layer[1])] + rest)[..q] == [H(layer[0] + layer[1])] + rest[..q - 1];
      assert ([H(layer[0] + layer[1])] + rest)[q..] == rest[q - 1..];
    } else {
      assert layer[..0] == [] && layer[0..] == layer;
    }
  }

  /** The texts hashed in one pass over a layer. */
  function LayerTexts(layer: seq<string>): set<string> {
    if layer == [] then {}
    else if |layer| == 1 then {layer[0] + layer[0]}
    else {layer[0] + layer[1]} + LayerTexts(layer[2..])
  }

  lemma {:induction false} LayerTextsSplit(layer: seq<string>, q: nat, h: nat)
    requires h == 2 * q && h <= |layer|
    ensures LayerTexts(layer) == LayerTexts(layer[..h]) + LayerTexts(layer[h..])
  {
    if q > 0 {
      LayerTextsSplit(layer[2..], q - 1, h - 2);
      assert layer[..h][2..] == layer[2..][..h - 2];
      assert layer[2..][h - 2..] == layer[h..];
    } else {
      assert layer[..0] == [] && layer[0..] == layer;
    }
  }

  lemma TreeOfSmall<T>(d: nat, up: nat, s: seq<T>)
    requires up == d + 1 && 0 < |s| <= Pow2(d)
    ensures TreeOf(up, s) == Node(TreeOf(d, s), TreeOf(d, s))
  {
  }

  lemma TreeOfLarge<T>(d: nat, up: nat, s: seq<T>, h: nat, l: seq<T>, r: seq<T>)
    requires up == d + 1 && h == Pow2(d) && h < |s| <= 2 * h && l == s[..h] && r == s[h..]
    ensures TreeOf(up, s) == Node(TreeOf(d, l), TreeOf(d, r))
  {
  }

  lemma CollapseNode(H: HashFunction, l: Tree<string>, r: Tree<string>)
    requires l.Node? && r.Node?
    ensures Collapse(H, Node(l, r)) == Node(Collapse(H, l), Collapse(H, r))
    ensures BottomTexts(Node(l, r)) == BottomTexts(l) + BottomTexts(r)
  {
  }

  lemma BottomPass(H: HashFunction, leaves: seq<string>)
    requires 0 < |leaves| <= 2
    ensures TreeOf(1, leaves).Node? && Collapse(H, TreeOf(1, leaves)) == TreeOf(0, NextLayer(H, leaves))
    ensures BottomTexts(TreeOf(1, leaves)) == LayerTexts(leaves)
  {
    if |leaves| == 2 { assert leaves[2..] == []; }
  }

  /** One pass of the loop collapses the bottom of the tree. */
  lemma {:induction false} PassCollapses(H: HashFunction, d: nat, up: nat, leaves: seq<string>, next: seq<string>,
                                         h: nat)
    requires up == d + 1 && h == Pow2(d) && 0 < |leaves| <= 2 * h && next == NextLayer(H, leaves)
    ensures TreeOf(up, leaves).Node? && Collapse(H, TreeOf(up, leaves)) == TreeOf(d, next)
    ensures BottomTexts(TreeOf(up, leaves)) == LayerTexts(leaves)
    decreases d
  {
    if d == 0 {
      BottomPass(H, leaves);
    } else {
      var e := d - 1;
      var q := Pow2(e);
      if |leaves| <= h {
        PassCollapses(H, e, d, leaves, next, q);
        TreeOfSmall(d, up, leaves);
        TreeOfSmall(e, d, next);
        CollapseNode(H, TreeOf(d, leaves), TreeOf(d, leaves));
      } else {
        var l, r, x, y := leaves[..h], leaves[h..], next[..q], next[q..];
        NextLayerSplits(H, leaves, q, h);
        LayerTextsSplit(leaves, q, h);
        PassCollapses(H, e, d, l, x, q);
        PassCollapses(H, e, d, r, y, q);
        TreeOfLarge(d, up, leaves, h, l, r);
        TreeOfLarge(e, d, next, q, x, y);
        CollapseNode(H, TreeOf(d, l), TreeOf(d, r));
      }
    }
  }

  /** The texts hashed on the way to the root. */
  function RootTexts(H: HashFunction, leaves: seq<string>): set<string>
    decreases |leaves|
  {
    if |leaves| <= 1 then {} else LayerTexts(leaves) + RootTexts(H, NextLayer(H, leaves))
  }

  lemma HalfUp(n: nat, half: nat)
    requires n <= 2 * half <= n + 1
    ensures half == (n + 1) / 2
  {
  }

  /** The loop computes the hash of the tree, and hashes exactly its texts. */
  lemma {:induction false} RootIsTreeHash(H: HashFunction, leaves: seq<string>)
    requires leaves != []
    ensures Root(H, leaves) == TreeHash(H, Depth(|leaves|), leaves)
    ensures RootTexts(H, leaves) == TextsOf(H, TreeOf(Depth(|leaves|), leaves))
    decreases |leaves|
  {
    if |leaves| > 1 {
      var next := NextLayer(H, leaves);
      RootIsTreeHash(H, next);
      DeeperByOne(|leaves|, |next|);
      OneLayerMore(H, leaves, next, Depth(|next|), Depth(|leaves|));
    }
  }

  lemma DeeperByOne(n: nat, half: nat)
    requires n > 1 && n <= 2 * half <= n + 1
    ensures Depth(n) == Depth(half) + 1
  {
    HalfUp(n, half);
  }

  lemma OneLayerMore(H: HashFunction, leaves: seq<string>, next: seq<string>, d: nat, up: nat)
    requires up == d + 1 && 1 < |leaves| <= Pow2(up) && 0 < |next| <= Pow2(d) && next == NextLayer(H, leaves)
    requires Root(H, next) == TreeHash(H, d, next) && RootTexts(H, next) == TextsOf(H, TreeOf(d, next))
    ensures Root(H, leaves) == TreeHash(H, up, leaves) && RootTexts(H, leaves) == TextsOf(H, TreeOf(up, leaves))
  {
    PassCollapses(H, d, up, leaves, next, Pow2(d));
    TreeOfIsPerfect(up, leaves);
    CollapseKeepsHash(H, TreeOf(up, leaves), up);
  }

  // ---------- which lists share a root ----------

  ghost predicate AllLength64(leaves: seq<string>) {
    forall i :: 0 <= i < |leaves| ==> |leaves[i]| == 64
  }

  ghost predicate Leaves64(t: Tree<string>) {
    match t
    case Leaf(x) => |x| == 64
    case Node(l, r) => Leaves64(l) && Leaves64(r)
  }

  lemma {:induction false} TreeOfLeaves64(d: nat, leaves: seq<string>)
    requires 0 < |leaves| <= Pow2(d) && AllLength64(leaves)
    ensures Leaves64(TreeOf(d, leaves))
  {
    if d > 0 {
      var h := Pow2(d - 1);
      if |leaves| <= h {
        TreeOfLeaves64(d - 1, leaves);
      } else {
        TreeOfLeaves64(d - 1, leaves[..h]);
        TreeOfLeaves64(d - 1, leaves[h..]);
      }
    }
  }

  lemma SplitDigests(x: string, y: string, x': string, y': string)
    requires |x| == |x'| && x + y == x' + y'
    ensures x == x' && y == y'
  {
    assert x == (x + y)[..|x|] && y == (x + y)[|x|..];
    assert x' == (x' + y')[..|x|] && y' == (x' + y')[|x|..];
  }

  /** Perfect trees of the same depth with the same hash are the same tree. */
  lemma {:induction false} TreeBinds(H: HashFunction, texts: set<string>, d: nat, s: Tree<string>, t: Tree<string>)
    requires GivesDigests(H) && Perfect(s, d) && Perfect(t, d) && Leaves64(s) && Leaves64(t)
    requires InjectiveOn(H, texts) && TextsOf(H, s) <= texts && TextsOf(H, t) <= texts
    requires HashOf(H, s) == HashOf(H, t)
    ensures s == t
  {
    if d > 0 {
      var x, y := HashOf(H, s.left) + HashOf(H, s.right), HashOf(H, t.left) + HashOf(H, t.right);
      assert x in TextsOf(H, s) && y in TextsOf(H, t);
      SplitDigests(HashOf(H, s.left), HashOf(H, s.right), HashOf(H, t.left), HashOf(H, t.right));
      TreeBinds(H, texts, d - 1, s.left, t.left);
      TreeBinds(H, texts, d - 1, s.right, t.right);
    }
  }

  /** Which element the k-th of the 2^d places of the tree over n elements holds. */
  function PadIndex(d: nat, n: nat, k: nat): (i: nat)
    requires 0 < n <= Pow2(d) && k < Pow2(d)
    ensures i < n && (k < n ==> i == k)
  {
    if d == 0 then 0
    else
      var h := Pow2(d - 1);
      if k < h then PadIndex(d - 1, if n <= h then n else h, k)
      else if n <= h then PadIndex(d - 1, n, k - h)
      else h + PadIndex(d - 1, n - h, k - h)
  }

  /** The 2^d elements that the tree over a list really hashes. */
  function Pad<T>(d: nat, s: seq<T>): (p: seq<T>)
    requires 0 < |s| <= Pow2(d)
    ensures |p| == Pow2(d)
  {
    seq(Pow2(d), k requires 0 <= k < Pow2(d) => s[PadIndex(d, |s|, k)])
  }

  function Fringe<T>(t: Tree<T>): seq<T> {
    match t
    case Leaf(x) => [x]
    case Node(l, r) => Fringe(l) + Fringe(r)
  }

  lemma PadSmall<T>(d: nat, up: nat, s: seq<T>, h: nat)
    requires up == d + 1 && h == Pow2(d) && 0 < |s| <= h
    ensures Pad(up, s) == Pad(d, s) + Pad(d, s)
  {
    forall k | 0 <= k < 2 * h ensures Pad(up, s)[k] == (Pad(d, s) + Pad(d, s))[k] {
      assert PadIndex(up, |s|, k) == PadIndex(d, |s|, if k < h then k else k - h);
    }
  }

  lemma {:induction false} PadLarge<T>(d: nat, up: nat, s: seq<T>, h: nat, l: seq<T>, r: seq<T>)
    requires up == d + 1 && h == Pow2(d) && h < |s| <= 2 * h && l == s[..h] && r == s[h..]
    ensures Pad(up, s) == Pad(d, l) + Pad(d, r)
  {
    forall k | 0 <= k < 2 * h ensures Pad(up, s)[k] == (Pad(d, l) + Pad(d, r))[k] {
      PadLargeAt(d, up, s, h, l, r, k);
    }
  }

  lemma {:induction false} PadLargeAt<T>(d: nat, up: nat, s: seq<T>, h: nat, l: seq<T>, r: seq<T>, k: nat)
    requires up == d + 1 && h == Pow2(d) && h < |s| <= 2 * h && l == s[..h] && r == s[h..] && k < 2 * h
    ensures Pad(up, s)[k] == if k < h then Pad(d, l)[k] else Pad(d, r)[k - h]
  {
    IndexLarge(d, up, |s|, h, k);
    if k < h {
      assert Pad(d, l)[k] == l[PadIndex(d, h, k)];
    } else {
      assert Pad(d, r)[k - h] == r[PadIndex(d, |r|, k - h)];
    }
  }

  lemma IndexLarge(d: nat, up: nat, n: nat, h: nat, k: nat)
    requires up == d + 1 && h == Pow2(d) && h < n <= 2 * h && k < 2 * h
    ensures PadIndex(up, n, k) == if k < h then PadIndex(d, h, k) else h + PadIndex(d, n - h, k - h)
  {
  }

  lemma {:induction false} PadIsFringe<T>(d: nat, s: seq<T>)
    requires 0 < |s| <= Pow2(d)
    ensures Fringe(TreeOf(d, s)) == Pad(d, s)
  {
    if d > 0 {
      var e := d - 1;
      var h := Pow2(e);
      if |s| <= h {
        PadIsFringe(e, s);
        PadSmall(e, d, s, h);
        TreeOfSmall(e, d, s);
      } else {
        var l, r := s[..h], s[h..];
        PadIsFringe(e, l);
        PadIsFringe(e, r);
        PadLarge(e, d, s, h, l, r);
        TreeOfLarge(e, d, s, h, l, r);
      }
    }
  }

  lemma {:induction false} FringeLength<T>(t: Tree<T>, d: nat)
    requires Perfect(t, d)
    ensures |Fringe(t)| == Pow2(d)
  {
    if d > 0 {
      FringeLength(t.left, d - 1);
      FringeLength(t.right, d - 1);
    }
  }

  lemma {:induction false} FringeDetermines<T>(d: nat, s: Tree<T>, t: Tree<T>)
    requires Perfect(s, d) && Perfect(t, d) && Fringe(s) == Fringe(t)
    ensures s == t
  {
    if d > 0 {
      FringeLength(s.left, d - 1);
      FringeLength(t.left, d - 1);
      assert Fringe(s.left) == Fringe(s)[..Pow2(d - 1)] && Fringe(s.right) == Fringe(s)[Pow2(d - 1)..];
      assert Fringe(t.left) == Fringe(t)[..Pow2(d - 1)] && Fringe(t.right) == Fringe(t)[Pow2(d - 1)..];
      FringeDetermines(d - 1, s.left, t.left);
      FringeDetermines(d - 1, s.right, t.right);
    }
  }

  /** Two lists give the same tree of depth d exactly when they pad to the same elements. */
  lemma SameTreeIff<T>(d: nat, a: seq<T>, b: seq<T>)
    requires 0 < |a| <= Pow2(d) && 0 < |b| <= Pow2(d)
    ensures TreeOf(d, a) == TreeOf(d, b) <==> Pad(d, a) == Pad(d, b)
  {
    PadIsFringe(d, a);
    PadIsFringe(d, b);
    TreeOfIsPerfect(d, a);
    TreeOfIsPerfect(d, b);
    if Pad(d, a) == Pad(d, b) { FringeDetermines(d, TreeOf(d, a), TreeOf(d, b)); }
  }

  /** Exactly which lists of the same depth share a root: those that pad to the same leaves. */
  lemma RootsEqualIff(H: HashFunction, a: seq<string>, b: seq<string>)
    requires GivesDigests(H) && a != [] && b != [] && AllLength64(a) && AllLength64(b) && Depth(|a|) == Depth(|b|)
    requires InjectiveOn(H, RootTexts(H, a) + RootTexts(H, b))
    ensures Root(H, a) == Root(H, b) <==> Pad(Depth(|a|), a) == Pad(Depth(|b|), b)
  {
    var d := Depth(|a|);
    RootIsTreeHash(H, a);
    RootIsTreeHash(H, b);
    SameTreeIff(d, a, b);
    TreeOfIsPerfect(d, a);
    TreeOfIsPerfect(d, b);
    TreeOfLeaves64(d, a);
    TreeOfLeaves64(d, b);
    if Root(H, a) == Root(H, b) { TreeBinds(H, RootTexts(H, a) + RootTexts(H, b), d, TreeOf(d, a), TreeOf(d, b)); }
  }

  /** For leaf lists of equal length, equal roots mean equal leaves at every position, if the hash does not collide
      on the texts hashed for the two roots. */
  lemma RootBinds(H: HashFunction, a: seq<string>, b: seq<string>)
    requires GivesDigests(H) && |a| == |b| && AllLength64(a) && AllLength64(b)
    requires InjectiveOn(H, RootTexts(H, a) + RootTexts(H, b)) && Root(H, a) == Root(H, b)
    ensures a == b
  {
    if a != [] {
      RootsEqualIff(H, a, b);
      var d := Depth(|a|);
      forall k | 0 <= k < |a| ensures a[k] == b[k] {
        assert Pad(d, a)[k] == Pad(d, b)[k];
      }
    }
  }

  /** n is an odd number, larger than one, of groups of 2^j. */
  predicate OddGroups(j: nat, n: nat) {
    if j == 0 then n % 2 == 1 && n > 1 else n % 2 == 0 && OddGroups(j - 1, n / 2)
  }

  lemma {:induction false} MoreThanOneGroup(j: nat, n: nat)
    requires OddGroups(j, n)
    ensures n > Pow2(j)
  {
    if j > 0 { MoreThanOneGroup(j - 1, n / 2); }
  }

  /** A whole family that shares its roots: repeating the last 2^j leaves of a list of an odd number of such groups. */
  lemma {:induction false} RepeatedTail(H: HashFunction, leaves: seq<string>, longer: seq<string>, j: nat, p: nat)
    requires p == Pow2(j) < |leaves| && OddGroups(j, |leaves|) && longer == leaves + leaves[|leaves| - p..]
    ensures Root(H, longer) == Root(H, leaves)
    decreases j
  {
    if j == 0 {
      LastLeafTwice(H, leaves, longer);
    } else {
      var half, q := HalfOfGroups(j, |leaves|, p);
      var next := NextLayer(H, leaves);
      TailLayers(H, leaves, longer, |leaves|, half, p, q, next);
      RepeatedTail(H, next, next + next[half - q..], j - 1, q);
    }
  }

  lemma HalfOfGroups(j: nat, n: nat, p: nat) returns (half: nat, q: nat)
    requires j > 0 && p == Pow2(j) && OddGroups(j, n)
    ensures n == 2 * half && p == 2 * q && q == Pow2(j - 1) && OddGroups(j - 1, half) && 0 < q < half
  {
    half, q := n / 2, Pow2(j - 1);
    MoreThanOneGroup(j - 1, half);
  }

  lemma LastLeafTwice(H: HashFunction, leaves: seq<string>, longer: seq<string>)
    requires |leaves| % 2 == 1 && |leaves| > 1 && longer == leaves + leaves[|leaves| - 1..]
    ensures Root(H, longer) == Root(H, leaves)
  {
    assert longer == leaves + [leaves[|leaves| - 1]];
    SameNextLayer(H, leaves);
  }

  lemma TailLayers(H: HashFunction, leaves: seq<string>, longer: seq<string>, n: nat, half: nat, p: nat, q: nat,
                   next: seq<string>)
    requires |leaves| == n == 2 * half && p == 2 * q && 0 < q <= half && longer == leaves + leaves[n - p..]
    requires next == NextLayer(H, leaves)
    ensures |next| == half && Root(H, longer) == Root(H, next + next[half - q..]) && Root(H, leaves) == Root(H, next)
  {
    NextLayerSplits(H, longer, half, n);
    NextLayerSplits(H, leaves, half - q, n - p);
    assert longer[..n] == leaves && longer[n..] == leaves[n - p..];
    assert NextLayer(H, longer) == NextLayer(H, longer)[..half] + NextLayer(H, longer)[half..];
    assert NextLayer(H, longer) == next + next[half - q..];
  }

  lemma {:induction false} SameNextLayer(H: HashFunction, layer: seq<string>)
    requires |layer| % 2 == 1
    ensures NextLayer(H, layer + [layer[|layer| - 1]]) == NextLayer(H, layer)
  {
    var longer := layer + [layer[|layer| - 1]];
    if |layer| > 1 {
      SameNextLayer(H, layer[2..]);
      assert longer[2..] == layer[2..] + [layer[2..][|layer[2..]| - 1]];
    }
  }
}
