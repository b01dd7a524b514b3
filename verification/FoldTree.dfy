/**
 * cairo/doom_contracts/tools/doomruns_model.py: the variable-length felt code and the layered
 * fold tree behind `root_output_hash`.
 *
 * Blake2s is a parameter, taken to be injective with eight-word results; its words are numbers.
 */
module FoldTree {
  import opened Wrappers

  const WORD: nat := 0x1_0000_0000
  const SMALL: nat := 0x8000_0000_0000_0000
  const FLAG: nat := 0x8000_0000
  /** The Starknet prime, 2^251 + 17 * 2^192 + 1. */
  const PRIME: nat := 0x800000000000011_00000000_00000000_00000000_00000000_00000000_00000001
  const HASH_WORDS := 8

  // ----- the felt code -------------------------------------------------------------------------

  /** The `n` low limbs of `x`, most significant first. */
  function Limbs(x: nat, n: nat): (ws: seq<nat>)
    ensures |ws| == n && forall i :: 0 <= i < n ==> ws[i] < WORD
  {
    if n == 0 then [] else Limbs(x / WORD, n - 1) + [x % WORD]
  }

  /** The number those limbs spell. */
  function Value(ws: seq<nat>): nat {
    if ws == [] then 0 else Value(ws[..|ws| - 1]) * WORD + ws[|ws| - 1]
  }

  /** `encode_felt`: two words, or eight with the top bit of the first set. */
  function EncodeFelt(x: nat): (ws: seq<nat>)
    ensures |ws| == if x < SMALL then 2 else 8
  {
    if x < SMALL then Limbs(x, 2)
    else
      var ws := Limbs(x, 8);
      [ws[0] + FLAG] + ws[1..]
  }

  function EncodeFelts(felts: seq<nat>): seq<nat> {
    if felts == [] then [] else EncodeFelt(felts[0]) + EncodeFelts(felts[1..])
  }

  /** Reads felts back until the words run out; `None` on a truncated one. */
  function DecodeFelts(words: seq<nat>): Option<seq<nat>>
    decreases |words|
  {
    if words == [] then Some([])
    else
      var n := if words[0] < FLAG then 2 else 8;
      if |words| < n then None
      else
        var head := if n == 2 then words[..2] else [words[0] - FLAG] + words[1..8];
        match DecodeFelts(words[n..])
        case None => None
        case Some(rest) => Some([Value(head)] + rest)
  }

  function Pow(n: nat): nat {
    if n == 0 then 1 else WORD * Pow(n - 1)
  }

  lemma {:induction false} ValueOfLimbs(x: nat, n: nat)
    requires x < Pow(n)
    ensures Value(Limbs(x, n)) == x
  {
    if n > 0 {
      assert x / WORD < Pow(n - 1);
      ValueOfLimbs(x / WORD, n - 1);
      var ws := Limbs(x, n);
      assert ws[..n - 1] == Limbs(x / WORD, n - 1) && ws[n - 1] == x % WORD;
    }
  }

  lemma CodeOfFelt(x: nat, rest: seq<nat>)
    requires x < Pow(8)
    ensures var ws := EncodeFelt(x) + rest;
            DecodeFelts(ws) == match DecodeFelts(rest) case None => None case Some(xs) => Some([x] + xs)
  {
    var code := EncodeFelt(x);
    var ws := code + rest;
    assert ws[|code|..] == rest;
    if x < SMALL {
      assert Limbs(x, 2) == (Limbs(x / WORD / WORD, 0) + [x / WORD % WORD]) + [x % WORD];
      assert Pow(2) == WORD * Pow(1) && Pow(1) == WORD * Pow(0);
      ValueOfLimbs(x, 2);
      assert ws[..2] == code && ws[0] == x / WORD < FLAG;
    } else {
      var limbs := Limbs(x, 8);
      ValueOfLimbs(x, 8);
      assert [ws[0] - FLAG] + ws[1..8] == limbs;
    }
  }

  /** The code is uniquely decodable: the words determine the felts, however many there are. */
  lemma {:induction false} DecodeEncode(felts: seq<nat>)
    requires forall i :: 0 <= i < |felts| ==> felts[i] < PRIME
    ensures DecodeFelts(EncodeFelts(felts)) == Some(felts)
  {
    if felts != [] {
      hide EncodeFelt, DecodeFelts, Limbs;
      PrimeBelow();
      DecodeEncode(felts[1..]);
      CodeOfFelt(felts[0], EncodeFelts(felts[1..]));
      assert [felts[0]] + felts[1..] == felts;
    }
  }

  lemma PrimeBelow()
    ensures PRIME < Pow(8)
  {
    assert Pow(8) == WORD * Pow(7) && Pow(7) == WORD * Pow(6) && Pow(6) == WORD * Pow(5) && Pow(5) == WORD * Pow(4);
    assert Pow(4) == WORD * Pow(3) && Pow(3) == WORD * Pow(2) && Pow(2) == WORD * Pow(1) && Pow(1) == WORD;
  }

  /** The loop of `encode_felts`. */
  method EncodeAll(felts: seq<nat>) returns (out: seq<nat>)
    ensures out == EncodeFelts(felts)
  {
    hide EncodeFelt;
    out := [];
    for i := 0 to |felts|
      invariant out + EncodeFelts(felts[i..]) == EncodeFelts(felts)
    {
      assert felts[i..][1..] == felts[i + 1..];
      out := out + EncodeFelt(felts[i]);
    }
  }

  predicate Canonical(felts: seq<nat>) {
    forall i :: 0 <= i < |felts| ==> felts[i] < PRIME
  }

  lemma EncodeInjective(a: seq<nat>, b: seq<nat>)
    requires Canonical(a) && Canonical(b) && EncodeFelts(a) == EncodeFelts(b)
    ensures a == b
  {
    DecodeEncode(a);
    DecodeEncode(b);
  }

  // ----- the fold ------------------------------------------------------------------------------

  type Hash = seq<nat> -> seq<nat>

  ghost predicate GoodHash(hash: Hash) {
    && (forall ws :: |hash(ws)| == HASH_WORDS)
    && (forall u, v :: hash(u) == hash(v) ==> u == v)
  }

  /** A node: the circuit that proves it, and its output. */
  datatype Node = Node(circuit: seq<nat>, output: seq<nat>)

  function LeafNode(hash: Hash, leafHash: seq<nat>, preimage: seq<nat>): Node {
    Node(leafHash, hash(EncodeFelts(preimage)))
  }

  function FoldPair(hash: Hash, left: Node, right: Node, mv: seq<nat>): Node {
    Node(mv, hash(left.circuit + left.output + right.circuit + right.output))
  }

  /** One layer: neighbours folded two by two, an odd last node carried over. */
  function FoldLayer(hash: Hash, layer: seq<Node>, mv: seq<nat>): (next: seq<Node>)
    ensures |next| == (|layer| + 1) / 2
    decreases |layer|
  {
    if |layer| <= 1 then layer
    else [FoldPair(hash, layer[0], layer[1], mv)] + FoldLayer(hash, layer[2..], mv)
  }

  function FoldUp(hash: Hash, layer: seq<Node>, mv: seq<nat>): Node
    requires layer != []
    decreases |layer|
  {
    if |layer| == 1 then layer[0] else FoldUp(hash, FoldLayer(hash, layer, mv), mv)
  }

  /** `fold_tree`: a single leaf is folded with itself. */
  function FoldTree(hash: Hash, leaves: seq<Node>, mv: seq<nat>): Node
    requires leaves != []
  {
    if |leaves| == 1 then FoldPair(hash, leaves[0], leaves[0], mv) else FoldUp(hash, leaves, mv)
  }

  function LeafNodes(hash: Hash, leafHash: seq<nat>, preimages: seq<seq<nat>>): (nodes: seq<Node>)
    ensures |nodes| == |preimages|
  {
    seq(|preimages|, i requires 0 <= i < |preimages| => LeafNode(hash, leafHash, preimages[i]))
  }

  function RootOutputHash(hash: Hash, preimages: seq<seq<nat>>, leafHash: seq<nat>, mv: seq<nat>): seq<nat>
    requires preimages != []
  {
    var root := FoldTree(hash, LeafNodes(hash, leafHash, preimages), mv);
    hash(root.circuit + root.output)
  }

  /** The loops of `fold_tree`. */
  method ComputeFoldTree(hash: Hash, leaves: seq<Node>, mv: seq<nat>) returns (root: Node)
    requires leaves != []
    ensures root == FoldTree(hash, leaves, mv)
  {
    if |leaves| == 1 {
      return FoldPair(hash, leaves[0], leaves[0], mv);
    }
    var layer := leaves;
    while |layer| > 1
      invariant layer != [] && FoldUp(hash, layer, mv) == FoldUp(hash, leaves, mv)
      decreases |layer|
    {
      layer := ComputeLayer(hash, layer, mv);
    }
    root := layer[0];
  }

  method ComputeLayer(hash: Hash, layer: seq<Node>, mv: seq<nat>) returns (next: seq<Node>)
    ensures next == FoldLayer(hash, layer, mv)
  {
    hide FoldPair, FoldLayer;
    next := [];
    var i := 0;
    assert layer[0..] == layer;
    while i < |layer| - 1
      invariant 0 <= i <= |layer| && i == 2 * |next|
      invariant next + FoldLayer(hash, layer[i..], mv) == FoldLayer(hash, layer, mv)
    {
      ghost var rest := layer[i..];
      assert rest[2..] == layer[i + 2..];
      LayerStep(hash, rest, mv);
      next := next + [FoldPair(hash, layer[i], layer[i + 1], mv)];
      i := i + 2;
    }
    LayerStep(hash, layer[i..], mv);
    if |layer| % 2 == 1 {
      assert layer[i..] == [layer[|layer| - 1]];
      next := next + [layer[|layer| - 1]];
    } else {
      assert layer[i..] == [];
    }
  }

  lemma LayerStep(hash: Hash, layer: seq<Node>, mv: seq<nat>)
    ensures FoldLayer(hash, layer, mv) ==
            if |layer| <= 1 then layer
            else [FoldPair(hash, layer[0], layer[1], mv)] + FoldLayer(hash, layer[2..], mv)
  {
  }

  // ----- equal lengths -------------------------------------------------------------------------

  /** Both halves of a node have eight words, so four of them laid end to end can be cut apart. */
  predicate Wide(n: Node) {
    |n.circuit| == HASH_WORDS && |n.output| == HASH_WORDS
  }

  predicate AllWide(layer: seq<Node>) {
    forall i :: 0 <= i < |layer| ==> Wide(layer[i])
  }

  lemma NodeWords(a: Node, b: Node)
    requires Wide(a) && Wide(b) && a.circuit + a.output == b.circuit + b.output
    ensures a == b
  {
    assert (a.circuit + a.output)[..8] == a.circuit && (a.circuit + a.output)[8..] == a.output;
    assert (b.circuit + b.output)[..8] == b.circuit && (b.circuit + b.output)[8..] == b.output;
  }

  /** Two folds with the same output have the same children. */
  lemma FoldPairInjective(hash: Hash, l1: Node, r1: Node, l2: Node, r2: Node, mv: seq<nat>)
    requires GoodHash(hash) && Wide(l1) && Wide(r1) && Wide(l2) && Wide(r2)
    requires FoldPair(hash, l1, r1, mv).output == FoldPair(hash, l2, r2, mv).output
    ensures l1 == l2 && r1 == r2
  {
    var u := l1.circuit + l1.output + r1.circuit + r1.output;
    var v := l2.circuit + l2.output + r2.circuit + r2.output;
    assert u == v;
    assert u[..16] == l1.circuit + l1.output && u[16..] == r1.circuit + r1.output;
    assert v[..16] == l2.circuit + l2.output && v[16..] == r2.circuit + r2.output;
    NodeWords(l1, l2);
    NodeWords(r1, r2);
  }

  lemma {:induction false} LayerInjective(hash: Hash, a: seq<Node>, b: seq<Node>, mv: seq<nat>)
    requires GoodHash(hash) && |mv| == HASH_WORDS && AllWide(a) && AllWide(b) && |a| == |b|
    ensures AllWide(FoldLayer(hash, a, mv))
    ensures FoldLayer(hash, a, mv) == FoldLayer(hash, b, mv) ==> a == b
    decreases |a|
  {
    if |a| > 1 {
      LayerInjective(hash, a[2..], b[2..], mv);
      var fa, fb := FoldLayer(hash, a, mv), FoldLayer(hash, b, mv);
      if fa == fb {
        assert fa[0] == fb[0] && fa[1..] == FoldLayer(hash, a[2..], mv) && fb[1..] == FoldLayer(hash, b[2..], mv);
        FoldPairInjective(hash, a[0], a[1], b[0], b[1], mv);
        assert a == [a[0], a[1]] + a[2..] && b == [b[0], b[1]] + b[2..];
      }
    }
  }

  lemma {:induction false} FoldUpInjective(hash: Hash, a: seq<Node>, b: seq<Node>, mv: seq<nat>)
    requires GoodHash(hash) && |mv| == HASH_WORDS && AllWide(a) && AllWide(b) && |a| == |b| && a != []
    ensures Wide(FoldUp(hash, a, mv))
    ensures FoldUp(hash, a, mv) == FoldUp(hash, b, mv) ==> a == b
    decreases |a|
  {
    hide GoodHash;
    if |a| > 1 {
      LayerInjective(hash, a, b, mv);
      LayerInjective(hash, b, a, mv);
      FoldUpInjective(hash, FoldLayer(hash, a, mv), FoldLayer(hash, b, mv), mv);
    }
  }

  lemma LeavesWide(hash: Hash, leafHash: seq<nat>, preimages: seq<seq<nat>>)
    requires GoodHash(hash) && |leafHash| == HASH_WORDS
    ensures AllWide(LeafNodes(hash, leafHash, preimages))
  {
  }

  lemma LeavesInjective(hash: Hash, leafHash: seq<nat>, a: seq<seq<nat>>, b: seq<seq<nat>>)
    requires GoodHash(hash) && (forall p :: p in a ==> Canonical(p)) && (forall p :: p in b ==> Canonical(p))
    requires LeafNodes(hash, leafHash, a) == LeafNodes(hash, leafHash, b)
    ensures a == b
  {
    hide Canonical;
    assert |a| == |LeafNodes(hash, leafHash, a)| == |b|;
    forall i | 0 <= i < |a| ensures a[i] == b[i] {
      assert LeafNodes(hash, leafHash, a)[i] == LeafNodes(hash, leafHash, b)[i];
      assert hash(EncodeFelts(a[i])) == hash(EncodeFelts(b[i]));
      assert a[i] in a && b[i] in b;
      EncodeInjective(a[i], b[i]);
    }
  }

  /** Two batches of as many segments with the same root output hash are the same batch. */
  lemma RootBindsPreimages(hash: Hash, a: seq<seq<nat>>, b: seq<seq<nat>>, leafHash: seq<nat>, mv: seq<nat>)
    requires GoodHash(hash) && |leafHash| == HASH_WORDS && |mv| == HASH_WORDS
    requires (forall p :: p in a ==> Canonical(p)) && (forall p :: p in b ==> Canonical(p))
    requires |a| == |b| && a != []
    requires RootOutputHash(hash, a, leafHash, mv) == RootOutputHash(hash, b, leafHash, mv)
    ensures a == b
  {
    hide FoldUp, Canonical, LeafNodes;
    var la, lb := LeafNodes(hash, leafHash, a), LeafNodes(hash, leafHash, b);
    var ra, rb := FoldTree(hash, la, mv), FoldTree(hash, lb, mv);
    LeavesWide(hash, leafHash, a);
    LeavesWide(hash, leafHash, b);
    FoldUpInjective(hash, la, lb, mv);
    FoldUpInjective(hash, lb, la, mv);
    assert ra.circuit + ra.output == rb.circuit + rb.output;
    NodeWords(ra, rb);
    if |a| == 1 {
      FoldPairInjective(hash, la[0], la[0], lb[0], lb[0], mv);
      assert la == [la[0]] && lb == [lb[0]];
    }
    LeavesInjective(hash, leafHash, a, b);
  }

  // ----- any lengths ---------------------------------------------------------------------------

  /** What was folded: a binary tree over the leaves. */
  datatype Tree = Tip(node: Node) | Fork(left: Tree, right: Tree)

  function Eval(hash: Hash, t: Tree, mv: seq<nat>): Node {
    match t
    case Tip(n) => n
    case Fork(l, r) => FoldPair(hash, Eval(hash, l, mv), Eval(hash, r, mv), mv)
  }

  function Tips(t: Tree): seq<Node> {
    match t
    case Tip(n) => [n]
    case Fork(l, r) => Tips(l) + Tips(r)
  }

  /** The layers again, keeping the trees. */
  function TreeLayer(layer: seq<Tree>): (next: seq<Tree>)
    ensures |next| == (|layer| + 1) / 2
    decreases |layer|
  {
    if |layer| <= 1 then layer else [Fork(layer[0], layer[1])] + TreeLayer(layer[2..])
  }

  function TreeUp(layer: seq<Tree>): Tree
    requires layer != []
    decreases |layer|
  {
    if |layer| == 1 then layer[0] else TreeUp(TreeLayer(layer))
  }

  function Evals(hash: Hash, layer: seq<Tree>, mv: seq<nat>): (r: seq<Node>)
    ensures |r| == |layer|
  {
    seq(|layer|, i requires 0 <= i < |layer| => Eval(hash, layer[i], mv))
  }

  function AllTips(layer: seq<Tree>): seq<Node> {
    if layer == [] then [] else Tips(layer[0]) + AllTips(layer[1..])
  }

  lemma {:induction false} TreeLayerIs(hash: Hash, layer: seq<Tree>, mv: seq<nat>)
    ensures Evals(hash, TreeLayer(layer), mv) == FoldLayer(hash, Evals(hash, layer, mv), mv)
    ensures AllTips(TreeLayer(layer)) == AllTips(layer)
    decreases |layer|
  {
    hide FoldPair;
    if |layer| > 1 {
      TreeLayerIs(hash, layer[2..], mv);
      assert Evals(hash, layer, mv)[2..] == Evals(hash, layer[2..], mv);
      assert Evals(hash, TreeLayer(layer), mv)
             == [Eval(hash, Fork(layer[0], layer[1]), mv)] + Evals(hash, TreeLayer(layer[2..]), mv);
      assert layer[1..][0] == layer[1] && layer[1..][1..] == layer[2..];
      assert AllTips(layer) == Tips(layer[0]) + (Tips(layer[1]) + AllTips(layer[2..]));
      assert TreeLayer(layer)[1..] == TreeLayer(layer[2..]);
    }
  }

  /** The layered fold is the value of a tree whose tips, left to right, are the leaves. */
  lemma {:induction false} TreeUpIs(hash: Hash, layer: seq<Tree>, mv: seq<nat>)
    requires layer != []
    ensures Eval(hash, TreeUp(layer), mv) == FoldUp(hash, Evals(hash, layer, mv), mv)
    ensures Tips(TreeUp(layer)) == AllTips(layer)
    decreases |layer|
  {
    if |layer| == 1 {
      assert layer[1..] == [];
    } else {
      TreeLayerIs(hash, layer, mv);
      TreeUpIs(hash, TreeLayer(layer), mv);
    }
  }

  function TipTrees(leaves: seq<Node>): (layer: seq<Tree>)
    ensures |layer| == |leaves|
  {
    seq(|leaves|, i requires 0 <= i < |leaves| => Tip(leaves[i]))
  }

  lemma {:induction false} TipTreesTips(leaves: seq<Node>)
    ensures AllTips(TipTrees(leaves)) == leaves
  {
    if leaves != [] {
      assert TipTrees(leaves)[1..] == TipTrees(leaves[1..]);
      TipTreesTips(leaves[1..]);
    } else {
      assert TipTrees(leaves) == [];
    }
  }

  /** The leaves as the root sees them: one alone counts twice. */
  function Frontier<T>(leaves: seq<T>): seq<T> {
    if |leaves| == 1 then leaves + leaves else leaves
  }

  function TreeOf(leaves: seq<Node>): Tree
    requires leaves != []
  {
    if |leaves| == 1 then Fork(Tip(leaves[0]), Tip(leaves[0])) else TreeUp(TipTrees(leaves))
  }

  lemma TreeOfIs(hash: Hash, leaves: seq<Node>, mv: seq<nat>)
    requires leaves != []
    ensures Eval(hash, TreeOf(leaves), mv) == FoldTree(hash, leaves, mv)
    ensures Tips(TreeOf(leaves)) == Frontier(leaves)
  {
    TreeUpIs(hash, TipTrees(leaves), mv);
    TipTreesTips(leaves);
    assert Evals(hash, TipTrees(leaves), mv) == leaves;
  }

  /** Tips carry the leaf circuit, eight words of it and eight of output. */
  predicate TipsOk(t: Tree, leafHash: seq<nat>) {
    match t
    case Tip(n) => n.circuit == leafHash && Wide(n)
    case Fork(l, r) => TipsOk(l, leafHash) && TipsOk(r, leafHash)
  }

  lemma {:induction false} TipsAreOk(t: Tree, leafHash: seq<nat>)
    requires forall n :: n in Tips(t) ==> n.circuit == leafHash && Wide(n)
    ensures TipsOk(t, leafHash)
  {
    match t
    case Tip(n) => assert n in Tips(t);
    case Fork(l, r) =>
      assert forall n :: n in Tips(l) ==> n in Tips(t);
      assert forall n :: n in Tips(r) ==> n in Tips(t);
      TipsAreOk(l, leafHash);
      TipsAreOk(r, leafHash);
  }

  /** A leaf and a fold differ in their circuit, so a node determines the whole tree under it. */
  lemma {:induction false} EvalInjective(hash: Hash, a: Tree, b: Tree, leafHash: seq<nat>, mv: seq<nat>)
    requires GoodHash(hash) && |mv| == HASH_WORDS && leafHash != mv && TipsOk(a, leafHash) && TipsOk(b, leafHash)
    ensures Wide(Eval(hash, a, mv))
    ensures Eval(hash, a, mv) == Eval(hash, b, mv) ==> a == b
    decreases a
  {
    match (a, b)
    case (Fork(al, ar), Fork(bl, br)) =>
      EvalInjective(hash, al, bl, leafHash, mv);
      EvalInjective(hash, ar, br, leafHash, mv);
      EvalWide(hash, bl, leafHash, mv);
      EvalWide(hash, br, leafHash, mv);
      if Eval(hash, a, mv) == Eval(hash, b, mv) {
        FoldPairInjective(hash, Eval(hash, al, mv), Eval(hash, ar, mv), Eval(hash, bl, mv), Eval(hash, br, mv), mv);
      }
    case _ => EvalWide(hash, a, leafHash, mv);
  }

  lemma EvalWide(hash: Hash, t: Tree, leafHash: seq<nat>, mv: seq<nat>)
    requires GoodHash(hash) && |mv| == HASH_WORDS && TipsOk(t, leafHash)
    ensures Wide(Eval(hash, t, mv))
  {
  }

  /**
   * For batches of any sizes, when leaves and folds are proved by different circuits: two
   * batches have the same root output hash exactly when they are the same batch, up to a single
   * segment and that segment twice.
   */
  lemma RootBindsExactly(hash: Hash, a: seq<seq<nat>>, b: seq<seq<nat>>, leafHash: seq<nat>, mv: seq<nat>)
    requires GoodHash(hash) && |leafHash| == HASH_WORDS && |mv| == HASH_WORDS && leafHash != mv
    requires (forall p :: p in a ==> Canonical(p)) && (forall p :: p in b ==> Canonical(p))
    requires a != [] && b != []
    ensures RootOutputHash(hash, a, leafHash, mv) == RootOutputHash(hash, b, leafHash, mv)
            <==> Frontier(a) == Frontier(b)
  {
    hide FoldUp, FoldTree, TreeOf, Canonical, LeafNodes;
    var la, lb := LeafNodes(hash, leafHash, a), LeafNodes(hash, leafHash, b);
    TreeOfIs(hash, la, mv);
    TreeOfIs(hash, lb, mv);
    LeafFrontier(hash, leafHash, a);
    LeafFrontier(hash, leafHash, b);
    if Frontier(a) == Frontier(b) {
      SameFrontierSameTree(la, lb);
    }
    if RootOutputHash(hash, a, leafHash, mv) == RootOutputHash(hash, b, leafHash, mv) {
      var ra, rb := FoldTree(hash, la, mv), FoldTree(hash, lb, mv);
      FrontierOk(hash, leafHash, a);
      FrontierOk(hash, leafHash, b);
      EvalInjective(hash, TreeOf(la), TreeOf(lb), leafHash, mv);
      EvalInjective(hash, TreeOf(lb), TreeOf(la), leafHash, mv);
      assert ra.circuit + ra.output == rb.circuit + rb.output;
      NodeWords(ra, rb);
      assert LeafNodes(hash, leafHash, Frontier(a)) == LeafNodes(hash, leafHash, Frontier(b));
      LeavesInjective(hash, leafHash, Frontier(a), Frontier(b));
    }
  }

  lemma LeafFrontier(hash: Hash, leafHash: seq<nat>, a: seq<seq<nat>>)
    requires a != []
    ensures Frontier(LeafNodes(hash, leafHash, a)) == LeafNodes(hash, leafHash, Frontier(a))
    ensures forall p :: p in Frontier(a) ==> p in a
  {
    hide LeafNode;
  }

  lemma FrontierOk(hash: Hash, leafHash: seq<nat>, a: seq<seq<nat>>)
    requires GoodHash(hash) && |leafHash| == HASH_WORDS && a != []
    ensures TipsOk(TreeOf(LeafNodes(hash, leafHash, a)), leafHash)
  {
    hide TreeOf;
    var leaves := LeafNodes(hash, leafHash, a);
    TreeOfIs(hash, leaves, leafHash);
    TipsAreOk(TreeOf(leaves), leafHash);
  }

  /** The frontier determines the tree. */
  lemma SameFrontierSameTree(a: seq<Node>, b: seq<Node>)
    requires a != [] && b != [] && Frontier(a) == Frontier(b)
    ensures TreeOf(a) == TreeOf(b)
  {
    if |a| == 1 && |b| != 1 {
      PairTree(b, a[0]);
    } else if |b| == 1 && |a| != 1 {
      PairTree(a, b[0]);
    } else if |a| == 1 {
      assert a[0] == Frontier(a)[0] == Frontier(b)[0] == b[0];
    }
  }

  lemma PairTree(b: seq<Node>, x: Node)
    requires b == [x] + [x]
    ensures TreeOf(b) == Fork(Tip(x), Tip(x))
  {
    var layer := TipTrees(b);
    assert layer[2..] == [] && TreeLayer([]) == [];
    var next := TreeLayer(layer);
    assert next == [Fork(layer[0], layer[1])] + TreeLayer(layer[2..]);
    assert next == [Fork(Tip(x), Tip(x))];
    assert TreeUp(next) == next[0] && TreeUp(layer) == TreeUp(next);
  }

  /** The one collision: a batch of one segment and the batch of that segment twice. */
  lemma SingleIsDouble(hash: Hash, p: seq<nat>, leafHash: seq<nat>, mv: seq<nat>)
    ensures RootOutputHash(hash, [p], leafHash, mv) == RootOutputHash(hash, [p, p], leafHash, mv)
  {
    var one, two := LeafNodes(hash, leafHash, [p]), LeafNodes(hash, leafHash, [p, p]);
    assert Frontier(one) == Frontier(two);
    TreeOfIs(hash, one, mv);
    TreeOfIs(hash, two, mv);
    SameFrontierSameTree(one, two);
  }

  // ----- the tree, told from the top -----------------------------------------------------------

  predicate PowerOfTwo(k: nat) {
    k == 1 || (k >= 2 && k % 2 == 0 && PowerOfTwo(k / 2))
  }

  /** The largest power of two below `n`. */
  function SplitAt(n: nat): (k: nat)
    requires n >= 2
    ensures PowerOfTwo(k) && k < n <= 2 * k
  {
    if n == 2 then 1 else 2 * SplitAt((n + 1) / 2)
  }

  /**
   * Circuit and output of the subtree over some preimages, as the words hashed above it: a leaf is
   * the leaf circuit and the hash of its felts; anything larger is the fold circuit and the hash of
   * its two parts, the left one a full tree over the largest power of two of leaves.
   */
  function Words(hash: Hash, preimages: seq<seq<nat>>, leafHash: seq<nat>, mv: seq<nat>): seq<nat>
    requires preimages != []
    decreases |preimages|
  {
    if |preimages| == 1 then leafHash + hash(EncodeFelts(preimages[0]))
    else
      var k := SplitAt(|preimages|);
      mv + hash(Words(hash, preimages[..k], leafHash, mv) + Words(hash, preimages[k..], leafHash, mv))
  }

  lemma {:induction false} LayerSplits(hash: Hash, layer: seq<Node>, mv: seq<nat>, k: nat)
    requires 2 * k <= |layer|
    ensures FoldLayer(hash, layer[..2 * k], mv) == FoldLayer(hash, layer, mv)[..k]
    ensures FoldLayer(hash, layer[2 * k..], mv) == FoldLayer(hash, layer, mv)[k..]
    decreases k
  {
    hide FoldPair;
    if k == 0 {
      assert layer[0..] == layer && layer[..0] == [];
    } else if |layer| >= 2 {
      var rest := layer[2..];
      LayerSplits(hash, rest, mv, k - 1);
      assert layer[..2 * k][2..] == rest[..2 * (k - 1)] && layer[2 * k..] == rest[2 * (k - 1)..];
    }
  }

  /** One layer up, or already at the top. */
  lemma FoldUpStep(hash: Hash, layer: seq<Node>, mv: seq<nat>)
    requires layer != []
    ensures FoldUp(hash, FoldLayer(hash, layer, mv), mv) == FoldUp(hash, layer, mv)
  {
    hide FoldPair;
  }

  /** Folding layer by layer is folding the two parts and then the pair. */
  lemma {:induction false} FoldUpSplits(hash: Hash, layer: seq<Node>, mv: seq<nat>)
    requires |layer| >= 2
    ensures var k := SplitAt(|layer|);
            FoldUp(hash, layer, mv) == FoldPair(hash, FoldUp(hash, layer[..k], mv), FoldUp(hash, layer[k..], mv), mv)
    decreases |layer|
  {
    hide FoldPair;
    FoldUpStep(hash, layer, mv);
    var next := FoldLayer(hash, layer, mv);
    if |layer| == 2 {
      assert layer[..1] == [layer[0]] && layer[1..] == [layer[1]];
      assert next == [FoldPair(hash, layer[0], layer[1], mv)] + FoldLayer(hash, layer[2..], mv);
    } else {
      var k := SplitAt(|next|);
      FoldUpSplits(hash, next, mv);
      LayerSplits(hash, layer, mv, k);
      hide FoldLayer, FoldUp;
      FoldUpStep(hash, layer[..2 * k], mv);
      FoldUpStep(hash, layer[2 * k..], mv);
    }
  }

  lemma NodesSplit(hash: Hash, leafHash: seq<nat>, preimages: seq<seq<nat>>, k: nat)
    requires k <= |preimages|
    ensures LeafNodes(hash, leafHash, preimages)[..k] == LeafNodes(hash, leafHash, preimages[..k])
    ensures LeafNodes(hash, leafHash, preimages)[k..] == LeafNodes(hash, leafHash, preimages[k..])
  {
    hide LeafNode;
  }

  lemma {:induction false} FoldUpWords(hash: Hash, preimages: seq<seq<nat>>, leafHash: seq<nat>, mv: seq<nat>)
    requires preimages != []
    ensures var node := FoldUp(hash, LeafNodes(hash, leafHash, preimages), mv);
            node.circuit + node.output == Words(hash, preimages, leafHash, mv)
    decreases |preimages|
  {
    var nodes := LeafNodes(hash, leafHash, preimages);
    if |preimages| >= 2 {
      hide LeafNodes, FoldUp, EncodeFelts;
      var k := SplitAt(|preimages|);
      FoldUpSplits(hash, nodes, mv);
      NodesSplit(hash, leafHash, preimages, k);
      FoldUpWords(hash, preimages[..k], leafHash, mv);
      FoldUpWords(hash, preimages[k..], leafHash, mv);
      PairWords(hash, FoldUp(hash, nodes[..k], mv), FoldUp(hash, nodes[k..], mv), mv);
    }
  }

  lemma PairWords(hash: Hash, left: Node, right: Node, mv: seq<nat>)
    ensures var node := FoldPair(hash, left, right, mv);
            node.circuit + node.output == mv + hash((left.circuit + left.output) + (right.circuit + right.output))
  {
    assert left.circuit + left.output + right.circuit + right.output
           == (left.circuit + left.output) + (right.circuit + right.output);
  }

  /** `root_output_hash` is the hash of the whole tree's circuit and output; a single preimage counts twice. */
  lemma RootIsTree(hash: Hash, preimages: seq<seq<nat>>, leafHash: seq<nat>, mv: seq<nat>)
    requires preimages != []
    ensures RootOutputHash(hash, preimages, leafHash, mv)
         == hash(Words(hash, if |preimages| == 1 then preimages + preimages else preimages, leafHash, mv))
  {
    hide EncodeFelts;
    if |preimages| == 1 {
      var leaf := LeafNode(hash, leafHash, preimages[0]);
      PairWords(hash, leaf, leaf, mv);
      assert (preimages + preimages)[..1] == preimages && (preimages + preimages)[1..] == preimages;
    } else {
      FoldUpWords(hash, preimages, leafHash, mv);
    }
  }
}
