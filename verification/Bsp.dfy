/**
 * The walks over the BSP tree of client/src/map/bsp.ts: the polygon of every subsector, and the
 * subsector of a point.
 *
 * The node array says nothing about termination; `Tree` is the tree it unrolls to from one
 * child reference, when it does, and measures both walks.
 */
module Bsp {
  import opened Clipping
  import opened Wrappers

  const NODE_LEAF_FLAG := 0x8000
  const MARGIN := 256.0

  datatype Node = Node(line: Line, rightChild: nat, leftChild: nat)

  datatype Box = Box(minX: real, minY: real, maxX: real, maxY: real)

  /** `sectors[i]` is `subsectorSector(level, i)`. */
  datatype Level = Level(nodes: seq<Node>, sectors: seq<nat>, box: Box)

  datatype SubsectorPolygon = SubsectorPolygon(subsector: nat, sector: nat, points: seq<Point>)

  /** A leaf, a partition, or a reference to a node that does not exist. */
  datatype Tree = Leaf | Split(right: Tree, left: Tree) | Missing

  predicate IsLeaf(child: nat) {
    child / NODE_LEAF_FLAG % 2 == 1
  }

  function LeafIndex(child: nat): nat {
    child % NODE_LEAF_FLAG
  }

  predicate Unrolls(level: Level, child: nat, tree: Tree)
    decreases tree
  {
    match tree
    case Leaf => IsLeaf(child)
    case Missing => !IsLeaf(child) && child >= |level.nodes|
    case Split(right, left) =>
      && !IsLeaf(child) && child < |level.nodes|
      && Unrolls(level, level.nodes[child].rightChild, right)
      && Unrolls(level, level.nodes[child].leftChild, left)
  }

  // ----- the polygons --------------------------------------------------------------------------

  /** What the walk writes, in order. */
  function Visited(level: Level, child: nat, tree: Tree, poly: seq<Point>): seq<SubsectorPolygon>
    requires Unrolls(level, child, tree)
    decreases tree
  {
    if |poly| < 3 then []
    else
      match tree
      case Leaf =>
        var ss := LeafIndex(child);
        if ss < |level.sectors| then [SubsectorPolygon(ss, level.sectors[ss], poly)] else []
      case Missing => []
      case Split(right, left) =>
        var node := level.nodes[child];
        Visited(level, node.rightChild, right, ClipHalfPlane(poly, node.line, true))
        + Visited(level, node.leftChild, left, ClipHalfPlane(poly, node.line, false))
  }

  /** The writes `out[ss] = …`, one after the other. */
  function Written(out: seq<Option<SubsectorPolygon>>, ws: seq<SubsectorPolygon>): (r: seq<Option<SubsectorPolygon>>)
    requires forall w :: w in ws ==> w.subsector < |out|
    ensures |r| == |out|
    decreases |ws|
  {
    if ws == [] then out else Written(out[ws[0].subsector := Some(ws[0])], ws[1..])
  }

  lemma {:induction false} WrittenConcat(out: seq<Option<SubsectorPolygon>>, a: seq<SubsectorPolygon>, b: seq<SubsectorPolygon>)
    requires forall w :: w in a + b ==> w.subsector < |out|
    ensures (forall w :: w in a ==> w.subsector < |out|) && (forall w :: w in b ==> w.subsector < |out|)
    ensures Written(out, a + b) == Written(Written(out, a), b)
    decreases |a|
  {
    assert forall w :: w in a ==> w in a + b;
    assert forall w :: w in b ==> w in a + b;
    if a == [] {
      assert a + b == b;
    } else {
      assert (a + b)[1..] == a[1..] + b;
      WrittenConcat(out[a[0].subsector := Some(a[0])], a[1..], b);
    }
  }

  lemma {:induction false} VisitedInRange(level: Level, child: nat, tree: Tree, poly: seq<Point>)
    requires Unrolls(level, child, tree)
    ensures forall w :: w in Visited(level, child, tree, poly) ==> w.subsector < |level.sectors| && |w.points| >= 3
    decreases tree
  {
    hide ClipHalfPlane;
    if |poly| >= 3 && tree.Split? {
      var node := level.nodes[child];
      VisitedInRange(level, node.rightChild, tree.right, ClipHalfPlane(poly, node.line, true));
      VisitedInRange(level, node.leftChild, tree.left, ClipHalfPlane(poly, node.line, false));
    }
  }

  /** `out.filter(Boolean)`. */
  function Present(out: seq<Option<SubsectorPolygon>>): seq<SubsectorPolygon> {
    if out == [] then []
    else (match out[0] case Some(p) => [p] case None => []) + Present(out[1..])
  }

  /** The starting rectangle, counter-clockwise. */
  function Root(box: Box): seq<Point> {
    [Point(box.minX - MARGIN, box.minY - MARGIN), Point(box.maxX + MARGIN, box.minY - MARGIN),
     Point(box.maxX + MARGIN, box.maxY + MARGIN), Point(box.minX - MARGIN, box.maxY + MARGIN)]
  }

  function Blank(n: nat): (r: seq<Option<SubsectorPolygon>>)
    ensures |r| == n && forall i :: 0 <= i < n ==> r[i] == None
  {
    seq(n, _ => None)
  }

  /** `buildSubsectorPolygons` on a level whose nodes unroll to `tree`. */
  function SubsectorPolygons(level: Level, tree: Tree): seq<SubsectorPolygon>
    requires level.nodes != [] ==> Unrolls(level, |level.nodes| - 1, tree)
  {
    if level.nodes == [] then
      if |level.sectors| == 1 then [SubsectorPolygon(0, level.sectors[0], Root(level.box))] else []
    else
      VisitedInRange(level, |level.nodes| - 1, tree, Root(level.box));
      Present(Written(Blank(|level.sectors|), Visited(level, |level.nodes| - 1, tree, Root(level.box))))
  }

  /** The recursive visit, filling `out`. */
  method Visit(level: Level, child: nat, ghost tree: Tree, poly: seq<Point>, out: array<Option<SubsectorPolygon>>)
    requires Unrolls(level, child, tree) && out.Length == |level.sectors|
    modifies out
    ensures forall w :: w in Visited(level, child, tree, poly) ==> w.subsector < out.Length
    ensures out[..] == Written(old(out[..]), Visited(level, child, tree, poly))
    decreases tree
  {
    hide ClipHalfPlane;
    VisitedInRange(level, child, tree, poly);
    if |poly| < 3 { return; }
    if IsLeaf(child) {
      var ss := LeafIndex(child);
      if ss < |level.sectors| {
        out[ss] := Some(SubsectorPolygon(ss, level.sectors[ss], poly));
      }
      return;
    }
    if child >= |level.nodes| { return; }
    var node := level.nodes[child];
    var front := ComputeClip(poly, node.line, true);
    ghost var was := out[..];
    Visit(level, node.rightChild, tree.right, front, out);
    var back := ComputeClip(poly, node.line, false);
    Visit(level, node.leftChild, tree.left, back, out);
    WrittenConcat(was, Visited(level, node.rightChild, tree.right, front), Visited(level, node.leftChild, tree.left, back));
  }

  method BuildSubsectorPolygons(level: Level, ghost tree: Tree) returns (r: seq<SubsectorPolygon>)
    requires level.nodes != [] ==> Unrolls(level, |level.nodes| - 1, tree)
    ensures r == SubsectorPolygons(level, tree)
  {
    var out := new Option<SubsectorPolygon>[|level.sectors|](_ => None);
    var root := Root(level.box);
    if |level.nodes| == 0 {
      if |level.sectors| == 1 {
        return [SubsectorPolygon(0, level.sectors[0], root)];
      }
      return [];
    }
    assert out[..] == Blank(|level.sectors|);
    Visit(level, |level.nodes| - 1, tree, root, out);
    r := Present(out[..]);
  }

  // ----- their areas ---------------------------------------------------------------------------

  function TotalArea(ps: seq<SubsectorPolygon>): real {
    if ps == [] then 0.0 else SignedArea(ps[0].points) + TotalArea(ps[1..])
  }

  lemma {:induction false} TotalAreaConcat(a: seq<SubsectorPolygon>, b: seq<SubsectorPolygon>)
    ensures TotalArea(a + b) == TotalArea(a) + TotalArea(b)
  {
    hide SignedArea;
    if a == [] {
      assert a + b == b;
    } else {
      assert (a + b)[1..] == a[1..] + b;
      TotalAreaConcat(a[1..], b);
    }
  }

  /** No reference to a missing node or subsector, and no partition without a direction. */
  predicate Sound(level: Level, child: nat, tree: Tree)
    requires Unrolls(level, child, tree)
    decreases tree
  {
    match tree
    case Leaf => LeafIndex(child) < |level.sectors|
    case Missing => false
    case Split(right, left) =>
      var node := level.nodes[child];
      && HasDirection(node.line)
      && Sound(level, node.rightChild, right) && Sound(level, node.leftChild, left)
  }

  /** The area the tolerance of `dedupe` takes on the whole walk. */
  function WalkLoss(level: Level, child: nat, tree: Tree, poly: seq<Point>): real
    requires Unrolls(level, child, tree)
    decreases tree
  {
    if |poly| < 3 || !tree.Split? then 0.0
    else
      var node := level.nodes[child];
      ClipLoss(poly, node.line)
      + WalkLoss(level, node.rightChild, tree.right, ClipHalfPlane(poly, node.line, true))
      + WalkLoss(level, node.leftChild, tree.left, ClipHalfPlane(poly, node.line, false))
  }

  /** Nowhere on the walk does the tolerance merge distinct points. */
  ghost predicate CleanWalk(level: Level, child: nat, tree: Tree, poly: seq<Point>)
    requires Unrolls(level, child, tree)
    decreases tree
  {
    |poly| >= 3 && tree.Split? ==>
      var node := level.nodes[child];
      && OnlyCoincident(Clipped(poly, node.line, true, |poly|)) && OnlyCoincident(Clipped(poly, node.line, false, |poly|))
      && CleanWalk(level, node.rightChild, tree.right, ClipHalfPlane(poly, node.line, true))
      && CleanWalk(level, node.leftChild, tree.left, ClipHalfPlane(poly, node.line, false))
  }

  lemma {:induction false} CleanWalkLosesNothing(level: Level, child: nat, tree: Tree, poly: seq<Point>)
    requires Unrolls(level, child, tree) && CleanWalk(level, child, tree, poly)
    ensures WalkLoss(level, child, tree, poly) == 0.0
    decreases tree
  {
    hide ClipHalfPlane, Clipped, OnlyCoincident, Lost;
    if |poly| >= 3 && tree.Split? {
      var node := level.nodes[child];
      CoincidentLosesNothing(Clipped(poly, node.line, true, |poly|));
      CoincidentLosesNothing(Clipped(poly, node.line, false, |poly|));
      CleanWalkLosesNothing(level, node.rightChild, tree.right, ClipHalfPlane(poly, node.line, true));
      CleanWalkLosesNothing(level, node.leftChild, tree.left, ClipHalfPlane(poly, node.line, false));
    }
  }

  /** The leaf polygons share out the signed area of the polygon the walk started with, less what the tolerance took. */
  lemma {:induction false} VisitedArea(level: Level, child: nat, tree: Tree, poly: seq<Point>)
    requires Unrolls(level, child, tree) && Sound(level, child, tree)
    ensures TotalArea(Visited(level, child, tree, poly)) + WalkLoss(level, child, tree, poly) == SignedArea(poly)
    decreases tree
  {
    hide SignedArea, ClipHalfPlane, ClipLoss;
    if |poly| < 3 {
      SmallArea(Origin, poly);
      SignedAreaIs(poly);
    } else if tree.Split? {
      var node := level.nodes[child];
      var front, back := ClipHalfPlane(poly, node.line, true), ClipHalfPlane(poly, node.line, false);
      VisitedArea(level, node.rightChild, tree.right, front);
      VisitedArea(level, node.leftChild, tree.left, back);
      TotalAreaConcat(Visited(level, node.rightChild, tree.right, front), Visited(level, node.leftChild, tree.left, back));
      ClipsShareArea(poly, node.line);
    } else {
      var ws := Visited(level, child, tree, poly);
      assert ws[1..] == [];
      assert TotalArea(ws) == SignedArea(ws[0].points) + TotalArea(ws[1..]);
    }
  }

  lemma SignedAreaIs(ps: seq<Point>)
    ensures SignedArea(ps) == Area2(Origin, ps) / 2.0
  {
  }

  predicate Distinct(ws: seq<SubsectorPolygon>) {
    forall i, j :: 0 <= i < j < |ws| ==> ws[i].subsector != ws[j].subsector
  }

  lemma {:induction false} PresentUpdate(out: seq<Option<SubsectorPolygon>>, i: nat, p: SubsectorPolygon)
    requires i < |out| && out[i] == None
    ensures TotalArea(Present(out[i := Some(p)])) == TotalArea(Present(out)) + SignedArea(p.points)
  {
    hide SignedArea;
    if i == 0 {
      assert out[0 := Some(p)][1..] == out[1..];
      TotalAreaConcat([p], Present(out[1..]));
      assert [p][1..] == [];
      assert TotalArea([p]) == SignedArea(p.points) + TotalArea([p][1..]);
      assert Present(out) == Present(out[1..]);
    } else {
      assert out[i := Some(p)][1..] == out[1..][i - 1 := Some(p)];
      PresentUpdate(out[1..], i - 1, p);
      var head := match out[0] case Some(q) => [q] case None => [];
      TotalAreaConcat(head, Present(out[1..]));
      TotalAreaConcat(head, Present(out[1..][i - 1 := Some(p)]));
    }
  }

  /** Writing each slot at most once loses nothing. */
  lemma {:induction false} WrittenArea(out: seq<Option<SubsectorPolygon>>, ws: seq<SubsectorPolygon>)
    requires forall w :: w in ws ==> w.subsector < |out|
    requires Distinct(ws) && forall w :: w in ws ==> out[w.subsector] == None
    ensures TotalArea(Present(Written(out, ws))) == TotalArea(Present(out)) + TotalArea(ws)
    decreases |ws|
  {
    hide SignedArea;
    if ws != [] {
      var i := ws[0].subsector;
      PresentUpdate(out, i, ws[0]);
      var next := out[i := Some(ws[0])];
      forall w | w in ws[1..] ensures w.subsector < |next| && next[w.subsector] == None {
        var k :| 0 <= k < |ws[1..]| && ws[1..][k] == w;
        assert ws[0].subsector != ws[k + 1].subsector;
      }
      WrittenArea(next, ws[1..]);
    }
  }

  lemma {:induction false} PresentBlank(n: nat)
    ensures Present(Blank(n)) == []
  {
    if n > 0 {
      assert Blank(n)[1..] == Blank(n - 1);
      PresentBlank(n - 1);
    }
  }

  lemma RootArea(box: Box)
    ensures SignedArea(Root(box)) == RectangleArea(box)
  {
    var r := Root(box);
    var o := r[0];
    AreaFrom(o, r);
    assert r[1..] == [r[1], r[2], r[3]] && r[1..][1..] == [r[2], r[3]] && r[1..][1..][1..] == [r[3]];
    assert Path(o, r[1..][1..][1..]) == 0.0;
    assert Path(o, r[1..][1..]) == Cross(o, r[2], r[3]) + Path(o, r[1..][1..][1..]);
    assert Path(o, r[1..]) == Cross(o, r[1], r[2]) + Path(o, r[1..][1..]);
    assert Path(o, r) == Cross(o, r[0], r[1]) + Path(o, r[1..]);
  }

  /** The subsectors the leaves name, in walk order. */
  function Leaves(level: Level, child: nat, tree: Tree): seq<nat>
    requires Unrolls(level, child, tree)
    decreases tree
  {
    match tree
    case Leaf => [LeafIndex(child)]
    case Missing => []
    case Split(right, left) =>
      Leaves(level, level.nodes[child].rightChild, right) + Leaves(level, level.nodes[child].leftChild, left)
  }

  predicate AllDifferent(xs: seq<nat>) {
    forall i, j :: 0 <= i < j < |xs| ==> xs[i] != xs[j]
  }

  lemma AllDifferentParts(a: seq<nat>, b: seq<nat>)
    requires AllDifferent(a + b)
    ensures AllDifferent(a) && AllDifferent(b) && forall x, y :: x in a && y in b ==> x != y
  {
    forall i, j | 0 <= i < j < |a| ensures a[i] != a[j] {
      assert (a + b)[i] == a[i] && (a + b)[j] == a[j];
    }
    forall i, j | 0 <= i < j < |b| ensures b[i] != b[j] {
      assert (a + b)[|a| + i] == b[i] && (a + b)[|a| + j] == b[j];
    }
    forall x, y | x in a && y in b ensures x != y {
      var i :| 0 <= i < |a| && a[i] == x;
      var j :| 0 <= j < |b| && b[j] == y;
      assert (a + b)[i] == x && (a + b)[|a| + j] == y;
    }
  }

  /** Leaves that name different subsectors write different slots. */
  lemma {:induction false} VisitedDistinct(level: Level, child: nat, tree: Tree, poly: seq<Point>)
    requires Unrolls(level, child, tree) && AllDifferent(Leaves(level, child, tree))
    ensures Distinct(Visited(level, child, tree, poly))
    ensures forall w :: w in Visited(level, child, tree, poly) ==> w.subsector in Leaves(level, child, tree)
    decreases tree
  {
    hide ClipHalfPlane;
    if |poly| >= 3 && tree.Split? {
      var node := level.nodes[child];
      var front, back := ClipHalfPlane(poly, node.line, true), ClipHalfPlane(poly, node.line, false);
      AllDifferentParts(Leaves(level, node.rightChild, tree.right), Leaves(level, node.leftChild, tree.left));
      VisitedDistinct(level, node.rightChild, tree.right, front);
      VisitedDistinct(level, node.leftChild, tree.left, back);
      var a, b := Visited(level, node.rightChild, tree.right, front), Visited(level, node.leftChild, tree.left, back);
      var all: seq<SubsectorPolygon> := a + b;
      forall i, j | 0 <= i < j < |all| ensures all[i].subsector != all[j].subsector {
        assert i < |a| <= j ==> a[i] in a && b[j - |a|] in b;
      }
    }
  }

  function RectangleArea(box: Box): real {
    (box.maxX - box.minX + 512.0) * (box.maxY - box.minY + 512.0)
  }

  /**
   * Whatever the partitions, when each leaf is a subsector of its own, the signed areas of the
   * subsector polygons and what the tolerance took on the walk sum to the starting rectangle. The
   * polygons alone do so exactly when the tolerance took nothing, in particular when it merged
   * coincident points only.
   */
  lemma PolygonsTileRectangle(level: Level, tree: Tree)
    requires level.nodes != [] && Unrolls(level, |level.nodes| - 1, tree)
    requires Sound(level, |level.nodes| - 1, tree) && AllDifferent(Leaves(level, |level.nodes| - 1, tree))
    ensures var loss := WalkLoss(level, |level.nodes| - 1, tree, Root(level.box));
            && TotalArea(SubsectorPolygons(level, tree)) + loss == RectangleArea(level.box)
            && (TotalArea(SubsectorPolygons(level, tree)) == RectangleArea(level.box) <==> loss == 0.0)
            && (CleanWalk(level, |level.nodes| - 1, tree, Root(level.box)) ==> loss == 0.0)
  {
    hide SignedArea, Visited, CleanWalk, WalkLoss, Root, Unrolls, Sound, Leaves, Written, Present, Blank;
    var root, last := Root(level.box), |level.nodes| - 1;
    VisitedInRange(level, last, tree, root);
    VisitedDistinct(level, last, tree, root);
    VisitedArea(level, last, tree, root);
    PresentBlank(|level.sectors|);
    WrittenArea(Blank(|level.sectors|), Visited(level, last, tree, root));
    RootArea(level.box);
    if CleanWalk(level, last, tree, root) {
      CleanWalkLosesNothing(level, last, tree, root);
    }
  }

  lemma {:induction false} PresentAreWritten(out: seq<Option<SubsectorPolygon>>, p: SubsectorPolygon)
    requires p in Present(out)
    ensures Some(p) in out
  {
    if out[0] != Some(p) {
      PresentAreWritten(out[1..], p);
    }
  }

  lemma {:induction false} WrittenFrom(out: seq<Option<SubsectorPolygon>>, ws: seq<SubsectorPolygon>, p: SubsectorPolygon)
    requires forall w :: w in ws ==> w.subsector < |out|
    requires Some(p) in Written(out, ws)
    ensures Some(p) in out || p in ws
    decreases |ws|
  {
    if ws != [] {
      WrittenFrom(out[ws[0].subsector := Some(ws[0])], ws[1..], p);
    }
  }

  /** Every polygon returned is one the walk reached. */
  lemma ReturnedWasVisited(level: Level, tree: Tree, p: SubsectorPolygon)
    requires level.nodes != [] && Unrolls(level, |level.nodes| - 1, tree) && p in SubsectorPolygons(level, tree)
    ensures p in Visited(level, |level.nodes| - 1, tree, Root(level.box))
  {
    hide Visited, Unrolls;
    VisitedInRange(level, |level.nodes| - 1, tree, Root(level.box));
    var ws := Visited(level, |level.nodes| - 1, tree, Root(level.box));
    PresentAreWritten(Written(Blank(|level.sectors|), ws), p);
    WrittenFrom(Blank(|level.sectors|), ws, p);
  }

  // ----- locating a point ----------------------------------------------------------------------

  /** `pointInSubsector` from one child reference; 0 where the source gives up. */
  function Located(level: Level, child: nat, tree: Tree, q: Point): nat
    requires Unrolls(level, child, tree)
    decreases tree
  {
    match tree
    case Leaf => LeafIndex(child)
    case Missing => 0
    case Split(right, left) =>
      var node := level.nodes[child];
      if Side(node.line, q) > 0.0 then Located(level, node.rightChild, right, q)
      else Located(level, node.leftChild, left, q)
  }

  method PointInSubsector(level: Level, ghost tree: Tree, q: Point) returns (ss: nat)
    requires level.nodes != [] ==> Unrolls(level, |level.nodes| - 1, tree)
    ensures ss == if level.nodes == [] then 0 else Located(level, |level.nodes| - 1, tree, q)
  {
    if |level.nodes| == 0 { return 0; }
    var node: nat := |level.nodes| - 1;
    ghost var at := tree;
    while true
      invariant Unrolls(level, node, at)
      invariant Located(level, node, at, q) == Located(level, |level.nodes| - 1, tree, q)
      decreases at
    {
      if IsLeaf(node) { return LeafIndex(node); }
      if node >= |level.nodes| { return 0; }
      var n := level.nodes[node];
      if Side(n.line, q) > 0.0 {
        node, at := n.rightChild, at.right;
      } else {
        node, at := n.leftChild, at.left;
      }
    }
  }

  /**
   * A child reference 0x8000 + ss is the leaf of subsector ss, in both walks; one below 0x8000 is
   * the node of that number, or a missing one.
   */
  lemma ReferencesAre(level: Level, ss: nat, tree: Tree, poly: seq<Point>, q: Point)
    requires ss < 0x8000
    ensures Unrolls(level, 0x8000 + ss, tree) <==> tree == Leaf
    ensures Unrolls(level, ss, tree) ==> tree != Leaf
    ensures Unrolls(level, ss, Missing) <==> ss >= |level.nodes|
    ensures Unrolls(level, ss, tree) && tree.Split? ==> ss < |level.nodes|
    ensures Located(level, 0x8000 + ss, Leaf, q) == ss
    ensures Visited(level, 0x8000 + ss, Leaf, poly) ==
            if |poly| >= 3 && ss < |level.sectors| then [SubsectorPolygon(ss, level.sectors[ss], poly)] else []
  {
    assert (0x8000 + ss) / 0x8000 == 1 && (0x8000 + ss) % 0x8000 == ss && ss / 0x8000 == 0;
  }

  // ----- polygons against half-planes ----------------------------------------------------------

  /** Every point satisfies the half-plane test. */
  predicate Within(ps: seq<Point>, n: Line, right: bool) {
    forall p :: p in ps ==> SignedSide(n, right, p) >= 0.0
  }

  lemma {:induction false} KeptAreOld(points: seq<Point>, k: nat)
    requires k <= |points|
    ensures forall p :: p in Kept(points, k) ==> p in points
  {
    hide Near;
    if k > 0 {
      KeptAreOld(points, k - 1);
    }
  }

  /** Clipping keeps every half-plane test its polygon passed: a crossing point lies between two vertices. */
  lemma {:induction false} ClippedWithin(poly: seq<Point>, n: Line, right: bool, k: nat, m: Line, side: bool)
    requires k <= |poly| && Within(poly, m, side)
    ensures Within(Clipped(poly, n, right, k), m, side)
  {
    hide SignedSide, Side, EdgeOut, Within, Vertex;
    if k == 0 {
      NoneWithin(m, side);
    } else {
      ClippedWithin(poly, n, right, k - 1, m, side);
      EndsWithin(poly, k, m, side);
      EdgeWithin(poly[k - 1], Vertex(poly, k), n, right, m, side);
      JoinWithin(Clipped(poly, n, right, k - 1), EdgeOut(n, right, poly[k - 1], Vertex(poly, k)), m, side);
    }
  }

  lemma EndsWithin(poly: seq<Point>, k: nat, m: Line, side: bool)
    requires 0 < k <= |poly| && Within(poly, m, side)
    ensures SignedSide(m, side, poly[k - 1]) >= 0.0 && SignedSide(m, side, Vertex(poly, k)) >= 0.0
  {
    hide SignedSide;
    assert poly[k - 1] in poly && Vertex(poly, k) in poly;
  }

  lemma EdgeWithin(a: Point, b: Point, n: Line, right: bool, m: Line, side: bool)
    requires SignedSide(m, side, a) >= 0.0 && SignedSide(m, side, b) >= 0.0
    ensures Within(EdgeOut(n, right, a, b), m, side)
  {
    hide Side, Along;
    if Crosses(SignedSide(n, right, a), SignedSide(n, right, b)) {
      MeetingOnLine(n, right, a, b);
      var t := SignedSide(n, right, a) / (SignedSide(n, right, a) - SignedSide(n, right, b));
      SideAlong(m, a, b, t);
      Between(SignedSide(m, side, a), SignedSide(m, side, b), t);
    }
  }

  lemma Between(u: real, v: real, t: real)
    requires u >= 0.0 && v >= 0.0 && 0.0 <= t <= 1.0
    ensures u + t * (v - u) >= 0.0
    ensures -(-u + t * (-v - -u)) >= 0.0
  {
    SameSign(1.0 - t, u);
    SameSign(t, v);
    assert u + t * (v - u) == (1.0 - t) * u + t * v;
    assert t * (-v - -u) == -(t * (v - u));
  }

  /** What a clip keeps passes its own test. */
  lemma {:induction false} ClippedKeepsSide(poly: seq<Point>, n: Line, right: bool, k: nat)
    requires k <= |poly|
    ensures Within(Clipped(poly, n, right, k), n, right)
  {
    hide Within, EdgeOut;
    if k == 0 {
      NoneWithin(n, right);
    } else {
      ClippedKeepsSide(poly, n, right, k - 1);
      EdgeKeepsSide(poly[k - 1], Vertex(poly, k), n, right);
      JoinWithin(Clipped(poly, n, right, k - 1), EdgeOut(n, right, poly[k - 1], Vertex(poly, k)), n, right);
    }
  }

  lemma NoneWithin(n: Line, right: bool)
    ensures Within([], n, right)
  {
  }

  lemma JoinWithin(a: seq<Point>, b: seq<Point>, n: Line, right: bool)
    requires Within(a, n, right) && Within(b, n, right)
    ensures Within(a + b, n, right)
  {
    hide SignedSide;
  }

  lemma EdgeKeepsSide(a: Point, b: Point, n: Line, right: bool)
    ensures Within(EdgeOut(n, right, a, b), n, right)
  {
    hide Side, Meeting;
    if Crosses(SignedSide(n, right, a), SignedSide(n, right, b)) {
      MeetingOnLine(n, right, a, b);
    }
  }

  lemma DedupeWithin(points: seq<Point>, n: Line, right: bool)
    requires Within(points, n, right)
    ensures Within(Dedupe(points), n, right)
  {
    hide Side, Near;
    KeptAreOld(points, |points|);
  }

  lemma ClipWithin(poly: seq<Point>, n: Line, right: bool)
    ensures Within(ClipHalfPlane(poly, n, right), n, right)
    ensures forall m: Line, side: bool :: Within(poly, m, side) ==> Within(ClipHalfPlane(poly, n, right), m, side)
  {
    hide Clipped, Dedupe, Within;
    ClippedKeepsSide(poly, n, right, |poly|);
    DedupeWithin(Clipped(poly, n, right, |poly|), n, right);
    forall m: Line, side: bool | Within(poly, m, side) ensures Within(ClipHalfPlane(poly, n, right), m, side) {
      ClippedWithin(poly, n, right, |poly|, m, side);
      DedupeWithin(Clipped(poly, n, right, |poly|), m, side);
    }
  }

  /** Any half-plane the polygon lies in, every leaf polygon cut from it lies in. */
  lemma {:induction false} VisitedWithin(level: Level, child: nat, tree: Tree, poly: seq<Point>, m: Line, side: bool)
    requires Unrolls(level, child, tree) && Within(poly, m, side)
    ensures forall w :: w in Visited(level, child, tree, poly) ==> Within(w.points, m, side)
    decreases tree
  {
    hide ClipHalfPlane, Within;
    if |poly| >= 3 && tree.Split? {
      var node := level.nodes[child];
      ClipWithin(poly, node.line, true);
      ClipWithin(poly, node.line, false);
      VisitedWithin(level, node.rightChild, tree.right, ClipHalfPlane(poly, node.line, true), m, side);
      VisitedWithin(level, node.leftChild, tree.left, ClipHalfPlane(poly, node.line, false), m, side);
    }
  }

  /** One way down the tree: at each partition, right or left. */
  predicate FollowsPath(level: Level, child: nat, tree: Tree, path: seq<bool>)
    requires Unrolls(level, child, tree)
    decreases tree
  {
    match tree
    case Split(right, left) =>
      path != [] &&
      if path[0] then FollowsPath(level, level.nodes[child].rightChild, right, path[1..])
      else FollowsPath(level, level.nodes[child].leftChild, left, path[1..])
    case _ => path == []
  }

  /** The leaf a path leads to. */
  function LeafAt(level: Level, child: nat, tree: Tree, path: seq<bool>): nat
    requires Unrolls(level, child, tree) && FollowsPath(level, child, tree, path)
    decreases tree
  {
    match tree
    case Split(right, left) =>
      if path[0] then LeafAt(level, level.nodes[child].rightChild, right, path[1..])
      else LeafAt(level, level.nodes[child].leftChild, left, path[1..])
    case Leaf => LeafIndex(child)
    case Missing => 0
  }

  /** Every point passes the test of every partition on the path, on the side the path takes. */
  ghost predicate PassesPath(level: Level, child: nat, tree: Tree, path: seq<bool>, ps: seq<Point>)
    requires Unrolls(level, child, tree) && FollowsPath(level, child, tree, path)
    decreases tree
  {
    tree.Split? ==>
      var node := level.nodes[child];
      && Within(ps, node.line, path[0])
      && if path[0] then PassesPath(level, node.rightChild, tree.right, path[1..], ps)
         else PassesPath(level, node.leftChild, tree.left, path[1..], ps)
  }

  /**
   * Every vertex of a subsector's polygon passes the half-plane test of every partition on the
   * way from the root to its leaf; the tolerance of `dedupe` does not matter.
   */
  lemma {:induction false} VerticesPassTests(level: Level, child: nat, tree: Tree, poly: seq<Point>, i: nat)
    returns (path: seq<bool>)
    requires Unrolls(level, child, tree) && i < |Visited(level, child, tree, poly)|
    ensures FollowsPath(level, child, tree, path)
    ensures var w := Visited(level, child, tree, poly)[i];
            PassesPath(level, child, tree, path, w.points) && LeafAt(level, child, tree, path) == w.subsector
    decreases tree
  {
    hide ClipHalfPlane, Within;
    path := [];
    if tree.Split? {
      var node := level.nodes[child];
      var front, back := ClipHalfPlane(poly, node.line, true), ClipHalfPlane(poly, node.line, false);
      var a := Visited(level, node.rightChild, tree.right, front);
      var b := Visited(level, node.leftChild, tree.left, back);
      ClipWithin(poly, node.line, true);
      ClipWithin(poly, node.line, false);
      if i < |a| {
        var rest := VerticesPassTests(level, node.rightChild, tree.right, front, i);
        path := [true] + rest;
        VisitedWithin(level, node.rightChild, tree.right, front, node.line, true);
        assert a[i] in a;
      } else {
        var rest := VerticesPassTests(level, node.leftChild, tree.left, back, i - |a|);
        path := [false] + rest;
        VisitedWithin(level, node.leftChild, tree.left, back, node.line, false);
        assert b[i - |a|] in b;
      }
    }
  }

  // ----- points of a polygon -------------------------------------------------------------------

  function Total(ws: seq<real>): real {
    if ws == [] then 0.0 else ws[0] + Total(ws[1..])
  }

  /** The weighted sum of one coordinate. */
  function Weighted(ws: seq<real>, ps: seq<Point>, x: bool): real
    requires |ws| == |ps|
  {
    if ws == [] then 0.0 else Times(ws[0], if x then ps[0].x else ps[0].y) + Weighted(ws[1..], ps[1..], x)
  }

  function Times(w: real, c: real): real {
    w * c
  }

  /** `q` is a convex combination of the vertices: a point of the convex polygon. */
  ghost predicate InPolygon(ps: seq<Point>, q: Point) {
    exists ws: seq<real> ::
      && |ws| == |ps| && (forall i :: 0 <= i < |ws| ==> ws[i] >= 0.0)
      && Total(ws) == 1.0 && Weighted(ws, ps, true) == q.x && Weighted(ws, ps, false) == q.y
  }

  /** The side test of a weighted sum of points, `W` being the sum of the weights. */
  function WeightedTest(n: Line, X: real, Y: real, W: real): real {
    n.dy * (X - n.x * W) - n.dx * (Y - n.y * W)
  }

  lemma {:induction false} WeightedSide(ws: seq<real>, ps: seq<Point>, n: Line, right: bool)
    requires |ws| == |ps| && (forall i :: 0 <= i < |ws| ==> ws[i] >= 0.0) && Within(ps, n, right)
    ensures var s := WeightedTest(n, Weighted(ws, ps, true), Weighted(ws, ps, false), Total(ws));
            if right then s >= 0.0 else s <= 0.0
  {
    if ws == [] {
      NoPoints(n);
    } else {
      WithinTail(ps, n, right);
      hide WeightedTest, Times, Side, Within, SignedSide;
      WeightedSide(ws[1..], ps[1..], n, right);
      TestAdds(n, ps[0], ws[0], Weighted(ws[1..], ps[1..], true), Weighted(ws[1..], ps[1..], false), Total(ws[1..]));
      WeightedSign(ws[0], Side(n, ps[0]));
    }
  }

  lemma NoPoints(n: Line)
    ensures WeightedTest(n, 0.0, 0.0, 0.0) == 0.0
  {
  }

  lemma WithinTail(ps: seq<Point>, n: Line, right: bool)
    requires Within(ps, n, right) && ps != []
    ensures Within(ps[1..], n, right) && if right then Side(n, ps[0]) >= 0.0 else Side(n, ps[0]) <= 0.0
  {
    hide Side;
    assert forall p :: p in ps[1..] ==> p in ps;
    assert ps[0] in ps;
  }

  lemma WeightedSign(w: real, s: real)
    requires w >= 0.0
    ensures s >= 0.0 ==> Times(w, s) >= 0.0
    ensures s <= 0.0 ==> Times(w, s) <= 0.0
  {
  }

  lemma TestAdds(n: Line, p: Point, w: real, X: real, Y: real, W: real)
    ensures WeightedTest(n, Times(w, p.x) + X, Times(w, p.y) + Y, w + W) == Times(w, Side(n, p)) + WeightedTest(n, X, Y, W)
  {
    var u, v := p.x - n.x, p.y - n.y;
    assert w * p.x + X - n.x * (w + W) == w * u + (X - n.x * W);
    assert w * p.y + Y - n.y * (w + W) == w * v + (Y - n.y * W);
    assert n.dy * (w * u + (X - n.x * W)) == n.dy * (w * u) + n.dy * (X - n.x * W);
    assert n.dx * (w * v + (Y - n.y * W)) == n.dx * (w * v) + n.dx * (Y - n.y * W);
    assert w * Side(n, p) == w * (n.dy * u) - w * (n.dx * v);
    assert n.dy * (w * u) == w * (n.dy * u) && n.dx * (w * v) == w * (n.dx * v);
  }

  lemma SameSign(w: real, s: real)
    requires w >= 0.0
    ensures s >= 0.0 ==> w * s >= 0.0
    ensures s <= 0.0 ==> w * s <= 0.0
  {
  }

  lemma PointWithin(ps: seq<Point>, q: Point, n: Line, right: bool)
    requires InPolygon(ps, q) && Within(ps, n, right)
    ensures SignedSide(n, right, q) >= 0.0
  {
    var ws: seq<real> :| && |ws| == |ps| && (forall i :: 0 <= i < |ws| ==> ws[i] >= 0.0)
      && Total(ws) == 1.0 && Weighted(ws, ps, true) == q.x && Weighted(ws, ps, false) == q.y;
    hide WeightedTest, Side, Within, Weighted, Total;
    WeightedSide(ws, ps, n, right);
    TestOfPoint(n, q);
  }

  lemma TestOfPoint(n: Line, q: Point)
    ensures WeightedTest(n, q.x, q.y, 1.0) == Side(n, q)
  {
  }

  /** `q` lies on none of the partitions the path crosses. */
  predicate OffLines(level: Level, child: nat, tree: Tree, path: seq<bool>, q: Point)
    requires Unrolls(level, child, tree) && FollowsPath(level, child, tree, path)
    decreases tree
  {
    tree.Split? ==>
      var node := level.nodes[child];
      && Side(node.line, q) != 0.0
      && if path[0] then OffLines(level, node.rightChild, tree.right, path[1..], q)
         else OffLines(level, node.leftChild, tree.left, path[1..], q)
  }

  lemma {:induction false} LocatedAlong(level: Level, child: nat, tree: Tree, path: seq<bool>, ps: seq<Point>, q: Point)
    requires Unrolls(level, child, tree) && FollowsPath(level, child, tree, path)
    requires PassesPath(level, child, tree, path, ps) && InPolygon(ps, q) && OffLines(level, child, tree, path, q)
    ensures Located(level, child, tree, q) == LeafAt(level, child, tree, path)
    decreases tree
  {
    hide InPolygon, Within;
    if tree.Split? {
      var node := level.nodes[child];
      PointWithin(ps, q, node.line, path[0]);
      if path[0] {
        LocatedAlong(level, node.rightChild, tree.right, path[1..], ps, q);
      } else {
        LocatedAlong(level, node.leftChild, tree.left, path[1..], ps, q);
      }
    }
  }

  /**
   * The polygons and the point lookup agree: a point of a subsector's polygon that lies on none
   * of the partitions above that subsector is sent to that subsector.
   */
  lemma PolygonAgreesWithLookup(level: Level, tree: Tree, i: nat) returns (path: seq<bool>)
    requires level.nodes != [] && Unrolls(level, |level.nodes| - 1, tree)
    requires i < |Visited(level, |level.nodes| - 1, tree, Root(level.box))|
    ensures var last := |level.nodes| - 1;
            var w := Visited(level, last, tree, Root(level.box))[i];
            && FollowsPath(level, last, tree, path)
            && PassesPath(level, last, tree, path, w.points)
            && forall q :: InPolygon(w.points, q) && OffLines(level, last, tree, path, q) ==>
                 Located(level, last, tree, q) == w.subsector
  {
    hide Visited, FollowsPath, PassesPath, InPolygon, OffLines, Located;
    var last := |level.nodes| - 1;
    path := VerticesPassTests(level, last, tree, Root(level.box), i);
    var w := Visited(level, last, tree, Root(level.box))[i];
    forall q | InPolygon(w.points, q) && OffLines(level, last, tree, path, q)
      ensures Located(level, last, tree, q) == w.subsector
    {
      LocatedAlong(level, last, tree, path, w.points, q);
    }
  }
}
