/**
 * The polygon arithmetic of client/src/map/bsp.ts over exact reals: signed areas, fans, and
 * clipping a polygon by one partition line.
 */
module Clipping {
  datatype Point = Point(x: real, y: real)

  /** A partition line through (x, y) in direction (dx, dy). */
  datatype Line = Line(x: real, y: real, dx: real, dy: real)

  predicate HasDirection(n: Line) {
    n.dx != 0.0 || n.dy != 0.0
  }

  const EPSILON := 0.000001

  /** `R_PointOnSide`: positive on the right. */
  function Side(n: Line, p: Point): real {
    n.dy * (p.x - n.x) - n.dx * (p.y - n.y)
  }

  /** Cross product of the two points seen from `o`. */
  function Cross(o: Point, a: Point, b: Point): real {
    (a.x - o.x) * (b.y - o.y) - (b.x - o.x) * (a.y - o.y)
  }

  const Origin := Point(0.0, 0.0)

  /** The cross products along an open path. */
  function Path(o: Point, ps: seq<Point>): real {
    if |ps| < 2 then 0.0 else Cross(o, ps[0], ps[1]) + Path(o, ps[1..])
  }

  /** Twice the signed area of the closed polygon, seen from `o`. */
  function Area2(o: Point, ps: seq<Point>): real {
    if ps == [] then 0.0 else Path(o, ps) + Cross(o, ps[|ps| - 1], ps[0])
  }

  /** `signedArea` (positive = counter-clockwise). */
  function SignedArea(ps: seq<Point>): real {
    Area2(Origin, ps) / 2.0
  }

  lemma {:induction false} PathSnoc(o: Point, ps: seq<Point>, q: Point)
    ensures Path(o, ps + [q]) == Path(o, ps) + if ps == [] then 0.0 else Cross(o, ps[|ps| - 1], q)
  {
    if |ps| >= 2 {
      assert (ps + [q])[1..] == ps[1..] + [q];
      PathSnoc(o, ps[1..], q);
    } else if |ps| == 1 {
      assert (ps + [q])[1..] == [q];
    }
  }

  /** Vertex `k` of the closed polygon: `points[k % points.length]` for `k` up to the length. */
  function Vertex(ps: seq<Point>, k: nat): Point
    requires 0 < |ps| && k <= |ps|
  {
    if k == |ps| then ps[0] else ps[k]
  }

  lemma VertexIsModulo(ps: seq<Point>, k: nat)
    requires 0 < |ps| && k <= |ps|
    ensures Vertex(ps, k) == ps[k % |ps|]
  {
    if k < |ps| {
      SmallModulo(k, |ps|);
    }
  }

  lemma SmallModulo(k: nat, n: nat)
    requires k < n
    ensures k % n == k
  {
  }

  /** The loop of `signedArea`, modulo index and all. */
  method ComputeSignedArea(points: seq<Point>) returns (r: real)
    ensures r == SignedArea(points)
  {
    var a := 0.0;
    for i := 0 to |points|
      invariant i < |points| ==> a == Path(Origin, points[..i + 1])
      invariant i == |points| ==> a == Area2(Origin, points)
    {
      var p, q := points[i], points[(i + 1) % |points|];
      VertexIsModulo(points, i + 1);
      if i + 1 < |points| {
        PathSnoc(Origin, points[..i + 1], q);
        assert points[..i + 1] + [q] == points[..i + 2];
      } else {
        assert points[..i + 1] == points;
      }
      a := a + (p.x * q.y - q.x * p.y);
    }
    r := a / 2.0;
  }

  // ----- where the area is seen from does not matter -------------------------------------------

  /** What moving the viewpoint from the origin to `o` adds to the edge from `a` to `b`. */
  function Shift(o: Point, a: Point, b: Point): real {
    o.y * (b.x - a.x) - o.x * (b.y - a.y)
  }

  lemma ShiftJoins(o: Point, a: Point, m: Point, b: Point)
    ensures Shift(o, a, m) + Shift(o, m, b) == Shift(o, a, b)
  {
    assert o.y * (b.x - m.x) + o.y * (m.x - a.x) == o.y * (b.x - a.x);
    assert o.x * (b.y - m.y) + o.x * (m.y - a.y) == o.x * (b.y - a.y);
  }

  lemma ShiftNone(o: Point, a: Point)
    ensures Shift(o, a, a) == 0.0
  {
  }

  lemma {:induction false} PathFrom(o: Point, ps: seq<Point>)
    requires ps != []
    ensures Path(o, ps) == Path(Origin, ps) + Shift(o, ps[0], ps[|ps| - 1])
  {
    hide Cross, Shift;
    if |ps| >= 2 {
      PathFrom(o, ps[1..]);
      CrossFrom(o, ps[0], ps[1]);
      ShiftJoins(o, ps[0], ps[1], ps[|ps| - 1]);
    } else {
      ShiftNone(o, ps[0]);
    }
  }

  lemma CrossFrom(o: Point, a: Point, b: Point)
    ensures Cross(o, a, b) == Cross(Origin, a, b) + Shift(o, a, b)
  {
  }

  lemma AreaFrom(o: Point, ps: seq<Point>)
    ensures Area2(o, ps) == Area2(Origin, ps)
  {
    hide Cross, Path, Shift;
    if ps != [] {
      PathFrom(o, ps);
      var a, b := ps[0], ps[|ps| - 1];
      CrossFrom(o, b, a);
      ShiftJoins(o, a, b, a);
      ShiftNone(o, a);
    }
  }

  // ----- triangle fans -------------------------------------------------------------------------

  /** `fanTriangulate`: index triples (0, i, i + 1) for `i` in `[from, n - 1)`. */
  function Fan(from: nat, n: nat): seq<(nat, nat, nat)>
    decreases n - from
  {
    if from + 1 >= n then [] else [(0, from, from + 1)] + Fan(from + 1, n)
  }

  method FanTriangulate(points: seq<Point>) returns (triples: seq<(nat, nat, nat)>)
    ensures triples == if |points| < 3 then [] else Fan(1, |points|)
  {
    if |points| < 3 { return []; }
    triples := [];
    var i := 1;
    while i + 1 < |points|
      invariant 1 <= i
      invariant triples + Fan(i, |points|) == Fan(1, |points|)
    {
      triples := triples + [(0, i, i + 1)];
      i := i + 1;
    }
  }

  function Triangle(points: seq<Point>, t: (nat, nat, nat)): seq<Point>
    requires t.0 < |points| && t.1 < |points| && t.2 < |points|
  {
    [points[t.0], points[t.1], points[t.2]]
  }

  /** The areas of the triangles of a list of index triples. */
  function TriangleAreas(points: seq<Point>, ts: seq<(nat, nat, nat)>): real
    requires forall t :: t in ts ==> t.0 < |points| && t.1 < |points| && t.2 < |points|
  {
    if ts == [] then 0.0 else SignedArea(Triangle(points, ts[0])) + TriangleAreas(points, ts[1..])
  }

  lemma FanInRange(from: nat, n: nat)
    requires from >= 1
    ensures forall t :: t in Fan(from, n) ==> t.0 < n && t.1 < n && t.2 < n
    decreases n - from
  {
    if from + 1 < n {
      FanInRange(from + 1, n);
    }
  }

  lemma {:induction false} FanFrom(points: seq<Point>, from: nat)
    requires 1 <= from < |points|
    ensures forall t :: t in Fan(from, |points|) ==> t.0 < |points| && t.1 < |points| && t.2 < |points|
    ensures TriangleAreas(points, Fan(from, |points|)) == Path(points[0], points[from..]) / 2.0
    decreases |points| - from
  {
    FanInRange(from, |points|);
    if from + 1 < |points| {
      FanFrom(points, from + 1);
      assert Fan(from, |points|)[1..] == Fan(from + 1, |points|);
      assert points[from..][1..] == points[from + 1..];
      TriangleArea(points[0], points[from], points[from + 1]);
      hide SignedArea;
    }
  }

  lemma TriangleArea(a: Point, b: Point, c: Point)
    ensures SignedArea([a, b, c]) == Cross(a, b, c) / 2.0
  {
    var tri := [a, b, c];
    AreaFrom(a, tri);
    hide Cross;
    assert tri[1..] == [b, c];
    assert tri[1..][1..] == [c];
    assert Path(a, tri[1..][1..]) == 0.0;
    assert Path(a, tri[1..]) == Cross(a, b, c) + Path(a, tri[1..][1..]);
    assert Path(a, tri) == Cross(a, a, b) + Path(a, tri[1..]);
    CrossOfSame(a, b, c);
  }

  lemma CrossOfSame(a: Point, b: Point, c: Point)
    ensures Cross(a, a, b) == 0.0 && Cross(a, c, a) == 0.0
  {
  }

  /** The triangles of a fan have, together, the signed area of the polygon. */
  lemma FanArea(points: seq<Point>)
    requires |points| >= 3
    ensures forall t :: t in Fan(1, |points|) ==> t.0 < |points| && t.1 < |points| && t.2 < |points|
    ensures TriangleAreas(points, Fan(1, |points|)) == SignedArea(points)
  {
    FanFrom(points, 1);
    AreaFrom(points[0], points);
    assert Path(points[0], points) == Cross(points[0], points[0], points[1]) + Path(points[0], points[1..]);
  }

  /** Fewer than three points enclose nothing. */
  lemma SmallArea(o: Point, ps: seq<Point>)
    requires |ps| < 3
    ensures Area2(o, ps) == 0.0
  {
    if |ps| == 2 {
      assert Path(o, ps[1..]) == 0.0;
    } else if |ps| == 1 {
      assert Path(o, ps) == 0.0;
    }
  }

  // ----- clipping by one line ------------------------------------------------------------------

  /** `sign > 0` keeps the right side, `sign < 0` the left. */
  function SignedSide(n: Line, right: bool, p: Point): real {
    if right then Side(n, p) else -Side(n, p)
  }

  predicate Crosses(sa: real, sb: real) {
    (sa > 0.0 && sb < 0.0) || (sa < 0.0 && sb > 0.0)
  }

  /** The point at parameter `t` of the edge. */
  function Along(a: Point, b: Point, t: real): Point {
    Point(a.x + t * (b.x - a.x), a.y + t * (b.y - a.y))
  }

  function Meeting(n: Line, right: bool, a: Point, b: Point): Point
    requires Crosses(SignedSide(n, right, a), SignedSide(n, right, b))
  {
    var sa, sb := SignedSide(n, right, a), SignedSide(n, right, b);
    Along(a, b, sa / (sa - sb))
  }

  /** What the loop pushes for one edge. */
  function EdgeOut(n: Line, right: bool, a: Point, b: Point): seq<Point> {
    var sa, sb := SignedSide(n, right, a), SignedSide(n, right, b);
    (if sa >= 0.0 then [a] else []) + (if Crosses(sa, sb) then [Meeting(n, right, a, b)] else [])
  }

  /** What it has pushed after the first `k` edges. */
  function Clipped(poly: seq<Point>, n: Line, right: bool, k: nat): seq<Point>
    requires k <= |poly|
  {
    if k == 0 then [] else Clipped(poly, n, right, k - 1) + EdgeOut(n, right, poly[k - 1], Vertex(poly, k))
  }

  predicate Near(a: Point, b: Point) {
    -EPSILON < a.x - b.x < EPSILON && -EPSILON < a.y - b.y < EPSILON
  }

  /** The loop of `dedupe` over the first `k` points. */
  function Kept(points: seq<Point>, k: nat): seq<Point>
    requires k <= |points|
  {
    if k == 0 then []
    else
      var out := Kept(points, k - 1);
      if out != [] && Near(out[|out| - 1], points[k - 1]) then out else out + [points[k - 1]]
  }

  function Dedupe(points: seq<Point>): seq<Point> {
    var out := Kept(points, |points|);
    if |out| > 1 && Near(out[0], out[|out| - 1]) then out[..|out| - 1] else out
  }

  function ClipHalfPlane(poly: seq<Point>, n: Line, right: bool): seq<Point> {
    Dedupe(Clipped(poly, n, right, |poly|))
  }

  /** `clipHalfPlane` and `dedupe` as loops. */
  method ComputeClip(poly: seq<Point>, n: Line, right: bool) returns (r: seq<Point>)
    ensures r == ClipHalfPlane(poly, n, right)
  {
    var out := [];
    for i := 0 to |poly|
      invariant out == Clipped(poly, n, right, i)
    {
      var a, b := poly[i], poly[(i + 1) % |poly|];
      VertexIsModulo(poly, i + 1);
      var sa, sb := SignedSide(n, right, a), SignedSide(n, right, b);
      ghost var before := out;
      if sa >= 0.0 { out := out + [a]; }
      if Crosses(sa, sb) {
        var t := sa / (sa - sb);
        out := out + [Along(a, b, t)];
      }
      assert out == before + EdgeOut(n, right, a, b);
    }
    r := ComputeDedupe(out);
  }

  method ComputeDedupe(points: seq<Point>) returns (out: seq<Point>)
    ensures out == Dedupe(points)
  {
    out := [];
    for k := 0 to |points|
      invariant out == Kept(points, k)
    {
      if |out| > 0 && Near(out[|out| - 1], points[k]) {
      } else {
        out := out + [points[k]];
      }
    }
    if |out| > 1 && Near(out[0], out[|out| - 1]) {
      out := out[..|out| - 1];
    }
  }

  // ----- the two clips share out the area ------------------------------------------------------

  /** A point on the line, and where areas are measured from in these proofs. */
  function Base(n: Line): Point {
    Point(n.x, n.y)
  }

  lemma SideAlong(n: Line, a: Point, b: Point, t: real)
    ensures Side(n, Along(a, b, t)) == Side(n, a) + t * (Side(n, b) - Side(n, a))
  {
    var p := Along(a, b, t);
    assert n.dy * (p.x - n.x) == n.dy * (a.x - n.x) + n.dy * (t * (b.x - a.x));
    assert n.dx * (p.y - n.y) == n.dx * (a.y - n.y) + n.dx * (t * (b.y - a.y));
    assert n.dy * (t * (b.x - a.x)) == t * (n.dy * (b.x - a.x));
    assert n.dx * (t * (b.y - a.y)) == t * (n.dx * (b.y - a.y));
    assert Side(n, b) - Side(n, a) == n.dy * (b.x - a.x) - n.dx * (b.y - a.y);
  }

  /** The crossing point lies on the line, strictly inside the edge. */
  lemma MeetingOnLine(n: Line, right: bool, a: Point, b: Point)
    requires Crosses(SignedSide(n, right, a), SignedSide(n, right, b))
    ensures Side(n, Meeting(n, right, a, b)) == 0.0
    ensures var t := SignedSide(n, right, a) / (SignedSide(n, right, a) - SignedSide(n, right, b));
            0.0 < t < 1.0 && Meeting(n, right, a, b) == Along(a, b, t)
  {
    var sa, sb := SignedSide(n, right, a), SignedSide(n, right, b);
    var t := sa / (sa - sb);
    CrossingRatio(sa, sb);
    hide Side, Along;
    SideAlong(n, a, b, t);
  }

  /** The parameter of a crossing, and the side test there on either side of the line. */
  lemma CrossingRatio(sa: real, sb: real)
    requires Crosses(sa, sb)
    ensures var t := sa / (sa - sb); 0.0 < t < 1.0 && sa + t * (sb - sa) == 0.0 && -sa + t * (-sb - -sa) == 0.0
  {
    var t := sa / (sa - sb);
    assert t * (sa - sb) == sa;
    if sa > 0.0 {
      UnitRatio(sa, -sb);
    } else {
      UnitRatio(-sa, sb);
      RatioSign(sa, sa - sb);
    }
    assert t * (sb - sa) == -(t * (sa - sb)) && t * (-sb - -sa) == t * (sa - sb);
  }

  lemma UnitRatio(p: real, q: real)
    requires p > 0.0 && q > 0.0
    ensures 0.0 < p / (p + q) < 1.0
  {
    var r := p / (p + q);
    assert r * (p + q) == p;
    assert (1.0 - r) * (p + q) == q;
    PositiveFactor(r, p + q);
    PositiveFactor(1.0 - r, p + q);
  }

  lemma PositiveFactor(x: real, y: real)
    requires y > 0.0 && x * y > 0.0
    ensures x > 0.0
  {
  }

  lemma RatioSign(p: real, q: real)
    requires q != 0.0
    ensures p / q == (-p) / (-q)
  {
    var r := p / q;
    assert r * q == p && r * (-q) == -p;
  }

  /** Both clips cut an edge at the same point. */
  lemma MeetingSame(n: Line, a: Point, b: Point)
    requires Crosses(Side(n, a), Side(n, b))
    ensures Meeting(n, true, a, b) == Meeting(n, false, a, b)
  {
    RatioSign(Side(n, a), Side(n, a) - Side(n, b));
  }

  /** Two points on one line span no area seen from it. */
  lemma CrossOnLine(n: Line, a: Point, b: Point)
    requires HasDirection(n)
    requires Side(n, a) == 0.0 && Side(n, b) == 0.0
    ensures Cross(Base(n), a, b) == 0.0
  {
    var ax, ay, bx, bz := a.x - n.x, a.y - n.y, b.x - n.x, b.y - n.y;
    Parallel(n.dx, n.dy, ax, ay, bx, bz);
  }

  lemma Parallel(dx: real, dy: real, ax: real, ay: real, bx: real, bz: real)
    requires dx != 0.0 || dy != 0.0
    requires dy * ax == dx * ay && dy * bx == dx * bz
    ensures ax * bz - bx * ay == 0.0
  {
    var c := ax * bz - bx * ay;
    if dx != 0.0 {
      assert dx * c == ax * (dx * bz) - bx * (dx * ay);
      assert ax * (dy * bx) - bx * (dy * ax) == 0.0;
      assert dx * c == 0.0;
    } else {
      assert dy * c == (dy * ax) * bz - (dy * bx) * ay;
      assert (dx * ay) * bz - (dx * bz) * ay == 0.0;
      assert dy * c == 0.0;
    }
  }

  /** Cutting an edge anywhere splits its cross product. */
  lemma CrossAlong(o: Point, a: Point, b: Point, t: real)
    ensures Cross(o, a, Along(a, b, t)) + Cross(o, Along(a, b, t), b) == Cross(o, a, b)
  {
    var ax, ay, bx, bz := a.x - o.x, a.y - o.y, b.x - o.x, b.y - o.y;
    var p := Along(a, b, t);
    assert p.x - o.x == ax + t * (bx - ax) && p.y - o.y == ay + t * (bz - ay);
    SplitProduct(ax, ay, bx, bz, t);
  }

  lemma SplitProduct(ax: real, ay: real, bx: real, bz: real, t: real)
    ensures (ax * (ay + t * (bz - ay)) - (ax + t * (bx - ax)) * ay)
            + ((ax + t * (bx - ax)) * bz - bx * (ay + t * (bz - ay)))
            == ax * bz - bx * ay
  {
  }

  /** The part of an edge's cross product that falls to one side. */
  function Share(n: Line, right: bool, a: Point, b: Point): real {
    var sa, sb := SignedSide(n, right, a), SignedSide(n, right, b);
    if sa >= 0.0 && sb >= 0.0 then Cross(Base(n), a, b)
    else if sa > 0.0 && sb < 0.0 then Cross(Base(n), a, Meeting(n, right, a, b))
    else if sa < 0.0 && sb > 0.0 then Cross(Base(n), Meeting(n, right, a, b), b)
    else 0.0
  }

  lemma SharesSum(n: Line, a: Point, b: Point)
    requires HasDirection(n)
    ensures Share(n, true, a, b) + Share(n, false, a, b) == Cross(Base(n), a, b)
  {
    if Side(n, a) == 0.0 && Side(n, b) == 0.0 {
      CrossOnLine(n, a, b);
    } else if Crosses(Side(n, a), Side(n, b)) {
      MeetingSame(n, a, b);
      MeetingOnLine(n, true, a, b);
      CrossAlong(Base(n), a, b, Side(n, a) / (Side(n, a) - Side(n, b)));
    }
  }

  function Shares(poly: seq<Point>, n: Line, right: bool, k: nat): real
    requires k <= |poly|
  {
    if k == 0 then 0.0 else Shares(poly, n, right, k - 1) + Share(n, right, poly[k - 1], Vertex(poly, k))
  }

  function Edges(o: Point, poly: seq<Point>, k: nat): real
    requires k <= |poly|
  {
    if k == 0 then 0.0 else Edges(o, poly, k - 1) + Cross(o, poly[k - 1], Vertex(poly, k))
  }

  lemma {:induction false} SharesSumUp(poly: seq<Point>, n: Line, k: nat)
    requires k <= |poly| && HasDirection(n)
    ensures Shares(poly, n, true, k) + Shares(poly, n, false, k) == Edges(Base(n), poly, k)
  {
    if k > 0 {
      SharesSumUp(poly, n, k - 1);
      SharesSum(n, poly[k - 1], Vertex(poly, k));
    }
  }

  lemma {:induction false} EdgesPath(o: Point, poly: seq<Point>, k: nat)
    requires k < |poly|
    ensures Edges(o, poly, k) == Path(o, poly[..k + 1])
  {
    if k > 0 {
      hide Cross;
      EdgesPath(o, poly, k - 1);
      var head := poly[..k];
      PathSnoc(o, head, poly[k]);
      assert head + [poly[k]] == poly[..k + 1];
      assert head[|head| - 1] == poly[k - 1];
    }
  }

  lemma EdgesAre(o: Point, poly: seq<Point>)
    ensures Edges(o, poly, |poly|) == Area2(o, poly)
  {
    if poly != [] {
      EdgesPath(o, poly, |poly| - 1);
      assert poly[..|poly|] == poly;
    }
  }

  /** What has been pushed, completed by the vertex the walk stands on when that one is inside. */
  function Walked(poly: seq<Point>, n: Line, right: bool, k: nat): seq<Point>
    requires 0 < |poly| && k <= |poly|
  {
    Clipped(poly, n, right, k) + if SignedSide(n, right, Vertex(poly, k)) >= 0.0 then [Vertex(poly, k)] else []
  }

  /** Where a walk leaves the kept side and comes back, it does so on the line. */
  ghost predicate WalkOk(poly: seq<Point>, n: Line, right: bool, k: nat)
    requires 0 < |poly| && k <= |poly|
  {
    var out, walk := Clipped(poly, n, right, k), Walked(poly, n, right, k);
    && Path(Base(n), walk) == Shares(poly, n, right, k)
    && (SignedSide(n, right, Vertex(poly, k)) < 0.0 && out != [] ==> Side(n, out[|out| - 1]) == 0.0)
    && (if SignedSide(n, right, poly[0]) >= 0.0 then walk != [] && walk[0] == poly[0]
        else walk != [] ==> Side(n, walk[0]) == 0.0)
  }

  /** Adding one point to a path. */
  lemma PathPush(o: Point, ps: seq<Point>, q: Point, last: Point)
    requires ps != [] ==> ps[|ps| - 1] == last
    ensures Path(o, ps + [q]) == Path(o, ps) + if ps == [] then 0.0 else Cross(o, last, q)
  {
    PathSnoc(o, ps, q);
  }

  /** The next step of a walk that stands inside. */
  lemma WalkInside(poly: seq<Point>, n: Line, right: bool, k: nat)
    requires k < |poly| && WalkOk(poly, n, right, k) && SignedSide(n, right, poly[k]) >= 0.0
    ensures WalkOk(poly, n, right, k + 1)
  {
    hide Cross, Side, Meeting, Path;
    var o := Base(n);
    var a, b := poly[k], Vertex(poly, k + 1);
    var sa, sb := SignedSide(n, right, a), SignedSide(n, right, b);
    var walk := Walked(poly, n, right, k);
    var out', walk' := Clipped(poly, n, right, k + 1), Walked(poly, n, right, k + 1);
    if sb >= 0.0 {
      assert out' == walk && walk' == walk + [b];
      PathPush(o, walk, b, a);
    } else if sa > 0.0 {
      var x := Meeting(n, right, a, b);
      MeetingOnLine(n, right, a, b);
      assert out' == walk' == walk + [x];
      PathPush(o, walk, x, a);
    } else {
      assert out' == walk' == walk;
    }
  }

  /** Going on along the line adds no area. */
  lemma PushOnLine(n: Line, out: seq<Point>, q: Point)
    requires HasDirection(n) && Side(n, q) == 0.0 && (out != [] ==> Side(n, out[|out| - 1]) == 0.0)
    ensures Path(Base(n), out + [q]) == Path(Base(n), out)
  {
    hide Cross, Side, Path;
    if out == [] {
      PathSingle(Base(n), q);
      assert out + [q] == [q];
    } else {
      PathPush(Base(n), out, q, out[|out| - 1]);
      CrossOnLine(n, out[|out| - 1], q);
    }
  }

  /** The next step of a walk that stands outside. */
  lemma WalkOutside(poly: seq<Point>, n: Line, right: bool, k: nat)
    requires HasDirection(n)
    requires k < |poly| && WalkOk(poly, n, right, k) && SignedSide(n, right, poly[k]) < 0.0
    ensures WalkOk(poly, n, right, k + 1)
  {
    hide Cross, Side, Meeting, Path;
    var a, b := poly[k], Vertex(poly, k + 1);
    var sb := SignedSide(n, right, b);
    var out, walk := Clipped(poly, n, right, k), Walked(poly, n, right, k);
    var out', walk' := Clipped(poly, n, right, k + 1), Walked(poly, n, right, k + 1);
    if sb > 0.0 {
      var x := Meeting(n, right, a, b);
      MeetingOnLine(n, right, a, b);
      assert out == walk && out' == out + [x] && walk' == (out + [x]) + [b];
      PushOnLine(n, out, x);
      PathPush(Base(n), out + [x], b, x);
    } else if sb == 0.0 {
      assert out == walk && out' == out && walk' == out + [b];
      PushOnLine(n, out, b);
    } else {
      assert out == walk && out' == out && walk' == out;
    }
  }

  lemma WalkStep(poly: seq<Point>, n: Line, right: bool, k: nat)
    requires HasDirection(n)
    requires k < |poly| && WalkOk(poly, n, right, k)
    ensures WalkOk(poly, n, right, k + 1)
  {
    hide WalkOk, SignedSide;
    if SignedSide(n, right, poly[k]) >= 0.0 {
      WalkInside(poly, n, right, k);
    } else {
      WalkOutside(poly, n, right, k);
    }
  }

  lemma PathSingle(o: Point, p: Point)
    ensures Path(o, [p]) == 0.0 == Path(o, [])
  {
  }

  lemma WalkStart(poly: seq<Point>, n: Line, right: bool)
    requires 0 < |poly|
    ensures WalkOk(poly, n, right, 0)
  {
    hide Side, Cross, Path, EdgeOut;
    PathSingle(Base(n), poly[0]);
    assert Clipped(poly, n, right, 0) == [];
    assert Walked(poly, n, right, 0) == if SignedSide(n, right, poly[0]) >= 0.0 then [poly[0]] else [];
  }

  lemma {:induction false} WalkAll(poly: seq<Point>, n: Line, right: bool, k: nat)
    requires HasDirection(n)
    requires 0 < |poly| && k <= |poly|
    ensures WalkOk(poly, n, right, k)
  {
    hide WalkOk;
    if k == 0 {
      WalkStart(poly, n, right);
    } else {
      WalkAll(poly, n, right, k - 1);
      WalkStep(poly, n, right, k - 1);
    }
  }

  /** The closed polygon one clip emits has exactly that side's share of the area. */
  lemma ClippedArea(poly: seq<Point>, n: Line, right: bool)
    requires HasDirection(n)
    ensures Area2(Base(n), Clipped(poly, n, right, |poly|)) == Shares(poly, n, right, |poly|)
  {
    hide Side, Cross, Meeting, Path;
    if poly != [] {
      WalkAll(poly, n, right, |poly|);
      var o := Base(n);
      var out, walk := Clipped(poly, n, right, |poly|), Walked(poly, n, right, |poly|);
      if SignedSide(n, right, poly[0]) >= 0.0 {
        assert walk == out + [poly[0]];
        StartsInside(poly, n, right, |poly|);
        PathPush(o, out, poly[0], out[|out| - 1]);
      } else {
        assert walk == out;
        if out != [] {
          CrossOnLine(n, out[|out| - 1], out[0]);
        } else {
          PathSingle(o, poly[0]);
        }
      }
    }
  }

  lemma {:induction false} StartsInside(poly: seq<Point>, n: Line, right: bool, k: nat)
    requires 0 < k <= |poly| && SignedSide(n, right, poly[0]) >= 0.0
    ensures Clipped(poly, n, right, k) != [] && Clipped(poly, n, right, k)[0] == poly[0]
  {
    hide Side, Meeting;
    if k > 1 {
      StartsInside(poly, n, right, k - 1);
    } else {
      assert Clipped(poly, n, right, 1) == Clipped(poly, n, right, 0) + EdgeOut(n, right, poly[0], Vertex(poly, 1));
    }
  }

  // ----- what the tolerance costs --------------------------------------------------------------

  /**
   * Twice the signed area of the triangles cut off at the points dropped among the first `k`: each
   * between the point kept last, the dropped one and the one after it.
   */
  function CutOff(points: seq<Point>, k: nat): real
    requires 0 < |points| && k <= |points|
  {
    if k == 0 then 0.0
    else
      var out := Kept(points, k - 1);
      CutOff(points, k - 1)
      + if out != [] && Near(out[|out| - 1], points[k - 1])
        then Cross(out[|out| - 1], points[k - 1], Vertex(points, k)) else 0.0
  }

  /** With the triangle cut off when the last point is popped. */
  function Lost(points: seq<Point>): real {
    if points == [] then 0.0
    else
      var out := Kept(points, |points|);
      CutOff(points, |points|)
      + if |out| > 1 && Near(out[0], out[|out| - 1]) then Cross(out[|out| - 2], out[|out| - 1], out[0]) else 0.0
  }

  /** Leaving `p` out of a path costs the triangle it stood in. */
  lemma Shortcut(o: Point, a: Point, p: Point, b: Point)
    ensures Cross(o, a, p) + Cross(o, p, b) == Cross(o, a, b) + Cross(a, p, b)
  {
  }

  lemma {:induction false} KeptWalk(o: Point, points: seq<Point>, k: nat)
    requires 0 < |points| && k <= |points|
    ensures Path(o, points[..k] + [Vertex(points, k)]) == Path(o, Kept(points, k) + [Vertex(points, k)]) + CutOff(points, k)
    ensures k > 0 ==> Kept(points, k) != [] && Kept(points, k)[0] == points[0]
  {
    hide Cross, Path, Near;
    var q := Vertex(points, k);
    if k == 0 {
      assert points[..0] == [] == Kept(points, 0);
    } else {
      KeptWalk(o, points, k - 1);
      var p, before, out := points[k - 1], points[..k - 1], Kept(points, k - 1);
      assert before + [p] == points[..k];
      PathSnoc(o, before + [p], q);
      PathSnoc(o, out + [p], q);
      if Kept(points, k) == out {
        PathSnoc(o, out, p);
        PathSnoc(o, out, q);
        Shortcut(o, out[|out| - 1], p, q);
      }
    }
  }

  /** `dedupe` loses exactly the triangles it cuts off, whatever it merges. */
  lemma DedupeLoss(o: Point, points: seq<Point>)
    ensures Area2(o, points) == Area2(o, Dedupe(points)) + Lost(points)
  {
    if points != [] {
      hide Cross, Path, Near;
      var n, out := |points|, Kept(points, |points|);
      KeptWalk(o, points, n);
      assert points[..n] == points;
      PathSnoc(o, points, points[0]);
      PathSnoc(o, out, points[0]);
      if |out| > 1 && Near(out[0], out[|out| - 1]) {
        var m := |out| - 1;
        assert out == out[..m] + [out[m]];
        PathSnoc(o, out[..m], out[m]);
        assert out[..m][m - 1] == out[m - 1] && out[..m][0] == out[0];
        Shortcut(o, out[m - 1], out[m], out[0]);
      }
    }
  }

  /** `dedupe` keeps the area exactly when the triangles it cuts off cancel out. */
  lemma DedupeAreaExactly(o: Point, points: seq<Point>)
    ensures Area2(o, Dedupe(points)) == Area2(o, points) <==> Lost(points) == 0.0
  {
    DedupeLoss(o, points);
  }

  /** Neighbours within the tolerance of each other coincide, and so do the two ends. */
  ghost predicate OnlyCoincident(points: seq<Point>) {
    && (forall i :: 0 <= i < |points| - 1 && Near(points[i], points[i + 1]) ==> points[i] == points[i + 1])
    && (points != [] && Near(points[0], points[|points| - 1]) ==> points[0] == points[|points| - 1])
  }

  lemma {:induction false} CoincidentKept(points: seq<Point>, k: nat)
    requires 0 < k <= |points| && OnlyCoincident(points)
    ensures Kept(points, k) != [] && Kept(points, k)[0] == points[0]
    ensures Kept(points, k)[|Kept(points, k)| - 1] == points[k - 1] && CutOff(points, k) == 0.0
  {
    hide Near, Cross;
    if k > 1 {
      CoincidentKept(points, k - 1);
      CrossOfSame(points[k - 1], Vertex(points, k), Vertex(points, k));
      assert Near(points[k - 2], points[k - 1]) ==> points[k - 2] == points[k - 1];
    } else {
      assert Kept(points, 0) == [];
    }
  }

  /** Dropping coincident points only costs nothing. */
  lemma CoincidentLosesNothing(points: seq<Point>)
    requires OnlyCoincident(points)
    ensures Lost(points) == 0.0
  {
    if points != [] {
      hide Near, Cross, CutOff, Kept;
      CoincidentKept(points, |points|);
      var out := Kept(points, |points|);
      if |out| > 1 {
        CrossOfSame(out[0], out[|out| - 2], out[0]);
        CrossLast(out[|out| - 2], out[0]);
      }
    }
  }

  lemma CrossLast(a: Point, b: Point)
    ensures Cross(a, b, b) == 0.0
  {
  }

  lemma {:induction false} DegenerateKeepsAll(poly: seq<Point>, n: Line, right: bool, k: nat)
    requires n.dx == 0.0 && n.dy == 0.0 && k <= |poly|
    ensures Clipped(poly, n, right, k) == poly[..k]
  {
    if k > 0 {
      DegenerateKeepsAll(poly, n, right, k - 1);
      assert Side(n, poly[k - 1]) == 0.0 && Side(n, Vertex(poly, k)) == 0.0;
      assert poly[..k - 1] + [poly[k - 1]] == poly[..k];
    }
  }

  /** The area the tolerance takes from the two clips together. */
  function ClipLoss(poly: seq<Point>, n: Line): real {
    (Lost(Clipped(poly, n, true, |poly|)) + Lost(Clipped(poly, n, false, |poly|))) / 2.0
  }

  /** What the loop of one clip pushed, before `dedupe`, has that side's share of the area. */
  lemma PushedArea(poly: seq<Point>, n: Line)
    ensures Area2(Origin, Clipped(poly, n, true, |poly|)) + Area2(Origin, Clipped(poly, n, false, |poly|))
            == if HasDirection(n) then Area2(Origin, poly) else 2.0 * Area2(Origin, poly)
  {
    hide Cross, Path, Clipped, Shares, Edges;
    var o := Base(n);
    if HasDirection(n) {
      forall right: bool ensures Area2(Origin, Clipped(poly, n, right, |poly|)) == Shares(poly, n, right, |poly|) {
        ClippedArea(poly, n, right);
        AreaFrom(o, Clipped(poly, n, right, |poly|));
      }
      SharesSumUp(poly, n, |poly|);
      EdgesAre(o, poly);
      AreaFrom(o, poly);
    } else {
      assert poly[..|poly|] == poly;
      DegenerateKeepsAll(poly, n, true, |poly|);
      DegenerateKeepsAll(poly, n, false, |poly|);
    }
  }

  /**
   * The two clips of any closed polygon share out its signed area, but for what the tolerance
   * takes; a partition of no direction puts every point on both sides, and the area counts twice.
   */
  lemma ClipsShareArea(poly: seq<Point>, n: Line)
    ensures SignedArea(ClipHalfPlane(poly, n, true)) + SignedArea(ClipHalfPlane(poly, n, false)) + ClipLoss(poly, n)
            == if HasDirection(n) then SignedArea(poly) else 2.0 * SignedArea(poly)
  {
    hide Area2, Clipped, Dedupe, Lost;
    PushedArea(poly, n);
    DedupeLoss(Origin, Clipped(poly, n, true, |poly|));
    DedupeLoss(Origin, Clipped(poly, n, false, |poly|));
  }

  /** So nothing is lost or gained exactly when the tolerance takes nothing, or what the second copy brought. */
  lemma ClipsShareAreaExactly(poly: seq<Point>, n: Line)
    ensures SignedArea(ClipHalfPlane(poly, n, true)) + SignedArea(ClipHalfPlane(poly, n, false)) == SignedArea(poly)
            <==> ClipLoss(poly, n) == if HasDirection(n) then 0.0 else SignedArea(poly)
  {
    hide SignedArea, ClipHalfPlane, ClipLoss;
    ClipsShareArea(poly, n);
  }

  /** A partition of no direction keeps a triangle of area 1 whole on both sides. */
  lemma DegenerateDoubles()
    ensures var a, b, c, n := Point(0.0, 0.0), Point(2.0, 0.0), Point(0.0, 1.0), Line(0.0, 0.0, 0.0, 0.0);
            && SignedArea([a, b, c]) == 1.0
            && SignedArea(ClipHalfPlane([a, b, c], n, true)) + SignedArea(ClipHalfPlane([a, b, c], n, false)) == 2.0
  {
    hide SignedArea, ClipHalfPlane, Path, Area2;
    var a, b, c, n := Point(0.0, 0.0), Point(2.0, 0.0), Point(0.0, 1.0), Line(0.0, 0.0, 0.0, 0.0);
    TriangleArea(a, b, c);
    KeptTwice([a, b, c], n);
  }

  lemma KeptTwice(poly: seq<Point>, n: Line)
    requires !HasDirection(n) && OnlyCoincident(poly)
    ensures SignedArea(ClipHalfPlane(poly, n, true)) + SignedArea(ClipHalfPlane(poly, n, false)) == 2.0 * SignedArea(poly)
  {
    hide SignedArea, ClipHalfPlane, Clipped, Lost, OnlyCoincident;
    ClipsShareArea(poly, n);
    DegenerateKeepsAll(poly, n, true, |poly|);
    DegenerateKeepsAll(poly, n, false, |poly|);
    assert poly[..|poly|] == poly;
    CoincidentLosesNothing(poly);
  }

  /** Between the lines of directions (32767, 1) and (0, 1), and the vertical at 500. */
  function Wedge(): seq<Point> {
    [Point(0.0, 0.0), Point(500.0, 500.0 / 32767.0), Point(500.0, 1.0)]
  }

  function NarrowLine(): Line {
    Line(0.0, 0.0, 32766.0, 1.0)
  }

  /** The tolerance is real: a partition nearly along an edge cuts off a sliver, which `dedupe` makes disappear. */
  lemma ClipCanLoseArea()
    ensures var pushed := Clipped(Wedge(), NarrowLine(), true, 3);
            && pushed == [Point(0.0, 0.0), Point(500.0, 500.0 / 32767.0), Point(500.0, 500.0 / 32766.0)]
            && SignedArea(pushed) > 0.0 && Lost(pushed) > 0.0
            && |ClipHalfPlane(Wedge(), NarrowLine(), true)| == 2 && SignedArea(ClipHalfPlane(Wedge(), NarrowLine(), true)) == 0.0
  {
    hide Dedupe, Cross, Lost, SignedArea, NarrowLine, Clipped, EdgeOut;
    var a, b, c := Point(0.0, 0.0), Point(500.0, 500.0 / 32767.0), Point(500.0, 1.0);
    var d := Point(500.0, 500.0 / 32766.0);
    SliverMeets(a, b, c, d);
    SliverPushed(NarrowLine(), a, b, c, d);
    SliverKept(a, b, d);
    SliverArea(a, b, d);
  }

  lemma SliverPushed(n: Line, a: Point, b: Point, c: Point, d: Point)
    requires EdgeOut(n, true, a, b) == [a] && EdgeOut(n, true, b, c) == [b, d] && EdgeOut(n, true, c, a) == []
    ensures Clipped([a, b, c], n, true, 3) == [a, b, d]
  {
    hide EdgeOut;
    var poly := [a, b, c];
    assert Clipped(poly, n, true, 0) == [];
    assert Clipped(poly, n, true, 1) == [a];
    assert Clipped(poly, n, true, 2) == [a, b, d];
    assert Clipped(poly, n, true, 3) == [a, b, d];
  }

  /** A triangle of positive area, merged into two points. */
  lemma SliverArea(a: Point, b: Point, d: Point)
    requires Dedupe([a, b, d]) == [a, b] && Cross(a, b, d) > 0.0
    ensures SignedArea([a, b, d]) > 0.0 && Lost([a, b, d]) > 0.0 && SignedArea([a, b]) == 0.0
  {
    hide Dedupe, Cross, Path, Lost;
    SmallArea(Origin, [a, b]);
    DedupeLoss(Origin, [a, b, d]);
    TriangleArea(a, b, d);
  }

  lemma SliverMeets(a: Point, b: Point, c: Point, d: Point)
    requires a == Point(0.0, 0.0) && b == Point(500.0, 500.0 / 32767.0) && c == Point(500.0, 1.0)
    requires d == Point(500.0, 500.0 / 32766.0)
    ensures EdgeOut(NarrowLine(), true, a, b) == [a] && EdgeOut(NarrowLine(), true, b, c) == [b, d]
    ensures EdgeOut(NarrowLine(), true, c, a) == []
  {
    hide Side, Along, NarrowLine;
    NarrowSide(a);
    NarrowSide(b);
    NarrowSide(c);
    SliverPoint(b, c, d);
    EdgeFromSides(NarrowLine(), b, c, 500.0 / 32767.0, -32266.0);
  }

  lemma NarrowSide(p: Point)
    ensures Side(NarrowLine(), p) == p.x - 32766.0 * p.y
  {
  }

  lemma EdgeFromSides(n: Line, b: Point, c: Point, sb: real, sc: real)
    requires Side(n, b) == sb > 0.0 && Side(n, c) == sc < 0.0
    ensures EdgeOut(n, true, b, c) == [b, Along(b, c, sb / (sb - sc))]
  {
    hide Side, Along;
  }

  lemma SliverPoint(b: Point, c: Point, d: Point)
    requires b == Point(500.0, 500.0 / 32767.0) && c == Point(500.0, 1.0) && d == Point(500.0, 500.0 / 32766.0)
    ensures var sb := 500.0 / 32767.0; Along(b, c, sb / (sb - -32266.0)) == d
  {
    var sb := 500.0 / 32767.0;
    assert sb / (sb - -32266.0) == 500.0 / 1057260522.0;
  }

  lemma SliverKept(a: Point, b: Point, d: Point)
    requires a == Point(0.0, 0.0) && b == Point(500.0, 500.0 / 32767.0) && d == Point(500.0, 500.0 / 32766.0)
    ensures Dedupe([a, b, d]) == [a, b] && Cross(a, b, d) > 0.0
  {
    var ps := [a, b, d];
    assert Kept(ps, 1) == Kept(ps, 0) + [a] == [a];
    assert Kept(ps, 2) == [a, b];
    assert Kept(ps, 3) == [a, b];
  }
}
