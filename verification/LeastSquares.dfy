/** `fit` of client/src/prove/planner.ts over exact reals: a line through measured points. */
module LeastSquares {
  import opened Wrappers

  datatype Point = Point(x: real, y: real)

  datatype Line = Line(slope: real, intercept: real)

  function SumX(ps: seq<Point>): real {
    if ps == [] then 0.0 else SumX(ps[..|ps| - 1]) + ps[|ps| - 1].x
  }

  function SumY(ps: seq<Point>): real {
    if ps == [] then 0.0 else SumY(ps[..|ps| - 1]) + ps[|ps| - 1].y
  }

  function Times(a: real, b: real): real {
    a * b
  }

  function Squared(d: real): real {
    d * d
  }

  function Sxy(ps: seq<Point>, mx: real, my: real): real {
    if ps == [] then 0.0 else Sxy(ps[..|ps| - 1], mx, my) + Times(ps[|ps| - 1].x - mx, ps[|ps| - 1].y - my)
  }

  function Sxx(ps: seq<Point>, mx: real): real {
    if ps == [] then 0.0 else Sxx(ps[..|ps| - 1], mx) + Squared(ps[|ps| - 1].x - mx)
  }

  function Origin(p: Point): Option<Line> {
    if p.x <= 0.0 || p.y <= 0.0 then None else Some(Line(p.y / p.x, 0.0))
  }

  function MeanX(ps: seq<Point>): real
    requires ps != []
  {
    SumX(ps) / (|ps| as real)
  }

  function MeanY(ps: seq<Point>): real
    requires ps != []
  {
    SumY(ps) / (|ps| as real)
  }

  function FitLine(ps: seq<Point>): Option<Line> {
    if ps == [] then None
    else if |ps| == 1 then Origin(ps[0])
    else
      var num, den := Sxy(ps, MeanX(ps), MeanY(ps)), Sxx(ps, MeanX(ps));
      if den == 0.0 || num <= 0.0 then Origin(ps[|ps| - 1])
      else Some(LineAt(num / den, MeanX(ps), MeanY(ps)))
  }

  /** The line of that slope through the centre (mx, my). */
  function LineAt(slope: real, mx: real, my: real): Line {
    Line(slope, my - slope * mx)
  }

  method Fit(ps: seq<Point>) returns (r: Option<Line>)
    ensures r == FitLine(ps)
  {
    if |ps| == 0 { return None; }
    if |ps| == 1 { return Origin(ps[0]); }
    var meanX, meanY := MeanX(ps), MeanY(ps);
    var num, den := Deviations(ps, meanX, meanY);
    if den == 0.0 || num <= 0.0 { return Origin(ps[|ps| - 1]); }
    var slope := num / den;
    return Some(LineAt(slope, meanX, meanY));
  }

  /** The accumulation loop of `fit`. */
  method Deviations(ps: seq<Point>, meanX: real, meanY: real) returns (num: real, den: real)
    ensures num == Sxy(ps, meanX, meanY) && den == Sxx(ps, meanX)
  {
    num, den := 0.0, 0.0;
    for i := 0 to |ps|
      invariant num == Sxy(ps[..i], meanX, meanY) && den == Sxx(ps[..i], meanX)
    {
      hide Times, Squared;
      assert ps[..i + 1][..i] == ps[..i];
      num := num + Times(ps[i].x - meanX, ps[i].y - meanY);
      den := den + Squared(ps[i].x - meanX);
    }
    assert ps[..|ps|] == ps;
  }

  lemma {:induction false} SxxSign(ps: seq<Point>, mx: real)
    ensures Sxx(ps, mx) >= 0.0
    ensures Sxx(ps, mx) == 0.0 ==> forall p :: p in ps ==> p.x == mx
  {
    hide Squared;
    if ps != [] {
      var rest, last := ps[..|ps| - 1], ps[|ps| - 1];
      SxxSign(rest, mx);
      SquareSign(last.x - mx);
      assert ps == rest + [last];
    }
  }

  lemma SquareSign(d: real)
    ensures if d == 0.0 then Squared(d) == 0.0 else Squared(d) > 0.0
  {
    NegatedSquare(d);
    hide Times, Squared;
    if d < 0.0 {
      ProductPositive(-d, -d);
    } else if d > 0.0 {
      ProductPositive(d, d);
    } else {
      ZeroSquared();
    }
  }

  lemma ProductPositive(a: real, b: real)
    requires a > 0.0 && b > 0.0
    ensures Times(a, b) > 0.0
  {
  }

  lemma ZeroSquared()
    ensures Squared(0.0) == 0.0
  {
  }

  lemma NegatedSquare(d: real)
    ensures Times(-d, -d) == Squared(d) == Times(d, d)
  {
  }

  lemma DivPositive(a: real, b: real)
    requires a > 0.0 && b > 0.0
    ensures a / b > 0.0 && a / b * b == a
  {
  }

  /** A fit always slopes upwards, so neither proposal divides by zero. */
  lemma FitSlopesUp(ps: seq<Point>)
    ensures FitLine(ps).Some? ==> FitLine(ps).value.slope > 0.0
  {
    if ps != [] {
      var last := ps[|ps| - 1];
      if last.x > 0.0 && last.y > 0.0 {
        DivPositive(last.y, last.x);
      }
      var num, den := Sxy(ps, MeanX(ps), MeanY(ps)), Sxx(ps, MeanX(ps));
      SxxSign(ps, MeanX(ps));
      if den != 0.0 && num > 0.0 {
        DivPositive(num, den);
      }
    }
  }

  // The fit is the least-squares line.

  /** Sum of squared vertical distances from the line. */
  function Residual(ps: seq<Point>, line: Line): real {
    if ps == [] then 0.0
    else Residual(ps[..|ps| - 1], line)
         + Squared(Miss(ps[|ps| - 1], line))
  }

  /** Vertical distance of a point from the line. */
  function Miss(p: Point, line: Line): real {
    p.y - line.slope * p.x - line.intercept
  }

  function Syy(ps: seq<Point>, my: real): real {
    if ps == [] then 0.0 else Syy(ps[..|ps| - 1], my) + Squared(ps[|ps| - 1].y - my)
  }

  /** A residual in terms of the moments about a centre where the line is `gap` too low. */
  function Moments(yy: real, xy: real, xx: real, n: real, dy: real, dx: real, slope: real, gap: real): real {
    yy - 2.0 * slope * xy + slope * slope * xx + n * gap * gap + 2.0 * gap * (dy - slope * dx)
  }

  lemma MomentsAdd(yy: real, xy: real, xx: real, n: real, dy: real, dx: real,
                   yy1: real, xy1: real, xx1: real, n1: real, dy1: real, dx1: real, slope: real, gap: real)
    ensures Moments(yy + yy1, xy + xy1, xx + xx1, n + n1, dy + dy1, dx + dx1, slope, gap)
         == Moments(yy, xy, xx, n, dy, dx, slope, gap) + Moments(yy1, xy1, xx1, n1, dy1, dx1, slope, gap)
  {
    var s2, g2 := slope * slope, gap * gap;
    assert 2.0 * slope * (xy + xy1) == 2.0 * slope * xy + 2.0 * slope * xy1;
    assert s2 * (xx + xx1) == s2 * xx + s2 * xx1;
    assert (n + n1) * gap * gap == n * gap * gap + n1 * gap * gap;
    assert 2.0 * gap * ((dy + dy1) - slope * (dx + dx1)) == 2.0 * gap * (dy - slope * dx) + 2.0 * gap * (dy1 - slope * dx1);
  }

  lemma PointMoments(p: Point, line: Line, mx: real, my: real)
    ensures Squared(Miss(p, line))
         == Moments(Squared(p.y - my), Times(p.x - mx, p.y - my), Squared(p.x - mx), 1.0, p.y - my, p.x - mx,
                    line.slope, Gap(line, mx, my))
  {
    var u, v, a, e := p.x - mx, p.y - my, line.slope, my - line.slope * mx - line.intercept;
    assert p.y - a * p.x - line.intercept == v - a * u + e;
    var t := a * u;
    assert (v - t + e) * (v - t + e) == v * v - 2.0 * (v * t) + t * t + e * e + 2.0 * e * (v - t);
    assert v * t == a * (u * v) && t * t == a * a * (u * u);
  }

  /** Height of the centre over the line. */
  function Gap(line: Line, mx: real, my: real): real {
    my - line.slope * mx - line.intercept
  }

  /** How far a sum of `n` terms is from `n` times the centre. */
  function Excess(sum: real, n: nat, centre: real): real {
    sum - (n as real) * centre
  }

  lemma {:induction false} ResidualMoments(ps: seq<Point>, line: Line, mx: real, my: real)
    ensures Residual(ps, line)
         == Moments(Syy(ps, my), Sxy(ps, mx, my), Sxx(ps, mx), |ps| as real, Excess(SumY(ps), |ps|, my),
                    Excess(SumX(ps), |ps|, mx), line.slope, Gap(line, mx, my))
  {
    if ps == [] {
      assert Moments(0.0, 0.0, 0.0, 0.0, 0.0, 0.0, line.slope, Gap(line, mx, my)) == 0.0;
    } else {
      var rest, p, n := ps[..|ps| - 1], ps[|ps| - 1], |ps| - 1;
      ResidualMoments(rest, line, mx, my);
      PointMoments(p, line, mx, my);
      hide Gap, Miss;
      MomentsAdd(Syy(rest, my), Sxy(rest, mx, my), Sxx(rest, mx), n as real, Excess(SumY(rest), n, my), Excess(SumX(rest), n, mx),
                 Squared(p.y - my), Times(p.x - mx, p.y - my), Squared(p.x - mx), 1.0, p.y - my, p.x - mx,
                 line.slope, Gap(line, mx, my));
      OneMore(n, my, SumY(rest), p.y);
      OneMore(n, mx, SumX(rest), p.x);
      hide Moments, Squared, Times, Excess;
      MomentSteps(ps, mx, my);
      ResidualStep(ps, line);
      hide Sxx, Sxy, Syy, SumX, SumY, Residual;
    }
  }

  lemma MomentSteps(ps: seq<Point>, mx: real, my: real)
    requires ps != []
    ensures var rest, p := ps[..|ps| - 1], ps[|ps| - 1];
            && Syy(ps, my) == Syy(rest, my) + Squared(p.y - my)
            && Sxy(ps, mx, my) == Sxy(rest, mx, my) + Times(p.x - mx, p.y - my)
            && Sxx(ps, mx) == Sxx(rest, mx) + Squared(p.x - mx)
            && SumX(ps) == SumX(rest) + p.x && SumY(ps) == SumY(rest) + p.y
            && |ps| as real == ((|ps| - 1) as real) + 1.0
  {
  }

  lemma ResidualStep(ps: seq<Point>, line: Line)
    requires ps != []
    ensures var p := ps[|ps| - 1];
            Residual(ps, line) == Residual(ps[..|ps| - 1], line) + Squared(Miss(p, line))
  {
  }

  lemma OneMore(n: nat, m: real, sum: real, x: real)
    ensures Excess(sum + x, n + 1, m) == Excess(sum, n, m) + (x - m)
  {
    assert ((n as real) + 1.0) * m == (n as real) * m + m;
  }

  lemma MeanIsCentre(sum: real, n: nat)
    requires n > 0
    ensures Excess(sum, n, sum / (n as real)) == 0.0
  {
  }

  /** About the means only two moments are left, and the gap costs a square. */
  lemma MomentsAtMean(yy: real, xy: real, xx: real, n: nat, slope: real, gap: real)
    ensures Moments(yy, xy, xx, n as real, 0.0, 0.0, slope, gap) >= Moments(yy, xy, xx, n as real, 0.0, 0.0, slope, 0.0)
  {
    SquareSign(gap);
    assert (n as real) * gap * gap == (n as real) * Squared(gap);
    assert (n as real) * Squared(gap) >= 0.0;
    assert 2.0 * gap * (0.0 - slope * 0.0) == 0.0;
  }

  lemma CompleteSquare(yy: real, xy: real, xx: real, n: nat, best: real, other: real)
    requires xx > 0.0 && best * xx == xy
    ensures Moments(yy, xy, xx, n as real, 0.0, 0.0, best, 0.0) <= Moments(yy, xy, xx, n as real, 0.0, 0.0, other, 0.0)
  {
    var d := other - best;
    SquareSign(d);
    assert xx * Squared(d) >= 0.0;
    assert other * other * xx - 2.0 * other * xy == best * best * xx - 2.0 * best * xy + xx * (d * d) by {
      assert other == best + d;
      assert other * other * xx == best * best * xx + 2.0 * d * (best * xx) + xx * (d * d);
    }
  }

  /** No line has a smaller residual than the one fitted to two or more increasing points. */
  lemma FitIsLeastSquares(ps: seq<Point>, other: Line)
    requires |ps| >= 2 && Sxx(ps, MeanX(ps)) != 0.0 && Sxy(ps, MeanX(ps), MeanY(ps)) > 0.0
    ensures FitLine(ps).Some? && Residual(ps, FitLine(ps).value) <= Residual(ps, other)
  {
    var mx, my := MeanX(ps), MeanY(ps);
    var best := FitLine(ps).value;
    ResidualMoments(ps, best, mx, my);
    ResidualMoments(ps, other, mx, my);
    MeanIsCentre(SumX(ps), |ps|);
    MeanIsCentre(SumY(ps), |ps|);
    SxxSign(ps, mx);
    hide MeanX, MeanY, Moments, Excess, Sxx, Sxy, Syy, SumX, SumY, Residual;
    DivPositive(Sxy(ps, mx, my), Sxx(ps, mx));
    CompleteSquare(Syy(ps, my), Sxy(ps, mx, my), Sxx(ps, mx), |ps|, best.slope, other.slope);
    MomentsAtMean(Syy(ps, my), Sxy(ps, mx, my), Sxx(ps, mx), |ps|, other.slope, Gap(other, mx, my));
    assert Gap(best, mx, my) == 0.0;
  }

  // Points on a line.

  predicate OnLine(ps: seq<Point>, m: real, c: real) {
    forall i :: 0 <= i < |ps| ==> ps[i].y == m * ps[i].x + c
  }

  predicate TwoLengths(ps: seq<Point>) {
    exists i, j :: 0 <= i < j < |ps| && ps[i].x != ps[j].x
  }

  lemma {:induction false} SumsOnLine(ps: seq<Point>, m: real, c: real)
    requires OnLine(ps, m, c)
    ensures SumY(ps) == m * SumX(ps) + (|ps| as real) * c
  {
    if ps != [] {
      var rest, p, n := ps[..|ps| - 1], ps[|ps| - 1], (|ps| - 1) as real;
      SumsOnLine(rest, m, c);
      Distribute(m, SumX(rest), p.x);
      Distribute(c, n, 1.0);
    }
  }

  lemma Distribute(m: real, a: real, b: real)
    ensures m * (a + b) == m * a + m * b
  {
  }

  lemma PointOnLine(p: Point, m: real, c: real, mx: real, my: real)
    requires p.y == m * p.x + c && my == m * mx + c
    ensures Times(p.x - mx, p.y - my) == m * Squared(p.x - mx)
  {
    var u := p.x - mx;
    assert p.y - my == m * u;
    assert u * (m * u) == m * (u * u);
  }

  lemma {:induction false} SxyOnLine(ps: seq<Point>, m: real, c: real, mx: real, my: real)
    requires OnLine(ps, m, c) && my == m * mx + c
    ensures Sxy(ps, mx, my) == m * Sxx(ps, mx)
  {
    hide Times, Squared;
    if ps != [] {
      var rest, p := ps[..|ps| - 1], ps[|ps| - 1];
      SxyOnLine(rest, m, c, mx, my);
      PointOnLine(p, m, c, mx, my);
      Distribute(m, Sxx(rest, mx), Squared(p.x - mx));
    }
  }

  lemma MeanOnLine(sx: real, sy: real, n: real, m: real, c: real)
    requires n > 0.0 && sy == m * sx + n * c
    ensures sy / n == m * (sx / n) + c
  {
    var q := sx / n;
    assert q * n == sx;
    assert m * sx == (m * q) * n;
    assert sy == (m * q + c) * n;
  }

  lemma SlopeBack(m: real, den: real, num: real)
    requires m > 0.0 && den > 0.0 && num == m * den
    ensures num > 0.0 && num / den == m
  {
  }

  /** Exact measurements of two lengths give back the line itself. */
  lemma FitRecoversLine(ps: seq<Point>, m: real, c: real)
    requires OnLine(ps, m, c) && m > 0.0 && TwoLengths(ps)
    ensures FitLine(ps) == Some(Line(m, c))
  {
    hide MeanX, MeanY, Sxx, Sxy, OnLine, FitLine;
    MeansOnLine(ps, m, c);
    SlopeOnLine(ps, m, c);
    NotAllAtMean(ps, MeanX(ps));
    FitByMoments(ps);
    LineBack(m, c, MeanX(ps), MeanY(ps));
  }

  lemma LineBack(m: real, c: real, mx: real, my: real)
    requires my == m * mx + c
    ensures LineAt(m, mx, my) == Line(m, c)
  {
  }

  /** The moments of points on a line have its slope as their quotient. */
  lemma SlopeOnLine(ps: seq<Point>, m: real, c: real)
    requires OnLine(ps, m, c) && m > 0.0 && TwoLengths(ps)
    ensures var num, den := Sxy(ps, MeanX(ps), MeanY(ps)), Sxx(ps, MeanX(ps));
            den > 0.0 && num > 0.0 && num / den == m
  {
    hide MeanX, MeanY, Sxx, Sxy;
    var mx, my := MeanX(ps), MeanY(ps);
    MeansOnLine(ps, m, c);
    SxyOnLine(ps, m, c, mx, my);
    SxxSign(ps, mx);
    NotAllAtMean(ps, mx);
    hide OnLine, TwoLengths;
    SlopeBack(m, Sxx(ps, mx), Sxy(ps, mx, my));
  }

  lemma NotAllAtMean(ps: seq<Point>, mx: real)
    requires TwoLengths(ps)
    ensures |ps| >= 2 && exists p :: p in ps && p.x != mx
  {
    var i, j :| 0 <= i < j < |ps| && ps[i].x != ps[j].x;
    assert ps[i] in ps && ps[j] in ps;
  }

  /** The regular case of the fit. */
  lemma FitByMoments(ps: seq<Point>)
    requires |ps| >= 2 && Sxx(ps, MeanX(ps)) > 0.0 && Sxy(ps, MeanX(ps), MeanY(ps)) > 0.0
    ensures FitLine(ps) == Some(LineAt(Sxy(ps, MeanX(ps), MeanY(ps)) / Sxx(ps, MeanX(ps)), MeanX(ps), MeanY(ps)))
  {
    hide Sxx, Sxy, MeanX, MeanY;
  }

  lemma MeansOnLine(ps: seq<Point>, m: real, c: real)
    requires OnLine(ps, m, c) && ps != []
    ensures MeanY(ps) == m * MeanX(ps) + c
  {
    SumsOnLine(ps, m, c);
    MeanOnLine(SumX(ps), SumY(ps), |ps| as real, m, c);
  }
}
