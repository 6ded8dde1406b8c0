/** How far the point under the dolly moves: along the whole polyline, across its joins, no farther
    than the arc, and so no farther in a frame than cruise speed allows. */
module RouteGlide {
  import opened Js
  import opened SpeedProfile
  import opened RouteGeometry
  import opened RouteFlight
  import opened RouteSafety

  /** Every segment is longer than a degenerate one. */
  ghost predicate Usable(cumM: seq<real>) {
    forall i :: 0 <= i < |cumM| - 1 ==> cumM[i + 1] - cumM[i] > DEGENERATE_SEGMENT_M
  }

  /** No farther apart than d. */
  predicate Close(a: Point, b: Point, d: real) {
    d >= 0.0 && DistanceSquared(a, b) <= Square(d)
  }

  // ---- the triangle inequality ---------------------------------------------

  function Dot(x: real, y: real, z: real, u: real, v: real, w: real): real {
    Times(x, u) + Times(y, v) + Times(z, w)
  }

  function Norm(x: real, y: real, z: real): real {
    Square(x) + Square(y) + Square(z)
  }

  lemma SquareOfTimes(d: real, e: real)
    ensures Square(Times(d, e)) == Times(Square(d), Square(e))
  {
  }

  lemma SquareOfSum(d: real, e: real)
    ensures Square(d + e) == Square(d) + Square(e) + 2.0 * Times(d, e)
    ensures Square(d - e) == Square(d) + Square(e) - 2.0 * Times(d, e)
  {
  }

  lemma SquareOfThree(p: real, q: real, r: real)
    ensures Square(p + q + r) == Square(p) + Square(q) + Square(r) + 2.0 * (Times(p, q) + Times(p, r) + Times(q, r))
  {
    SquareOfSum(p + q, r);
    SquareOfSum(p, q);
    TimesAdd(r, p, q);
    TimesSwap(r, p);
    TimesSwap(r, q);
    TimesSwap(r, p + q);
    hide Square, Times;
  }

  lemma Crossed(x: real, y: real, u: real, v: real)
    ensures Times(Times(x, v), Times(y, u)) == Times(Times(x, u), Times(y, v))
  {
  }

  lemma ThreeProducts(k: real, a: real, b: real, c: real)
    ensures Times(k, a + b + c) == Times(k, a) + Times(k, b) + Times(k, c)
  {
    TimesAdd(k, a + b, c);
    TimesAdd(k, a, b);
    hide Times;
  }

  lemma NineProducts(a: real, b: real, c: real, p: real, q: real, r: real)
    ensures Times(a + b + c, p + q + r) ==
      Times(a, p) + Times(a, q) + Times(a, r) + Times(b, p) + Times(b, q) + Times(b, r) + Times(c, p) + Times(c, q) + Times(c, r)
  {
    var k := p + q + r;
    TimesSwap(a + b + c, k);
    ThreeProducts(k, a, b, c);
    TimesSwap(k, a);
    TimesSwap(k, b);
    TimesSwap(k, c);
    ThreeProducts(a, p, q, r);
    ThreeProducts(b, p, q, r);
    ThreeProducts(c, p, q, r);
    hide Times;
  }

  lemma Lagrange(x: real, y: real, z: real, u: real, v: real, w: real)
    ensures Times(Norm(x, y, z), Norm(u, v, w)) - Square(Dot(x, y, z, u, v, w))
         == Square(Times(x, v) - Times(y, u)) + Square(Times(x, w) - Times(z, u)) + Square(Times(y, w) - Times(z, v))
  {
    hide Square, Times;
    NineProducts(Square(x), Square(y), Square(z), Square(u), Square(v), Square(w));
    SquareOfThree(Times(x, u), Times(y, v), Times(z, w));
    SquareOfSum(Times(x, v), Times(y, u));
    SquareOfSum(Times(x, w), Times(z, u));
    SquareOfSum(Times(y, w), Times(z, v));
    Crossed(x, y, u, v);
    Crossed(x, z, u, w);
    Crossed(y, z, v, w);
    SquareOfTimes(x, u);
    SquareOfTimes(x, v);
    SquareOfTimes(x, w);
    SquareOfTimes(y, u);
    SquareOfTimes(y, v);
    SquareOfTimes(y, w);
    SquareOfTimes(z, u);
    SquareOfTimes(z, v);
    SquareOfTimes(z, w);
  }

  lemma SquarePositive(d: real)
    ensures Square(d) >= 0.0
  {
    SquareNonNeg(d);
  }

  lemma SquareGap(a: real, b: real)
    ensures Square(b) - Square(a) == Times(b - a, b + a)
  {
  }

  lemma SquareGrows(a: real, b: real)
    requires 0.0 <= a < b
    ensures Square(a) < Square(b)
  {
    SquareGap(a, b);
    MulPos(b - a, b + a);
    hide Square;
  }

  lemma NormPositive(x: real, y: real, z: real)
    ensures Norm(x, y, z) >= 0.0
  {
    SquarePositive(x);
    SquarePositive(y);
    SquarePositive(z);
    hide Square;
  }

  lemma ProductBelow(m: real, n: real, p: real, q: real)
    requires 0.0 <= m <= p && 0.0 <= n <= q
    ensures Times(m, n) <= Times(p, q)
  {
    TimesMono(m, n, q);
    TimesMono(q, m, p);
    TimesSwap(m, q);
    TimesSwap(p, q);
    hide Times;
  }

  /** Cauchy and Schwarz. */
  lemma DotBelow(x: real, y: real, z: real, u: real, v: real, w: real, d: real, e: real)
    requires d >= 0.0 && e >= 0.0 && Norm(x, y, z) <= Square(d) && Norm(u, v, w) <= Square(e)
    ensures Dot(x, y, z, u, v, w) <= Times(d, e)
  {
    hide Dot, Norm, Square, Times;
    Lagrange(x, y, z, u, v, w);
    NormPositive(x, y, z);
    NormPositive(u, v, w);
    ProductBelow(Norm(x, y, z), Norm(u, v, w), Square(d), Square(e));
    SquareOfTimes(d, e);
    SquarePositive(Times(x, v) - Times(y, u));
    SquarePositive(Times(x, w) - Times(z, u));
    SquarePositive(Times(y, w) - Times(z, v));
    TimesNonNeg(d, e);
    if Dot(x, y, z, u, v, w) > Times(d, e) {
      SquareGrows(Times(d, e), Dot(x, y, z, u, v, w));
    }
  }

  lemma NormOfSum(x: real, y: real, z: real, u: real, v: real, w: real)
    ensures Norm(x + u, y + v, z + w) == Norm(x, y, z) + Norm(u, v, w) + 2.0 * Dot(x, y, z, u, v, w)
  {
    SquareOfSum(x, u);
    SquareOfSum(y, v);
    SquareOfSum(z, w);
    hide Square, Times;
  }

  lemma CloseThrough(a: Point, b: Point, c: Point, d: real, e: real)
    requires Close(a, b, d) && Close(b, c, e)
    ensures Close(a, c, d + e)
  {
    var x, y, z, u, v, w := b.x - a.x, b.y - a.y, b.z - a.z, c.x - b.x, c.y - b.y, c.z - b.z;
    assert c.x - a.x == x + u && c.y - a.y == y + v && c.z - a.z == z + w;
    hide Dot, Square, Times;
    DotBelow(x, y, z, u, v, w, d, e);
    NormOfSum(x, y, z, u, v, w);
    SquareOfSum(d, e);
  }

  lemma CloseWider(a: Point, b: Point, d: real, e: real)
    requires Close(a, b, d) && d <= e
    ensures Close(a, b, e)
  {
    if d < e {
      SquareGrows(d, e);
    }
    hide Square;
  }

  lemma SamePlace(a: Point)
    ensures Close(a, a, 0.0)
  {
  }

  // ---- the whole route -----------------------------------------------------

  /** The point of the route at an arc on segment i, its ends included. */
  function OnSegment(pts: seq<Point>, cumM: seq<real>, i: nat, s: real): Point
    requires |pts| == |cumM| && i + 1 < |cumM|
  {
    Lerp(pts[i], pts[i + 1], if Degenerate(cumM, i) then 0.0 else (s - cumM[i]) / (cumM[i + 1] - cumM[i]))
  }

  predicate Degenerate(cumM: seq<real>, i: nat)
    requires i + 1 < |cumM|
  {
    cumM[i + 1] - cumM[i] <= DEGENERATE_SEGMENT_M
  }

  /** The arc where the dolly stands for an arc s on segment i: a degenerate segment is not moved
      along. */
  function Stands(cumM: seq<real>, i: nat, s: real): real
    requires i + 1 < |cumM|
  {
    if Degenerate(cumM, i) then cumM[i] else s
  }

  ghost predicate OnRoute(pts: seq<Point>, cumM: seq<real>, i: nat, s: real) {
    IsPath(pts, cumM) && Measured(pts, cumM) && i + 1 < |cumM| && cumM[i] <= s <= cumM[i + 1]
  }

  lemma LerpEnds(a: Point, b: Point)
    ensures Lerp(a, b, 0.0) == a && Lerp(a, b, 1.0) == b
  {
  }

  lemma OnEnds(pts: seq<Point>, cumM: seq<real>, i: nat)
    requires |pts| == |cumM| && i + 1 < |cumM|
    ensures OnSegment(pts, cumM, i, cumM[i]) == pts[i]
    ensures !Degenerate(cumM, i) ==> OnSegment(pts, cumM, i, cumM[i + 1]) == pts[i + 1]
  {
    LerpEnds(pts[i], pts[i + 1]);
    if !Degenerate(cumM, i) {
      DivSelf(cumM[i + 1] - cumM[i]);
      NothingOver(cumM[i + 1] - cumM[i]);
    }
    hide Lerp;
  }

  lemma GlidesOnSegment(pts: seq<Point>, cumM: seq<real>, i: nat, s: real, s': real)
    requires OnRoute(pts, cumM, i, s) && OnRoute(pts, cumM, i, s') && s <= s'
    ensures Close(OnSegment(pts, cumM, i, s), OnSegment(pts, cumM, i, s'), Stands(cumM, i, s') - Stands(cumM, i, s))
  {
    assert DistanceSquared(pts[i], pts[i + 1]) == Square(cumM[i + 1] - cumM[i]);
    hide Lerp, DistanceSquared, Square;
    if Degenerate(cumM, i) {
      SamePlace(OnSegment(pts, cumM, i, s));
    } else {
      LerpIsometry(pts[i], pts[i + 1], s - cumM[i], s' - cumM[i], cumM[i + 1] - cumM[i]);
      assert (s' - cumM[i]) - (s - cumM[i]) == s' - s;
    }
  }

  lemma GlidesToEnd(pts: seq<Point>, cumM: seq<real>, i: nat, s: real)
    requires OnRoute(pts, cumM, i, s)
    ensures Close(OnSegment(pts, cumM, i, s), pts[i + 1], cumM[i + 1] - Stands(cumM, i, s))
  {
    hide OnSegment, DistanceSquared, Square;
    OnEnds(pts, cumM, i);
    if Degenerate(cumM, i) {
      GlidesOnSegment(pts, cumM, i, cumM[i], s);
      StandsStill(pts, cumM, i, s);
      assert DistanceSquared(pts[i], pts[i + 1]) == Square(cumM[i + 1] - cumM[i]);
    } else {
      GlidesOnSegment(pts, cumM, i, s, cumM[i + 1]);
    }
  }

  lemma StandsStill(pts: seq<Point>, cumM: seq<real>, i: nat, s: real)
    requires |pts| == |cumM| && i + 1 < |cumM| && Degenerate(cumM, i)
    ensures OnSegment(pts, cumM, i, s) == pts[i]
  {
    LerpEnds(pts[i], pts[i + 1]);
    hide Lerp;
  }

  /** From vertex to vertex. */
  lemma {:induction false} GlidesOverVertices(pts: seq<Point>, cumM: seq<real>, i: nat, j: nat)
    requires IsPath(pts, cumM) && Measured(pts, cumM) && i <= j < |cumM|
    ensures Close(pts[i], pts[j], cumM[j] - cumM[i])
    decreases j - i
  {
    hide DistanceSquared, Square;
    if i == j {
      SamePlace(pts[i]);
    } else {
      assert DistanceSquared(pts[i], pts[i + 1]) == Square(cumM[i + 1] - cumM[i]);
      GlidesOverVertices(pts, cumM, i + 1, j);
      CloseThrough(pts[i], pts[i + 1], pts[j], cumM[i + 1] - cumM[i], cumM[j] - cumM[i + 1]);
    }
  }

  lemma GlidesAcross(pts: seq<Point>, cumM: seq<real>, i: nat, j: nat, s: real, s': real)
    requires OnRoute(pts, cumM, i, s) && OnRoute(pts, cumM, j, s') && s <= s' && i <= j
    ensures Close(OnSegment(pts, cumM, i, s), OnSegment(pts, cumM, j, s'), Stands(cumM, j, s') - Stands(cumM, i, s))
  {
    hide Close, OnSegment, Measured;
    if i == j {
      GlidesOnSegment(pts, cumM, i, s, s');
    } else {
      var p, p' := OnSegment(pts, cumM, i, s), OnSegment(pts, cumM, j, s');
      GlidesToEnd(pts, cumM, i, s);
      GlidesOverVertices(pts, cumM, i + 1, j);
      GlidesOnSegment(pts, cumM, j, cumM[j], s');
      OnEnds(pts, cumM, j);
      CloseThrough(p, pts[i + 1], pts[j], cumM[i + 1] - Stands(cumM, i, s), cumM[j] - cumM[i + 1]);
      CloseThrough(p, pts[j], p', cumM[j] - Stands(cumM, i, s), Stands(cumM, j, s') - cumM[j]);
    }
  }

  /** The arc of the route nearest to s, and its segment. */
  lemma SegmentOf(pts: seq<Point>, cumM: seq<real>, s: real) returns (i: nat, clamped: real)
    requires IsPath(pts, cumM) && Measured(pts, cumM)
    ensures clamped == Min(cumM[|cumM| - 1], Max(0.0, s)) && i == LastAtMost(cumM, clamped, |cumM| - 2)
    ensures OnRoute(pts, cumM, i, clamped) && PointAt(pts, cumM, s) == OnSegment(pts, cumM, i, clamped)
  {
    hide Lerp, Measured;
    clamped := Min(cumM[|cumM| - 1], Max(0.0, s));
    i := LastAtMost(cumM, clamped, |cumM| - 2);
    assert cumM[0] <= cumM[|cumM| - 1];
    if !Degenerate(cumM, i) {
      FractionRange(clamped - cumM[i], cumM[i + 1] - cumM[i]);
    }
  }

  /** Along the whole route, across every join, the point moves no farther than the arc does; where
      segments are degenerate, by no more than such a segment farther. */
  lemma GlidesAlong(pts: seq<Point>, cumM: seq<real>, s: real, s': real)
    requires IsPath(pts, cumM) && Measured(pts, cumM) && s <= s'
    ensures Close(PointAt(pts, cumM, s), PointAt(pts, cumM, s'), s' - s + DEGENERATE_SEGMENT_M)
    ensures Usable(cumM) ==> Close(PointAt(pts, cumM, s), PointAt(pts, cumM, s'), s' - s)
  {
    hide PointAt, OnSegment, Close, Measured;
    var i, c := SegmentOf(pts, cumM, s);
    var j, c' := SegmentOf(pts, cumM, s');
    GlidesAcross(pts, cumM, i, j, c, c');
    var p, p', d := PointAt(pts, cumM, s), PointAt(pts, cumM, s'), Stands(cumM, j, c') - Stands(cumM, i, c);
    CloseWider(p, p', d, s' - s + DEGENERATE_SEGMENT_M);
    if Usable(cumM) {
      CloseWider(p, p', d, s' - s);
    }
  }

  // ---- one frame -----------------------------------------------------------

  /** In one frame the point under the dolly moves no farther than cruise speed for the time of the
      frame (and a degenerate segment, where there are any): it never jumps, at a corner or anywhere
      else. */
  lemma FrameGlides(pts: seq<Point>, cumM: seq<real>, f: Flight, plan: Plan, cells: seq<Cell>, input: Inputs)
    requires IsPath(pts, cumM) && Measured(pts, cumM)
    requires PlanOk(plan) && Inv(f, plan) && input.Valid() && Advance(f, plan, cells, input).1.Pose?
    ensures var p, p' := PointAt(pts, cumM, f.traveled), PointAt(pts, cumM, Advance(f, plan, cells, input).0.traveled);
      var reach := GroundSpeedMps(plan, 1.0) * input.Step();
      Close(p, p', reach + DEGENERATE_SEGMENT_M) && (Usable(cumM) ==> Close(p, p', reach))
  {
    FrameTravel(f, plan, cells, input);
    var f' := Advance(f, plan, cells, input).0;
    hide Advance, Inv, PointAt, Close, Measured, GroundSpeedMps, PlanOk;
    GlidesAlong(pts, cumM, f.traveled, f'.traveled);
    var p, p', reach := PointAt(pts, cumM, f.traveled), PointAt(pts, cumM, f'.traveled), GroundSpeedMps(plan, 1.0) * input.Step();
    CloseWider(p, p', f'.traveled - f.traveled + DEGENERATE_SEGMENT_M, reach + DEGENERATE_SEGMENT_M);
    if Usable(cumM) {
      CloseWider(p, p', f'.traveled - f.traveled, reach);
    }
  }
}
