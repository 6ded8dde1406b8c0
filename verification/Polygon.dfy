/** The even-odd test (`pointInPolygon`, locations.js): a ray to the east, counted edge by edge. */
module Polygon {
  import opened Js

  datatype Point = Point(lat: real, lon: real)

  const EPSILON := 0.0000000000000002220446049250313

  predicate Straddles(p: Point, a: Point, b: Point) {
    (a.lat > p.lat) != (b.lat > p.lat)
  }

  /** Where the edge's line meets the point's parallel, as the loop computes it. */
  function CrossingLon(p: Point, a: Point, b: Point): real {
    var rise := if b.lat - a.lat != 0.0 then b.lat - a.lat else EPSILON;
    ((b.lon - a.lon) * (p.lat - a.lat)) / rise + a.lon
  }

  predicate Crosses(p: Point, a: Point, b: Point) {
    Straddles(p, a, b) && p.lon < CrossingLon(p, a, b)
  }

  /** Whether the ray crosses an odd number of the path's edges. */
  predicate Along(p: Point, path: seq<Point>) {
    |path| >= 2 && (Crosses(p, path[1], path[0]) != Along(p, path[1..]))
  }

  /** Whether it crosses an odd number of the ring's: the path closed by its first edge. */
  predicate Inside(p: Point, ring: seq<Point>) {
    ring != [] && Along(p, [ring[|ring| - 1]] + ring)
  }

  // ---- one edge ------------------------------------------------------------

  lemma FlipQuotient(d: real, t: real, h: real)
    requires h != 0.0
    ensures ((-d) * (t - h)) / (-h) == (d * t) / h - d
  {
    assert ((-d) * (t - h)) == -(d * t) + d * h;
    assert (-(d * t) + d * h) / (-h) == (d * t) / h - d by {
      QuotientOfSum(d * t, d, h);
    }
  }

  lemma QuotientOfSum(x: real, d: real, h: real)
    requires h != 0.0
    ensures (-x + d * h) / (-h) == x / h - d
  {
    var q := x / h;
    assert q * h == x;
    assert (-x + d * h) == (q - d) * (-h);
  }

  lemma CrossingAt(p: Point, a: Point, b: Point, d: real, t: real, h: real)
    requires h != 0.0 && d == b.lon - a.lon && t == p.lat - a.lat && h == b.lat - a.lat
    ensures CrossingLon(p, a, b) == (d * t) / h + a.lon
  {
  }

  lemma CrossingFlips(p: Point, a: Point, b: Point)
    requires Straddles(p, a, b)
    ensures b.lat - a.lat != 0.0 && CrossingLon(p, a, b) == CrossingLon(p, b, a)
  {
    var d, t, h := b.lon - a.lon, p.lat - a.lat, b.lat - a.lat;
    CrossingAt(p, a, b, d, t, h);
    CrossingAt(p, b, a, -d, t - h, -h);
    FlipQuotient(d, t, h);
    hide CrossingLon;
  }

  /** An edge is crossed whichever way it is walked, and the guard against a zero rise is never
      needed: an edge that straddles has one. */
  lemma CrossingSymmetric(p: Point, a: Point, b: Point)
    ensures Crosses(p, a, b) == Crosses(p, b, a)
    ensures !Crosses(p, a, a)
    ensures Straddles(p, a, b) ==> b.lat - a.lat != 0.0 && CrossingLon(p, a, b) == CrossingLon(p, b, a)
  {
    hide CrossingLon;
    if Straddles(p, a, b) {
      CrossingFlips(p, a, b);
    }
  }

  // ---- paths ---------------------------------------------------------------

  function Reversed(s: seq<Point>): (r: seq<Point>)
    ensures |r| == |s|
  {
    if s == [] then [] else Reversed(s[1..]) + [s[0]]
  }

  lemma {:induction false} AlongSplits(p: Point, xs: seq<Point>, m: Point, ys: seq<Point>)
    ensures Along(p, xs + [m] + ys) == (Along(p, xs + [m]) != Along(p, [m] + ys))
  {
    if xs == [] {
      assert xs + [m] + ys == [m] + ys && xs + [m] == [m];
    } else {
      AlongSplits(p, xs[1..], m, ys);
      assert (xs + [m] + ys)[1..] == xs[1..] + [m] + ys;
      assert (xs + [m])[1..] == xs[1..] + [m];
      assert (xs + [m] + ys)[1] == (xs + [m])[1];
    }
  }

  lemma {:induction false} AlongReversed(p: Point, path: seq<Point>)
    ensures Along(p, Reversed(path)) == Along(p, path)
  {
    if |path| >= 2 {
      var rest := path[1..];
      AlongReversed(p, rest);
      CrossingSymmetric(p, path[0], path[1]);
      var front := Reversed(rest[1..]);
      assert Reversed(path) == front + [path[1]] + [path[0]];
      AlongSplits(p, front, path[1], [path[0]]);
      assert Along(p, [path[1], path[0]]) == Crosses(p, path[0], path[1]) by {
        assert [path[1], path[0]][1..] == [path[0]];
      }
      assert [path[1]] + [path[0]] == [path[1], path[0]];
    } else if |path| == 1 {
      assert Reversed(path) == path;
    }
  }

  lemma LastOfReversed(s: seq<Point>)
    requires s != []
    ensures Reversed(s)[|s| - 1] == s[0] && Reversed(s)[0] == s[|s| - 1]
  {
    if |s| > 1 {
      LastOfReversed(s[1..]);
    }
  }

  lemma AlongPair(p: Point, a: Point, b: Point)
    ensures Along(p, [a, b]) == Crosses(p, a, b)
  {
    assert [a, b][1..] == [b];
    CrossingSymmetric(p, a, b);
  }

  lemma AlongFront(p: Point, a: Point, path: seq<Point>)
    requires path != []
    ensures Along(p, [a] + path) == (Crosses(p, path[0], a) != Along(p, path))
  {
    assert ([a] + path)[1..] == path;
  }

  lemma AlongBack(p: Point, path: seq<Point>, b: Point)
    requires path != []
    ensures Along(p, path + [b]) == (Along(p, path) != Crosses(p, b, path[|path| - 1]))
  {
    hide Along, Crosses;
    var last := path[|path| - 1];
    AlongSplits(p, path[..|path| - 1], last, [b]);
    assert path[..|path| - 1] + [last] + [b] == path + [b] && path[..|path| - 1] + [last] == path;
    assert [last] + [b] == [last, b];
    AlongPair(p, last, b);
    CrossingSymmetric(p, last, b);
  }

  /** The ring may be closed at either end. */
  lemma InsideIsClosedPath(p: Point, ring: seq<Point>)
    requires ring != []
    ensures Inside(p, ring) == Along(p, ring + [ring[0]])
    ensures Inside(p, ring) == (Along(p, ring) != Crosses(p, ring[0], ring[|ring| - 1]))
  {
    hide Along, Crosses;
    AlongFront(p, ring[|ring| - 1], ring);
    AlongBack(p, ring, ring[0]);
  }

  // ---- invariance ----------------------------------------------------------

  /** Where the vertex list starts does not matter. */
  lemma RotationInvariant(p: Point, front: seq<Point>, back: seq<Point>)
    ensures Inside(p, back + front) == Inside(p, front + back)
  {
    if front == [] || back == [] {
      assert back + front == front + back;
    } else {
      InsideOfTwo(p, front, back);
      InsideOfTwo(p, back, front);
      CrossingSymmetric(p, front[|front| - 1], back[0]);
      CrossingSymmetric(p, back[|back| - 1], front[0]);
    }
  }

  lemma AlongJoin(p: Point, u: seq<Point>, v: seq<Point>)
    requires u != [] && v != []
    ensures Along(p, u + v) == ((Along(p, u) != Crosses(p, u[|u| - 1], v[0])) != Along(p, v))
  {
    var a, b := u[|u| - 1], v[0];
    AlongSplits(p, u[..|u| - 1], a, v);
    assert u[..|u| - 1] + [a] + v == u + v && u[..|u| - 1] + [a] == u;
    AlongSplits(p, [a], b, v[1..]);
    assert [a] + [b] + v[1..] == [a] + v && [b] + v[1..] == v && [a] + [b] == [a, b];
    AlongPair(p, a, b);
  }

  lemma InsideOfTwo(p: Point, u: seq<Point>, v: seq<Point>)
    requires u != [] && v != []
    ensures Inside(p, u + v) ==
      (((Along(p, u) != Crosses(p, u[|u| - 1], v[0])) != Along(p, v)) != Crosses(p, u[0], v[|v| - 1]))
  {
    InsideIsClosedPath(p, u + v);
    AlongJoin(p, u, v);
  }

  /** Nor does the direction it runs in. */
  lemma ReversalInvariant(p: Point, ring: seq<Point>)
    ensures Inside(p, Reversed(ring)) == Inside(p, ring)
  {
    if ring != [] {
      InsideIsClosedPath(p, ring);
      InsideIsClosedPath(p, Reversed(ring));
      AlongReversed(p, ring);
      LastOfReversed(ring);
      CrossingSymmetric(p, ring[0], ring[|ring| - 1]);
    }
  }

  /** Nor whether the first vertex is repeated at the end, as GeoJSON rings do. */
  lemma ClosingInvariant(p: Point, ring: seq<Point>)
    requires ring != []
    ensures Inside(p, ring + [ring[0]]) == Inside(p, ring)
  {
    InsideIsClosedPath(p, ring);
    InsideIsClosedPath(p, ring + [ring[0]]);
    CrossingSymmetric(p, ring[0], ring[0]);
  }

  // ---- gluing --------------------------------------------------------------

  /** Two rings glued along a chain they share, run in opposite directions: the answer for the
      ring around both is the exclusive or of theirs. */
  lemma GluingIsXor(p: Point, shared: seq<Point>, u: seq<Point>, w: seq<Point>)
    requires shared != []
    ensures Inside(p, [shared[0]] + w + ([shared[|shared| - 1]] + u)) ==
      (Inside(p, shared + u) != Inside(p, Reversed(shared) + w))
  {
    hide Along, Inside, Reversed;
    var a, b := shared[0], shared[|shared| - 1];
    LastOfReversed(shared);
    ChainAndRest(p, shared, a, b, u);
    ChainAndRest(p, Reversed(shared), b, a, w);
    AlongReversed(p, shared);
    OuterRing(p, a, b, u, w);
  }

  lemma OuterRing(p: Point, a: Point, b: Point, u: seq<Point>, w: seq<Point>)
    ensures Inside(p, [a] + w + ([b] + u)) == (Along(p, [b] + u + [a]) != Along(p, [a] + w + [b]))
  {
    hide Along, Inside;
    var ring := [a] + w + ([b] + u);
    InsideIsClosedPath(p, ring);
    AlongSplits(p, [a] + w, b, u + [a]);
    assert [a] + w + [b] + (u + [a]) == ring + [ring[0]];
    assert [b] + (u + [a]) == [b] + u + [a];
  }

  lemma ChainAndRest(p: Point, chain: seq<Point>, first: Point, last: Point, rest: seq<Point>)
    requires chain != [] && first == chain[0] && last == chain[|chain| - 1]
    ensures Inside(p, chain + rest) == (Along(p, chain) != Along(p, [last] + rest + [first]))
  {
    hide Along, Inside;
    var front := chain[..|chain| - 1];
    InsideIsClosedPath(p, chain + rest);
    AlongSplits(p, front, last, rest + [first]);
    assert front + [last] == chain;
    assert front + [last] + (rest + [first]) == chain + rest + [(chain + rest)[0]];
    assert [last] + (rest + [first]) == [last] + rest + [first];
  }

  /** Exclusive or over the triangles that fan out from the first vertex. */
  predicate Fan(p: Point, ring: seq<Point>)
    decreases |ring|
  {
    |ring| >= 3 && (Inside(p, [ring[0], ring[1], ring[2]]) != Fan(p, [ring[0]] + ring[2..]))
  }

  lemma InsideOfPair(p: Point, a: Point, b: Point)
    ensures !Inside(p, [a, b]) && !Inside(p, [a])
  {
    InsideIsClosedPath(p, [a, b]);
    InsideIsClosedPath(p, [a]);
    AlongPair(p, a, b);
    CrossingSymmetric(p, a, b);
    CrossingSymmetric(p, a, a);
  }

  lemma EmptyRing(p: Point)
    ensures !Inside(p, [])
  {
  }

  /** A ring's answer is the exclusive or of its fan of triangles', convex or not, simple or not. */
  lemma {:induction false} RingIsFan(p: Point, ring: seq<Point>)
    ensures Inside(p, ring) == Fan(p, ring)
    decreases |ring|
  {
    hide Inside;
    if |ring| >= 3 {
      var a, b, c, rest := ring[0], ring[1], ring[2], ring[3..];
      RingIsFan(p, [a] + ring[2..]);
      GluingIsXor(p, [c, a], [b], rest);
      assert Reversed([c, a]) == [a, c] by {
        assert [c, a][1..] == [a] && Reversed([a]) == [a];
      }
      assert [c, a] + [b] == [c] + [a, b] && [a, b, c] == [a, b] + [c];
      RotationInvariant(p, [c], [a, b]);
      assert [a, c] + rest == [a] + ring[2..];
      assert [c] + rest + ([a] + [b]) == ring[2..] + ring[..2];
      RotationInvariant(p, ring[..2], ring[2..]);
      assert ring[..2] + ring[2..] == ring;
    } else if |ring| == 2 {
      assert ring == [ring[0], ring[1]];
      InsideOfPair(p, ring[0], ring[1]);
    } else if |ring| == 1 {
      assert ring == [ring[0]];
      InsideOfPair(p, ring[0], ring[0]);
    } else {
      EmptyRing(p);
    }
  }

  // ---- where the inside can be ---------------------------------------------

  /** Every edge's crossing lies between its ends. */
  lemma CrossingBetween(p: Point, a: Point, b: Point)
    requires Straddles(p, a, b)
    ensures Min(a.lon, b.lon) <= CrossingLon(p, a, b) <= Max(a.lon, b.lon)
  {
    var d, t, h := b.lon - a.lon, p.lat - a.lat, b.lat - a.lat;
    FractionOf(d, t, h);
  }

  lemma FractionOf(d: real, t: real, h: real)
    requires h != 0.0 && (0.0 <= t <= h || h <= t <= 0.0)
    ensures Min(0.0, d) <= (d * t) / h <= Max(0.0, d)
  {
    var f := t / h;
    assert f * h == t;
    assert 0.0 <= f <= 1.0 by {
      UnitFraction(f, t, h);
    }
    assert (d * t) / h == d * f by {
      assert (d * f) * h == d * t by { Associates(d, f, h); }
      QuotientUnique(d * f, d * t, h);
    }
    UnitMul(d, f);
  }

  lemma Associates(d: real, f: real, h: real)
    ensures (d * f) * h == d * (f * h)
  {
  }

  lemma QuotientUnique(q: real, x: real, h: real)
    requires h != 0.0 && q * h == x
    ensures x / h == q
  {
  }

  lemma UnitFraction(f: real, t: real, h: real)
    requires h != 0.0 && f * h == t && (0.0 <= t <= h || h <= t <= 0.0)
    ensures 0.0 <= f <= 1.0
  {
    if f < 0.0 {
      if h > 0.0 { MulMono(f, 0.0, h); } else { MulMono(f, 0.0, -h); }
    } else if f > 1.0 {
      if h > 0.0 { MulMono(1.0, f, h); } else { MulMono(1.0, f, -h); }
    }
  }

  lemma UnitMul(d: real, f: real)
    requires 0.0 <= f <= 1.0
    ensures Min(0.0, d) <= d * f <= Max(0.0, d)
  {
    var x := d * f;
    if d >= 0.0 {
      assert 0.0 <= x <= d by { UnitMulPos(d, f); }
    } else {
      assert 0.0 <= -x <= -d by {
        UnitMulPos(-d, f);
        assert (-d) * f == -x;
      }
    }
  }

  lemma UnitMulPos(d: real, f: real)
    requires 0.0 <= f <= 1.0 && d >= 0.0
    ensures 0.0 <= d * f <= d
  {
    MulMono(f, 1.0, d);
    MulNonNeg(f, d);
    assert f * d == d * f;
  }

  /** Far to the west of a path, the ray crosses it an odd number of times exactly when its ends
      are on different sides of the parallel. */
  lemma {:induction false} WestOfPath(p: Point, path: seq<Point>)
    requires path != [] && forall k :: 0 <= k < |path| ==> p.lon < path[k].lon
    ensures Along(p, path) == Straddles(p, path[0], path[|path| - 1])
  {
    if |path| >= 2 {
      WestOfPath(p, path[1..]);
      if Straddles(p, path[1], path[0]) {
        CrossingBetween(p, path[1], path[0]);
      }
    }
  }

  lemma {:induction false} EastOfPath(p: Point, path: seq<Point>)
    requires forall k :: 0 <= k < |path| ==> path[k].lon <= p.lon
    ensures !Along(p, path)
  {
    if |path| >= 2 {
      EastOfPath(p, path[1..]);
      if Straddles(p, path[1], path[0]) {
        CrossingBetween(p, path[1], path[0]);
      }
    }
  }

  lemma {:induction false} ClearOfPath(p: Point, path: seq<Point>)
    requires (forall k :: 0 <= k < |path| ==> path[k].lat <= p.lat) || (forall k :: 0 <= k < |path| ==> path[k].lat > p.lat)
    ensures !Along(p, path)
  {
    if |path| >= 2 {
      ClearOfPath(p, path[1..]);
    }
  }

  /** A point inside has vertices on every side of it: none is inside beyond the bounding box,
      nor on its north or east edge. */
  lemma InsideHasVerticesAround(p: Point, ring: seq<Point>)
    requires Inside(p, ring)
    ensures exists k :: 0 <= k < |ring| && ring[k].lat > p.lat
    ensures exists k :: 0 <= k < |ring| && ring[k].lat <= p.lat
    ensures exists k :: 0 <= k < |ring| && ring[k].lon > p.lon
    ensures exists k :: 0 <= k < |ring| && ring[k].lon <= p.lon
  {
    var path := [ring[|ring| - 1]] + ring;
    if forall k :: 0 <= k < |ring| ==> ring[k].lat <= p.lat {
      ClearOfPath(p, path);
    }
    if forall k :: 0 <= k < |ring| ==> ring[k].lat > p.lat {
      ClearOfPath(p, path);
    }
    if forall k :: 0 <= k < |ring| ==> ring[k].lon <= p.lon {
      EastOfPath(p, path);
    }
    if forall k :: 0 <= k < |ring| ==> ring[k].lon > p.lon {
      WestOfPath(p, path);
    }
  }

  function Box(south: real, west: real, north: real, east: real): seq<Point> {
    [Point(south, west), Point(south, east), Point(north, east), Point(north, west)]
  }

  /** A box contains its south and west edges and not its north and east ones, so boxes that tile
      a region share no point. */
  lemma BoxIsHalfOpen(p: Point, south: real, west: real, north: real, east: real)
    requires south <= north && west <= east
    ensures Inside(p, Box(south, west, north, east)) <==> south <= p.lat < north && west <= p.lon < east
  {
    var sw, se, ne, nw := Point(south, west), Point(south, east), Point(north, east), Point(north, west);
    AlongFive(p, nw, sw, se, ne);
    assert [nw] + [sw, se, ne, nw] == [nw, sw, se, ne, nw];
    SidesCross(p, nw, sw);
    SidesCross(p, se, ne);
  }

  lemma AlongFive(p: Point, a: Point, b: Point, c: Point, d: Point)
    ensures Along(p, [a, b, c, d, a]) ==
      (Crosses(p, b, a) != (Crosses(p, c, b) != (Crosses(p, d, c) != Crosses(p, a, d))))
  {
    hide Crosses;
    assert [a, b, c, d, a][1..] == [b, c, d, a] && [b, c, d, a][1..] == [c, d, a] && [c, d, a][1..] == [d, a] && [d, a][1..] == [a];
    assert Along(p, [d, a]) == Crosses(p, a, d);
    assert Along(p, [c, d, a]) == (Crosses(p, d, c) != Crosses(p, a, d));
    assert Along(p, [b, c, d, a]) == (Crosses(p, c, b) != (Crosses(p, d, c) != Crosses(p, a, d)));
  }

  lemma SidesCross(p: Point, a: Point, b: Point)
    requires a.lon == b.lon
    ensures Crosses(p, b, a) <==> Straddles(p, a, b) && p.lon < a.lon
  {
    if Straddles(p, a, b) {
      CrossingBetween(p, b, a);
    }
  }

  // ---- the loop ------------------------------------------------------------

  /** The loop closes the ring with its first edge, from the last vertex to the first. */
  method PointInPolygon(lon: real, lat: real, coordinates: seq<Point>) returns (inside: bool)
    ensures inside == Inside(Point(lat, lon), coordinates)
  {
    inside := false;
    var p, n := Point(lat, lon), |coordinates|;
    ghost var path := if n == 0 then [] else [coordinates[n - 1]] + coordinates;
    assert Inside(p, coordinates) == Along(p, path);
    assert !Along(p, path[..0]) && (n > 0 ==> !Along(p, path[..1]));
    hide Along, Inside, CrossingLon;
    var index, previous := 0, n - 1;
    while index < n
      invariant 0 <= index <= n
      invariant n > 0 ==> previous == if index == 0 then n - 1 else index - 1
      invariant inside == (n > 0 && Along(p, path[..index + 1]))
    {
      var a, b := coordinates[index], coordinates[previous];
      var intersects := Straddles(p, a, b) && lon < CrossingLon(p, a, b);
      if intersects {
        inside := !inside;
      }
      assert path[index] == b && path[index + 1] == a;
      OneMoreEdge(p, path, index);
      previous := index;
      index := index + 1;
    }
    assert path[..|path|] == path;
  }

  lemma OneMoreEdge(p: Point, path: seq<Point>, k: nat)
    requires k + 1 < |path|
    ensures Along(p, path[..k + 2]) == (Along(p, path[..k + 1]) != Crosses(p, path[k + 1], path[k]))
  {
    hide Along, Crosses;
    assert path[..k + 1] + [path[k + 1]] == path[..k + 2];
    AlongBack(p, path[..k + 1], path[k + 1]);
  }
}
