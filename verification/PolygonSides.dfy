/** What the even-odd test means without a crossing: on which side of its edges a point lies, by the
    signs of cross products, for one edge, a triangle, and any ring. */
module PolygonSides {
  import opened Js
  import opened Polygon

  /** Positive where p lies to the left of the way from a to b, seen with north up, as the sign of a
      cross product; zero on the line through both. */
  function Side(p: Point, a: Point, b: Point): real {
    Times(b.lon - a.lon, p.lat - a.lat) - Times(p.lon - a.lon, b.lat - a.lat)
  }

  lemma QuotientScaled(n: real, h: real)
    requires h != 0.0
    ensures Times(n / h, h) == n
  {
  }

  lemma TimesRises(a: real, b: real, h: real)
    ensures h > 0.0 ==> (a < b <==> Times(a, h) < Times(b, h))
    ensures h < 0.0 ==> (a < b <==> Times(b, h) < Times(a, h))
  {
    hide Times;
    if h > 0.0 {
      TimesStrict(a, b, h);
      TimesStrict(b, a, h);
    } else if h < 0.0 {
      TimesStrict(a, b, -h);
      TimesStrict(b, a, -h);
      TimesNeg(a, h);
      TimesNeg(b, h);
    }
  }

  lemma TimesStrict(a: real, b: real, h: real)
    requires h > 0.0
    ensures a < b ==> Times(a, h) < Times(b, h)
    ensures a == b ==> Times(a, h) == Times(b, h)
  {
    if a < b {
      MulPos(b - a, h);
      TimesSwap(b - a, h);
      TimesAdd(h, b, a);
      TimesSwap(a, h);
      TimesSwap(b, h);
    }
  }

  /** A ray to the east of p meets an edge, walked from a to b, exactly when the edge climbs past p's
      parallel with p on its left, or sinks past it with p on its right. The south end counts to
      the edge and the north end does not. */
  lemma CrossesBySide(p: Point, a: Point, b: Point)
    ensures Crosses(p, a, b) <==>
      || (a.lat <= p.lat < b.lat && Side(p, a, b) > 0.0)
      || (b.lat <= p.lat < a.lat && Side(p, a, b) < 0.0)
  {
    if (a.lat > p.lat) != (b.lat > p.lat) {
      hide Times, CrossingLon;
      var n, h := Times(b.lon - a.lon, p.lat - a.lat), b.lat - a.lat;
      CrossingIs(p, a, b);
      QuotientScaled(n, h);
      TimesRises(p.lon - a.lon, n / h, h);
    }
  }

  lemma CrossingIs(p: Point, a: Point, b: Point)
    requires b.lat - a.lat != 0.0
    ensures CrossingLon(p, a, b) == Times(b.lon - a.lon, p.lat - a.lat) / (b.lat - a.lat) + a.lon
  {
  }

  // ---- a triangle ----------------------------------------------------------

  /** p lies on the segment. */
  predicate OnEdge(p: Point, a: Point, b: Point) {
    && Side(p, a, b) == 0.0
    && Min(a.lat, b.lat) <= p.lat <= Max(a.lat, b.lat)
    && Min(a.lon, b.lon) <= p.lon <= Max(a.lon, b.lon)
  }

  predicate OnTriangle(p: Point, a: Point, b: Point, c: Point) {
    OnEdge(p, a, b) || OnEdge(p, b, c) || OnEdge(p, c, a)
  }

  /** p lies on one and the same side of all three directed edges. */
  predicate SameSide(p: Point, a: Point, b: Point, c: Point) {
    || (Side(p, a, b) > 0.0 && Side(p, b, c) > 0.0 && Side(p, c, a) > 0.0)
    || (Side(p, a, b) < 0.0 && Side(p, b, c) < 0.0 && Side(p, c, a) < 0.0)
  }

  lemma InsideTriangle(p: Point, a: Point, b: Point, c: Point)
    ensures Inside(p, [a, b, c]) == ((Crosses(p, a, b) != Crosses(p, b, c)) != Crosses(p, c, a))
  {
    hide Crosses;
    var ring := [a, b, c];
    InsideIsClosedPath(p, ring);
    assert ring[1..] == [b, c] && [b, c][1..] == [c];
    CrossingSymmetric(p, a, b);
    CrossingSymmetric(p, b, c);
    CrossingSymmetric(p, c, a);
    assert Along(p, [b, c]) == Crosses(p, c, b);
    assert Along(p, ring) == (Crosses(p, b, a) != Along(p, [b, c]));
  }

  /** The three sides weigh the corners to the point. */
  lemma SidesBalance(p: Point, a: Point, b: Point, c: Point)
    ensures Times(Side(p, a, b), c.lat - p.lat) + Times(Side(p, b, c), a.lat - p.lat) + Times(Side(p, c, a), b.lat - p.lat) == 0.0
  {
    var u, v, w := a.lat - p.lat, b.lat - p.lat, c.lat - p.lat;
    var x, y, z := a.lon - p.lon, b.lon - p.lon, c.lon - p.lon;
    SideIs(p, a, b);
    SideIs(p, b, c);
    SideIs(p, c, a);
    Balance(u, v, w, x, y, z);
  }

  lemma SideIs(p: Point, a: Point, b: Point)
    ensures Side(p, a, b) == Times(a.lon - p.lon, b.lat - p.lat) - Times(b.lon - p.lon, a.lat - p.lat)
  {
    var u, v, x, y := a.lat - p.lat, b.lat - p.lat, a.lon - p.lon, b.lon - p.lon;
    assert b.lon - a.lon == y - x && p.lat - a.lat == -u && p.lon - a.lon == -x && b.lat - a.lat == v - u;
    SideIdentity(u, v, x, y);
    hide Times;
  }

  lemma SideIdentity(u: real, v: real, x: real, y: real)
    ensures Times(y - x, -u) - Times(-x, v - u) == Times(x, v) - Times(y, u)
  {
  }

  lemma Balance(u: real, v: real, w: real, x: real, y: real, z: real)
    ensures Times(Times(x, v) - Times(y, u), w) + Times(Times(y, w) - Times(z, v), u) + Times(Times(z, u) - Times(x, w), v) == 0.0
  {
  }

  /** The sign of a product of factors whose signs are known. */
  lemma SignOf(s: real, d: real)
    ensures s > 0.0 && d > 0.0 ==> Times(s, d) > 0.0
    ensures s > 0.0 && d < 0.0 ==> Times(s, d) < 0.0
    ensures s < 0.0 && d > 0.0 ==> Times(s, d) < 0.0
    ensures s < 0.0 && d < 0.0 ==> Times(s, d) > 0.0
    ensures s == 0.0 || d == 0.0 ==> Times(s, d) == 0.0
  {
    TimesRises(0.0, s, d);
    TimesUnit(d);
    TimesUnit(s);
    TimesRises(s, 0.0, d);
    hide Times;
  }

  /** On a line across p's parallel and within its latitudes, p is on the edge itself. */
  lemma OnStraddlingEdge(p: Point, a: Point, b: Point)
    requires (a.lat > p.lat) != (b.lat > p.lat) && Side(p, a, b) == 0.0
    ensures OnEdge(p, a, b)
  {
    var n, h := (b.lon - a.lon) * (p.lat - a.lat), b.lat - a.lat;
    assert Times(p.lon - a.lon, h) == n;
    QuotientUnique(p.lon - a.lon, n, h);
    assert CrossingLon(p, a, b) == n / h + a.lon;
    CrossingBetween(p, a, b);
    hide CrossingLon;
  }

  /** Off a level edge on p's parallel, the two other sides disagree. */
  lemma LevelEdge(p: Point, a: Point, b: Point, c: Point)
    requires b.lat == c.lat == p.lat != a.lat && !OnEdge(p, b, c)
    ensures !(Side(p, a, b) > 0.0 && Side(p, c, a) > 0.0) && !(Side(p, a, b) < 0.0 && Side(p, c, a) < 0.0)
  {
    SideIs(p, a, b);
    SideIs(p, c, a);
    SideIs(p, b, c);
    TimesUnit(a.lon - p.lon);
    TimesUnit(b.lon - p.lon);
    TimesUnit(c.lon - p.lon);
    SignOf(b.lon - p.lon, a.lat - p.lat);
    SignOf(c.lon - p.lon, a.lat - p.lat);
    hide Times, Side;
  }

  /** One corner on its own side of p's parallel. */
  lemma LoneCorner(p: Point, a: Point, b: Point, c: Point)
    requires (a.lat > p.lat) != (b.lat > p.lat) && (b.lat > p.lat) == (c.lat > p.lat)
    requires !OnTriangle(p, a, b, c)
    ensures Inside(p, [a, b, c]) <==> SameSide(p, a, b, c)
  {
    InsideTriangle(p, a, b, c);
    CrossesBySide(p, a, b);
    CrossesBySide(p, b, c);
    CrossesBySide(p, c, a);
    CrossingSymmetric(p, c, a);
    if Side(p, a, b) == 0.0 {
      OnStraddlingEdge(p, a, b);
    }
    if Side(p, c, a) == 0.0 {
      OnStraddlingEdge(p, c, a);
    }
    if b.lat == c.lat == p.lat {
      LevelEdge(p, a, b, c);
    }
    SidesBalance(p, a, b, c);
    SignOf(Side(p, a, b), c.lat - p.lat);
    SignOf(Side(p, b, c), a.lat - p.lat);
    SignOf(Side(p, c, a), b.lat - p.lat);
    hide Side, Times, Inside, Crosses;
  }

  /** All corners on one side of the parallel. */
  lemma NoCorner(p: Point, a: Point, b: Point, c: Point)
    requires (a.lat > p.lat) == (b.lat > p.lat) == (c.lat > p.lat)
    ensures !Inside(p, [a, b, c]) && !SameSide(p, a, b, c)
  {
    InsideTriangle(p, a, b, c);
    SidesBalance(p, a, b, c);
    SignOf(Side(p, a, b), c.lat - p.lat);
    SignOf(Side(p, b, c), a.lat - p.lat);
    SignOf(Side(p, c, a), b.lat - p.lat);
    if a.lat == b.lat == c.lat == p.lat {
      SideIs(p, a, b);
      TimesUnit(a.lon - p.lon);
      TimesUnit(b.lon - p.lon);
    }
    hide Side, Times, Inside;
  }

  /** A triangle contains, off its edges, exactly the points on one and the same side of all three
      of them, whichever way it runs. */
  lemma TriangleBySides(p: Point, a: Point, b: Point, c: Point)
    requires !OnTriangle(p, a, b, c)
    ensures Inside(p, [a, b, c]) <==> SameSide(p, a, b, c)
  {
    hide Side, Inside, OnEdge;
    if (a.lat > p.lat) == (b.lat > p.lat) == (c.lat > p.lat) {
      NoCorner(p, a, b, c);
    } else if (b.lat > p.lat) == (c.lat > p.lat) {
      LoneCorner(p, a, b, c);
    } else if (c.lat > p.lat) == (a.lat > p.lat) {
      LoneCorner(p, b, c, a);
      RotationInvariant(p, [a], [b, c]);
      assert [a] + [b, c] == [a, b, c] && [b, c] + [a] == [b, c, a];
    } else {
      LoneCorner(p, c, a, b);
      RotationInvariant(p, [a, b], [c]);
      assert [a, b] + [c] == [a, b, c] && [c] + [a, b] == [c, a, b];
    }
  }

  // ---- any ring ------------------------------------------------------------

  /** p is on no edge of the triangles that fan out from the first corner. */
  predicate OffFan(p: Point, ring: seq<Point>)
    decreases |ring|
  {
    |ring| >= 3 ==> !OnTriangle(p, ring[0], ring[1], ring[2]) && OffFan(p, [ring[0]] + ring[2..])
  }

  /** An odd number of those triangles have p on one side of all three edges. */
  predicate OddFan(p: Point, ring: seq<Point>)
    decreases |ring|
  {
    |ring| >= 3 && (SameSide(p, ring[0], ring[1], ring[2]) != OddFan(p, [ring[0]] + ring[2..]))
  }

  lemma {:induction false} FanIsOdd(p: Point, ring: seq<Point>)
    requires OffFan(p, ring)
    ensures Fan(p, ring) == OddFan(p, ring)
    decreases |ring|
  {
    hide Inside, SameSide, OnTriangle;
    if |ring| >= 3 {
      TriangleBySides(p, ring[0], ring[1], ring[2]);
      FanIsOdd(p, [ring[0]] + ring[2..]);
    }
  }

  /** Any ring, convex or not, simple or not: off the edges of its fan, a point is inside exactly
      when an odd number of the fan's triangles have it on one side of all three edges. */
  lemma RingBySides(p: Point, ring: seq<Point>)
    requires OffFan(p, ring)
    ensures Inside(p, ring) <==> OddFan(p, ring)
  {
    hide Inside, Fan, OffFan, OddFan;
    RingIsFan(p, ring);
    FanIsOdd(p, ring);
  }
}
