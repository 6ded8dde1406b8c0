/** The route dolly's polyline (cameraVerbs.js): position by arc length, the corridor
    cells warmed and probed along it, and the one-shot rendered-mesh probe. */
module RouteGeometry {
  import opened Js

  const ROUTE_WARM_STEP_M := 55.0
  const DEGENERATE_SEGMENT_M := 0.000001

  datatype Point = Point(x: real, y: real, z: real)

  /** A coarse floor cell; equality of cells stands for equality of the source's `lat,lon` key. */
  datatype Cell = Cell(lat: real, lon: real)

  datatype MeshReading = MeshReading(heightM: Option<real>, sampled: nat, requested: nat)

  ghost predicate NonDecreasing(cumM: seq<real>) {
    forall i, j :: 0 <= i <= j < |cumM| ==> cumM[i] <= cumM[j]
  }

  ghost predicate IsPath(pts: seq<Point>, cumM: seq<real>) {
    && |pts| == |cumM| >= 2
    && cumM[0] == 0.0
    && NonDecreasing(cumM)
  }

  function DistanceSquared(a: Point, b: Point): real {
    Square(b.x - a.x) + Square(b.y - a.y) + Square(b.z - a.z)
  }

  function Square(d: real): real {
    d * d
  }

  /** The cumulative lengths are the chord lengths, as `flyRoute` builds them. */
  ghost predicate Measured(pts: seq<Point>, cumM: seq<real>)
    requires IsPath(pts, cumM)
  {
    forall i :: 0 <= i < |pts| - 1 ==>
      DistanceSquared(pts[i], pts[i + 1]) == Square(cumM[i + 1] - cumM[i])
  }

  function Lerp(a: Point, b: Point, t: real): Point {
    Point(LerpAxis(a.x, b.x, t), LerpAxis(a.y, b.y, t), LerpAxis(a.z, b.z, t))
  }

  function LerpAxis(a: real, b: real, t: real): real {
    a + (b - a) * t
  }

  // ---- position by arc length ----------------------------------------------

  /** The last index at most k whose cumulative length is at most c (0 when there is none). */
  function LastAtMost(cumM: seq<real>, c: real, k: nat): (i: nat)
    requires k < |cumM|
    ensures i <= k
    ensures i == 0 || cumM[i] <= c
    ensures forall j :: i < j <= k ==> c < cumM[j]
  {
    if k == 0 || cumM[k] <= c then k else LastAtMost(cumM, c, k - 1)
  }

  /** The binary search of `arcPoint`: the last segment starting at or before c, never past
      the last segment there is. */
  method FindSegment(cumM: seq<real>, c: real) returns (lo: nat)
    requires |cumM| >= 2 && NonDecreasing(cumM)
    ensures lo == LastAtMost(cumM, c, |cumM| - 2)
  {
    lo := 0;
    var hi := |cumM| - 2;
    while lo < hi
      invariant 0 <= lo <= hi <= |cumM| - 2
      invariant lo == 0 || cumM[lo] <= c
      invariant forall j :: hi < j <= |cumM| - 2 ==> c < cumM[j]
      decreases hi - lo
    {
      var mid := (lo + hi + 1) / 2;
      if cumM[mid] <= c {
        lo := mid;
      } else {
        hi := mid - 1;
      }
    }
  }

  function PointAt(pts: seq<Point>, cumM: seq<real>, s: real): Point
    requires |pts| == |cumM| >= 2
  {
    var clamped := Min(cumM[|cumM| - 1], Max(0.0, s));
    var lo := LastAtMost(cumM, clamped, |cumM| - 2);
    var segLen := cumM[lo + 1] - cumM[lo];
    var t := if segLen > DEGENERATE_SEGMENT_M then Clamp(0.0, 1.0, (clamped - cumM[lo]) / segLen) else 0.0;
    Lerp(pts[lo], pts[lo + 1], t)
  }

  method ArcPoint(pts: seq<Point>, cumM: seq<real>, s: real) returns (p: Point)
    requires IsPath(pts, cumM)
    ensures p == PointAt(pts, cumM, s)
  {
    var clamped := Min(cumM[|cumM| - 1], Max(0.0, s));
    var lo := FindSegment(cumM, clamped);
    var segLen := cumM[lo + 1] - cumM[lo];
    var t := 0.0;
    if segLen > DEGENERATE_SEGMENT_M {
      t := Clamp(0.0, 1.0, (clamped - cumM[lo]) / segLen);
    }
    p := Lerp(pts[lo], pts[lo + 1], t);
  }

  /** On a usable segment the point is the one at fraction (s - start) / length. */
  lemma PointOnSegment(pts: seq<Point>, cumM: seq<real>, i: nat, s: real)
    requires IsPath(pts, cumM) && i + 1 < |cumM|
    requires cumM[i + 1] - cumM[i] > DEGENERATE_SEGMENT_M
    requires cumM[i] <= s && (s < cumM[i + 1] || (i == |cumM| - 2 && s <= cumM[i + 1]))
    ensures PointAt(pts, cumM, s) == Lerp(pts[i], pts[i + 1], (s - cumM[i]) / (cumM[i + 1] - cumM[i]))
  {
    var len, d := cumM[i + 1] - cumM[i], s - cumM[i];
    assert cumM[i + 1] <= cumM[|cumM| - 1];
    var lo := LastAtMost(cumM, s, |cumM| - 2);
    assert lo == i;
    FractionRange(d, len);
  }

  lemma FractionRange(d: real, len: real)
    requires 0.0 <= d <= len && len > 0.0
    ensures 0.0 <= d / len <= 1.0
  {
  }

  /** The path is parametrized by length: two positions on one segment are exactly as far
      apart as their arc lengths. */
  lemma SegmentIsometry(pts: seq<Point>, cumM: seq<real>, i: nat, s: real, s': real)
    requires IsPath(pts, cumM) && Measured(pts, cumM) && i + 1 < |cumM|
    requires cumM[i + 1] - cumM[i] > DEGENERATE_SEGMENT_M
    requires cumM[i] <= s < cumM[i + 1] && cumM[i] <= s' < cumM[i + 1]
    ensures DistanceSquared(PointAt(pts, cumM, s), PointAt(pts, cumM, s')) == Square(s' - s)
  {
    var a, b, len := pts[i], pts[i + 1], cumM[i + 1] - cumM[i];
    PointOnSegment(pts, cumM, i, s);
    PointOnSegment(pts, cumM, i, s');
    assert DistanceSquared(a, b) == Square(len);
    hide DistanceSquared, Lerp, Square, PointAt;
    LerpIsometry(a, b, s - cumM[i], s' - cumM[i], len);
    assert (s' - cumM[i]) - (s - cumM[i]) == s' - s;
  }

  lemma LerpIsometry(a: Point, b: Point, d: real, d': real, len: real)
    requires len > 0.0 && DistanceSquared(a, b) == Square(len)
    ensures DistanceSquared(Lerp(a, b, d / len), Lerp(a, b, d' / len)) == Square(d' - d)
  {
    hide DistanceSquared, Lerp;
    LerpDistance(a, b, d / len, d' / len);
    FractionSquare(d, d', len);
  }

  lemma FractionSquare(d: real, d': real, len: real)
    requires len > 0.0
    ensures Square(d' / len - d / len) * Square(len) == Square(d' - d)
  {
    var g := d' / len - d / len;
    assert g * len == d' - d;
    assert (g * g) * (len * len) == (g * len) * (g * len);
  }

  lemma LerpDistance(a: Point, b: Point, t: real, t': real)
    ensures DistanceSquared(Lerp(a, b, t), Lerp(a, b, t')) == Square(t' - t) * DistanceSquared(a, b)
  {
    hide Square, LerpAxis;
    AxisDistance(a.x, b.x, t, t');
    AxisDistance(a.y, b.y, t, t');
    AxisDistance(a.z, b.z, t, t');
    SumFactor(Square(t' - t), Square(b.x - a.x), Square(b.y - a.y), Square(b.z - a.z));
  }

  lemma SumFactor(k: real, x: real, y: real, z: real)
    ensures k * (x + y + z) == k * x + k * y + k * z
  {
  }

  lemma AxisDistance(a: real, b: real, t: real, t': real)
    ensures Square(LerpAxis(a, b, t') - LerpAxis(a, b, t)) == Square(t' - t) * Square(b - a)
  {
  }

  /** Every vertex that starts a usable segment is visited at its own arc length, from which
      the flight never leaps: the segment before it ends there too. */
  lemma VertexAtItsArc(pts: seq<Point>, cumM: seq<real>, i: nat)
    requires IsPath(pts, cumM) && i + 1 < |cumM|
    requires cumM[i + 1] - cumM[i] > DEGENERATE_SEGMENT_M
    ensures PointAt(pts, cumM, cumM[i]) == pts[i]
    ensures Lerp(pts[i], pts[i + 1], (cumM[i + 1] - cumM[i]) / (cumM[i + 1] - cumM[i])) == pts[i + 1]
  {
    PointOnSegment(pts, cumM, i, cumM[i]);
    assert 0.0 / (cumM[i + 1] - cumM[i]) == 0.0;
  }

  /** Past the end of the path the dolly stands on the last waypoint. */
  lemma LandsOnLastWaypoint(pts: seq<Point>, cumM: seq<real>, s: real)
    requires IsPath(pts, cumM) && s >= cumM[|cumM| - 1]
    requires cumM[|cumM| - 1] - cumM[|cumM| - 2] > DEGENERATE_SEGMENT_M
    ensures PointAt(pts, cumM, s) == pts[|pts| - 1]
  {
    var n := |cumM| - 1;
    assert cumM[n] >= cumM[0];
    var len := cumM[n] - cumM[n - 1];
    PointOnSegment(pts, cumM, n - 1, cumM[n]);
    DivSelf(len);
    assert Min(cumM[n], Max(0.0, s)) == cumM[n] == Min(cumM[n], Max(0.0, cumM[n]));
  }

  // ---- corridor cells ------------------------------------------------------

  /** The arc length of the k-th corridor sample. */
  function SampleArc(start: real, k: int): real {
    start + k as real * ROUTE_WARM_STEP_M
  }

  /** How many sampling steps from start stay within end. */
  function SampleCount(start: real, end: real): (n: nat)
    requires start <= end
    ensures forall k: nat :: k < n <==> SampleArc(start, k) <= end + DEGENERATE_SEGMENT_M
  {
    var q := (end + DEGENERATE_SEGMENT_M - start) / ROUTE_WARM_STEP_M;
    assert forall k: nat :: k < q.Floor + 1 <==> SampleArc(start, k) <= end + DEGENERATE_SEGMENT_M by {
      forall k: nat ensures k < q.Floor + 1 <==> SampleArc(start, k) <= end + DEGENERATE_SEGMENT_M {
        assert k as real <= q <==> k < q.Floor + 1;
      }
    }
    q.Floor + 1
  }

  /** The cell under the k-th corridor sample. */
  function CellAt(pts: seq<Point>, cumM: seq<real>, cellOf: Point -> Cell, start: real, k: nat): Cell
    requires |pts| == |cumM| >= 2
  {
    cellOf(PointAt(pts, cumM, SampleArc(start, k)))
  }

  /** The distinct cells under the first n samples, each at its first occurrence. */
  function DistinctCells(pts: seq<Point>, cumM: seq<real>, cellOf: Point -> Cell, start: real, n: nat): seq<Cell>
    requires |pts| == |cumM| >= 2
  {
    if n == 0 then [] else
    var before := DistinctCells(pts, cumM, cellOf, start, n - 1);
    var cell := CellAt(pts, cumM, cellOf, start, n - 1);
    if cell in before then before else before + [cell]
  }

  ghost predicate NoRepeats(cells: seq<Cell>) {
    forall i, j :: 0 <= i < j < |cells| ==> cells[i] != cells[j]
  }

  lemma {:induction false} DistinctCellsGrow(pts: seq<Point>, cumM: seq<real>, cellOf: Point -> Cell, start: real, k: nat, n: nat)
    requires |pts| == |cumM| >= 2 && k <= n
    ensures DistinctCells(pts, cumM, cellOf, start, k) <= DistinctCells(pts, cumM, cellOf, start, n)
    ensures NoRepeats(DistinctCells(pts, cumM, cellOf, start, n))
    ensures k < n ==> CellAt(pts, cumM, cellOf, start, k) in DistinctCells(pts, cumM, cellOf, start, n)
    decreases n
  {
    hide CellAt;
    if k < n {
      DistinctCellsGrow(pts, cumM, cellOf, start, k, n - 1);
    } else if n > 0 {
      DistinctCellsGrow(pts, cumM, cellOf, start, n - 1, n - 1);
    }
  }

  function SpanEnd(cumM: seq<real>, at: real): real
    requires |cumM| >= 2
  {
    Max(0.0, Min(cumM[|cumM| - 1], at))
  }

  function Capped(cells: seq<Cell>, cap: nat): seq<Cell> {
    if |cells| <= cap then cells else cells[..cap]
  }

  /** The first maxCells distinct cells along the clamped span, in travel order. */
  function CorridorCells(pts: seq<Point>, cumM: seq<real>, cellOf: Point -> Cell,
                         fromM: real, spanM: real, maxCells: int): (cells: seq<Cell>)
    requires |pts| == |cumM| >= 2
  {
    if !(cumM[|cumM| - 1] > 0.0) || !(spanM > 0.0) || !(maxCells > 0) then [] else
    var start, end := SpanEnd(cumM, fromM), SpanEnd(cumM, fromM + spanM);
    Capped(DistinctCells(pts, cumM, cellOf, start, SampleCount(start, end)), maxCells)
  }

  /** The sampling loop, stopped early at the cap. */
  method RouteCorridorCells(pts: seq<Point>, cumM: seq<real>, cellOf: Point -> Cell,
                            fromM: real, spanM: real, maxCells: int) returns (out: seq<Cell>)
    requires IsPath(pts, cumM)
    ensures out == CorridorCells(pts, cumM, cellOf, fromM, spanM, maxCells)
  {
    out := [];
    if !(cumM[|cumM| - 1] > 0.0) || !(spanM > 0.0) || !(maxCells > 0) {
      return;
    }
    var start, end := SpanEnd(cumM, fromM), SpanEnd(cumM, fromM + spanM);
    var seen: set<Cell> := {};
    var s := start;
    ghost var n := SampleCount(start, end);
    ghost var k := 0;
    NextSample(start, 0);
    hide PointAt, SampleArc, SampleCount, CellAt, SpanEnd, CorridorCells;
    while s <= end + DEGENERATE_SEGMENT_M && |out| < maxCells
      invariant 0 <= k <= n && s == SampleArc(start, k)
      invariant s <= end + DEGENERATE_SEGMENT_M <==> k < n
      invariant out == DistinctCells(pts, cumM, cellOf, start, k)
      invariant |out| <= maxCells
      invariant forall c :: c in seen <==> c in out
      decreases n - k
    {
      var point := ArcPoint(pts, cumM, s);
      var cell := cellOf(point);
      CellOfSample(pts, cumM, cellOf, start, k);
      NextSample(start, k);
      s := s + ROUTE_WARM_STEP_M;
      k := k + 1;
      if cell in seen {
        continue;
      }
      seen := seen + {cell};
      out := out + [cell];
    }
    StoppedAtCap(pts, cumM, cellOf, fromM, spanM, maxCells, k);
  }

  /** Stopping at the cap, or at the end of the span, leaves exactly the specified cells. */
  lemma StoppedAtCap(pts: seq<Point>, cumM: seq<real>, cellOf: Point -> Cell, fromM: real, spanM: real, maxCells: int, k: nat)
    requires |pts| == |cumM| >= 2 && cumM[|cumM| - 1] > 0.0 && spanM > 0.0 && maxCells > 0
    requires k <= SampleCount(SpanEnd(cumM, fromM), SpanEnd(cumM, fromM + spanM))
    requires |DistinctCells(pts, cumM, cellOf, SpanEnd(cumM, fromM), k)| <= maxCells
    requires k == SampleCount(SpanEnd(cumM, fromM), SpanEnd(cumM, fromM + spanM))
          || |DistinctCells(pts, cumM, cellOf, SpanEnd(cumM, fromM), k)| == maxCells
    ensures DistinctCells(pts, cumM, cellOf, SpanEnd(cumM, fromM), k) == CorridorCells(pts, cumM, cellOf, fromM, spanM, maxCells)
  {
    DistinctCellsGrow(pts, cumM, cellOf, SpanEnd(cumM, fromM), k, SampleCount(SpanEnd(cumM, fromM), SpanEnd(cumM, fromM + spanM)));
  }

  lemma CellOfSample(pts: seq<Point>, cumM: seq<real>, cellOf: Point -> Cell, start: real, k: nat)
    requires |pts| == |cumM| >= 2
    ensures CellAt(pts, cumM, cellOf, start, k) == cellOf(PointAt(pts, cumM, SampleArc(start, k)))
  {
  }

  lemma NextSample(start: real, k: nat)
    ensures SampleArc(start, k + 1) == SampleArc(start, k) + ROUTE_WARM_STEP_M
    ensures SampleArc(start, 0) == start
  {
  }

  lemma CorridorBounded(pts: seq<Point>, cumM: seq<real>, cellOf: Point -> Cell, fromM: real, spanM: real, maxCells: nat)
    requires |pts| == |cumM| >= 2
    ensures |CorridorCells(pts, cumM, cellOf, fromM, spanM, maxCells)| <= maxCells
    ensures NoRepeats(CorridorCells(pts, cumM, cellOf, fromM, spanM, maxCells))
  {
    if cumM[|cumM| - 1] > 0.0 && spanM > 0.0 && maxCells > 0 {
      var start, end := SpanEnd(cumM, fromM), SpanEnd(cumM, fromM + spanM);
      DistinctCellsGrow(pts, cumM, cellOf, start, 0, SampleCount(start, end));
    }
  }

  /** Below the cap no stretch of the span is skipped: every position lies within one
      sampling step after a point whose cell was returned. */
  lemma CorridorCovered(pts: seq<Point>, cumM: seq<real>, cellOf: Point -> Cell,
                        fromM: real, spanM: real, maxCells: int, s: real) returns (at: real)
    requires IsPath(pts, cumM) && cumM[|cumM| - 1] > 0.0 && spanM > 0.0
    requires |CorridorCells(pts, cumM, cellOf, fromM, spanM, maxCells)| < maxCells
    requires SpanEnd(cumM, fromM) <= s <= SpanEnd(cumM, fromM + spanM)
    ensures at <= s < at + ROUTE_WARM_STEP_M
    ensures cellOf(PointAt(pts, cumM, at)) in CorridorCells(pts, cumM, cellOf, fromM, spanM, maxCells)
  {
    var start := SpanEnd(cumM, fromM);
    var q := (s - start) / ROUTE_WARM_STEP_M;
    assert q * ROUTE_WARM_STEP_M == s - start;
    at := SampleArc(start, q.Floor);
    DistinctCellsGrow(pts, cumM, cellOf, start, q.Floor, SampleCount(start, SpanEnd(cumM, fromM + spanM)));
  }

  /** Sample k is the first on the cell. */
  ghost predicate FirstOn(pts: seq<Point>, cumM: seq<real>, cellOf: Point -> Cell, start: real, k: nat, cell: Cell)
    requires |pts| == |cumM| >= 2
  {
    CellAt(pts, cumM, cellOf, start, k) == cell && forall j: nat :: j < k ==> CellAt(pts, cumM, cellOf, start, j) != cell
  }

  lemma {:induction false} DistinctInOrder(pts: seq<Point>, cumM: seq<real>, cellOf: Point -> Cell, start: real, n: nat, i: nat) returns (k: nat)
    requires |pts| == |cumM| >= 2 && i < |DistinctCells(pts, cumM, cellOf, start, n)|
    ensures var cells := DistinctCells(pts, cumM, cellOf, start, n);
      && k < n && FirstOn(pts, cumM, cellOf, start, k, cells[i])
      && DistinctCells(pts, cumM, cellOf, start, k) == cells[..i]
  {
    hide CellAt;
    var before := DistinctCells(pts, cumM, cellOf, start, n - 1);
    if i < |before| {
      k := DistinctInOrder(pts, cumM, cellOf, start, n - 1, i);
    } else {
      k := n - 1;
      forall j: nat | j < k
        ensures CellAt(pts, cumM, cellOf, start, j) != DistinctCells(pts, cumM, cellOf, start, n)[i]
      {
        DistinctCellsGrow(pts, cumM, cellOf, start, j, k);
      }
    }
  }

  /** The cells come in travel order: the i-th is the cell under some sample, for the first time, and
      the cells before it are exactly those under earlier samples, 55 m apart from the start. */
  lemma CorridorInOrder(pts: seq<Point>, cumM: seq<real>, cellOf: Point -> Cell, fromM: real, spanM: real, maxCells: int, i: nat) returns (k: nat)
    requires |pts| == |cumM| >= 2 && i < |CorridorCells(pts, cumM, cellOf, fromM, spanM, maxCells)|
    ensures var cells, start := CorridorCells(pts, cumM, cellOf, fromM, spanM, maxCells), SpanEnd(cumM, fromM);
      && cells[i] == cellOf(PointAt(pts, cumM, start + k as real * 55.0))
      && (forall c :: c in cells[..i] <==> exists j: nat :: j < k && CellAt(pts, cumM, cellOf, start, j) == c)
      && cells[i] !in cells[..i]
  {
    var start, end := SpanEnd(cumM, fromM), SpanEnd(cumM, fromM + spanM);
    var n := SampleCount(start, end);
    k := DistinctInOrder(pts, cumM, cellOf, start, n, i);
    CorridorBoundedBy(pts, cumM, cellOf, fromM, spanM, maxCells, i);
    CellOfSample(pts, cumM, cellOf, start, k);
    DistinctAre(pts, cumM, cellOf, start, k);
    hide CellAt, PointAt, CorridorCells, DistinctCells;
  }

  lemma CorridorBoundedBy(pts: seq<Point>, cumM: seq<real>, cellOf: Point -> Cell, fromM: real, spanM: real, maxCells: int, i: nat)
    requires |pts| == |cumM| >= 2 && i < |CorridorCells(pts, cumM, cellOf, fromM, spanM, maxCells)|
    ensures var start, end := SpanEnd(cumM, fromM), SpanEnd(cumM, fromM + spanM);
      var all := DistinctCells(pts, cumM, cellOf, start, SampleCount(start, end));
      i < |all| && CorridorCells(pts, cumM, cellOf, fromM, spanM, maxCells)[i] == all[i]
      && CorridorCells(pts, cumM, cellOf, fromM, spanM, maxCells)[..i] == all[..i]
  {
  }

  lemma {:induction false} DistinctAre(pts: seq<Point>, cumM: seq<real>, cellOf: Point -> Cell, start: real, n: nat)
    requires |pts| == |cumM| >= 2
    ensures forall c :: c in DistinctCells(pts, cumM, cellOf, start, n) <==> exists j: nat :: j < n && CellAt(pts, cumM, cellOf, start, j) == c
  {
    hide CellAt;
    if n > 0 {
      DistinctAre(pts, cumM, cellOf, start, n - 1);
      var cells, last := DistinctCells(pts, cumM, cellOf, start, n), CellAt(pts, cumM, cellOf, start, n - 1);
      forall c | c in cells
        ensures exists j: nat :: j < n && CellAt(pts, cumM, cellOf, start, j) == c
      {
        if c == last {
          assert CellAt(pts, cumM, cellOf, start, n - 1) == c;
        }
      }
    }
  }

  /** An arc held between the start and the end of the route. */
  lemma SpanExactly(cumM: seq<real>, at: real, total: real)
    requires |cumM| >= 2 && cumM[|cumM| - 1] == total >= 0.0
    ensures SpanEnd(cumM, at) == if at < 0.0 then 0.0 else if at > total then total else at
  {
  }

  lemma SampleOn(pts: seq<Point>, cumM: seq<real>, cellOf: Point -> Cell, start: real, n: nat, i: nat) returns (k: nat)
    requires |pts| == |cumM| >= 2 && i < |DistinctCells(pts, cumM, cellOf, start, n)|
    ensures k < n && CellAt(pts, cumM, cellOf, start, k) == DistinctCells(pts, cumM, cellOf, start, n)[i]
  {
    k := DistinctInOrder(pts, cumM, cellOf, start, n, i);
  }

  /** There are cells exactly when there is a route, a span to look at and room for a cell; and none
      is sampled beyond the span by more than a micrometre. */
  lemma CorridorWithin(pts: seq<Point>, cumM: seq<real>, cellOf: Point -> Cell, fromM: real, spanM: real, maxCells: int)
    requires IsPath(pts, cumM)
    ensures var cells := CorridorCells(pts, cumM, cellOf, fromM, spanM, maxCells);
      && (cells == [] <==> cumM[|cumM| - 1] <= 0.0 || spanM <= 0.0 || maxCells <= 0)
      && forall c <- cells :: exists k: nat :: SampleArc(SpanEnd(cumM, fromM), k) <= SpanEnd(cumM, fromM + spanM) + 0.000001
                                            && CellAt(pts, cumM, cellOf, SpanEnd(cumM, fromM), k) == c
  {
    hide CellAt, PointAt;
    if cumM[|cumM| - 1] > 0.0 && spanM > 0.0 && maxCells > 0 {
      var start, end := SpanEnd(cumM, fromM), SpanEnd(cumM, fromM + spanM);
      DistinctCellsGrow(pts, cumM, cellOf, start, 0, SampleCount(start, end));
      assert SampleArc(start, 0) == start;
      var cells, n := CorridorCells(pts, cumM, cellOf, fromM, spanM, maxCells), SampleCount(start, end);
      forall c | c in cells
        ensures exists k: nat :: SampleArc(start, k) <= end + 0.000001 && CellAt(pts, cumM, cellOf, start, k) == c
      {
        var all := DistinctCells(pts, cumM, cellOf, start, n);
        var i :| 0 <= i < |cells| && cells[i] == c;
        assert c == all[i];
        var j := SampleOn(pts, cumM, cellOf, start, n, i);
        assert SampleArc(start, j) <= end + DEGENERATE_SEGMENT_M;
      }
    }
  }

  // ---- the one-shot mesh probe ---------------------------------------------

  function MaxKnown(a: Option<real>, b: Option<real>): Option<real> {
    match (a, b)
    case (None, _) => b
    case (_, None) => a
    case (Some(x), Some(y)) => Some(Max(x, y))
  }

  /** Highest rendered surface over the cells that answer, with how many did. An answer of
      None stands for a tile not streamed yet or a throwing scene. */
  method ProbeMeshFloorM(sampleHeight: Option<Cell -> Option<real>>, cells: seq<Cell>) returns (r: MeshReading)
    ensures r.requested == |cells| && r.sampled <= |cells|
    ensures r.heightM.Some? <==> r.sampled > 0
    ensures sampleHeight.None? ==> r.sampled == 0
    ensures sampleHeight.Some? ==>
      && (r.sampled == |cells| <==> forall c :: c in cells ==> sampleHeight.value(c).Some?)
      && (r.sampled > 0 <==> exists c :: c in cells && sampleHeight.value(c).Some?)
      && (forall c :: c in cells && sampleHeight.value(c).Some? ==>
            r.heightM.Some? && sampleHeight.value(c).value <= r.heightM.value)
      && (r.heightM.Some? ==> exists c :: c in cells && sampleHeight.value(c) == r.heightM)
  {
    r := MeshReading(None, 0, |cells|);
    if sampleHeight.None? || |cells| == 0 {
      return;
    }
    var sample := sampleHeight.value;
    var heightM: Option<real> := None;
    var sampled := 0;
    for i := 0 to |cells|
      invariant 0 <= sampled <= i
      invariant heightM.Some? <==> sampled > 0
      invariant sampled == i <==> forall j :: 0 <= j < i ==> sample(cells[j]).Some?
      invariant forall j :: 0 <= j < i && sample(cells[j]).Some? ==>
        heightM.Some? && sample(cells[j]).value <= heightM.value
      invariant heightM.Some? ==> exists j :: 0 <= j < i && sample(cells[j]) == heightM
    {
      var height := sample(cells[i]);
      if height.Some? {
        sampled := sampled + 1;
        heightM := if heightM.Some? then Some(Max(heightM.value, height.value)) else height;
      }
    }
    r := MeshReading(heightM, sampled, |cells|);
    if forall c :: c in cells ==> sample(c).Some? {
      assert forall j :: 0 <= j < |cells| ==> cells[j] in cells;
    }
  }
}
