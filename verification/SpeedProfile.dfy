/** The route dolly's trapezoid speed profile (cameraVerbs.js). The source claims that
    `distance` is the exact integral of `speed`; here that is a theorem: the distance
    has the speed curve as its derivative, with a quadratic error bound that holds
    across both joins, so every Riemann sum of the speed converges to it. */
module SpeedProfile {
  import opened Js

  const ROUTE_RAMP_S := 2.4
  const ROUTE_RAMP_MAX_FRACTION := 0.35

  datatype Profile = Profile(distance: real, speed: real)

  function RouteRampFraction(durationS: real): (r: real)
    ensures 0.0 <= r <= ROUTE_RAMP_MAX_FRACTION
    ensures r > 0.0 <==> durationS > 0.0
  {
    if !(durationS > 0.0) then 0.0 else Min(ROUTE_RAMP_MAX_FRACTION, ROUTE_RAMP_S / durationS)
  }

  function Smoothstep(p: real): real {
    p * p * (3.0 - 2.0 * p)
  }

  /** Integral of Smoothstep from 0 to p. */
  function RampIntegral(p: real): real {
    p * p * p - p * p * p * p / 2.0
  }

  function RouteSpeedProfile(u: Option<real>, r: real): Profile
    requires r < 1.0
  {
    var t := Clamp(0.0, 1.0, u.GetOr(0.0));
    if !(r > 0.0) then Profile(t, 1.0) else
    var area := 1.0 - r;
    if t <= r then
      var p := t / r;
      Profile(r * RampIntegral(p) / area, Smoothstep(p))
    else if t >= 1.0 - r then
      var p := (1.0 - t) / r;
      Profile((area - r * RampIntegral(p)) / area, Smoothstep(p))
    else
      Profile((r / 2.0 + (t - r)) / area, 1.0)
  }

  /** A ramp the flight can use: the source caps it at 0.35; one half is where ramps meet. */
  ghost predicate Ramp(r: real) {
    0.0 < r <= 0.5
  }

  ghost function Speed(u: real, r: real): real
    requires Ramp(r)
  {
    RouteSpeedProfile(Some(u), r).speed
  }

  /** Distance in units of cruise speed, that is, times the profile's area. */
  ghost function Area(u: real, r: real): real
    requires Ramp(r)
  {
    (1.0 - r) * RouteSpeedProfile(Some(u), r).distance
  }

  // ---- the ramp polynomial -------------------------------------------------

  lemma SmoothstepRange(p: real)
    requires 0.0 <= p <= 1.0
    ensures 0.0 <= Smoothstep(p) <= 1.0
  {
    assert 1.0 - Smoothstep(p) == (1.0 - p) * (1.0 - p) * (1.0 + 2.0 * p);
    MulNonNeg((1.0 - p) * (1.0 - p), 1.0 + 2.0 * p);
    MulNonNeg(p * p, 3.0 - 2.0 * p);
  }

  /** Second-order Taylor remainder of the integral, at the left end. */
  ghost function Remainder(p: real, h: real): real {
    3.0 * p + h - 3.0 * p * p - 2.0 * p * h - h * h / 2.0
  }

  lemma RemainderIdentities(p: real, h: real)
    ensures Remainder(p, h) == 3.0 * (p * (1.0 - p - h)) + p * h + h * (1.0 - h) + h * h / 2.0
    ensures 0.75 - Remainder(p, h) == (p - 0.5) * (p - 0.5) + 2.0 * ((p - 0.5 + h / 2.0) * (p - 0.5 + h / 2.0))
  {
  }

  lemma TaylorIdentity(p: real, q: real)
    ensures LeftGap(p, q) == Times(Times(q - p, q - p), Remainder(p, q - p))
  {
  }

  lemma RemainderRange(p: real, h: real)
    requires 0.0 <= p && 0.0 <= h && p + h <= 1.0
    ensures 0.0 <= Remainder(p, h) <= 0.75
  {
    RemainderIdentities(p, h);
    MulNonNeg(p, 1.0 - p - h);
    MulNonNeg(p, h);
    MulNonNeg(h, 1.0 - h);
    MulNonNeg(h, h);
    SquareNonNeg(p - 0.5);
    SquareNonNeg(p - 0.5 + h / 2.0);
  }

  lemma ScaleRange(square: real, factor: real)
    requires square >= 0.0 && 0.0 <= factor <= 0.75
    ensures 0.0 <= Times(square, factor) <= 0.75 * square
  {
    TimesNonNeg(square, factor);
    TimesMono(square, factor, 0.75);
    TimesScale(square, 0.75, 1.0);
    TimesUnit(square);
    hide Times;
  }

  /** How far the integral departs from its tangent at the left end of [p, q] ... */
  ghost function LeftGap(p: real, q: real): real {
    RampIntegral(q) - RampIntegral(p) - Times(q - p, Smoothstep(p))
  }

  /** ... and at the right end. */
  ghost function RightGap(p: real, q: real): real {
    Times(q - p, Smoothstep(q)) - (RampIntegral(q) - RampIntegral(p))
  }

  lemma LeftGapRange(p: real, q: real)
    requires 0.0 <= p <= q <= 1.0
    ensures 0.0 <= LeftGap(p, q) <= 0.75 * Times(q - p, q - p)
  {
    hide Times, LeftGap, Remainder;
    RemainderRange(p, q - p);
    TimesNonNeg(q - p, q - p);
    TaylorIdentity(p, q);
    ScaleRange(Times(q - p, q - p), Remainder(p, q - p));
  }

  lemma GapReflection(p: real, q: real)
    ensures RightGap(p, q) == LeftGap(1.0 - q, 1.0 - p)
  {
  }

  lemma RightGapRange(p: real, q: real)
    requires 0.0 <= p <= q <= 1.0
    ensures 0.0 <= RightGap(p, q) <= 0.75 * Times(q - p, q - p)
  {
    hide Times, LeftGap, RightGap;
    GapReflection(p, q);
    LeftGapRange(1.0 - q, 1.0 - p);
    assert (1.0 - p) - (1.0 - q) == q - p;
  }

  /** The ramp climbs, and never steeper than 3/2. */
  lemma SmoothstepSlope(p: real, q: real)
    requires 0.0 <= p <= q <= 1.0
    ensures 0.0 <= Smoothstep(q) - Smoothstep(p) <= 1.5 * (q - p)
  {
    var h := q - p;
    SlopeIdentities(p, h);
    SlopeRange(p, h);
    var slope := SmoothstepSecant(p, h);
    assert Smoothstep(q) - Smoothstep(p) == h * slope;
    MulNonNeg(h, slope);
    MulMono(slope, 1.5, h);
  }

  ghost function SmoothstepSecant(p: real, h: real): real {
    6.0 * p + 3.0 * h - 6.0 * p * p - 6.0 * p * h - 2.0 * h * h
  }

  lemma SlopeRange(p: real, h: real)
    requires 0.0 <= p && 0.0 <= h && p + h <= 1.0
    ensures 0.0 <= SmoothstepSecant(p, h) <= 1.5
  {
    SecantIdentities(p, h);
    MulNonNeg(p, 1.0 - p - h);
    MulNonNeg(h, 1.0 - h);
    MulNonNeg(h, h);
    SquareNonNeg(2.0 * p + h - 1.0);
  }

  lemma SecantIdentities(p: real, h: real)
    ensures SmoothstepSecant(p, h) == 6.0 * (p * (1.0 - p - h)) + 3.0 * (h * (1.0 - h)) + h * h
    ensures 1.5 - SmoothstepSecant(p, h) == 1.5 * ((2.0 * p + h - 1.0) * (2.0 * p + h - 1.0)) + h * h / 2.0
  {
  }

  lemma SlopeIdentities(p: real, h: real)
    ensures Smoothstep(p + h) - Smoothstep(p) == h * SmoothstepSecant(p, h)
  {
  }

  // ---- the whole curve, in units of the ramp length -------------------------

  /** Area under the curve up to w, when one ramp lasts 1 and the flight lasts total. */
  ghost function UnitArea(w: real, total: real): real {
    if w <= 1.0 then RampIntegral(w)
    else if w >= total - 1.0 then total - 1.0 - RampIntegral(total - w)
    else w - 0.5
  }

  ghost function UnitSpeed(w: real, total: real): real {
    if w <= 1.0 then Smoothstep(w)
    else if w >= total - 1.0 then Smoothstep(total - w)
    else 1.0
  }

  /** Over a step of length h whose left-end speed is s, the area grows by da and the
      speed by ds the way an integral and its integrand must. */
  ghost predicate Tracks(da: real, ds: real, s: real, h: real) {
    && 0.0 <= da <= h
    && -0.75 * Times(h, h) <= da - Times(h, s) <= 0.75 * Times(h, h)
    && -1.5 * h <= ds <= 1.5 * h
  }

  ghost predicate TracksBetween(w: real, x: real, total: real) {
    Tracks(UnitArea(x, total) - UnitArea(w, total), UnitSpeed(x, total) - UnitSpeed(w, total), UnitSpeed(w, total), x - w)
  }

  lemma RampTracks(p: real, q: real)
    requires 0.0 <= p <= q <= 1.0
    ensures Tracks(RampIntegral(q) - RampIntegral(p), Smoothstep(q) - Smoothstep(p), Smoothstep(p), q - p)
    ensures Tracks(RampIntegral(q) - RampIntegral(p), Smoothstep(p) - Smoothstep(q), Smoothstep(q), q - p)
  {
    hide RampIntegral, Smoothstep, Times;
    SmoothstepRange(p);
    SmoothstepRange(q);
    SmoothstepSlope(p, q);
    LeftGapRange(p, q);
    RightGapRange(p, q);
    StepRange(RampIntegral(q) - RampIntegral(p), Smoothstep(p), Smoothstep(q), q - p);
  }

  lemma StepRange(d: real, low: real, high: real, g: real)
    requires g >= 0.0 && 0.0 <= low && high <= 1.0
    requires 0.0 <= d - Times(g, low) && 0.0 <= Times(g, high) - d
    ensures 0.0 <= d <= g
  {
    TimesNonNeg(g, low);
    TimesMono(g, high, 1.0);
    TimesUnit(g);
    hide Times;
  }

  lemma TracksCompose(da1: real, ds1: real, h1: real, da2: real, ds2: real, h2: real, s: real)
    requires Tracks(da1, ds1, s, h1) && Tracks(da2, ds2, s + ds1, h2)
    ensures Tracks(da1 + da2, ds1 + ds2, s, h1 + h2)
  {
    hide Times;
    CrossTerm(ds1, h1, h2);
    TimesAdd(h2, s, ds1);
    SumTimes(h1, h2, s);
    SquareOfSum(h1, h2);
  }

  lemma SumTimes(a: real, b: real, k: real)
    ensures Times(a + b, k) == Times(a, k) + Times(b, k)
  {
  }

  lemma SquareOfSum(a: real, b: real)
    ensures Times(a + b, a + b) == Times(a, a) + 2.0 * Times(a, b) + Times(b, b)
  {
    hide Times;
    SumTimes(a, b, a + b);
    TimesAdd(a, a, b);
    TimesAdd(b, a, b);
    TimesSwap(a, b);
  }

  lemma CrossTerm(d: real, h1: real, h2: real)
    requires h2 >= 0.0 && -1.5 * h1 <= d <= 1.5 * h1
    ensures -1.5 * Times(h1, h2) <= Times(h2, d) <= 1.5 * Times(h1, h2)
  {
    hide Times;
    TimesMono(h2, d, 1.5 * h1);
    TimesMono(h2, -1.5 * h1, d);
    TimesScale(h2, 1.5, h1);
    TimesScale(h2, -1.5, h1);
    TimesSwap(h1, h2);
  }

  lemma SectionTracks(w: real, x: real, total: real)
    requires total >= 2.0 && 0.0 <= w <= x <= total
    requires x <= 1.0 || (1.0 <= w && x <= total - 1.0) || total - 1.0 <= w
    ensures TracksBetween(w, x, total)
  {
    FullRamp();
    hide RampIntegral, Smoothstep, Times;
    if x <= 1.0 {
      RampTracks(w, x);
    } else if total - 1.0 <= w {
      RampTracks(total - x, total - w);
    } else {
      TimesNonNeg(x - w, x - w);
      TimesUnit(x - w);
    }
  }

  lemma FullRamp()
    ensures RampIntegral(0.0) == 0.0 && Smoothstep(0.0) == 0.0
    ensures RampIntegral(1.0) == 0.5 && Smoothstep(1.0) == 1.0
  {
  }

  /** Any two instants: cut the step at the joins it crosses. */
  lemma AllTracks(w: real, x: real, total: real)
    requires total >= 2.0 && 0.0 <= w <= x <= total
    ensures TracksBetween(w, x, total)
    decreases (if w < 1.0 < x then 1 else 0) + (if w < total - 1.0 < x then 1 else 0)
  {
    if w < 1.0 < x {
      AllTracks(w, 1.0, total);
      AllTracks(1.0, x, total);
      TracksThrough(w, 1.0, x, total);
    } else if w < total - 1.0 < x {
      AllTracks(w, total - 1.0, total);
      AllTracks(total - 1.0, x, total);
      TracksThrough(w, total - 1.0, x, total);
    } else {
      SectionTracks(w, x, total);
    }
  }

  lemma TracksThrough(w: real, m: real, x: real, total: real)
    requires TracksBetween(w, m, total) && TracksBetween(m, x, total)
    ensures TracksBetween(w, x, total)
  {
    hide UnitArea, UnitSpeed;
    var a, b, c := UnitArea(w, total), UnitArea(m, total), UnitArea(x, total);
    var p, q, r := UnitSpeed(w, total), UnitSpeed(m, total), UnitSpeed(x, total);
    TracksCompose(b - a, q - p, m - w, c - b, r - q, x - m, p);
  }

  // ---- back to normalized time ---------------------------------------------

  lemma ScaleQuotient(x: real, d: real)
    requires d != 0.0
    ensures d * (x / d) == x
  {
  }

  lemma DivMono(a: real, b: real, r: real)
    requires r > 0.0 && a <= b
    ensures a / r <= b / r
  {
  }

  lemma DivSub(a: real, b: real, r: real)
    requires r > 0.0
    ensures a / r - b / r == (a - b) / r
  {
  }

  lemma RampUpIs(u: real, r: real)
    requires Ramp(r) && 0.0 <= u <= r
    ensures Area(u, r) == r * RampIntegral(u / r) && Speed(u, r) == Smoothstep(u / r)
  {
    hide RampIntegral, Smoothstep;
    ScaleQuotient(r * RampIntegral(u / r), 1.0 - r);
  }

  lemma CruiseIs(u: real, r: real)
    requires Ramp(r) && r < u < 1.0 - r
    ensures Area(u, r) == u - r / 2.0 && Speed(u, r) == 1.0
  {
    hide RampIntegral, Smoothstep;
    ScaleQuotient(r / 2.0 + (u - r), 1.0 - r);
  }

  lemma RampDownIs(u: real, r: real)
    requires Ramp(r) && r < u && 1.0 - r <= u <= 1.0
    ensures Area(u, r) == (1.0 - r) - r * RampIntegral((1.0 - u) / r) && Speed(u, r) == Smoothstep((1.0 - u) / r)
  {
    hide RampIntegral, Smoothstep;
    ScaleQuotient(1.0 - r - r * RampIntegral((1.0 - u) / r), 1.0 - r);
  }

  /** At a join the ramp is complete: it has half its length as area, at cruise speed. */
  lemma JoinIs(r: real)
    requires r > 0.0
    ensures r * RampIntegral(r / r) == r / 2.0 && Smoothstep(r / r) == 1.0
  {
    DivSelf(r);
    FullRamp();
    hide RampIntegral, Smoothstep;
  }

  /** The closed form on each section of the source; the sections agree at both joins. */
  lemma Sections(u: real, r: real)
    requires Ramp(r) && 0.0 <= u <= 1.0
    ensures u <= r ==> Area(u, r) == r * RampIntegral(u / r) && Speed(u, r) == Smoothstep(u / r)
    ensures r <= u <= 1.0 - r ==> Area(u, r) == u - r / 2.0 && Speed(u, r) == 1.0
    ensures 1.0 - r <= u ==>
      Area(u, r) == (1.0 - r) - r * RampIntegral((1.0 - u) / r) && Speed(u, r) == Smoothstep((1.0 - u) / r)
  {
    hide RampIntegral, Smoothstep, Area, Speed;
    JoinIs(r);
    if u <= r {
      RampUpIs(u, r);
    } else if u >= 1.0 - r {
      RampDownIs(u, r);
    } else {
      CruiseIs(u, r);
    }
    if u == r {
      assert u / r == r / r;
    }
    if u == 1.0 - r {
      assert 1.0 - u == r;
    }
  }

  lemma RampUnits(u: real, r: real)
    requires Ramp(r) && 0.0 <= u <= 1.0
    ensures r * (u / r) == u && r * (1.0 / r) == 1.0
    ensures 0.0 <= u / r <= 1.0 / r && 1.0 / r >= 2.0
    ensures (1.0 - u) / r == 1.0 / r - u / r
    ensures u <= r <==> u / r <= 1.0
    ensures u >= 1.0 - r <==> u / r >= 1.0 / r - 1.0
  {
    ScaleQuotient(u, r);
    ScaleQuotient(1.0, r);
    DivMono(0.0, u, r);
    DivMono(u, 1.0, r);
    DivMono(2.0 * r, 1.0, r);
    DivSub(1.0, u, r);
    if u / r <= 1.0 { MulMono(u / r, 1.0, r); } else { MulMono(1.0, u / r, r); }
    if u / r >= 1.0 / r - 1.0 { MulMono(1.0 / r - 1.0, u / r, r); } else { MulMono(u / r, 1.0 / r - 1.0, r); }
  }

  lemma ProfileInRampUnits(u: real, r: real)
    requires Ramp(r) && 0.0 <= u <= 1.0
    ensures Area(u, r) == r * UnitArea(u / r, 1.0 / r)
    ensures Speed(u, r) == UnitSpeed(u / r, 1.0 / r)
  {
    hide RampIntegral, Smoothstep, Area, Speed;
    Sections(u, r);
    RampUnits(u, r);
    UnitAreaScaled(u / r, 1.0 / r, r);
  }

  lemma UnitAreaScaled(w: real, total: real, r: real)
    requires r * total == 1.0
    ensures r * UnitArea(w, total) ==
      if w <= 1.0 then r * RampIntegral(w)
      else if w >= total - 1.0 then 1.0 - r - r * RampIntegral(total - w)
      else r * w - r / 2.0
  {
    hide RampIntegral;
    Spread(r, total, 1.0, RampIntegral(total - w));
  }

  lemma Spread(r: real, a: real, b: real, c: real)
    ensures r * (a - b - c) == r * a - r * b - r * c
  {
  }

  /** What it means for an area to grow by da over a time h as the integral of a speed that
      starts at s and changes by ds: it never runs backwards and never exceeds cruise speed;
      it departs from speed times time by a multiple of the time squared; and the speed
      itself has no step. */
  ghost predicate IntegralStep(da: real, s: real, ds: real, h: real, r: real) {
    && 0.0 <= da <= h
    && Times(r, Abs(da - Times(h, s))) <= 0.75 * Times(h, h)
    && Times(r, Abs(ds)) <= 1.5 * h
  }

  /** Distance is the integral of speed, over any step and across both joins. */
  lemma DistanceIntegratesSpeed(u: real, v: real, r: real)
    requires Ramp(r) && 0.0 <= u <= v <= 1.0
    ensures IntegralStep(Area(v, r) - Area(u, r), Speed(u, r), Speed(v, r) - Speed(u, r), v - u, r)
  {
    hide *;
    PositiveRamp(r);
    var w, x, total := u / r, v / r, 1.0 / r;
    RampUnits(u, r);
    RampUnits(v, r);
    DivMono(u, v, r);
    ProfileInRampUnits(u, r);
    ProfileInRampUnits(v, r);
    AllTracks(w, x, total);
    OpenTracks(w, x, total);
    Unfactor(r, UnitArea(x, total), UnitArea(w, total));
    Unfactor(r, x, w);
    Rescale(UnitArea(x, total) - UnitArea(w, total), Speed(v, r) - Speed(u, r), Speed(u, r), x - w,
            Area(v, r) - Area(u, r), v - u, r);
  }

  lemma PositiveRamp(r: real)
    requires Ramp(r)
    ensures r > 0.0
  {
  }

  lemma OpenTracks(w: real, x: real, total: real)
    requires TracksBetween(w, x, total)
    ensures Tracks(UnitArea(x, total) - UnitArea(w, total), UnitSpeed(x, total) - UnitSpeed(w, total), UnitSpeed(w, total), x - w)
  {
  }

  lemma Factor(r: real, a: real, b: real)
    ensures r * (a - b) == r * a - r * b
  {
  }

  lemma Unfactor(r: real, a: real, b: real)
    ensures Times(r, a - b) == r * a - r * b
  {
  }

  lemma Rescale(da: real, ds: real, s: real, g: real, area: real, h: real, r: real)
    requires r > 0.0 && Tracks(da, ds, s, g) && area == Times(r, da) && h == Times(r, g)
    ensures IntegralStep(area, s, ds, h, r)
  {
    hide Times;
    TimesNonNeg(r, da);
    TimesMono(r, da, g);
    TimesMono(r, Abs(ds), 1.5 * g);
    TimesScale(r, 1.5, g);
    GapFactor(da, g, s, r);
    GapScaling(da - Times(g, s), g, r);
  }

  lemma GapFactor(da: real, g: real, s: real, r: real)
    ensures Times(r, da) - Times(Times(r, g), s) == Times(r, da - Times(g, s))
  {
    hide Times;
    TimesAssoc(r, g, s);
    TimesAdd(r, da, Times(g, s));
  }

  lemma GapScaling(gap: real, g: real, r: real)
    requires r > 0.0 && -0.75 * Times(g, g) <= gap <= 0.75 * Times(g, g)
    ensures Times(r, Abs(Times(r, gap))) <= 0.75 * Times(Times(r, g), Times(r, g))
  {
    hide Times;
    AbsScale(r, gap);
    TimesMono(r, Abs(gap), 0.75 * Times(g, g));
    TimesMono(r, Times(r, Abs(gap)), Times(r, 0.75 * Times(g, g)));
    TimesScale(r, 0.75, Times(g, g));
    TimesScale(r, 0.75, Times(r, Times(g, g)));
    SquareOfProduct(r, g);
  }

  lemma SquareOfProduct(r: real, g: real)
    ensures Times(r, Times(r, Times(g, g))) == Times(Times(r, g), Times(r, g))
  {
    hide Times;
    TimesAssoc(r, g, g);
    TimesAssoc(r, Times(r, g), g);
    TimesSwap(r, Times(r, g));
    TimesAssoc(Times(r, g), r, g);
  }

  lemma AbsScale(r: real, x: real)
    requires r >= 0.0
    ensures Abs(Times(r, x)) == Times(r, Abs(x))
  {
    hide Times;
    TimesNeg(r, x);
    if x >= 0.0 { TimesNonNeg(r, x); } else { TimesNonNeg(r, -x); }
  }

  lemma ProfileStart(u: Option<real>, r: real)
    requires Ramp(r) && (u.None? || u.value <= 0.0)
    ensures RouteSpeedProfile(u, r) == Profile(0.0, 0.0)
  {
    hide RampIntegral, Smoothstep;
    RampAtRest();
    NothingOver(r);
    NothingTravelled(r, RampIntegral(0.0 / r), 1.0 - r);
  }

  lemma ProfileFinish(u: real, r: real)
    requires Ramp(r) && u >= 1.0
    ensures RouteSpeedProfile(Some(u), r) == Profile(1.0, 0.0)
  {
    hide RampIntegral, Smoothstep;
    RampAtRest();
    NothingOver(r);
    AllTravelled(r, RampIntegral(0.0 / r), 1.0 - r);
  }

  lemma RampAtRest()
    ensures RampIntegral(0.0) == 0.0 && Smoothstep(0.0) == 0.0
  {
  }

  lemma NothingTravelled(r: real, ramp: real, area: real)
    requires ramp == 0.0 && area != 0.0
    ensures r * ramp / area == 0.0
  {
    NothingOver(area);
  }

  lemma AllTravelled(r: real, ramp: real, area: real)
    requires ramp == 0.0 && area != 0.0
    ensures (area - r * ramp) / area == 1.0
  {
    DivSelf(area);
  }

  /** Rest to rest over the whole route, and inputs outside [0, 1] (or not a number) hold the ends. */
  lemma ProfileEnds(u: Option<real>, r: real)
    requires Ramp(r)
    ensures u.None? || u.value <= 0.0 ==> RouteSpeedProfile(u, r) == Profile(0.0, 0.0)
    ensures u.Some? && u.value >= 1.0 ==> RouteSpeedProfile(u, r) == Profile(1.0, 0.0)
  {
    hide RouteSpeedProfile;
    if u.None? || u.value <= 0.0 {
      ProfileStart(u, r);
    } else if u.value >= 1.0 {
      ProfileFinish(u.value, r);
    }
  }

  lemma NothingOver(d: real)
    requires d != 0.0
    ensures 0.0 / d == 0.0
  {
  }

  /** Left Riemann sum of the speed over the instants ts. */
  ghost function RiemannSum(ts: seq<real>, r: real): real
    requires Ramp(r)
  {
    if |ts| <= 1 then 0.0 else Times(ts[1] - ts[0], Speed(ts[0], r)) + RiemannSum(ts[1..], r)
  }

  /** A schedule of instants in [0, 1] whose steps are at most mesh. */
  ghost predicate Schedule(ts: seq<real>, mesh: real) {
    && |ts| > 0
    && (forall i :: 0 <= i < |ts| ==> 0.0 <= ts[i] <= 1.0)
    && forall i :: 0 <= i < |ts| - 1 ==> ts[i] <= ts[i + 1] <= ts[i] + mesh
  }

  /** The error of a Riemann sum over a stretch of the given length, as bounded by its longest step. */
  ghost predicate WithinMesh(error: real, length: real, mesh: real, r: real) {
    Times(r, Abs(error)) <= 0.75 * Times(mesh, length)
  }

  /** Summing speed times elapsed time over any frame schedule reproduces the closed form,
      with an error that vanishes with the longest frame: there is no accumulated drift to
      correct. */
  lemma {:induction false} RiemannSumsConverge(ts: seq<real>, mesh: real, r: real)
    requires Ramp(r) && Schedule(ts, mesh)
    ensures WithinMesh(Area(ts[|ts| - 1], r) - Area(ts[0], r) - RiemannSum(ts, r), ts[|ts| - 1] - ts[0], mesh, r)
  {
    hide Area, Speed, IntegralStep, WithinMesh, Times;
    var last := ts[|ts| - 1];
    if |ts| == 1 {
      NoError(mesh, r);
      assert Area(last, r) - Area(ts[0], r) - RiemannSum(ts, r) == 0.0 && last - ts[0] == 0.0;
    } else {
      var rest := ts[1..];
      assert Schedule(rest, mesh) by {
        forall i | 0 <= i < |rest| - 1 ensures rest[i] <= rest[i + 1] <= rest[i] + mesh {
          assert rest[i] == ts[i + 1] && rest[i + 1] == ts[i + 2];
        }
      }
      RiemannSumsConverge(rest, mesh, r);
      assert rest[0] == ts[1] && rest[|rest| - 1] == last;
      DistanceIntegratesSpeed(ts[0], ts[1], r);
      var da, h := Area(ts[1], r) - Area(ts[0], r), ts[1] - ts[0];
      var error, length := Area(last, r) - Area(ts[1], r) - RiemannSum(rest, r), last - ts[1];
      JoinErrors(da, Speed(ts[0], r), Speed(ts[1], r) - Speed(ts[0], r), h, error, length, mesh, r);
      assert Area(last, r) - Area(ts[0], r) - RiemannSum(ts, r) == da - Times(h, Speed(ts[0], r)) + error;
      assert last - ts[0] == h + length;
    }
  }

  lemma NoError(mesh: real, r: real)
    ensures WithinMesh(0.0, 0.0, mesh, r)
  {
    TimesUnit(r);
    TimesUnit(mesh);
    hide Times;
  }

  lemma JoinErrors(da: real, s: real, ds: real, h: real, error: real, length: real, mesh: real, r: real)
    requires Ramp(r) && 0.0 <= h <= mesh
    requires IntegralStep(da, s, ds, h, r) && WithinMesh(error, length, mesh, r)
    ensures WithinMesh(da - Times(h, s) + error, h + length, mesh, r)
  {
    hide Times;
    TimesMono(h, h, mesh);
    TimesSwap(h, mesh);
    TimesAdd(mesh, h, length);
    AbsTriangle(da - Times(h, s), error, r);
  }

  lemma AbsTriangle(a: real, b: real, r: real)
    requires r > 0.0
    ensures Times(r, Abs(a + b)) <= Times(r, Abs(a)) + Times(r, Abs(b))
  {
    hide Times;
    TimesMono(r, Abs(a + b), Abs(a) + Abs(b));
    TimesAdd(r, Abs(a), Abs(b));
  }
}
