/** Antimeridian arithmetic (locations.js): spans measured the short way round, wrapped
    longitudes, and the padded rectangle a viewport flight frames. Degrees throughout. */
module Viewport {
  import opened Js
  import opened Turns

  datatype Corner = Corner(lat: Option<real>, lng: Option<real>)

  datatype Metrics = Metrics(latSpanDeg: real, lonSpanDeg: real, centerLat: real, centerLng: real)

  /** East of west as on a globe: a rectangle whose east is less than its west crosses the dateline. */
  datatype Rectangle = Rectangle(west: real, south: real, east: real, north: real)

  function WrapLongitude(lng: real): real {
    Mod360(lng + 180.0) - 180.0
  }

  lemma WrapTakesTurns(lng: real) returns (turns: int)
    ensures WrapLongitude(lng) == lng - 360.0 * turns as real
    ensures -180.0 <= WrapLongitude(lng) < 180.0
  {
    turns := ModTakesTurns(lng + 180.0);
  }

  // ---- the viewport --------------------------------------------------------

  /** The four corner readings, when every one is a finite number. */
  datatype Bounds = Bounds(south: real, west: real, north: real, east: real)

  function FiniteBounds(southwest: Corner, northeast: Corner): Option<Bounds> {
    if southwest.lat.None? || southwest.lng.None? || northeast.lat.None? || northeast.lng.None? then None
    else Some(Bounds(southwest.lat.value, southwest.lng.value, northeast.lat.value, northeast.lng.value))
  }

  function ViewportMetrics(b: Bounds): Metrics {
    var span := Mod360(b.east - b.west);
    var center := b.west + span / 2.0;
    Metrics(b.north - b.south, span, (b.south + b.north) / 2.0, if center > 180.0 then center - 360.0 else center)
  }

  function LatitudePadding(b: Bounds): real {
    Max(0.05, Abs(b.north - b.south) * 0.12)
  }

  function LongitudePadding(b: Bounds): real {
    Max(0.05, Mod360(b.east - b.west) * 0.12)
  }

  /** The rectangle `flyToViewportBounds` frames; None for a viewport that is not finite. */
  function FramedRectangle(southwest: Corner, northeast: Corner): Option<Rectangle> {
    var finite := FiniteBounds(southwest, northeast);
    if finite.None? then None else
    var b := finite.value;
    var m := ViewportMetrics(b);
    var pad := LongitudePadding(b);
    var south, north := Max(-89.9, b.south - LatitudePadding(b)), Min(89.9, b.north + LatitudePadding(b));
    if m.lonSpanDeg + pad * 2.0 >= 360.0 then Some(Rectangle(-180.0, south, 180.0, north))
    else Some(Rectangle(WrapLongitude(b.west - pad), south, WrapLongitude(b.west + m.lonSpanDeg + pad), north))
  }

  /** Whether the rectangle contains the meridian, whichever way that is written. */
  predicate ContainsMeridian(r: Rectangle, lng: real) {
    var x := WrapLongitude(lng);
    if r.west <= r.east then r.west <= x <= r.east else x >= r.west || x <= r.east
  }

  /** Degrees of a walk east from one meridian to another. */
  function Eastward(start: real, end: real): real {
    Mod360(end - start)
  }

  lemma EastwardOfWrapped(start: real, end: real)
    ensures var w, x := WrapLongitude(start), WrapLongitude(end);
      Eastward(start, end) == if x >= w then x - w else x - w + 360.0
  {
    var a := WrapTakesTurns(start);
    var b := WrapTakesTurns(end);
    hide Mod360;
    var w, x := WrapLongitude(start), WrapLongitude(end);
    if x >= w {
      ModIs(end - start, b - a, x - w);
    } else {
      ModIs(end - start, b - a - 1, x - w + 360.0);
    }
  }

  /** An arc shorter than a full turn, its ends wrapped: the rectangle contains a meridian
      exactly when a walk east from its start meets it in time, across the dateline or not. */
  lemma WrappedArc(start: real, width: real, south: real, north: real, lng: real)
    requires 0.0 < width < 360.0
    ensures ContainsMeridian(Rectangle(WrapLongitude(start), south, WrapLongitude(start + width), north), lng)
       <==> Eastward(start, lng) <= width
  {
    var w, e, x := WrapLongitude(start), WrapLongitude(start + width), WrapLongitude(lng);
    var a := WrapTakesTurns(start);
    var b := WrapTakesTurns(start + width);
    var c := WrapTakesTurns(lng);
    EastwardOfWrapped(start, lng);
    EastwardOfWrapped(start, start + width);
    ModIs(width, 0, width);
    assert start + width - start == width;
    hide Mod360, WrapLongitude;
  }

  lemma PaddingPositive(b: Bounds)
    ensures LongitudePadding(b) >= 0.05 && 0.0 <= Mod360(b.east - b.west) < 360.0
  {
    var _ := ModTakesTurns(b.east - b.west);
  }

  /** What a viewport flight frames: exactly the meridians of the box's eastward arc widened by
      the padding at both ends, or all of them when that comes to a full turn. */
  lemma FramesPaddedArc(southwest: Corner, northeast: Corner, lng: real)
    requires FiniteBounds(southwest, northeast).Some?
    ensures FramedRectangle(southwest, northeast).Some?
    ensures var b, r := FiniteBounds(southwest, northeast).value, FramedRectangle(southwest, northeast).value;
      var span, pad := Mod360(b.east - b.west), LongitudePadding(b);
      ContainsMeridian(r, lng) <==> span + 2.0 * pad >= 360.0 || Eastward(b.west - pad, lng) <= span + 2.0 * pad
  {
    var b := FiniteBounds(southwest, northeast).value;
    var span, pad := Mod360(b.east - b.west), LongitudePadding(b);
    var r := FramedRectangle(southwest, northeast).value;
    PaddingPositive(b);
    var _ := WrapTakesTurns(lng);
    if span + 2.0 * pad < 360.0 {
      WrappedArc(b.west - pad, span + 2.0 * pad, r.south, r.north, lng);
      assert b.west - pad + (span + 2.0 * pad) == b.west + span + pad;
    }
    hide Mod360, WrapLongitude, LongitudePadding;
  }

  /** Every meridian a walk east from the west side meets before the east side is framed. */
  lemma FramesTheArc(southwest: Corner, northeast: Corner, lng: real)
    requires FiniteBounds(southwest, northeast).Some?
    requires var b := FiniteBounds(southwest, northeast).value; Eastward(b.west, lng) <= Eastward(b.west, b.east)
    ensures ContainsMeridian(FramedRectangle(southwest, northeast).value, lng)
  {
    var b := FiniteBounds(southwest, northeast).value;
    var span, pad := Mod360(b.east - b.west), LongitudePadding(b);
    FramesPaddedArc(southwest, northeast, lng);
    PaddingPositive(b);
    var k := ModTakesTurns(lng - b.west);
    var m := Mod360(lng - b.west);
    hide Mod360, LongitudePadding, ContainsMeridian, FramedRectangle;
    if span + 2.0 * pad < 360.0 {
      ModIs(lng - (b.west - pad), k, m + pad);
    }
  }

  /** The box a geocoder's corners describe: from the west side east to the east side. */
  predicate InBox(b: Bounds, lng: real) {
    b.west <= lng <= if b.east >= b.west then b.east else b.east + 360.0
  }

  /** Corners between -180 and 180: the whole box is framed, across the dateline or not, except
      the one box that spans the full turn, whose span reads as zero. */
  lemma FramesBoxExactly(southwest: Corner, northeast: Corner)
    requires FiniteBounds(southwest, northeast).Some?
    requires var b := FiniteBounds(southwest, northeast).value; -180.0 <= b.west <= 180.0 && -180.0 <= b.east <= 180.0
    ensures var b, r := FiniteBounds(southwest, northeast).value, FramedRectangle(southwest, northeast).value;
      (forall lng :: InBox(b, lng) ==> ContainsMeridian(r, lng)) <==> b.east - b.west != 360.0
  {
    var b, r := FiniteBounds(southwest, northeast).value, FramedRectangle(southwest, northeast).value;
    if b.east - b.west != 360.0 {
      forall lng | InBox(b, lng)
        ensures ContainsMeridian(r, lng)
      {
        BoxIsArc(b, lng);
        hide Mod360, ContainsMeridian;
        FramesTheArc(southwest, northeast, lng);
      }
    } else {
      assert InBox(b, 0.0);
      WorldIsLost(southwest, northeast);
    }
  }

  lemma BoxIsArc(b: Bounds, lng: real)
    requires InBox(b, lng) && -360.0 <= b.east - b.west < 360.0
    ensures Eastward(b.west, lng) <= Eastward(b.west, b.east)
  {
    var width := if b.east >= b.west then b.east - b.west else b.east - b.west + 360.0;
    ModIs(b.east - b.west, if b.east >= b.west then 0 else -1, width);
    ModIs(lng - b.west, 0, lng - b.west);
    hide Mod360;
  }

  /** The full-turn box frames a tenth of a degree at the dateline: the prime meridian is not in it. */
  lemma WorldIsLost(southwest: Corner, northeast: Corner)
    requires FiniteBounds(southwest, northeast).Some?
    requires var b := FiniteBounds(southwest, northeast).value; b.west == -180.0 && b.east == 180.0
    ensures !ContainsMeridian(FramedRectangle(southwest, northeast).value, 0.0)
  {
    ModIs(360.0, 1, 0.0);
    ModIs(180.05, 0, 180.05);
    assert LongitudePadding(FiniteBounds(southwest, northeast).value) == 0.05;
    FramesPaddedArc(southwest, northeast, 0.0);
    assert Eastward(-180.0 - 0.05, 0.0) == 180.05;
    hide Mod360, ContainsMeridian, LongitudePadding;
  }

  /** The latitudes framed: the box's own, and none within a tenth of a degree of a pole. */
  lemma FramesLatitudes(southwest: Corner, northeast: Corner, lat: real)
    requires FiniteBounds(southwest, northeast).Some?
    requires var b := FiniteBounds(southwest, northeast).value; b.south <= lat <= b.north
    ensures var r := FramedRectangle(southwest, northeast).value;
      r.south <= lat <= r.north <==> -89.9 <= lat <= 89.9
  {
    hide Mod360, WrapLongitude, LongitudePadding;
  }

  /** The centre is half the span east of the west side, and a longitude. */
  lemma CenterIsMidpoint(b: Bounds)
    requires -180.0 <= b.west <= 180.0
    ensures var m := ViewportMetrics(b);
      -180.0 <= m.centerLng <= 180.0 && Eastward(b.west, m.centerLng) == m.lonSpanDeg / 2.0
  {
    var m := ViewportMetrics(b);
    var _ := ModTakesTurns(b.east - b.west);
    ModIs(m.centerLng - b.west, if b.west + m.lonSpanDeg / 2.0 > 180.0 then -1 else 0, m.lonSpanDeg / 2.0);
    hide Mod360;
  }

  /** The box whose corners are numbers, side by side: none is taken for another. */
  lemma FiniteExactly(southwest: Corner, northeast: Corner)
    ensures var b := FiniteBounds(southwest, northeast);
      && (b.Some? <==> southwest.lat.Some? && southwest.lng.Some? && northeast.lat.Some? && northeast.lng.Some?)
      && (b.Some? ==> southwest == Corner(Some(b.value.south), Some(b.value.west)) && northeast == Corner(Some(b.value.north), Some(b.value.east)))
  {
  }

  /** What a viewport measures: its height, the way east from one side to the other in less than a
      turn, and its middle. */
  lemma MeasuresExactly(b: Bounds, turns: int, span: real)
    requires b.east - b.west == span + 360.0 * turns as real && 0.0 <= span < 360.0
    ensures var m := ViewportMetrics(b);
      && m.latSpanDeg == b.north - b.south && m.lonSpanDeg == span && 2.0 * m.centerLat == b.south + b.north
      && (m.centerLng == b.west + span / 2.0 || m.centerLng == b.west + span / 2.0 - 360.0)
  {
    ModIs(b.east - b.west, turns, span);
    hide Mod360;
  }

  /** Twelve hundredths of a span are added on every side, and at least a twentieth of a degree. */
  predicate Pads(span: real, pad: real) {
    pad == if span * 0.12 > 0.05 then span * 0.12 else 0.05
  }

  /** The edges of the framed rectangle: the box's own, padded by twelve hundredths of its span or a
      twentieth of a degree, never nearer than a tenth of a degree to a pole, and wrapped; or the whole
      turn when the padded span comes to one. */
  lemma FramesExactly(southwest: Corner, northeast: Corner, turns: int, span: real, padLat: real, padLng: real) returns (a: int, c: int)
    requires FiniteBounds(southwest, northeast).Some?
    requires var b := FiniteBounds(southwest, northeast).value;
      && b.east - b.west == span + 360.0 * turns as real && 0.0 <= span < 360.0 && Pads(span, padLng)
      && Pads(if b.north >= b.south then b.north - b.south else b.south - b.north, padLat)
    ensures var b, r := FiniteBounds(southwest, northeast).value, FramedRectangle(southwest, northeast).value;
      && r.south == (if b.south - padLat < -89.9 then -89.9 else b.south - padLat)
      && r.north == (if b.north + padLat > 89.9 then 89.9 else b.north + padLat)
      && (span + 2.0 * padLng >= 360.0 ==> r.west == -180.0 && r.east == 180.0)
      && (span + 2.0 * padLng < 360.0 ==>
            && r.west == b.west - padLng - 360.0 * a as real && r.east == b.west + span + padLng - 360.0 * c as real
            && -180.0 <= r.west < 180.0 && -180.0 <= r.east < 180.0)
  {
    var b := FiniteBounds(southwest, northeast).value;
    ModIs(b.east - b.west, turns, span);
    a := WrapTakesTurns(b.west - padLng);
    c := WrapTakesTurns(b.west + span + padLng);
    hide Mod360, WrapLongitude;
  }
}
