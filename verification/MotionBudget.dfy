/** How far a bounded (`once`) motion goes under any clock, and what becomes of an orbit that
    is armed while the camera still flies. */
module MotionBudget {
  import opened Js
  import opened MotionSlot
  import opened MotionSafety

  // ---- uninterrupted ticks -------------------------------------------------

  function Ticked(s: State, rs: seq<Reading>, n: nat): State
    requires n <= |rs|
  {
    if n == 0 then s else Tick(Ticked(s, rs, n - 1), rs[n - 1])
  }

  function LastMs(rs: seq<Reading>, n: nat): Option<real>
    requires n <= |rs|
  {
    if n == 0 then None else Some(rs[n - 1].nowMs)
  }

  /** Seconds a motion started just before the readings has been given after n of them. */
  function Clocked(rs: seq<Reading>, n: nat): (t: real)
    requires n <= |rs|
    ensures MIN_TICK_S * n as real <= t <= MAX_TICK_S * n as real
  {
    if n == 0 then 0.0 else Clocked(rs, n - 1) + TickSeconds(LastMs(rs, n - 1), rs[n - 1].nowMs)
  }

  predicate Calm(rs: seq<Reading>) {
    forall k :: 0 <= k < |rs| ==> !rs[k].throws
  }

  /** A `once` motion that has not ticked yet. */
  predicate JustStarted(s: State, kind: Kind, pending: bool) {
    && Inv(s) && s.active.Some?
    && var m := s.active.value;
      && m.kind == kind && m.mode == Once && m.pending == pending
      && m.lastMs == None && m.elapsed == 0.0 && m.lastScale == 0.0 && m.pendingS == 0.0 && m.settledS == 0.0
  }

  /** The motion after n ticks of its budget, if it still runs. */
  predicate OnBudget(s: State, rs: seq<Reading>, n: nat, t: State)
    requires n <= |rs| && s.active.Some?
  {
    t.active.Some? ==>
      var m, m0 := t.active.value, s.active.value;
      && m.kind == m0.kind && m.mode == Once && m.direction == m0.direction && m.pending == m0.pending
      && m.lastMs == LastMs(rs, n) && m.elapsed == Clocked(rs, n) < ONCE_DURATION_S
      && (m.kind != Orbit ==> m.lastScale == EaseOut(m.elapsed))
      && (m.framing.Some? <==> m0.framing.Some?)
      && (m.framing.Some? ==> m.framing.value.startHeading == m0.framing.value.startHeading)
  }

  lemma ClockedStep(rs: seq<Reading>, n: nat)
    requires 0 < n <= |rs|
    ensures Clocked(rs, n) == Clocked(rs, n - 1) + TickSeconds(LastMs(rs, n - 1), rs[n - 1].nowMs)
    ensures 0.0 <= Clocked(rs, n - 1) < Clocked(rs, n)
  {
  }

  // ---- tilt ----------------------------------------------------------------

  function TiltTarget(s: State): real
    requires s.active.Some?
  {
    s.camera.pitch + ONCE_TILT_DEG * UpSign(s.active.value.direction)
  }

  function UpSign(direction: Direction): real {
    if direction == Up then 1.0 else -1.0
  }

  predicate InPitchRange(pitch: real) {
    PITCH_MIN <= pitch <= PITCH_MAX
  }

  /** One tick of a bounded tilt: it takes the eased place, or stops where it is when that place is
      outside the range. */
  lemma TiltTick(s: State, r: Reading, e: real, pitch0: real)
    requires s.active.Some? && !r.throws
    requires var m := s.active.value;
      && m.kind == Tilt && m.mode == Once && m.elapsed == e >= 0.0 && m.lastScale == EaseOut(e)
      && s.camera.pitch == TiltPlace(pitch0, m.direction, e)
    ensures var m, t, d := s.active.value, Tick(s, r), e + TickSeconds(s.active.value.lastMs, r.nowMs);
      var place := TiltPlace(pitch0, m.direction, d);
      && t.camera.pitch == (if InPitchRange(place) then place else s.camera.pitch)
      && (t.active.Some? <==> d < ONCE_DURATION_S && InPitchRange(place))
      && (t.active.Some? ==> t.active.value == m.(lastMs := Some(r.nowMs), elapsed := d, lastScale := EaseOut(d)))
  {
    var m := Timed(s.active.value, r.nowMs);
    SpentMeans(m);
    EaseOutRange(m.elapsed);
    hide EaseOut, TickSeconds, Spent;
  }

  /** Where a bounded tilt stands after the given time. */
  function TiltPlace(pitch0: real, direction: Direction, elapsed: real): real {
    pitch0 + ONCE_TILT_DEG * EaseOut(elapsed) * UpSign(direction)
  }

  /** Where the first tick of a tilt wants to go; a first tick always lasts a millisecond. */
  function FirstPlace(s: State): real
    requires s.active.Some?
  {
    TiltPlace(s.camera.pitch, s.active.value.direction, MIN_TICK_S)
  }

  /** Whether the first tick and the last one both end inside the pitch range. */
  predicate Roomy(s: State)
    requires s.active.Some?
  {
    InPitchRange(FirstPlace(s)) && InPitchRange(TiltTarget(s))
  }

  /** All places between the first and the target lie between them. */
  lemma PlaceBetween(s: State, e: real)
    requires s.active.Some? && Roomy(s) && e >= MIN_TICK_S
    ensures InPitchRange(TiltPlace(s.camera.pitch, s.active.value.direction, e))
  {
    EaseOutRange(e);
    EaseOutRises(MIN_TICK_S, e);
    hide EaseOut;
  }

  lemma PlaceStart(pitch0: real, direction: Direction)
    ensures TiltPlace(pitch0, direction, 0.0) == pitch0
  {
    EaseOutStart();
  }

  lemma PlaceEnd(pitch0: real, direction: Direction, e: real)
    requires e >= ONCE_DURATION_S
    ensures TiltPlace(pitch0, direction, e) == pitch0 + ONCE_TILT_DEG * UpSign(direction)
  {
    EaseOutRange(e);
    hide EaseOut;
  }

  lemma {:induction false} TiltProgress(s: State, rs: seq<Reading>, n: nat)
    requires JustStarted(s, Tilt, false) && Roomy(s) && Calm(rs) && n <= |rs|
    ensures var t := Ticked(s, rs, n);
      && OnBudget(s, rs, n, t)
      && t.camera.pitch == TiltPlace(s.camera.pitch, s.active.value.direction, Clocked(rs, n))
      && (t.active.Some? <==> Clocked(rs, n) < ONCE_DURATION_S)
  {
    hide EaseOut, Tick, TickSeconds, Ticked, Clocked, TiltPlace, Roomy;
    if n == 0 {
      TickedStart(s, rs);
      ClockedStart(rs);
      EaseOutStart();
      PlaceStart(s.camera.pitch, s.active.value.direction);
    } else {
      TiltProgress(s, rs, n - 1);
      TickedStep(s, rs, n);
      ClockedStep(rs, n);
      var t := Ticked(s, rs, n - 1);
      if t.active.Some? {
        PlaceBetween(s, Clocked(rs, n));
        TiltTick(t, rs[n - 1], Clocked(rs, n - 1), s.camera.pitch);
      } else {
        PlaceEnd(s.camera.pitch, s.active.value.direction, Clocked(rs, n - 1));
        PlaceEnd(s.camera.pitch, s.active.value.direction, Clocked(rs, n));
        TickIdle(t, rs[n - 1]);
      }
    }
  }

  lemma FirstTilt(s: State, rs: seq<Reading>)
    requires JustStarted(s, Tilt, false) && Calm(rs) && |rs| > 0
    ensures Ticked(s, rs, 1).camera.pitch == if InPitchRange(FirstPlace(s)) then FirstPlace(s) else s.camera.pitch
    ensures !InPitchRange(FirstPlace(s)) ==> Ticked(s, rs, 1).active.None?
  {
    hide EaseOut, Tick, TiltPlace;
    TickedStart(s, rs);
    TickedStep(s, rs, 1);
    EaseOutStart();
    PlaceStart(s.camera.pitch, s.active.value.direction);
    TiltTick(s, rs[0], 0.0, s.camera.pitch);
  }

  lemma ClockedStart(rs: seq<Reading>)
    ensures Clocked(rs, 0) == 0.0
  {
  }

  lemma TickIdle(s: State, r: Reading)
    requires s.active.None?
    ensures Tick(s, r) == s
  {
  }

  // ---- every bounded motion ends -------------------------------------------

  lemma {:induction false} TickedOk(s: State, rs: seq<Reading>, n: nat)
    requires Inv(s) && n <= |rs|
    ensures Inv(Ticked(s, rs, n))
  {
    hide Inv, Tick;
    if n > 0 {
      TickedOk(s, rs, n - 1);
      TickOk(Ticked(s, rs, n - 1), rs[n - 1]);
    }
  }

  lemma BudgetTick(s: State, r: Reading)
    requires Inv(s) && s.active.Some? && s.active.value.mode == Once && !s.active.value.pending
    ensures var t, m := Tick(s, r), s.active.value;
      t.active.Some? ==>
        var m' := t.active.value;
        && m'.kind == m.kind && m'.mode == Once && m'.direction == m.direction && !m'.pending
        && m'.lastMs == Some(r.nowMs) && m'.elapsed == m.elapsed + TickSeconds(m.lastMs, r.nowMs) < ONCE_DURATION_S
        && (m.kind != Orbit ==> m'.lastScale == EaseOut(m'.elapsed))
        && (m'.framing.Some? <==> m.framing.Some?)
        && (m.framing.Some? ==> m'.framing.value.startHeading == m.framing.value.startHeading)
  {
    SpentMeans(Timed(s.active.value, r.nowMs));
    hide EaseOut, TickSeconds, Spent, Share, Panned;
  }

  lemma {:induction false} StaysOnBudget(s: State, rs: seq<Reading>, n: nat, kind: Kind)
    requires JustStarted(s, kind, false) && n <= |rs|
    ensures OnBudget(s, rs, n, Ticked(s, rs, n))
  {
    if n == 0 {
      EaseOutStart();
    } else {
      StaysOnBudget(s, rs, n - 1, kind);
      TickedOk(s, rs, n - 1);
      ClockedStep(rs, n);
      var t := Ticked(s, rs, n - 1);
      hide Inv, EaseOut, Tick, TickSeconds;
      if t.active.Some? {
        BudgetTick(t, rs[n - 1]);
      } else {
        TickIdle(t, rs[n - 1]);
      }
    }
  }

  /** However the clock runs, a bounded motion is over once it was given 0.9 s, and so after at
      most nine hundred ticks. */
  lemma OnceEnds(s: State, rs: seq<Reading>, n: nat, kind: Kind)
    requires JustStarted(s, kind, false) && n <= |rs|
    ensures Clocked(rs, n) >= ONCE_DURATION_S || n >= 900 ==> Ticked(s, rs, n).active.None?
  {
    StaysOnBudget(s, rs, n, kind);
  }

  /** The pitch only ever moves to a place in its range, unless an orbit sets it. */
  lemma TickPitch(s: State, r: Reading)
    ensures var p := Tick(s, r).camera.pitch;
      || p == s.camera.pitch || InPitchRange(p)
      || (s.active.Some? && s.active.value.framing.Some? && s.active.value.kind == Orbit && p == s.active.value.framing.value.pitch)
  {
    hide EaseOut, TickSeconds, Spent, Share, Panned, OrbitHeading;
    if s.active.Some? && s.active.value.kind == Pan {
      PanKeepsPitch(s.camera, s.active.value.direction);
    }
  }

  lemma PanKeepsPitch(camera: Camera, direction: Direction)
    ensures forall step :: Panned(camera, direction, step).pitch == camera.pitch
  {
  }

  lemma {:induction false} TiltsInRange(s: State, rs: seq<Reading>, n: nat)
    requires JustStarted(s, Tilt, false) && Calm(rs) && 0 < n <= |rs|
    ensures var t := Ticked(s, rs, n);
      if InPitchRange(FirstPlace(s)) then InPitchRange(t.camera.pitch) else t.active.None? && t.camera.pitch == s.camera.pitch
  {
    hide InPitchRange, Tick, Ticked, JustStarted, Clocked, EaseOut, FirstPlace;
    JustStartedActive(s, Tilt, false);
    if n == 1 {
      FirstTilt(s, rs);
    } else {
      TickedStep(s, rs, n);
      TiltsInRange(s, rs, n - 1);
      StaysOnBudget(s, rs, n - 1, Tilt);
      TickPitch(Ticked(s, rs, n - 1), rs[n - 1]);
      if !InPitchRange(FirstPlace(s)) {
        TickIdle(Ticked(s, rs, n - 1), rs[n - 1]);
      }
    }
  }

  /** A bounded tilt, uninterrupted and from any pitch, ends exactly 15 degrees on if and only if
      both the place of its first millisecond and that target lie in the pitch range. When the
      first place does not, it stops unmoved; otherwise it ends inside the range. */
  lemma OnceTiltExact(s: State, rs: seq<Reading>, n: nat)
    requires JustStarted(s, Tilt, false) && Calm(rs) && n <= |rs|
    requires Clocked(rs, n) >= ONCE_DURATION_S
    ensures var t := Ticked(s, rs, n);
      && t.active.None?
      && (t.camera.pitch == TiltTarget(s) <==> InPitchRange(FirstPlace(s)) && InPitchRange(TiltTarget(s)))
      && (if InPitchRange(FirstPlace(s)) then InPitchRange(t.camera.pitch) else t.camera.pitch == s.camera.pitch)
  {
    hide Tick, EaseOut, JustStarted, TiltPlace, FirstPlace;
    OnceEnds(s, rs, n, Tilt);
    assert n > 0;
    TiltsInRange(s, rs, n);
    JustStartedActive(s, Tilt, false);
    if Roomy(s) {
      TiltProgress(s, rs, n);
      PlaceEnd(s.camera.pitch, s.active.value.direction, Clocked(rs, n));
    }
  }

  /** From just above the range a tilt down is accepted and moves nothing, although its target lies
      well inside. */
  lemma TiltFromAboveStalls(s: State, q: Request, rs: seq<Reading>, n: nat)
    requires Inv(s) && s.camera.pitch == -4.9
    requires q.motion == Moves(Tilt) && q.direction == Some(Down) && q.mode == Once && !q.navigates
    requires Calm(rs) && n <= |rs| && Clocked(rs, n) >= ONCE_DURATION_S
    ensures var (started, reply) := MoveCamera(s, q);
      && reply == Started(false) && InPitchRange(TiltTarget(started))
      && Ticked(started, rs, n).active.None? && Ticked(started, rs, n).camera.pitch == -4.9
  {
    var started := MoveCamera(s, q).0;
    NextOk(s, Asks(q));
    EaseOutAtFirst();
    hide EaseOut;
    assert JustStarted(started, Tilt, false);
    OnceTiltExact(started, rs, n);
  }

  lemma EaseOutAtFirst()
    ensures 0.002 < EaseOut(MIN_TICK_S) < 0.003
  {
  }

  lemma JustStartedActive(s: State, kind: Kind, pending: bool)
    requires JustStarted(s, kind, pending)
    ensures Inv(s) && s.active.Some? && s.active.value.kind == kind
  {
  }

  // ---- rotate, orbit, pan --------------------------------------------------

  /** The eased share of the rotation's budget, to the right. */
  function RotateShare(direction: Direction, e: real): real {
    ONCE_ROTATE_DEG * EaseOut(e) * Sign(direction)
  }

  lemma RotateShareEnds(direction: Direction, e: real)
    requires e >= 0.0
    ensures RotateShare(direction, 0.0) == 0.0
    ensures e >= ONCE_DURATION_S ==> RotateShare(direction, e) == ONCE_ROTATE_DEG * Sign(direction)
  {
    EaseOutStart();
    EaseOutRange(e);
  }

  lemma TurnStep(m: Motion, dt: real, e: real)
    requires m.mode == Once && m.lastScale == EaseOut(e)
    ensures Share(m, ONCE_ROTATE_DEG, TiltDegS(m.speed), dt) * Sign(m.direction) == RotateShare(m.direction, m.elapsed) - RotateShare(m.direction, e)
  {
    hide EaseOut;
  }

  lemma TurnTick(s: State, r: Reading)
    requires Inv(s) && s.active.Some? && !r.throws && s.active.value.kind == Rotate && s.active.value.mode == Once
    ensures var m, t := s.active.value, Tick(s, r);
      var d := m.elapsed + TickSeconds(m.lastMs, r.nowMs);
      && t.camera.lookedRight == s.camera.lookedRight + RotateShare(m.direction, d) - RotateShare(m.direction, m.elapsed)
      && (t.active.Some? <==> d < ONCE_DURATION_S)
  {
    var m := Timed(s.active.value, r.nowMs);
    SpentMeans(m);
    TurnStep(m, TickSeconds(s.active.value.lastMs, r.nowMs), s.active.value.elapsed);
    hide EaseOut, TickSeconds, Spent, Share, Scale, Sign, RotateShare;
  }

  lemma {:induction false} RotateProgress(s: State, rs: seq<Reading>, n: nat)
    requires JustStarted(s, Rotate, false) && Calm(rs) && n <= |rs|
    ensures var t, way := Ticked(s, rs, n), s.active.value.direction;
      && (t.active.Some? <==> Clocked(rs, n) < ONCE_DURATION_S)
      && t.camera.lookedRight == s.camera.lookedRight + RotateShare(way, Clocked(rs, n))
  {
    var way := s.active.value.direction;
    if n == 0 {
      RotateShareEnds(way, 0.0);
    } else {
      hide Inv, EaseOut, Tick, TickSeconds, RotateShare, Ticked, Clocked, JustStarted;
      JustStartedActive(s, Rotate, false);
      RotateProgress(s, rs, n - 1);
      StaysOnBudget(s, rs, n - 1, Rotate);
      TickedStep(s, rs, n);
      ClockedStep(rs, n);
      var t := Ticked(s, rs, n - 1);
      if t.active.Some? {
        TickedOk(s, rs, n - 1);
        TurnTick(t, rs[n - 1]);
      } else {
        RotateShareSpent(way, Clocked(rs, n - 1), Clocked(rs, n));
        TickIdle(t, rs[n - 1]);
      }
    }
  }

  lemma RotateShareSpent(direction: Direction, d: real, e: real)
    ensures ONCE_DURATION_S <= d <= e ==> RotateShare(direction, d) == RotateShare(direction, e)
  {
    if ONCE_DURATION_S <= d <= e {
      EaseOutRange(d);
      EaseOutRange(e);
    }
  }

  /** A bounded rotation, uninterrupted, has turned by the eased share of exactly 15 degrees
      after every tick, and by all of them when it ends. */
  lemma OnceRotateExact(s: State, rs: seq<Reading>, n: nat)
    requires JustStarted(s, Rotate, false) && Calm(rs) && n <= |rs|
    ensures var t, way := Ticked(s, rs, n), s.active.value.direction;
      && (t.active.Some? <==> Clocked(rs, n) < ONCE_DURATION_S)
      && t.camera.lookedRight == s.camera.lookedRight + RotateShare(way, Clocked(rs, n))
      && (t.active.None? ==> t.camera.lookedRight == s.camera.lookedRight + ONCE_ROTATE_DEG * Sign(way))
  {
    RotateProgress(s, rs, n);
    RotateShareEnds(s.active.value.direction, Clocked(rs, n));
    hide RotateShare, Sign, Ticked, EaseOut, Inv;
  }

  lemma CircleTick(s: State, r: Reading)
    requires Inv(s) && s.active.Some? && !r.throws
    requires s.active.value.kind == Orbit && s.active.value.mode == Once && !s.active.value.pending
    ensures var m, t := s.active.value, Tick(s, r);
      var d := m.elapsed + TickSeconds(m.lastMs, r.nowMs);
      && m.framing.Some?
      && t.camera.heading == m.framing.value.startHeading + ONCE_ORBIT_DEG * EaseOut(d) * Sign(m.direction)
      && t.camera.locked
      && (t.active.Some? <==> d < ONCE_DURATION_S)
  {
    SpentMeans(Timed(s.active.value, r.nowMs));
    hide EaseOut, TickSeconds, Spent;
  }

  /** A bounded orbit of a target, uninterrupted, has turned the heading by the eased share of
      exactly 30 degrees after every tick. It always ends with the lookAt transform still set. */
  lemma {:induction false} OnceOrbitExact(s: State, rs: seq<Reading>, n: nat)
    requires JustStarted(s, Orbit, false) && Calm(rs) && 0 < n <= |rs|
    ensures s.active.value.framing.Some?
    ensures var t := Ticked(s, rs, n);
      && (t.active.Some? <==> Clocked(rs, n) < ONCE_DURATION_S)
      && t.camera.heading == s.active.value.framing.value.startHeading + ONCE_ORBIT_DEG * EaseOut(Clocked(rs, n)) * Sign(s.active.value.direction)
      && t.camera.locked
  {
    hide EaseOut, Tick, TickSeconds, Ticked, Clocked, Sign;
    if n > 1 {
      OnceOrbitExact(s, rs, n - 1);
    } else {
      TickedStart(s, rs);
    }
    StaysOnBudget(s, rs, n - 1, Orbit);
    TickedOk(s, rs, n - 1);
    TickedStep(s, rs, n);
    ClockedStep(rs, n);
    var t := Ticked(s, rs, n - 1);
    if t.active.Some? {
      CircleTick(t, rs[n - 1]);
    } else {
      EaseOutRange(Clocked(rs, n - 1));
      EaseOutRange(Clocked(rs, n));
      TickIdle(t, rs[n - 1]);
    }
  }

  /** How far the camera has been slid the way the motion points. */
  function Slid(camera: Camera, direction: Direction): real {
    match direction
    case Left => -camera.movedRight
    case Right => camera.movedRight
    case Up => camera.movedUp
    case _ => -camera.movedUp
  }

  /** Every height above ground the readings give lies between the two. */
  predicate HeightsWithin(rs: seq<Reading>, lowM: real, highM: real) {
    && 50.0 <= lowM
    && forall k :: 0 <= k < |rs| ==> lowM <= Max(50.0, rs[k].cameraHeightM) <= highM
  }

  /** The eased share of a quarter of the view height. */
  function PanShareM(heightM: real, e: real): real {
    heightM * ONCE_PAN_VIEW_FRACTION * EaseOut(e)
  }

  lemma PanTakesShare(m: Motion, dt: real, heightM: real, e: real)
    requires m.mode == Once && m.lastScale == EaseOut(e)
    ensures PanStep(m, dt, heightM) == PanShareM(Max(50.0, heightM), m.elapsed) - PanShareM(Max(50.0, heightM), e)
  {
    hide EaseOut, Max;
    Distributes(Max(50.0, heightM) * ONCE_PAN_VIEW_FRACTION, EaseOut(m.elapsed), EaseOut(e));
  }

  lemma Distributes(k: real, a: real, b: real)
    ensures k * (a - b) == k * a - k * b
  {
  }

  lemma SlidesOn(camera: Camera, direction: Direction, step: real)
    ensures Slid(Panned(camera, direction, step), direction) == Slid(camera, direction) + step
  {
  }

  lemma SlideTick(s: State, r: Reading)
    requires Inv(s) && s.active.Some? && !r.throws && s.active.value.kind == Pan && s.active.value.mode == Once
    ensures var m, t, h := s.active.value, Tick(s, r), Max(50.0, r.cameraHeightM);
      var d := m.elapsed + TickSeconds(m.lastMs, r.nowMs);
      && Slid(t.camera, m.direction) == Slid(s.camera, m.direction) + PanShareM(h, d) - PanShareM(h, m.elapsed)
      && (t.active.Some? <==> d < ONCE_DURATION_S)
  {
    var m := Timed(s.active.value, r.nowMs);
    var dt := TickSeconds(s.active.value.lastMs, r.nowMs);
    SpentMeans(m);
    PanTakesShare(m, dt, r.cameraHeightM, s.active.value.elapsed);
    SlidesOn(s.camera, m.direction, PanStep(m, dt, r.cameraHeightM));
    hide EaseOut, TickSeconds, Spent, PanStep, PanShareM, Panned, Slid, Max, Scale;
  }

  lemma PanShareGrows(low: real, h: real, high: real, d: real, e: real)
    requires low <= h <= high && 0.0 <= d <= e
    ensures PanShareM(low, e) - PanShareM(low, d) <= PanShareM(h, e) - PanShareM(h, d) <= PanShareM(high, e) - PanShareM(high, d)
  {
    EaseOutRises(d, e);
    var a, b := EaseOut(d), EaseOut(e);
    hide EaseOut;
    var k0, k1, k2 := low * ONCE_PAN_VIEW_FRACTION, h * ONCE_PAN_VIEW_FRACTION, high * ONCE_PAN_VIEW_FRACTION;
    Distributes(k0, b, a);
    Distributes(k1, b, a);
    Distributes(k2, b, a);
    MulMono(k0, k1, b - a);
    MulMono(k1, k2, b - a);
  }

  lemma PanShareEnds(heightM: real, d: real, e: real)
    requires d >= 0.0 && e >= 0.0
    ensures PanShareM(heightM, 0.0) == 0.0
    ensures d >= ONCE_DURATION_S && e >= ONCE_DURATION_S ==> PanShareM(heightM, d) == PanShareM(heightM, e)
  {
    EaseOutStart();
    EaseOutRange(d);
    EaseOutRange(e);
  }

  /** A bounded pan, uninterrupted, slides by the eased share of a quarter of the view height:
      of exactly that height when it stays the same, and otherwise of one between the lowest and
      the highest it had. */
  lemma {:induction false} OncePanBetween(s: State, rs: seq<Reading>, n: nat, lowM: real, highM: real)
    requires JustStarted(s, Pan, false) && Calm(rs) && HeightsWithin(rs, lowM, highM) && n <= |rs|
    ensures var t := Ticked(s, rs, n);
      var slid := Slid(t.camera, s.active.value.direction) - Slid(s.camera, s.active.value.direction);
      && (t.active.Some? <==> Clocked(rs, n) < ONCE_DURATION_S)
      && PanShareM(lowM, Clocked(rs, n)) <= slid <= PanShareM(highM, Clocked(rs, n))
  {
    if n == 0 {
      PanShareEnds(lowM, 0.0, 0.0);
      PanShareEnds(highM, 0.0, 0.0);
    } else {
      OncePanBetween(s, rs, n - 1, lowM, highM);
      StaysOnBudget(s, rs, n - 1, Pan);
      TickedOk(s, rs, n - 1);
      ClockedStep(rs, n);
      var t := Ticked(s, rs, n - 1);
      hide Inv, EaseOut, Tick, TickSeconds, Slid, PanShareM, Max;
      if t.active.Some? {
        SlideTick(t, rs[n - 1]);
        PanShareGrows(lowM, Max(50.0, rs[n - 1].cameraHeightM), highM, Clocked(rs, n - 1), Clocked(rs, n));
      } else {
        PanShareEnds(lowM, Clocked(rs, n - 1), Clocked(rs, n));
        PanShareEnds(highM, Clocked(rs, n - 1), Clocked(rs, n));
        TickIdle(t, rs[n - 1]);
      }
    }
  }

  // ---- an orbit armed during a camera flight -------------------------------

  /** An orbit that waits for its target and has not ticked yet. */
  predicate Armed(s: State) {
    && Inv(s) && s.active.Some?
    && var m := s.active.value;
      && m.pending && m.lastMs == None && m.elapsed == 0.0 && m.pendingS == 0.0 && m.settledS == 0.0
  }

  /** Seconds, after n readings, since the last one that saw a camera flight. */
  function Quiet(rs: seq<Reading>, n: nat): (t: real)
    requires n <= |rs|
    ensures 0.0 <= t <= Clocked(rs, n)
  {
    if n == 0 || rs[n - 1].tweening then 0.0
    else Quiet(rs, n - 1) + TickSeconds(LastMs(rs, n - 1), rs[n - 1].nowMs)
  }

  predicate Waiting(s: State) {
    s.active.Some? && s.active.value.pending
  }

  predicate Circling(s: State) {
    s.active.Some? && s.active.value.kind == Orbit && !s.active.value.pending
  }

  lemma ArmedTick(s: State, r: Reading)
    requires Inv(s) && Waiting(s)
    ensures var m, t, dt := s.active.value, Tick(s, r), TickSeconds(s.active.value.lastMs, r.nowMs);
      && t.camera.heading == s.camera.heading && t.camera.pitch == s.camera.pitch
      && (Waiting(t) ==>
           var m' := t.active.value;
           && m'.mode == m.mode && m'.lastMs == Some(r.nowMs)
           && m'.pendingS == m.pendingS + dt <= ARM_TIMEOUT_S
           && m'.settledS == (if r.tweening then 0.0 else m.settledS + dt)
           && (m.mode == Once ==> m'.elapsed == m.elapsed + dt < ONCE_DURATION_S))
      && (t.active.Some? <==> Waiting(t) || Circling(t))
      && (Circling(t) ==> t.active.value.mode == m.mode)
      && (Circling(t) <==>
           && !r.tweening && m.settledS + dt >= SETTLE_S && r.pick.Picked?
           && m.pendingS + dt <= ARM_TIMEOUT_S && (m.mode == Once ==> m.elapsed + dt < ONCE_DURATION_S))
  {
    SpentMeans(Timed(s.active.value, r.nowMs));
    hide TickSeconds, Spent;
  }

  /** While an orbit waits, its timers read the time since it was armed and since the last camera
      flight. */
  lemma {:induction false} WaitingTimers(s: State, rs: seq<Reading>, n: nat)
    requires Armed(s) && n <= |rs| && Waiting(Ticked(s, rs, n))
    ensures var m := Ticked(s, rs, n).active.value;
      && m.mode == s.active.value.mode && m.lastMs == LastMs(rs, n)
      && m.pendingS == Clocked(rs, n) <= ARM_TIMEOUT_S && m.settledS == Quiet(rs, n)
      && (m.mode == Once ==> m.elapsed == Clocked(rs, n) < ONCE_DURATION_S)
    ensures forall k :: 0 <= k <= n ==> Waiting(Ticked(s, rs, k))
  {
    hide Tick, TickSeconds, Inv, Armed, Ticked, Clocked, Quiet;
    ArmedInv(s);
    if n == 0 {
      TimersStart(s, rs);
    } else {
      TickedStep(s, rs, n);
      ClockedStep(rs, n);
      QuietStep(rs, n);
      var t := Ticked(s, rs, n - 1);
      TickedOk(s, rs, n - 1);
      WasWaiting(t, rs[n - 1]);
      WaitingTimers(s, rs, n - 1);
      ArmedTick(t, rs[n - 1]);
    }
  }

  lemma TimersStart(s: State, rs: seq<Reading>)
    requires Armed(s)
    ensures Ticked(s, rs, 0) == s && Clocked(rs, 0) == Quiet(rs, 0) == 0.0 && Waiting(s)
    ensures var m := s.active.value; m.lastMs == None && m.pendingS == m.settledS == m.elapsed == 0.0
  {
  }

  lemma QuietStep(rs: seq<Reading>, n: nat)
    requires 0 < n <= |rs|
    ensures Quiet(rs, n) == if rs[n - 1].tweening then 0.0 else Quiet(rs, n - 1) + TickSeconds(LastMs(rs, n - 1), rs[n - 1].nowMs)
  {
  }

  lemma WasWaiting(s: State, r: Reading)
    requires Inv(s) && Waiting(Tick(s, r))
    ensures Waiting(s)
  {
    hide EaseOut, TickSeconds, Spent, Share, Panned, OrbitHeading;
  }

  /** When an armed orbit starts to circle: at the first tick that finds a target 0.8 s after the
      last camera flight, if fewer than 30 s have passed and, for a bounded orbit, fewer than the
      0.9 s of its budget, which runs while it waits. */
  lemma CapturesExactly(s: State, rs: seq<Reading>, n: nat)
    requires Armed(s) && n < |rs| && Waiting(Ticked(s, rs, n))
    ensures Circling(Ticked(s, rs, n + 1)) <==>
      && rs[n].pick.Picked? && !rs[n].tweening && Quiet(rs, n + 1) >= 0.8
      && Clocked(rs, n + 1) <= 30.0
      && (s.active.value.mode == Once ==> Clocked(rs, n + 1) < 0.9)
  {
    WaitingTimers(s, rs, n);
    TickedOk(s, rs, n);
    ClockedStep(rs, n + 1);
    ArmedTick(Ticked(s, rs, n), rs[n]);
    hide Tick, TickSeconds, Inv;
  }

  lemma {:induction false} QuietSince(rs: seq<Reading>, k: nat, n: nat)
    requires k < n <= |rs| && rs[k].tweening
    ensures Quiet(rs, n) <= Clocked(rs, n) - Clocked(rs, k + 1)
  {
    if n > k + 1 {
      QuietSince(rs, k, n - 1);
    }
  }

  /** A bounded orbit armed during a camera flight never circles when the flight still runs 0.1 s
      later: its budget ends before the camera has been still for 0.8 s. The camera never turns. */
  lemma {:induction false} ArmedOnceExpires(s: State, rs: seq<Reading>, k: nat, n: nat)
    requires Armed(s) && s.active.value.mode == Once && k < n <= |rs|
    requires rs[k].tweening && Clocked(rs, k + 1) >= ONCE_DURATION_S - SETTLE_S && Waiting(Ticked(s, rs, k))
    ensures var t := Ticked(s, rs, n);
      && (t.active.Some? ==> Waiting(t))
      && (Clocked(rs, n) >= ONCE_DURATION_S ==> t.active.None?)
      && t.camera.heading == Ticked(s, rs, k).camera.heading
  {
    hide Ticked, Tick, TickSeconds, Inv, Quiet, Clocked, Armed;
    if n > k + 1 {
      ArmedOnceExpires(s, rs, k, n - 1);
    }
    var t := Ticked(s, rs, n - 1);
    TickedStep(s, rs, n);
    ArmedInv(s);
    TickedOk(s, rs, n - 1);
    if t.active.None? {
      ClockedStep(rs, n);
      TickIdle(t, rs[n - 1]);
    } else {
      ArmedTick(t, rs[n - 1]);
      CapturesExactly(s, rs, n - 1);
      QuietSince(rs, k, n);
      if Waiting(Ticked(s, rs, n)) {
        WaitingTimers(s, rs, n);
      }
    }
  }

  lemma TickedStart(s: State, rs: seq<Reading>)
    ensures Ticked(s, rs, 0) == s
  {
  }

  lemma TickedStep(s: State, rs: seq<Reading>, n: nat)
    requires 0 < n <= |rs|
    ensures Ticked(s, rs, n) == Tick(Ticked(s, rs, n - 1), rs[n - 1])
  {
  }

  lemma ArmedInv(s: State)
    requires Armed(s)
    ensures Inv(s)
  {
  }
}
