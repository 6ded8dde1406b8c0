/** Which way and how fast the motions go, in degrees, metres and seconds: bounded ones by their whole
    budget, continuous ones by the rate of their speed word for as long as they run. */
module MotionRates {
  import opened Js
  import opened MotionSlot
  import opened MotionSafety
  import opened MotionBudget

  /** The value of a speed word. */
  function By(speed: Speed, slow: real, normal: real, fast: real): real {
    match speed case Slow => slow case Normal => normal case Fast => fast
  }

  // ---- the clock -----------------------------------------------------------

  /** Ticks that come no faster than a millisecond and no slower than a quarter of a second. */
  predicate Steady(rs: seq<Reading>) {
    forall k :: 0 < k < |rs| ==> 1.0 <= rs[k].nowMs - rs[k - 1].nowMs <= 250.0
  }

  /** Over steady ticks a motion is given the time that passes on the clock, and one millisecond for
      its first tick. */
  lemma {:induction false} ClockedIsTime(rs: seq<Reading>, n: nat)
    requires Steady(rs) && 0 < n <= |rs|
    ensures Clocked(rs, n) == 0.001 + (rs[n - 1].nowMs - rs[0].nowMs) / 1000.0
  {
    if n > 1 {
      ClockedIsTime(rs, n - 1);
    }
  }

  // ---- bounded motions -----------------------------------------------------

  /** How much of its budget a bounded motion has spent: a parabola that starts steeply and comes to
      rest after 0.9 s. */
  function Eased(e: real): real {
    if e >= 0.9 then 1.0 else e * (1.8 - e) / 0.81
  }

  lemma EaseOutIs(e: real)
    requires 0.0 <= e
    ensures EaseOut(e) == Eased(e)
  {
    EaseOutRange(e);
    var t := e / 0.9;
    assert e == 0.9 * t;
    EaseIdentity(t);
  }

  lemma EaseIdentity(t: real)
    ensures 1.0 - (1.0 - t) * (1.0 - t) == (0.9 * t) * (1.8 - 0.9 * t) / 0.81
  {
  }

  /** A bounded rotation to the left goes 15 degrees to the left, and one to the right 15 degrees to
      the right. */
  lemma RotatesBy(s: State, rs: seq<Reading>, n: nat)
    requires JustStarted(s, Rotate, false) && Calm(rs) && n <= |rs|
    ensures var t, way, e := Ticked(s, rs, n), s.active.value.direction, Clocked(rs, n);
      && (t.active.None? <==> e >= 0.9)
      && t.camera.lookedRight == s.camera.lookedRight + if way == Left then -(15.0 * Eased(e)) else 15.0 * Eased(e)
  {
    OnceRotateExact(s, rs, n);
    EaseOutIs(Clocked(rs, n));
    hide EaseOut, Ticked, Clocked, Eased, JustStarted;
  }

  /** A bounded orbit to the left turns its heading 30 degrees to the left of where it started, any
      other 30 degrees to the right. */
  lemma OrbitsBy(s: State, rs: seq<Reading>, n: nat)
    requires JustStarted(s, Orbit, false) && Calm(rs) && 0 < n <= |rs| && s.active.value.framing.Some?
    ensures var t, way, e, f := Ticked(s, rs, n), s.active.value.direction, Clocked(rs, n), s.active.value.framing.value;
      && (t.active.None? <==> e >= 0.9)
      && t.camera.heading == f.startHeading + if way == Left then -(30.0 * Eased(e)) else 30.0 * Eased(e)
  {
    OnceOrbitExact(s, rs, n);
    EaseOutIs(Clocked(rs, n));
    hide EaseOut, Ticked, Clocked, Eased, JustStarted;
  }

  /** Seconds a motion is given by n ticks that follow a reading of the clock. */
  function GivenFrom(lastMs: Option<real>, rs: seq<Reading>, n: nat): (t: real)
    requires n <= |rs|
    ensures t >= 0.0
  {
    if n == 0 then 0.0
    else GivenFrom(lastMs, rs, n - 1) + TickSeconds(if n == 1 then lastMs else Some(rs[n - 2].nowMs), rs[n - 1].nowMs)
  }

  /** A bounded orbit that circles, and has none of its budget spent. */
  predicate Captured(s: State) {
    && Inv(s) && Circling(s) && s.active.value.mode == Once && s.active.value.elapsed == 0.0 && s.active.value.framing.Some?
  }

  /** The tick at which a waiting bounded orbit finds its target starts its budget afresh, from the
      camera's own heading and at the pitch and range of the target. */
  lemma CaptureStartsFresh(s: State, r: Reading)
    requires Inv(s) && Waiting(s) && s.active.value.mode == Once && Circling(Tick(s, r))
    ensures Captured(Tick(s, r)) && r.pick.Picked?
    ensures Tick(s, r).active.value.framing == Some(Framing(s.camera.heading, s.camera.heading, r.pick.pitch, r.pick.range))
  {
    TickOk(s, r);
    ArmedTick(s, r);
    hide TickSeconds, Inv, EaseOut, Spent;
  }

  lemma IdleStays(s: State, rs: seq<Reading>, n: nat)
    requires 0 < n <= |rs| && Ticked(s, rs, n - 1).active.None?
    ensures Ticked(s, rs, n) == Ticked(s, rs, n - 1)
  {
    TickIdle(Ticked(s, rs, n - 1), rs[n - 1]);
    hide Tick;
  }

  /** From then on it turns by the eased share of its 30 degrees in the time it is given, and ends with
      all of them, however long it waited before. */
  lemma {:induction false} CapturedOrbitsBy(s: State, rs: seq<Reading>, n: nat)
    requires Captured(s) && Calm(rs) && 0 < n <= |rs|
    ensures var t, m, e := Ticked(s, rs, n), s.active.value, GivenFrom(s.active.value.lastMs, rs, n);
      && (t.active.None? <==> e >= 0.9)
      && t.camera.heading == m.framing.value.startHeading + (if m.direction == Left then -(30.0 * Eased(e)) else 30.0 * Eased(e))
      && (t.active.Some? ==>
            && Inv(t) && Circling(t) && t.active.value.mode == Once && t.active.value.elapsed == e && t.active.value.direction == m.direction
            && t.active.value.lastMs == Some(rs[n - 1].nowMs)
            && t.active.value.framing.Some? && t.active.value.framing.value.startHeading == m.framing.value.startHeading)
  {
    hide Inv, Tick, TickSeconds, Ticked, EaseOut, Eased;
    TickedStep(s, rs, n);
    var before, e := Ticked(s, rs, n - 1), GivenFrom(s.active.value.lastMs, rs, n);
    if n == 1 {
      TickedStart(s, rs);
    } else {
      CapturedOrbitsBy(s, rs, n - 1);
    }
    EaseOutIs(e);
    if before.active.Some? {
      TickOk(before, rs[n - 1]);
      CircleTick(before, rs[n - 1]);
      BudgetTick(before, rs[n - 1]);
    } else {
      IdleStays(s, rs, n);
      TimePasses(s.active.value.lastMs, rs, n);
      EasedAtEnd(e);
      EasedAtEnd(GivenFrom(s.active.value.lastMs, rs, n - 1));
    }
  }

  lemma TimePasses(lastMs: Option<real>, rs: seq<Reading>, n: nat)
    requires 0 < n <= |rs|
    ensures GivenFrom(lastMs, rs, n - 1) <= GivenFrom(lastMs, rs, n)
  {
  }

  lemma EasedAtEnd(e: real)
    ensures e >= 0.9 ==> Eased(e) == 1.0
  {
  }

  /** A bounded tilt up raises the pitch by 15 degrees and one down lowers it by 15, where both ends
      lie between -89 and -5 degrees. */
  lemma TiltsBy(s: State, rs: seq<Reading>, n: nat)
    requires JustStarted(s, Tilt, false) && Calm(rs) && n <= |rs| && Clocked(rs, n) >= 0.9
    requires var p := s.camera.pitch + if s.active.value.direction == Up then 15.0 else -15.0;
      -89.0 <= s.camera.pitch <= -5.0 && -89.0 <= p <= -5.0
    ensures Ticked(s, rs, n).camera.pitch == s.camera.pitch + if s.active.value.direction == Up then 15.0 else -15.0
  {
    OnceTiltExact(s, rs, n);
    EaseOutRange(MIN_TICK_S);
    hide EaseOut, Ticked, Clocked, JustStarted;
  }

  predicate AtHeight(rs: seq<Reading>, heightM: real) {
    forall k :: 0 <= k < |rs| ==> rs[k].cameraHeightM == heightM
  }

  /** A bounded pan at one height slides by a quarter of that height, but not less than of 50 m, in
      the direction it names. */
  lemma PansBy(s: State, rs: seq<Reading>, n: nat, heightM: real)
    requires JustStarted(s, Pan, false) && Calm(rs) && AtHeight(rs, heightM) && n <= |rs| && Clocked(rs, n) >= 0.9
    ensures var c, c', way, slide := s.camera, Ticked(s, rs, n).camera, s.active.value.direction, Max(50.0, heightM) * 0.25;
      && (way == Left ==> c'.movedRight == c.movedRight - slide)
      && (way == Right ==> c'.movedRight == c.movedRight + slide)
      && (way == Up ==> c'.movedUp == c.movedUp + slide)
      && (way == Down ==> c'.movedUp == c.movedUp - slide)
  {
    hide EaseOut, Ticked, Clocked, JustStarted, PanShareM;
    var h := Max(50.0, heightM);
    OncePanBetween(s, rs, n, h, h);
    WholeShare(h, Clocked(rs, n));
  }

  lemma WholeShare(h: real, e: real)
    requires e >= 0.9
    ensures PanShareM(h, e) == h * 0.25
  {
    EaseOutRange(e);
    hide EaseOut;
  }

  // ---- continuous motions --------------------------------------------------

  /** A continuous motion that has not ticked yet. */
  predicate Continues(s: State, kind: Kind) {
    Inv(s) && s.active.Some? && s.active.value.kind == kind && s.active.value.mode == Continuous
    && !s.active.value.pending && s.active.value.lastMs == None
  }

  /** It still runs, and its clock has read the ticks so far. */
  predicate StillRuns(s: State, rs: seq<Reading>, n: nat, t: State)
    requires n <= |rs| && s.active.Some?
  {
    t.active.Some? && var m, m0 := t.active.value, s.active.value;
      m.kind == m0.kind && m.mode == Continuous && m.direction == m0.direction && m.speed == m0.speed
      && !m.pending && m.lastMs == LastMs(rs, n)
  }

  lemma Grows(rate: real, t: real, dt: real)
    ensures Times(rate, t) + Times(rate, dt) == Times(rate, t + dt)
  {
  }

  /** The distance a rate has covered, to one side or the other. */
  function Covered(rate: real, forward: bool, t: real): real {
    if forward then Times(rate, t) else -Times(rate, t)
  }

  lemma RotateTick(s: State, r: Reading)
    requires s.active.Some? && !r.throws && s.active.value.kind == Rotate && s.active.value.mode == Continuous
    ensures var m, t, dt := s.active.value, Tick(s, r), TickSeconds(s.active.value.lastMs, r.nowMs);
      && t.active.Some? && t.active.value == m.(lastMs := Some(r.nowMs), lastScale := 1.0)
      && t.camera.lookedRight == s.camera.lookedRight + Covered(By(m.speed, 4.0, 10.0, 20.0), m.direction != Left, dt)
  {
    hide TickSeconds, EaseOut;
  }

  /** A continuous rotation turns by 4, 10 or 20 degrees a second, to the left or to the right. */
  lemma {:induction false} RotatesOn(s: State, rs: seq<Reading>, n: nat)
    requires Continues(s, Rotate) && Calm(rs) && n <= |rs|
    ensures var t, m := Ticked(s, rs, n), s.active.value;
      && StillRuns(s, rs, n, t)
      && t.camera.lookedRight == s.camera.lookedRight + Covered(By(m.speed, 4.0, 10.0, 20.0), m.direction != Left, Clocked(rs, n))
  {
    hide Inv, Tick, TickSeconds, Ticked, Clocked, Times, By;
    if n == 0 {
      TickedStart(s, rs);
      ClockedStart(rs);
      TimesUnit(By(s.active.value.speed, 4.0, 10.0, 20.0));
    } else {
      RotatesOn(s, rs, n - 1);
      TickedStep(s, rs, n);
      ClockedStep(rs, n);
      RotateTick(Ticked(s, rs, n - 1), rs[n - 1]);
      Grows(By(s.active.value.speed, 4.0, 10.0, 20.0), Clocked(rs, n - 1), TickSeconds(LastMs(rs, n - 1), rs[n - 1].nowMs));
    }
  }

  lemma OrbitTick(s: State, r: Reading)
    requires s.active.Some? && !r.throws && s.active.value.kind == Orbit && s.active.value.mode == Continuous
    requires !s.active.value.pending && s.active.value.framing.Some?
    ensures var m, t, dt := s.active.value, Tick(s, r), TickSeconds(s.active.value.lastMs, r.nowMs);
      var f := m.framing.value;
      var heading := f.heading + Covered(By(m.speed, 2.0, 6.0, 15.0), m.direction != Left, dt);
      && t.active.Some? && t.active.value == m.(lastMs := Some(r.nowMs), framing := Some(f.(heading := heading)))
      && t.camera.heading == heading && t.camera.pitch == f.pitch && t.camera.locked
  {
    hide TickSeconds, EaseOut;
  }

  /** A continuous orbit goes round its target by 2, 6 or 15 degrees a second, to the left or to the
      right, at the pitch and the range it was found at. */
  lemma {:induction false} OrbitsOn(s: State, rs: seq<Reading>, n: nat)
    requires Continues(s, Orbit) && Calm(rs) && n <= |rs| && s.active.value.framing.Some?
    ensures var t, m, f := Ticked(s, rs, n), s.active.value, s.active.value.framing.value;
      var heading := f.heading + Covered(By(m.speed, 2.0, 6.0, 15.0), m.direction != Left, Clocked(rs, n));
      && StillRuns(s, rs, n, t) && t.active.value.framing == Some(f.(heading := heading))
      && (n > 0 ==> t.camera.heading == heading && t.camera.pitch == f.pitch && t.camera.locked)
  {
    hide Inv, Tick, TickSeconds, Ticked, Clocked, Times, By;
    if n == 0 {
      TickedStart(s, rs);
      ClockedStart(rs);
      TimesUnit(By(s.active.value.speed, 2.0, 6.0, 15.0));
    } else {
      OrbitsOn(s, rs, n - 1);
      TickedStep(s, rs, n);
      ClockedStep(rs, n);
      OrbitTick(Ticked(s, rs, n - 1), rs[n - 1]);
      Grows(By(s.active.value.speed, 2.0, 6.0, 15.0), Clocked(rs, n - 1), TickSeconds(LastMs(rs, n - 1), rs[n - 1].nowMs));
    }
  }

  /** Where a continuous tilt is after the given time. */
  function TiltedTo(s: State, t: real): real
    requires s.active.Some?
  {
    s.camera.pitch + Covered(By(s.active.value.speed, 4.0, 10.0, 20.0), s.active.value.direction == Up, t)
  }

  lemma NodTick(s: State, r: Reading)
    requires s.active.Some? && !r.throws && s.active.value.kind == Tilt && s.active.value.mode == Continuous
    ensures var m, t, dt := s.active.value, Tick(s, r), TickSeconds(s.active.value.lastMs, r.nowMs);
      var p := s.camera.pitch + Covered(By(m.speed, 4.0, 10.0, 20.0), m.direction == Up, dt);
      if -89.0 <= p <= -5.0 then
        t.active.Some? && t.active.value == m.(lastMs := Some(r.nowMs), lastScale := 1.0) && t.camera.pitch == p
      else t.active.None? && t.camera.pitch == s.camera.pitch
  {
    hide TickSeconds, EaseOut;
  }

  predicate TiltFits(s: State, rs: seq<Reading>, n: nat)
    requires n <= |rs| && s.active.Some?
  {
    forall k :: 0 < k <= n ==> -89.0 <= TiltedTo(s, Clocked(rs, k)) <= -5.0
  }

  /** A continuous tilt goes up or down by 4, 10 or 20 degrees a second, and runs exactly until a tick
      would take it out of the range from -89 to -5 degrees. */
  lemma {:induction false} TiltsOn(s: State, rs: seq<Reading>, n: nat)
    requires Continues(s, Tilt) && Calm(rs) && n <= |rs|
    ensures var t := Ticked(s, rs, n);
      && (t.active.Some? <==> TiltFits(s, rs, n))
      && (t.active.Some? ==> StillRuns(s, rs, n, t) && t.camera.pitch == TiltedTo(s, Clocked(rs, n)))
      && (t.active.None? ==> -89.0 <= t.camera.pitch <= -5.0 || t.camera.pitch == s.camera.pitch)
  {
    hide Inv, Tick, TickSeconds, Ticked, Clocked, Times, By;
    if n == 0 {
      TickedStart(s, rs);
      ClockedStart(rs);
      TimesUnit(By(s.active.value.speed, 4.0, 10.0, 20.0));
    } else {
      TiltsOn(s, rs, n - 1);
      TickedStep(s, rs, n);
      ClockedStep(rs, n);
      var t := Ticked(s, rs, n - 1);
      if t.active.Some? {
        assert n > 1 ==> -89.0 <= TiltedTo(s, Clocked(rs, n - 1)) <= -5.0;
        NodTick(t, rs[n - 1]);
        Grows(By(s.active.value.speed, 4.0, 10.0, 20.0), Clocked(rs, n - 1), TickSeconds(LastMs(rs, n - 1), rs[n - 1].nowMs));
        assert TiltFits(s, rs, n) <==> TiltFits(s, rs, n - 1) && -89.0 <= TiltedTo(s, Clocked(rs, n)) <= -5.0;
      } else {
        TickIdle(t, rs[n - 1]);
      }
    }
  }

  /** Metres times seconds: each tick's height above ground, but at least 50 m, for its time. */
  function HeightSeconds(rs: seq<Reading>, n: nat): real
    requires n <= |rs|
  {
    if n == 0 then 0.0
    else HeightSeconds(rs, n - 1) + Times(Max(50.0, rs[n - 1].cameraHeightM), TickSeconds(LastMs(rs, n - 1), rs[n - 1].nowMs))
  }

  /** How far a camera has gone in a direction of the screen. */
  function Gone(camera: Camera, direction: Direction): real {
    match direction
    case Left => -camera.movedRight
    case Right => camera.movedRight
    case Up => camera.movedUp
    case _ => -camera.movedUp
  }

  lemma PanStepIs(m: Motion, dt: real, heightM: real)
    requires m.mode == Continuous
    ensures PanStep(m, dt, heightM) == Times(By(m.speed, 0.08, 0.2, 0.45), Times(Max(50.0, heightM), dt))
  {
    PanProduct(Max(50.0, heightM), By(m.speed, 0.08, 0.2, 0.45), dt);
    hide Times, Max, EaseOut;
  }

  lemma GoneOn(camera: Camera, direction: Direction, step: real)
    ensures Gone(Panned(camera, direction, step), direction) == Gone(camera, direction) + step
  {
  }

  lemma PanTick(s: State, r: Reading)
    requires s.active.Some? && !r.throws && s.active.value.kind == Pan && s.active.value.mode == Continuous
    ensures var m, t, dt := s.active.value, Tick(s, r), TickSeconds(s.active.value.lastMs, r.nowMs);
      && t.active.Some? && t.active.value == m.(lastMs := Some(r.nowMs), lastScale := 1.0)
      && Gone(t.camera, m.direction) == Gone(s.camera, m.direction) + Times(By(m.speed, 0.08, 0.2, 0.45), Times(Max(50.0, r.cameraHeightM), dt))
  {
    var m, dt := Timed(s.active.value, r.nowMs), TickSeconds(s.active.value.lastMs, r.nowMs);
    PanStepIs(m, dt, r.cameraHeightM);
    GoneOn(s.camera, m.direction, PanStep(m, dt, r.cameraHeightM));
    hide TickSeconds, EaseOut, Times, Max, PanStep, Panned, Gone, By;
  }

  lemma PanProduct(h: real, rate: real, dt: real)
    ensures (h * rate) * dt == Times(rate, Times(h, dt))
  {
  }

  /** A continuous pan slides, in the direction it names, by 0.08, 0.2 or 0.45 of the height a
      second. */
  lemma {:induction false} PansOn(s: State, rs: seq<Reading>, n: nat)
    requires Continues(s, Pan) && Calm(rs) && n <= |rs|
    ensures var t, m := Ticked(s, rs, n), s.active.value;
      && StillRuns(s, rs, n, t)
      && Gone(t.camera, m.direction) == Gone(s.camera, m.direction) + Times(By(m.speed, 0.08, 0.2, 0.45), HeightSeconds(rs, n))
  {
    hide Inv, Tick, TickSeconds, Ticked, Clocked, Times, By, Max, Gone;
    if n == 0 {
      TickedStart(s, rs);
      TimesUnit(By(s.active.value.speed, 0.08, 0.2, 0.45));
    } else {
      PansOn(s, rs, n - 1);
      TickedStep(s, rs, n);
      PanTick(Ticked(s, rs, n - 1), rs[n - 1]);
      TimesAdd(By(s.active.value.speed, 0.08, 0.2, 0.45), HeightSeconds(rs, n - 1),
               Times(Max(50.0, rs[n - 1].cameraHeightM), TickSeconds(LastMs(rs, n - 1), rs[n - 1].nowMs)));
    }
  }
}
