/** What a stopped motion leaves behind: the lookAt transform, the horizon, and the slot after a
    route flight. */
module MotionAftermath {
  import opened Js
  import opened MotionSlot
  import opened MotionSafety
  import Budget = MotionBudget
  import RouteFlight
  import RouteSafety
  import RouteGeometry

  /** No entity is tracked while the event happens; a tracked one's follow camera owns the frame. */
  predicate Untracked(e: Event) {
    match e
    case Asks(q) => !q.tracked
    case Flies(_, tracked) => !tracked
    case Interrupts(tracked) => !tracked
    case Cancels(_, tracked) => !tracked
    case Ticks(r) => !r.tracked
    case _ => true
  }

  predicate AllUntracked(run: seq<Event>) {
    forall k :: 0 <= k < |run| ==> Untracked(run[k])
  }

  // ---- the lookAt transform ------------------------------------------------

  /** The transform is set only for an orbit that is running. */
  predicate HandedBack(s: State) {
    s.camera.locked ==> Budget.Circling(s)
  }

  /** The tick that spends a bounded orbit's budget. */
  predicate CompletesOnceOrbit(s: State, e: Event) {
    && e.Ticks? && Budget.Circling(s) && !e.reading.throws
    && Spent(Timed(s.active.value, e.reading.nowMs))
  }

  lemma TickHandsBack(s: State, r: Reading)
    requires Inv(s) && HandedBack(s) && !r.tracked
    ensures HandedBack(Tick(s, r)) <==> !CompletesOnceOrbit(s, Ticks(r))
  {
    hide EaseOut, TickSeconds, Spent, Share, Panned, OrbitHeading;
    if s.active.Some? && s.active.value.kind == Pan {
      PanKeepsLock(s.camera, s.active.value.direction);
    }
  }

  lemma PanKeepsLock(camera: Camera, direction: Direction)
    ensures forall step :: Panned(camera, direction, step).locked == camera.locked && Panned(camera, direction, step).roll == camera.roll
  {
  }

  /** Every event hands the camera back with the transform cleared, except the one tick that
      completes a bounded orbit: it clears the transform and then sets it again. */
  lemma EveryStopHandsBack(s: State, e: Event)
    requires Inv(s) && HandedBack(s) && Untracked(e)
    ensures HandedBack(Next(s, e)) <==> !CompletesOnceOrbit(s, e)
  {
    if e.Ticks? {
      TickHandsBack(s, e.reading);
    }
    hide Tick, EaseOut;
  }

  /** Over a run without tracking, a transform left set without its orbit was left by a bounded
      orbit that ran to its end. */
  lemma {:induction false} LeftByOnceOrbit(camera: Camera, run: seq<Event>, n: nat)
    requires n <= |run| && AllUntracked(run) && !camera.locked
    ensures !HandedBack(After(camera, run, n)) ==> exists k :: 0 <= k < n && CompletesOnceOrbit(After(camera, run, k), run[k])
  {
    hide Inv, Next, HandedBack, CompletesOnceOrbit;
    if n == 0 {
      IdleHandedBack(camera);
    } else {
      LeftByOnceOrbit(camera, run, n - 1);
      AlwaysOk(camera, run, n - 1);
      if HandedBack(After(camera, run, n - 1)) {
        EveryStopHandsBack(After(camera, run, n - 1), run[n - 1]);
      }
    }
  }

  lemma IdleHandedBack(camera: Camera)
    requires !camera.locked
    ensures HandedBack(Idle(camera))
  {
  }

  /** Neither an orbit nor a route, the only motions whose stop clears the transform. */
  predicate OtherMotion(s: State) {
    s.active.Some? ==> s.active.value.kind != Orbit && s.active.value.kind != MotionSlot.Route
  }

  lemma OtherKeepsLock(s: State, e: Event)
    requires Inv(s) && s.camera.locked && OtherMotion(s)
    ensures Next(s, e).camera.locked
  {
    hide EaseOut, TickSeconds, Spent, Share, OrbitHeading;
    if s.active.Some? && s.active.value.kind == Pan {
      PanKeepsLock(s.camera, s.active.value.direction);
    }
    hide Panned;
  }

  /** A transform left set stays set through every manual input, cancel, tilt, pan and rotation:
      until the next orbit or route. */
  lemma {:induction false} StaysLocked(camera: Camera, run: seq<Event>, m: nat, n: nat)
    requires m <= n <= |run| && After(camera, run, m).camera.locked
    requires forall k :: m <= k < n ==> OtherMotion(After(camera, run, k))
    ensures After(camera, run, n).camera.locked
  {
    hide Inv, Next, OtherMotion;
    if m < n {
      StaysLocked(camera, run, m, n - 1);
      AlwaysOk(camera, run, n - 1);
      OtherKeepsLock(After(camera, run, n - 1), run[n - 1]);
    }
  }

  // ---- the horizon ---------------------------------------------------------

  predicate Level(camera: Camera) {
    Abs(camera.roll) < 0.00001
  }

  predicate LevelUnlessFlying(s: State) {
    Level(s.camera) || (s.active.Some? && s.active.value.kind == MotionSlot.Route)
  }

  lemma TickLevels(s: State, r: Reading)
    requires Inv(s) && LevelUnlessFlying(s) && !r.tracked
    ensures LevelUnlessFlying(Tick(s, r))
  {
    if s.active.Some? {
      SpentMeans(Timed(s.active.value, r.nowMs));
    }
    hide EaseOut, TickSeconds, Spent, Share, OrbitHeading;
    if s.active.Some? && s.active.value.kind == Pan {
      PanKeepsLock(s.camera, s.active.value.direction);
    }
    hide Panned;
  }

  lemma NextLevels(s: State, e: Event)
    requires Inv(s) && LevelUnlessFlying(s) && Untracked(e)
    ensures LevelUnlessFlying(Next(s, e))
  {
    if e.Ticks? {
      TickLevels(s, e.reading);
    }
    hide Tick, EaseOut;
  }

  /** However a route flight ends, mid-bank or at its last waypoint, the next thing the user
      holds is a level horizon. */
  lemma {:induction false} HorizonLevel(camera: Camera, run: seq<Event>, n: nat)
    requires n <= |run| && AllUntracked(run) && Level(camera)
    ensures LevelUnlessFlying(After(camera, run, n))
  {
    hide Inv, Next, Level;
    if n > 0 {
      HorizonLevel(camera, run, n - 1);
      AlwaysOk(camera, run, n - 1);
      NextLevels(After(camera, run, n - 1), run[n - 1]);
    }
  }

  // ---- the pitch -----------------------------------------------------------

  /** An orbit starts to circle a target that it looks at from outside the range. */
  predicate CirclesOutside(s: State, e: Event) {
    match e
    case Asks(q) =>
      && q.motion == Moves(Orbit) && !q.tweening && q.pick.Picked? && !Budget.InPitchRange(q.pick.pitch)
      && MoveCamera(s, q).1 == Started(false)
    case Ticks(r) =>
      && s.active.Some? && s.active.value.pending && r.pick.Picked? && !Budget.InPitchRange(r.pick.pitch)
      && Tick(s, r).active.Some? && !Tick(s, r).active.value.pending
    case _ => false
  }

  /** The two ways out of the range: such an orbit, or someone else moving the camera there. */
  predicate Escapes(s: State, e: Event) {
    CirclesOutside(s, e) || (e.Steers? && !Budget.InPitchRange(e.pitch))
  }

  predicate PitchOk(s: State) {
    && Budget.InPitchRange(s.camera.pitch)
    && (s.active.Some? && s.active.value.framing.Some? ==> Budget.InPitchRange(s.active.value.framing.value.pitch))
  }

  lemma TickPitchOk(s: State, r: Reading)
    requires PitchOk(s) && Inv(s) && !Escapes(s, Ticks(r))
    ensures PitchOk(Tick(s, r))
  {
    Budget.TickPitch(s, r);
    hide EaseOut, TickSeconds, Spent, Share, OrbitHeading, Panned, Budget.InPitchRange;
  }

  lemma NextPitchOk(s: State, e: Event)
    requires PitchOk(s) && Inv(s) && !Escapes(s, e)
    ensures PitchOk(Next(s, e))
  {
    hide Budget.InPitchRange, Tick;
    if e.Ticks? {
      TickPitchOk(s, e.reading);
    }
  }

  /** Over every run, a pitch that starts between -89 and -5 degrees leaves that range only after
      an orbit started to circle a target it looks at from outside the range, or something other
      than a motion moved the camera there: no tilt, pan, rotation or route ever takes it out. */
  lemma {:induction false} PitchStaysInRange(camera: Camera, run: seq<Event>, n: nat)
    requires n <= |run| && Budget.InPitchRange(camera.pitch)
    ensures PitchOk(After(camera, run, n)) || exists k :: 0 <= k < n && Escapes(After(camera, run, k), run[k])
  {
    hide Next, Escapes, Inv;
    if n > 0 {
      PitchStaysInRange(camera, run, n - 1);
      AlwaysOk(camera, run, n - 1);
      var before := After(camera, run, n - 1);
      if !Escapes(before, run[n - 1]) && PitchOk(before) {
        NextPitchOk(before, run[n - 1]);
      }
    }
  }

  // ---- a route flight in the slot ------------------------------------------

  /** The ticks carry the frames of one route flight, each computed from the tick's own time. */
  ghost predicate Drives(rs: seq<Reading>, f: RouteFlight.Flight, plan: RouteFlight.Plan, cells: seq<RouteGeometry.Cell>,
                         run: seq<RouteFlight.Inputs>)
    requires RouteFlight.PlanOk(plan)
  {
    && |rs| == |run|
    && (forall k :: 0 <= k < |rs| ==>
         && !rs[k].throws
         && rs[k].frame == RouteSafety.FrameAt(f, plan, cells, run, k)
         && run[k].dt == Some(TickSeconds(Budget.LastMs(rs, k), rs[k].nowMs)))
  }

  lemma RouteTick(s: State, r: Reading)
    requires Inv(s) && s.active.Some? && s.active.value.kind == MotionSlot.Route && !r.throws
    ensures Tick(s, r).active.Some? <==> !(r.frame.Pose? && r.frame.finished)
    ensures Tick(s, r).active.Some? ==> Tick(s, r).active.value.kind == MotionSlot.Route
  {
    SpentMeans(Timed(s.active.value, r.nowMs));
    hide EaseOut, TickSeconds, Spent;
  }

  lemma {:induction false} SameClock(rs: seq<Reading>, f: RouteFlight.Flight, plan: RouteFlight.Plan,
                                     cells: seq<RouteGeometry.Cell>, run: seq<RouteFlight.Inputs>, m: nat, n: nat)
    requires RouteFlight.PlanOk(plan) && Drives(rs, f, plan, cells, run) && |rs| == |run| && m <= n <= |run|
    ensures RouteSafety.Elapsed(run, m, n) == Budget.Clocked(rs, n) - Budget.Clocked(rs, m)
  {
    hide *;
    ElapsedStep(run, m, n);
    if m < n {
      DrivesOn(rs, f, plan, cells, run, n - 1);
      SameClock(rs, f, plan, cells, run, m, n - 1);
      SameStep(rs, f, plan, cells, run, n - 1);
      Budget.ClockedStep(rs, n);
    }
  }

  lemma ElapsedStep(run: seq<RouteFlight.Inputs>, m: nat, n: nat)
    requires m <= n <= |run|
    ensures RouteSafety.Elapsed(run, m, n) == if m == n then 0.0 else RouteSafety.Elapsed(run, m, n - 1) + run[n - 1].Step()
  {
  }

  lemma SameStep(rs: seq<Reading>, f: RouteFlight.Flight, plan: RouteFlight.Plan,
                 cells: seq<RouteGeometry.Cell>, run: seq<RouteFlight.Inputs>, k: nat)
    requires RouteFlight.PlanOk(plan) && Drives(rs, f, plan, cells, run) && k < |rs| == |run|
    ensures run[k].Step() == TickSeconds(Budget.LastMs(rs, k), rs[k].nowMs)
  {
    hide RouteSafety.FrameAt, TickSeconds;
  }

  /** Which tick carries the finishing frame. */
  lemma FrameEnds(rs: seq<Reading>, f: RouteFlight.Flight, plan: RouteFlight.Plan,
                  cells: seq<RouteGeometry.Cell>, run: seq<RouteFlight.Inputs>, m: nat, k: nat)
    requires RouteFlight.PlanOk(plan) && RouteSafety.Inv(f, plan) && RouteSafety.ValidRun(run) && Drives(rs, f, plan, cells, run)
    requires m < |run| && RouteSafety.DepartsAt(f, plan, cells, run, m) && k < |run|
    ensures rs[k].frame.Pose? && rs[k].frame.finished <==> k >= m && Budget.Clocked(rs, k + 1) - Budget.Clocked(rs, m) >= plan.durationS
  {
    hide RouteFlight.Advance, RouteSafety.Inv, RouteSafety.After, RouteSafety.Elapsed, RouteSafety.FrameAt, Budget.Clocked, TickSeconds;
    if k < m {
      NotDeparted(f, plan, cells, run, m);
      RouteSafety.AllArmingUntil(f, plan, cells, run, m);
    } else {
      RouteSafety.FinishesOnTime(f, plan, cells, run, m, k);
      SameClock(rs, f, plan, cells, run, m, k + 1);
    }
  }

  lemma NotDeparted(f: RouteFlight.Flight, plan: RouteFlight.Plan, cells: seq<RouteGeometry.Cell>, run: seq<RouteFlight.Inputs>, m: nat)
    requires RouteFlight.PlanOk(plan) && m < |run| && RouteSafety.DepartsAt(f, plan, cells, run, m)
    ensures !RouteSafety.After(f, plan, cells, run, m).departed
  {
  }

  lemma DrivesOn(rs: seq<Reading>, f: RouteFlight.Flight, plan: RouteFlight.Plan, cells: seq<RouteGeometry.Cell>,
                 run: seq<RouteFlight.Inputs>, k: nat)
    requires RouteFlight.PlanOk(plan) && Drives(rs, f, plan, cells, run) && k < |rs|
    ensures |rs| == |run| && !rs[k].throws
  {
  }

  /** A route flight keeps the slot, and with it the renderer, from its first tick until the tick
      by which its planned duration has passed since it departed, and no longer, unless something
      stops it. */
  lemma {:induction false} RouteKeepsSlot(s: State, rs: seq<Reading>, f: RouteFlight.Flight, plan: RouteFlight.Plan,
                                          cells: seq<RouteGeometry.Cell>, run: seq<RouteFlight.Inputs>, m: nat, n: nat)
    requires RouteFlight.PlanOk(plan) && RouteSafety.Inv(f, plan) && RouteSafety.ValidRun(run) && Drives(rs, f, plan, cells, run)
    requires m < |run| && RouteSafety.DepartsAt(f, plan, cells, run, m) && n <= |rs|
    requires Inv(s) && s.active.Some? && s.active.value.kind == MotionSlot.Route
    ensures var t := Budget.Ticked(s, rs, n);
      && (t.active.Some? <==> n <= m || Budget.Clocked(rs, n) - Budget.Clocked(rs, m) < plan.durationS)
      && (t.active.Some? ==> t.active.value.kind == MotionSlot.Route)
  {
    hide *;
    if n == 0 {
      Budget.TickedStart(s, rs);
    } else {
      Budget.TickedStep(s, rs, n);
      Budget.ClockedStep(rs, n);
      DrivesOn(rs, f, plan, cells, run, n - 1);
      RouteKeepsSlot(s, rs, f, plan, cells, run, m, n - 1);
      var t := Budget.Ticked(s, rs, n - 1);
      Budget.TickedOk(s, rs, n - 1);
      FrameEnds(rs, f, plan, cells, run, m, n - 1);
      if t.active.Some? {
        RouteTick(t, rs[n - 1]);
      } else {
        Budget.TickIdle(t, rs[n - 1]);
      }
    }
  }
}
