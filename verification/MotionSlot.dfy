/** The camera's single motion slot (cameraVerbs.js): at most one motion, stepped by the clock,
    stopped by a newer motion, by its owner, by the user, or by itself. Angles in degrees. */
module MotionSlot {
  import opened Js
  import opened RenderGovernor
  import Route = RouteFlight

  const OWNER := "camera-verb"
  const ONCE_ORBIT_DEG := 30.0
  const ONCE_TILT_DEG := 15.0
  const ONCE_ROTATE_DEG := 15.0
  const ONCE_PAN_VIEW_FRACTION := 0.25
  const ONCE_DURATION_S := 0.9
  const PITCH_MIN := -89.0
  const PITCH_MAX := -5.0
  const ROUTE_PITCH_DEG := -32.0
  const MIN_TICK_S := 0.001
  const MAX_TICK_S := 0.25
  const ARM_TIMEOUT_S := 30.0
  const SETTLE_S := 0.8

  datatype Kind = Orbit | Pan | Tilt | Rotate | Route
  datatype Direction = Left | Right | Up | Down | Forward
  datatype Speed = Slow | Normal | Fast
  datatype Mode = Once | Continuous

  /** What the orbit circles and how: the source's heading, pitch and range. */
  datatype Framing = Framing(heading: real, startHeading: real, pitch: real, range: real)

  datatype Motion = Motion(
    id: nat, kind: Kind, direction: Direction, speed: Speed, mode: Mode,
    lastMs: Option<real>, elapsed: real, lastScale: real,
    pending: bool, pendingS: real, settledS: real, framing: Option<Framing>)

  /** The camera as the motions move it: the sums of the yaws and pans asked for, and whether a
      lookAt transform is still set. */
  datatype Camera = Camera(heading: real, pitch: real, roll: real, locked: bool,
                           lookedRight: real, movedRight: real, movedUp: real)

  datatype State = State(active: Option<Motion>, seqNo: nat, camera: Camera, gov: Gov)

  /** The ground target under the view: picking throws, misses, or gives the pitch and range
      that reproduce the current framing. */
  datatype Pick = PickThrows | NoTarget | Picked(pitch: real, range: real)

  /** What one tick reads from outside. */
  datatype Reading = Reading(nowMs: real, tracked: bool, tweening: bool, pick: Pick,
                             cameraHeightM: real, throws: bool, frame: Route.Frame, gazeDeg: real)

  function OrbitDegS(speed: Speed): real {
    match speed case Slow => 2.0 case Normal => 6.0 case Fast => 15.0
  }

  function TiltDegS(speed: Speed): real {
    match speed case Slow => 4.0 case Normal => 10.0 case Fast => 20.0
  }

  function PanViewFractionS(speed: Speed): real {
    match speed case Slow => 0.08 case Normal => 0.2 case Fast => 0.45
  }

  function Sign(direction: Direction): real {
    if direction == Left then -1.0 else 1.0
  }

  // ---- the slot ------------------------------------------------------------

  function SetActiveMotion(s: State, m: Motion): State {
    s.(active := Some(m.(id := s.seqNo + 1)), seqNo := s.seqNo + 1)
  }

  /** A tracked entity's follow camera owns the frame, so stopping leaves it alone. */
  function Released(camera: Camera, kind: Kind, tracked: bool): Camera {
    if tracked then camera else
    camera.(locked := if kind == Orbit || kind == Route then false else camera.locked,
            roll := if kind == Route && Abs(camera.roll) >= 0.00001 then 0.0 else camera.roll)
  }

  function Interrupt(s: State, tracked: bool): State {
    State(None, s.seqNo,
          if s.active.Some? then Released(s.camera, s.active.value.kind, tracked) else s.camera,
          Release(s.gov, OWNER))
  }

  function InterruptIfActive(s: State, motionId: nat, tracked: bool): State {
    if motionId == 0 || s.active.None? || s.active.value.id != motionId then s else Interrupt(s, tracked)
  }

  // ---- starting ------------------------------------------------------------

  function Fresh(kind: Kind, direction: Direction, speed: Speed, mode: Mode): Motion {
    Motion(0, kind, direction, speed, mode, None, 0.0, 0.0, false, 0.0, 0.0, None)
  }

  /** An orbit started during a camera flight, or over no ground, waits; any other motion runs
      at once. A pick that throws leaves the slot empty. */
  function Begin(s: State, kind: Kind, direction: Direction, speed: Speed, mode: Mode,
                 tracked: bool, tweening: bool, pick: Pick): State
  {
    var idle := Interrupt(s, tracked);
    var m := Fresh(kind, direction, speed, mode);
    if kind == Orbit && !tweening && pick.PickThrows? then idle else
    var started :=
      if kind == Orbit && !tweening && pick.Picked? then
        m.(framing := Some(Framing(s.camera.heading, s.camera.heading, pick.pitch, pick.range)))
      else if kind == Orbit then m.(pending := true)
      else m;
    var installed := SetActiveMotion(idle, started);
    installed.(gov := Hold(installed.gov, OWNER))
  }

  // ---- one tick ------------------------------------------------------------

  function TickSeconds(lastMs: Option<real>, nowMs: real): (dt: real)
    ensures MIN_TICK_S <= dt <= MAX_TICK_S
  {
    Min(MAX_TICK_S, Max(MIN_TICK_S, (nowMs - lastMs.GetOr(nowMs)) / 1000.0))
  }

  function Timed(m: Motion, nowMs: real): Motion {
    m.(lastMs := Some(nowMs),
       elapsed := if m.mode == Once then m.elapsed + TickSeconds(m.lastMs, nowMs) else m.elapsed)
  }

  function EaseOut(elapsed: real): real {
    var t := Min(1.0, elapsed / ONCE_DURATION_S);
    1.0 - (1.0 - t) * (1.0 - t)
  }

  function Scale(m: Motion): real {
    if m.mode == Once then EaseOut(m.elapsed) else 1.0
  }

  predicate Spent(m: Motion) {
    m.mode == Once && Min(1.0, m.elapsed / ONCE_DURATION_S) >= 1.0
  }

  /** Writes to the motion object show in the slot only while it is still installed. */
  function Store(s: State, m: Motion): State {
    if s.active.Some? then s.(active := Some(m)) else s
  }

  function Capture(m: Motion, heading: real, pick: Pick): Motion
    requires pick.Picked?
  {
    m.(framing := Some(Framing(heading, heading, pick.pitch, pick.range)), pending := false, elapsed := 0.0)
  }

  /** An armed orbit waits for 0.8 s without a camera flight, then takes the framing it finds. */
  function Arm(s: State, m: Motion, dt: real, r: Reading): State {
    var waited := m.(pendingS := m.pendingS + dt);
    if waited.pendingS > ARM_TIMEOUT_S then Interrupt(Store(s, waited), r.tracked)
    else if r.tweening then Store(s, waited.(settledS := 0.0))
    else
      var settled := waited.(settledS := waited.settledS + dt);
      if settled.settledS < SETTLE_S then Store(s, settled)
      else match r.pick
        case PickThrows => Interrupt(Store(s, settled), r.tracked)
        case NoTarget => Store(s, settled)
        case Picked(_, _) => Store(s, Capture(settled, s.camera.heading, r.pick))
  }

  function OrbitHeading(f: Framing, m: Motion, dt: real): real {
    if m.mode == Once then f.startHeading + ONCE_ORBIT_DEG * Sign(m.direction) * Scale(m)
    else f.heading + OrbitDegS(m.speed) * Sign(m.direction) * dt
  }

  function LookAt(camera: Camera, f: Framing): Camera {
    camera.(heading := f.heading, pitch := f.pitch, locked := true)
  }

  function Circle(s: State, m: Motion, dt: real, r: Reading): State {
    if m.framing.None? then Interrupt(s, r.tracked) else
    var f := m.framing.value.(heading := OrbitHeading(m.framing.value, m, dt));
    var turned := Store(s, m.(framing := Some(f)));
    if r.throws then Interrupt(turned, r.tracked) else turned.(camera := LookAt(s.camera, f))
  }

  /** The share of a `once` budget this tick spends, or the continuous rate over the tick. */
  function Share(m: Motion, budget: real, rate: real, dt: real): real {
    if m.mode == Once then budget * (Scale(m) - m.lastScale) else rate * dt
  }

  function PanStep(m: Motion, dt: real, cameraHeightM: real): real {
    var heightM := Max(50.0, cameraHeightM);
    Share(m, heightM * ONCE_PAN_VIEW_FRACTION, heightM * PanViewFractionS(m.speed), dt)
  }

  function Panned(camera: Camera, direction: Direction, step: real): Camera {
    match direction
    case Left => camera.(movedRight := camera.movedRight - step)
    case Right => camera.(movedRight := camera.movedRight + step)
    case Up => camera.(movedUp := camera.movedUp + step)
    case _ => camera.(movedUp := camera.movedUp - step)
  }

  function Slide(s: State, m: Motion, dt: real, r: Reading): State {
    var spent := Store(s, m.(lastScale := Scale(m)));
    if r.throws then Interrupt(spent, r.tracked)
    else spent.(camera := Panned(s.camera, m.direction, PanStep(m, dt, r.cameraHeightM)))
  }

  function TiltStep(m: Motion, dt: real): real {
    Share(m, ONCE_TILT_DEG, TiltDegS(m.speed), dt) * if m.direction == Up then 1.0 else -1.0
  }

  /** A tilt that would leave the pitch range stops instead. */
  function Nod(s: State, m: Motion, dt: real, r: Reading): State {
    var spent := Store(s, m.(lastScale := Scale(m)));
    var next := s.camera.pitch + TiltStep(m, dt);
    if next > PITCH_MAX || next < PITCH_MIN || r.throws then Interrupt(spent, r.tracked)
    else spent.(camera := s.camera.(pitch := next))
  }

  function Turn(s: State, m: Motion, dt: real, r: Reading): State {
    var spent := Store(s, m.(lastScale := Scale(m)));
    var step := Share(m, ONCE_ROTATE_DEG, TiltDegS(m.speed), dt) * Sign(m.direction);
    if r.throws then Interrupt(spent, r.tracked)
    else spent.(camera := s.camera.(lookedRight := s.camera.lookedRight + step))
  }

  /** One frame of the route dolly, already computed: an armed one leaves the camera alone, any
      other looks along the gaze at a locked pitch. */
  function Dolly(s: State, m: Motion, r: Reading): State {
    if r.throws then Interrupt(s, r.tracked)
    else match r.frame
      case Arming => s
      case Pose(finished, bankDeg, _, _, _, _, _) =>
        var posed := s.(camera := s.camera.(heading := r.gazeDeg, pitch := ROUTE_PITCH_DEG, roll := bankDeg));
        if finished then Interrupt(posed, r.tracked) else posed
  }

  function Move(s: State, m: Motion, dt: real, r: Reading): State {
    match m.kind
    case Orbit => if m.pending then Arm(s, m, dt, r) else Circle(s, m, dt, r)
    case Pan => Slide(s, m, dt, r)
    case Tilt => Nod(s, m, dt, r)
    case Rotate => Turn(s, m, dt, r)
    case Route => Dolly(s, m, r)
  }

  /** `onTick`. A `once` motion whose budget is spent is stopped first and still makes its last
      step. */
  function Tick(s: State, r: Reading): State {
    if s.active.None? then s else
    var dt := TickSeconds(s.active.value.lastMs, r.nowMs);
    var m := Timed(s.active.value, r.nowMs);
    var timed := s.(active := Some(m));
    Move(if Spent(m) then Interrupt(timed, r.tracked) else timed, m, dt, r)
  }

  function ZoomedRange(range: real, factor: real): real {
    Max(80.0, Min(5000000.0, range * factor))
  }

  /** `adjustOrbitRange`: an orbit takes the zoom as a change of radius. */
  function AdjustRange(s: State, factor: real): State {
    if s.active.None? || s.active.value.kind != Orbit || s.active.value.framing.None? then s else
    var m := s.active.value;
    var f := m.framing.value;
    s.(active := Some(m.(framing := Some(f.(range := ZoomedRange(f.range, factor))))))
  }

  // ---- requests ------------------------------------------------------------

  datatype MotionWord = Stop | Moves(kind: Kind) | Unknown

  datatype Reply =
    | UnknownMotion
    | NeedsDirection
    | NeedsLeftOrRight
    | AtUpperLimit
    | AtLowerLimit
    | FollowingTarget
    | NotAuthorized
    | Threw
    | Stopped(wasActive: bool)
    | Started(armed: bool)

  /** Why `moveCamera` turns a request down before touching the camera, if it does. A validated
      navigation may take an orbit from a tracked entity. */
  function Refusal(s: State, motion: MotionWord, direction: Option<Direction>, tracked: bool, navigates: bool): Option<Reply> {
    match motion
    case Stop => None
    case Unknown => Some(UnknownMotion)
    case Moves(kind) =>
      if kind == Route then Some(UnknownMotion)
      else if kind != Orbit && (direction.None? || direction.value == Forward) then Some(NeedsDirection)
      else if kind == Rotate && direction != Some(Left) && direction != Some(Right) then Some(NeedsLeftOrRight)
      else if kind == Tilt && direction == Some(Up) && s.camera.pitch >= PITCH_MAX - 0.5 then Some(AtUpperLimit)
      else if kind == Tilt && direction == Some(Down) && s.camera.pitch <= PITCH_MIN + 0.5 then Some(AtLowerLimit)
      else if kind == Orbit && tracked && !navigates then Some(FollowingTarget)
      else None
  }

  datatype Request = Request(motion: MotionWord, direction: Option<Direction>, speed: Speed, mode: Mode,
                             tracked: bool, tweening: bool, pick: Pick, navigates: bool, authorized: bool)

  /** `moveCamera`. A navigation that is not authorized never runs the start. */
  function MoveCamera(s: State, q: Request): (State, Reply) {
    var refusal := Refusal(s, q.motion, q.direction, q.tracked, q.navigates);
    if refusal.Some? then (s, refusal.value)
    else if q.navigates && !q.authorized then (s, NotAuthorized)
    else match q.motion
      case Stop => (Interrupt(s, q.tracked), Stopped(s.active.Some?))
      case Moves(kind) =>
        var t := Begin(s, kind, q.direction.GetOr(Right), q.speed, q.mode, q.tracked, q.tweening, q.pick);
        (t, if t.active.None? then Threw else Started(t.active.value.pending))
  }

  /** `flyRoute`'s start. */
  function FlyRoute(s: State, speed: Speed, tracked: bool): State {
    Begin(s, Route, Forward, speed, Continuous, tracked, false, NoTarget)
  }

  // ---- runs ----------------------------------------------------------------

  /** Steers stands for the user, or a camera flight, moving the camera without a motion. */
  datatype Event =
    | Asks(request: Request)
    | Flies(speed: Speed, tracked: bool)
    | Interrupts(tracked: bool)
    | Cancels(motionId: nat, tracked: bool)
    | Ticks(reading: Reading)
    | Zooms(factor: real)
    | Steers(heading: real, pitch: real)
    | Governs(call: Call)

  /** The governor's other clients use their own names. */
  predicate Foreign(e: Event) {
    e.Governs? ==> (e.call.Holds? ==> e.call.owner != OWNER) && (e.call.Releases? ==> e.call.owner != OWNER)
  }

  predicate AllForeign(run: seq<Event>) {
    forall k :: 0 <= k < |run| ==> Foreign(run[k])
  }

  function Next(s: State, e: Event): State {
    match e
    case Asks(q) => MoveCamera(s, q).0
    case Flies(speed, tracked) => FlyRoute(s, speed, tracked)
    case Interrupts(tracked) => Interrupt(s, tracked)
    case Cancels(motionId, tracked) => InterruptIfActive(s, motionId, tracked)
    case Ticks(r) => Tick(s, r)
    case Zooms(factor) => AdjustRange(s, factor)
    case Steers(heading, pitch) => s.(camera := s.camera.(heading := heading, pitch := pitch))
    case Governs(call) => s.(gov := Step(s.gov, call))
  }

  function Idle(camera: Camera): State {
    State(None, 0, camera, Uninstalled())
  }

  /** The state after the first n events. */
  function After(camera: Camera, run: seq<Event>, n: nat): State
    requires n <= |run|
  {
    if n == 0 then Idle(camera) else Next(After(camera, run, n - 1), run[n - 1])
  }
}
