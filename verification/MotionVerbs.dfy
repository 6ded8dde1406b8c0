/** The motion slot as the source writes it: one active motion object that each tick updates in
    place, also after it was taken out of the slot, beside the shared render governor. */
module MotionVerbs {
  import opened Js
  import opened RenderGovernor
  import opened MotionSlot

  class ActiveMotion {
    const kind: Kind
    const direction: Direction
    const speed: Speed
    const mode: Mode
    var id: nat
    var lastMs: Option<real>
    var elapsed: real
    var lastScale: real
    var pending: bool
    var pendingS: real
    var settledS: real
    var framing: Option<Framing>

    ghost function Value(): Motion
      reads this
    {
      Motion(id, kind, direction, speed, mode, lastMs, elapsed, lastScale, pending, pendingS, settledS, framing)
    }

    constructor (kind: Kind, direction: Direction, speed: Speed, mode: Mode)
      ensures Value() == Fresh(kind, direction, speed, mode)
    {
      this.kind, this.direction, this.speed, this.mode := kind, direction, speed, mode;
      id, lastMs, elapsed, lastScale := 0, None, 0.0, 0.0;
      pending, pendingS, settledS, framing := false, 0.0, 0.0, None;
    }
  }

  class CameraVerbs {
    const governor: Governor
    var active: ActiveMotion?
    var motionSeq: nat
    var camera: Camera

    ghost function View(): State
      reads this, active, governor, governor.viewer
    {
      State(if active == null then None else Some(active.Value()), motionSeq, camera, governor.State())
    }

    constructor (governor: Governor, camera: Camera)
      ensures this.governor == governor && View() == State(None, 0, camera, governor.State())
    {
      this.governor := governor;
      this.camera := camera;
      active, motionSeq := null, 0;
    }

    method Install(m: ActiveMotion)
      modifies this`active, this`motionSeq, m
      ensures active == m && m.Value() == old(m.Value()).(id := old(motionSeq) + 1)
      ensures View() == SetActiveMotion(old(View()).(active := Some(old(m.Value()))), old(m.Value()))
    {
      motionSeq := motionSeq + 1;
      m.id := motionSeq;
      active := m;
    }

    method ActiveCameraMotionId() returns (id: nat)
      ensures id == if View().active.Some? then View().active.value.id else 0
    {
      return if active == null then 0 else active.id;
    }

    /** The single release path of the camera's render hold. */
    method InterruptCameraMotion(tracked: bool) returns (wasActive: bool, leveled: bool)
      modifies this`active, this`camera, governor, governor.viewer
      ensures View() == Interrupt(old(View()), tracked)
      ensures active == null && governor.viewer == old(governor.viewer)
      ensures wasActive == old(active != null)
      ensures leveled == (old(camera.roll) != camera.roll)
    {
      wasActive := active != null;
      leveled := false;
      var wasRoute := active != null && active.kind == Route;
      if active != null && !tracked && (active.kind == Orbit || active.kind == Route) {
        camera := camera.(locked := false);
      }
      if wasRoute && !tracked {
        leveled := LevelCameraRoll();
      }
      active := null;
      governor.ReleaseContinuousRender(OWNER);
    }

    method LevelCameraRoll() returns (leveled: bool)
      modifies this`camera
      ensures camera == old(camera).(roll := if Abs(old(camera.roll)) >= 0.00001 then 0.0 else old(camera.roll))
      ensures leveled == (camera.roll != old(camera.roll))
    {
      if Abs(camera.roll) < 0.00001 {
        return false;
      }
      camera := camera.(roll := 0.0);
      leveled := true;
    }

    method InterruptCameraMotionIfActive(motionId: nat, tracked: bool) returns (wasActive: bool)
      modifies this`active, this`camera, governor, governor.viewer
      ensures View() == InterruptIfActive(old(View()), motionId, tracked)
      ensures wasActive == (motionId != 0 && old(active != null && active.id == motionId))
    {
      if motionId == 0 || active == null || active.id != motionId {
        return false;
      }
      var was, _ := InterruptCameraMotion(tracked);
      return was;
    }

    // ---- one tick ----------------------------------------------------------

    /** The object a tick works on: the active one, or one that was just taken out of the slot. */
    ghost predicate Works(m: ActiveMotion)
      reads this
    {
      active == null || active == m
    }

    method WaitForTarget(m: ActiveMotion, dt: real, r: Reading)
      requires Works(m)
      modifies this`active, this`camera, m, governor, governor.viewer
      ensures View() == Arm(old(View()), old(m.Value()), dt, r)
    {
      m.pendingS := m.pendingS + dt;
      if m.pendingS > ARM_TIMEOUT_S {
        var _, _ := InterruptCameraMotion(r.tracked);
        return;
      }
      if r.tweening {
        m.settledS := 0.0;
        return;
      }
      m.settledS := m.settledS + dt;
      if m.settledS < SETTLE_S {
        return;
      }
      match r.pick {
        case PickThrows =>
          var _, _ := InterruptCameraMotion(r.tracked);
        case NoTarget =>
        case Picked(pitch, range) =>
          m.framing := Some(Framing(camera.heading, camera.heading, pitch, range));
          m.pending := false;
          m.elapsed := 0.0;
      }
    }

    method CircleTarget(m: ActiveMotion, dt: real, r: Reading)
      requires Works(m)
      modifies this`active, this`camera, m, governor, governor.viewer
      ensures View() == Circle(old(View()), old(m.Value()), dt, r)
    {
      if m.framing.None? {
        var _, _ := InterruptCameraMotion(r.tracked);
        return;
      }
      var f := m.framing.value;
      var heading := if m.mode == Once then f.startHeading + ONCE_ORBIT_DEG * Sign(m.direction) * ScaleOf(m)
                     else f.heading + OrbitDegS(m.speed) * Sign(m.direction) * dt;
      m.framing := Some(f.(heading := heading));
      if r.throws {
        var _, _ := InterruptCameraMotion(r.tracked);
        return;
      }
      camera := LookAt(camera, m.framing.value);
    }

    function ScaleOf(m: ActiveMotion): (scale: real)
      reads m
      ensures scale == Scale(m.Value())
    {
      if m.mode == Once then EaseOut(m.elapsed) else 1.0
    }

    function ShareOf(m: ActiveMotion, budget: real, rate: real, dt: real): (share: real)
      reads m
      ensures share == Share(m.Value(), budget, rate, dt)
    {
      if m.mode == Once then budget * (ScaleOf(m) - m.lastScale) else rate * dt
    }

    function PanStepOf(m: ActiveMotion, dt: real, cameraHeightM: real): (step: real)
      reads m
      ensures step == PanStep(m.Value(), dt, cameraHeightM)
    {
      var heightM := Max(50.0, cameraHeightM);
      ShareOf(m, heightM * ONCE_PAN_VIEW_FRACTION, heightM * PanViewFractionS(m.speed), dt)
    }

    method SlideCamera(m: ActiveMotion, dt: real, r: Reading)
      requires Works(m)
      modifies this`active, this`camera, m, governor, governor.viewer
      ensures View() == Slide(old(View()), old(m.Value()), dt, r)
    {
      hide Share, Scale, PanStep;
      var step := PanStepOf(m, dt, r.cameraHeightM);
      m.lastScale := ScaleOf(m);
      if r.throws {
        var _, _ := InterruptCameraMotion(r.tracked);
        return;
      }
      camera := Panned(camera, m.direction, step);
    }

    method TiltCamera(m: ActiveMotion, dt: real, r: Reading)
      requires Works(m)
      modifies this`active, this`camera, m, governor, governor.viewer
      ensures View() == Nod(old(View()), old(m.Value()), dt, r)
    {
      hide Share, Scale, TiltDegS;
      var step := ShareOf(m, ONCE_TILT_DEG, TiltDegS(m.speed), dt);
      m.lastScale := ScaleOf(m);
      var next := camera.pitch + step * if m.direction == Up then 1.0 else -1.0;
      if next > PITCH_MAX || next < PITCH_MIN || r.throws {
        var _, _ := InterruptCameraMotion(r.tracked);
        return;
      }
      camera := camera.(pitch := next);
    }

    method RotateCamera(m: ActiveMotion, dt: real, r: Reading)
      requires Works(m)
      modifies this`active, this`camera, m, governor, governor.viewer
      ensures View() == Turn(old(View()), old(m.Value()), dt, r)
    {
      hide Share, Scale, TiltDegS;
      var step := ShareOf(m, ONCE_ROTATE_DEG, TiltDegS(m.speed), dt);
      m.lastScale := ScaleOf(m);
      if r.throws {
        var _, _ := InterruptCameraMotion(r.tracked);
        return;
      }
      camera := camera.(lookedRight := camera.lookedRight + step * Sign(m.direction));
    }

    method PoseRoute(m: ActiveMotion, r: Reading)
      requires Works(m)
      modifies this`active, this`camera, governor, governor.viewer
      ensures View() == Dolly(old(View()), old(m.Value()), r)
    {
      if r.throws {
        var _, _ := InterruptCameraMotion(r.tracked);
        return;
      }
      if r.frame.Arming? {
        return;
      }
      camera := camera.(heading := r.gazeDeg, pitch := ROUTE_PITCH_DEG, roll := r.frame.bankDeg);
      if r.frame.finished {
        var _, _ := InterruptCameraMotion(r.tracked);
      }
    }

    method OnTick(r: Reading)
      modifies this`active, this`camera, active, governor, governor.viewer
      ensures View() == Tick(old(View()), r)
    {
      hide Arm, Circle, Slide, Nod, Turn, Dolly, TickSeconds, Interrupt;
      if active == null {
        return;
      }
      var m := active;
      var dt := TickSeconds(m.lastMs, r.nowMs);
      m.lastMs := Some(r.nowMs);
      if m.mode == Once {
        m.elapsed := m.elapsed + dt;
        if Min(1.0, m.elapsed / ONCE_DURATION_S) >= 1.0 {
          var _, _ := InterruptCameraMotion(r.tracked);
        }
      }
      match m.kind {
        case Orbit =>
          if m.pending {
            WaitForTarget(m, dt, r);
          } else {
            CircleTarget(m, dt, r);
          }
        case Pan => SlideCamera(m, dt, r);
        case Tilt => TiltCamera(m, dt, r);
        case Rotate => RotateCamera(m, dt, r);
        case Route => PoseRoute(m, r);
      }
    }

    // ---- requests ----------------------------------------------------------

    /** Takes the slot over: whatever ran is stopped first. */
    method Start(kind: Kind, direction: Direction, speed: Speed, mode: Mode, tracked: bool, tweening: bool, pick: Pick)
      returns (started: bool, armed: bool)
      modifies this, governor, governor.viewer
      ensures View() == Begin(old(View()), kind, direction, speed, mode, tracked, tweening, pick)
      ensures started == (active != null) && armed == (active != null && active.pending)
    {
      var _, _ := InterruptCameraMotion(tracked);
      var m := new ActiveMotion(kind, direction, speed, mode);
      if kind == Orbit {
        if tweening || pick.NoTarget? {
          m.pending := true;
        } else if pick.PickThrows? {
          return false, false;
        } else {
          m.framing := Some(Framing(camera.heading, camera.heading, pick.pitch, pick.range));
        }
      }
      Install(m);
      governor.HoldContinuousRender(OWNER);
      return true, m.pending;
    }

    method MoveCamera(q: Request) returns (reply: Reply)
      modifies this, governor, governor.viewer
      ensures (View(), reply) == MotionSlot.MoveCamera(old(View()), q)
    {
      hide Begin, Interrupt;
      var refusal := Refuse(q);
      if refusal.Some? {
        return refusal.value;
      }
      if q.navigates && !q.authorized {
        return NotAuthorized;
      }
      match q.motion {
        case Stop =>
          var wasActive, _ := InterruptCameraMotion(q.tracked);
          reply := Stopped(wasActive);
        case Moves(kind) =>
          var started, armed := Start(kind, q.direction.GetOr(Right), q.speed, q.mode, q.tracked, q.tweening, q.pick);
          reply := if started then Started(armed) else Threw;
      }
    }

    /** The refusals in the order the source checks them. */
    method Refuse(q: Request) returns (refusal: Option<Reply>)
      ensures refusal == Refusal(View(), q.motion, q.direction, q.tracked, q.navigates)
    {
      if q.motion == Stop {
        return None;
      }
      if q.motion == Unknown || q.motion == Moves(Route) {
        return Some(UnknownMotion);
      }
      var kind := q.motion.kind;
      if kind != Orbit && (q.direction.None? || q.direction.value == Forward) {
        return Some(NeedsDirection);
      }
      if kind == Rotate && q.direction != Some(Left) && q.direction != Some(Right) {
        return Some(NeedsLeftOrRight);
      }
      if kind == Tilt {
        if q.direction == Some(Up) && camera.pitch >= PITCH_MAX - 0.5 {
          return Some(AtUpperLimit);
        }
        if q.direction == Some(Down) && camera.pitch <= PITCH_MIN + 0.5 {
          return Some(AtLowerLimit);
        }
      }
      if kind == Orbit && q.tracked && !q.navigates {
        return Some(FollowingTarget);
      }
      refusal := None;
    }

    method FlyRoute(speed: Speed, tracked: bool) returns (motionId: nat)
      modifies this, governor, governor.viewer
      ensures View() == MotionSlot.FlyRoute(old(View()), speed, tracked)
      ensures active != null && motionId == active.id == old(motionSeq) + 1
    {
      var _, _ := Start(Route, Forward, speed, Continuous, tracked, false, NoTarget);
      motionId := active.id;
    }

    method AdjustOrbitRange(factor: real) returns (consumed: bool)
      modifies active
      ensures View() == AdjustRange(old(View()), factor)
      ensures consumed == (View().active.Some? && View().active.value.kind == Orbit && View().active.value.framing.Some?)
    {
      if active == null || active.kind != Orbit || active.framing.None? {
        return false;
      }
      var f := active.framing.value;
      active.framing := Some(f.(range := ZoomedRange(f.range, factor)));
      consumed := true;
    }
  }
}
