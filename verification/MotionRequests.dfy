/** Which motion requests are turned down and why, what an accepted one starts, and what a zoom and a
    route's frame do to the camera. */
module MotionRequests {
  import opened Js
  import opened MotionSlot
  import opened MotionSafety
  import Route = RouteFlight

  /** The request names one of the four motions. */
  predicate Asks(q: Request, kind: Kind) {
    q.motion == Moves(kind) && kind in {Orbit, Pan, Tilt, Rotate}
  }

  /** A pan, a tilt or a rotation without a direction to go in. */
  predicate Lost(q: Request) {
    (Asks(q, Pan) || Asks(q, Tilt) || Asks(q, Rotate)) && q.direction !in {Some(Left), Some(Right), Some(Up), Some(Down)}
  }

  /** Every refusal, by the request and the camera: each for its own reason, in this order, and for no
      other. */
  lemma RefusesExactly(s: State, q: Request)
    ensures var reply := MoveCamera(s, q).1;
      && (reply == UnknownMotion <==> q.motion == Unknown || q.motion == Moves(MotionSlot.Route))
      && (reply == NeedsDirection <==> Lost(q))
      && (reply == NeedsLeftOrRight <==> Asks(q, Rotate) && q.direction in {Some(Up), Some(Down)})
      && (reply == AtUpperLimit <==> Asks(q, Tilt) && q.direction == Some(Up) && s.camera.pitch >= -5.5)
      && (reply == AtLowerLimit <==> Asks(q, Tilt) && q.direction == Some(Down) && s.camera.pitch <= -88.5)
      && (reply == FollowingTarget <==> Asks(q, Orbit) && q.tracked && !q.navigates)
  {
  }

  predicate TurnedDown(reply: Reply) {
    reply in {UnknownMotion, NeedsDirection, NeedsLeftOrRight, AtUpperLimit, AtLowerLimit, FollowingTarget}
  }

  /** What becomes of a request that is not turned down: an unauthorized navigation does nothing; a
      stop empties the slot; an orbit over ground that cannot be picked throws; anything else runs, to
      the right if it names no direction, an orbit from the camera's own heading. */
  lemma StartsExactly(s: State, q: Request)
    requires !TurnedDown(MoveCamera(s, q).1)
    ensures var (t, reply) := MoveCamera(s, q);
      if q.navigates && !q.authorized then t == s && reply == NotAuthorized
      else if q.motion == Stop then t.active.None? && reply == Stopped(s.active.Some?)
      else if q.motion == Moves(Orbit) && !q.tweening && q.pick == PickThrows then t.active.None? && reply == Threw
      else
        && t.active.Some? && reply == Started(t.active.value.pending)
        && var m := t.active.value;
          && q.motion == Moves(m.kind) && m.speed == q.speed && m.mode == q.mode
          && m.direction == (if q.direction.Some? then q.direction.value else Right)
          && (m.pending <==> m.kind == Orbit && (q.tweening || q.pick == NoTarget))
          && m.lastMs.None? && m.elapsed == 0.0 && m.pendingS == 0.0 && m.settledS == 0.0
          && (m.framing.Some? <==> m.kind == Orbit && !m.pending)
          && (m.framing.Some? ==> m.framing.value == Framing(s.camera.heading, s.camera.heading, q.pick.pitch, q.pick.range))
  {
  }

  /** A flown route always takes the slot, and runs until it is over or stopped. */
  lemma RouteStarts(s: State, speed: Speed, tracked: bool)
    ensures var t := FlyRoute(s, speed, tracked);
      t.active.Some? && t.active.value.kind == MotionSlot.Route && t.active.value.mode == Continuous && t.active.value.speed == speed
      && !t.active.value.pending && t.active.value.id == s.seqNo + 1
  {
  }

  /** A zoom multiplies the radius of an orbit that circles, as far as it stays between 80 m and
      5000 km, and stops at these; it does nothing to anything else. */
  lemma ZoomsExactly(s: State, factor: real)
    ensures var t := AdjustRange(s, factor);
      if s.active.None? || s.active.value.kind != Orbit || s.active.value.framing.None? then t == s
      else
        var f, f' := s.active.value.framing.value, if t.active.Some? && t.active.value.framing.Some? then t.active.value.framing.value else s.active.value.framing.value;
        var wanted := f.range * factor;
        && t == s.(active := Some(s.active.value.(framing := Some(f'))))
        && f' == f.(range := if wanted < 80.0 then 80.0 else if wanted > 5000000.0 then 5000000.0 else wanted)
  {
  }

  /** One zoom in undoes one out, and zooms add up, as long as the radius stays in its range. */
  lemma ZoomsAddUp(s: State, a: real, b: real)
    requires s.active.Some? && s.active.value.kind == Orbit && s.active.value.framing.Some?
    requires var range := s.active.value.framing.value.range; 80.0 <= range * a <= 5000000.0
    ensures AdjustRange(AdjustRange(s, a), b) == AdjustRange(s, a * b)
  {
    ZoomTwice(s.active.value.framing.value.range, a, b);
    hide ZoomedRange;
  }

  lemma ZoomTwice(range: real, a: real, b: real)
    requires 80.0 <= range * a <= 5000000.0
    ensures ZoomedRange(ZoomedRange(range, a), b) == ZoomedRange(range, a * b)
  {
    var once, product := range * a, a * b;
    Associates(range, a, b);
    assert once * b == range * product;
  }

  lemma Associates(range: real, a: real, b: real)
    ensures (range * a) * b == range * (a * b)
  {
  }

  /** What stopping leaves of the camera: all of it while an entity is tracked or nothing ran; otherwise
      an orbit or a route hands the transform back, a route also levels a roll that shows, and no other
      motion leaves anything to undo. */
  lemma StopsExactly(s: State, tracked: bool)
    ensures var t := Interrupt(s, tracked);
      && t.active.None? && t.seqNo == s.seqNo && OWNER !in t.gov.holds
      && var c := s.camera;
        if tracked || s.active.None? then t.camera == c
        else match s.active.value.kind
          case Orbit => t.camera == c.(locked := false)
          case Route => t.camera == c.(locked := false, roll := if -0.00001 < c.roll < 0.00001 then c.roll else 0.0)
          case _ => t.camera == c
  {
  }

  /** Cancelling by an id stops the motion that carries it, and is nothing for any other. */
  lemma CancelsExactly(s: State, motionId: nat, tracked: bool)
    requires Inv(s)
    ensures InterruptIfActive(s, motionId, tracked) ==
      if s.active.Some? && s.active.value.id == motionId then Interrupt(s, tracked) else s
  {
  }

  /** A route's frame: one that waits leaves the camera alone; any other looks along the gaze, 32
      degrees down, banked as the frame says, and the last one gives the slot up. */
  lemma RouteTicks(s: State, r: Reading)
    requires Inv(s) && s.active.Some? && s.active.value.kind == MotionSlot.Route && !r.throws
    ensures var t := Tick(s, r);
      if r.frame.Arming? then t.camera == s.camera && t.active.Some?
      else
        && t.camera.heading == r.gazeDeg && t.camera.pitch == -32.0
        && (t.active.None? <==> r.frame.finished)
        && (t.active.Some? || r.tracked ==> t.camera.roll == r.frame.bankDeg)
  {
    SpentMeans(Timed(s.active.value, r.nowMs));
    hide TickSeconds, Spent;
  }

  /** A tick that throws stops the motion. */
  lemma ThrowingTickStops(s: State, r: Reading)
    requires Inv(s) && s.active.Some? && !s.active.value.pending && r.throws
    ensures Tick(s, r).active.None?
  {
    SpentMeans(Timed(s.active.value, r.nowMs));
    hide TickSeconds, Spent, EaseOut;
  }
}
