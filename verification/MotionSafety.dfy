/** What holds of the motion slot over every run: who holds the renderer, which motion an id
    names, how far a bounded motion goes, and what a stopped motion leaves behind. */
module MotionSafety {
  import opened Js
  import opened RenderGovernor
  import opened MotionSlot

  // ---- the invariant -------------------------------------------------------

  predicate MotionOk(m: Motion, seqNo: nat) {
    && m.id == seqNo > 0
    && (m.pending ==> m.kind == Orbit)
    && (m.kind == Orbit && !m.pending ==> m.framing.Some?)
    && (m.kind == MotionSlot.Route ==> m.mode == Continuous)
    && (m.mode == Once ==> 0.0 <= m.elapsed < ONCE_DURATION_S)
    && (m.mode == Once && m.kind != Orbit ==> m.lastScale == EaseOut(m.elapsed))
  }

  predicate Inv(s: State) {
    && (s.active.Some? ==> MotionOk(s.active.value, s.seqNo))
    && ModeFollowsHolds(s.gov)
  }

  lemma EaseOutStart()
    ensures EaseOut(0.0) == 0.0
  {
  }

  lemma EaseOutRange(e: real)
    requires 0.0 <= e
    ensures 0.0 <= EaseOut(e) <= 1.0
    ensures e >= ONCE_DURATION_S ==> EaseOut(e) == 1.0
  {
    var left := 1.0 - Min(1.0, e / ONCE_DURATION_S);
    assert 0.0 <= left <= 1.0;
    SquareNonNeg(left);
    MulMono(left, 1.0, left);
  }

  lemma SquareMono(b: real, a: real)
    requires 0.0 <= b <= a
    ensures b * b <= a * a
  {
    MulMono(b, a, b);
    MulMono(b, a, a);
  }

  lemma EaseOutRises(d: real, e: real)
    requires 0.0 <= d <= e
    ensures EaseOut(d) <= EaseOut(e)
  {
    var a, b := 1.0 - Min(1.0, d / ONCE_DURATION_S), 1.0 - Min(1.0, e / ONCE_DURATION_S);
    SquareMono(b, a);
  }

  lemma SpentMeans(m: Motion)
    ensures Spent(m) <==> m.mode == Once && m.elapsed >= ONCE_DURATION_S
  {
  }

  lemma TickOk(s: State, r: Reading)
    requires Inv(s)
    ensures Inv(Tick(s, r)) && Tick(s, r).seqNo == s.seqNo
  {
    if s.active.Some? {
      SpentMeans(Timed(s.active.value, r.nowMs));
      hide EaseOut, TickSeconds, Share, OrbitHeading, Panned;
    }
  }

  lemma InterruptOk(s: State, tracked: bool)
    requires Inv(s)
    ensures Inv(Interrupt(s, tracked)) && Interrupt(s, tracked).seqNo == s.seqNo
  {
  }

  lemma BeginOk(s: State, kind: Kind, direction: Direction, speed: Speed, mode: Mode,
                tracked: bool, tweening: bool, pick: Pick)
    requires Inv(s) && (kind == MotionSlot.Route ==> mode == Continuous)
    ensures var t := Begin(s, kind, direction, speed, mode, tracked, tweening, pick); Inv(t) && t.seqNo >= s.seqNo
  {
    InterruptOk(s, tracked);
    EaseOutStart();
    hide Interrupt, EaseOut;
  }

  lemma RequestOk(s: State, q: Request)
    requires Inv(s)
    ensures Inv(MoveCamera(s, q).0) && MoveCamera(s, q).0.seqNo >= s.seqNo
  {
    InterruptOk(s, q.tracked);
    if q.motion.Moves? && q.motion.kind != MotionSlot.Route {
      BeginOk(s, q.motion.kind, q.direction.GetOr(Right), q.speed, q.mode, q.tracked, q.tweening, q.pick);
    }
    hide Inv, Begin, Interrupt;
  }

  lemma NextOk(s: State, e: Event)
    requires Inv(s)
    ensures Inv(Next(s, e)) && Next(s, e).seqNo >= s.seqNo
  {
    match e {
      case Asks(q) => RequestOk(s, q);
      case Flies(speed, tracked) => BeginOk(s, MotionSlot.Route, Forward, speed, Continuous, tracked, false, NoTarget);
      case Ticks(r) => TickOk(s, r);
      case Interrupts(tracked) => InterruptOk(s, tracked);
      case Cancels(_, tracked) => InterruptOk(s, tracked);
      case _ =>
    }
    hide Tick, EaseOut, Begin, MoveCamera, Interrupt;
  }

  lemma {:induction false} AlwaysOk(camera: Camera, run: seq<Event>, n: nat)
    requires n <= |run|
    ensures Inv(After(camera, run, n))
  {
    hide Inv, Next;
    if n == 0 {
      IdleOk(camera);
    } else {
      AlwaysOk(camera, run, n - 1);
      NextOk(After(camera, run, n - 1), run[n - 1]);
    }
  }

  lemma IdleOk(camera: Camera)
    ensures Inv(Idle(camera))
  {
  }

  // ---- who holds the renderer ----------------------------------------------

  /** The sequence number when the governor was last uninstalled: motions up to it lost their hold. */
  function LastLost(camera: Camera, run: seq<Event>, n: nat): nat
    requires n <= |run|
  {
    if n == 0 then 0
    else if run[n - 1].Governs? && run[n - 1].call.Uninstalls? && run[n - 1].call.mine && After(camera, run, n - 1).gov.scene.Some?
    then After(camera, run, n - 1).seqNo
    else LastLost(camera, run, n - 1)
  }

  /** The governor as the slot's own events leave it. */
  predicate HoldIs(s: State, lost: nat) {
    && lost <= s.seqNo
    && (OWNER in s.gov.holds <==> s.active.Some? && s.active.value.id > lost)
  }

  lemma TickHolds(s: State, r: Reading, lost: nat)
    requires Inv(s) && HoldIs(s, lost)
    ensures HoldIs(Tick(s, r), lost)
  {
    hide EaseOut, TickSeconds, Share, OrbitHeading, Panned, Spent, Scale;
  }

  lemma NextHolds(s: State, e: Event, lost: nat)
    requires Inv(s) && Foreign(e) && HoldIs(s, lost)
    ensures var uninstalls := e.Governs? && e.call.Uninstalls? && e.call.mine && s.gov.scene.Some?;
      HoldIs(Next(s, e), if uninstalls then s.seqNo else lost)
  {
    if e.Ticks? {
      TickHolds(s, e.reading, lost);
    }
    hide Tick, EaseOut;
  }

  /** Over every run, the renderer is held for the camera exactly while a motion runs that was
      started after the governor was last uninstalled; then an installed scene renders
      continuously. */
  lemma {:induction false} HoldFollowsMotion(camera: Camera, run: seq<Event>, n: nat)
    requires n <= |run| && AllForeign(run)
    ensures var s, lost := After(camera, run, n), LastLost(camera, run, n);
      && HoldIs(s, lost)
      && (OWNER in s.gov.holds && s.gov.scene.Some? ==> !s.gov.scene.value.requestRenderMode)
  {
    hide Inv, Next, Foreign, ModeFollowsHolds, HoldIs;
    AlwaysOk(camera, run, n);
    InvMode(After(camera, run, n));
    if n == 0 {
      IdleHolds(camera);
    } else {
      AlwaysOk(camera, run, n - 1);
      HoldFollowsMotion(camera, run, n - 1);
      NextHolds(After(camera, run, n - 1), run[n - 1], LastLost(camera, run, n - 1));
    }
  }

  lemma IdleHolds(camera: Camera)
    ensures HoldIs(Idle(camera), 0)
  {
  }

  lemma InvMode(s: State)
    requires Inv(s)
    ensures OWNER in s.gov.holds && s.gov.scene.Some? ==> !s.gov.scene.value.requestRenderMode
  {
  }

  // ---- what an id names ----------------------------------------------------

  /** Still the same motion: the same id and the same request. */
  predicate SameMotion(s: State, t: State) {
    && s.active.Some? && t.active.Some?
    && var a, b := s.active.value, t.active.value;
      a.id == b.id && a.kind == b.kind && a.direction == b.direction && a.speed == b.speed && a.mode == b.mode
  }

  lemma TickSame(s: State, r: Reading)
    requires Inv(s) && Tick(s, r).active.Some?
    ensures SameMotion(s, Tick(s, r))
  {
    hide EaseOut, TickSeconds, Share, OrbitHeading, Panned, Spent, Scale;
  }

  lemma NextSame(s: State, e: Event)
    requires Inv(s)
    ensures Next(s, e).seqNo == s.seqNo && Next(s, e).active.Some? ==> SameMotion(s, Next(s, e))
  {
    if e.Ticks? && Tick(s, e.reading).active.Some? {
      TickSame(s, e.reading);
    }
    hide Tick, EaseOut;
  }

  lemma {:induction false} SeqGrows(camera: Camera, run: seq<Event>, i: nat, j: nat)
    requires i <= j <= |run|
    ensures After(camera, run, i).seqNo <= After(camera, run, j).seqNo
  {
    hide Inv, Next;
    if i < j {
      SeqGrows(camera, run, i, j - 1);
      AlwaysOk(camera, run, j - 1);
      NextOk(After(camera, run, j - 1), run[j - 1]);
    }
  }

  lemma ActiveId(s: State)
    requires Inv(s) && s.active.Some?
    ensures s.active.value.id == s.seqNo > 0
  {
  }

  /** Ids never repeat: two moments whose motions have the same id are moments of one motion,
      which ran all the time between. */
  lemma {:induction false} SameIdSameMotion(camera: Camera, run: seq<Event>, i: nat, j: nat)
    requires i <= j <= |run|
    requires After(camera, run, i).active.Some? && After(camera, run, j).active.Some?
    requires After(camera, run, i).active.value.id == After(camera, run, j).active.value.id
    ensures forall k :: i <= k <= j ==> SameMotion(After(camera, run, i), After(camera, run, k))
  {
    hide Inv, Next, After;
    AlwaysOk(camera, run, i);
    AlwaysOk(camera, run, j);
    ActiveId(After(camera, run, i));
    ActiveId(After(camera, run, j));
    if i < j {
      var s := After(camera, run, j - 1);
      AlwaysOk(camera, run, j - 1);
      SeqGrows(camera, run, i, j - 1);
      SeqGrows(camera, run, j - 1, j);
      AfterStep(camera, run, j);
      NextSame(s, run[j - 1]);
      ActiveId(s);
      SameIdSameMotion(camera, run, i, j - 1);
    }
  }

  lemma AfterStep(camera: Camera, run: seq<Event>, n: nat)
    requires 0 < n <= |run|
    ensures After(camera, run, n) == Next(After(camera, run, n - 1), run[n - 1])
  {
  }

  /** Cancelling by an id once handed out changes nothing unless that very motion still runs. */
  lemma StaleCancel(camera: Camera, run: seq<Event>, i: nat, j: nat, tracked: bool)
    requires i <= j <= |run| && After(camera, run, i).active.Some?
    ensures var s, id := After(camera, run, j), After(camera, run, i).active.value.id;
      && InterruptIfActive(s, id, tracked) == (if s.active.Some? && SameMotion(After(camera, run, i), s) then Interrupt(s, tracked) else s)
      && (s.seqNo > id ==> InterruptIfActive(s, id, tracked) == s)
  {
    hide Inv, Next, After;
    AlwaysOk(camera, run, i);
    AlwaysOk(camera, run, j);
    ActiveId(After(camera, run, i));
    if After(camera, run, j).active.Some? {
      ActiveId(After(camera, run, j));
      if After(camera, run, j).active.value.id == After(camera, run, i).active.value.id {
        SameIdSameMotion(camera, run, i, j);
      }
    }
  }

  /** A request that is refused or not authorized changes nothing; any other leaves the slot
      with what it asked for. */
  lemma RequestTakesSlot(s: State, q: Request)
    requires Inv(s)
    ensures var (t, reply) := MoveCamera(s, q);
      match reply
      case Stopped(was) => t.active.None? && was == s.active.Some?
      case Started(armed) =>
        && t.active.Some? && t.seqNo == s.seqNo + 1
        && OWNER in t.gov.holds
        && var m := t.active.value;
          && q.motion == Moves(m.kind) && m.mode == q.mode && m.speed == q.speed && m.pending == armed
          && (armed <==> m.kind == Orbit && (q.tweening || q.pick.NoTarget?))
          && (q.direction.Some? ==> m.direction == q.direction.value)
      case Threw => t.active.None? && q.pick.PickThrows?
      case _ => t == s
  {
  }
}
