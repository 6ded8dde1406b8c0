/** What the route dolly guarantees on every run of frames, for any floor readings, probe
    answers, turn rates and frame lengths. */
module RouteSafety {
  import opened Js
  import opened SpeedProfile
  import opened RouteGeometry
  import opened RouteFlight

  /** The shaping never lowers the ride by more than the breath, so the held floor is cleared by this much. */
  const HELD_CLEARANCE_M := ROUTE_CAMERA_HEIGHT_M - ROUTE_BREATH_M

  ghost predicate Within(x: real, limit: real) {
    -limit <= x <= limit
  }

  ghost predicate RollWithinLimit(roll: Roll) {
    && Within(roll.leadDeg, ROUTE_BANK_MAX_DEG) && Within(roll.bankDeg, ROUTE_BANK_MAX_DEG)
    && Within(roll.appliedDeg, ROUTE_BANK_MAX_DEG) && Within(roll.liftDeg, ROUTE_BANK_MAX_DEG)
  }

  ghost predicate FloorOk(floor: Floor) {
    && (floor.floorKnown ==> floor.floorM.Some?)
    && (floor.meshProbeCoveredCold ==> floor.floorKnown)
    && (floor.meshProbeFloorM.Some? ==> floor.meshProbeSpent && floor.floorM.Some?)
  }

  /** Fraction of the route covered at normalized time u. */
  ghost function ProfileDistance(plan: Plan, u: real): real
    requires plan.ramp < 1.0
  {
    RouteSpeedProfile(Some(u), plan.ramp).distance
  }

  ghost predicate Inv(f: Flight, plan: Plan)
    requires PlanOk(plan)
  {
    && 0.0 <= f.u <= 1.0
    && f.traveled == TraveledM(plan, ProfileDistance(plan, f.u))
    && FloorOk(f.floor)
    && RollWithinLimit(f.roll)
    && (f.offsetM.Some? ==> -ROUTE_BREATH_M <= f.offsetM.value <= ROUTE_TURN_LIFT_M)
    && (f.departed <==> f.appliedHeightM.Some?)
    && (f.departed ==> f.floor.floorM.Some?)
    && (!f.departed ==> f.u == 0.0 && f.offsetM.None?)
    && 0.0 <= f.armS
    && (f.departed && !f.floor.floorKnown && plan.safeHoldHeightM.Some? ==>
          f.appliedHeightM.value >= plan.safeHoldHeightM.value)
  }

  /** One frame: while arming, the camera and everything but the arm clock and the floor are
      left alone; once flying, the eye clears the raw sample by the hard clearance and the
      held floor by far more, sinks no faster than the descent cap, and stays at or above the
      launch altitude for as long as no floor is known. */
  ghost predicate SafeFrame(f: Flight, plan: Plan, step: real, f': Flight, frame: Frame) {
    match frame
    case Arming => !f.departed && f' == f.(floor := f'.floor, armS := f'.armS)
    case Pose(_, bankDeg, heightM, aglM, _, _, sampled) =>
      && f'.departed && f'.appliedHeightM == Some(heightM) && f'.roll.appliedDeg == bankDeg
      && f'.floor.floorM.Some?
      && aglM == heightM - f'.floor.floorM.value
      && aglM >= HELD_CLEARANCE_M
      && (sampled.Some? ==> heightM >= sampled.value + ROUTE_MIN_CLEARANCE_M)
      && (f.appliedHeightM.Some? ==> heightM >= f.appliedHeightM.value - ROUTE_MAX_DESCENT_MPS * step)
      && (!f'.floor.floorKnown && plan.safeHoldHeightM.Some? ==> heightM >= plan.safeHoldHeightM.value)
      && Within(bankDeg, ROUTE_BANK_MAX_DEG)
  }

  // ---- bounds --------------------------------------------------------------

  lemma Shrink(d: real, gain: real)
    requires 0.0 <= gain <= 1.0
    ensures d >= 0.0 ==> 0.0 <= Times(d, gain) <= d
    ensures d <= 0.0 ==> d <= Times(d, gain) <= 0.0
  {
    hide Times;
    TimesUnit(d);
    if d >= 0.0 {
      TimesMono(d, 0.0, gain);
      TimesMono(d, gain, 1.0);
    } else {
      TimesUnit(-d);
      TimesMono(-d, 0.0, gain);
      TimesMono(-d, gain, 1.0);
      TimesSwap(d, gain);
      TimesSwap(-d, gain);
      TimesNeg(gain, d);
    }
  }

  lemma ConvexStep(current: real, d: real, gain: real, low: real, high: real)
    requires low <= current <= high && low <= current + d <= high && 0.0 <= gain <= 1.0
    ensures low <= current + Times(d, gain) <= high
  {
    hide Times;
    Shrink(d, gain);
  }

  /** Smoothing a value between two limits toward a target between them stays between them. */
  lemma ApproachWithin(current: Option<real>, target: real, gain: real, low: real, high: real)
    requires current.Some? ==> low <= current.value <= high
    requires low <= target <= high && 0.0 <= gain < 1.0
    ensures var v := ApproachValue(current, Some(target), gain); v.Some? && low <= v.value <= high
  {
    hide Times;
    if current.Some? {
      ConvexStep(current.value, target - current.value, gain, low, high);
    }
  }

  /** A mix of a breath within its limit and the full lift. */
  lemma OffsetRange(breathM: real, bank: real, limitM: real, liftM: real)
    requires -limitM <= breathM <= limitM <= liftM && 0.0 <= bank <= 1.0
    ensures -limitM <= breathM * (1.0 - bank) + bank * liftM <= liftM
  {
    MulNonNeg(liftM - breathM, 1.0 - bank);
    MulNonNeg(breathM + limitM, 1.0 - bank);
    MulNonNeg(bank, liftM + limitM);
    MixIdentities(breathM, bank, limitM, liftM);
  }

  lemma MixIdentities(breathM: real, bank: real, limitM: real, liftM: real)
    ensures liftM - (breathM * (1.0 - bank) + bank * liftM) == (liftM - breathM) * (1.0 - bank)
    ensures breathM * (1.0 - bank) + bank * liftM + limitM == (breathM + limitM) * (1.0 - bank) + bank * (liftM + limitM)
  {
  }

  lemma AltitudeOffsetRange(breath: real, bankFraction: real, reducedMotion: bool)
    requires -1.0 <= breath <= 1.0
    ensures -ROUTE_BREATH_M <= RouteAltitudeOffsetM(breath, bankFraction, reducedMotion) <= ROUTE_TURN_LIFT_M
  {
    var bank := Abs(Max(-1.0, Min(1.0, bankFraction)));
    OffsetRange(breath * ROUTE_BREATH_M, bank, ROUTE_BREATH_M, ROUTE_TURN_LIFT_M);
  }

  lemma LevelledBank(bank: real, speed: real)
    requires Within(bank, ROUTE_BANK_MAX_DEG) && 0.0 <= speed <= 1.0
    ensures Within(LevelledBankDeg(bank, speed), ROUTE_BANK_MAX_DEG)
  {
    MulMono(bank, ROUTE_BANK_MAX_DEG, speed);
    MulMono(-ROUTE_BANK_MAX_DEG, bank, speed);
  }

  lemma ProfileRange(u: real, r: real)
    requires 0.0 < r <= ROUTE_RAMP_MAX_FRACTION && 0.0 <= u <= 1.0
    ensures 0.0 <= RouteSpeedProfile(Some(u), r).speed <= 1.0
  {
    Sections(u, r);
    if u <= r {
      RampUnits(u, r);
      SmoothstepRange(u / r);
    } else if u >= 1.0 - r {
      RampUnits(1.0 - u, r);
      SmoothstepRange((1.0 - u) / r);
    }
  }

  lemma PlanRamp(plan: Plan)
    requires PlanOk(plan)
    ensures 0.0 < plan.ramp <= ROUTE_RAMP_MAX_FRACTION && Ramp(plan.ramp)
  {
  }

  // ---- one frame -----------------------------------------------------------

  lemma RollBounded(roll: Roll, plan: Plan, input: Inputs, speed: real)
    requires RollWithinLimit(roll) && input.Valid() && 0.0 <= speed <= 1.0
    ensures RollWithinLimit(NextRoll(roll, plan, input, speed))
  {
    var roll' := NextRoll(roll, plan, input, speed);
    var target := RouteBankTargetDeg(input.turnRateDegS, plan.reducedMotion);
    hide ApproachValue, RouteBankTargetDeg, LevelledBankDeg;
    ApproachWithin(Some(roll.leadDeg), target, input.leadGain, -ROUTE_BANK_MAX_DEG, ROUTE_BANK_MAX_DEG);
    ApproachWithin(Some(roll.bankDeg), roll'.leadDeg, input.settleGain, -ROUTE_BANK_MAX_DEG, ROUTE_BANK_MAX_DEG);
    LevelledBank(roll'.bankDeg, speed);
    ApproachWithin(Some(roll.liftDeg), roll'.appliedDeg, input.liftGain, -ROUTE_BANK_MAX_DEG, ROUTE_BANK_MAX_DEG);
  }

  lemma OffsetBounded(offsetM: Option<real>, plan: Plan, input: Inputs, liftDeg: real)
    requires input.Valid() && (offsetM.Some? ==> -ROUTE_BREATH_M <= offsetM.value <= ROUTE_TURN_LIFT_M)
    ensures var offset := NextOffset(offsetM, plan, input, liftDeg);
      offset.Some? && -ROUTE_BREATH_M <= offset.value <= ROUTE_TURN_LIFT_M
  {
    hide ApproachValue, RouteAltitudeOffsetM;
    var target := RouteAltitudeOffsetM(input.breath, liftDeg / ROUTE_BANK_MAX_DEG, plan.reducedMotion);
    AltitudeOffsetRange(input.breath, liftDeg / ROUTE_BANK_MAX_DEG, plan.reducedMotion);
    ApproachWithin(offsetM, target, input.altitudeGain, -ROUTE_BREATH_M, ROUTE_TURN_LIFT_M);
  }

  lemma ClockRange(plan: Plan, u: real, step: real)
    requires PlanOk(plan) && 0.0 <= u <= 1.0 && step >= 0.0
    ensures 0.0 <= u <= Clock(plan, u, step) <= 1.0
    ensures plan.durationS * (Clock(plan, u, step) - u) <= step
  {
    var share := step / plan.durationS;
    StepFraction(step, plan.durationS);
    ScaleQuotient(step, plan.durationS);
    MulMono(Clock(plan, u, step) - u, share, plan.durationS);
  }

  lemma StepFraction(step: real, durationS: real)
    requires step >= 0.0 && durationS > 0.0
    ensures step / durationS >= 0.0
  {
  }

  lemma HeightSafe(floor: Floor, plan: Plan, sampled: Option<real>, offsetM: Option<real>, applied: Option<real>, step: real)
    requires floor.floorM.Some? && offsetM.Some? && offsetM.value >= -ROUTE_BREATH_M
    ensures var height := HeightM(floor, plan, sampled, offsetM, applied, step);
      && height >= floor.floorM.value + HELD_CLEARANCE_M
      && (sampled.Some? ==> height >= sampled.value + ROUTE_MIN_CLEARANCE_M)
      && (applied.Some? ==> height >= applied.value - ROUTE_MAX_DESCENT_MPS * step)
      && (!floor.floorKnown && plan.safeHoldHeightM.Some? ==> height >= plan.safeHoldHeightM.value)
  {
  }

  lemma HeldFloorOk(floor: Floor, plan: Plan, sampled: Option<real>, gain: real)
    requires FloorOk(floor)
    ensures var held := HeldFloor(floor, plan, sampled, gain);
      && FloorOk(held) && held.floorM.Some?
      && (held.floorKnown <==> floor.floorKnown || sampled.Some?)
  {
  }

  lemma FlySafe(f: Flight, plan: Plan, input: Inputs)
    requires PlanOk(plan) && Inv(f, plan) && input.Valid()
    ensures var (f', frame) := Fly(f, plan, input);
      Inv(f', plan) && SafeFrame(f, plan, input.Step(), f', frame)
  {
    hide RouteSpeedProfile, NextRoll, NextOffset, HeldFloor, HeightM, SampledFloor, FloorOk, GroundSpeedMps, TraveledM, Clock;
    var f', sampled := Fly(f, plan, input).0, SampledFloor(plan, input);
    PlanRamp(plan);
    ClockRange(plan, f.u, input.Step());
    ProfileRange(f'.u, plan.ramp);
    RollBounded(f.roll, plan, input, RouteSpeedProfile(Some(f'.u), plan.ramp).speed);
    OffsetBounded(f.offsetM, plan, input, f'.roll.liftDeg);
    HeldFloorOk(f.floor, plan, sampled, input.floorGain);
    HeightSafe(f'.floor, plan, sampled, f'.offsetM, f.appliedHeightM, input.Step());
  }

  lemma AcquireOk(floor: Floor, plan: Plan, cells: seq<Cell>, cachedFloor: Cell -> Option<real>, probe: seq<Cell> -> Probe)
    requires FloorOk(floor) && !floor.floorKnown
    ensures var (floor', resolved) := Acquire(floor, plan, cells, cachedFloor, probe);
      FloorOk(floor') && (resolved <==> floor'.floorKnown)
  {
  }

  lemma AdvanceSafe(f: Flight, plan: Plan, cells: seq<Cell>, input: Inputs)
    requires PlanOk(plan) && Inv(f, plan) && input.Valid()
    ensures var (f', frame) := Advance(f, plan, cells, input);
      Inv(f', plan) && SafeFrame(f, plan, input.Step(), f', frame)
  {
    hide Fly, Acquire, RouteSpeedProfile;
    if CanArm(f, plan) {
      AcquireOk(f.floor, plan, cells, input.cachedFloor, input.probe);
      var (floor, resolved) := Acquire(f.floor, plan, cells, input.cachedFloor, input.probe);
      var armed := f.(armS := f.armS + input.Step(), floor := floor);
      if resolved {
        FlySafe(armed, plan, input);
      }
    } else {
      FlySafe(f, plan, input);
    }
  }

  // ---- whole flights -------------------------------------------------------

  /** `createRouteFlight`: plan the flight and take whatever floor is known already. */
  ghost function Created(plan: Plan, cells: seq<Cell>, cachedFloor: Cell -> Option<real>, probe: seq<Cell> -> Probe): Flight {
    Launch(Acquire(FreshFloor(), plan, cells, cachedFloor, probe).0)
  }

  /** The state after the first n frames of a run. */
  ghost function After(f: Flight, plan: Plan, cells: seq<Cell>, run: seq<Inputs>, n: nat): Flight
    requires PlanOk(plan) && n <= |run|
  {
    if n == 0 then f else Advance(After(f, plan, cells, run, n - 1), plan, cells, run[n - 1]).0
  }

  ghost function FrameAt(f: Flight, plan: Plan, cells: seq<Cell>, run: seq<Inputs>, i: nat): Frame
    requires PlanOk(plan) && i < |run|
  {
    Advance(After(f, plan, cells, run, i), plan, cells, run[i]).1
  }

  /** Seconds of flight time in frames i to j. */
  ghost function Elapsed(run: seq<Inputs>, i: nat, j: nat): real
    requires i <= j <= |run|
  {
    if i == j then 0.0 else Elapsed(run, i, j - 1) + run[j - 1].Step()
  }

  ghost predicate ValidRun(run: seq<Inputs>) {
    forall i :: 0 <= i < |run| ==> run[i].Valid()
  }

  lemma LaunchOk(floor: Floor, plan: Plan)
    requires PlanOk(plan) && FloorOk(floor)
    ensures Inv(Launch(floor), plan)
  {
    PlanRamp(plan);
    ProfileEnds(Some(0.0), plan.ramp);
    hide RouteSpeedProfile;
  }

  lemma CreatedOk(plan: Plan, cells: seq<Cell>, cachedFloor: Cell -> Option<real>, probe: seq<Cell> -> Probe)
    requires PlanOk(plan)
    ensures Inv(Created(plan, cells, cachedFloor, probe), plan)
  {
    AcquireOk(FreshFloor(), plan, cells, cachedFloor, probe);
    LaunchOk(Acquire(FreshFloor(), plan, cells, cachedFloor, probe).0, plan);
  }

  lemma {:induction false} Reachable(f: Flight, plan: Plan, cells: seq<Cell>, run: seq<Inputs>, n: nat)
    requires PlanOk(plan) && Inv(f, plan) && ValidRun(run) && n <= |run|
    ensures Inv(After(f, plan, cells, run, n), plan)
  {
    hide Inv, Advance;
    if n > 0 {
      Reachable(f, plan, cells, run, n - 1);
      AdvanceSafe(After(f, plan, cells, run, n - 1), plan, cells, run[n - 1]);
    }
  }

  /** Altitude safety: every frame of every run from a created flight is a safe frame. */
  lemma EveryFrameSafe(plan: Plan, cells: seq<Cell>, cachedFloor: Cell -> Option<real>, probe: seq<Cell> -> Probe,
                       run: seq<Inputs>, i: nat)
    requires PlanOk(plan) && ValidRun(run) && i < |run|
    ensures var f := Created(plan, cells, cachedFloor, probe);
      SafeFrame(After(f, plan, cells, run, i), plan, run[i].Step(), After(f, plan, cells, run, i + 1), FrameAt(f, plan, cells, run, i))
  {
    var f := Created(plan, cells, cachedFloor, probe);
    CreatedOk(plan, cells, cachedFloor, probe);
    Reachable(f, plan, cells, run, i);
    AdvanceSafe(After(f, plan, cells, run, i), plan, cells, run[i]);
  }

  /** What one frame never undoes. */
  lemma AdvanceMonotone(f: Flight, plan: Plan, cells: seq<Cell>, input: Inputs)
    requires PlanOk(plan) && Inv(f, plan) && input.Valid()
    ensures var f' := Advance(f, plan, cells, input).0;
      && (f.departed ==> f'.departed)
      && (f.floor.floorKnown ==> f'.floor.floorKnown)
      && (f.floor.meshProbeSpent ==> f'.floor.meshProbeSpent)
  {
    hide RouteSpeedProfile, ColdCells, KnownFloor, HeightM;
  }

  /** Once flying, the eye never sinks faster than the descent cap over any stretch of the
      run, however the floor readings jump. */
  lemma {:induction false} DescentBounded(f: Flight, plan: Plan, cells: seq<Cell>, run: seq<Inputs>, i: nat, j: nat)
    requires PlanOk(plan) && Inv(f, plan) && ValidRun(run) && i <= j <= |run|
    requires After(f, plan, cells, run, i).departed
    ensures After(f, plan, cells, run, j).departed
    ensures After(f, plan, cells, run, i).appliedHeightM.Some? && After(f, plan, cells, run, j).appliedHeightM.Some?
    ensures After(f, plan, cells, run, j).appliedHeightM.value
         >= After(f, plan, cells, run, i).appliedHeightM.value - ROUTE_MAX_DESCENT_MPS * Elapsed(run, i, j)
  {
    hide Advance;
    Reachable(f, plan, cells, run, i);
    if i < j {
      DescentBounded(f, plan, cells, run, i, j - 1);
      Reachable(f, plan, cells, run, j - 1);
      AdvanceSafe(After(f, plan, cells, run, j - 1), plan, cells, run[j - 1]);
    }
  }

  /** Before any floor is known the dolly never takes the camera below its launch altitude:
      not in any frame up to the first one with a floor. */
  lemma {:induction false} NeverBelowLaunch(plan: Plan, cells: seq<Cell>, cachedFloor: Cell -> Option<real>, probe: seq<Cell> -> Probe,
                         run: seq<Inputs>, i: nat, n: nat)
    requires PlanOk(plan) && ValidRun(run) && i < n <= |run| && plan.safeHoldHeightM.Some?
    requires !After(Created(plan, cells, cachedFloor, probe), plan, cells, run, n).floor.floorKnown
    ensures var frame := FrameAt(Created(plan, cells, cachedFloor, probe), plan, cells, run, i);
      frame.Pose? ==> frame.heightM >= plan.safeHoldHeightM.value
  {
    var f := Created(plan, cells, cachedFloor, probe);
    if n == i + 1 {
      EveryFrameSafe(plan, cells, cachedFloor, probe, run, i);
      hide Advance, Created;
    } else {
      CreatedOk(plan, cells, cachedFloor, probe);
      Reachable(f, plan, cells, run, n - 1);
      AdvanceMonotone(After(f, plan, cells, run, n - 1), plan, cells, run[n - 1]);
      hide Advance, Created;
      NeverBelowLaunch(plan, cells, cachedFloor, probe, run, i, n - 1);
    }
  }

  // ---- arming --------------------------------------------------------------

  lemma ArmingClock(f: Flight, plan: Plan, cells: seq<Cell>, input: Inputs)
    requires PlanOk(plan) && Inv(f, plan) && input.Valid()
    ensures var (f', frame) := Advance(f, plan, cells, input);
      && (frame.Arming? ==> f.armS < ROUTE_ARM_S && f'.armS == f.armS + input.Step() && !f'.departed)
      && (frame.Pose? ==> f'.departed)
  {
    hide RouteSpeedProfile, Acquire, HeightM, HeldFloor;
  }

  lemma {:induction false} ArmClockCounts(f: Flight, plan: Plan, cells: seq<Cell>, run: seq<Inputs>, n: nat)
    requires PlanOk(plan) && Inv(f, plan) && ValidRun(run) && n <= |run|
    requires forall i :: 0 <= i < n ==> FrameAt(f, plan, cells, run, i).Arming?
    ensures After(f, plan, cells, run, n).armS == f.armS + Elapsed(run, 0, n)
  {
    if n > 0 {
      ArmClockCounts(f, plan, cells, run, n - 1);
      Reachable(f, plan, cells, run, n - 1);
      assert FrameAt(f, plan, cells, run, n - 1).Arming?;
      ArmingClock(After(f, plan, cells, run, n - 1), plan, cells, run[n - 1]);
      hide Advance;
    }
  }

  /** Arming ends: once the frames so far add up to the arm time, the next frame flies,
      whatever the cache and the probe ever answered. */
  lemma ArmingEnds(plan: Plan, cells: seq<Cell>, cachedFloor: Cell -> Option<real>, probe: seq<Cell> -> Probe,
                   run: seq<Inputs>, n: nat)
    requires PlanOk(plan) && ValidRun(run) && n < |run|
    requires Elapsed(run, 0, n) >= ROUTE_ARM_S
    ensures FrameAt(Created(plan, cells, cachedFloor, probe), plan, cells, run, n).Pose?
  {
    var f := Created(plan, cells, cachedFloor, probe);
    CreatedOk(plan, cells, cachedFloor, probe);
    assert f.armS == 0.0 && !f.departed;
    Reachable(f, plan, cells, run, n);
    ArmingClock(After(f, plan, cells, run, n), plan, cells, run[n]);
    hide Advance, Created;
    if !After(f, plan, cells, run, n).departed {
      AllArmingUntil(f, plan, cells, run, n);
      ArmClockCounts(f, plan, cells, run, n);
    } else {
      FlownStaysFlown(f, plan, cells, run, n);
    }
  }

  lemma FlownStaysFlown(f: Flight, plan: Plan, cells: seq<Cell>, run: seq<Inputs>, n: nat)
    requires PlanOk(plan) && n < |run|
    requires After(f, plan, cells, run, n).departed
    ensures FrameAt(f, plan, cells, run, n).Pose?
  {
    hide RouteSpeedProfile, HeightM;
  }

  lemma {:induction false} AllArmingUntil(f: Flight, plan: Plan, cells: seq<Cell>, run: seq<Inputs>, n: nat)
    requires PlanOk(plan) && Inv(f, plan) && ValidRun(run) && n <= |run|
    requires !After(f, plan, cells, run, n).departed
    ensures forall i :: 0 <= i < n ==> FrameAt(f, plan, cells, run, i).Arming?
  {
    hide Advance, Inv;
    if n > 0 {
      Reachable(f, plan, cells, run, n - 1);
      ArmingClock(After(f, plan, cells, run, n - 1), plan, cells, run[n - 1]);
      AdvanceMonotone(After(f, plan, cells, run, n - 1), plan, cells, run[n - 1]);
      AllArmingUntil(f, plan, cells, run, n - 1);
    }
  }

  // ---- the probe -----------------------------------------------------------

  /** Whether acquiring the floor in this state calls the probe. */
  ghost predicate ProbeFires(floor: Floor, plan: Plan, cells: seq<Cell>, cachedFloor: Cell -> Option<real>) {
    |ColdCells(cells, plan.hasFloorFn, cachedFloor)| > 0 && !floor.meshProbeSpent && plan.hasProbeFn
  }

  /** When it does not fire, the probe cannot influence the outcome; when it does, it is
      asked exactly for the cells the cache could not answer, and never again. */
  lemma ProbeOnce(floor: Floor, plan: Plan, cells: seq<Cell>, cachedFloor: Cell -> Option<real>,
                  probe: seq<Cell> -> Probe, other: seq<Cell> -> Probe)
    ensures !ProbeFires(floor, plan, cells, cachedFloor) ==>
      Acquire(floor, plan, cells, cachedFloor, probe) == Acquire(floor, plan, cells, cachedFloor, other)
    ensures ProbeFires(floor, plan, cells, cachedFloor) ==>
      Acquire(floor, plan, cells, cachedFloor, probe).0.meshProbeSpent
    ensures probe(ColdCells(cells, plan.hasFloorFn, cachedFloor)) == other(ColdCells(cells, plan.hasFloorFn, cachedFloor)) ==>
      Acquire(floor, plan, cells, cachedFloor, probe) == Acquire(floor, plan, cells, cachedFloor, other)
  {
  }

  lemma {:induction false} KnownFloorIsMax(cells: seq<Cell>, hasFloorFn: bool, cachedFloor: Cell -> Option<real>, c: Cell)
    requires hasFloorFn && c in cells && cachedFloor(c).Some?
    ensures KnownFloor(cells, hasFloorFn, cachedFloor).Some?
    ensures KnownFloor(cells, hasFloorFn, cachedFloor).value >= cachedFloor(c).value
  {
    var last := cells[|cells| - 1];
    assert cells == cells[..|cells| - 1] + [last];
    if c != last {
      KnownFloorIsMax(cells[..|cells| - 1], hasFloorFn, cachedFloor, c);
    }
  }

  /** The probe is the scene's rendered mesh, read by `probeMeshFloorM`. */
  ghost predicate ReadsMesh(probe: seq<Cell> -> Probe, mesh: Cell -> Option<real>) {
    forall cells :: probe(cells).Answered? &&
      var Answered(heightM, sampled) := probe(cells);
      && sampled <= |cells|
      && (sampled == |cells| ==> forall c :: c in cells ==> mesh(c).Some?)
      && (forall c :: c in cells && mesh(c).Some? ==> heightM.Some? && heightM.value >= mesh(c).value)
  }

  /** A corridor declared resolved has no unmeasured cell: each was answered, then and there,
      by the cache or by the rendered mesh, and the held floor is above every answer. */
  lemma ResolvedMeansMeasured(floor: Floor, plan: Plan, cells: seq<Cell>, cachedFloor: Cell -> Option<real>,
                              probe: seq<Cell> -> Probe, mesh: Cell -> Option<real>, c: Cell)
    requires FloorOk(floor) && !floor.floorKnown && ReadsMesh(probe, mesh) && c in cells
    requires Acquire(floor, plan, cells, cachedFloor, probe).1
    ensures (plan.hasFloorFn && cachedFloor(c).Some?)
         || (ProbeFires(floor, plan, cells, cachedFloor) && mesh(c).Some?)
    ensures var held := Acquire(floor, plan, cells, cachedFloor, probe).0.floorM;
      && held.Some?
      && (plan.hasFloorFn && cachedFloor(c).Some? ==> held.value >= cachedFloor(c).value)
      && (!(plan.hasFloorFn && cachedFloor(c).Some?) ==> held.value >= mesh(c).value)
  {
    if plan.hasFloorFn && cachedFloor(c).Some? {
      KnownFloorIsMax(cells, plan.hasFloorFn, cachedFloor, c);
    }
    var cold := ColdCells(cells, plan.hasFloorFn, cachedFloor);
    assert probe(cold).Answered?;
  }

  // ---- progress along the route --------------------------------------------

  /** Distance between two instants of the profile, in metres of route. */
  lemma TravelBetween(plan: Plan, u: real, v: real)
    requires PlanOk(plan) && 0.0 <= u <= v <= 1.0
    ensures 0.0 <= plan.totalM * ProfileDistance(plan, v) - plan.totalM * ProfileDistance(plan, u)
                <= CruiseMps(plan) * (plan.durationS * (v - u))
  {
    hide ProfileDistance, CruiseMps;
    var p, q := ProfileDistance(plan, u), ProfileDistance(plan, v);
    PlanRamp(plan);
    AreaCovered(plan, u, v);
    CruiseIdentity(plan);
    CruiseCovers(plan.totalM, plan.durationS, 1.0 - plan.ramp, q - p, v - u, CruiseMps(plan));
    Factor(plan.totalM, q, p);
  }

  lemma CruiseIdentity(plan: Plan)
    requires PlanOk(plan)
    ensures CruiseMps(plan) * (plan.durationS * (1.0 - plan.ramp)) == plan.totalM && CruiseMps(plan) > 0.0
  {
    PlanRamp(plan);
    MulMono(MIN_DURATION_S, plan.durationS, 1.0 - plan.ramp);
    ScaleQuotient(plan.totalM, plan.durationS * (1.0 - plan.ramp));
  }

  lemma AreaCovered(plan: Plan, u: real, v: real)
    requires PlanOk(plan) && 0.0 <= u <= v <= 1.0
    ensures 0.0 <= (1.0 - plan.ramp) * (ProfileDistance(plan, v) - ProfileDistance(plan, u)) <= v - u
  {
    PlanRamp(plan);
    hide RouteSpeedProfile;
    DistanceIntegratesSpeed(u, v, plan.ramp);
    AreaDifference(plan, u, v);
    hide ProfileDistance;
  }

  lemma AreaDifference(plan: Plan, u: real, v: real)
    requires PlanOk(plan) && Ramp(plan.ramp)
    ensures (1.0 - plan.ramp) * (ProfileDistance(plan, v) - ProfileDistance(plan, u)) == Area(v, plan.ramp) - Area(u, plan.ramp)
  {
    hide RouteSpeedProfile;
    Factor(1.0 - plan.ramp, ProfileDistance(plan, v), ProfileDistance(plan, u));
  }

  lemma CruiseCovers(totalM: real, durationS: real, area: real, d: real, t: real, cruise: real)
    requires totalM > 0.0 && durationS > 0.0 && area > 0.0 && 0.0 <= area * d <= t
    requires cruise * (durationS * area) == totalM && cruise > 0.0
    ensures 0.0 <= totalM * d <= cruise * (durationS * t)
  {
    if d < 0.0 { NegativeProduct(area, d); }
    MulNonNeg(totalM, d);
    MulMono(area * d, t, cruise * durationS);
    assert totalM * d == (cruise * durationS) * (area * d);
  }

  lemma NegativeProduct(a: real, d: real)
    requires a > 0.0 && d < 0.0
    ensures a * d < 0.0
  {
  }

  lemma AdvanceClock(f: Flight, plan: Plan, cells: seq<Cell>, input: Inputs)
    requires PlanOk(plan) && Inv(f, plan) && Advance(f, plan, cells, input).1.Pose?
    ensures var (f', frame) := Advance(f, plan, cells, input);
      && f'.u == Clock(plan, f.u, input.Step())
      && f'.traveled == TraveledM(plan, ProfileDistance(plan, f'.u))
      && f'.groundSpeedMps == GroundSpeedMps(plan, RouteSpeedProfile(Some(f'.u), plan.ramp).speed)
      && f'.roll.appliedDeg == LevelledBankDeg(f'.roll.bankDeg, RouteSpeedProfile(Some(f'.u), plan.ramp).speed)
      && f'.departed && (frame.finished <==> f'.u >= 1.0)
  {
    hide RouteSpeedProfile, Acquire, HeightM, HeldFloor, TraveledM, GroundSpeedMps, LevelledBankDeg, Clock, ApproachValue;
  }

  /** No frame runs backwards or covers more route than cruise speed allows in its time. */
  lemma FrameTravel(f: Flight, plan: Plan, cells: seq<Cell>, input: Inputs)
    requires PlanOk(plan) && Inv(f, plan) && input.Valid() && Advance(f, plan, cells, input).1.Pose?
    ensures 0.0 <= Advance(f, plan, cells, input).0.traveled - f.traveled <= GroundSpeedMps(plan, 1.0) * input.Step()
  {
    hide Advance, Inv, ProfileDistance, CruiseMps, GroundSpeedMps, TraveledM, Clock;
    AdvanceClock(f, plan, cells, input);
    ClockStartsAtZero(f, plan);
    ClockRange(plan, f.u, input.Step());
    TravelWithin(plan, f.u, Clock(plan, f.u, input.Step()), input.Step());
  }

  lemma TravelWithin(plan: Plan, u: real, v: real, step: real)
    requires PlanOk(plan) && 0.0 <= u <= v <= 1.0 && plan.durationS * (v - u) <= step
    ensures 0.0 <= TraveledM(plan, ProfileDistance(plan, v)) - TraveledM(plan, ProfileDistance(plan, u))
                <= GroundSpeedMps(plan, 1.0) * step
  {
    hide ProfileDistance, CruiseMps;
    TravelBetween(plan, u, v);
    CruiseIdentity(plan);
    MulMono(plan.durationS * (v - u), step, CruiseMps(plan));
  }

  /** Frame m is the one that departs: the last state before it has not, and it flies. */
  ghost predicate DepartsAt(f: Flight, plan: Plan, cells: seq<Cell>, run: seq<Inputs>, m: nat)
    requires PlanOk(plan) && m < |run|
  {
    !After(f, plan, cells, run, m).departed && FrameAt(f, plan, cells, run, m).Pose?
  }

  /** The flight keeps time exactly: from departure on, and for any schedule of frames, its
      clock is the elapsed time over the planned duration. */
  lemma {:induction false} KeepsTime(f: Flight, plan: Plan, cells: seq<Cell>, run: seq<Inputs>, m: nat, n: nat)
    requires PlanOk(plan) && Inv(f, plan) && ValidRun(run) && m < n <= |run| && DepartsAt(f, plan, cells, run, m)
    ensures After(f, plan, cells, run, n).departed
    ensures After(f, plan, cells, run, n).u == Clock(plan, 0.0, Elapsed(run, m, n))
  {
    hide Advance, Inv;
    var g, d := After(f, plan, cells, run, n - 1), plan.durationS;
    Reachable(f, plan, cells, run, n - 1);
    if m < n - 1 {
      KeepsTime(f, plan, cells, run, m, n - 1);
      FlownStaysFlown(f, plan, cells, run, n - 1);
    } else {
      ClockStartsAtZero(g, plan);
    }
    AdvanceClock(g, plan, cells, run[n - 1]);
    hide Clock;
    ClockAdds(plan, Elapsed(run, m, n - 1), run[n - 1].Step());
  }

  lemma ClockStartsAtZero(f: Flight, plan: Plan)
    requires PlanOk(plan) && Inv(f, plan)
    ensures !f.departed ==> f.u == 0.0
    ensures 0.0 <= f.u <= 1.0 && f.traveled == TraveledM(plan, ProfileDistance(plan, f.u))
  {
  }

  lemma ClockAdds(plan: Plan, t: real, step: real)
    requires PlanOk(plan) && step >= 0.0
    ensures Clock(plan, Clock(plan, 0.0, t), step) == Clock(plan, 0.0, t + step)
  {
    DivAdd(t, step, plan.durationS);
    StepFraction(step, plan.durationS);
  }

  lemma DivAdd(a: real, b: real, d: real)
    requires d != 0.0
    ensures (a + b) / d == a / d + b / d
  {
  }

  /** A flight is finished exactly when its planned duration has elapsed since departure, and
      then it stands at the end of the route, at rest, wings level. */
  lemma FinishesOnTime(f: Flight, plan: Plan, cells: seq<Cell>, run: seq<Inputs>, m: nat, n: nat)
    requires PlanOk(plan) && Inv(f, plan) && ValidRun(run) && m <= n < |run| && DepartsAt(f, plan, cells, run, m)
    ensures var frame, f' := FrameAt(f, plan, cells, run, n), After(f, plan, cells, run, n + 1);
      && frame.Pose?
      && (frame.finished <==> Elapsed(run, m, n + 1) >= plan.durationS)
      && (frame.finished ==> f'.traveled == plan.totalM && f'.groundSpeedMps == 0.0 && f'.roll.appliedDeg == 0.0)
  {
    hide Advance, RouteSpeedProfile, Inv, Elapsed;
    if m < n {
      KeepsTime(f, plan, cells, run, m, n);
      FlownStaysFlown(f, plan, cells, run, n);
    }
    KeepsTime(f, plan, cells, run, m, n + 1);
    Reachable(f, plan, cells, run, n);
    AdvanceClock(After(f, plan, cells, run, n), plan, cells, run[n]);
    PlanRamp(plan);
    ProfileEnds(Some(1.0), plan.ramp);
    RatioReachesOne(Elapsed(run, m, n + 1), plan.durationS);
  }

  lemma RatioReachesOne(a: real, d: real)
    requires d > 0.0
    ensures a / d >= 1.0 <==> a >= d
  {
    ScaleQuotient(a, d);
    if a / d >= 1.0 { MulMono(1.0, a / d, d); }
  }
}
