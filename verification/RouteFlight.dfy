/** The cinematic route dolly (cameraVerbs.js): floor acquisition, arming, and one frame of
    flight. `Flight` is the state the source keeps in one object; `Advance` is what a frame
    does to it; the class `Dolly` holds the fields and is proved to follow `Advance`. The
    theorems are about every run of frames from a fresh flight. */
module RouteFlight {
  import opened Js
  import opened SpeedProfile
  import opened RouteGeometry

  const ROUTE_CAMERA_HEIGHT_M := 260.0
  const ROUTE_BANK_MAX_DEG := 10.0
  const ROUTE_BANK_PER_DEG_S := 0.44
  const ROUTE_BREATH_M := 20.0
  const ROUTE_TURN_LIFT_M := 26.0
  const ROUTE_MIN_CLEARANCE_M := 90.0
  const ROUTE_WARM_START_M := 4000.0
  const ROUTE_UNKNOWN_FLOOR_CAP_M := 5000.0
  const ROUTE_MESH_PROBE_CELLS := 8
  const ROUTE_ARM_S := 1.2
  const ROUTE_MAX_DESCENT_MPS := 10.0
  const MAX_FRAME_S := 0.25
  const MIN_DURATION_S := 0.5

  // ---- shaping helpers -----------------------------------------------------

  /** Exponential smoothing; gain stands for `1 - e^(-rate dt)`. A value that is not known
      adopts the target, and a target that is not known leaves the value. */
  function ApproachValue(current: Option<real>, target: Option<real>, gain: real): Option<real> {
    if current.None? then target
    else if target.None? then current
    else Some(current.value + Times(target.value - current.value, gain))
  }

  function RouteBankTargetDeg(turnRateDegS: Option<real>, reducedMotion: bool): (bank: real)
    ensures -ROUTE_BANK_MAX_DEG <= bank <= ROUTE_BANK_MAX_DEG
  {
    if reducedMotion || turnRateDegS.None? then 0.0
    else Max(-ROUTE_BANK_MAX_DEG, Min(ROUTE_BANK_MAX_DEG, turnRateDegS.value * ROUTE_BANK_PER_DEG_S))
  }

  /** breath stands for the sine of the arc position, a number in [-1, 1]. */
  function RouteAltitudeOffsetM(breath: real, bankFraction: real, reducedMotion: bool): real {
    if reducedMotion then 0.0 else
    var bank := Max(-1.0, Min(1.0, bankFraction));
    breath * ROUTE_BREATH_M * (1.0 - Abs(bank)) + Abs(bank) * ROUTE_TURN_LIFT_M
  }

  function RouteEyeHeightM(floorM: Option<real>, offsetM: Option<real>): real {
    var base := floorM.GetOr(0.0);
    Max(base + ROUTE_MIN_CLEARANCE_M, base + ROUTE_CAMERA_HEIGHT_M + offsetM.GetOr(0.0))
  }

  function RouteFloorHoldM(previousM: Option<real>, sampledM: Option<real>, gain: real): Option<real> {
    if sampledM.None? then previousM
    else if previousM.None? then sampledM
    else ApproachValue(previousM, sampledM, gain)
  }

  function RouteColdSeedFloorM(pathHeightM: Option<real>, cameraHeightM: Option<real>): real {
    var base := pathHeightM.GetOr(0.0);
    if cameraHeightM.None? then base
    else Max(base, Min(base + ROUTE_UNKNOWN_FLOOR_CAP_M, cameraHeightM.value - ROUTE_CAMERA_HEIGHT_M))
  }

  // ---- state and inputs ----------------------------------------------------

  /** What one call of the mesh probe answers; a probe that throws is Thrown. */
  datatype Probe = Thrown | Answered(heightM: Option<real>, sampled: int)

  /** What never changes during a flight. */
  datatype Plan = Plan(
    totalM: real,
    durationS: real,
    ramp: real,
    hasFloorFn: bool,
    hasProbeFn: bool,
    reducedMotion: bool,
    coldSeedFloorM: real,
    safeHoldHeightM: Option<real>)

  datatype Floor = Floor(
    floorM: Option<real>,
    floorKnown: bool,
    floorFromMeshProbe: bool,
    meshProbeSpent: bool,
    meshProbeFloorM: Option<real>,
    meshProbeCoveredCold: bool)

  /** The roll filters: the lead follows the planned turn, the bank the lead, the lift (which
      swells the altitude) what is applied. */
  datatype Roll = Roll(leadDeg: real, bankDeg: real, appliedDeg: real, liftDeg: real)

  datatype Flight = Flight(
    floor: Floor,
    u: real,
    traveled: real,
    groundSpeedMps: real,
    armS: real,
    departed: bool,
    appliedHeightM: Option<real>,
    offsetM: Option<real>,
    roll: Roll,
    coldFrames: nat)

  /** Everything a frame reads from outside: the clock, the cached floor of a cell and of the
      two points under and ahead of the camera, the probe, the planned turn rate, and the
      values of the transcendental functions. A read that throws is None. */
  datatype Inputs = Inputs(
    dt: Option<real>,
    cachedFloor: Cell -> Option<real>,
    probe: seq<Cell> -> Probe,
    hereM: Option<real>,
    aheadM: Option<real>,
    turnRateDegS: Option<real>,
    breath: real,
    leadGain: real,
    settleGain: real,
    floorGain: real,
    liftGain: real,
    altitudeGain: real)
  {
    ghost predicate Valid() {
      && -1.0 <= breath <= 1.0
      && 0.0 <= leadGain < 1.0 && 0.0 <= settleGain < 1.0 && 0.0 <= floorGain < 1.0
      && 0.0 <= liftGain < 1.0 && 0.0 <= altitudeGain < 1.0
    }

    function Step(): real {
      Min(MAX_FRAME_S, Max(0.0, dt.GetOr(0.0)))
    }
  }

  datatype Frame =
    | Arming
    | Pose(finished: bool, bankDeg: real, heightM: real, aglM: real, groundSpeedMps: real, progress: real,
           sampledFloorM: Option<real>)

  // ---- floor acquisition ---------------------------------------------------

  /** The cells the cache cannot answer, in order. */
  function ColdCells(cells: seq<Cell>, hasFloorFn: bool, cachedFloor: Cell -> Option<real>): (cold: seq<Cell>)
    ensures |cold| <= |cells|
    ensures forall c :: c in cold <==> c in cells && (!hasFloorFn || cachedFloor(c).None?)
  {
    if cells == [] then [] else
    var cold := ColdCells(cells[..|cells| - 1], hasFloorFn, cachedFloor);
    var last := cells[|cells| - 1];
    assert cells == cells[..|cells| - 1] + [last];
    if hasFloorFn && cachedFloor(last).Some? then cold else cold + [last]
  }

  /** The highest floor the cache answers. */
  function KnownFloor(cells: seq<Cell>, hasFloorFn: bool, cachedFloor: Cell -> Option<real>): Option<real> {
    if cells == [] || !hasFloorFn then None
    else MaxKnown(KnownFloor(cells[..|cells| - 1], hasFloorFn, cachedFloor), cachedFloor(cells[|cells| - 1]))
  }

  function AfterProbe(floor: Floor, cold: seq<Cell>, hasProbeFn: bool, probe: seq<Cell> -> Probe): Floor {
    if !(|cold| > 0 && !floor.meshProbeSpent && hasProbeFn) then floor else
    match probe(cold)
    case Answered(Some(heightM), sampled) =>
      floor.(meshProbeSpent := true, meshProbeFloorM := Some(heightM), floorFromMeshProbe := true,
             meshProbeCoveredCold := sampled >= |cold|)
    case _ => floor.(meshProbeSpent := true)
  }

  /** `acquireCorridorFloor`, taking the value whole as both of its callers do. */
  function Acquire(floor: Floor, plan: Plan, cells: seq<Cell>, cachedFloor: Cell -> Option<real>,
                   probe: seq<Cell> -> Probe): (Floor, bool)
  {
    if |cells| == 0 then (floor, false) else
    var cold := ColdCells(cells, plan.hasFloorFn, cachedFloor);
    var probed := AfterProbe(floor, cold, plan.hasProbeFn, probe);
    var known := MaxKnown(KnownFloor(cells, plan.hasFloorFn, cachedFloor), probed.meshProbeFloorM);
    if known.None? then (probed, false) else
    var held := probed.(floorM := known);
    if |cold| > 0 && !held.meshProbeCoveredCold then (held, false) else (held.(floorKnown := true), true)
  }

  // ---- one frame -----------------------------------------------------------

  function FreshFloor(): Floor {
    Floor(None, false, false, false, None, false)
  }

  function PlanFlight(totalM: real, cruiseMps: real, hasFloorFn: bool, hasProbeFn: bool, reducedMotion: bool,
                      pathHeightM: Option<real>, cameraHeightM: Option<real>): Plan
    requires cruiseMps > 0.0
  {
    var durationS := Max(MIN_DURATION_S, totalM / cruiseMps);
    Plan(totalM, durationS, RouteRampFraction(durationS), hasFloorFn, hasProbeFn, reducedMotion,
         RouteColdSeedFloorM(pathHeightM, cameraHeightM), cameraHeightM)
  }

  /** A flight before its first frame. */
  function Launch(floor: Floor): Flight {
    Flight(floor, 0.0, 0.0, 0.0, 0.0, false, None, None, Roll(0.0, 0.0, 0.0, 0.0), 0)
  }

  function SampledFloor(plan: Plan, input: Inputs): Option<real> {
    if plan.hasFloorFn then MaxKnown(input.hereM, input.aheadM) else None
  }

  function HeldFloor(floor: Floor, plan: Plan, sampled: Option<real>, gain: real): Floor {
    if sampled.None? then floor.(floorM := Some(floor.floorM.GetOr(plan.coldSeedFloorM)))
    else floor.(floorM := RouteFloorHoldM(floor.floorM, sampled, gain), floorKnown := true)
  }

  function HeightM(floor: Floor, plan: Plan, sampled: Option<real>, offsetM: Option<real>,
                   appliedHeightM: Option<real>, step: real): real
  {
    var shaped := Max(RouteEyeHeightM(floor.floorM, offsetM),
                      sampled.GetOr(floor.floorM.GetOr(0.0)) + ROUTE_MIN_CLEARANCE_M);
    var held := if !floor.floorKnown && plan.safeHoldHeightM.Some? then Max(shaped, plan.safeHoldHeightM.value) else shaped;
    if appliedHeightM.Some? then Max(held, appliedHeightM.value - ROUTE_MAX_DESCENT_MPS * step) else held
  }

  function CruiseMps(plan: Plan): real
    requires plan.durationS > 0.0 && plan.ramp < 1.0
  {
    plan.totalM / (plan.durationS * (1.0 - plan.ramp))
  }

  function GroundSpeedMps(plan: Plan, speed: real): real
    requires plan.durationS > 0.0 && plan.ramp < 1.0
  {
    CruiseMps(plan) * speed
  }

  function TraveledM(plan: Plan, distance: real): real {
    plan.totalM * distance
  }

  /** The roll unwinds with the speed, so both ends of the flight are wings level. */
  function LevelledBankDeg(bankDeg: real, speed: real): real {
    bankDeg * speed
  }

  /** The flight clock: a share of the planned duration. */
  function Clock(plan: Plan, u: real, step: real): real
    requires plan.durationS > 0.0
  {
    Min(1.0, u + step / plan.durationS)
  }

  ghost predicate PlanOk(plan: Plan) {
    && plan.totalM > 0.0
    && plan.durationS >= MIN_DURATION_S
    && plan.ramp == RouteRampFraction(plan.durationS)
  }

  function NextRoll(roll: Roll, plan: Plan, input: Inputs, speed: real): Roll {
    var target := RouteBankTargetDeg(input.turnRateDegS, plan.reducedMotion);
    var lead := ApproachValue(Some(roll.leadDeg), Some(target), input.leadGain).GetOr(0.0);
    var bank := ApproachValue(Some(roll.bankDeg), Some(lead), input.settleGain).GetOr(0.0);
    var applied := LevelledBankDeg(bank, speed);
    var lift := ApproachValue(Some(roll.liftDeg), Some(applied), input.liftGain).GetOr(0.0);
    Roll(lead, bank, applied, lift)
  }

  function NextOffset(offsetM: Option<real>, plan: Plan, input: Inputs, liftDeg: real): Option<real> {
    ApproachValue(offsetM,
                  Some(RouteAltitudeOffsetM(input.breath, liftDeg / ROUTE_BANK_MAX_DEG, plan.reducedMotion)),
                  input.altitudeGain)
  }

  /** A frame past the arm. */
  function Fly(f: Flight, plan: Plan, input: Inputs): (Flight, Frame)
    requires plan.durationS > 0.0 && plan.ramp < 1.0
  {
    var step := input.Step();
    var u := Clock(plan, f.u, step);
    var profile := RouteSpeedProfile(Some(u), plan.ramp);
    var roll := NextRoll(f.roll, plan, input, profile.speed);
    var sampled := SampledFloor(plan, input);
    var floor := HeldFloor(f.floor, plan, sampled, input.floorGain);
    var offset := NextOffset(f.offsetM, plan, input, roll.liftDeg);
    var height := HeightM(floor, plan, sampled, offset, f.appliedHeightM, step);
    var speedMps := GroundSpeedMps(plan, profile.speed);
    (Flight(floor, u, TraveledM(plan, profile.distance), speedMps, f.armS, true, Some(height), offset, roll,
            f.coldFrames + if sampled.None? then 1 else 0),
     Pose(u >= 1.0, roll.appliedDeg, height, height - floor.floorM.GetOr(0.0), speedMps, u, sampled))
  }

  function CanArm(f: Flight, plan: Plan): bool {
    (plan.hasFloorFn || plan.hasProbeFn) && !f.floor.floorKnown && !f.departed && f.armS < ROUTE_ARM_S
  }

  /** `advanceRouteFlight`: wait for a floor while armed, otherwise fly. */
  function Advance(f: Flight, plan: Plan, cells: seq<Cell>, input: Inputs): (Flight, Frame)
    requires plan.durationS > 0.0 && plan.ramp < 1.0
  {
    if CanArm(f, plan) then
      var armed := f.(armS := f.armS + input.Step());
      var (floor, resolved) := Acquire(f.floor, plan, cells, input.cachedFloor, input.probe);
      if resolved then Fly(armed.(floor := floor), plan, input)
      else (armed.(floor := floor), Arming)
    else
      Fly(f, plan, input)
  }
}
