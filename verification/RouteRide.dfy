/** How the route dolly rides: where its floor, its roll, its altitude shaping and its eye go in a
    frame and over a run, in numbers, and when it stops waiting for a floor. */
module RouteRide {
  import opened Js
  import opened SpeedProfile
  import opened RouteGeometry
  import opened RouteFlight
  import opened RouteSafety
  import opened RouteFloor

  // ---- filters -------------------------------------------------------------

  /** A filter leaves the share 1 - gain of the gap to its target. */
  predicate Eases(before: real, after: real, target: real, gain: real) {
    after - target == Times(before - target, 1.0 - gain)
  }

  lemma GapShrinks(current: real, target: real, gain: real)
    ensures var v := ApproachValue(Some(current), Some(target), gain); v.Some? && Eases(current, v.value, target, gain)
  {
    GapIdentity(current, target, gain);
  }

  lemma GapIdentity(current: real, target: real, gain: real)
    ensures current + Times(target - current, gain) - target == Times(current - target, 1.0 - gain)
  {
  }

  /** What is left of a gap after some shares of it. */
  ghost function Left(gains: seq<real>, n: nat): real
    requires n <= |gains|
  {
    if n == 0 then 1.0 else Times(Left(gains, n - 1), 1.0 - gains[n - 1])
  }

  lemma StillLeft(gap: real, left: real, gain: real)
    ensures Times(Times(gap, left), 1.0 - gain) == Times(gap, Times(left, 1.0 - gain))
  {
  }

  // ---- the floor -----------------------------------------------------------

  lemma FlownFrame(f: Flight, plan: Plan, cells: seq<Cell>, input: Inputs)
    requires PlanOk(plan) && f.departed
    ensures Advance(f, plan, cells, input) == Fly(f, plan, input)
  {
    hide Fly;
  }

  /** What a frame in flight sampled: the higher of the floors under and ahead of the camera, of those
      that answer. */
  lemma SampledExactly(f: Flight, plan: Plan, cells: seq<Cell>, input: Inputs)
    requires PlanOk(plan) && Advance(f, plan, cells, input).1.Pose?
    ensures var sampled := Advance(f, plan, cells, input).1.sampledFloorM;
      && (sampled.Some? <==> plan.hasFloorFn && (input.hereM.Some? || input.aheadM.Some?))
      && (sampled.Some? && input.hereM.Some? ==> sampled.value >= input.hereM.value)
      && (sampled.Some? && input.aheadM.Some? ==> sampled.value >= input.aheadM.value)
      && (sampled.Some? ==> sampled == input.hereM || sampled == input.aheadM)
  {
    hide RouteSpeedProfile, HeightM, HeldFloor, NextRoll, NextOffset, Acquire;
  }

  /** In flight the floor goes toward a sample by its gain, and stays where it is without one. */
  lemma FloorEases(f: Flight, plan: Plan, cells: seq<Cell>, input: Inputs)
    requires PlanOk(plan) && Inv(f, plan) && f.departed
    ensures var (f', frame) := Advance(f, plan, cells, input);
      && frame.Pose? && f.floor.floorM.Some? && f'.floor.floorM.Some?
      && (frame.sampledFloorM.None? ==> f'.floor == f.floor)
      && (frame.sampledFloorM.Some? ==>
            f'.floor.floorKnown && Eases(f.floor.floorM.value, f'.floor.floorM.value, frame.sampledFloorM.value, input.floorGain))
  {
    FlownFrame(f, plan, cells, input);
    var sampled := SampledFloor(plan, input);
    if sampled.Some? {
      GapShrinks(f.floor.floorM.value, sampled.value, input.floorGain);
    }
    hide RouteSpeedProfile, HeightM, NextRoll, NextOffset, SampledFloor, ApproachValue, Eases;
  }

  /** The first frame in flight goes on from what was acquired; without anything acquired it takes its
      sample whole, and without a sample the seed of the flight. */
  lemma FirstFloor(f: Flight, plan: Plan, cells: seq<Cell>, input: Inputs)
    requires PlanOk(plan) && Inv(f, plan) && !f.departed && Advance(f, plan, cells, input).1.Pose?
    ensures var (f', frame) := Advance(f, plan, cells, input);
      var g := if CanArm(f, plan) then Acquire(f.floor, plan, cells, input.cachedFloor, input.probe).0.floorM else f.floor.floorM;
      && f'.floor.floorM.Some?
      && (g.Some? && frame.sampledFloorM.None? ==> f'.floor.floorM == g)
      && (g.Some? && frame.sampledFloorM.Some? ==> Eases(g.value, f'.floor.floorM.value, frame.sampledFloorM.value, input.floorGain))
      && (g.None? && frame.sampledFloorM.Some? ==> f'.floor.floorM == frame.sampledFloorM)
      && (g.None? && frame.sampledFloorM.None? ==> f'.floor.floorM == Some(plan.coldSeedFloorM))
  {
    var floor := if CanArm(f, plan) then Acquire(f.floor, plan, cells, input.cachedFloor, input.probe).0 else f.floor;
    var sampled := SampledFloor(plan, input);
    if sampled.Some? && floor.floorM.Some? {
      GapShrinks(floor.floorM.value, sampled.value, input.floorGain);
    }
    hide RouteSpeedProfile, HeightM, NextRoll, NextOffset, SampledFloor, ApproachValue, Eases, Acquire;
  }

  ghost function FloorGains(run: seq<Inputs>): seq<real> {
    seq(|run|, k requires 0 <= k < |run| => run[k].floorGain)
  }

  /** Every frame in the run samples the same height. */
  ghost predicate Samples(f: Flight, plan: Plan, cells: seq<Cell>, run: seq<Inputs>, heightM: real)
    requires PlanOk(plan)
  {
    forall k :: 0 <= k < |run| ==> FrameAt(f, plan, cells, run, k).Pose? && FrameAt(f, plan, cells, run, k).sampledFloorM == Some(heightM)
  }

  /** Over level ground the gap between the floor and the ground closes by every frame's share: it
      never overshoots, and rises as it falls. */
  lemma {:induction false} FloorSettles(f: Flight, plan: Plan, cells: seq<Cell>, run: seq<Inputs>, heightM: real, n: nat)
    requires PlanOk(plan) && Inv(f, plan) && f.departed && ValidRun(run) && Samples(f, plan, cells, run, heightM) && n <= |run|
    ensures var g := After(f, plan, cells, run, n);
      && g.departed && f.floor.floorM.Some? && g.floor.floorM.Some?
      && g.floor.floorM.value - heightM == Times(f.floor.floorM.value - heightM, Left(FloorGains(run), n))
  {
    hide Advance, Inv, Times;
    DepartedHolds(f, plan);
    if n == 0 {
      TimesUnit(f.floor.floorM.value - heightM);
    } else {
      FloorSettles(f, plan, cells, run, heightM, n - 1);
      var before := After(f, plan, cells, run, n - 1);
      Reachable(f, plan, cells, run, n - 1);
      FloorEases(before, plan, cells, run[n - 1]);
      AdvanceMonotone(before, plan, cells, run[n - 1]);
      assert FrameAt(f, plan, cells, run, n - 1).sampledFloorM == Some(heightM);
      StillLeft(f.floor.floorM.value - heightM, Left(FloorGains(run), n - 1), run[n - 1].floorGain);
    }
  }

  lemma DepartedHolds(f: Flight, plan: Plan)
    requires PlanOk(plan) && Inv(f, plan)
    ensures f.departed ==> f.floor.floorM.Some?
  {
  }

  // ---- the eye -------------------------------------------------------------

  /** What a height must clear in a frame: the ride over the floor, the floor and the raw sample, the
      launch height while no floor is known, and the fastest descent. */
  ghost predicate Clears(f: Flight, plan: Plan, step: real, f': Flight, sampled: Option<real>, x: real)
    requires f'.floor.floorM.Some? && f'.offsetM.Some?
  {
    && x >= f'.floor.floorM.value + 260.0 + f'.offsetM.value
    && x >= f'.floor.floorM.value + 90.0
    && (sampled.Some? ==> x >= sampled.value + 90.0)
    && (!f'.floor.floorKnown && plan.safeHoldHeightM.Some? ==> x >= plan.safeHoldHeightM.value)
    && (f.appliedHeightM.Some? ==> x >= f.appliedHeightM.value - 10.0 * step)
  }

  /** The eye is at the lowest height that clears all of these: no lower, and no higher either. */
  lemma LeastEye(f: Flight, plan: Plan, cells: seq<Cell>, input: Inputs, x: real)
    requires PlanOk(plan) && Inv(f, plan) && input.Valid() && Advance(f, plan, cells, input).1.Pose?
    ensures var (f', frame) := Advance(f, plan, cells, input);
      && f'.floor.floorM.Some? && f'.offsetM.Some?
      && (Clears(f, plan, input.Step(), f', frame.sampledFloorM, x) <==> frame.heightM <= x)
  {
    AdvanceSafe(f, plan, cells, input);
    hide RouteSpeedProfile, NextRoll, SampledFloor, Acquire, HeldFloor, RouteAltitudeOffsetM, Inv;
  }

  // ---- the roll and the shaping --------------------------------------------

  /** The bank a turn asks for: 0.44 degrees for each degree a second, to the side of the turn, at
      most 10, and none with reduced motion or without a turn rate. */
  predicate BankAsked(turnRateDegS: Option<real>, reducedMotion: bool, bank: real) {
    if reducedMotion || turnRateDegS.None? then bank == 0.0
    else
      var wanted := turnRateDegS.value * 0.44;
      bank == if wanted > 10.0 then 10.0 else if wanted < -10.0 then -10.0 else wanted
  }

  lemma RollStep(roll: Roll, plan: Plan, input: Inputs, speed: real, target: real)
    requires BankAsked(input.turnRateDegS, plan.reducedMotion, target)
    ensures var roll' := NextRoll(roll, plan, input, speed);
      && Eases(roll.leadDeg, roll'.leadDeg, target, input.leadGain)
      && Eases(roll.bankDeg, roll'.bankDeg, roll'.leadDeg, input.settleGain)
      && roll'.appliedDeg == roll'.bankDeg * speed
      && Eases(roll.liftDeg, roll'.liftDeg, roll'.appliedDeg, input.liftGain)
  {
    var roll' := NextRoll(roll, plan, input, speed);
    GapShrinks(roll.leadDeg, target, input.leadGain);
    GapShrinks(roll.bankDeg, roll'.leadDeg, input.settleGain);
    GapShrinks(roll.liftDeg, roll'.appliedDeg, input.liftGain);
    hide ApproachValue, Eases;
  }

  lemma PoseIs(f: Flight, plan: Plan, cells: seq<Cell>, input: Inputs)
    requires PlanOk(plan) && Advance(f, plan, cells, input).1.Pose?
    ensures var (f', frame) := Advance(f, plan, cells, input);
      var profile := RouteSpeedProfile(Some(frame.progress), plan.ramp);
      && f'.roll == NextRoll(f.roll, plan, input, profile.speed) && frame.bankDeg == f'.roll.appliedDeg
      && f'.groundSpeedMps == frame.groundSpeedMps == GroundSpeedMps(plan, profile.speed)
      && frame.progress == f'.u && (frame.finished <==> frame.progress >= 1.0)
      && f'.coldFrames == f.coldFrames + if frame.sampledFloorM.None? then 1 else 0
  {
    hide RouteSpeedProfile, HeightM, HeldFloor, NextOffset, NextRoll, SampledFloor, Acquire, GroundSpeedMps;
  }

  /** In a frame the lead goes toward the bank asked for, the bank toward the lead, what is applied is
      the bank times the share of cruise speed, and the lift goes toward what is applied. */
  lemma RollEases(f: Flight, plan: Plan, cells: seq<Cell>, input: Inputs, target: real)
    requires PlanOk(plan) && Advance(f, plan, cells, input).1.Pose? && BankAsked(input.turnRateDegS, plan.reducedMotion, target)
    ensures var (f', frame) := Advance(f, plan, cells, input);
      && Eases(f.roll.leadDeg, f'.roll.leadDeg, target, input.leadGain)
      && Eases(f.roll.bankDeg, f'.roll.bankDeg, f'.roll.leadDeg, input.settleGain)
      && frame.bankDeg == f'.roll.appliedDeg == f'.roll.bankDeg * RouteSpeedProfile(Some(frame.progress), plan.ramp).speed
      && Eases(f.roll.liftDeg, f'.roll.liftDeg, frame.bankDeg, input.liftGain)
  {
    hide Advance, RouteSpeedProfile, NextRoll, Eases, BankAsked;
    PoseIs(f, plan, cells, input);
    RollStep(f.roll, plan, input, RouteSpeedProfile(Some(Advance(f, plan, cells, input).1.progress), plan.ramp).speed, target);
  }

  ghost function LeadGains(run: seq<Inputs>): seq<real> {
    seq(|run|, k requires 0 <= k < |run| => run[k].leadGain)
  }

  /** Through a steady turn the lead closes in on the bank asked for by every frame's share. */
  lemma {:induction false} TurnSettles(f: Flight, plan: Plan, cells: seq<Cell>, run: seq<Inputs>, target: real, n: nat)
    requires PlanOk(plan) && Inv(f, plan) && f.departed && ValidRun(run) && n <= |run|
    requires forall k :: 0 <= k < |run| ==> BankAsked(run[k].turnRateDegS, plan.reducedMotion, target)
    ensures var g := After(f, plan, cells, run, n);
      g.departed && g.roll.leadDeg - target == Times(f.roll.leadDeg - target, Left(LeadGains(run), n))
  {
    hide Advance, Inv, Times, BankAsked;
    if n == 0 {
      TimesUnit(f.roll.leadDeg - target);
    } else {
      TurnSettles(f, plan, cells, run, target, n - 1);
      var before := After(f, plan, cells, run, n - 1);
      Reachable(f, plan, cells, run, n - 1);
      FloorEases(before, plan, cells, run[n - 1]);
      RollEases(before, plan, cells, run[n - 1], target);
      AdvanceMonotone(before, plan, cells, run[n - 1]);
      StillLeft(f.roll.leadDeg - target, Left(LeadGains(run), n - 1), run[n - 1].leadGain);
    }
  }

  /** The shape of the ride: a breath of up to 20 m with the wings level, 26 m of lift at a full bank
      of 10 degrees to either side, and a mix of the two in between; flat with reduced motion. */
  predicate Shape(breath: real, liftDeg: real, reducedMotion: bool, offset: real) {
    if reducedMotion then offset == 0.0
    else if liftDeg >= 10.0 || liftDeg <= -10.0 then offset == 26.0
    else
      var bank := (if liftDeg < 0.0 then -liftDeg else liftDeg) / 10.0;
      offset == 20.0 * breath + (26.0 - 20.0 * breath) * bank
  }

  lemma ShapeIs(breath: real, liftDeg: real, reducedMotion: bool, offset: real)
    requires Shape(breath, liftDeg, reducedMotion, offset)
    ensures RouteAltitudeOffsetM(breath, liftDeg / ROUTE_BANK_MAX_DEG, reducedMotion) == offset
  {
    var share := liftDeg / 10.0;
    assert share * 10.0 == liftDeg;
    var bank := Abs(Max(-1.0, Min(1.0, share)));
    MixIs(breath, bank);
  }

  lemma MixIs(breath: real, bank: real)
    ensures breath * 20.0 * (1.0 - bank) + bank * 26.0 == 20.0 * breath + (26.0 - 20.0 * breath) * bank
  {
  }

  /** The altitude offset starts at the shape of its first frame and goes toward it ever after. */
  lemma OffsetEases(f: Flight, plan: Plan, cells: seq<Cell>, input: Inputs, shape: real)
    requires PlanOk(plan) && Advance(f, plan, cells, input).1.Pose?
    requires Shape(input.breath, Advance(f, plan, cells, input).0.roll.liftDeg, plan.reducedMotion, shape)
    ensures var f' := Advance(f, plan, cells, input).0;
      && f'.offsetM.Some?
      && (f.offsetM.None? ==> f'.offsetM.value == shape)
      && (f.offsetM.Some? ==> Eases(f.offsetM.value, f'.offsetM.value, shape, input.altitudeGain))
  {
    ShapeIs(input.breath, Advance(f, plan, cells, input).0.roll.liftDeg, plan.reducedMotion, shape);
    if f.offsetM.Some? {
      GapShrinks(f.offsetM.value, shape, input.altitudeGain);
    }
    hide RouteSpeedProfile, HeightM, HeldFloor, NextRoll, SampledFloor, Acquire, Eases, RouteAltitudeOffsetM, Shape;
  }

  // ---- time ----------------------------------------------------------------

  /** A frame takes the time the clock says, but nothing for no number or a clock that ran backwards,
      and never more than a quarter of a second. */
  lemma StepExactly(input: Inputs)
    ensures input.dt.None? ==> input.Step() == 0.0
    ensures input.dt.Some? ==> input.Step() == (if input.dt.value < 0.0 then 0.0 else if input.dt.value > 0.25 then 0.25 else input.dt.value)
  {
  }

  /** The ramps of a planned flight last 2.4 s, but no more than 35 hundredths of a short one. */
  lemma RampExactly(plan: Plan)
    requires PlanOk(plan)
    ensures Times(plan.durationS, 0.35) >= 2.4 ==> Times(plan.durationS, plan.ramp) == 2.4
    ensures Times(plan.durationS, 0.35) <= 2.4 ==> plan.ramp == 0.35
  {
    var q := 2.4 / plan.durationS;
    assert q * plan.durationS == 2.4;
    TimesSwap(q, plan.durationS);
    if q > 0.35 {
      MulPos(q - 0.35, plan.durationS);
      assert (q - 0.35) * plan.durationS == 2.4 - 0.35 * plan.durationS;
    } else if q < 0.35 {
      MulPos(0.35 - q, plan.durationS);
      assert (0.35 - q) * plan.durationS == 0.35 * plan.durationS - 2.4;
    }
  }

  // ---- what is reported, what is planned -----------------------------------

  /** The reported speed is the speed at which the profile covers the route in the planned time, the
      reported height above ground is that above the held floor, and only frames without a sample
      are counted as cold. */
  lemma Reports(f: Flight, plan: Plan, cells: seq<Cell>, input: Inputs)
    requires PlanOk(plan) && Advance(f, plan, cells, input).1.Pose?
    ensures var (f', frame) := Advance(f, plan, cells, input);
      && Times(frame.groundSpeedMps, plan.durationS * (1.0 - plan.ramp)) == Times(plan.totalM, RouteSpeedProfile(Some(frame.progress), plan.ramp).speed)
      && frame.groundSpeedMps == f'.groundSpeedMps && frame.progress == f'.u && (frame.finished <==> frame.progress >= 1.0)
      && f'.coldFrames == f.coldFrames + if frame.sampledFloorM.None? then 1 else 0
  {
    hide Advance, RouteSpeedProfile, NextRoll, Times, CruiseMps;
    PlanRamp(plan);
    CruiseIdentity(plan);
    PoseIs(f, plan, cells, input);
    var frame := Advance(f, plan, cells, input).1;
    var speed := RouteSpeedProfile(Some(frame.progress), plan.ramp).speed;
    assert frame.groundSpeedMps == CruiseMps(plan) * speed;
    SpeedProduct(frame.groundSpeedMps, CruiseMps(plan), speed, plan.durationS * (1.0 - plan.ramp), plan.totalM);
  }

  lemma SpeedProduct(groundSpeed: real, cruise: real, speed: real, time: real, totalM: real)
    requires cruise * time == totalM && groundSpeed == cruise * speed
    ensures Times(groundSpeed, time) == Times(totalM, speed)
  {
    assert (cruise * speed) * time == (cruise * time) * speed;
  }

  /** A flight is planned to take the route's length over its mean speed, but never less than half a
      second. Before any floor is known its seed is the camera's own height less 260 m, held between
      the path's height and 5000 m above it, and its hold is the height it was launched from. */
  lemma PlannedFlight(totalM: real, cruiseMps: real, hasFloorFn: bool, hasProbeFn: bool, reducedMotion: bool,
                      pathHeightM: Option<real>, cameraHeightM: Option<real>)
    requires totalM > 0.0 && cruiseMps > 0.0
    ensures var plan := PlanFlight(totalM, cruiseMps, hasFloorFn, hasProbeFn, reducedMotion, pathHeightM, cameraHeightM);
      var base := pathHeightM.GetOr(0.0);
      && PlanOk(plan) && plan.totalM == totalM && plan.reducedMotion == reducedMotion
      && plan.hasFloorFn == hasFloorFn && plan.hasProbeFn == hasProbeFn && plan.safeHoldHeightM == cameraHeightM
      && (2.0 * totalM >= cruiseMps ==> Times(cruiseMps, plan.durationS) == totalM)
      && (2.0 * totalM <= cruiseMps ==> plan.durationS == 0.5)
      && (cameraHeightM.None? ==> plan.coldSeedFloorM == base)
      && (cameraHeightM.Some? && base <= cameraHeightM.value - 260.0 <= base + 5000.0 ==> plan.coldSeedFloorM == cameraHeightM.value - 260.0)
      && (cameraHeightM.Some? && cameraHeightM.value - 260.0 < base ==> plan.coldSeedFloorM == base)
      && (cameraHeightM.Some? && cameraHeightM.value - 260.0 > base + 5000.0 ==> plan.coldSeedFloorM == base + 5000.0)
  {
    HalfSecond(totalM, cruiseMps);
    hide RouteRampFraction;
  }

  lemma HalfSecond(totalM: real, cruiseMps: real)
    requires cruiseMps > 0.0
    ensures Times(cruiseMps, totalM / cruiseMps) == totalM
    ensures totalM / cruiseMps >= 0.5 <==> 2.0 * totalM >= cruiseMps
    ensures totalM / cruiseMps <= 0.5 <==> 2.0 * totalM <= cruiseMps
  {
    var q := totalM / cruiseMps;
    assert q * cruiseMps == totalM;
    TimesSwap(cruiseMps, q);
    if q > 0.5 { MulPos(q - 0.5, cruiseMps); }
    if q < 0.5 { MulPos(0.5 - q, cruiseMps); }
    assert (q - 0.5) * cruiseMps == totalM - 0.5 * cruiseMps;
    assert (0.5 - q) * cruiseMps == 0.5 * cruiseMps - totalM;
  }

  // ---- arming --------------------------------------------------------------

  /** When an acquisition resolves the corridor: there is one, and every cell of it is answered by the
      cache, or the rest by a mesh probe that reached all the cells it was given, then or before. */
  lemma ResolvesExactly(floor: Floor, plan: Plan, cells: seq<Cell>, cachedFloor: Cell -> Option<real>, probe: seq<Cell> -> Probe)
    requires FloorOk(floor)
    ensures var cold := ColdCells(cells, plan.hasFloorFn, cachedFloor);
      var answer := probe(cold);
      Acquire(floor, plan, cells, cachedFloor, probe).1 <==>
        && cells != []
        && ((forall c :: c in cells ==> plan.hasFloorFn && cachedFloor(c).Some?)
            || (if plan.hasProbeFn && !floor.meshProbeSpent && answer.Answered? && answer.heightM.Some? then answer.sampled >= |cold|
                else floor.meshProbeCoveredCold && (KnownFloor(cells, plan.hasFloorFn, cachedFloor).Some? || floor.meshProbeFloorM.Some?)))
  {
    var cold := ColdCells(cells, plan.hasFloorFn, cachedFloor);
    if |cold| > 0 {
      assert cold[0] in cold;
    } else if cells != [] {
      assert cells[0] in cells && cells[0] !in cold;
      KnownFloorIsMax(cells, plan.hasFloorFn, cachedFloor, cells[0]);
    }
    hide KnownFloor, ColdCells;
  }

  lemma OneWait(g: Flight, plan: Plan, cells: seq<Cell>, input: Inputs)
    requires PlanOk(plan) && Inv(g, plan) && input.Valid()
    ensures var (g', frame) := Advance(g, plan, cells, input);
      && (frame.Arming? <==> (plan.hasFloorFn || plan.hasProbeFn) && !g.departed && g.armS < 1.2 && !g'.floor.floorKnown)
      && (g.floor.floorKnown ==> g'.floor.floorKnown)
  {
    AdvanceMonotone(g, plan, cells, input);
    if !g.floor.floorKnown {
      AcquireOk(g.floor, plan, cells, input.cachedFloor, input.probe);
    }
    hide RouteSpeedProfile, HeightM, NextRoll, NextOffset, Acquire;
  }

  /** As long as something can answer, no floor is known, and 1.2 s have not passed, a flight waits. */
  lemma {:induction false} StillWaiting(plan: Plan, cells: seq<Cell>, cachedFloor: Cell -> Option<real>, probe: seq<Cell> -> Probe,
                                        run: seq<Inputs>, n: nat)
    requires PlanOk(plan) && ValidRun(run) && n <= |run| && (plan.hasFloorFn || plan.hasProbeFn) && Elapsed(run, 0, n) < 1.2
    requires !After(Created(plan, cells, cachedFloor, probe), plan, cells, run, n).floor.floorKnown
    ensures var g := After(Created(plan, cells, cachedFloor, probe), plan, cells, run, n); !g.departed && g.armS == Elapsed(run, 0, n)
  {
    if n > 0 {
      hide Advance, Inv, Acquire, Created;
      var f := Created(plan, cells, cachedFloor, probe);
      CreatedOk(plan, cells, cachedFloor, probe);
      Reachable(f, plan, cells, run, n - 1);
      OneWait(After(f, plan, cells, run, n - 1), plan, cells, run[n - 1]);
      StepTakesTime(run[n - 1]);
      StillWaiting(plan, cells, cachedFloor, probe, run, n - 1);
      ArmingClock(After(f, plan, cells, run, n - 1), plan, cells, run[n - 1]);
    }
  }

  lemma StepTakesTime(input: Inputs)
    ensures input.Step() >= 0.0
  {
  }

  /** What an acquisition holds: the highest of the cells' cached answers and the mesh height, when
      there is any of these, and otherwise what was held before. */
  lemma AcquiresHighest(floor: Floor, plan: Plan, cells: seq<Cell>, cachedFloor: Cell -> Option<real>, probe: seq<Cell> -> Probe)
    requires cells != []
    ensures var after := Acquire(floor, plan, cells, cachedFloor, probe).0;
      && (after.meshProbeFloorM.None? && (forall c <- cells :: !plan.hasFloorFn || cachedFloor(c).None?) ==> after.floorM == floor.floorM)
      && (after.meshProbeFloorM.Some? ==> after.floorM.Some? && after.floorM.value >= after.meshProbeFloorM.value)
      && (forall c <- cells :: plan.hasFloorFn && cachedFloor(c).Some? ==> after.floorM.Some? && after.floorM.value >= cachedFloor(c).value)
      && (after.floorM == floor.floorM || after.floorM == after.meshProbeFloorM
          || exists c :: c in cells && plan.hasFloorFn && cachedFloor(c) == after.floorM)
  {
    var known := KnownFloor(cells, plan.hasFloorFn, cachedFloor);
    forall c | c in cells && plan.hasFloorFn && cachedFloor(c).Some?
      ensures known.Some? && known.value >= cachedFloor(c).value
    {
      KnownFloorIsMax(cells, plan.hasFloorFn, cachedFloor, c);
    }
    if known.Some? {
      KnownFloorAttained(cells, plan.hasFloorFn, cachedFloor);
    }
    hide KnownFloor, ColdCells;
  }

  /** A probe that answers sets the mesh height and marks the floor as coming from the mesh. */
  predicate MeshMarked(floor: Floor) {
    floor.floorFromMeshProbe <==> floor.meshProbeFloorM.Some?
  }

  lemma AcquireMarks(floor: Floor, plan: Plan, cells: seq<Cell>, cachedFloor: Cell -> Option<real>, probe: seq<Cell> -> Probe)
    requires MeshMarked(floor)
    ensures MeshMarked(Acquire(floor, plan, cells, cachedFloor, probe).0)
    ensures var cold, after := ColdCells(cells, plan.hasFloorFn, cachedFloor), Acquire(floor, plan, cells, cachedFloor, probe).0;
      |cold| > 0 && plan.hasProbeFn && !floor.meshProbeSpent && probe(cold).Answered? && probe(cold).heightM.Some? ==>
        after.meshProbeFloorM == probe(cold).heightM
  {
    hide KnownFloor, ColdCells;
  }

  lemma FlyMarks(f: Flight, plan: Plan, input: Inputs)
    requires PlanOk(plan)
    ensures MeshMarked(Fly(f, plan, input).0.floor) <==> MeshMarked(f.floor)
  {
    hide RouteSpeedProfile, HeightM, NextRoll, NextOffset, SampledFloor, RouteFloorHoldM;
  }

  lemma FrameMarks(f: Flight, plan: Plan, cells: seq<Cell>, input: Inputs)
    requires PlanOk(plan) && MeshMarked(f.floor)
    ensures MeshMarked(Advance(f, plan, cells, input).0.floor)
  {
    hide Acquire, Fly, MeshMarked;
    AcquireMarks(f.floor, plan, cells, input.cachedFloor, input.probe);
    FlyMarks(f, plan, input);
    var floor := Acquire(f.floor, plan, cells, input.cachedFloor, input.probe).0;
    FlyMarks(f.(armS := f.armS + input.Step(), floor := floor), plan, input);
  }

  /** Over every run the mark for the mesh tells exactly whether a mesh height is held. */
  lemma {:induction false} MarkFollowsMesh(plan: Plan, cells: seq<Cell>, cachedFloor: Cell -> Option<real>, probe: seq<Cell> -> Probe,
                                           run: seq<Inputs>, n: nat)
    requires PlanOk(plan) && n <= |run|
    ensures MeshMarked(After(Created(plan, cells, cachedFloor, probe), plan, cells, run, n).floor)
  {
    hide Advance, Acquire;
    if n == 0 {
      AcquireMarks(FreshFloor(), plan, cells, cachedFloor, probe);
    } else {
      MarkFollowsMesh(plan, cells, cachedFloor, probe, run, n - 1);
      FrameMarks(After(Created(plan, cells, cachedFloor, probe), plan, cells, run, n - 1), plan, cells, run[n - 1]);
    }
  }

  /** A created flight has not moved: at the start of the route, at rest, wings level, its clocks at
      zero, and no height or shaping of its own. */
  lemma CreatedAtRest(plan: Plan, cells: seq<Cell>, cachedFloor: Cell -> Option<real>, probe: seq<Cell> -> Probe)
    ensures var f := Created(plan, cells, cachedFloor, probe);
      && f.u == f.traveled == f.groundSpeedMps == f.armS == 0.0 && !f.departed && f.coldFrames == 0
      && f.appliedHeightM.None? && f.offsetM.None?
      && f.roll.leadDeg == f.roll.bankDeg == f.roll.appliedDeg == f.roll.liftDeg == 0.0
  {
  }

  /** A frame is spent waiting if and only if something can answer at all, the frames before it add up
      to less than 1.2 s, and no floor is known after it. */
  lemma WaitsExactly(plan: Plan, cells: seq<Cell>, cachedFloor: Cell -> Option<real>, probe: seq<Cell> -> Probe,
                     run: seq<Inputs>, n: nat)
    requires PlanOk(plan) && ValidRun(run) && n < |run|
    ensures var f := Created(plan, cells, cachedFloor, probe);
      FrameAt(f, plan, cells, run, n).Arming? <==>
        (plan.hasFloorFn || plan.hasProbeFn) && Elapsed(run, 0, n) < 1.2 && !After(f, plan, cells, run, n + 1).floor.floorKnown
  {
    hide Advance, Inv, Acquire, Created;
    var f := Created(plan, cells, cachedFloor, probe);
    CreatedOk(plan, cells, cachedFloor, probe);
    Reachable(f, plan, cells, run, n);
    var g := After(f, plan, cells, run, n);
    OneWait(g, plan, cells, run[n]);
    if Elapsed(run, 0, n) >= 1.2 {
      ArmingEnds(plan, cells, cachedFloor, probe, run, n);
    } else if (plan.hasFloorFn || plan.hasProbeFn) && !g.floor.floorKnown {
      StillWaiting(plan, cells, cachedFloor, probe, run, n);
    }
  }
}
