/** The route flight as the source writes it: one object whose fields each frame updates. */
module RouteDolly {
  import opened Js
  import opened SpeedProfile
  import opened RouteGeometry
  import opened RouteFlight
  import opened RouteSafety
  import opened RouteFloor

  /** `Math.max` over a list, None for an empty one. */
  function MaxOf(heights: seq<real>): Option<real> {
    if heights == [] then None else MaxKnown(MaxOf(heights[..|heights| - 1]), Some(heights[|heights| - 1]))
  }

  lemma MaxOfPush(heights: seq<real>, h: real)
    ensures MaxOf(heights + [h]) == MaxKnown(MaxOf(heights), Some(h))
  {
    assert (heights + [h])[..|heights|] == heights;
  }

  class Dolly {
    const pts: seq<Point>
    const cumM: seq<real>
    const cellOf: Point -> Cell
    const plan: Plan

    var floor: Floor
    var u: real
    var traveled: real
    var groundSpeedMps: real
    var armS: real
    var departed: bool
    var appliedHeightM: Option<real>
    var offsetM: Option<real>
    var roll: Roll
    var coldFrames: nat

    ghost function State(): Flight
      reads this
    {
      Flight(floor, u, traveled, groundSpeedMps, armS, departed, appliedHeightM, offsetM, roll, coldFrames)
    }

    /** The corridor the arm looks at: it starts where the dolly has got to. */
    ghost function ArmCells(from: real): seq<Cell>
      requires |pts| == |cumM| >= 2
    {
      CorridorCells(pts, cumM, cellOf, from, ROUTE_WARM_START_M, ROUTE_MESH_PROBE_CELLS)
    }

    ghost predicate Valid()
      reads this
    {
      && IsPath(pts, cumM)
      && plan.totalM == cumM[|cumM| - 1]
      && PlanOk(plan)
      && Inv(State(), plan)
    }

    constructor (pts: seq<Point>, cumM: seq<real>, cellOf: Point -> Cell, cruiseMps: real,
                 hasFloorFn: bool, hasProbeFn: bool, reducedMotion: bool,
                 pathHeightM: Option<real>, cameraHeightM: Option<real>,
                 cachedFloor: Cell -> Option<real>, probe: seq<Cell> -> Probe)
      requires IsPath(pts, cumM) && cumM[|cumM| - 1] > 0.0 && cruiseMps > 0.0
      ensures Valid()
      ensures plan == PlanFlight(cumM[|cumM| - 1], cruiseMps, hasFloorFn, hasProbeFn, reducedMotion, pathHeightM, cameraHeightM)
      ensures this.pts == pts && this.cumM == cumM && this.cellOf == cellOf
      ensures State() == Created(plan, ArmCells(0.0), cachedFloor, probe)
    {
      this.pts, this.cumM, this.cellOf := pts, cumM, cellOf;
      plan := PlanFlight(cumM[|cumM| - 1], cruiseMps, hasFloorFn, hasProbeFn, reducedMotion, pathHeightM, cameraHeightM);
      u, traveled, groundSpeedMps, armS, departed := 0.0, 0.0, 0.0, 0.0, false;
      floor := FreshFloor();
      appliedHeightM, offsetM := None, None;
      roll, coldFrames := Roll(0.0, 0.0, 0.0, 0.0), 0;
      new;
      var _ := AcquireCorridorFloor(cachedFloor, probe);
      CreatedOk(plan, ArmCells(0.0), cachedFloor, probe);
    }

    /** One cache read per corridor cell: the floors it knows and the cells it does not. */
    method ReadCache(cells: seq<Cell>, cachedFloor: Cell -> Option<real>) returns (known: seq<real>, cold: seq<Cell>)
      ensures cold == ColdCells(cells, plan.hasFloorFn, cachedFloor)
      ensures MaxOf(known) == KnownFloor(cells, plan.hasFloorFn, cachedFloor)
    {
      known, cold := [], [];
      if !plan.hasFloorFn {
        AllCold(cells, cachedFloor);
        return [], cells;
      }
      for i := 0 to |cells|
        invariant cold == ColdCells(cells[..i], true, cachedFloor)
        invariant MaxOf(known) == KnownFloor(cells[..i], true, cachedFloor)
      {
        var floor := cachedFloor(cells[i]);
        assert cells[..i + 1][..i] == cells[..i];
        if floor.Some? {
          MaxOfPush(known, floor.value);
          known := known + [floor.value];
        } else {
          cold := cold + [cells[i]];
        }
      }
      assert cells[..|cells|] == cells;
    }

    /** The one-shot mesh probe, for exactly the cells the cache could not answer. */
    method ProbeMesh(cold: seq<Cell>, probe: seq<Cell> -> Probe)
      modifies `floor
      ensures floor == AfterProbe(old(floor), cold, plan.hasProbeFn, probe)
    {
      if |cold| > 0 && !floor.meshProbeSpent && plan.hasProbeFn {
        floor := floor.(meshProbeSpent := true);
        var reading := probe(cold);
        if reading.Answered? && reading.heightM.Some? {
          floor := floor.(meshProbeFloorM := reading.heightM, floorFromMeshProbe := true,
                          meshProbeCoveredCold := reading.sampled >= |cold|);
        }
      }
    }

    method AcquireCorridorFloor(cachedFloor: Cell -> Option<real>, probe: seq<Cell> -> Probe) returns (resolved: bool)
      requires IsPath(pts, cumM)
      modifies `floor
      ensures (floor, resolved) == Acquire(old(floor), plan, ArmCells(traveled), cachedFloor, probe)
    {
      hide ColdCells, KnownFloor, CorridorCells, AfterProbe, IsPath, MaxKnown, MaxOf;
      MaxOfNothing();
      var cells := RouteCorridorCells(pts, cumM, cellOf, traveled, ROUTE_WARM_START_M, ROUTE_MESH_PROBE_CELLS);
      if |cells| == 0 {
        return false;
      }
      var known, cold := ReadCache(cells, cachedFloor);
      ProbeMesh(cold, probe);
      MaxWithProbe(known, floor.meshProbeFloorM);
      if floor.meshProbeFloorM.Some? {
        known := known + [floor.meshProbeFloorM.value];
      }
      if |known| == 0 {
        return false;
      }
      floor := floor.(floorM := MaxOf(known));
      if |cold| > 0 && !floor.meshProbeCoveredCold {
        return false;
      }
      floor := floor.(floorKnown := true);
      return true;
    }

    /** The floor under and ahead of the camera, and what it does to the held one: never
        descend blind, ease onto what is seen. */
    method HoldFloor(input: Inputs) returns (sampledFloor: Option<real>)
      modifies `floor, `coldFrames
      ensures sampledFloor == SampledFloor(plan, input)
      ensures floor == HeldFloor(old(floor), plan, sampledFloor, input.floorGain)
      ensures coldFrames == old(coldFrames) + if sampledFloor.None? then 1 else 0
    {
      sampledFloor := None;
      if plan.hasFloorFn {
        sampledFloor := MaxKnown(input.hereM, input.aheadM);
      }
      if sampledFloor.None? {
        floor := floor.(floorM := Some(floor.floorM.GetOr(plan.coldSeedFloorM)));
        coldFrames := coldFrames + 1;
      } else if !floor.floorKnown {
        floor := floor.(floorM := RouteFloorHoldM(floor.floorM, sampledFloor, input.floorGain));
        floor := floor.(floorKnown := true);
      } else {
        floor := floor.(floorM := RouteFloorHoldM(floor.floorM, sampledFloor, input.floorGain));
      }
    }

    /** The eye height with its three clamps: the raw sample, the launch altitude, the descent cap. */
    method ClampHeight(sampledFloor: Option<real>, step: real) returns (heightM: real)
      ensures heightM == HeightM(floor, plan, sampledFloor, offsetM, appliedHeightM, step)
    {
      heightM := Max(RouteEyeHeightM(floor.floorM, offsetM),
                     sampledFloor.GetOr(floor.floorM.GetOr(0.0)) + ROUTE_MIN_CLEARANCE_M);
      if !floor.floorKnown && plan.safeHoldHeightM.Some? {
        heightM := Max(heightM, plan.safeHoldHeightM.value);
      }
      if appliedHeightM.Some? {
        heightM := Max(heightM, appliedHeightM.value - ROUTE_MAX_DESCENT_MPS * step);
      }
    }

    /** A frame past the arm. */
    method FlyFrame(input: Inputs) returns (frame: Frame)
      requires PlanOk(plan)
      modifies this
      ensures (State(), frame) == Fly(old(State()), plan, input)
    {
      hide RouteSpeedProfile, NextRoll, NextOffset, HeightM, HeldFloor, SampledFloor, GroundSpeedMps, TraveledM, Clock;
      var step := input.Step();
      departed := true;
      u := Clock(plan, u, step);
      var profile := RouteSpeedProfile(Some(u), plan.ramp);
      traveled := TraveledM(plan, profile.distance);
      groundSpeedMps := GroundSpeedMps(plan, profile.speed);
      roll := NextRoll(roll, plan, input, profile.speed);
      var sampledFloor := HoldFloor(input);
      offsetM := NextOffset(offsetM, plan, input, roll.liftDeg);
      var heightM := ClampHeight(sampledFloor, step);
      appliedHeightM := Some(heightM);
      frame := Pose(u >= 1.0, roll.appliedDeg, heightM, heightM - floor.floorM.GetOr(0.0), groundSpeedMps, u, sampledFloor);
    }

    /** One frame. Both frame kinds are the specified ones over the corridor at the route's
        start, and so every theorem about runs of frames is one about runs of this method. */
    method AdvanceRouteFlight(input: Inputs) returns (frame: Frame)
      requires Valid() && input.Valid()
      modifies this
      ensures Valid()
      ensures (State(), frame) == Advance(old(State()), plan, ArmCells(old(traveled)), input)
                               == Advance(old(State()), plan, ArmCells(0.0), input)
      ensures SafeFrame(old(State()), plan, input.Step(), State(), frame)
    {
      hide Fly, Acquire, Inv, SafeFrame, CorridorCells;
      AdvanceSafe(State(), plan, ArmCells(traveled), input);
      OneCorridor(State(), plan, start => CorridorCells(pts, cumM, cellOf, start, ROUTE_WARM_START_M, ROUTE_MESH_PROBE_CELLS), input);
      var step := Min(MAX_FRAME_S, Max(0.0, input.dt.GetOr(0.0)));
      if (plan.hasFloorFn || plan.hasProbeFn) && !floor.floorKnown && !departed && armS < ROUTE_ARM_S {
        armS := armS + step;
        var resolved := AcquireCorridorFloor(input.cachedFloor, input.probe);
        if !resolved {
          return Arming;
        }
      }
      frame := FlyFrame(input);
    }
  }

  lemma MaxOfNothing()
    ensures MaxOf([]) == None
  {
  }

  lemma MaxWithProbe(known: seq<real>, probed: Option<real>)
    ensures probed.Some? ==> MaxOf(known + [probed.value]) == MaxKnown(MaxOf(known), probed)
    ensures probed.None? ==> MaxOf(known) == MaxKnown(MaxOf(known), probed)
    ensures MaxOf(known).None? <==> known == []
    ensures MaxKnown(MaxOf(known), probed).None? <==> known == [] && probed.None?
  {
    if probed.Some? {
      MaxOfPush(known, probed.value);
    }
  }

  lemma {:induction false} AllCold(cells: seq<Cell>, cachedFloor: Cell -> Option<real>)
    ensures ColdCells(cells, false, cachedFloor) == cells
    ensures KnownFloor(cells, false, cachedFloor) == None
  {
    if cells != [] {
      AllCold(cells[..|cells| - 1], cachedFloor);
    }
  }
}
