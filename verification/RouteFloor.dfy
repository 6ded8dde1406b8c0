/** How a route flight comes by its floor: when the mesh is probed, and when the held floor may
    fall while the dolly is still armed. */
module RouteFloor {
  import opened Js
  import opened SpeedProfile
  import opened RouteGeometry
  import opened RouteFlight
  import opened RouteSafety

  // ---- one probe -----------------------------------------------------------

  /** Frame i acquires the floor and calls the probe. */
  ghost predicate FrameProbes(f: Flight, plan: Plan, cells: seq<Cell>, run: seq<Inputs>, i: nat)
    requires PlanOk(plan) && i < |run|
  {
    CanArm(After(f, plan, cells, run, i), plan) && ProbeFires(After(f, plan, cells, run, i).floor, plan, cells, run[i].cachedFloor)
  }

  /** How often the probe is called: when the flight is created and in its first n frames. */
  ghost function ProbeCalls(plan: Plan, cells: seq<Cell>, cachedFloor: Cell -> Option<real>, probe: seq<Cell> -> Probe,
                            run: seq<Inputs>, n: nat): nat
    requires PlanOk(plan) && n <= |run|
  {
    if n == 0 then if ProbeFires(FreshFloor(), plan, cells, cachedFloor) then 1 else 0
    else
      ProbeCalls(plan, cells, cachedFloor, probe, run, n - 1)
      + if FrameProbes(Created(plan, cells, cachedFloor, probe), plan, cells, run, n - 1) then 1 else 0
  }

  /** Nothing is left for the probe to do. */
  ghost predicate ProbeDone(floor: Floor, plan: Plan, cells: seq<Cell>) {
    floor.meshProbeSpent || floor.floorKnown || cells == [] || !plan.hasProbeFn
  }

  lemma {:induction false} AllAnswered(cells: seq<Cell>, hasFloorFn: bool, cachedFloor: Cell -> Option<real>)
    requires cells != [] && ColdCells(cells, hasFloorFn, cachedFloor) == []
    ensures KnownFloor(cells, hasFloorFn, cachedFloor).Some?
  {
    var c := cells[0];
    assert hasFloorFn && cachedFloor(c).Some? by {
      assert c in cells && c !in ColdCells(cells, hasFloorFn, cachedFloor);
    }
    KnownFloorIsMax(cells, hasFloorFn, cachedFloor, c);
  }

  lemma AcquireFinishesProbe(floor: Floor, plan: Plan, cells: seq<Cell>, cachedFloor: Cell -> Option<real>, probe: seq<Cell> -> Probe)
    ensures ProbeDone(Acquire(floor, plan, cells, cachedFloor, probe).0, plan, cells)
  {
    if cells != [] && ColdCells(cells, plan.hasFloorFn, cachedFloor) == [] {
      AllAnswered(cells, plan.hasFloorFn, cachedFloor);
    }
    hide ColdCells, KnownFloor;
  }

  lemma {:induction false} ProbeStaysDone(plan: Plan, cells: seq<Cell>, cachedFloor: Cell -> Option<real>, probe: seq<Cell> -> Probe,
                                          run: seq<Inputs>, n: nat)
    requires PlanOk(plan) && ValidRun(run) && n <= |run|
    ensures ProbeDone(After(Created(plan, cells, cachedFloor, probe), plan, cells, run, n).floor, plan, cells)
  {
    hide Advance, Acquire, Inv;
    var f := Created(plan, cells, cachedFloor, probe);
    if n == 0 {
      AcquireFinishesProbe(FreshFloor(), plan, cells, cachedFloor, probe);
    } else {
      ProbeStaysDone(plan, cells, cachedFloor, probe, run, n - 1);
      CreatedOk(plan, cells, cachedFloor, probe);
      Reachable(f, plan, cells, run, n - 1);
      AdvanceMonotone(After(f, plan, cells, run, n - 1), plan, cells, run[n - 1]);
    }
  }

  lemma NoFrameProbes(plan: Plan, cells: seq<Cell>, cachedFloor: Cell -> Option<real>, probe: seq<Cell> -> Probe,
                      run: seq<Inputs>, i: nat)
    requires PlanOk(plan) && ValidRun(run) && i < |run|
    ensures !FrameProbes(Created(plan, cells, cachedFloor, probe), plan, cells, run, i)
  {
    ProbeStaysDone(plan, cells, cachedFloor, probe, run, i);
    hide After, Created, KnownFloor;
  }

  /** A flight calls the probe when it is created or never: no frame ever does, so it is called at
      most once, and exactly when the cache left a corridor cell unanswered at creation. */
  lemma {:induction false} ProbedAtCreationOrNever(plan: Plan, cells: seq<Cell>, cachedFloor: Cell -> Option<real>, probe: seq<Cell> -> Probe,
                                                   run: seq<Inputs>, n: nat)
    requires PlanOk(plan) && ValidRun(run) && n <= |run|
    ensures forall i :: 0 <= i < n ==> !FrameProbes(Created(plan, cells, cachedFloor, probe), plan, cells, run, i)
    ensures ProbeCalls(plan, cells, cachedFloor, probe, run, n) ==
      if plan.hasProbeFn && exists c :: c in cells && (!plan.hasFloorFn || cachedFloor(c).None?) then 1 else 0
  {
    hide FrameProbes, Created;
    if n > 0 {
      ProbedAtCreationOrNever(plan, cells, cachedFloor, probe, run, n - 1);
      NoFrameProbes(plan, cells, cachedFloor, probe, run, n - 1);
    } else {
      ColdWhenUnanswered(cells, plan.hasFloorFn, cachedFloor);
    }
  }

  lemma ColdWhenUnanswered(cells: seq<Cell>, hasFloorFn: bool, cachedFloor: Cell -> Option<real>)
    ensures |ColdCells(cells, hasFloorFn, cachedFloor)| > 0 <==> exists c :: c in cells && (!hasFloorFn || cachedFloor(c).None?)
  {
    var cold := ColdCells(cells, hasFloorFn, cachedFloor);
    if |cold| > 0 {
      assert cold[0] in cold;
    }
  }

  /** It is asked about no more cells than the corridor's cap. */
  lemma ProbeAskedAboutFew(pts: seq<Point>, cumM: seq<real>, cellOf: Point -> Cell, from: real,
                           hasFloorFn: bool, cachedFloor: Cell -> Option<real>)
    requires |pts| == |cumM| >= 2
    ensures var cells := CorridorCells(pts, cumM, cellOf, from, 4000.0, ROUTE_MESH_PROBE_CELLS);
      |ColdCells(cells, hasFloorFn, cachedFloor)| <= 8
  {
    CorridorBounded(pts, cumM, cellOf, from, ROUTE_WARM_START_M, ROUTE_MESH_PROBE_CELLS);
  }

  // ---- the held floor while armed ------------------------------------------

  ghost predicate Answers(plan: Plan, cachedFloor: Cell -> Option<real>, c: Cell) {
    plan.hasFloorFn && cachedFloor(c).Some?
  }

  lemma {:induction false} KnownFloorAttained(cells: seq<Cell>, hasFloorFn: bool, cachedFloor: Cell -> Option<real>)
    requires KnownFloor(cells, hasFloorFn, cachedFloor).Some?
    ensures hasFloorFn && exists c :: c in cells && cachedFloor(c) == KnownFloor(cells, hasFloorFn, cachedFloor)
  {
    var front, last := cells[..|cells| - 1], cells[|cells| - 1];
    var before := KnownFloor(front, hasFloorFn, cachedFloor);
    assert last in cells && forall c :: c in front ==> c in cells;
    if before.Some? {
      KnownFloorAttained(front, hasFloorFn, cachedFloor);
    }
  }

  /** The cached part of what is known lies below a height exactly when every answer does. */
  lemma KnownBelow(cells: seq<Cell>, plan: Plan, cachedFloor: Cell -> Option<real>, heldM: real)
    ensures var known := KnownFloor(cells, plan.hasFloorFn, cachedFloor);
      && (known.Some? <==> exists c :: c in cells && Answers(plan, cachedFloor, c))
      && ((known.Some? ==> known.value < heldM) <==> forall c :: c in cells && Answers(plan, cachedFloor, c) ==> cachedFloor(c).value < heldM)
  {
    forall c | c in cells && Answers(plan, cachedFloor, c)
      ensures KnownFloor(cells, plan.hasFloorFn, cachedFloor).Some? && KnownFloor(cells, plan.hasFloorFn, cachedFloor).value >= cachedFloor(c).value
    {
      KnownFloorIsMax(cells, plan.hasFloorFn, cachedFloor, c);
    }
    if KnownFloor(cells, plan.hasFloorFn, cachedFloor).Some? {
      KnownFloorAttained(cells, plan.hasFloorFn, cachedFloor);
    }
    hide KnownFloor;
  }

  /** One acquisition lowers the held floor exactly when something is known, and every cell the
      cache now answers, and the mesh height if there is one, lie below it. */
  lemma HeldFloorFallsExactly(floor: Floor, plan: Plan, cells: seq<Cell>, cachedFloor: Cell -> Option<real>, probe: seq<Cell> -> Probe)
    requires floor.floorM.Some?
    ensures var heldM, after := floor.floorM.value, Acquire(floor, plan, cells, cachedFloor, probe).0;
      && after.floorM.Some?
      && (after.floorM.value < heldM <==>
            && cells != []
            && (after.meshProbeFloorM.Some? || exists c :: c in cells && Answers(plan, cachedFloor, c))
            && (forall c :: c in cells && Answers(plan, cachedFloor, c) ==> cachedFloor(c).value < heldM)
            && (after.meshProbeFloorM.Some? ==> after.meshProbeFloorM.value < heldM))
  {
    KnownBelow(cells, plan, cachedFloor, floor.floorM.value);
    hide ColdCells, KnownFloor, Answers;
  }

  /** A plan without a probe. */
  function CacheOnly(): Plan {
    Plan(1000.0, 25.0, 0.0, true, false, false, 0.0, None)
  }

  function Reads(cell: Cell, heightM: real): Cell -> Option<real> {
    c => if c == cell then Some(heightM) else None
  }

  lemma KnownOfPair(a: Cell, b: Cell, cachedFloor: Cell -> Option<real>)
    ensures KnownFloor([a, b], true, cachedFloor) == MaxKnown(cachedFloor(a), cachedFloor(b))
  {
    var none: seq<Cell> := [];
    assert [a, b][..1] == [a] && [a][..0] == none;
    assert KnownFloor([a], true, cachedFloor) == MaxKnown(KnownFloor(none, true, cachedFloor), cachedFloor(a));
  }

  /** A partial answer is said to raise the held floor. It replaces it: with two cells, the first
      answered at 1000 m, then only the second, at 100 m, the floor falls to 100 m while the
      corridor is still unresolved. */
  lemma PartialAnswerLowers(a: Cell, b: Cell, probe: seq<Cell> -> Probe)
    requires a != b
    ensures var (first, resolved) := Acquire(FreshFloor(), CacheOnly(), [a, b], Reads(a, 1000.0), probe);
      first.floorM == Some(1000.0) && !resolved &&
      var (second, resolved') := Acquire(first, CacheOnly(), [a, b], Reads(b, 100.0), probe);
      second.floorM == Some(100.0) && !resolved'
  {
    assert Reads(b, 100.0)(a) == None && Reads(a, 1000.0)(b) == None;
    KnownOfPair(a, b, Reads(a, 1000.0));
    KnownOfPair(a, b, Reads(b, 100.0));
    ColdWhenUnanswered([a, b], true, Reads(a, 1000.0));
    ColdWhenUnanswered([a, b], true, Reads(b, 100.0));
    assert b in [a, b] && a in [a, b];
    hide ColdCells, KnownFloor;
  }

  /** Every cell the earlier cache answered, the later one answers at least as high. */
  ghost predicate Retains(earlier: Cell -> Option<real>, later: Cell -> Option<real>, cells: seq<Cell>) {
    forall c :: c in cells && earlier(c).Some? ==> later(c).Some? && later(c).value >= earlier(c).value
  }

  /** The cache the n-th acquisition read: the one at creation, then one a frame. */
  ghost function CacheAt(cachedFloor: Cell -> Option<real>, run: seq<Inputs>, n: nat): Cell -> Option<real>
    requires n <= |run|
  {
    if n == 0 then cachedFloor else run[n - 1].cachedFloor
  }

  ghost predicate CacheRetains(cachedFloor: Cell -> Option<real>, run: seq<Inputs>, cells: seq<Cell>) {
    forall i :: 0 <= i < |run| ==> Retains(CacheAt(cachedFloor, run, i), run[i].cachedFloor, cells)
  }

  lemma {:induction false} KnownFloorRises(cells: seq<Cell>, hasFloorFn: bool, earlier: Cell -> Option<real>, later: Cell -> Option<real>)
    requires Retains(earlier, later, cells) && KnownFloor(cells, hasFloorFn, earlier).Some?
    ensures KnownFloor(cells, hasFloorFn, later).Some?
    ensures KnownFloor(cells, hasFloorFn, later).value >= KnownFloor(cells, hasFloorFn, earlier).value
  {
    KnownFloorAttained(cells, hasFloorFn, earlier);
    var c :| c in cells && earlier(c) == KnownFloor(cells, hasFloorFn, earlier);
    KnownFloorIsMax(cells, hasFloorFn, later, c);
  }

  /** What is held while armed: the highest of the cached answers and the mesh height. */
  ghost predicate HeldIs(floor: Floor, plan: Plan, cells: seq<Cell>, cachedFloor: Cell -> Option<real>) {
    floor.floorM == if cells == [] then None else MaxKnown(KnownFloor(cells, plan.hasFloorFn, cachedFloor), floor.meshProbeFloorM)
  }

  lemma ArmingAcquires(f: Flight, plan: Plan, cells: seq<Cell>, input: Inputs)
    requires PlanOk(plan) && Advance(f, plan, cells, input).1.Arming?
    ensures CanArm(f, plan)
    ensures Advance(f, plan, cells, input).0.floor == Acquire(f.floor, plan, cells, input.cachedFloor, input.probe).0
  {
    hide Fly, Acquire;
    FlyPoses(f, plan, input);
    var floor := Acquire(f.floor, plan, cells, input.cachedFloor, input.probe).0;
    FlyPoses(f.(armS := f.armS + input.Step(), floor := floor), plan, input);
  }

  lemma FlyPoses(f: Flight, plan: Plan, input: Inputs)
    requires PlanOk(plan)
    ensures Fly(f, plan, input).1.Pose?
  {
    hide RouteSpeedProfile, HeightM, HeldFloor, NextRoll, NextOffset;
  }

  lemma AcquireHolds(floor: Floor, plan: Plan, cells: seq<Cell>, earlier: Cell -> Option<real>, cachedFloor: Cell -> Option<real>,
                     probe: seq<Cell> -> Probe)
    requires HeldIs(floor, plan, cells, earlier) && Retains(earlier, cachedFloor, cells)
    requires !ProbeFires(floor, plan, cells, cachedFloor)
    ensures var after := Acquire(floor, plan, cells, cachedFloor, probe).0;
      && HeldIs(after, plan, cells, cachedFloor)
      && (floor.floorM.Some? ==> after.floorM.Some? && after.floorM.value >= floor.floorM.value)
  {
    if KnownFloor(cells, plan.hasFloorFn, earlier).Some? {
      KnownFloorRises(cells, plan.hasFloorFn, earlier, cachedFloor);
    }
    hide ColdCells, KnownFloor;
  }

  lemma FirstHold(plan: Plan, cells: seq<Cell>, cachedFloor: Cell -> Option<real>, probe: seq<Cell> -> Probe)
    ensures HeldIs(Acquire(FreshFloor(), plan, cells, cachedFloor, probe).0, plan, cells, cachedFloor)
  {
    hide ColdCells, KnownFloor;
  }

  /** While a flight stays armed over a cache that keeps its answers, the held floor never falls. */
  lemma {:induction false} HeldFloorNeverFalls(plan: Plan, cells: seq<Cell>, cachedFloor: Cell -> Option<real>, probe: seq<Cell> -> Probe,
                                               run: seq<Inputs>, i: nat, n: nat)
    requires PlanOk(plan) && ValidRun(run) && CacheRetains(cachedFloor, run, cells) && i <= n <= |run|
    requires !After(Created(plan, cells, cachedFloor, probe), plan, cells, run, n).departed
    ensures var f := Created(plan, cells, cachedFloor, probe);
      var held, after := After(f, plan, cells, run, i).floor.floorM, After(f, plan, cells, run, n).floor;
      && HeldIs(after, plan, cells, CacheAt(cachedFloor, run, n))
      && (held.Some? ==> after.floorM.Some? && after.floorM.value >= held.value)
    decreases n
  {
    hide Advance, Acquire, Inv, Created, HeldIs, Retains;
    var f := Created(plan, cells, cachedFloor, probe);
    if n == 0 {
      CreatedFloor(plan, cells, cachedFloor, probe);
      FirstHold(plan, cells, cachedFloor, probe);
    } else {
      var g := After(f, plan, cells, run, n - 1);
      CreatedOk(plan, cells, cachedFloor, probe);
      Reachable(f, plan, cells, run, n - 1);
      AllArmingUntil(f, plan, cells, run, n);
      assert FrameAt(f, plan, cells, run, n - 1).Arming?;
      AdvanceMonotone(g, plan, cells, run[n - 1]);
      HeldFloorNeverFalls(plan, cells, cachedFloor, probe, run, if i < n then i else n - 1, n - 1);
      ArmingAcquires(g, plan, cells, run[n - 1]);
      NoFrameProbes(plan, cells, cachedFloor, probe, run, n - 1);
      AcquireHolds(g.floor, plan, cells, CacheAt(cachedFloor, run, n - 1), run[n - 1].cachedFloor, run[n - 1].probe);
    }
  }

  lemma CreatedFloor(plan: Plan, cells: seq<Cell>, cachedFloor: Cell -> Option<real>, probe: seq<Cell> -> Probe)
    ensures Created(plan, cells, cachedFloor, probe).floor == Acquire(FreshFloor(), plan, cells, cachedFloor, probe).0
  {
  }

  // ---- the armed corridor --------------------------------------------------

  lemma ArmedAtStart(f: Flight, plan: Plan)
    requires PlanOk(plan) && Inv(f, plan) && !f.departed
    ensures f.traveled == 0.0
  {
    PlanRamp(plan);
    ProfileEnds(Some(0.0), plan.ramp);
    hide RouteSpeedProfile;
  }

  /** A frame looks at the corridor only while armed, and then it starts at the route's start: one
      corridor serves the whole flight. */
  lemma OneCorridor(f: Flight, plan: Plan, cellsFrom: real -> seq<Cell>, input: Inputs)
    requires PlanOk(plan) && Inv(f, plan)
    ensures Advance(f, plan, cellsFrom(f.traveled), input) == Advance(f, plan, cellsFrom(0.0), input)
  {
    hide Fly, Acquire, Inv;
    if !f.departed {
      ArmedAtStart(f, plan);
    }
  }
}
