# Verified models of the platform's stateful cores

This project models the parts of the repository whose correctness spans loops, runs and state
machines, and proves what they promise. Numbers are exact reals, readings that are no number are
optional values, and whatever comes from outside (clocks, caches, probes, services, scene calls) is
an arbitrary input. Code that updates an object in place is a class whose methods are proved to
refine a specification on values, and the theorems about runs are about that specification.

| module | models |
|---|---|
| SpeedProfile, RouteGeometry | the route dolly's speed curve, the point at an arc length, the corridor cells and the mesh probe (cameraVerbs.js) |
| RouteFlight, RouteSafety, RouteFloor, RouteRide, RouteGlide, RouteDolly | one frame of the route flight as a function, what holds of all its runs, how it comes by its floor, how it rides, how far a frame moves it, and the object that is advanced in place (cameraVerbs.js) |
| RenderGovernor | the shared render mode and its holds (renderGovernor.js) |
| MotionSlot, MotionSafety, MotionRequests, MotionBudget, MotionRates, MotionAftermath, MotionVerbs | the single motion slot: its events as functions, who holds the renderer and what an id names, what is refused and what starts, how far bounded motions go, which way and how fast all go, what stopping leaves behind, and the objects (cameraVerbs.js) |
| SseStream, SseData, SseRoundTrip | the event stream reader, its frames with several data lines, and what arrives of what was sent (api.ts) |
| ShellQuoting, SqlParams, SqlManyParams, SqlFilling, SqlReading | command lines read back by the POSIX word rules (XCU sections 2.2.1 and 2.2.2), placeholder replacement, and the statement read back (_remote.py) |
| Polygon, PolygonSides, Viewport, Turns | the even-odd test and antimeridian arithmetic (locations.js) |
| Backfill, BackfillReplay | the two-pass backfill over its tables (backfill-finding-entities.py, migrations 0001, 0008, 0013) |
| LoadingFeedback, PanelStack | the loading chip and the panel column (loadingFeedback.js, panelStackLayout.js) |
| Geocoder | candidate choice and the bounded memo (keylessGeocoder.js) |
| HudSummary | the summary line as steps between its awaits (hud.js) |
| Heading, ContextSession | the slewed heading and a Context session's bookkeeping (cockpitMath.js, contextModePolicy.js) |
| Js | optional values and real arithmetic shared by all |

## Where the code and its documentation disagree

The models follow the code.

- A bounded orbit that runs to its end leaves the lookAt transform set (cameraVerbs.js:1098-1153),
  although lines 13-15 say it is cleared on every stop: `MotionAftermath.EveryStopHandsBack`.
- The budget of a bounded orbit runs while it waits for a camera flight to end (lines 1094-1101),
  although line 1138 says it starts when the orbit begins: `MotionBudget.CapturesExactly`.
- A partial floor is said to raise the held one (lines 529-531), but both callers take it whole and
  replace it, so the held floor can fall: `RouteFloor.PartialAnswerLowers` is an input, and
  `RouteFloor.HeldFloorFallsExactly` and `RouteFloor.HeldFloorNeverFalls` say when it does.
- `pg_params` is said to reject empty parameters (_remote.py:270-271); it rejects only missing ones:
  `SqlParams.PgParams`. Its placeholders of two digits are broken by those of one:
  `SqlFilling.AgreesExactly`. Each parameter is said to become one literal; two side by side become
  one: `SqlReading.SideBySideIsOne`, `SqlReading.StatementReadsBack`.
- The backfill's second pass is said to serve findings without links (lines 13-17) and to compare
  documents; it serves every finding once any has none, and divides by evidence rows:
  `Backfill.RunLinks`, `Backfill.LinkedFindingGainsLink`, `Backfill.ThresholdDiffersExactly`,
  `Backfill.OneDocumentRecovers`.
- A viewport that spans all longitudes is framed as a sliver at the dateline:
  `Viewport.FramesBoxExactly`.
- A summary that timed out, or arrived for a view that moved without changing its context, is not
  asked for again (hud.js:729-746): `HudSummary.AsksAgainExactly`.
- Only the first data line of a frame is used (api.ts:87), where section 9.2.6 of the WHATWG HTML
  Standard joins them all: `SseData.SplitObject` is an input, and `SseData.SamePayloadExactly` says
  when it makes no difference. The platform's own hub sends each event as one line
  (hub-core/crates/hub-core/src/api.rs:604-629), so its streams never meet the difference.

## Model

| member | source | states |
|---|---|---|
| SpeedProfile.Sections | console/gev-engine/src/cameraVerbs.js:195-210 | The three branches of the profile are one curve: on each of ramp up, cruise and ramp down the distance and speed are the shared ramp polynomial scaled, so the branches agree where they join. |
| SpeedProfile.ProfileEnds | console/gev-engine/src/cameraVerbs.js:195-210 | The profile starts at distance 0 and ends at distance 1, at rest at both ends when it ramps. |
| SpeedProfile.AllTracks | console/gev-engine/src/cameraVerbs.js:198-209 | Over any two instants the distance gained is the speed at the first times the time, up to an error quadratic in the time, and the speed changes no faster than linearly: the curve is differentiable with that speed. |
| SpeedProfile.DistanceIntegratesSpeed | console/gev-engine/src/cameraVerbs.js:185-210 | The closed-form distance, scaled to cruise speed, is the integral of the speed over any step, for every ramp fraction up to 0.35 and across the joins: never backwards, never faster than cruise, and off speed times time by a multiple of the time squared. |
| SpeedProfile.RiemannSumsConverge | console/gev-engine/src/cameraVerbs.js:185-210 | Summing speed times frame time over any schedule of frames approaches the closed-form distance, with an error that shrinks linearly with the longest frame: the closed form has no accumulation drift and the sums tend to it. |
| RouteGeometry.FindSegment | console/gev-engine/src/cameraVerbs.js:329-335 | The binary search ends at the last segment whose start is at most the clamped arc, for every non-decreasing table of lengths. |
| RouteGeometry.ArcPoint | console/gev-engine/src/cameraVerbs.js:326-340 | The loop returns the specified point of the polyline for every arc, also before its start and past its end. |
| RouteGeometry.PointOnSegment | console/gev-engine/src/cameraVerbs.js:336-339 | An arc inside a usable segment gives the point that divides that segment in the same proportion. |
| RouteGeometry.SegmentIsometry | console/gev-engine/src/cameraVerbs.js:326-340 | The polyline is parametrized by length: two positions on one segment are exactly as far apart as their arcs. |
| RouteGeometry.VertexAtItsArc | console/gev-engine/src/cameraVerbs.js:326-340 | Every vertex that starts a usable segment is found at its own cumulative length. |
| RouteGeometry.LandsOnLastWaypoint | console/gev-engine/src/cameraVerbs.js:326-340 | From the total length on, the flight stands on the last waypoint, provided the last segment is longer than a degenerate one. |
| RouteGeometry.RouteCorridorCells | console/gev-engine/src/cameraVerbs.js:389-419 | The sampling loop returns the specified cells for any arc, span and cap. |
| RouteGeometry.CorridorBounded | console/gev-engine/src/cameraVerbs.js:389-419 | The cells are distinct and never more than the cap. |
| RouteGeometry.CorridorInOrder | console/gev-engine/src/cameraVerbs.js:389-419 | The cells come in travel order: each is met for the first time at its sample, and those before it are exactly the cells of earlier samples. |
| RouteGeometry.SpanExactly | console/gev-engine/src/cameraVerbs.js:389-400 | The span is held between the start and the end of the route. |
| RouteGeometry.CorridorWithin | console/gev-engine/src/cameraVerbs.js:389-419 | There are cells exactly when there is a route, a span and room for one; none is sampled beyond the span by more than a micrometre. |
| RouteGeometry.CorridorCovered | console/gev-engine/src/cameraVerbs.js:389-419 | Below the cap no stretch is skipped: every arc of the span lies within one sampling step after a point whose cell is returned. |
| RouteGeometry.ProbeMeshFloorM | console/gev-engine/src/cameraVerbs.js:549-573 | The reading is the highest answered height, attained by a cell; it counts every cell exactly when all of them answered, and is empty without a scene. |
| RouteSafety.AdvanceSafe | console/gev-engine/src/cameraVerbs.js:674-949 | One frame keeps the flight invariant and is a safe frame: arming touches nothing but the arm clock and the floor; flying, the eye is 90 m above the raw sample and 240 m above the held floor, sinks at most 10 m/s, stays at the launch height while no floor is known, and the bank stays within its cap. |
| RouteSafety.CreatedOk | console/gev-engine/src/cameraVerbs.js:590-663 | A created flight satisfies the invariant whatever the cache and the probe answer at once. |
| RouteSafety.EveryFrameSafe | console/gev-engine/src/cameraVerbs.js:674-949 | Altitude safety: every frame of every run from a created flight is a safe frame, for all floor readings, probe answers and frame times. |
| RouteSafety.DescentBounded | console/gev-engine/src/cameraVerbs.js:921-928 | Over any stretch of a run the eye sinks by no more than 10 m per second flown, however the readings jump. |
| RouteSafety.NeverBelowLaunch | console/gev-engine/src/cameraVerbs.js:914-920 | Until a floor is known the dolly never takes the camera below the height it was launched from. |
| RouteSafety.ArmingEnds | console/gev-engine/src/cameraVerbs.js:677-695 | Once the frames so far add up to 1.2 s the next one flies, whatever was or was not answered. |
| RouteSafety.ProbeOnce | console/gev-engine/src/cameraVerbs.js:506-524 | The probe is consulted only when it fires, only about the cells the cache could not answer, and firing spends it. |
| RouteFloor.ProbedAtCreationOrNever | console/gev-engine/src/cameraVerbs.js:506-524 | A flight calls the mesh probe when it is created or never: over every run from a created flight no frame calls it, and the number of calls is one exactly when there is a probe and the cache left a corridor cell unanswered at creation, and otherwise none. |
| RouteFloor.ProbeAskedAboutFew | console/gev-engine/src/cameraVerbs.js:481-487 | The cells the probe is asked about, those of the corridor's start that the cache left unanswered, are at most eight. |
| RouteFloor.OneCorridor | console/gev-engine/src/cameraVerbs.js:674-695 | A frame that looks at the corridor looks at the one from the route's start, so a flight has a single corridor. |
| RouteFloor.HeldFloorFallsExactly | console/gev-engine/src/cameraVerbs.js:525-538 | One acquisition lowers the held floor if and only if something is known and every cell the cache now answers, and the mesh height if there is one, lie below it. |
| RouteFloor.PartialAnswerLowers | console/gev-engine/src/cameraVerbs.js:525-538 | A concrete corridor of two cells, one answered at 1000 m and then only the other at 100 m: the held floor falls to 100 m while the corridor is unresolved. |
| RouteFloor.HeldFloorNeverFalls | console/gev-engine/src/cameraVerbs.js:525-538 | While a created flight is still arming, over a cache in which every cell once answered stays answered at least as high, the held floor never falls, from any frame to any later one. |
| RouteSafety.ResolvedMeansMeasured | console/gev-engine/src/cameraVerbs.js:481-539 | A corridor declared resolved has no unmeasured cell: each was answered in that call by the cache or by a probe that reached every cell it was given, and the held floor is above every answer. |
| RouteSafety.RollBounded | console/gev-engine/src/cameraVerbs.js:218-222 | Through all its filters the roll stays within the bank cap. |
| RouteSafety.AltitudeOffsetRange | console/gev-engine/src/cameraVerbs.js:233-249 | The altitude shaping never lowers the ride by more than the breath nor lifts it by more than the turn lift. |
| RouteSafety.FrameTravel | console/gev-engine/src/cameraVerbs.js:697-702 | No frame runs backwards or covers more route than cruise speed allows in its time. |
| RouteGlide.GlidesAlong | console/gev-engine/src/cameraVerbs.js:326-340 | Along the whole route, across its joins and past its ends, the distance between two points is never more than the arc between them, or, when some segments are degenerate (a micrometre at most), than the arc and one of these. |
| RouteGlide.FrameGlides | console/gev-engine/src/cameraVerbs.js:697-705 | In one flying frame the point under the dolly moves no farther than cruise speed times the time of the frame, up to a degenerate segment where there are any: it never jumps, at a corner or anywhere else. |
| RouteSafety.KeepsTime | console/gev-engine/src/cameraVerbs.js:695-702 | From departure on the flight clock is exactly the elapsed time over the planned duration, for every schedule of frames. |
| RouteSafety.FinishesOnTime | console/gev-engine/src/cameraVerbs.js:695-702 | A frame is the finishing one exactly when the planned duration has passed since departure; it stands at the end of the route, at rest and wings level. |
| RouteRide.SampledExactly | console/gev-engine/src/cameraVerbs.js:859-877 | The floor a frame samples is the higher of those under and ahead of the camera, of the ones that answer, and none without a floor function. |
| RouteRide.FloorEases | console/gev-engine/src/cameraVerbs.js:873-891 | In flight the held floor closes the share floorGain of its gap to a sample, and stays where it is without one. |
| RouteRide.FirstFloor | console/gev-engine/src/cameraVerbs.js:873-891 | The first frame in flight goes on from the acquired floor; without one it takes its sample whole, and without a sample the seed. |
| RouteRide.FloorSettles | console/gev-engine/src/cameraVerbs.js:278-282 | Over level ground, after any number of frames, the gap between the held floor and the ground is the first gap times what every frame left of it. |
| RouteRide.LeastEye | console/gev-engine/src/cameraVerbs.js:906-928 | The eye is at the lowest height that clears the ride over the held floor (260 m and the shaping), 90 m over the floor and over the raw sample, the launch height while no floor is known, and the fastest descent of 10 m/s: no lower and no higher. |
| RouteRide.RollEases | console/gev-engine/src/cameraVerbs.js:739-757 | The lead closes its gap to the bank asked for (0.44 degrees for a degree a second, to the side of the turn, at most 10), the bank its gap to the lead, the applied bank is the bank times the share of cruise speed, and the lift closes its gap to that. |
| RouteRide.TurnSettles | console/gev-engine/src/cameraVerbs.js:739-751 | Through a steady turn the lead nears the bank asked for by what every frame leaves of the gap. |
| RouteRide.OffsetEases | console/gev-engine/src/cameraVerbs.js:233-249 | The altitude offset starts at, and goes toward, a breath of up to 20 m with the wings level, 26 m at a full bank, and a mix of both in between; zero with reduced motion. |
| RouteRide.Reports | console/gev-engine/src/cameraVerbs.js:697-702 | The reported speed is the profile's speed at the scale at which it covers the route in the planned time; only frames without a sample count as cold. |
| RouteRide.PlannedFlight | console/gev-engine/src/cameraVerbs.js:590-650 | A flight takes the route's length over its mean speed, at least half a second; its seed is the camera's height less 260 m, held between the path's height and 5000 m above it; it holds the height it was launched from. |
| RouteRide.StepExactly | console/gev-engine/src/cameraVerbs.js:675-675 | A frame takes the time the clock says, nothing for no number or a clock that ran backwards, and at most a quarter of a second. |
| RouteRide.RampExactly | console/gev-engine/src/cameraVerbs.js:177-180 | The ramps of a planned flight last 2.4 s, but no more than 35 hundredths of a short one. |
| RouteRide.ResolvesExactly | console/gev-engine/src/cameraVerbs.js:481-539 | An acquisition resolves the corridor exactly when there are cells and the cache answers all of them, or a mesh probe that reached every cell it was given answers the rest. |
| RouteRide.AcquiresHighest | console/gev-engine/src/cameraVerbs.js:525-538 | An acquisition holds the highest of the cells' cached answers and the mesh height, and without any of these what was held before. |
| RouteRide.MarkFollowsMesh | console/gev-engine/src/cameraVerbs.js:506-524 | Over every run the floor is marked as coming from the mesh exactly when a mesh height is held. |
| RouteRide.CreatedAtRest | console/gev-engine/src/cameraVerbs.js:618-660 | A created flight is at the start of the route, at rest, wings level, its clocks at zero. |
| RouteRide.WaitsExactly | console/gev-engine/src/cameraVerbs.js:677-695 | A frame of a created flight is spent waiting exactly when something can answer, the frames before it add up to less than 1.2 s, and no floor is known after it. |
| RouteDolly.Dolly.constructor | console/gev-engine/src/cameraVerbs.js:590-663 | Creating a flight plans it, takes the floor that is known at once, and gives the specified state. |
| RouteDolly.Dolly.ReadCache | console/gev-engine/src/cameraVerbs.js:489-504 | One pass over the corridor splits it into the answered floors and exactly the cold cells, in order. |
| RouteDolly.Dolly.AcquireCorridorFloor | console/gev-engine/src/cameraVerbs.js:481-539 | The floor fields change as specified and the result says whether the corridor is resolved. |
| RouteDolly.Dolly.HoldFloor | console/gev-engine/src/cameraVerbs.js:848-891 | A cold reading keeps the held floor or the seed; a warm one is eased onto and makes the floor known. |
| RouteDolly.Dolly.ClampHeight | console/gev-engine/src/cameraVerbs.js:906-927 | The eye height with its three clamps, as specified. |
| RouteDolly.Dolly.AdvanceRouteFlight | console/gev-engine/src/cameraVerbs.js:674-949 | The field-by-field frame refines the specified one and is itself a safe frame. |
| RenderGovernor.HoldsAreLastWords | console/gev-engine/src/renderGovernor.js:34-147 | After any calls exactly the owners are held whose last hold came after their last release and after the governor was last uninstalled; an installed scene is idle exactly when there are none; at most sixteen requests are remembered. |
| RenderGovernor.SettlesOncePerIdle | console/gev-engine/src/renderGovernor.js:42-54 | The scene is asked for one frame per entry into idle and one per explicit request, and for no other. |
| RenderGovernor.TrailExactly | console/gev-engine/src/renderGovernor.js:111-118 | The trail is exactly the newest sixteen requests made while idle since the governor was last uninstalled, in order. |
| RenderGovernor.Governor.InstallRenderGovernor | console/gev-engine/src/renderGovernor.js:64-74 | Installing adopts the scene and applies the mode for the holds recorded before. |
| RenderGovernor.Governor.HoldContinuousRender | console/gev-engine/src/renderGovernor.js:83-87 | Adds the owner and applies the mode; an empty name changes nothing. |
| RenderGovernor.Governor.ReleaseContinuousRender | console/gev-engine/src/renderGovernor.js:96-100 | Removes the owner and applies the mode. |
| RenderGovernor.Governor.GovernorRequestRender | console/gev-engine/src/renderGovernor.js:111-118 | Forwards the request and records it only while idle, the newest sixteen. |
| RenderGovernor.Governor.UninstallRenderGovernor | console/gev-engine/src/renderGovernor.js:133-139 | Only the installed viewer uninstalls, and then every hold is dropped. |
| MotionSafety.NextOk | console/gev-engine/src/cameraVerbs.js:951-1053 | Every event keeps the slot invariant: the active motion carries the newest id, only orbits wait, a circling orbit has a target, a bounded motion is inside its budget. |
| MotionSafety.HoldFollowsMotion | console/gev-engine/src/cameraVerbs.js:1034-1053 | Over every run of requests, ticks, interrupts, cancels and governor calls, the camera holds the renderer exactly while a motion runs that was started after the governor was last uninstalled, and an installed scene then renders continuously. |
| MotionSafety.SameIdSameMotion | console/gev-engine/src/cameraVerbs.js:956-973 | Ids never repeat: two moments with the same id are moments of one motion that ran all the time between, with the same kind, direction, speed and mode. |
| MotionSafety.StaleCancel | console/gev-engine/src/cameraVerbs.js:982-998 | Cancelling by an id once handed out stops that very motion if it still runs and otherwise changes nothing. |
| MotionSafety.RequestTakesSlot | console/gev-engine/src/cameraVerbs.js:1251-1424 | A refused or unauthorized request changes nothing; any other leaves the slot with exactly the motion asked for, armed only for an orbit during a camera flight or over no ground. |
| MotionRequests.RefusesExactly | console/gev-engine/src/cameraVerbs.js:1270-1330 | Every refusal by the request and the camera: each for its own reason and for no other. |
| MotionRequests.StartsExactly | console/gev-engine/src/cameraVerbs.js:1331-1424 | What an accepted request starts: nothing without authority, an empty slot for a stop or a pick that throws, and otherwise the motion asked for, to the right without a direction, an orbit from the camera's own heading. |
| MotionRequests.RouteStarts | console/gev-engine/src/cameraVerbs.js:1521-1549 | A flown route takes the slot under a fresh id and runs until it is over or stopped. |
| MotionRequests.ZoomsExactly | console/gev-engine/src/cameraVerbs.js:1432-1439 | A zoom multiplies the radius of a circling orbit, held between 80 m and 5000 km, and does nothing to anything else. |
| MotionRequests.ZoomsAddUp | console/gev-engine/src/cameraVerbs.js:1432-1439 | Two zooms are one by the product of their factors, so one in undoes one out, while the first stays in the range. |
| MotionRequests.StopsExactly | console/gev-engine/src/cameraVerbs.js:1008-1053 | What stopping leaves: everything while an entity is tracked; otherwise an orbit or a route hands the transform back, a route also levels a roll that shows, and nothing else is undone. |
| MotionRequests.CancelsExactly | console/gev-engine/src/cameraVerbs.js:990-998 | Cancelling by an id stops the motion that carries it and is nothing for any other. |
| MotionRequests.RouteTicks | console/gev-engine/src/cameraVerbs.js:1187-1203 | A waiting route leaves the camera alone; any other frame looks along the gaze, 32 degrees down, banked as it says, and the last one gives up the slot. |
| MotionRequests.ThrowingTickStops | console/gev-engine/src/cameraVerbs.js:1204-1206 | A tick that throws stops the motion. |
| MotionBudget.OnceEnds | console/gev-engine/src/cameraVerbs.js:1092-1101 | However the clock runs a bounded motion is over once it was given 0.9 s, so after at most 900 ticks. |
| MotionBudget.OnceTiltExact | console/gev-engine/src/cameraVerbs.js:1165-1184 | An uninterrupted bounded tilt, from any pitch, ends exactly 15 degrees on if and only if the place of its first millisecond and that target both lie in the pitch range. When the first place does not, it stops unmoved; otherwise it ends inside the range. |
| MotionBudget.TiltFromAboveStalls | console/gev-engine/src/cameraVerbs.js:1175-1184 | From -4.9 degrees a bounded tilt down is accepted and moves nothing, although its target lies in the range. |
| MotionBudget.OnceRotateExact | console/gev-engine/src/cameraVerbs.js:1165-1186 | An uninterrupted bounded rotation has turned by the eased share of exactly 15 degrees after every tick, and by all of them when it ends. |
| MotionBudget.OnceOrbitExact | console/gev-engine/src/cameraVerbs.js:1141-1153 | An uninterrupted bounded orbit has turned by the eased share of exactly 30 degrees after every tick, and ends with the lookAt transform set. |
| MotionBudget.OncePanBetween | console/gev-engine/src/cameraVerbs.js:1154-1164 | An uninterrupted bounded pan slides by the eased share of a quarter of the view height, between the lowest and the highest height it saw. |
| MotionRates.ClockedIsTime | console/gev-engine/src/cameraVerbs.js:1082-1089 | Over ticks a millisecond to a quarter of a second apart a motion is given the time on the clock, and a millisecond for its first tick. |
| MotionRates.RotatesBy | console/gev-engine/src/cameraVerbs.js:1165-1186 | A bounded rotation to the left goes 15 degrees to the left and any other 15 to the right, spent along a parabola that comes to rest after 0.9 s. |
| MotionRates.OrbitsBy | console/gev-engine/src/cameraVerbs.js:1141-1153 | A bounded orbit to the left turns its heading 30 degrees to the left, any other 30 degrees to the right, along the same parabola. |
| MotionRates.CaptureStartsFresh | console/gev-engine/src/cameraVerbs.js:1124-1139 | The tick at which a waiting bounded orbit finds its target starts its budget afresh, from the camera's own heading and at the pitch and range of the target. |
| MotionRates.CapturedOrbitsBy | console/gev-engine/src/cameraVerbs.js:1141-1153 | From its capture on a bounded orbit turns by the eased share of its 30 degrees in the time it is given, and ends with all of them, however long it waited. |
| MotionRates.TiltsBy | console/gev-engine/src/cameraVerbs.js:1165-1184 | A bounded tilt up raises the pitch by 15 degrees and one down lowers it by 15, where both ends lie in the range. |
| MotionRates.PansBy | console/gev-engine/src/cameraVerbs.js:1154-1164 | A bounded pan at one height slides a quarter of that height, at least of 50 m, in the direction it names. |
| MotionRates.RotatesOn | console/gev-engine/src/cameraVerbs.js:1165-1186 | A continuous rotation turns by 4, 10 or 20 degrees a second, by its speed word, to the side it names, over any ticks. |
| MotionRates.OrbitsOn | console/gev-engine/src/cameraVerbs.js:1141-1153 | A continuous orbit goes round by 2, 6 or 15 degrees a second to the side it names, at the pitch and range it was found at. |
| MotionRates.TiltsOn | console/gev-engine/src/cameraVerbs.js:1165-1184 | A continuous tilt goes up or down by 4, 10 or 20 degrees a second and runs exactly until a tick would leave the range. |
| MotionRates.PansOn | console/gev-engine/src/cameraVerbs.js:1154-1164 | A continuous pan slides, in the direction it names, by 0.08, 0.2 or 0.45 of the height a second, summed over the heights it saw. |
| MotionBudget.TickPitch | console/gev-engine/src/cameraVerbs.js:1175-1184 | A tick moves the pitch only to a place inside its range, unless an orbit sets it. |
| MotionBudget.WaitingTimers | console/gev-engine/src/cameraVerbs.js:1104-1122 | While an orbit waits, its timers read the time since it was armed and since the last camera flight, and it never waits longer than 30 s. |
| MotionBudget.CapturesExactly | console/gev-engine/src/cameraVerbs.js:1092-1140 | An armed orbit starts to circle exactly at a tick that finds a target 0.8 s after the last camera flight, within 30 s and, when bounded, within its 0.9 s budget, which runs while it waits. |
| MotionBudget.ArmedOnceExpires | console/gev-engine/src/cameraVerbs.js:1092-1140 | A bounded orbit armed during a camera flight never circles when the flight still runs 0.1 s later. |
| MotionAftermath.EveryStopHandsBack | console/gev-engine/src/cameraVerbs.js:1034-1053 | Without a tracked entity every event leaves the lookAt transform clear unless an orbit is circling, with exactly one exception: the tick that completes a bounded orbit sets it again. |
| MotionAftermath.LeftByOnceOrbit | console/gev-engine/src/cameraVerbs.js:1079-1153 | Over a run in which no entity is tracked, from a camera without the transform, a transform left set was left by a bounded orbit that ran to its end. |
| MotionAftermath.StaysLocked | console/gev-engine/src/cameraVerbs.js:1034-1053 | A transform left set stays set through every input, cancel, tilt, pan and rotation, until the next orbit or route. |
| MotionAftermath.HorizonLevel | console/gev-engine/src/cameraVerbs.js:1008-1053 | Over a run in which no entity is tracked, from a level camera, the horizon is level as soon as a route flight is no longer the active motion, however it ended. |
| MotionAftermath.PitchStaysInRange | console/gev-engine/src/cameraVerbs.js:1175-1184 | Over every run, a pitch started between -89 and -5 degrees leaves that range only after an orbit started to circle a target that it looks at from outside the range (which happens near the horizon), or someone else steered the camera there: no tilt, pan, rotation or route ever does it. |
| MotionAftermath.RouteKeepsSlot | console/gev-engine/src/cameraVerbs.js:1187-1203 | A route flight keeps the slot from its first tick until exactly the tick by which its planned duration has passed since it departed. |
| MotionVerbs.CameraVerbs.InterruptCameraMotion | console/gev-engine/src/cameraVerbs.js:1034-1053 | The one release path: empties the slot, clears the transform and the roll it may have set, releases the hold. |
| MotionVerbs.CameraVerbs.InterruptCameraMotionIfActive | console/gev-engine/src/cameraVerbs.js:990-998 | Interrupts only the motion that carries the id. |
| MotionVerbs.CameraVerbs.ActiveCameraMotionId | console/gev-engine/src/cameraVerbs.js:975-980 | The id of the running motion, or 0 when none runs. |
| MotionVerbs.CameraVerbs.WaitForTarget | console/gev-engine/src/cameraVerbs.js:1104-1140 | The armed orbit, updating the motion object in place also after it left the slot. |
| MotionVerbs.CameraVerbs.OnTick | console/gev-engine/src/cameraVerbs.js:1079-1207 | The whole tick on the shared motion object refines the specified tick. |
| MotionVerbs.CameraVerbs.MoveCamera | console/gev-engine/src/cameraVerbs.js:1251-1424 | The request, its refusals in order and its start refine the specified ones. |
| MotionVerbs.CameraVerbs.FlyRoute | console/gev-engine/src/cameraVerbs.js:1521-1549 | Starting a route stops what ran, takes the slot under a fresh id and holds the renderer. |
| MotionVerbs.CameraVerbs.AdjustOrbitRange | console/gev-engine/src/cameraVerbs.js:1432-1439 | A zoom is consumed exactly by an orbit that has its target, as a radius between 80 m and 5000 km. |
| SseStream.SplitAppend | console/src/api.ts:83-85 | Splitting a text and more is splitting the text, keeping its last piece open, and splitting that piece and the rest: the delimiter may overlap itself and lie across the cut. |
| SseStream.StreamEvents | console/src/api.ts:79-97 | However the stream is cut into chunks, the loop delivers, in order, the events of splitting the whole text on blank lines without the last piece, which it keeps. |
| SseStream.ReadFrames | console/src/api.ts:86-96 | The inner loop delivers each frame's event when its data line parses, and skips the frame otherwise. |
| SseStream.FramesAreLines | console/src/api.ts:79-97 | Splitting into frames delivers the events of an independent reader that goes line by line, dispatches at blank lines and discards an unterminated tail. |
| SseRoundTrip.FrameDelivers | console/src/api.ts:86-96 | A frame as a server writes it, with any event type and blanks around its data, delivers its object when that parses, and nothing for a comment, for data that is no object, or for text the parser refuses. |
| SseRoundTrip.Arrives | console/src/api.ts:79-97 | However the stream is cut into chunks, exactly the objects that were sent and parse are delivered, in the order they were sent, and nothing is kept back. |
| SseRoundTrip.TrimmedExactly | console/src/api.ts:88-88 | What is trimmed off a data line, by code point. |
| SseData.SameTextExactly | console/src/api.ts:87-90 | A frame's data, all of its data lines joined by line feeds as section 9.2.6 of the WHATWG HTML Standard has it, trims to the text the loop looks at if and only if every data line behind that one is blank. |
| SseData.SamePayloadExactly | console/src/api.ts:87-90 | The parser is handed the frame's data if and only if every data line behind the first is blank, or neither that line nor the data opens an object. |
| SseData.SecondLineIsDropped | console/src/api.ts:87-90 | Any object that goes on over a second data line is cut off after the first: the parser is handed the first line, where the data is both. |
| SseData.SplitObject | console/src/api.ts:87-90 | The shortest such frame: braces on two data lines. |
| ShellQuoting.NulRejected | scripts/_remote.py:123-208 | A command line with a NUL in it is no command line at all. |
| ShellQuoting.PgRoundTrip | scripts/_remote.py:123-135 | Read by the POSIX word rules, the psql command carries exactly its fixed words and the query, for every query without a NUL and for no other. |
| ShellQuoting.CypherRoundTrip | scripts/_remote.py:199-208 | The same for the cypher command: the script, sh and the query are one argument each. |
| ShellQuoting.QuotedArgsReadBack | scripts/_remote.py:174-174 | Arguments quoted without escaping read back exactly when none has a single quote or a NUL. |
| ShellQuoting.RedisRoundTrip | scripts/_remote.py:162-180 | The redis command carries exactly its arguments if and only if none has a single quote or a NUL. |
| SqlParams.PgParams | scripts/_remote.py:267-281 | The loop raises at the first missing parameter and otherwise performs the replacements one after another; an empty parameter is accepted. |
| SqlParams.LiteralRoundTrip | scripts/_remote.py:278-280 | Behind its opening quote a literal reads back as its parameter, under the SQL rule for doubled quotes, if and only if no quote follows it. |
| SqlParams.ReplaceInPieces | scripts/_remote.py:275-280 | Replacing over a statement with literals in place is replacing inside each literal: no placeholder forms across a boundary. |
| SqlParams.ChainIsSubstitution | scripts/_remote.py:275-280 | Up to nine parameters, sequential replacement fills every placeholder with its literal as the later replacements leave it. |
| SqlParams.SequentialIsSimultaneous | scripts/_remote.py:267-281 | Up to nine parameters, sequential replacement fills in all placeholders at once if and only if no literal it uses contains the placeholder of a later parameter. |
| SqlParams.TenthIsLost | scripts/_remote.py:267-281 | For any ten parameters or more, the statement $10 does not become the tenth literal. |
| SqlManyParams.OnlyNineAreFilled | scripts/_remote.py:275-280 | For every statement and literals without a dollar, the replacements from the tenth on find nothing: the result is that of the first nine. |
| SqlManyParams.LaterAreLost | scripts/_remote.py:275-280 | So no parameter from the tenth on shows in the result: two lists of ten or more that agree on their first nine give the same statement. |
| SqlManyParams.ChainIsFirstNine | scripts/_remote.py:267-281 | With nine parameters or more, none with a dollar, the loop fills in the placeholders of the first nine, all at once. |
| SqlFilling.AgreesExactly | scripts/_remote.py:267-281 | For every statement and every parameters, however many and with whatever in them: the loop fills in all placeholders, of any number of digits, as if all at once, if and only if no placeholder it finds goes on with a further digit and no literal it puts in contains the placeholder of a later parameter. |
| SqlFilling.TenOrMoreExactly | scripts/_remote.py:267-281 | For each list of ten parameters or more, none with a dollar, that is so if and only if the statement has no placeholder of two digits or more. |
| SqlReading.FilledReadsBack | scripts/_remote.py:269-270 | A statement without quotes of its own and with all placeholders filled in at once reads, literal by literal, as the caller means it if and only if no two placeholders stand side by side. |
| SqlReading.StatementReadsBack | scripts/_remote.py:267-281 | For every statement without quotes of its own and all parameters: what the loop makes of it reads as the caller means it, each placeholder one literal with its parameter as the value, if and only if no two placeholders stand side by side, none it finds goes on with a further digit, and no literal it puts in contains the placeholder of a later parameter. |
| SqlReading.SideBySideIsOne | scripts/_remote.py:267-281 | Two placeholders side by side read as one value, whatever the parameters: both of them with a quote between. |
| Polygon.PointInPolygon | console/gev-engine/src/locations.js:1465-1482 | The loop computes whether a ray to the east crosses the ring an odd number of times. |
| Polygon.CrossingSymmetric | console/gev-engine/src/locations.js:1474-1478 | An edge is crossed whichever way it is walked; an edge that straddles the parallel has a rise, so the guard against zero is never used. |
| Polygon.RotationInvariant | console/gev-engine/src/locations.js:1465-1482 | The answer does not depend on where the vertex list starts. |
| Polygon.ReversalInvariant | console/gev-engine/src/locations.js:1465-1482 | Nor on its direction. |
| Polygon.ClosingInvariant | console/gev-engine/src/locations.js:1465-1482 | Nor on whether the first vertex is repeated at the end. |
| Polygon.GluingIsXor | console/gev-engine/src/locations.js:1465-1482 | Two rings glued along a shared chain of vertices: the answer for the ring around both is the exclusive or of theirs. |
| Polygon.RingIsFan | console/gev-engine/src/locations.js:1465-1482 | A ring's answer is the exclusive or of the triangles that fan out from its first vertex, convex or not, simple or not. |
| Polygon.InsideHasVerticesAround | console/gev-engine/src/locations.js:1465-1482 | A point inside has vertices on all four sides, so nothing beyond the bounding box is inside. |
| Polygon.BoxIsHalfOpen | console/gev-engine/src/locations.js:1465-1482 | A box contains its south and west edges and not its north and east ones. |
| PolygonSides.CrossesBySide | console/gev-engine/src/locations.js:1474-1478 | A ray to the east meets an edge exactly when the edge climbs past the point's parallel with the point on its left, or sinks past it with the point on its right, by the sign of a cross product; the south end counts and the north end does not. |
| PolygonSides.TriangleBySides | console/gev-engine/src/locations.js:1465-1482 | Off its edges a triangle contains exactly the points on one and the same side of all three of them. |
| PolygonSides.RingBySides | console/gev-engine/src/locations.js:1465-1482 | Off the edges of its fan, any ring contains exactly the points that an odd number of the fan's triangles have on one side of all three edges. |
| Viewport.WrapTakesTurns | console/gev-engine/src/locations.js:1058-1061 | Wrapping changes a longitude by whole turns, into [-180, 180). |
| Viewport.CenterIsMidpoint | console/gev-engine/src/locations.js:1036-1042 | The centre is a longitude half the short-way span east of the west side. |
| Viewport.FiniteExactly | console/gev-engine/src/locations.js:1020-1042 | The box is there exactly when all four readings are numbers, and none is taken for another. |
| Viewport.MeasuresExactly | console/gev-engine/src/locations.js:1036-1042 | A viewport measures its height, the way east in less than a turn, and its middle. |
| Viewport.WrappedArc | console/gev-engine/src/locations.js:1244-1264 | An arc with wrapped ends contains a meridian exactly when a walk east from its start meets it in time, across the dateline or not. |
| Viewport.FramesPaddedArc | console/gev-engine/src/locations.js:1250-1264 | What is framed is exactly the box's eastward arc widened by the padding at both ends, or every meridian when that makes a full turn. |
| Viewport.FramesExactly | console/gev-engine/src/locations.js:1244-1264 | The edges framed: the box's own padded by twelve hundredths of its span or a twentieth of a degree, no nearer than a tenth of a degree to a pole, and wrapped, or the whole turn. |
| Viewport.FramesTheArc | console/gev-engine/src/locations.js:1244-1264 | Every meridian met on the way east from the west side to the east side is framed. |
| Viewport.FramesBoxExactly | console/gev-engine/src/locations.js:1224-1264 | For corners between -180 and 180 the whole box is framed if and only if it is not the one box that spans a full turn. |
| Viewport.WorldIsLost | console/gev-engine/src/locations.js:1039-1039 | The full-turn box frames a tenth of a degree at the dateline. |
| Viewport.FramesLatitudes | console/gev-engine/src/locations.js:1251-1255 | Of the box's latitudes exactly those up to 89.9 degrees are framed. |
| Backfill.Database.ReplayAudit | scripts/backfill-finding-entities.py:92-108 | The replay statement inserts every candidate link that is new, changes no row, and fails as a whole at the first bad cast, null or missing key. |
| Backfill.Database.CountGate | scripts/backfill-finding-entities.py:120-155 | The two counts open the second pass exactly when some finding has no link and some finding has two evidence rows. |
| Backfill.Database.RecoverByCoverage | scripts/backfill-finding-entities.py:156-201 | The coverage statement inserts exactly the recovered links that are new, with one audit row for each, or fails as a whole on a null entity. |
| Backfill.Database.Backfill | scripts/backfill-finding-entities.py:61-218 | A run does one of the specified things and keeps the foreign keys. |
| Backfill.SecondRunChangesNothing | scripts/backfill-finding-entities.py:21-24 | Running twice is running once, on the links and on the log, although the second pass writes rows the first pass reads next time, and whatever the first run did: complete, skip or fail. |
| Backfill.RunKeepsConsistent | scripts/backfill-finding-entities.py:61-218 | A run changes no existing row and keeps every foreign key. |
| Backfill.AuditPerInsert | scripts/backfill-finding-entities.py:182-199 | Every audit row reads back as one newly inserted link and every newly inserted link has exactly one. |
| Backfill.AuditCount | scripts/backfill-finding-entities.py:190-199 | There are as many audit rows as inserted links. |
| Backfill.CoverageAtMostOne | scripts/backfill-finding-entities.py:160-181 | Coverage never exceeds one: hits are documents, the divisor counts rows, and no finding has more documents than rows. |
| Backfill.ThresholdDiffersExactly | scripts/backfill-finding-entities.py:13-19 | The code and the documented threshold differ exactly for one document cited in two relations, and where half of the documents hit but these are fewer than half of the rows. |
| Backfill.OneDocumentRecovers | scripts/backfill-finding-entities.py:13-19 | A concrete database in which a single document, cited in two relations, recovers a link that the documented threshold does not. |
| Backfill.RunLinks | scripts/backfill-finding-entities.py:156-201 | With the gate open a finding is linked to an entity exactly when it was or when half of its rows hit it, whether or not it had links before. |
| Backfill.LinkedFindingGainsLink | scripts/backfill-finding-entities.py:13-19 | A concrete database in which a finding that already has a link gets another one. |
| BackfillReplay.ReplayedExactly | scripts/backfill-finding-entities.py:92-108 | A replay that goes through leaves exactly the links that were there and those some audit row records: target kind claim, relation about, keys that parse to the link's, its role or none with about, and not written by test. |
| BackfillReplay.ReplayedRows | scripts/backfill-finding-entities.py:92-108 | A replayed link has confidence 1.0 and the name of the first who recorded it; a link that was there keeps its row. |
| BackfillReplay.ReplayFailsExactly | scripts/backfill-finding-entities.py:92-108 | The replay fails exactly when some audit row breaks it: a null entity, a text that is no key, or a key that is not there for a link that is new. |
| BackfillReplay.GateExactly | scripts/backfill-finding-entities.py:120-155 | The second pass runs exactly when some finding has no link at all and some finding, be it another, has two different evidence rows. |
| BackfillReplay.EveryLink | scripts/backfill-finding-entities.py:61-218 | After a complete run a link is there exactly when it was, an audit row records it, or the second pass ran and recovers it. |
| BackfillReplay.EveryRow | scripts/backfill-finding-entities.py:156-201 | Rows that were there are kept, replayed ones have confidence 1.0 and the recorder's name, recovered ones 0.6 and heuristic-backfill. |
| BackfillReplay.EveryAudit | scripts/backfill-finding-entities.py:190-199 | Every audit row of a run is an insert by heuristic-backfill that records a link neither there nor recorded before. |
| LoadingFeedback.GuidanceIsNoFault | console/gev-engine/src/loadingFeedback.js:32-41 | A prompt stored beside a guidance status does not decide whether the layer fails. |
| LoadingFeedback.LoadsExactly | console/gev-engine/src/loadingFeedback.js:17-62 | When a layer counts as loading, switching off, or refreshing what it shows. |
| LoadingFeedback.FailsExactly | console/gev-engine/src/loadingFeedback.js:17-62 | When a layer counts as failed, guidance statuses and the two feeds torn down while switching off included. |
| LoadingFeedback.EventSays | console/gev-engine/src/loadingFeedback.js:274-281 | What an event of a participating layer says: an error before a cancellation before a completion, by its kind or its flags. |
| LoadingFeedback.OthersSayNothing | console/gev-engine/src/loadingFeedback.js:291-333 | An event of a layer that takes no part says nothing. |
| LoadingFeedback.SaysWhatGoesOn | console/gev-engine/src/loadingFeedback.js:98-113 | The chip says switching off when every active layer is, else refreshing when every active one is, else loading. |
| LoadingFeedback.WithinBatch | console/gev-engine/src/loadingFeedback.js:291-333 | While a batch runs the state holds its start, its reveal time, every layer that was active so far and the worst that happened to them. |
| LoadingFeedback.BatchEndsWithWorst | console/gev-engine/src/loadingFeedback.js:335-370 | A batch ends with the worst of every participant's failing stats and every participating event, in whatever order, dwells accordingly, and ends hidden only when it completes before it was shown. |
| LoadingFeedback.WorstExists | console/gev-engine/src/loadingFeedback.js:335-370 | Every batch has such a worst outcome. |
| LoadingFeedback.RemembersFailed | console/gev-engine/src/loadingFeedback.js:291-370 | While a batch runs the layers remembered as failed are exactly those that a failing event named while they took part. |
| LoadingFeedback.RemembersFailedToEnd | console/gev-engine/src/loadingFeedback.js:335-370 | The same when it has ended with an outcome to show. |
| LoadingFeedback.RestsEmpty | console/gev-engine/src/loadingFeedback.js:115-128 | A chip at rest, after any samples, shows and remembers nothing. |
| LoadingFeedback.NoClockIsZero | console/gev-engine/src/loadingFeedback.js:291-293 | A clock that is no number counts as zero. |
| LoadingFeedback.NoFlicker | console/gev-engine/src/loadingFeedback.js:310-347 | With time moving forward a batch once shown stays shown to its end. |
| LoadingFeedback.NeverShownExactly | console/gev-engine/src/loadingFeedback.js:291-374 | A batch is never shown if and only if it ends within 160 ms and nothing in it failed or was cancelled. |
| LoadingFeedback.OutcomeDwells | console/gev-engine/src/loadingFeedback.js:372-373 | The outcome stays until its deadline and no longer unless a new batch begins. |
| LoadingFeedback.ConfirmationNotExtended | console/gev-engine/src/loadingFeedback.js:214-272 | After work ends the confirmation shows for exactly 1500 ms from the first settled poll, however often it is polled, and ends for good at the first poll without a label. |
| LoadingFeedback.ProgressExactly | console/gev-engine/src/loadingFeedback.js:218-272 | The progress shown is the nearest whole percent within 0 and 100; without a reading one percent while loading, else all. |
| LoadingFeedback.BusyExactly | console/gev-engine/src/loadingFeedback.js:218-272 | Traffic is busy while it loads, the view jumps, or a measured phase is below its last percent or has work queued. |
| LoadingFeedback.ShowsWork | console/gev-engine/src/loadingFeedback.js:218-272 | A busy chip shows its caption, or the default one, and its progress; traffic switched off shows nothing and forgets its confirmation. |
| LoadingFeedback.ConfirmsExactly | console/gev-engine/src/loadingFeedback.js:218-272 | With no confirmation running, one of 1500 ms starts exactly when work has just ended or it is asked for, beneath a label. |
| PanelStack.HeightsConserved | console/gev-engine/src/panelStackLayout.js:12-44 | Allocations keep the list length, lie between zero and each natural height, sum to exactly the smaller of natural total and room, and meet every floor whenever the floors fit together. |
| PanelStack.NaturalIs | console/gev-engine/src/panelStackLayout.js:17-19 | A panel's natural height is its measurement, and nothing for no number or below zero. |
| PanelStack.SomethingUnmet | console/gev-engine/src/panelStackLayout.js:35-40 | Where the guard for nothing unmet is read, something is: its branch is never taken. |
| PanelStack.MoreRoomNeverShrinks | console/gev-engine/src/panelStackLayout.js:12-44 | Opening the corridor never shrinks any panel, across all four ways of sharing. |
| PanelStack.SqueezedAlike | console/gev-engine/src/panelStackLayout.js:26-32 | When not even the floors fit, every panel gets the same share of its floor. |
| PanelStack.TopsInProportion | console/gev-engine/src/panelStackLayout.js:34-43 | What is left beyond the floors is shared in proportion to what each panel still lacks. |
| PanelStack.PanelStackAutoCollapseIndices | console/gev-engine/src/panelStackLayout.js:86-104 | The loop lists, in order, exactly the later panels that would show too little, and never the first. |
| PanelStack.CollapsesExactly | console/gev-engine/src/panelStackLayout.js:86-104 | The panels collapsed are all after the first when told so, and otherwise those after the first that show less than the wanted share of a natural height. |
| PanelStack.CollapseMeansCut | console/gev-engine/src/panelStackLayout.js:74-104 | No panel is collapsed for showing too little while the natural heights fit. |
| PanelStack.ResolveLeftStackBottomBoundary | console/gev-engine/src/panelStackLayout.js:59-72 | The boundary is the lowest of the base and every finite obstacle top less the gap. |
| PanelStack.CorridorBounded | console/gev-engine/src/panelStackLayout.js:120-158 | The corridor lies between its limits and is as high as the minimum, or as the limits allow. |
| PanelStack.CorridorIdempotent | console/gev-engine/src/panelStackLayout.js:120-158 | Resolving a resolved corridor changes nothing. |
| PanelStack.CorridorFromMeasurements | console/gev-engine/src/panelStackLayout.js:120-158 | From any measurements, numbers or not: the corridor starts at or below the obstacles' top, ends at or above their bottom and inside the viewport unless the top leaves no room, has the minimum height where these leave it, and measuring it again gives the same corridor. |
| PanelStack.CorridorGoes | console/gev-engine/src/panelStackLayout.js:120-158 | A proposal in the bounds is balanced about half the viewport's height when it straddles that and the minimum is left; else it stays if it is high enough; else it keeps its bottom and grows upward, and only what does not fit there is added below. |
| PanelStack.CorridorCentered | console/gev-engine/src/panelStackLayout.js:142-150 | A proposal that straddles the middle with enough room is made symmetric about it by trimming one side. |
| Geocoder.SelectsFirstBest | console/gev-engine/src/keylessGeocoder.js:248-267 | A candidate that leads with the name wins over every one that only contains it, and within each kind the first returned wins. |
| Geocoder.AnswerMeans | console/gev-engine/src/keylessGeocoder.js:340-376 | A place accepted near the view leads with the name asked for; a null place is an answer only when every request it rests on came back; a reply with candidates always gives a place. |
| Geocoder.PlaceExactly | console/gev-engine/src/keylessGeocoder.js:159-179 | A candidate is a place when it is a point with both coordinates on the globe: there, and of that name. |
| Geocoder.LeadsExactly | console/gev-engine/src/keylessGeocoder.js:248-267 | A name leads with a target when it is the target or goes on behind it with a space. |
| Geocoder.ContainsExactly | console/gev-engine/src/keylessGeocoder.js:248-267 | A name contains a target when it stands somewhere in it. |
| Geocoder.CameBackExactly | console/gev-engine/src/keylessGeocoder.js:316-338 | A request came back exactly when the provider answered and every candidate of the answer is a place. |
| Geocoder.AnswersByName | console/gev-engine/src/keylessGeocoder.js:340-376 | When every request comes back: in view, the first candidate that leads with the whole name; otherwise, anywhere, the first that leads with the part before the region, else the first that contains it, else the first there is. |
| Geocoder.KeysApart | console/gev-engine/src/keylessGeocoder.js:311-311 | Requests share a memo key only when they are the same, for biases without a line break. |
| Geocoder.KeysMeet | console/gev-engine/src/keylessGeocoder.js:311-311 | Every line break in a request is a place where another request with the same key divides. |
| Geocoder.KeyIsOwnExactly | console/gev-engine/src/keylessGeocoder.js:311-311 | A request shares its key with no other one if and only if neither its query nor its bias has a line break. |
| Geocoder.MemoTransparent | console/gev-engine/src/keylessGeocoder.js:297-389 | Against a provider that answers a request always the same way, any remembered answer after any history of overlapping lookups, expiries, evictions and cancellations is one that a lookup without a memo gives to a request with the same key, and is the answer to this very request when no bias has a line break or this request has none; the memo never exceeds 64. |
| Geocoder.MemoIsMap | console/gev-engine/src/keylessGeocoder.js:311-317 | After any history no key has two entries, and a lookup that finds nothing alive forgets exactly its own key. |
| Geocoder.RememberedFor | console/gev-engine/src/keylessGeocoder.js:376-389 | An answer just given is remembered five minutes when it names a place, half a minute when there is none, and silence not at all. |
| Geocoder.PhotonGeocoder.SelectPhotonFeature | console/gev-engine/src/keylessGeocoder.js:248-267 | The two loops make the specified choice. |
| Geocoder.PhotonGeocoder.Request | console/gev-engine/src/keylessGeocoder.js:340-376 | The biased and the unbiased request and the two flags give the answer without a memo. |
| Geocoder.PhotonGeocoder.TrimPhotonCache | console/gev-engine/src/keylessGeocoder.js:269-276 | Evicts the oldest entries and keeps the newest 64 in order. |
| Geocoder.PhotonGeocoder.Geocode | console/gev-engine/src/keylessGeocoder.js:297-389 | One lookup answers as without a memo for some request with its key, and for this very one when no bias has a line break or this request has none; it keeps the memo sound, and an empty query asks nothing. |
| HudSummary.OneRequestInFlight | console/gev-engine/src/hud.js:683-751 | However updates, moves and completions interleave, at most one request is in flight and it is the one remembered. |
| HudSummary.SummaryNeverStale | console/gev-engine/src/hud.js:692-737 | A summary is shown only if the view has not moved since the update that asked for it started. |
| HudSummary.StartsExactly | console/gev-engine/src/hud.js:683-693 | An update starts exactly when there are metrics, a request may be made, and the line is dirty or the update forced; without metrics the line falls back. |
| HudSummary.FailedContextFallsBack | console/gev-engine/src/hud.js:694-706 | A context that cannot be built falls back and leaves the line as dirty as it was. |
| HudSummary.AsksExactly | console/gev-engine/src/hud.js:707-722 | An update whose context is ready asks exactly when the view has not moved, no request is in flight, and the context is new or the update forced, which then falls back at once. |
| HudSummary.ShowsExactly | console/gev-engine/src/hud.js:725-750 | What a reply puts on the line: its summary at an unmoved view, the fallback when it threw or came there without a summary, and else nothing. |
| HudSummary.StillViewIsSummarized | console/gev-engine/src/hud.js:725-750 | Whatever else goes on between request and reply, as long as the view does not move the summary that comes is shown. |
| HudSummary.ClearMeansChecked | console/gev-engine/src/hud.js:709-719 | Whenever the dirty flag is clear, the context was checked since the view last moved. |
| HudSummary.NeverAskedAgain | console/gev-engine/src/hud.js:725-746 | After any other reply than a failure that is no timeout (and, as a response, reached a view that had not moved), no run of moves, updates and completions ever asks the service again or shows a new summary, as long as the context stays the same, no update is forced, and none under way at the reply was. |
| HudSummary.AsksAgainExactly | console/gev-engine/src/hud.js:725-746 | Some run over the same context, without a forced update and with none under way, asks the service again if and only if the reply was a failure that is no timeout and, if it came as a response, reached a view that had not moved. |
| HudSummary.TimeoutSticks | console/gev-engine/src/hud.js:738-746 | After a timeout the fallback stays for as long as the context stays the same, however often the view moves and is looked at, unless an update is forced or a forced one was under way. |
| HudSummary.Hud.UpdateSummary | console/gev-engine/src/hud.js:683-693 | The update up to its first await refines the specified step. |
| HudSummary.Hud.ResumeWithContext | console/gev-engine/src/hud.js:699-722 | The stretch between the two awaits, with its three ways out, refines the specified step. |
| HudSummary.Hud.ResumeWithReply | console/gev-engine/src/hud.js:723-750 | The end of the update, cleanup included, refines the specified step. |
| HudSummary.Hud.MarkSummaryDirty | console/gev-engine/src/hud.js:781-784 | A move sets the flag and counts the revision up. |
| Turns.ModIs | console/gev-engine/src/cockpitMath.js:4-7 | The doubled remainder is the only number in [0, 360) that differs from its argument by whole turns. |
| Heading.SlewApproaches | console/gev-engine/src/cockpitMath.js:9-17 | One call brings the heading nearer by the step or by all that is left, never past the target, and stays in [0, 360). |
| Heading.NormalizesExactly | console/gev-engine/src/cockpitMath.js:4-7 | A heading is what whole turns leave of its number, and north without a number. |
| Heading.SlewGoes | console/gev-engine/src/cockpitMath.js:9-17 | One call turns east by the step or by all that is left when that is fewer than 180 degrees, otherwise west, and stays without a step. |
| Heading.ReachesExactly | console/gev-engine/src/cockpitMath.js:9-17 | The target is reached in exactly the distance over the step, rounded up, and then kept. |
| ContextSession.RestoresExactly | console/gev-engine/src/contextModePolicy.js:260-295 | What a session restores, for every layer and every run of changes: companions follow the last choice unless left off and only adopted; other layers come back when they were on before or were last turned on. |
| ContextSession.LastChoiceDecides | console/gev-engine/src/contextModePolicy.js:368-381 | The last recorded choice decides if and only if it does not turn off a non-companion that was on before, nor adopt a companion that was left off. |
| ContextSession.LastChoiceDecidesAsBound | console/gev-engine/src/contextModePolicy.js:260-295 | When selections adopt only flights, military and satellites, as ui/layerBindings.js:164-168 does, the last recorded choice decides if and only if it does not turn off a layer that was on before the session and is no companion: that one comes back. |
| ContextSession.ComesBackExactly | console/gev-engine/src/contextModePolicy.js:260-320 | In the changes' own words, for every mode, layer and run: a layer comes back when it was on before (or in a restore under way, less the excluded) or was added and not turned off since; the radio only if it was not turned off and then left alone or merely adopted. |
| ContextSession.LastExplicitWins | console/gev-engine/src/contextModePolicy.js:17-31 | During a queued restore the last explicit choice always wins, in what is restored and in what is replayed. |
| ContextSession.LastSetWins | console/gev-engine/src/contextModePolicy.js:13-31 | Whatever the user last set, by hand or by voice, during a queued restore is what is restored and replayed. |
| ContextSession.Session.RecordContextSessionUserChange | console/gev-engine/src/contextModePolicy.js:260-295 | The two sets change as specified, and not at all when the result says so. |

## Left out

- MotionSlot.Tick: reads the route frame as an input, so that the slot does not contain the dolly's geometry; `MotionAftermath.RouteKeepsSlot` feeds it the frames of a whole flight.
- MotionSlot.MoveCamera: takes its words already parsed; tilt, like the source, treats every direction but up as down.
- MotionSafety.HoldFollowsMotion: the governor's other clients are assumed to use other owner names, as they do.
- RouteFlight.Advance: sine and the exponential gains are inputs in their ranges, so the rates themselves are not modelled.
- RouteSafety.ResolvedMeansMeasured: speaks of the call that resolves; a cell that later goes cold again is not re-measured.
- RouteFlight.Acquire: the fire-and-forget warm calls and their counters are not modelled; they do not write what a frame reads here.
- ShellQuoting.Argv: models quoting and word splitting only; expansions, operators and the container's inner shell are not part of this model.
- SqlReading.Lex: reads standard quoted literals only; comments, dollar quotes, escape strings and literals of the statement's own are not part of this model.
- Geocoder.Uncached: takes query text already trimmed and Unicode normalization as a parameter; timeouts are replies that did not come.
- HudSummary.Next: the text written character by character and the five-second timer are not modelled; a timeout is the aborted reply.
- Backfill.Runs: generated timestamps and change ids are not modelled; the order of the audit rows is arbitrary.
- SseData.StandardData: lines end in line feeds only; the standard also ends them at carriage returns.
- LoadingFeedback.NormalizeLayerLoading: takes the status in lower case and truth values for errors; labels, retries and the degraded mark are not modelled.
- LoadingFeedback.Reduce: participants are a set, so their order of appearance is not kept.
- Floating-point rounding throughout: numbers are exact reals.
- The banked camera frame, haversine distances, framing ranges and other trigonometry: no exact form to compare with.
- UTF-8 decoding and JSON parsing in the stream reader: the text and the parser are parameters.
- `selectBuildingBounds` and the other place choices of locations.js: a maximum over scores made of trigonometry.
- `relativeBearing` and the ruler ticks of cockpitMath.js: they would only add easy members.
- cockpitTracking.js: its outcome is what its layers' own tracking calls leave behind, which is outside this model.
- The asynchronous parts of contextModePolicy.js: they forward to callers outside this model.
- The rest of the console, the Rust hub and the accept-sp scripts: not part of this model.
