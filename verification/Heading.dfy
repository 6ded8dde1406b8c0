/** The displayed heading (cockpitMath.js): slewed along the shorter arc, a bounded step a call. */
module Heading {
  import opened Js
  import opened Turns

  /** A reading that is no number counts as north. */
  function NormalizeHeading(value: Option<real>): real {
    if value.None? then 0.0 else Mod360(value.value)
  }

  function SlewHeading(current: Option<real>, target: Option<real>, maxStepDeg: Option<real>): real {
    var start, end := NormalizeHeading(current), NormalizeHeading(target);
    if maxStepDeg.None? || maxStepDeg.value <= 0.0 then start else
    Mod360(start + Bounded(Delta(start, end), maxStepDeg.value))
  }

  /** The signed way to the target. */
  function Delta(start: real, end: real): real {
    Rem360(end - start + 540.0) - 180.0
  }

  function Bounded(delta: real, maxStepDeg: real): real {
    Max(-maxStepDeg, Min(maxStepDeg, delta))
  }

  /** Degrees between two headings, the shorter way. */
  function Distance(a: real, b: real): (d: real)
    ensures d >= 0.0 <==> -360.0 <= a - b <= 360.0
  {
    Min(Abs(a - b), 360.0 - Abs(a - b))
  }

  lemma Normalized(value: Option<real>)
    ensures 0.0 <= NormalizeHeading(value) < 360.0
    ensures NormalizeHeading(Some(NormalizeHeading(value))) == NormalizeHeading(value)
  {
    if value.Some? {
      var _ := ModTakesTurns(value.value);
    }
    ModIs(NormalizeHeading(value), 0, NormalizeHeading(value));
  }

  /** The signed way to go: shortest, and to the west when both ways are as long. */
  lemma DeltaIs(start: real, end: real)
    requires 0.0 <= start < 360.0 && 0.0 <= end < 360.0
    ensures var delta := Delta(start, end);
      && -180.0 <= delta < 180.0 && Abs(delta) == Distance(start, end)
      && (delta == end - start || delta == end - start + 360.0 || delta == end - start - 360.0)
  {
    var turns := RemTakesTurns(end - start + 540.0);
    hide Rem360;
  }

  lemma StepOn(start: real, end: real, delta: real, step: real)
    requires 0.0 <= start < 360.0 && 0.0 <= end < 360.0 && -180.0 <= delta < 180.0
    requires delta == end - start || delta == end - start + 360.0 || delta == end - start - 360.0
    requires 0.0 <= step <= delta || delta <= step <= 0.0
    ensures 0.0 <= Mod360(start + step) < 360.0
    ensures Distance(Mod360(start + step), end) == Abs(delta) - Abs(step)
    ensures step == delta <==> Mod360(start + step) == end
  {
    var _ := ModTakesTurns(start + step);
    if start + step < 0.0 {
      ModIs(start + step, -1, start + step + 360.0);
    } else if start + step < 360.0 {
      ModIs(start + step, 0, start + step);
    } else {
      ModIs(start + step, 1, start + step - 360.0);
    }
    hide Mod360;
  }

  /** One call brings the heading nearer by the whole step or by all that is left, and never past
      the target. */
  lemma SlewApproaches(current: Option<real>, target: Option<real>, maxStepDeg: real)
    requires maxStepDeg > 0.0
    ensures var start, end, next := NormalizeHeading(current), NormalizeHeading(target), SlewHeading(current, target, Some(maxStepDeg));
      && 0.0 <= next < 360.0
      && Distance(next, end) == Distance(start, end) - Min(maxStepDeg, Distance(start, end))
      && (next == end <==> Distance(start, end) <= maxStepDeg)
  {
    hide *;
    var start, end := NormalizeHeading(current), NormalizeHeading(target);
    Normalized(current);
    Normalized(target);
    DeltaIs(start, end);
    var delta := Delta(start, end);
    BoundedIs(delta, maxStepDeg);
    StepOn(start, end, delta, Bounded(delta, maxStepDeg));
    SlewIs(current, target, maxStepDeg);
  }

  lemma SlewIs(current: Option<real>, target: Option<real>, maxStepDeg: real)
    requires maxStepDeg > 0.0
    ensures var start, end := NormalizeHeading(current), NormalizeHeading(target);
      SlewHeading(current, target, Some(maxStepDeg)) == Mod360(start + Bounded(Delta(start, end), maxStepDeg))
  {
    hide Mod360, Delta, Bounded, NormalizeHeading;
  }

  lemma BoundedIs(delta: real, maxStepDeg: real)
    requires maxStepDeg > 0.0
    ensures var step := Bounded(delta, maxStepDeg);
      && (0.0 <= step <= delta || delta <= step <= 0.0)
      && Abs(step) == Min(maxStepDeg, Abs(delta))
      && (step == delta <==> Abs(delta) <= maxStepDeg)
  {
  }

  /** The heading after n calls with the same target. */
  function Slewed(current: Option<real>, target: Option<real>, maxStepDeg: real, n: nat): real {
    if n == 0 then NormalizeHeading(current)
    else SlewHeading(Some(Slewed(current, target, maxStepDeg, n - 1)), target, Some(maxStepDeg))
  }

  /** The calls it takes: the distance over the step, rounded up. */
  function CallsNeeded(distance: real, maxStepDeg: real): int
    requires maxStepDeg > 0.0
  {
    -((-(distance / maxStepDeg)).Floor)
  }

  lemma EnoughCalls(distance: real, maxStepDeg: real, n: nat)
    requires maxStepDeg > 0.0
    ensures n >= CallsNeeded(distance, maxStepDeg) <==> n as real * maxStepDeg >= distance
  {
    var q := distance / maxStepDeg;
    assert q * maxStepDeg == distance;
    assert n >= CallsNeeded(distance, maxStepDeg) <==> n as real >= q;
    if n as real >= q {
      MulMono(q, n as real, maxStepDeg);
    } else {
      assert (q - n as real) * maxStepDeg > 0.0;
      assert (q - n as real) * maxStepDeg == q * maxStepDeg - n as real * maxStepDeg;
    }
  }

  lemma {:induction false} SlewedDistance(current: Option<real>, target: Option<real>, maxStepDeg: real, n: nat)
    requires maxStepDeg > 0.0
    ensures var end, d, at := NormalizeHeading(target), Distance(NormalizeHeading(current), NormalizeHeading(target)), Slewed(current, target, maxStepDeg, n);
      && 0.0 <= at < 360.0
      && Distance(at, end) == Max(0.0, d - n as real * maxStepDeg)
      && (at == end <==> d <= n as real * maxStepDeg)
  {
    hide SlewHeading, Mod360, NormalizeHeading, Distance;
    var start, end := NormalizeHeading(current), NormalizeHeading(target);
    Normalized(current);
    Normalized(target);
    DistanceZero(start, end);
    if n > 0 {
      SlewedDistance(current, target, maxStepDeg, n - 1);
      var at := Slewed(current, target, maxStepDeg, n - 1);
      IsNormal(at);
      SlewApproaches(Some(at), target, maxStepDeg);
      OneMore(n, maxStepDeg);
      Countdown(Distance(start, end), (n - 1) as real * maxStepDeg, maxStepDeg, Distance(at, end));
    } else {
      NoCalls(maxStepDeg);
    }
  }

  lemma NoCalls(k: real)
    ensures 0 as real * k == 0.0
  {
  }

  lemma Countdown(d: real, gone: real, k: real, left: real)
    requires k > 0.0 && left == Max(0.0, d - gone) && d >= 0.0
    ensures left - Min(k, left) == Max(0.0, d - (gone + k))
    ensures left <= k <==> d <= gone + k
  {
  }

  lemma IsNormal(at: real)
    requires 0.0 <= at < 360.0
    ensures NormalizeHeading(Some(at)) == at
  {
    ModIs(at, 0, at);
  }

  lemma DistanceZero(a: real, b: real)
    requires 0.0 <= a < 360.0 && 0.0 <= b < 360.0
    ensures Distance(a, b) >= 0.0 && (a == b <==> Distance(a, b) == 0.0)
  {
  }

  lemma OneMore(n: nat, k: real)
    requires n > 0
    ensures n as real * k == (n - 1) as real * k + k
  {
    assert n as real == (n - 1) as real + 1.0;
  }

  /** From any heading the target is reached in exactly the distance over the step, rounded up:
      not a call earlier, and once there the heading stays. */
  lemma ReachesExactly(current: Option<real>, target: Option<real>, maxStepDeg: real, n: nat)
    requires maxStepDeg > 0.0
    ensures var d := Distance(NormalizeHeading(current), NormalizeHeading(target));
      Slewed(current, target, maxStepDeg, n) == NormalizeHeading(target) <==> n >= CallsNeeded(d, maxStepDeg)
  {
    SlewedDistance(current, target, maxStepDeg, n);
    EnoughCalls(Distance(NormalizeHeading(current), NormalizeHeading(target)), maxStepDeg, n);
    hide Slewed, CallsNeeded, NormalizeHeading, Distance;
  }

  /** A heading is what is left of its number by whole turns, and north without a number. */
  lemma NormalizesExactly(value: Option<real>, turns: int, rest: real)
    requires 0.0 <= rest < 360.0 && value.GetOr(0.0) == rest + 360.0 * turns as real
    ensures NormalizeHeading(value) == rest
  {
    if value.Some? {
      ModIs(value.value, turns, rest);
    } else {
      assert turns == 0;
    }
    hide Mod360;
  }

  /** Where one call goes: from any heading, with the target some degrees to the east, it turns east
      by the step or by these when they are fewer than half a turn, and otherwise west by the step or
      by what is left of the turn; without a step it stays. */
  lemma SlewGoes(start: real, east: real, step: Option<real>)
    requires 0.0 <= start < 360.0 && 0.0 <= east < 360.0
    ensures var target := if start + east < 360.0 then start + east else start + east - 360.0;
      var next := SlewHeading(Some(start), Some(target), step);
      var goes := if step.None? || step.value <= 0.0 then 0.0
                  else if east < 180.0 then (if step.value < east then step.value else east)
                  else -(if step.value < 360.0 - east then step.value else 360.0 - east);
      next == if start + goes < 0.0 then start + goes + 360.0 else if start + goes < 360.0 then start + goes else start + goes - 360.0
  {
    var target := if start + east < 360.0 then start + east else start + east - 360.0;
    IsNormal(start);
    IsNormal(target);
    DeltaIs(start, target);
    var delta := if east < 180.0 then east else east - 360.0;
    DeltaOf(start, target, delta);
    if step.Some? && step.value > 0.0 {
      var goes := Bounded(delta, step.value);
      SlewIs(Some(start), Some(target), step.value);
      ModIs(start + goes, if start + goes < 0.0 then -1 else if start + goes < 360.0 then 0 else 1,
            if start + goes < 0.0 then start + goes + 360.0 else if start + goes < 360.0 then start + goes else start + goes - 360.0);
    }
    hide Mod360, NormalizeHeading, Delta, Distance;
  }

  /** The signed way is the only one of its range. */
  lemma DeltaOf(start: real, end: real, delta: real)
    requires 0.0 <= start < 360.0 && 0.0 <= end < 360.0 && -180.0 <= delta < 180.0
    requires delta == end - start || delta == end - start + 360.0 || delta == end - start - 360.0
    ensures Delta(start, end) == delta
  {
    DeltaIs(start, end);
    hide Delta, Distance;
  }
}
