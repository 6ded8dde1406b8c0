/** JavaScript's remainder on degrees: signed, so that wrapping takes two of them. */
module Turns {
  /** Rounded toward zero. */
  function Trunc(x: real): int {
    if x >= 0.0 then x.Floor else -((-x).Floor)
  }

  /** `x % 360` with the sign of x. */
  function Rem360(x: real): real {
    x - 360.0 * Trunc(x / 360.0) as real
  }

  /** `((x % 360) + 360) % 360`. */
  function Mod360(x: real): real {
    Rem360(Rem360(x) + 360.0)
  }

  /** Rem360 takes whole turns off and leaves less than one, on the same side of zero. */
  lemma RemTakesTurns(x: real) returns (turns: int)
    ensures Rem360(x) == x - 360.0 * turns as real
    ensures -360.0 < Rem360(x) < 360.0
    ensures x >= 0.0 ==> Rem360(x) >= 0.0
  {
    turns := Trunc(x / 360.0);
  }

  lemma ModTakesTurns(x: real) returns (turns: int)
    ensures Mod360(x) == x - 360.0 * turns as real
    ensures 0.0 <= Mod360(x) < 360.0
  {
    var first := RemTakesTurns(x);
    var second := RemTakesTurns(Rem360(x) + 360.0);
    hide Rem360;
    turns := first + second - 1;
  }

  lemma TurnsApart(x: real, y: real, a: int, b: int)
    requires x - y == 360.0 * (a - b) as real && -360.0 < x - y < 360.0
    ensures x == y
  {
    assert a > b ==> (a - b) as real >= 1.0;
    assert a < b ==> (a - b) as real <= -1.0;
  }

  /** The remainder is the only number of the range that differs by whole turns. */
  lemma ModIs(x: real, turns: int, rest: real)
    requires x == rest + 360.0 * turns as real && 0.0 <= rest < 360.0
    ensures Mod360(x) == rest
  {
    var k := ModTakesTurns(x);
    TurnsApart(Mod360(x), rest, turns, k);
  }
}
