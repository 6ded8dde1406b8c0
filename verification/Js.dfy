/** Small vocabulary shared by the models: optional values stand for the source's
    NaN, null and thrown readings; numbers are exact reals. */
module Js {
  datatype Option<+T> = None | Some(value: T) {
    function GetOr(default: T): T {
      match this
      case Some(v) => v
      case None => default
    }
  }

  function Min(a: real, b: real): real {
    if a <= b then a else b
  }

  function Max(a: real, b: real): real {
    if a >= b then a else b
  }

  function Abs(a: real): real {
    if a >= 0.0 then a else -a
  }

  /** `Math.min(hi, Math.max(lo, x))`. */
  function Clamp(lo: real, hi: real, x: real): real {
    Min(hi, Max(lo, x))
  }

  /** A product that proofs may keep folded. */
  function Times(a: real, b: real): real {
    a * b
  }

  lemma TimesAdd(k: real, a: real, b: real)
    ensures Times(k, a + b) == Times(k, a) + Times(k, b)
    ensures Times(k, a - b) == Times(k, a) - Times(k, b)
  {
  }

  lemma TimesSwap(a: real, b: real)
    ensures Times(a, b) == Times(b, a)
  {
  }

  lemma TimesNeg(a: real, b: real)
    ensures Times(a, -b) == -Times(a, b)
  {
  }

  lemma TimesNonNeg(a: real, b: real)
    requires a >= 0.0 && b >= 0.0
    ensures Times(a, b) >= 0.0
  {
  }

  lemma TimesMono(k: real, a: real, b: real)
    requires k >= 0.0 && a <= b
    ensures Times(k, a) <= Times(k, b)
  {
    TimesNonNeg(k, b - a);
    TimesAdd(k, b, a);
    hide Times;
  }

  lemma TimesUnit(k: real)
    ensures Times(k, 1.0) == k && Times(k, 0.0) == 0.0 && Times(1.0, k) == k && Times(0.0, k) == 0.0
  {
  }

  lemma TimesScale(k: real, c: real, a: real)
    ensures Times(k, c * a) == c * Times(k, a)
  {
  }

  lemma TimesAssoc(a: real, b: real, c: real)
    ensures Times(a, Times(b, c)) == Times(Times(a, b), c)
  {
  }

  lemma MulNonNeg(a: real, b: real)
    requires a >= 0.0 && b >= 0.0
    ensures a * b >= 0.0
  {
  }

  lemma MulMono(a: real, b: real, k: real)
    requires a <= b && k >= 0.0
    ensures a * k <= b * k
  {
  }

  lemma MulPos(a: real, b: real)
    requires a > 0.0 && b > 0.0
    ensures a * b > 0.0
  {
  }

  lemma MulSub(a: real, b: real, c: real)
    ensures a * (b - c) == a * b - a * c
  {
  }

  lemma MulSwap(a: real, b: real)
    ensures a * b == b * a
  {
  }

  /** A share of an amount. */
  lemma Portion(amount: real, share: real)
    requires amount >= 0.0 && 0.0 <= share <= 1.0
    ensures 0.0 <= amount * share <= amount
  {
    MulNonNeg(amount, share);
    MulNonNeg(amount, 1.0 - share);
    MulSub(amount, 1.0, share);
  }

  lemma SquareNonNeg(a: real)
    ensures a * a >= 0.0
  {
    if a >= 0.0 {
      MulNonNeg(a, a);
    } else {
      MulNonNeg(-a, -a);
    }
  }

  lemma DivSelf(a: real)
    requires a != 0.0
    ensures a / a == 1.0
  {
  }
}
