/** Panel heights and corridors (panelStackLayout.js). A reading that is no number is None. */
module PanelStack {
  import opened Js

  function Sum(s: seq<real>): real {
    if s == [] then 0.0 else s[0] + Sum(s[1..])
  }

  /** `Math.max(0, Number(x) || 0)`. */
  function NonNegative(x: Option<real>): real {
    Max(0.0, x.GetOr(0.0))
  }

  function Naturals(heights: seq<Option<real>>): seq<real> {
    seq(|heights|, i requires 0 <= i < |heights| => NonNegative(heights[i]))
  }

  function Floors(natural: seq<real>, floor: real): seq<real> {
    seq(|natural|, i requires 0 <= i < |natural| => Min(natural[i], floor))
  }

  function Part(x: real, k: real): real {
    x * k
  }

  function Scaled(s: seq<real>, k: real): seq<real> {
    seq(|s|, i requires 0 <= i < |s| => Part(s[i], k))
  }

  function Unmet(natural: seq<real>, base: seq<real>): seq<real>
    requires |base| == |natural|
  {
    seq(|natural|, i requires 0 <= i < |natural| => Max(0.0, natural[i] - base[i]))
  }

  function Topped(base: seq<real>, unmet: seq<real>, remaining: real, unmetTotal: real): seq<real>
    requires |base| == |unmet| && unmetTotal != 0.0
  {
    seq(|base|, i requires 0 <= i < |base| => base[i] + Part(remaining, unmet[i] / unmetTotal))
  }

  function Allocate(heights: seq<Option<real>>, availableHeight: Option<real>, minimumHeight: Option<real>): seq<real> {
    var natural, available := Naturals(heights), NonNegative(availableHeight);
    if Sum(natural) <= available then natural
    else if available == 0.0 then Scaled(natural, 0.0)
    else
      var base := Floors(natural, NonNegative(minimumHeight));
      var baseTotal := Sum(base);
      if baseTotal >= available then Scaled(base, if baseTotal > 0.0 then available / baseTotal else 0.0)
      else
        var unmet := Unmet(natural, base);
        var unmetTotal := Sum(unmet);
        if unmetTotal <= 0.0 then base else Topped(base, unmet, available - baseTotal, unmetTotal)
  }

  // ---- sums ----------------------------------------------------------------

  lemma SumFirst(s: seq<real>)
    ensures s == [] ==> Sum(s) == 0.0
    ensures s != [] ==> Sum(s) == s[0] + Sum(s[1..])
  {
  }

  lemma PartAdds(a: real, b: real, k: real)
    ensures Part(a + b, k) == Part(a, k) + Part(b, k)
  {
  }

  lemma PartOfNothing(k: real)
    ensures Part(0.0, k) == 0.0 && Part(k, 0.0) == 0.0
  {
  }

  lemma {:induction false} SumScaled(s: seq<real>, k: real)
    ensures Sum(Scaled(s, k)) == Part(Sum(s), k)
  {
    hide Part;
    SumFirst(s);
    SumFirst(Scaled(s, k));
    PartOfNothing(k);
    if s != [] {
      SumScaled(s[1..], k);
      assert Scaled(s, k)[1..] == Scaled(s[1..], k);
      PartAdds(s[0], Sum(s[1..]), k);
    }
  }

  lemma {:induction false} SumPlus(a: seq<real>, b: seq<real>, c: seq<real>)
    requires |a| == |b| == |c| && forall i :: 0 <= i < |a| ==> c[i] == a[i] + b[i]
    ensures Sum(c) == Sum(a) + Sum(b)
  {
    if a != [] {
      SumPlus(a[1..], b[1..], c[1..]);
    }
  }

  lemma {:induction false} SumNonNegative(s: seq<real>)
    requires forall i :: 0 <= i < |s| ==> s[i] >= 0.0
    ensures Sum(s) >= 0.0
  {
    if s != [] {
      SumNonNegative(s[1..]);
    }
  }

  // ---- the three ways to allocate ------------------------------------------

  predicate Within(r: seq<real>, natural: seq<real>) {
    |r| == |natural| && forall i :: 0 <= i < |r| ==> 0.0 <= r[i] <= natural[i]
  }

  lemma FloorsAreWithin(natural: seq<real>, floor: real)
    requires floor >= 0.0 && forall i :: 0 <= i < |natural| ==> natural[i] >= 0.0
    ensures Within(Floors(natural, floor), natural)
    ensures Sum(Unmet(natural, Floors(natural, floor))) == Sum(natural) - Sum(Floors(natural, floor))
    ensures Sum(natural) >= 0.0 && Sum(Floors(natural, floor)) >= 0.0
  {
    SumPlus(Floors(natural, floor), Unmet(natural, Floors(natural, floor)), natural);
    SumNonNegative(natural);
    SumNonNegative(Floors(natural, floor));
  }

  lemma ShareOfUnit(a: real, b: real)
    requires 0.0 <= a <= b && b > 0.0
    ensures 0.0 <= a / b <= 1.0
  {
    QuotientMono(0.0, a, b);
    QuotientMono(a, b, b);
    DivSelf(b);
    assert 0.0 / b == 0.0;
  }

  lemma QuotientTimes(a: real, c: real)
    requires c != 0.0
    ensures (a / c) * c == a
  {
  }

  lemma QuotientMono(a: real, b: real, c: real)
    requires a <= b && c > 0.0
    ensures a / c <= b / c
  {
    var p, q := a / c, b / c;
    QuotientTimes(a, c);
    QuotientTimes(b, c);
    if p > q {
      MulPos(p - q, c);
      MulSub(c, p, q);
      MulSwap(c, p);
      MulSwap(c, q);
      MulSwap(p - q, c);
      assert false;
    }
  }

  lemma PartRange(x: real, k: real)
    requires x >= 0.0 && 0.0 <= k <= 1.0
    ensures 0.0 <= Part(x, k) <= x
  {
    Portion(x, k);
  }

  lemma PartMono(x: real, j: real, k: real)
    requires x >= 0.0 && j <= k
    ensures Part(x, j) <= Part(x, k)
  {
    MulNonNeg(x, k - j);
    MulSub(x, k, j);
  }

  lemma PartGrows(a: real, b: real, k: real)
    requires a <= b && k >= 0.0
    ensures Part(a, k) <= Part(b, k)
  {
    MulMono(a, b, k);
  }

  lemma PartOfQuotient(a: real, b: real, c: real)
    requires c != 0.0
    ensures Part(a, b / c) == Part(b, a / c)
    ensures Part(c, a / c) == a
  {
    var p, q := b / c, a / c;
    QuotientTimes(b, c);
    QuotientTimes(a, c);
    Rearrange(q, c, p);
    MulSwap(c, q);
  }

  lemma Rearrange(q: real, c: real, p: real)
    ensures (q * c) * p == (p * c) * q
  {
  }

  lemma ScaledWithin(s: seq<real>, k: real)
    requires 0.0 <= k <= 1.0 && forall i :: 0 <= i < |s| ==> s[i] >= 0.0
    ensures Within(Scaled(s, k), s)
  {
    hide Part;
    forall i | 0 <= i < |s|
      ensures 0.0 <= Part(s[i], k) <= s[i]
    {
      PartRange(s[i], k);
    }
  }

  /** One panel's share of what remains, never more than it lacks. */
  lemma ToppedShare(unmet: real, unmetTotal: real, remaining: real)
    requires unmet >= 0.0 && unmetTotal > 0.0 && 0.0 <= remaining <= unmetTotal
    ensures 0.0 <= Part(remaining, unmet / unmetTotal) <= unmet
    ensures Part(remaining, unmet / unmetTotal) == Part(unmet, remaining / unmetTotal)
  {
    hide Part;
    ShareOfUnit(remaining, unmetTotal);
    PartOfQuotient(remaining, unmet, unmetTotal);
    PartRange(unmet, remaining / unmetTotal);
  }

  lemma ToppedIs(base: seq<real>, unmet: seq<real>, remaining: real, unmetTotal: real)
    requires |base| == |unmet| && unmetTotal == Sum(unmet) > 0.0 && 0.0 <= remaining <= unmetTotal
    requires forall i :: 0 <= i < |unmet| ==> unmet[i] >= 0.0
    ensures var r := Topped(base, unmet, remaining, unmetTotal);
      && Sum(r) == Sum(base) + remaining
      && forall i :: 0 <= i < |r| ==> base[i] <= r[i] <= base[i] + unmet[i]
  {
    hide Part, Sum;
    var k := remaining / unmetTotal;
    var r := Topped(base, unmet, remaining, unmetTotal);
    forall i | 0 <= i < |base|
      ensures r[i] == base[i] + Scaled(unmet, k)[i] && base[i] <= r[i] <= base[i] + unmet[i]
    {
      ToppedShare(unmet[i], unmetTotal, remaining);
    }
    SumPlus(base, Scaled(unmet, k), r);
    SumScaled(unmet, k);
    PartOfQuotient(remaining, unmetTotal, unmetTotal);
  }

  // ---- what an allocation is -----------------------------------------------

  /** The guard for nothing unmet is never taken: where it is read, the panels want more than
      there is and their floors are met. */
  lemma SomethingUnmet(natural: seq<real>, floor: real, available: real)
    requires floor >= 0.0 && forall i :: 0 <= i < |natural| ==> natural[i] >= 0.0
    requires Sum(natural) > available && Sum(Floors(natural, floor)) < available
    ensures 0.0 < available - Sum(Floors(natural, floor)) < Sum(Unmet(natural, Floors(natural, floor)))
  {
    FloorsAreWithin(natural, floor);
  }

  lemma SqueezedFloors(base: seq<real>, available: real)
    requires 0.0 < available <= Sum(base) && forall i :: 0 <= i < |base| ==> base[i] >= 0.0
    ensures var r := Scaled(base, available / Sum(base));
      Within(r, base) && Sum(r) == available
  {
    hide Sum, Scaled, Part;
    var k := available / Sum(base);
    ShareOfUnit(available, Sum(base));
    ScaledWithin(base, k);
    SumScaled(base, k);
    PartOfQuotient(available, available, Sum(base));
  }

  lemma NothingLeft(natural: seq<real>)
    requires forall i :: 0 <= i < |natural| ==> natural[i] >= 0.0
    ensures Within(Scaled(natural, 0.0), natural) && Sum(Scaled(natural, 0.0)) == 0.0
  {
    ScaledWithin(natural, 0.0);
    SumScaled(natural, 0.0);
    PartOfNothing(Sum(natural));
    hide Part, Sum;
  }

  /** Heights are conserved: one for every panel, between nothing and its natural height, that
      add up to exactly what fits. Whenever the floors fit together each panel gets its own. */
  lemma HeightsConserved(heights: seq<Option<real>>, availableHeight: Option<real>, minimumHeight: Option<real>)
    ensures var r, natural := Allocate(heights, availableHeight, minimumHeight), Naturals(heights);
      var available, base := NonNegative(availableHeight), Floors(natural, NonNegative(minimumHeight));
      && Within(r, natural)
      && Sum(r) == Min(Sum(natural), available)
      && (Sum(base) <= available ==> forall i :: 0 <= i < |r| ==> r[i] >= base[i])
  {
    var natural, available := Naturals(heights), NonNegative(availableHeight);
    var floor := NonNegative(minimumHeight);
    var base := Floors(natural, floor);
    FloorsAreWithin(natural, floor);
    hide Sum;
    if Sum(natural) > available {
      if available == 0.0 {
        NothingLeft(natural);
        if Sum(base) <= 0.0 {
          ZeroSum(base);
        }
      } else if Sum(base) >= available {
        SqueezedFloors(base, available);
        if Sum(base) == available {
          DivSelf(available);
        }
      } else {
        SomethingUnmet(natural, floor, available);
        ToppedIs(base, Unmet(natural, base), available - Sum(base), Sum(Unmet(natural, base)));
      }
    }
  }

  lemma {:induction false} ZeroSum(s: seq<real>)
    requires Sum(s) <= 0.0 && forall i :: 0 <= i < |s| ==> s[i] >= 0.0
    ensures forall i :: 0 <= i < |s| ==> s[i] == 0.0
  {
    if s != [] {
      SumNonNegative(s[1..]);
      ZeroSum(s[1..]);
      assert forall i :: 0 < i < |s| ==> s[i] == s[1..][i - 1];
    }
  }

  /** The ways the room is shared that leave every panel something and less than it wants. */
  lemma SharingIs(heights: seq<Option<real>>, availableHeight: Option<real>, minimumHeight: Option<real>)
    ensures var natural, available := Naturals(heights), NonNegative(availableHeight);
      var base := Floors(natural, NonNegative(minimumHeight));
      var r, total, unmet := Allocate(heights, availableHeight, minimumHeight), Sum(base), Unmet(natural, base);
      && (Sum(natural) > available && 0.0 < available <= total ==> r == Scaled(base, available / total))
      && (Sum(natural) > available > total ==> Sum(unmet) > 0.0 && r == Topped(base, unmet, available - total, Sum(unmet)))
  {
    var natural, available, floor := Naturals(heights), NonNegative(availableHeight), NonNegative(minimumHeight);
    FloorsAreWithin(natural, floor);
    if Sum(natural) > available > Sum(Floors(natural, floor)) {
      SomethingUnmet(natural, floor, available);
    }
    hide Sum, Scaled, Topped, Floors, Unmet, Naturals;
  }

  lemma TighterScale(base: seq<real>, less: real, more: real, total: real, i: nat)
    requires i < |base| && base[i] >= 0.0 && 0.0 < less <= more && total > 0.0
    ensures Scaled(base, less / total)[i] <= Scaled(base, more / total)[i]
    ensures less <= total ==> Scaled(base, less / total)[i] <= base[i]
  {
    hide Part;
    QuotientMono(less, more, total);
    PartMono(base[i], less / total, more / total);
    if less <= total {
      ShareOfUnit(less, total);
      PartRange(base[i], less / total);
    }
  }

  lemma TighterTop(base: seq<real>, unmet: seq<real>, less: real, more: real, unmetTotal: real, i: nat)
    requires i < |base| == |unmet| && unmet[i] >= 0.0 && less <= more && unmetTotal > 0.0
    ensures Topped(base, unmet, less, unmetTotal)[i] <= Topped(base, unmet, more, unmetTotal)[i]
  {
    hide Part;
    UnmetShareNonNegative(unmet[i], unmetTotal);
    PartGrows(less, more, unmet[i] / unmetTotal);
  }

  lemma NaturalAndFloor(heights: seq<Option<real>>, floor: real, i: nat)
    requires i < |heights| && floor >= 0.0
    ensures var natural := Naturals(heights);
      var base := Floors(natural, floor);
      && |natural| == |base| == |Unmet(natural, base)| == |heights|
      && natural[i] >= 0.0 && base[i] >= 0.0 && Unmet(natural, base)[i] >= 0.0
  {
  }

  /** Opening the corridor never shrinks a panel, across all four ways of sharing the room. */
  lemma MoreRoomNeverShrinks(heights: seq<Option<real>>, lessHeight: Option<real>, moreHeight: Option<real>,
                             minimumHeight: Option<real>, i: nat)
    requires i < |heights| && NonNegative(lessHeight) <= NonNegative(moreHeight)
    ensures |Allocate(heights, lessHeight, minimumHeight)| == |Allocate(heights, moreHeight, minimumHeight)| == |heights|
    ensures Allocate(heights, lessHeight, minimumHeight)[i] <= Allocate(heights, moreHeight, minimumHeight)[i]
  {
    var natural, less, more := Naturals(heights), NonNegative(lessHeight), NonNegative(moreHeight);
    var base := Floors(natural, NonNegative(minimumHeight));
    var r, q := Allocate(heights, lessHeight, minimumHeight), Allocate(heights, moreHeight, minimumHeight);
    NaturalAndFloor(heights, NonNegative(minimumHeight), i);
    assert 0.0 <= less;
    HeightsConserved(heights, lessHeight, minimumHeight);
    HeightsConserved(heights, moreHeight, minimumHeight);
    SharingIs(heights, lessHeight, minimumHeight);
    SharingIs(heights, moreHeight, minimumHeight);
    assert less == 0.0 && Sum(natural) > less ==> r == Scaled(natural, 0.0) && r[i] == 0.0;
    assert Sum(natural) <= more ==> q == natural;
    hide Sum, Allocate, Naturals, Floors, Unmet, NonNegative, Scaled, Topped;
    var total, unmet := Sum(base), Unmet(natural, base);
    if less > 0.0 && Sum(natural) > more {
      if total >= more {
        TighterScale(base, less, more, total, i);
      } else if total >= less {
        TighterScale(base, less, total, total, i);
      } else {
        TighterTop(base, unmet, less - total, more - total, Sum(unmet), i);
      }
    }
  }

  lemma UnmetShareNonNegative(unmet: real, unmetTotal: real)
    requires unmet >= 0.0 && unmetTotal > 0.0
    ensures unmet / unmetTotal >= 0.0
  {
    QuotientMono(0.0, unmet, unmetTotal);
    assert 0.0 / unmetTotal == 0.0;
  }

  // ---- how the room is shared ----------------------------------------------

  /** The height of a panel as measured: nothing for no number and below zero. */
  predicate Measures(height: Option<real>, h: real) {
    h == if height.Some? && height.value > 0.0 then height.value else 0.0
  }

  lemma NaturalIs(heights: seq<Option<real>>, i: nat, h: real)
    requires i < |heights| && Measures(heights[i], h)
    ensures Naturals(heights)[i] == h
  {
  }

  /** The room is too small even for the floors: every panel gets the same share of its floor. */
  lemma SqueezedAlike(heights: seq<Option<real>>, availableHeight: Option<real>, minimumHeight: Option<real>, i: nat, j: nat)
    requires i < |heights| && j < |heights|
    requires var natural := Naturals(heights); var available := NonNegative(availableHeight);
      Sum(natural) > available && 0.0 < available <= Sum(Floors(natural, NonNegative(minimumHeight)))
    ensures var r := Allocate(heights, availableHeight, minimumHeight);
      var base := Floors(Naturals(heights), NonNegative(minimumHeight));
      |r| == |heights| && Part(r[i], base[j]) == Part(r[j], base[i])
  {
    var base := Floors(Naturals(heights), NonNegative(minimumHeight));
    SharingIs(heights, availableHeight, minimumHeight);
    Rearranged(base[i], base[j], NonNegative(availableHeight) / Sum(base));
    hide Sum, Part, Allocate;
  }

  lemma Rearranged(a: real, b: real, k: real)
    ensures Part(Part(a, k), b) == Part(Part(b, k), a)
  {
  }

  /** There is room for the floors but not for everything: what is left beyond the floors is shared in
      proportion to what each panel still lacks. */
  lemma TopsInProportion(heights: seq<Option<real>>, availableHeight: Option<real>, minimumHeight: Option<real>, i: nat, j: nat)
    requires i < |heights| && j < |heights|
    requires var natural := Naturals(heights); var available := NonNegative(availableHeight);
      Sum(natural) > available > Sum(Floors(natural, NonNegative(minimumHeight)))
    ensures var r, natural := Allocate(heights, availableHeight, minimumHeight), Naturals(heights);
      var base := Floors(natural, NonNegative(minimumHeight));
      |r| == |heights| && Part(r[i] - base[i], natural[j] - base[j]) == Part(r[j] - base[j], natural[i] - base[i])
  {
    var natural := Naturals(heights);
    var base := Floors(natural, NonNegative(minimumHeight));
    var unmet := Unmet(natural, base);
    SharingIs(heights, availableHeight, minimumHeight);
    NaturalAndFloor(heights, NonNegative(minimumHeight), i);
    NaturalAndFloor(heights, NonNegative(minimumHeight), j);
    var remaining := NonNegative(availableHeight) - Sum(base);
    assert unmet[i] == natural[i] - base[i] && unmet[j] == natural[j] - base[j];
    PartOfQuotient(remaining, unmet[i], Sum(unmet));
    PartOfQuotient(remaining, unmet[j], Sum(unmet));
    Rearranged(unmet[i], unmet[j], remaining / Sum(unmet));
    hide Sum, Part, Allocate, Floors, Unmet, Naturals, NonNegative;
  }

  // ---- collapsing ----------------------------------------------------------

  function At(heights: seq<Option<real>>, i: nat): Option<real> {
    if i < |heights| then heights[i] else None
  }

  /** The panel would show less than its share. */
  predicate ShowsTooLittle(natural: real, shown: real, threshold: real) {
    natural > 0.0 && shown / natural < threshold
  }

  predicate Collapses(naturalHeights: seq<Option<real>>, shownHeights: seq<Option<real>>, threshold: real, later: bool, i: nat) {
    && 1 <= i < |naturalHeights|
    && (later || ShowsTooLittle(NonNegative(naturalHeights[i]), NonNegative(At(shownHeights, i)), threshold))
  }

  /** Later panels that would show too little, in order; the first panel is never one. */
  method PanelStackAutoCollapseIndices(naturalHeights: seq<Option<real>>, shownHeights: seq<Option<real>>,
                                       minimumVisibleRatio: Option<real>, collapseLaterPanels: bool) returns (collapsed: seq<nat>)
    ensures forall i: nat :: i in collapsed <==> Collapses(naturalHeights, shownHeights, NonNegative(minimumVisibleRatio), collapseLaterPanels, i)
    ensures forall i, j :: 0 <= i < j < |collapsed| ==> collapsed[i] < collapsed[j]
  {
    var threshold := NonNegative(minimumVisibleRatio);
    collapsed := [];
    var index := 1;
    while index < |naturalHeights|
      invariant 1 <= index
      invariant forall i: nat :: i in collapsed <==> i < index && Collapses(naturalHeights, shownHeights, threshold, collapseLaterPanels, i)
      invariant forall i :: 0 <= i < |collapsed| ==> collapsed[i] < index
      invariant forall i, j :: 0 <= i < j < |collapsed| ==> collapsed[i] < collapsed[j]
    {
      hide ShowsTooLittle, NonNegative;
      if collapseLaterPanels {
        collapsed := collapsed + [index];
      } else {
        var natural := NonNegative(naturalHeights[index]);
        var shown := NonNegative(At(shownHeights, index));
        if ShowsTooLittle(natural, shown, threshold) {
          collapsed := collapsed + [index];
        }
      }
      index := index + 1;
    }
  }

  /** A panel that would show too little of its height was cut: it does not happen while the
      natural heights fit, for any share up to the whole. */
  lemma CollapseMeansCut(heights: seq<Option<real>>, availableHeight: Option<real>, minimumHeight: Option<real>, threshold: real, i: nat)
    requires i < |heights| && threshold <= 1.0
    requires |Allocate(heights, availableHeight, minimumHeight)| == |heights|
    requires ShowsTooLittle(Naturals(heights)[i], Allocate(heights, availableHeight, minimumHeight)[i], threshold)
    ensures Sum(Naturals(heights)) > NonNegative(availableHeight)
  {
    if Sum(Naturals(heights)) <= NonNegative(availableHeight) {
      DivSelf(Naturals(heights)[i]);
    }
  }

  /** Exactly which panels are collapsed, in the measurements: all after the first when told so, and
      otherwise those after the first that show less than the wanted share of a natural height. */
  lemma CollapsesExactly(naturalHeights: seq<Option<real>>, shownHeights: seq<Option<real>>, ratio: Option<real>, later: bool, i: nat,
                         natural: real, shown: real, wanted: real)
    requires i < |naturalHeights| && Measures(naturalHeights[i], natural) && Measures(ratio, wanted)
    requires Measures(if i < |shownHeights| then shownHeights[i] else None, shown)
    ensures Collapses(naturalHeights, shownHeights, NonNegative(ratio), later, i) <==>
      i > 0 && (later || (natural > 0.0 && shown < Part(natural, wanted)))
  {
    if natural > 0.0 {
      ShareBelow(shown, natural, wanted);
    }
  }

  lemma ShareBelow(shown: real, natural: real, wanted: real)
    requires natural > 0.0
    ensures shown / natural < wanted <==> shown < Part(natural, wanted)
  {
    var q := shown / natural;
    QuotientTimes(shown, natural);
    if q < wanted {
      MulPos(wanted - q, natural);
      assert (wanted - q) * natural == wanted * natural - q * natural;
    } else {
      MulNonNeg(q - wanted, natural);
      assert (q - wanted) * natural == q * natural - wanted * natural;
    }
    MulSwap(wanted, natural);
  }

  // ---- the corridor --------------------------------------------------------

  /** The lowest of the base and every obstacle's top less the gap. */
  method ResolveLeftStackBottomBoundary(baseBottom: Option<real>, obstacles: seq<Option<real>>, safeGap: Option<real>) returns (bottom: real)
    ensures bottom <= baseBottom.GetOr(0.0)
    ensures forall i :: 0 <= i < |obstacles| && obstacles[i].Some? ==> bottom <= obstacles[i].value - safeGap.GetOr(0.0)
    ensures bottom == baseBottom.GetOr(0.0) || exists i :: 0 <= i < |obstacles| && obstacles[i].Some? && bottom == obstacles[i].value - safeGap.GetOr(0.0)
  {
    bottom := baseBottom.GetOr(0.0);
    var gap := safeGap.GetOr(0.0);
    for k := 0 to |obstacles|
      invariant bottom <= baseBottom.GetOr(0.0)
      invariant forall i :: 0 <= i < k && obstacles[i].Some? ==> bottom <= obstacles[i].value - gap
      invariant bottom == baseBottom.GetOr(0.0) || exists i :: 0 <= i < k && obstacles[i].Some? && bottom == obstacles[i].value - gap
    {
      if obstacles[k].None? {
        continue;
      }
      bottom := Min(bottom, obstacles[k].value - gap);
    }
  }

  datatype Corridor = Corridor(top: real, bottom: real)

  /** Where the corridor may lie, the useful minimum, and the viewport's middle. */
  datatype Limits = Limits(top: real, bottom: real, minimum: real, midpoint: real)

  function LimitsOf(viewportHeight: Option<real>, obstacleSafeTop: Option<real>, obstacleSafeBottom: Option<real>,
                    minimumHeight: Option<real>): (l: Limits)
    ensures 0.0 <= l.top <= l.bottom && l.minimum >= 0.0
  {
    var height := Max(1.0, if viewportHeight.GetOr(0.0) == 0.0 then 1.0 else viewportHeight.value);
    var top := NonNegative(obstacleSafeTop);
    Limits(top, Max(top, Min(height, obstacleSafeBottom.GetOr(0.0))), NonNegative(minimumHeight), height * 0.5)
  }

  /** Centred on the middle as far as the nearer side allows, if that keeps the minimum. */
  function Centered(c: Corridor, l: Limits): Corridor {
    if !(c.top < l.midpoint && c.bottom > l.midpoint) then c else
    var half := Min(l.midpoint - c.top, c.bottom - l.midpoint);
    var centered := Corridor(l.midpoint - half, l.midpoint + half);
    if centered.bottom - centered.top >= l.minimum then centered else c
  }

  function Extended(c: Corridor, l: Limits): Corridor {
    if c.bottom - c.top >= l.minimum then c else
    var top := Max(l.top, c.bottom - l.minimum);
    Corridor(top, Min(l.bottom, Max(c.bottom, top + l.minimum)))
  }

  function Resolve(safeTop: Option<real>, safeBottom: Option<real>, l: Limits): Corridor {
    var top := Max(l.top, Min(l.bottom, safeTop.GetOr(0.0)));
    var bottom := Max(top, Min(l.bottom, safeBottom.GetOr(0.0)));
    Extended(Centered(Corridor(top, bottom), l), l)
  }

  /** The corridor lies between its limits and is as high as the minimum, or as the limits allow. */
  lemma CorridorBounded(safeTop: Option<real>, safeBottom: Option<real>, l: Limits)
    requires l.top <= l.bottom && l.minimum >= 0.0
    ensures var c := Resolve(safeTop, safeBottom, l);
      && l.top <= c.top <= c.bottom <= l.bottom
      && c.bottom - c.top >= Min(l.minimum, l.bottom - l.top)
  {
  }

  /** Resolving a resolved corridor changes nothing, so measuring again cannot make it creep. */
  lemma CorridorIdempotent(safeTop: Option<real>, safeBottom: Option<real>, l: Limits)
    requires l.top <= l.bottom && l.minimum >= 0.0
    ensures var c := Resolve(safeTop, safeBottom, l);
      Resolve(Some(c.top), Some(c.bottom), l) == c
  {
    CorridorBounded(safeTop, safeBottom, l);
  }

  /** The source's own measurements. */
  datatype Measured = Measured(viewportHeight: Option<real>, safeTop: Option<real>, safeBottom: Option<real>,
                               obstacleSafeTop: Option<real>, obstacleSafeBottom: Option<real>, minimumHeight: Option<real>)

  function ResolvePanelStackCorridor(m: Measured): Corridor {
    Resolve(m.safeTop, m.safeBottom, LimitsOf(m.viewportHeight, m.obstacleSafeTop, m.obstacleSafeBottom, m.minimumHeight))
  }

  /** From any measurements, numbers or not: the corridor starts at or below the obstacles' top
      boundary, ends at or above their bottom one and inside the viewport unless the top one leaves
      no room, has the minimum height where these leave it, and is a fixed point of measuring again. */
  lemma CorridorFromMeasurements(m: Measured)
    ensures var c, top := ResolvePanelStackCorridor(m), NonNegative(m.obstacleSafeTop);
      var height := Max(1.0, m.viewportHeight.GetOr(0.0));
      var bottom := Max(top, Min(height, m.obstacleSafeBottom.GetOr(0.0)));
      && top <= c.top <= c.bottom <= bottom
      && (top <= height ==> c.bottom <= height)
      && c.bottom - c.top >= Min(NonNegative(m.minimumHeight), bottom - top)
      && ResolvePanelStackCorridor(m.(safeTop := Some(c.top), safeBottom := Some(c.bottom))) == c
  {
    var l := LimitsOf(m.viewportHeight, m.obstacleSafeTop, m.obstacleSafeBottom, m.minimumHeight);
    CorridorBounded(m.safeTop, m.safeBottom, l);
    CorridorIdempotent(m.safeTop, m.safeBottom, l);
    hide Resolve;
  }

  /** Where the corridor goes, from the measurements. A proposal that lies in the bounds and has the
      minimum height, and is not balanced, stays; one that is too short keeps its bottom and grows
      upward, and only what does not fit there is added below. One that straddles half the viewport's
      height is balanced about it when that leaves the minimum. */
  lemma CorridorGoes(m: Measured, top: real, bottom: real, height: real, limitTop: real, limitBottom: real, minimum: real)
    requires m.safeTop == Some(top) && m.safeBottom == Some(bottom) && m.viewportHeight == Some(height) && height >= 1.0
    requires m.obstacleSafeTop == Some(limitTop) && m.obstacleSafeBottom == Some(limitBottom) && m.minimumHeight == Some(minimum)
    requires 0.0 <= limitTop <= top <= bottom <= limitBottom <= height && 0.0 <= minimum <= limitBottom - limitTop
    ensures var c := ResolvePanelStackCorridor(m);
      var middle := height / 2.0;
      var half := if middle - top < bottom - middle then middle - top else bottom - middle;
      if top < middle < bottom && 2.0 * half >= minimum then c == Corridor(middle - half, middle + half)
      else if bottom - top >= minimum then c == Corridor(top, bottom)
      else if bottom - minimum >= limitTop then c == Corridor(bottom - minimum, bottom)
      else c == Corridor(limitTop, limitTop + minimum)
  {
  }

  /** The result is symmetric about the middle whenever the clipped proposal straddles it with
      the minimum on the shorter side. */
  lemma CorridorCentered(safeTop: Option<real>, safeBottom: Option<real>, l: Limits)
    requires l.top <= l.bottom && l.minimum >= 0.0
    ensures var top := Max(l.top, Min(l.bottom, safeTop.GetOr(0.0)));
      var bottom := Max(top, Min(l.bottom, safeBottom.GetOr(0.0)));
      var c := Resolve(safeTop, safeBottom, l);
      top < l.midpoint < bottom && 2.0 * Min(l.midpoint - top, bottom - l.midpoint) >= l.minimum ==>
        c.top + c.bottom == 2.0 * l.midpoint && top <= c.top && c.bottom <= bottom && (c.top == top || c.bottom == bottom)
  {
  }
}
