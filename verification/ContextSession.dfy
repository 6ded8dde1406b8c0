/** A Context session's bookkeeping (contextModePolicy.js): which layers come back when it ends. */
module ContextSession {
  import opened Js

  datatype Mode = NoMode | Flights | SpaceMissions

  /** A visibility notification. Only the user's and the voice's count as choices. */
  datatype Change = Change(isVisibility: bool, origin: string, layerId: string, enabled: bool, adopted: bool, mode: Mode)

  predicate Companion(layerId: string) {
    layerId == "radio"
  }

  predicate EntryLayer(layerId: string) {
    layerId in {"military-awareness", "rocket-launches"}
  }

  function Dependencies(mode: Mode): set<string> {
    match mode
    case NoMode => {"military-awareness"}
    case Flights => {"military-awareness", "flights", "military", "ais-live-vessels", "military-installations"}
    case SpaceMissions => {"rocket-launches", "satellites"}
  }

  predicate Allowed(mode: Mode, layerId: string) {
    layerId in Dependencies(mode) || Companion(layerId)
  }

  predicate Explicit(c: Change) {
    c.isVisibility && (c.origin == "user" || c.origin == "voice")
  }

  // ---- the session ---------------------------------------------------------

  datatype Snapshot = Snapshot(enabledLayerIds: set<string>, userAdded: set<string>, userRemoved: set<string>)

  /** Detached from the manager: the target of a restore under way wins over what is on now. */
  function Capture(current: set<string>, restoring: Option<set<string>>, exclude: set<string>): Snapshot {
    Snapshot(restoring.GetOr(current) - exclude, {}, {})
  }

  /** An enabled layer the session does not count as an addition: the mode's own, and its entries. */
  predicate Ignored(c: Change) {
    EntryLayer(c.layerId) || (!c.adopted && Allowed(c.mode, c.layerId) && !Companion(c.layerId))
  }

  function Record(s: Snapshot, c: Change): Snapshot {
    if !Explicit(c) then s
    else if c.enabled then
      if Ignored(c) then s
      else s.(userAdded := s.userAdded + {c.layerId},
              userRemoved := if Companion(c.layerId) && !c.adopted then s.userRemoved - {c.layerId} else s.userRemoved)
    else
      s.(userAdded := s.userAdded - {c.layerId},
         userRemoved := if Companion(c.layerId) then s.userRemoved + {c.layerId} else s.userRemoved)
  }

  function RestoreLayerIds(s: Snapshot): set<string> {
    s.enabledLayerIds + s.userAdded - s.userRemoved
  }

  function After(s: Snapshot, run: seq<Change>, n: nat): Snapshot
    requires n <= |run|
  {
    if n == 0 then s else Record(After(s, run, n - 1), run[n - 1])
  }

  // ---- the last choice -----------------------------------------------------

  /** The user's last recorded choice about the layer in the first n changes. */
  function LastChoice(run: seq<Change>, n: nat, layerId: string): (c: Option<Change>)
    requires n <= |run|
    ensures c.Some? ==> Explicit(c.value) && c.value.layerId == layerId
  {
    if n == 0 then None
    else
      var c := run[n - 1];
      if Explicit(c) && c.layerId == layerId && !(c.enabled && Ignored(c)) then Some(c)
      else LastChoice(run, n - 1, layerId)
  }

  /** A companion was turned off and since then not back on by an ordinary change. */
  predicate LeftOff(run: seq<Change>, n: nat, layerId: string)
    requires n <= |run|
  {
    n > 0 &&
    var c := run[n - 1];
    if Explicit(c) && c.layerId == layerId && !c.enabled then true
    else if Explicit(c) && c.layerId == layerId && !c.adopted then false
    else LeftOff(run, n - 1, layerId)
  }

  lemma {:induction false} Tracks(s: Snapshot, run: seq<Change>, n: nat, layerId: string)
    requires s.userAdded == {} && s.userRemoved == {} && n <= |run|
    ensures var t, last := After(s, run, n), LastChoice(run, n, layerId);
      && t.enabledLayerIds == s.enabledLayerIds
      && (layerId in t.userAdded <==> last.Some? && last.value.enabled)
      && (layerId in t.userRemoved <==> Companion(layerId) && LeftOff(run, n, layerId))
  {
    if n > 0 {
      Tracks(s, run, n - 1, layerId);
    }
  }

  /** What a session restores. A companion follows the last choice made about it, except that one
      turned off and then only adopted from a selection stays off. Any other layer comes back when
      it was on before the session, whatever was chosen since, or when the last recorded choice
      turned it on. */
  lemma RestoresExactly(s: Snapshot, run: seq<Change>, layerId: string)
    requires s.userAdded == {} && s.userRemoved == {}
    ensures var restored, last := layerId in RestoreLayerIds(After(s, run, |run|)), LastChoice(run, |run|, layerId);
      if Companion(layerId) then
        restored <==> !LeftOff(run, |run|, layerId) && (layerId in s.enabledLayerIds || (last.Some? && last.value.enabled))
      else
        restored <==> layerId in s.enabledLayerIds || (last.Some? && last.value.enabled)
  {
    Tracks(s, run, |run|, layerId);
  }

  /** The last recorded choice decides if and only if it does not turn off a layer that was on
      before and is no companion, nor adopt a companion that was left off. */
  lemma LastChoiceDecides(s: Snapshot, run: seq<Change>, layerId: string)
    requires s.userAdded == {} && s.userRemoved == {} && LastChoice(run, |run|, layerId).Some?
    ensures var last := LastChoice(run, |run|, layerId).value;
      (layerId in RestoreLayerIds(After(s, run, |run|)) <==> last.enabled) <==>
        if last.enabled then !(Companion(layerId) && LeftOff(run, |run|, layerId))
        else Companion(layerId) || layerId !in s.enabledLayerIds
  {
    Tracks(s, run, |run|, layerId);
    if Companion(layerId) && !LastChoice(run, |run|, layerId).value.enabled {
      OffIsLeftOff(run, |run|, layerId);
    }
  }

  /** Selections adopt tracked layers only, as every caller does: flights, military, satellites. */
  predicate AdoptsTracked(run: seq<Change>) {
    forall k :: 0 <= k < |run| && run[k].adopted ==> run[k].layerId in {"flights", "military", "satellites"}
  }

  lemma {:induction false} OnIsNotLeftOff(run: seq<Change>, n: nat, layerId: string)
    requires n <= |run| && Companion(layerId) && AdoptsTracked(run)
    requires LastChoice(run, n, layerId).Some? && LastChoice(run, n, layerId).value.enabled
    ensures !LeftOff(run, n, layerId)
  {
    if !(Explicit(run[n - 1]) && run[n - 1].layerId == layerId) {
      OnIsNotLeftOff(run, n - 1, layerId);
    }
  }

  /** As the layers are bound, the last recorded choice decides exactly unless it turns off a layer
      that was on before the session and is no companion: that one comes back. */
  lemma LastChoiceDecidesAsBound(s: Snapshot, run: seq<Change>, layerId: string)
    requires s.userAdded == {} && s.userRemoved == {} && LastChoice(run, |run|, layerId).Some? && AdoptsTracked(run)
    ensures var last := LastChoice(run, |run|, layerId).value;
      (layerId in RestoreLayerIds(After(s, run, |run|)) <==> last.enabled) <==>
        !(!last.enabled && !Companion(layerId) && layerId in s.enabledLayerIds)
  {
    LastChoiceDecides(s, run, layerId);
    if Companion(layerId) && LastChoice(run, |run|, layerId).value.enabled {
      OnIsNotLeftOff(run, |run|, layerId);
    }
  }

  lemma {:induction false} OffIsLeftOff(run: seq<Change>, n: nat, layerId: string)
    requires n <= |run| && Companion(layerId) && LastChoice(run, n, layerId).Some? && !LastChoice(run, n, layerId).value.enabled
    ensures LeftOff(run, n, layerId)
  {
    if !(Explicit(run[n - 1]) && run[n - 1].layerId == layerId) {
      OffIsLeftOff(run, n - 1, layerId);
    }
  }

  // ---- in the words of the changes -----------------------------------------

  /** The layers a mode brings along itself. */
  predicate BelongsTo(mode: Mode, layerId: string) {
    || (mode == NoMode && layerId == "military-awareness")
    || (mode == Flights && layerId in {"military-awareness", "flights", "military", "ais-live-vessels", "military-installations"})
    || (mode == SpaceMissions && layerId in {"rocket-launches", "satellites"})
  }

  /** The user, by hand or by voice, sets the layer's visibility. */
  predicate Sets(c: Change, layerId: string, enabled: bool) {
    c.isVisibility && c.origin in {"user", "voice"} && c.layerId == layerId && c.enabled == enabled
  }

  /** And the session counts it as an addition: not for the layers that enter a mode, nor, unless it
      is adopted from a selection, for those the mode brings along. */
  predicate Adds(c: Change, layerId: string) {
    && Sets(c, layerId, true)
    && layerId !in {"military-awareness", "rocket-launches"}
    && (c.adopted || layerId == "radio" || !BelongsTo(c.mode, layerId))
  }

  /** Among the first n changes the layer was added and not turned off since. */
  predicate StaysAdded(run: seq<Change>, n: nat, layerId: string)
    requires n <= |run|
  {
    exists k :: 0 <= k < n && Adds(run[k], layerId) && forall j :: k < j < n ==> !Sets(run[j], layerId, false)
  }

  /** Among them it was turned off and not added by an ordinary change since. */
  predicate StaysOff(run: seq<Change>, n: nat, layerId: string)
    requires n <= |run|
  {
    exists k :: 0 <= k < n && Sets(run[k], layerId, false) && forall j :: k < j < n ==> !(Sets(run[j], layerId, true) && !run[j].adopted)
  }

  lemma StaysAddedStep(run: seq<Change>, n: nat, layerId: string)
    requires 0 < n <= |run|
    ensures StaysAdded(run, n, layerId) <==>
      Adds(run[n - 1], layerId) || (StaysAdded(run, n - 1, layerId) && !Sets(run[n - 1], layerId, false))
  {
    hide Adds, Sets;
    if StaysAdded(run, n - 1, layerId) && !Sets(run[n - 1], layerId, false) {
      var k :| 0 <= k < n - 1 && Adds(run[k], layerId) && forall j :: k < j < n - 1 ==> !Sets(run[j], layerId, false);
      assert StaysAdded(run, n, layerId);
    }
    if Adds(run[n - 1], layerId) {
      assert StaysAdded(run, n, layerId);
    }
  }

  lemma StaysOffStep(run: seq<Change>, n: nat, layerId: string)
    requires 0 < n <= |run|
    ensures StaysOff(run, n, layerId) <==>
      Sets(run[n - 1], layerId, false) || (StaysOff(run, n - 1, layerId) && !(Sets(run[n - 1], layerId, true) && !run[n - 1].adopted))
  {
    hide Sets;
    if StaysOff(run, n - 1, layerId) && !(Sets(run[n - 1], layerId, true) && !run[n - 1].adopted) {
      var k :| 0 <= k < n - 1 && Sets(run[k], layerId, false) && forall j :: k < j < n - 1 ==> !(Sets(run[j], layerId, true) && !run[j].adopted);
      assert StaysOff(run, n, layerId);
    }
    if Sets(run[n - 1], layerId, false) {
      assert StaysOff(run, n, layerId);
    }
  }

  lemma {:induction false} SessionHolds(s: Snapshot, run: seq<Change>, n: nat, layerId: string)
    requires s.userAdded == {} && s.userRemoved == {} && n <= |run|
    ensures var t := After(s, run, n);
      && t.enabledLayerIds == s.enabledLayerIds
      && (layerId in t.userAdded <==> StaysAdded(run, n, layerId))
      && (layerId in t.userRemoved <==> layerId == "radio" && StaysOff(run, n, layerId))
  {
    hide StaysAdded, StaysOff, Record;
    if n > 0 {
      SessionHolds(s, run, n - 1, layerId);
      StaysAddedStep(run, n, layerId);
      StaysOffStep(run, n, layerId);
      RecordStep(After(s, run, n - 1), run[n - 1], layerId);
    } else {
      NothingYet(run, layerId);
    }
  }

  lemma NothingYet(run: seq<Change>, layerId: string)
    ensures !StaysAdded(run, 0, layerId) && !StaysOff(run, 0, layerId)
  {
  }

  /** What one change does to one layer. */
  lemma RecordStep(s: Snapshot, c: Change, layerId: string)
    ensures var t := Record(s, c);
      && t.enabledLayerIds == s.enabledLayerIds
      && (layerId in t.userAdded <==> Adds(c, layerId) || (layerId in s.userAdded && !Sets(c, layerId, false)))
      && (layerId in t.userRemoved <==>
            || (layerId == "radio" && Sets(c, layerId, false))
            || (layerId in s.userRemoved && !(layerId == "radio" && Sets(c, layerId, true) && !c.adopted)))
  {
  }

  /** What comes back when a session ends, in the changes' own words. A session begins with the
      layers that were on, or those a restore under way would turn on, less the excluded ones. A
      layer comes back when it was among these or was added and not turned off since; the radio,
      moreover, only if it was not turned off and then left alone or merely adopted. */
  lemma ComesBackExactly(current: set<string>, restoring: Option<set<string>>, exclude: set<string>, run: seq<Change>, layerId: string)
    ensures var before := layerId !in exclude && (if restoring.Some? then layerId in restoring.value else layerId in current);
      layerId in RestoreLayerIds(After(Capture(current, restoring, exclude), run, |run|)) <==>
        && (before || StaysAdded(run, |run|, layerId))
        && (layerId == "radio" ==> !StaysOff(run, |run|, layerId))
  {
    SessionHolds(Capture(current, restoring, exclude), run, |run|, layerId);
  }

  // ---- the objects ---------------------------------------------------------

  class Session {
    const enabledLayerIds: set<string>
    var userAdded: set<string>
    var userRemoved: set<string>

    ghost function State(): Snapshot
      reads this
    {
      Snapshot(enabledLayerIds, userAdded, userRemoved)
    }

    constructor (current: set<string>, restoring: Option<set<string>>, exclude: set<string>)
      ensures State() == Capture(current, restoring, exclude)
    {
      enabledLayerIds := restoring.GetOr(current) - exclude;
      userAdded, userRemoved := {}, {};
    }

    /** Whether the change was recorded as one. */
    method RecordContextSessionUserChange(c: Change) returns (modified: bool)
      modifies this
      ensures State() == Record(old(State()), c)
      ensures modified ==> Explicit(c)
      ensures !modified ==> State() == old(State())
    {
      if !Explicit(c) {
        return false;
      }
      var isCompanion := Companion(c.layerId);
      if c.enabled {
        if EntryLayer(c.layerId) {
          return false;
        }
        if c.adopted {
          userAdded := userAdded + {c.layerId};
          return true;
        }
        if Allowed(c.mode, c.layerId) && !isCompanion {
          return false;
        }
        userAdded := userAdded + {c.layerId};
        if isCompanion {
          userRemoved := userRemoved - {c.layerId};
        }
        return true;
      }
      var removedAddition := c.layerId in userAdded;
      userAdded := userAdded - {c.layerId};
      if isCompanion {
        var wasRemoved := c.layerId in userRemoved;
        userRemoved := userRemoved + {c.layerId};
        return removedAddition || !wasRemoved;
      }
      return removedAddition;
    }
  }

  /** A restore under way, and the choices made while it is queued. */
  datatype Restoring = Restoring(enabledLayerIds: set<string>, choices: map<string, bool>)

  function RecordRestore(r: Restoring, c: Change): Restoring {
    if !Explicit(c) then r
    else Restoring(if c.enabled then r.enabledLayerIds + {c.layerId} else r.enabledLayerIds - {c.layerId},
                   r.choices[c.layerId := c.enabled])
  }

  function AfterRestore(r: Restoring, run: seq<Change>, n: nat): Restoring
    requires n <= |run|
  {
    if n == 0 then r else RecordRestore(AfterRestore(r, run, n - 1), run[n - 1])
  }

  function LastExplicit(run: seq<Change>, n: nat, layerId: string): Option<bool>
    requires n <= |run|
  {
    if n == 0 then None
    else if Explicit(run[n - 1]) && run[n - 1].layerId == layerId then Some(run[n - 1].enabled)
    else LastExplicit(run, n - 1, layerId)
  }

  /** During a queued restore the last explicit choice about a layer always wins, both in what is
      restored and in what is replayed; layers nobody chose about are restored as they were. */
  lemma {:induction false} LastExplicitWins(r: Restoring, run: seq<Change>, n: nat, layerId: string)
    requires n <= |run| && r.choices == map[]
    ensures var t, last := AfterRestore(r, run, n), LastExplicit(run, n, layerId);
      && (layerId in t.enabledLayerIds <==> last.GetOr(layerId in r.enabledLayerIds))
      && (layerId in t.choices <==> last.Some?)
      && (last.Some? ==> t.choices[layerId] == last.value)
  {
    if n > 0 {
      LastExplicitWins(r, run, n - 1, layerId);
    }
  }

  /** In the changes' own words: change k is the last in which the user sets the layer. */
  predicate LastSet(run: seq<Change>, n: nat, layerId: string, k: nat, enabled: bool)
    requires n <= |run|
  {
    k < n && Sets(run[k], layerId, enabled) && forall j :: k < j < n ==> !Sets(run[j], layerId, true) && !Sets(run[j], layerId, false)
  }

  /** Whatever the user last set during a queued restore is what is restored and replayed. */
  lemma {:induction false} LastSetWins(r: Restoring, run: seq<Change>, n: nat, layerId: string, k: nat, enabled: bool)
    requires n <= |run| && LastSet(run, n, layerId, k, enabled)
    ensures var t := AfterRestore(r, run, n);
      (layerId in t.enabledLayerIds <==> enabled) && layerId in t.choices && t.choices[layerId] == enabled
  {
    if k < n - 1 {
      LastSetWins(r, run, n - 1, layerId, k, enabled);
      assert !Sets(run[n - 1], layerId, true) && !Sets(run[n - 1], layerId, false);
    }
  }
}
