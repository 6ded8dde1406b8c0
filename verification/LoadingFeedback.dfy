/** The loading chip (loadingFeedback.js): manager samples reduced to a batch that appears late,
    never flickers, and ends with its worst outcome. */
module LoadingFeedback {
  import opened Js

  const REVEAL_DELAY_MS := 160.0
  const TERMINAL_DWELL_MS := 2200.0
  const FAILURE_DWELL_MS := 5000.0
  const TRAFFIC_SYNC_CONFIRM_MS := 1500.0

  // ---- one layer -----------------------------------------------------------

  datatype Stats = Stats(status: string, loading: bool, refreshing: bool, count: int, hasUpdate: bool,
                         error: bool, lastError: bool, managerRefreshError: bool, unavailable: bool,
                         available: Option<bool>, keyRequired: bool, missingKey: bool)

  datatype Layer = Layer(id: string, enabled: bool, lifecycleState: string, stats: Stats)

  datatype Record = Record(id: string, loading: bool, disabling: bool, refresh: bool,
                           error: bool, unavailable: bool, keyRequired: bool)

  predicate Guidance(status: string) {
    status in {"zoom-in", "empty", "idle"}
  }

  function NormalizeLayerLoading(layer: Layer): Record {
    var s := layer.stats;
    var state := if layer.lifecycleState != "" then layer.lifecycleState else if layer.enabled then "enabled" else "disabled";
    var disabling := state == "disabling";
    var loading := state == "enabling" || disabling || s.loading || s.refreshing;
    var stopping := layer.id in {"military-installations", "alpr-cameras"} && disabling;
    Record(layer.id, loading, disabling,
           loading && layer.enabled && (s.refreshing || s.hasUpdate || s.count > 0),
           !stopping && ((!Guidance(s.status) && s.error) || s.lastError || s.managerRefreshError),
           !stopping && (s.unavailable || s.available == Some(false) || s.status in {"unavailable", "offline", "down", "error"}),
           s.keyRequired || s.missingKey)
  }

  predicate Fails(r: Record) {
    r.error || r.unavailable || r.keyRequired
  }

  /** A prompt stored beside a guidance status cannot turn the chip red: whether the record fails
      does not depend on it. */
  lemma GuidanceIsNoFault(layer: Layer)
    requires Guidance(layer.stats.status)
    ensures Fails(NormalizeLayerLoading(layer)) == Fails(NormalizeLayerLoading(layer.(stats := layer.stats.(error := false))))
  {
  }

  /** The state a layer is in: the one it reports, or else the one its switch stands for. */
  predicate InState(layer: Layer, state: string) {
    if layer.lifecycleState == "" then state == (if layer.enabled then "enabled" else "disabled") else state == layer.lifecycleState
  }

  /** When a layer counts as loading, as switching off, and as refreshing what it already shows. */
  lemma LoadsExactly(layer: Layer, state: string)
    requires InState(layer, state)
    ensures var r, s := NormalizeLayerLoading(layer), layer.stats;
      && r.id == layer.id
      && (r.disabling <==> state == "disabling")
      && (r.loading <==> state in {"enabling", "disabling"} || s.loading || s.refreshing)
      && (r.refresh <==> r.loading && layer.enabled && (s.refreshing || s.hasUpdate || s.count >= 1))
  {
  }

  /** When a layer counts as failed: without a key; or, unless it is one of the two feeds that are torn
      down while switching off, by an error beside any status that is no guidance, by an earlier or
      the manager's error, or by being unavailable in word or status. */
  lemma FailsExactly(layer: Layer, state: string)
    requires InState(layer, state)
    ensures var s := layer.stats;
      var stopping := state == "disabling" && (layer.id == "military-installations" || layer.id == "alpr-cameras");
      Fails(NormalizeLayerLoading(layer)) <==>
        || s.keyRequired || s.missingKey
        || (!stopping && s.error && s.status != "zoom-in" && s.status != "empty" && s.status != "idle")
        || (!stopping && (s.lastError || s.managerRefreshError || s.unavailable || s.available == Some(false)))
        || (!stopping && s.status in {"unavailable", "offline", "down", "error"})
  {
  }

  // ---- outcomes ------------------------------------------------------------

  datatype Outcome = Complete | Cancelled | Error

  function Severity(o: Outcome): nat {
    match o case Complete => 1 case Cancelled => 2 case Error => 3
  }

  function MergeTerminalOutcome(current: Option<Outcome>, next: Option<Outcome>): Option<Outcome> {
    if next.None? then current
    else if current.None? || Severity(next.value) > Severity(current.value) then next
    else current
  }

  datatype Event = Event(layerId: string, kind: string, error: bool, cancelled: bool)

  function TerminalFromEvent(e: Event): Option<Outcome> {
    if e.kind == "visibility-failed" || e.kind == "refresh-failed" || e.error then Some(Error)
    else if e.kind == "visibility-cancelled" || e.cancelled then Some(Cancelled)
    else if e.kind == "visibility" || e.kind == "refresh" then Some(Complete)
    else None
  }

  /** What an event says about a layer that takes part: an error, else a cancellation, else a
      completion, else nothing. */
  lemma EventSays(e: Event, ids: set<string>)
    requires e.layerId != "" && e.layerId in ids
    ensures var failed := e.error || e.kind in {"visibility-failed", "refresh-failed"};
      var cancelled := e.cancelled || e.kind == "visibility-cancelled";
      && (EventOutcome(Some(e), ids) == Some(Error) <==> failed)
      && (EventOutcome(Some(e), ids) == Some(Cancelled) <==> !failed && cancelled)
      && (EventOutcome(Some(e), ids) == Some(Complete) <==> !failed && !cancelled && e.kind in {"visibility", "refresh"})
  {
  }

  /** An event of a layer that takes no part says nothing, and neither does no event. */
  lemma OthersSayNothing(e: Option<Event>, ids: set<string>)
    requires e.Some? ==> e.value.layerId == "" || e.value.layerId !in ids
    ensures EventOutcome(e, ids) == None
  {
  }

  // ---- the reducer ---------------------------------------------------------

  /** One sample of the manager; a reading of the clock that is no number counts as zero. */
  datatype Sample = Sample(records: seq<Record>, nowMs: Option<real>, event: Option<Event>)
  {
    function Now(): real {
      nowMs.GetOr(0.0)
    }

    function ActiveIds(): set<string> {
      set r <- records | r.loading :: r.id
    }

    predicate Active() {
      exists r <- records :: r.loading
    }

    predicate Disabling() {
      Active() && forall r <- records :: r.loading ==> r.disabling
    }

    predicate Refresh() {
      Active() && !Disabling() && forall r <- records :: r.loading ==> r.refresh
    }
  }

  datatype Phase = Idle | Loading | Terminal
  datatype Operation = NoOperation | Disables | Refreshes | Loads

  datatype State = State(phase: Phase, visible: bool, startedAt: real, showAt: real, hideAt: real,
                         activeIds: set<string>, batchOutcome: Option<Outcome>, terminal: Option<Outcome>,
                         operation: Operation, failedEventIds: set<string>)

  function CreateState(): State {
    State(Idle, false, 0.0, 0.0, 0.0, {}, None, None, NoOperation, {})
  }

  function TerminalFromParticipantStats(s: Sample, ids: set<string>): Option<Outcome> {
    if exists r <- s.records :: r.id in ids && Fails(r) then Some(Error) else None
  }

  predicate Participates(e: Option<Event>, ids: set<string>) {
    e.Some? && e.value.layerId != "" && e.value.layerId in ids
  }

  function EventOutcome(e: Option<Event>, ids: set<string>): Option<Outcome> {
    if Participates(e, ids) then TerminalFromEvent(e.value) else None
  }

  function FailedIds(e: Option<Event>, ids: set<string>): set<string> {
    if EventOutcome(e, ids) == Some(Error) then {e.value.layerId} else {}
  }

  function Merged(before: Option<Outcome>, s: Sample, ids: set<string>): Option<Outcome> {
    MergeTerminalOutcome(MergeTerminalOutcome(before, TerminalFromParticipantStats(s, ids)), EventOutcome(s.event, ids))
  }

  function Reduce(state: State, s: Sample): State {
    var now := s.Now();
    if s.Active() then
      var beginning := state.phase != Loading;
      var ids := (if beginning then {} else state.activeIds) + s.ActiveIds();
      State(Loading, !beginning && now >= state.showAt,
            if beginning then now else state.startedAt,
            if beginning then now + REVEAL_DELAY_MS else state.showAt,
            0.0, ids,
            Merged(if beginning then None else state.batchOutcome, s, ids),
            None,
            if s.Disabling() then Disables else if s.Refresh() then Refreshes else Loads,
            (if beginning then {} else state.failedEventIds) + FailedIds(s.event, ids))
    else if state.phase == Loading then
      var terminal := Merged(state.batchOutcome, s, state.activeIds).GetOr(Complete);
      var wasVisible := state.visible || now >= state.showAt;
      if !wasVisible && terminal == Complete then CreateState()
      else
        state.(phase := Terminal, visible := true,
               hideAt := now + if terminal == Error then FAILURE_DWELL_MS else TERMINAL_DWELL_MS,
               batchOutcome := Some(terminal), terminal := Some(terminal),
               failedEventIds := state.failedEventIds + FailedIds(s.event, state.activeIds))
    else if state.phase == Terminal && now < state.hideAt then state
    else CreateState()
  }

  /** The state after the first n samples. */
  function After(start: State, run: seq<Sample>, n: nat): State
    requires n <= |run|
  {
    if n == 0 then start else Reduce(After(start, run, n - 1), run[n - 1])
  }

  // ---- a batch -------------------------------------------------------------

  predicate InTime(run: seq<Sample>) {
    forall i, j :: 0 <= i <= j < |run| ==> run[i].Now() <= run[j].Now()
  }

  /** The run is one batch: every sample but the last has an active layer, the last has none. */
  predicate IsBatch(run: seq<Sample>) {
    |run| >= 2 && (forall k :: 0 <= k < |run| - 1 ==> run[k].Active()) && !run[|run| - 1].Active()
  }

  /** The layers that were active at some sample of the first n. */
  function Participants(run: seq<Sample>, n: nat): set<string>
    requires n <= |run|
  {
    if n == 0 then {} else Participants(run, n - 1) + run[n - 1].ActiveIds()
  }

  /** Those that take part when sample k is reduced: the last sample of a batch adds none. */
  function PartiesAt(run: seq<Sample>, k: nat): set<string>
    requires k < |run|
  {
    Participants(run, k + 1)
  }

  predicate StatsFailAt(run: seq<Sample>, k: nat)
    requires k < |run|
  {
    exists r <- run[k].records :: r.id in PartiesAt(run, k) && Fails(r)
  }

  /** The worst that happens to a participant in the first n samples, told without an order:
      an error if anything failed, else a cancellation if anything was cancelled, else a
      completion if an event says so. */
  predicate WorstIs(run: seq<Sample>, n: nat, worst: Option<Outcome>)
    requires n <= |run|
  {
    && (worst == Some(Error) <==> exists k :: 0 <= k < n && (StatsFailAt(run, k) || EventOutcome(run[k].event, PartiesAt(run, k)) == Some(Error)))
    && (worst == Some(Cancelled) ==> exists k :: 0 <= k < n && EventOutcome(run[k].event, PartiesAt(run, k)) == Some(Cancelled))
    && (worst != Some(Error) && worst != Some(Cancelled) ==> forall k :: 0 <= k < n ==> EventOutcome(run[k].event, PartiesAt(run, k)) != Some(Cancelled))
    && (worst == None ==> forall k :: 0 <= k < n ==> EventOutcome(run[k].event, PartiesAt(run, k)) == None)
  }

  lemma MergedIs(before: Option<Outcome>, s: Sample, ids: set<string>)
    ensures var after, fails, told := Merged(before, s, ids), TerminalFromParticipantStats(s, ids).Some?, EventOutcome(s.event, ids);
      && (after == Some(Error) <==> before == Some(Error) || fails || told == Some(Error))
      && (after == Some(Cancelled) <==> (before == Some(Cancelled) || told == Some(Cancelled)) && !(before == Some(Error) || fails || told == Some(Error)))
      && (after == None <==> before == None && !fails && told == None)
  {
    hide TerminalFromEvent;
  }

  lemma WorstGrows(run: seq<Sample>, n: nat, before: Option<Outcome>)
    requires n < |run| && WorstIs(run, n, before)
    ensures WorstIs(run, n + 1, Merged(before, run[n], PartiesAt(run, n)))
  {
    var after := Merged(before, run[n], PartiesAt(run, n));
    MergedIs(before, run[n], PartiesAt(run, n));
    assert StatsFailAt(run, n) == TerminalFromParticipantStats(run[n], PartiesAt(run, n)).Some?;
    hide Merged, EventOutcome, StatsFailAt, PartiesAt, TerminalFromParticipantStats;
  }

  lemma ActiveIdsNone(s: Sample)
    requires !s.Active()
    ensures s.ActiveIds() == {}
  {
  }

  /** What the state holds while a batch runs. */
  lemma {:induction false} WithinBatch(start: State, run: seq<Sample>, n: nat)
    requires start.phase != Loading && 0 < n <= |run| && forall k :: 0 <= k < n ==> run[k].Active()
    ensures var t := After(start, run, n);
      && t.phase == Loading && t.startedAt == run[0].Now() && t.showAt == run[0].Now() + 160.0
      && t.activeIds == Participants(run, n) && t.hideAt == 0.0 && t.terminal.None?
      && WorstIs(run, n, t.batchOutcome)
      && (t.visible <==> n > 1 && run[n - 1].Now() >= t.showAt)
  {
    if n == 1 {
      assert After(start, run, 0) == start && Participants(run, 0) == {};
      WorstGrows(run, 0, None);
    } else {
      WithinBatch(start, run, n - 1);
      WorstGrows(run, n - 1, After(start, run, n - 1).batchOutcome);
    }
    hide WorstIs, Merged, FailedIds;
  }

  /** The worst outcome is one outcome. */
  lemma SameWorst(run: seq<Sample>, n: nat, a: Option<Outcome>, b: Option<Outcome>)
    requires n <= |run| && WorstIs(run, n, a) && WorstIs(run, n, b)
    ensures a.GetOr(Complete) == b.GetOr(Complete)
  {
    hide StatsFailAt, EventOutcome, PartiesAt;
  }

  lemma LastSample(start: State, run: seq<Sample>)
    requires start.phase != Loading && IsBatch(run)
    ensures var n, before := |run|, After(start, run, |run| - 1);
      && After(start, run, n) == Reduce(before, run[n - 1])
      && before.phase == Loading && before.activeIds == PartiesAt(run, n - 1) == Participants(run, n)
      && before.showAt == run[0].Now() + REVEAL_DELAY_MS
      && WorstIs(run, n, Merged(before.batchOutcome, run[n - 1], before.activeIds))
  {
    hide WorstIs, Merged, Reduce;
    var n := |run|;
    WithinBatch(start, run, n - 1);
    ActiveIdsNone(run[n - 1]);
    WorstGrows(run, n - 1, After(start, run, n - 1).batchOutcome);
  }

  /** A batch ends with the worst that happened to any layer that took part in it, by its stats or
      by an event, in whatever order; a batch to which nothing happened completes. It ends hidden
      only when it completes before it was ever shown. */
  lemma BatchEndsWithWorst(start: State, run: seq<Sample>, worst: Option<Outcome>)
    requires start.phase != Loading && IsBatch(run) && WorstIs(run, |run|, worst)
    ensures var t, n, outcome := After(start, run, |run|), |run|, worst.GetOr(Complete);
      var shown := After(start, run, n - 1).visible || run[n - 1].Now() >= run[0].Now() + 160.0;
      if !shown && outcome == Complete then t == CreateState()
      else
        && t.phase == Terminal && t.visible && t.terminal == Some(outcome)
        && t.activeIds == Participants(run, n)
        && t.hideAt == run[n - 1].Now() + if outcome == Error then 5000.0 else 2200.0
  {
    hide WorstIs, Merged, FailedIds, After, Participants, PartiesAt;
    LastSample(start, run);
    var n, before := |run|, After(start, run, |run| - 1);
    var merged := Merged(before.batchOutcome, run[n - 1], before.activeIds);
    SameWorst(run, n, worst, merged);
  }

  /** Layers a failing event named while they took part, in the first n samples. */
  ghost predicate FailedBy(run: seq<Sample>, n: nat, id: string)
    requires n <= |run|
  {
    exists k :: 0 <= k < n && run[k].event.Some? && run[k].event.value.layerId == id && EventOutcome(run[k].event, PartiesAt(run, k)) == Some(Error)
  }

  lemma FailedStep(run: seq<Sample>, n: nat, ids: set<string>, id: string)
    requires 0 < n <= |run| && ids == PartiesAt(run, n - 1)
    ensures FailedBy(run, n, id) <==> FailedBy(run, n - 1, id) || id in FailedIds(run[n - 1].event, ids)
  {
    hide TerminalFromEvent, PartiesAt;
    assert id in FailedIds(run[n - 1].event, ids) ==> EventOutcome(run[n - 1].event, PartiesAt(run, n - 1)) == Some(Error);
  }

  /** The layers remembered as failed are those that a failing event named, until the batch ends and
      beyond. */
  lemma {:induction false} RemembersFailed(start: State, run: seq<Sample>, n: nat, id: string)
    requires start.phase != Loading && 0 < n < |run| && IsBatch(run)
    ensures id in After(start, run, n).failedEventIds <==> FailedBy(run, n, id)
  {
    WithinBatch(start, run, n);
    FailedStep(run, n, PartiesAt(run, n - 1), id);
    if n == 1 {
      assert After(start, run, 0) == start;
      assert !FailedBy(run, 0, id);
    } else {
      WithinBatch(start, run, n - 1);
      RemembersFailed(start, run, n - 1, id);
    }
    hide EventOutcome, FailedIds, Merged, WorstIs;
  }

  lemma RemembersFailedToEnd(start: State, run: seq<Sample>, id: string)
    requires start.phase != Loading && IsBatch(run) && After(start, run, |run|).phase == Terminal
    ensures id in After(start, run, |run|).failedEventIds <==> FailedBy(run, |run|, id)
  {
    hide EventOutcome, FailedIds, Merged, WorstIs, After, PartiesAt, FailedBy, Reduce;
    var n := |run|;
    LastSample(start, run);
    RemembersFailed(start, run, n - 1, id);
    FailedStep(run, n, PartiesAt(run, n - 1), id);
    ActiveIdsNone(run[n - 1]);
    FailsAtEnd(After(start, run, n - 1), run[n - 1]);
  }

  lemma FailsAtEnd(before: State, s: Sample)
    requires before.phase == Loading && !s.Active() && Reduce(before, s).phase == Terminal
    ensures Reduce(before, s).failedEventIds == before.failedEventIds + FailedIds(s.event, before.activeIds)
  {
    hide FailedIds, Merged;
  }

  /** What the chip says is going on: switching off when every active layer is, else refreshing when
      every active one refreshes what it shows, else loading. */
  lemma SaysWhatGoesOn(state: State, s: Sample)
    requires exists r <- s.records :: r.loading
    ensures var off, again := forall r <- s.records :: r.loading ==> r.disabling, forall r <- s.records :: r.loading ==> r.refresh;
      Reduce(state, s).operation == if off then Disables else if again then Refreshes else Loads
  {
  }

  /** A clock that is no number counts as zero. */
  lemma NoClockIsZero(state: State, s: Sample, traffic: Traffic, p: Poll)
    ensures Reduce(state, s.(nowMs := None)) == Reduce(state, s.(nowMs := Some(0.0)))
    ensures ReduceTraffic(traffic, p.(nowMs := None)) == ReduceTraffic(traffic, p.(nowMs := Some(0.0)))
  {
    var none, zero := s.(nowMs := None), s.(nowMs := Some(0.0));
    assert none.ActiveIds() == zero.ActiveIds() && none.Active() == zero.Active();
    assert none.Disabling() == zero.Disabling() && none.Refresh() == zero.Refresh();
    forall before: Option<Outcome>, ids: set<string>
      ensures Merged(before, none, ids) == Merged(before, zero, ids)
    {
    }
    hide Merged, FailedIds;
  }

  /** A chip at rest shows and remembers nothing. */
  lemma {:induction false} RestsEmpty(run: seq<Sample>, n: nat)
    requires n <= |run|
    ensures var t := After(CreateState(), run, n);
      t.phase == Idle ==> t == State(Idle, false, 0.0, 0.0, 0.0, {}, None, None, NoOperation, {})
  {
    if n > 0 {
      RestsEmpty(run, n - 1);
    }
    hide Merged, FailedIds;
  }

  lemma WorstOfNone(run: seq<Sample>)
    ensures WorstIs(run, 0, None)
  {
  }

  lemma {:induction false} WorstExists(run: seq<Sample>, n: nat) returns (worst: Option<Outcome>)
    requires n <= |run|
    ensures WorstIs(run, n, worst)
  {
    hide WorstIs, Merged, PartiesAt;
    if n == 0 {
      WorstOfNone(run);
      worst := None;
    } else {
      var before := WorstExists(run, n - 1);
      WorstGrows(run, n - 1, before);
      worst := Merged(before, run[n - 1], PartiesAt(run, n - 1));
    }
  }

  lemma NoFlickerWithin(start: State, run: seq<Sample>, i: nat, j: nat)
    requires start.phase != Loading && IsBatch(run) && InTime(run) && 0 < i <= j < |run| && After(start, run, i).visible
    ensures After(start, run, j).visible
  {
    hide After, WorstIs, Participants;
    WithinBatch(start, run, i);
    WithinBatch(start, run, j);
  }

  /** With time moving forward, a batch once shown stays shown to its end, and its outcome with it. */
  lemma NoFlicker(start: State, run: seq<Sample>, i: nat, j: nat)
    requires start.phase != Loading && IsBatch(run) && InTime(run) && 0 < i <= j <= |run| && After(start, run, i).visible
    ensures After(start, run, j).visible
  {
    hide After, WorstIs, Participants, InTime;
    if j < |run| {
      NoFlickerWithin(start, run, i, j);
    } else if i < j {
      NoFlickerWithin(start, run, i, j - 1);
      var worst := WorstExists(run, j);
      BatchEndsWithWorst(start, run, worst);
    }
  }

  /** A batch is never shown, not even at its end, if and only if it ends before 160 ms have passed
      and nothing in it failed or was cancelled. */
  lemma NeverShownExactly(start: State, run: seq<Sample>, worst: Option<Outcome>)
    requires start.phase != Loading && IsBatch(run) && InTime(run) && WorstIs(run, |run|, worst)
    ensures (forall k :: 0 < k <= |run| ==> !After(start, run, k).visible)
       <==> run[|run| - 1].Now() < run[0].Now() + 160.0 && worst.GetOr(Complete) == Complete
  {
    hide WorstIs, Reduce, After, Participants;
    var n := |run|;
    BatchEndsWithWorst(start, run, worst);
    forall k | 0 < k < n
      ensures After(start, run, k).visible ==> run[n - 1].Now() >= run[0].Now() + REVEAL_DELAY_MS
    {
      WithinBatch(start, run, k);
    }
  }

  /** The outcome stays on screen until its time is up, and no longer, unless a new batch begins. */
  lemma {:induction false} OutcomeDwells(start: State, run: seq<Sample>, n: nat)
    requires start.phase == Terminal && start.visible && InTime(run) && n <= |run|
    requires forall k :: 0 <= k < |run| ==> !run[k].Active()
    ensures After(start, run, n) == if n == 0 || run[n - 1].Now() < start.hideAt then start else CreateState()
  {
    if n > 0 {
      OutcomeDwells(start, run, n - 1);
    }
  }

  // ---- the traffic chip ----------------------------------------------------

  datatype Traffic = Traffic(busy: bool, visible: bool, confirmationUntil: real, caption: string, progressPct: Option<int>)

  datatype Poll = Poll(enabled: bool, loading: bool, worldJumping: bool, phaseProgressPct: Option<real>,
                       prewarmQueueDepth: int, caption: string, forceShow: bool, nowMs: Option<real>)
  {
    function Now(): real {
      nowMs.GetOr(0.0)
    }

    function ProgressPct(): int {
      if phaseProgressPct.Some? then
        var rounded := (phaseProgressPct.value + 0.5).Floor;
        if rounded < 0 then 0 else if rounded > 100 then 100 else rounded
      else if loading then 1 else 100
    }

    predicate Busy() {
      loading || worldJumping || (phaseProgressPct.Some? && (ProgressPct() < 100 || prewarmQueueDepth > 0))
    }
  }

  function TrafficOff(): Traffic {
    Traffic(false, false, 0.0, "", None)
  }

  function ReduceTraffic(state: Traffic, p: Poll): Traffic {
    var now := p.Now();
    if !p.enabled then TrafficOff()
    else if p.Busy() then
      Traffic(true, true, 0.0, if p.caption != "" then p.caption else "syncing road network",
              if p.phaseProgressPct.Some? then Some(p.ProgressPct()) else None)
    else
      var running := if state.confirmationUntil > now then state.confirmationUntil else 0.0;
      var until := if running != 0.0 then running
                   else if state.busy || p.forceShow then now + TRAFFIC_SYNC_CONFIRM_MS else 0.0;
      var visible := until > now && p.ProgressPct() >= 100 && p.caption != "";
      Traffic(false, visible, if visible then until else 0.0, if visible then p.caption else "", None)
  }

  /** The progress shown: the nearest whole number of percent, within 0 and 100; without a reading, a
      first percent while loading and everything otherwise. */
  lemma ProgressExactly(p: Poll)
    ensures var pct := p.ProgressPct();
      match p.phaseProgressPct
      case None => pct == if p.loading then 1 else 100
      case Some(v) =>
        if v < 0.0 then pct == 0 else if v > 100.0 then pct == 100
        else 0 <= pct <= 100 && pct as real - 0.5 <= v < pct as real + 0.5
  {
  }

  /** Traffic is busy while it loads or the view jumps, and while a measured phase is below its last
      percent or has work queued. */
  lemma BusyExactly(p: Poll)
    ensures p.Busy() <==>
      p.loading || p.worldJumping || (p.phaseProgressPct.Some? && (p.phaseProgressPct.value < 99.5 || p.prewarmQueueDepth >= 1))
  {
  }

  /** A busy chip is shown with its caption, or the default one, and its progress if that is measured;
      traffic that is switched off shows nothing and forgets its confirmation. */
  lemma ShowsWork(state: Traffic, p: Poll)
    ensures var t := ReduceTraffic(state, p);
      && (!p.enabled ==> !t.visible && !t.busy && t.confirmationUntil == 0.0 && t.caption == "" && t.progressPct.None?)
      && (p.enabled && p.Busy() ==>
            && t.visible && t.busy && t.confirmationUntil == 0.0
            && (p.caption != "" ==> t.caption == p.caption) && (p.caption == "" ==> t.caption == "syncing road network")
            && t.progressPct == if p.phaseProgressPct.Some? then Some(p.ProgressPct()) else None)
  {
  }

  /** With nothing running, a confirmation of 1500 ms starts exactly when work has just ended or one is
      asked for, and only beneath a label. */
  lemma ConfirmsExactly(state: Traffic, p: Poll)
    requires p.enabled && !p.Busy() && p.Now() >= 0.0 && state.confirmationUntil <= p.Now()
    ensures var t := ReduceTraffic(state, p);
      && (t.visible <==> (state.busy || p.forceShow) && p.caption != "")
      && (t.visible ==> t.caption == p.caption && t.confirmationUntil == p.Now() + 1500.0)
      && (!t.visible ==> t.caption == "" && t.confirmationUntil == 0.0)
      && !t.busy && t.progressPct.None?
  {
  }

  function AfterPolls(start: Traffic, polls: seq<Poll>, n: nat): Traffic
    requires n <= |polls|
  {
    if n == 0 then start else ReduceTraffic(AfterPolls(start, polls, n - 1), polls[n - 1])
  }

  predicate Settled(polls: seq<Poll>) {
    && (forall k :: 0 <= k < |polls| ==> polls[k].enabled && !polls[k].Busy() && !polls[k].forceShow && polls[k].Now() >= 0.0)
    && (forall i, j :: 0 <= i <= j < |polls| ==> polls[i].Now() <= polls[j].Now())
  }

  predicate Labelled(polls: seq<Poll>, n: nat)
    requires n <= |polls|
  {
    forall k :: 0 <= k < n ==> polls[k].caption != ""
  }

  /** After work ends, the confirmation shows for exactly 1500 ms from the first settled poll,
      however often it is polled, and ends early for good at the first poll without a label. */
  lemma {:induction false} ConfirmationNotExtended(start: Traffic, polls: seq<Poll>, n: nat)
    requires start.busy && start.confirmationUntil == 0.0 && Settled(polls) && 0 < n <= |polls|
    ensures var t := AfterPolls(start, polls, n);
      && (t.visible <==> Labelled(polls, n) && polls[n - 1].Now() < polls[0].Now() + 1500.0)
      && (t.visible ==> t.caption == polls[n - 1].caption)
      && t.confirmationUntil == (if t.visible then polls[0].Now() + 1500.0 else 0.0)
      && !t.busy
  {
    assert AfterPolls(start, polls, 0) == start;
    if n > 1 {
      ConfirmationNotExtended(start, polls, n - 1);
    }
  }
}
