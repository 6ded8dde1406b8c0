/** The HUD's AI summary line (hud.js): updates that suspend twice, at the scene context and at the
    service, while the view keeps moving. Each step runs to its next suspension. */
module HudSummary {
  import opened Js

  /** What the line shows, and the revision of the view it was composed for. */
  datatype Text = Fallback(revision: nat) | Summary(signature: string, revision: nat)

  /** A suspended update: its local variables at the await it waits in. */
  datatype Task =
    | InContext(revision: nat, force: bool)
    | InService(revision: nat, signature: string)

  datatype State = State(dirty: bool, revision: nat, request: Option<nat>, signature: Option<string>,
                         shown: Text, tasks: map<nat, Task>, nextId: nat)

  /** How the service call ends: with a response, or by throwing. */
  datatype Reply = Summarized | Unconfigured | HttpError | Rejected | Aborted

  datatype Event =
    | Moves
    | Starts(force: bool, hasMetrics: bool, canRequest: bool)
    | ContextFails(id: nat)
    | ContextReady(id: nat, signature: string)
    | Replies(id: nat, reply: Reply)

  function Initial(): State {
    State(true, 0, None, Some(""), Fallback(0), map[], 0)
  }

  // ---- the steps -----------------------------------------------------------

  function Mark(s: State): State {
    s.(dirty := true, revision := s.revision + 1)
  }

  function Start(s: State, force: bool, hasMetrics: bool, canRequest: bool): State {
    if !hasMetrics then s.(shown := Fallback(s.revision))
    else if (!force && !s.dirty) || !canRequest then s
    else s.(tasks := s.tasks[s.nextId := InContext(s.revision, force)], nextId := s.nextId + 1)
  }

  function Done(s: State, id: nat): State {
    s.(tasks := s.tasks - {id})
  }

  /** A context that cannot be built leaves the line dirty. */
  function FailContext(s: State, id: nat): State
    requires id in s.tasks
  {
    Done(s, id).(shown := Fallback(s.tasks[id].revision))
  }

  /** After the context: give way to a newer view, to an unchanged context, or to a request in
      flight; otherwise ask. */
  function UseContext(s: State, id: nat, signature: string): State
    requires id in s.tasks && s.tasks[id].InContext?
  {
    var t := s.tasks[id];
    if t.revision != s.revision then Done(s, id)
    else if !t.force && s.signature == Some(signature) then Done(s, id).(dirty := false)
    else if s.request.Some? then Done(s, id)
    else s.(dirty := false, signature := Some(signature), request := Some(id),
            shown := if t.force then Fallback(t.revision) else s.shown,
            tasks := s.tasks[id := InService(t.revision, signature)])
  }

  /** A thrown error, unless it is an abort, forgets the signature so that a later tick retries. */
  function Caught(s: State, revision: nat, abort: bool): State {
    var retried := if abort then s else s.(signature := None, dirty := true);
    retried.(shown := Fallback(revision))
  }

  function Settle(s: State, id: nat): State {
    Done(s, id).(request := if s.request == Some(id) then None else s.request)
  }

  function UseReply(s: State, id: nat, reply: Reply): State
    requires id in s.tasks && s.tasks[id].InService?
  {
    var t := s.tasks[id];
    var after :=
      if reply.Rejected? || reply.Aborted? then Caught(s, t.revision, reply.Aborted?)
      else if t.revision != s.revision then s
      else match reply
        case Unconfigured => s.(shown := Fallback(t.revision))
        case Summarized => s.(shown := Summary(t.signature, t.revision))
        case _ => Caught(s, t.revision, false);
    Settle(after, id)
  }

  /** An event that names no update waiting for it changes nothing. */
  function Next(s: State, e: Event): State {
    match e
    case Moves => Mark(s)
    case Starts(force, hasMetrics, canRequest) => Start(s, force, hasMetrics, canRequest)
    case ContextFails(id) => if id in s.tasks && s.tasks[id].InContext? then FailContext(s, id) else s
    case ContextReady(id, signature) => if id in s.tasks && s.tasks[id].InContext? then UseContext(s, id, signature) else s
    case Replies(id, reply) => if id in s.tasks && s.tasks[id].InService? then UseReply(s, id, reply) else s
  }

  function After(start: State, run: seq<Event>, n: nat): State
    requires n <= |run|
  {
    if n == 0 then start else Next(After(start, run, n - 1), run[n - 1])
  }

  // ---- invariant -----------------------------------------------------------

  predicate Inv(s: State) {
    && (forall id <- s.tasks :: id < s.nextId && s.tasks[id].revision <= s.revision)
    && (forall id <- s.tasks :: s.tasks[id].InService? <==> s.request == Some(id))
    && (s.request.Some? ==> s.request.value in s.tasks && s.signature == Some(s.tasks[s.request.value].signature))
    && s.shown.revision <= s.revision
  }

  lemma NextOk(s: State, e: Event)
    requires Inv(s)
    ensures Inv(Next(s, e))
  {
  }

  lemma {:induction false} AlwaysOk(run: seq<Event>, n: nat)
    requires n <= |run|
    ensures Inv(After(Initial(), run, n))
  {
    hide Inv, Next;
    if n == 0 {
      InitialOk();
    } else {
      AlwaysOk(run, n - 1);
      NextOk(After(Initial(), run, n - 1), run[n - 1]);
    }
  }

  lemma InitialOk()
    ensures Inv(Initial())
  {
  }

  /** However updates, moves and completions interleave, at most one request is in flight, and it
      is the one the HUD remembers. */
  lemma OneRequestInFlight(run: seq<Event>, n: nat, a: nat, b: nat)
    requires n <= |run|
    ensures var s := After(Initial(), run, n);
      && (a in s.tasks && b in s.tasks && s.tasks[a].InService? && s.tasks[b].InService? ==> a == b && s.request == Some(a))
      && (s.request.Some? ==> s.request.value in s.tasks && s.tasks[s.request.value].InService?)
  {
    AlwaysOk(run, n);
    hide Next;
  }

  // ---- moves ---------------------------------------------------------------

  /** How often the view moved in the events between. */
  function MovesIn(run: seq<Event>, i: nat, j: nat): nat
    requires i <= j <= |run|
  {
    if i == j then 0 else MovesIn(run, i, j - 1) + if run[j - 1].Moves? then 1 else 0
  }

  lemma {:induction false} RevisionCountsMoves(start: State, run: seq<Event>, i: nat, j: nat)
    requires i <= j <= |run|
    ensures After(start, run, j).revision == After(start, run, i).revision + MovesIn(run, i, j)
  {
    if i < j {
      RevisionCountsMoves(start, run, i, j - 1);
    }
  }

  lemma TaskKept(s: State, e: Event, id: nat)
    requires Inv(s) && id in Next(s, e).tasks && id < s.nextId
    ensures id in s.tasks && Next(s, e).tasks[id].revision == s.tasks[id].revision
    ensures Next(s, e).nextId >= s.nextId
  {
  }

  lemma IdsGrow(s: State, e: Event)
    ensures Next(s, e).nextId >= s.nextId
  {
  }

  lemma {:induction false} IdsGrowOver(start: State, run: seq<Event>, i: nat, j: nat)
    requires i <= j <= |run|
    ensures After(start, run, i).nextId <= After(start, run, j).nextId
  {
    if i < j {
      IdsGrowOver(start, run, i, j - 1);
      IdsGrow(After(start, run, j - 1), run[j - 1]);
      hide Next;
    }
  }

  /** An update keeps the revision it started at. */
  lemma {:induction false} TaskRevision(run: seq<Event>, i: nat, j: nat, id: nat)
    requires i < j <= |run| && id in After(Initial(), run, j).tasks
    requires id == After(Initial(), run, i).nextId && After(Initial(), run, i + 1).nextId == id + 1
    ensures After(Initial(), run, j).tasks[id].revision == After(Initial(), run, i).revision
  {
    hide Next, Inv;
    if j > i + 1 {
      AlwaysOk(run, j - 1);
      IdsGrowOver(Initial(), run, i + 1, j - 1);
      TaskKept(After(Initial(), run, j - 1), run[j - 1], id);
      TaskRevision(run, i, j - 1, id);
    } else {
      NewTask(After(Initial(), run, i), run[i]);
    }
  }

  lemma NewTask(s: State, e: Event)
    requires Next(s, e).nextId == s.nextId + 1
    ensures s.nextId in Next(s, e).tasks && Next(s, e).tasks[s.nextId].revision == s.revision
  {
  }

  lemma SummaryIsCurrent(s: State, e: Event)
    requires Inv(s) && Next(s, e).shown.Summary? && Next(s, e).shown != s.shown
    ensures e.Replies? && e.reply == Summarized && e.id in s.tasks && s.tasks[e.id].InService?
    ensures s.tasks[e.id].revision == s.revision && Next(s, e).shown == Summary(s.tasks[e.id].signature, s.revision)
  {
  }

  /** A summary is put on screen only if the view has not moved since the update that asked for it
      started, however long it took and whatever else ran in between. */
  lemma SummaryNeverStale(run: seq<Event>, i: nat, j: nat, id: nat)
    requires i < j < |run| && run[j].Replies? && run[j].id == id
    requires id == After(Initial(), run, i).nextId && After(Initial(), run, i + 1).nextId == id + 1
    requires After(Initial(), run, j + 1).shown.Summary? && After(Initial(), run, j + 1).shown != After(Initial(), run, j).shown
    ensures MovesIn(run, i, j) == 0
  {
    AlwaysOk(run, j);
    SummaryIsCurrent(After(Initial(), run, j), run[j]);
    TaskRevision(run, i, j, id);
    RevisionCountsMoves(Initial(), run, i, j);
    hide Next, Inv;
  }

  // ---- what is shown, and when ---------------------------------------------

  /** An update starts if and only if there are metrics, a request may be made, and the line is dirty
      or the update is forced; without metrics the line falls back at once. */
  lemma StartsExactly(s: State, force: bool, hasMetrics: bool, canRequest: bool)
    requires Inv(s)
    ensures var t := Next(s, Starts(force, hasMetrics, canRequest));
      && (t.nextId != s.nextId <==> hasMetrics && canRequest && (force || s.dirty))
      && (t.nextId != s.nextId ==> s.nextId in t.tasks && t.tasks[s.nextId].InContext? && t.tasks[s.nextId].force == force)
      && t.shown == if hasMetrics then s.shown else Fallback(s.revision)
  {
  }

  /** An update whose context is ready asks if and only if the view has not moved, no request is in
      flight, and the context is new or the update is forced. */
  lemma AsksExactly(s: State, id: nat, signature: string)
    requires Inv(s) && id in s.tasks && s.tasks[id].InContext?
    ensures var t := Next(s, ContextReady(id, signature));
      var asks := s.tasks[id].revision == s.revision && s.request.None? && (s.tasks[id].force || s.signature != Some(signature));
      && (asks <==> id in t.tasks)
      && (asks ==> t.request == Some(id) && t.signature == Some(signature) && t.tasks[id].signature == signature && !t.dirty)
      && t.shown == if asks && s.tasks[id].force then Fallback(s.revision) else s.shown
  {
  }

  /** What a reply puts on the line: its summary when it has one and the view has not moved; the
      fallback when it threw, or reached an unmoved view without a summary; and nothing else. */
  lemma ShowsExactly(s: State, id: nat, reply: Reply)
    requires Inv(s) && id in s.tasks && s.tasks[id].InService?
    ensures var t, current := Next(s, Replies(id, reply)), s.tasks[id].revision == s.revision;
      && t.shown == (if reply == Rejected || reply == Aborted then Fallback(s.tasks[id].revision)
                     else if !current then s.shown
                     else if reply == Summarized then Summary(s.tasks[id].signature, s.revision)
                     else Fallback(s.revision))
      && t.request.None? && id !in t.tasks
  {
  }

  /** A context that cannot be built falls back and leaves the line dirty. */
  lemma FailedContextFallsBack(s: State, id: nat)
    requires id in s.tasks && s.tasks[id].InContext?
    ensures var t := Next(s, ContextFails(id));
      t.shown == Fallback(s.tasks[id].revision) && t.dirty == s.dirty && id !in t.tasks && t.signature == s.signature
  {
  }

  lemma {:induction false} ServiceKept(s: State, run: seq<Event>, n: nat, id: nat)
    requires n <= |run| && Inv(s) && id in s.tasks && s.tasks[id].InService?
    requires forall k :: 0 <= k < n ==> !run[k].Moves? && !(run[k].Replies? && run[k].id == id)
    ensures var t := After(s, run, n); Inv(t) && id in t.tasks && t.tasks[id] == s.tasks[id] && t.revision == s.revision
  {
    if n > 0 {
      ServiceKept(s, run, n - 1, id);
      NextOk(After(s, run, n - 1), run[n - 1]);
      ServiceStep(After(s, run, n - 1), run[n - 1], id);
    }
    hide Next, Inv;
  }

  lemma ServiceStep(s: State, e: Event, id: nat)
    requires Inv(s) && id in s.tasks && s.tasks[id].InService? && !e.Moves? && !(e.Replies? && e.id == id)
    ensures var t := Next(s, e); id in t.tasks && t.tasks[id] == s.tasks[id] && t.revision == s.revision
  {
  }

  /** A view that holds still gets its summary: whatever else goes on between the request and the
      reply, as long as the view does not move the summary that comes is shown. */
  lemma StillViewIsSummarized(s: State, id: nat, run: seq<Event>)
    requires Inv(s) && id in s.tasks && s.tasks[id].InService? && s.tasks[id].revision == s.revision
    requires run != [] && run[|run| - 1] == Replies(id, Summarized)
    requires forall k :: 0 <= k < |run| - 1 ==> !run[k].Moves? && !(run[k].Replies? && run[k].id == id)
    ensures After(s, run, |run|).shown == Summary(s.tasks[id].signature, s.revision)
  {
    var n := |run| - 1;
    ServiceKept(s, run, n, id);
    ShowsExactly(After(s, run, n), id, Summarized);
    hide Next, Inv;
  }

  // ---- a clear flag --------------------------------------------------------

  /** The event compares the context of the current view with the remembered one. */
  predicate Checks(s: State, e: Event) {
    && e.ContextReady? && e.id in s.tasks && s.tasks[e.id].InContext?
    && s.tasks[e.id].revision == s.revision
    && (s.request.None? || (!s.tasks[e.id].force && s.signature == Some(e.signature)))
  }

  lemma FlagStep(s: State, e: Event)
    ensures Next(s, e).dirty <==>
      e.Moves? || (s.dirty && !Checks(s, e)) ||
      (e.Replies? && e.id in s.tasks && s.tasks[e.id].InService? &&
        (e.reply == Rejected || (e.reply == HttpError && s.tasks[e.id].revision == s.revision)))
  {
  }

  /** The revision the last check was made at. */
  function CheckedAt(run: seq<Event>, n: nat): Option<nat>
    requires n <= |run|
  {
    if n == 0 then None
    else if Checks(After(Initial(), run, n - 1), run[n - 1]) then Some(After(Initial(), run, n - 1).revision)
    else CheckedAt(run, n - 1)
  }

  /** Whenever the flag is clear, the view was checked since it last moved: no move is ever lost. */
  lemma {:induction false} ClearMeansChecked(run: seq<Event>, n: nat)
    requires n <= |run|
    ensures !After(Initial(), run, n).dirty ==> CheckedAt(run, n) == Some(After(Initial(), run, n).revision)
  {
    if n > 0 {
      ClearMeansChecked(run, n - 1);
      FlagStep(After(Initial(), run, n - 1), run[n - 1]);
      RevisionCountsMoves(Initial(), run, n - 1, n);
      hide Next;
    }
  }

  // ---- which failures are retried ------------------------------------------

  /** An update asks the service, and no other one under way is forced. */
  predicate Asking(s: State, id: nat) {
    && Inv(s) && id in s.tasks && s.tasks[id].InService?
    && (forall other <- s.tasks :: other != id ==> s.tasks[other].InContext? && !s.tasks[other].force)
  }

  /** A failure that is no timeout and, if it came as a response, reached a view that had not moved. */
  predicate Invalidates(s: State, id: nat, reply: Reply)
    requires id in s.tasks
  {
    reply == Rejected || (reply == HttpError && s.tasks[id].revision == s.revision)
  }

  /** The signature is remembered, and nothing is under way that would ask about it. */
  predicate Settled(s: State, signature: string) {
    && Inv(s) && s.request.None? && s.signature == Some(signature)
    && (forall id <- s.tasks :: !s.tasks[id].force)
  }

  /** No update is forced and every context found is the same one. */
  predicate SameScene(e: Event, signature: string) {
    (e.Starts? ==> !e.force) && (e.ContextReady? ==> e.signature == signature)
  }

  predicate AllSameScene(run: seq<Event>, signature: string) {
    forall k :: 0 <= k < |run| ==> SameScene(run[k], signature)
  }

  lemma SettledStep(s: State, e: Event, signature: string)
    requires Settled(s, signature) && SameScene(e, signature)
    ensures Settled(Next(s, e), signature)
    ensures Next(s, e).shown == s.shown || Next(s, e).shown.Fallback?
  {
    NextOk(s, e);
  }

  lemma ReplySettles(s: State, id: nat, reply: Reply)
    requires Asking(s, id)
    ensures !Invalidates(s, id, reply) ==> Settled(Next(s, Replies(id, reply)), s.tasks[id].signature)
    ensures Next(s, Replies(id, reply)).request.None?
    ensures reply == Aborted ==> Next(s, Replies(id, reply)).shown.Fallback?
  {
    NextOk(s, Replies(id, reply));
  }

  /** Any other reply ends it: a timeout, an answer, and every response for a view that had moved.
      However often the view moves and is looked at from then on, while nobody forces an update and
      the context stays the same the service is never asked, and no summary comes that was not there. */
  lemma {:induction false} NeverAskedAgain(s: State, id: nat, reply: Reply, run: seq<Event>, n: nat)
    requires Asking(s, id) && !Invalidates(s, id, reply) && n <= |run| && AllSameScene(run, s.tasks[id].signature)
    ensures var ended := Next(s, Replies(id, reply));
      var t := After(ended, run, n);
      Settled(t, s.tasks[id].signature) && (t.shown == ended.shown || t.shown.Fallback?)
  {
    hide Next, Settled, Asking;
    AskingKnown(s, id);
    ReplySettles(s, id, reply);
    if n > 0 {
      NeverAskedAgain(s, id, reply, run, n - 1);
      SettledStep(After(Next(s, Replies(id, reply)), run, n - 1), run[n - 1], s.tasks[id].signature);
    }
  }

  lemma AskingKnown(s: State, id: nat)
    requires Asking(s, id)
    ensures id in s.tasks && s.tasks[id].InService?
  {
  }

  /** After a timeout the line is stuck on its fallback. */
  lemma TimeoutSticks(s: State, id: nat, run: seq<Event>, n: nat)
    requires Asking(s, id) && n <= |run| && AllSameScene(run, s.tasks[id].signature)
    ensures var t := After(Next(s, Replies(id, Aborted)), run, n);
      t.shown.Fallback? && t.request.None? && t.signature == Some(s.tasks[id].signature)
  {
    NeverAskedAgain(s, id, Aborted, run, n);
    ReplySettles(s, id, Aborted);
    hide Next, After, Asking;
  }

  /** The view moves and the periodic update finds the same context again. */
  function Retry(s: State, signature: string): seq<Event> {
    [Moves, Starts(false, true, true), ContextReady(s.nextId, signature)]
  }

  lemma RetryAsks(s: State, signature: string)
    requires Inv(s) && s.request.None? && s.signature != Some(signature)
    ensures After(s, Retry(s, signature), 3).request.Some?
    ensures AllSameScene(Retry(s, signature), signature)
  {
    var run := Retry(s, signature);
    var moved := After(s, run, 1);
    assert moved == Next(After(s, run, 0), Moves) == Mark(s);
    var started := After(s, run, 2);
    assert started == Next(moved, run[1]);
    assert started.tasks[s.nextId] == InContext(moved.revision, false);
    assert After(s, run, 3) == Next(started, run[2]);
  }

  /** The same context is ever asked about again, by any run in which no update is forced, if and
      only if the reply was a failure other than a timeout and, when it came as a response, reached
      a view that had not moved. */
  lemma AsksAgainExactly(s: State, id: nat, reply: Reply)
    requires Asking(s, id)
    ensures (exists run :: AllSameScene(run, s.tasks[id].signature) && After(Next(s, Replies(id, reply)), run, |run|).request.Some?)
       <==> Invalidates(s, id, reply)
  {
    var signature, ended := s.tasks[id].signature, Next(s, Replies(id, reply));
    if Invalidates(s, id, reply) {
      NextOk(s, Replies(id, reply));
      assert ended.request.None? && ended.signature == None;
      hide Next, Inv, After;
      RetryAsks(ended, signature);
      assert |Retry(ended, signature)| == 3;
    } else {
      hide Next, After, Asking;
      forall run | AllSameScene(run, signature)
        ensures After(ended, run, |run|).request.None?
      {
        NeverAskedAgain(s, id, reply, run, |run|);
      }
    }
  }

  // ---- the object ----------------------------------------------------------

  class Hud {
    var summaryDirty: bool
    var summaryRevision: nat
    var summaryRequest: Option<nat>
    var lastSummarySignature: Option<string>
    var shown: Text
    var tasks: map<nat, Task>
    var nextId: nat

    ghost function View(): State
      reads this
    {
      State(summaryDirty, summaryRevision, summaryRequest, lastSummarySignature, shown, tasks, nextId)
    }

    constructor ()
      ensures View() == Initial()
    {
      summaryDirty, summaryRevision, summaryRequest, lastSummarySignature := true, 0, None, Some("");
      shown, tasks, nextId := Fallback(0), map[], 0;
    }

    method MarkSummaryDirty()
      modifies this
      ensures View() == Next(old(View()), Moves)
    {
      summaryDirty := true;
      summaryRevision := summaryRevision + 1;
    }

    /** `_updateSummary` up to its first await. */
    method UpdateSummary(force: bool, hasMetrics: bool, canRequest: bool)
      modifies this
      ensures View() == Next(old(View()), Starts(force, hasMetrics, canRequest))
    {
      if !hasMetrics {
        shown := Fallback(summaryRevision);
        return;
      }
      if !force && !summaryDirty {
        return;
      }
      if !canRequest {
        return;
      }
      tasks := tasks[nextId := InContext(summaryRevision, force)];
      nextId := nextId + 1;
    }

    /** From the context to the service call; None for a context that could not be built. */
    method ResumeWithContext(id: nat, context: Option<string>)
      requires id in tasks && tasks[id].InContext?
      modifies this
      ensures View() == Next(old(View()), if context.None? then ContextFails(id) else ContextReady(id, context.value))
    {
      var t := tasks[id];
      tasks := tasks - {id};
      if context.None? {
        shown := Fallback(t.revision);
        return;
      }
      if t.revision != summaryRevision {
        return;
      }
      if !t.force && context == lastSummarySignature {
        summaryDirty := false;
        return;
      }
      if summaryRequest.Some? {
        return;
      }
      if t.force {
        shown := Fallback(t.revision);
      }
      summaryDirty := false;
      lastSummarySignature := context;
      summaryRequest := Some(id);
      tasks := tasks[id := InService(t.revision, context.value)];
      assert tasks == old(tasks)[id := InService(t.revision, context.value)];
    }

    /** From the reply to the end, the cleanup included. */
    method ResumeWithReply(id: nat, reply: Reply)
      requires id in tasks && tasks[id].InService?
      modifies this
      ensures View() == Next(old(View()), Replies(id, reply))
    {
      var t := tasks[id];
      var threw := reply.Rejected? || reply.Aborted?;
      if !threw && t.revision == summaryRevision {
        match reply {
          case Unconfigured => shown := Fallback(t.revision);
          case Summarized => shown := Summary(t.signature, t.revision);
          case HttpError => threw := true;
        }
      }
      if threw {
        if !reply.Aborted? {
          lastSummarySignature := None;
          summaryDirty := true;
        }
        shown := Fallback(t.revision);
      }
      if summaryRequest == Some(id) {
        summaryRequest := None;
      }
      tasks := tasks - {id};
    }
  }
}
