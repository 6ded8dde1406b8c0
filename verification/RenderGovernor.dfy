/** The idle render governor (renderGovernor.js): the scene renders continuously while any
    owner holds it, and only on request otherwise. */
module RenderGovernor {
  import opened Js

  const RECENT_REQUEST_CAP := 16

  /** The installed viewer's scene, as far as the governor writes it. */
  datatype SceneState = SceneState(requestRenderMode: bool, renders: nat)

  datatype Gov = Gov(scene: Option<SceneState>, holds: set<string>, recent: seq<string>)

  // ---- specification -------------------------------------------------------

  function Uninstalled(): Gov {
    Gov(None, {}, [])
  }

  /** Entering idle asks for one settling frame. */
  function ApplyMode(g: Gov): Gov {
    var continuous := g.holds != {};
    if g.scene.None? || g.scene.value.requestRenderMode == !continuous then g
    else g.(scene := Some(SceneState(!continuous, g.scene.value.renders + if continuous then 0 else 1)))
  }

  function Install(g: Gov, scene: SceneState): Gov {
    ApplyMode(g.(scene := Some(scene)))
  }

  function Hold(g: Gov, owner: string): Gov {
    if owner == "" then g else ApplyMode(g.(holds := g.holds + {owner}))
  }

  function Release(g: Gov, owner: string): Gov {
    if owner == "" then g else ApplyMode(g.(holds := g.holds - {owner}))
  }

  /** The newest requests only. */
  function Trim(recent: seq<string>): (r: seq<string>)
    ensures |r| <= RECENT_REQUEST_CAP || |r| == |recent| - 1
  {
    if |recent| > RECENT_REQUEST_CAP then recent[1..] else recent
  }

  function Request(g: Gov, reason: string): Gov {
    if g.scene.None? then g else
    g.(scene := Some(g.scene.value.(renders := g.scene.value.renders + 1)),
       recent := if g.holds == {} then Trim(g.recent + [reason]) else g.recent)
  }

  /** Only the installed viewer uninstalls. */
  function Uninstall(g: Gov, mine: bool): Gov {
    if g.scene.Some? && mine then Uninstalled() else g
  }

  // ---- runs ----------------------------------------------------------------

  datatype Call =
    | Installs(scene: SceneState)
    | Holds(owner: string)
    | Releases(owner: string)
    | Requests(reason: string)
    | Uninstalls(mine: bool)

  function Step(g: Gov, call: Call): Gov {
    match call
    case Installs(scene) => Install(g, scene)
    case Holds(owner) => Hold(g, owner)
    case Releases(owner) => Release(g, owner)
    case Requests(reason) => Request(g, reason)
    case Uninstalls(mine) => Uninstall(g, mine)
  }

  function Run(calls: seq<Call>): Gov {
    if calls == [] then Uninstalled() else Step(Run(calls[..|calls| - 1]), calls[|calls| - 1])
  }

  predicate IsInstalled(calls: seq<Call>) {
    calls != [] &&
    match calls[|calls| - 1]
    case Installs(_) => true
    case Uninstalls(mine) => !mine && IsInstalled(calls[..|calls| - 1])
    case _ => IsInstalled(calls[..|calls| - 1])
  }

  /** The owner's last word: it holds after the calls when its last hold came after its last
      release and after the last time the governor was uninstalled. */
  predicate Holding(calls: seq<Call>, owner: string) {
    calls != [] &&
    var before := calls[..|calls| - 1];
    match calls[|calls| - 1]
    case Holds(o) => (o == owner && owner != "") || Holding(before, owner)
    case Releases(o) => !(o == owner && owner != "") && Holding(before, owner)
    case Uninstalls(mine) => !(mine && IsInstalled(before)) && Holding(before, owner)
    case _ => Holding(before, owner)
  }

  predicate ModeFollowsHolds(g: Gov) {
    g.scene.Some? ==> (g.scene.value.requestRenderMode <==> g.holds == {})
  }

  lemma StepKeepsMode(g: Gov, call: Call)
    requires ModeFollowsHolds(g)
    ensures ModeFollowsHolds(Step(g, call))
  {
  }

  /** However often owners hold, release or repeat themselves, and whenever the governor is
      installed, exactly the owners whose last word was a hold are held, the scene is idle
      exactly when there are none, and at most sixteen requests are remembered. */
  lemma {:induction false} HoldsAreLastWords(calls: seq<Call>, owner: string)
    ensures owner in Run(calls).holds <==> Holding(calls, owner)
    ensures Run(calls).scene.Some? <==> IsInstalled(calls)
    ensures ModeFollowsHolds(Run(calls))
    ensures |Run(calls).recent| <= RECENT_REQUEST_CAP
  {
    if calls != [] {
      HoldsAreLastWords(calls[..|calls| - 1], owner);
      StepKeepsMode(Run(calls[..|calls| - 1]), calls[|calls| - 1]);
    }
  }

  /** The reasons of the requests made while the scene was installed and idle, since the governor was
      last uninstalled, oldest first. */
  function IdleRequests(calls: seq<Call>): seq<string> {
    if calls == [] then [] else
    var before := calls[..|calls| - 1];
    match calls[|calls| - 1]
    case Requests(reason) =>
      if IsInstalled(before) && Run(before).holds == {} then IdleRequests(before) + [reason] else IdleRequests(before)
    case Uninstalls(mine) => if mine && IsInstalled(before) then [] else IdleRequests(before)
    case _ => IdleRequests(before)
  }

  /** The newest of a list, sixteen at most. */
  function Newest(all: seq<string>): seq<string> {
    if |all| > 16 then all[|all| - 16..] else all
  }

  lemma NewestGrows(all: seq<string>, reason: string)
    ensures Newest(all + [reason]) == Trim(Newest(all) + [reason])
  {
    if |all| >= 16 {
      assert (all + [reason])[|all| + 1 - 16..] == all[|all| + 1 - 16..] + [reason];
      assert Newest(all) + [reason] == all[|all| - 16..] + [reason];
      assert (all[|all| - 16..] + [reason])[1..] == all[|all| + 1 - 16..] + [reason];
    }
  }

  /** The trail is exactly the newest sixteen requests made while idle, in order. */
  lemma {:induction false} TrailExactly(calls: seq<Call>)
    ensures Run(calls).recent == Newest(IdleRequests(calls))
  {
    if calls != [] {
      var before := calls[..|calls| - 1];
      TrailExactly(before);
      HoldsAreLastWords(before, "");
      var last := calls[|calls| - 1];
      if last.Requests? {
        NewestGrows(IdleRequests(before), last.reason);
      }
      hide Trim, Newest;
    } else {
      assert Newest([]) == [];
    }
  }

  /** Frames asked for: one for every entry into idle and one for every request. */
  function FramesAsked(calls: seq<Call>): nat {
    if calls == [] then 0 else
    var before := calls[..|calls| - 1];
    var g := Run(before);
    match calls[|calls| - 1]
    case Installs(scene) => scene.renders + (if g.holds == {} && !scene.requestRenderMode then 1 else 0)
    case Releases(owner) => FramesAsked(before) + (if owner != "" && g.holds == {owner} && g.scene.Some? then 1 else 0)
    case Requests(_) => FramesAsked(before) + (if g.scene.Some? then 1 else 0)
    case Uninstalls(_) => FramesAsked(before)
    case Holds(_) => FramesAsked(before)
  }

  lemma {:induction false} SettlesOncePerIdle(calls: seq<Call>)
    ensures Run(calls).scene.Some? ==> Run(calls).scene.value.renders == FramesAsked(calls)
  {
    if calls != [] {
      var before := calls[..|calls| - 1];
      SettlesOncePerIdle(before);
      HoldsAreLastWords(before, "");
    }
  }

  // ---- the object ----------------------------------------------------------

  class Scene {
    var requestRenderMode: bool
    var renders: nat

    ghost function State(): SceneState
      reads this
    {
      SceneState(requestRenderMode, renders)
    }
  }

  class Governor {
    var viewer: Scene?
    var holds: set<string>
    var recent: seq<string>

    ghost function State(): Gov
      reads this, viewer
    {
      Gov(if viewer == null then None else Some(viewer.State()), holds, recent)
    }

    constructor ()
      ensures State() == Uninstalled() && viewer == null
    {
      viewer, holds, recent := null, {}, [];
    }

    method Apply()
      modifies viewer
      ensures State() == ApplyMode(old(State()))
    {
      if viewer == null {
        return;
      }
      var continuous := |holds| > 0;
      if viewer.requestRenderMode == !continuous {
        return;
      }
      viewer.requestRenderMode := !continuous;
      if !continuous {
        viewer.renders := viewer.renders + 1;
      }
    }

    method InstallRenderGovernor(scene: Scene)
      modifies this, scene
      ensures viewer == scene && State() == Install(old(State()), old(scene.State()))
    {
      viewer := scene;
      Apply();
    }

    method HoldContinuousRender(owner: string)
      modifies this, viewer
      ensures viewer == old(viewer) && State() == Hold(old(State()), owner)
    {
      if owner == "" {
        return;
      }
      holds := holds + {owner};
      Apply();
    }

    method ReleaseContinuousRender(owner: string)
      modifies this, viewer
      ensures viewer == old(viewer) && State() == Release(old(State()), owner)
    {
      if owner == "" {
        return;
      }
      holds := holds - {owner};
      Apply();
    }

    method GovernorRequestRender(reason: string)
      modifies this, viewer
      ensures viewer == old(viewer) && State() == Request(old(State()), reason)
    {
      if viewer == null {
        return;
      }
      if |holds| == 0 {
        recent := recent + [reason];
        if |recent| > RECENT_REQUEST_CAP {
          recent := recent[1..];
        }
      }
      viewer.renders := viewer.renders + 1;
    }

    method UninstallRenderGovernor(scene: Scene)
      modifies this
      ensures State() == Uninstall(old(State()), old(viewer) == scene)
      ensures viewer == if old(viewer) == scene then null else old(viewer)
    {
      if viewer != scene {
        return;
      }
      viewer, holds, recent := null, {}, [];
    }
  }
}
