/** When the workspace bin rebuilds the CLI before running it (packages/eve/bin/eve.js). */
module WorkspaceCli {
  import opened Json

  datatype Node = File(mtimeMs: real) | Directory(mtimeMs: real, entries: seq<Node>)

  /** The modification times of a node and everything below it. */
  function Mtimes(node: Node): set<real>
    decreases node, 1
  {
    {node.mtimeMs} + if node.Directory? then MtimesOf(node.entries) else {}
  }

  function MtimesOf(nodes: seq<Node>): set<real>
    decreases nodes, 0
  {
    if nodes == [] then {} else MtimesOf(nodes[..|nodes| - 1]) + Mtimes(nodes[|nodes| - 1])
  }

  /** The greatest of a set of times. */
  predicate IsLatest(latest: real, times: set<real>) {
    latest in times && forall t :: t in times ==> t <= latest
  }

  method GetLatestDirectoryMtimeMs(node: Node) returns (latest: real)
    ensures IsLatest(latest, Mtimes(node))
    decreases node
  {
    latest := node.mtimeMs;
    if !node.Directory? {
      return;
    }
    for i := 0 to |node.entries|
      invariant IsLatest(latest, {node.mtimeMs} + MtimesOf(node.entries[..i]))
    {
      var entryLatest := GetLatestDirectoryMtimeMs(node.entries[i]);
      assert node.entries[..i + 1][..i] == node.entries[..i];
      if entryLatest > latest {
        latest := entryLatest;
      }
    }
    assert node.entries[..|node.entries|] == node.entries;
  }

  /** The times of those build inputs that exist. */
  function InputTimes(inputs: seq<Option<Node>>): set<real> {
    if inputs == [] then {}
    else
      var last := inputs[|inputs| - 1];
      InputTimes(inputs[..|inputs| - 1]) + if last.Some? then Mtimes(last.value) else {}
  }

  /** The latest time anywhere under the inputs, or zero. */
  method GetLatestBuildInputMtimeMs(inputs: seq<Option<Node>>) returns (latest: real)
    ensures IsLatest(latest, {0.0} + InputTimes(inputs))
  {
    latest := 0.0;
    for i := 0 to |inputs|
      invariant IsLatest(latest, {0.0} + InputTimes(inputs[..i]))
    {
      assert inputs[..i + 1][..i] == inputs[..i];
      if inputs[i].None? {
        continue;
      }
      var latestPath := GetLatestDirectoryMtimeMs(inputs[i].value);
      if latestPath > latest {
        latest := latestPath;
      }
    }
    assert inputs[..|inputs|] == inputs;
  }

  datatype Command = VendorCompiled | TypeScript | PostBuild(script: string)

  /** `paths` exist; `inputs` are src, bin and scripts; `failing` commands fail; `produced` tells what a build yields. */
  datatype Workspace = Workspace(
    paths: set<string>, postBuildScripts: seq<string>,
    entrypointExists: bool, entrypointMtimeMs: Option<real>, inputs: seq<Option<Node>>,
    failing: set<Command>, produced: bool)

  datatype Result = Entrypoint | CannotRebuild | CommandFailed(command: Command) | NotProduced

  const BUILD_PATHS := ["bin", "tsconfig.json", "src", "scripts/vendor-compiled.mjs"]

  function RequiredPaths(w: Workspace): seq<string> {
    BUILD_PATHS + w.postBuildScripts
  }

  predicate CanBuild(w: Workspace) {
    forall path :: path in RequiredPaths(w) ==> path in w.paths
  }

  method CanBuildWorkspaceCli(w: Workspace) returns (can: bool)
    ensures can == CanBuild(w)
    ensures can <==>
      && {"bin", "tsconfig.json", "src", "scripts/vendor-compiled.mjs"} <= w.paths
      && forall script :: script in w.postBuildScripts ==> script in w.paths
  {
    var required := RequiredPaths(w);
    assert forall path :: path in required <==>
      path in {"bin", "tsconfig.json", "src", "scripts/vendor-compiled.mjs"} || path in w.postBuildScripts;
    for i := 0 to |required|
      invariant forall j :: 0 <= j < i ==> required[j] in w.paths
    {
      if required[i] !in w.paths {
        assert required[i] in required;
        return false;
      }
    }
    return true;
  }

  /** The compiled entrypoint is at least as new as every node under the build inputs (and as the epoch). */
  predicate IsFresh(w: Workspace) {
    && w.entrypointMtimeMs.Some?
    && w.entrypointMtimeMs.value >= 0.0
    && forall t :: t in InputTimes(w.inputs) ==> w.entrypointMtimeMs.value >= t
  }

  function PostBuilds(scripts: seq<string>): seq<Command> {
    if scripts == [] then [] else PostBuilds(scripts[..|scripts| - 1]) + [PostBuild(scripts[|scripts| - 1])]
  }

  function BuildPlan(w: Workspace): seq<Command> {
    [VendorCompiled, TypeScript] + PostBuilds(w.postBuildScripts)
  }

  /** Vendoring, then the compiler, then the scripts in their order, and nothing else. */
  predicate IsPlan(plan: seq<Command>, scripts: seq<string>) {
    && |plan| == |scripts| + 2 && plan[0] == VendorCompiled && plan[1] == TypeScript
    && forall k :: 0 <= k < |scripts| ==> plan[k + 2] == PostBuild(scripts[k])
  }

  lemma {:induction false} PostBuildsInOrder(scripts: seq<string>)
    ensures |PostBuilds(scripts)| == |scripts|
    ensures forall k :: 0 <= k < |scripts| ==> PostBuilds(scripts)[k] == PostBuild(scripts[k])
  {
    if scripts != [] {
      PostBuildsInOrder(scripts[..|scripts| - 1]);
    }
  }

  lemma BuildPlanIsPlan(w: Workspace)
    ensures IsPlan(BuildPlan(w), w.postBuildScripts)
  {
    PostBuildsInOrder(w.postBuildScripts);
  }

  /** Runs a plan up to its first failing command. */
  method RunCommands(plan: seq<Command>, failing: set<Command>) returns (ran: seq<Command>, failed: Option<Command>)
    ensures ran <= plan
    ensures failed.None? ==> ran == plan && forall c :: c in plan ==> c !in failing
    ensures failed.Some? ==>
      && |ran| > 0 && failed.value == ran[|ran| - 1] && failed.value in failing
      && forall i :: 0 <= i < |ran| - 1 ==> ran[i] !in failing
  {
    ran := [];
    for i := 0 to |plan|
      invariant ran == plan[..i]
      invariant forall j :: 0 <= j < i ==> plan[j] !in failing
    {
      ran := ran + [plan[i]];
      if plan[i] in failing {
        return ran, Some(plan[i]);
      }
    }
    return ran, None;
  }

  /**
   * The build is skipped exactly when there is an entrypoint and either the package cannot rebuild it or it is at
   * least as new as every node under src, bin and scripts; a build that runs to its end runs every command in
   * order.
   */
  method EnsureBuiltCli(w: Workspace) returns (result: Result, ran: seq<Command>)
    ensures result == Entrypoint && ran == [] <==> w.entrypointExists && (!CanBuild(w) || IsFresh(w))
    ensures result == CannotRebuild <==> !w.entrypointExists && !CanBuild(w)
    ensures result == CannotRebuild ==> ran == []
    ensures ran != [] ==> ran <= BuildPlan(w)
    ensures result.CommandFailed? ==>
      ran != [] && result.command in w.failing && result.command == ran[|ran| - 1]
    ensures ran != [] && !result.CommandFailed? ==>
      ran == BuildPlan(w) && result == if w.produced then Entrypoint else NotProduced
    ensures result == NotProduced ==> ran != []
    ensures ran != [] ==> IsPlan(BuildPlan(w), w.postBuildScripts)
    ensures ran != [] ==> (result.CommandFailed? <==> exists c :: c in BuildPlan(w) && c in w.failing)
    ensures forall i :: 0 <= i < |ran| - 1 ==> ran[i] !in w.failing
  {
    BuildPlanIsPlan(w);
    var packageCanBuildCli := CanBuildWorkspaceCli(w);
    if w.entrypointExists {
      if !packageCanBuildCli {
        return Entrypoint, [];
      }
      var latestBuildInput := GetLatestBuildInputMtimeMs(w.inputs);
      if w.entrypointMtimeMs.Some? && w.entrypointMtimeMs.value >= latestBuildInput {
        return Entrypoint, [];
      }
    }
    if !packageCanBuildCli {
      return CannotRebuild, [];
    }
    var commands, failed := RunCommands(BuildPlan(w), w.failing);
    if failed.Some? {
      return CommandFailed(failed.value), commands;
    }
    return if w.produced then Entrypoint else NotProduced, commands;
  }

  /** A tree's times are those of its nodes: nothing below a directory is missed. */
  lemma {:induction false} EntriesCount(nodes: seq<Node>, i: nat)
    requires i < |nodes|
    ensures Mtimes(nodes[i]) <= MtimesOf(nodes)
  {
    if i < |nodes| - 1 {
      assert nodes[..|nodes| - 1][i] == nodes[i];
      EntriesCount(nodes[..|nodes| - 1], i);
    }
  }

  /** A path of entry positions from a directory down to one of its nodes. */
  predicate LeadsTo(node: Node, path: seq<nat>, target: Node)
    decreases |path|
  {
    if path == [] then node == target
    else node.Directory? && path[0] < |node.entries| && LeadsTo(node.entries[path[0]], path[1..], target)
  }

  lemma {:induction false} BelowCounts(node: Node, path: seq<nat>, target: Node)
    requires LeadsTo(node, path, target)
    ensures target.mtimeMs in Mtimes(node)
    decreases |path|
  {
    if path != [] {
      BelowCounts(node.entries[path[0]], path[1..], target);
      EntriesCount(node.entries, path[0]);
    }
  }

  lemma {:induction false} InputCounts(inputs: seq<Option<Node>>, i: nat)
    requires i < |inputs| && inputs[i].Some?
    ensures Mtimes(inputs[i].value) <= InputTimes(inputs)
  {
    if i < |inputs| - 1 {
      InputCounts(inputs[..|inputs| - 1], i);
    }
  }

  /** Every time in a tree is that of some node of it. */
  lemma {:induction false} MtimeHasNode(node: Node, t: real) returns (path: seq<nat>, target: Node)
    requires t in Mtimes(node)
    ensures LeadsTo(node, path, target) && target.mtimeMs == t
    decreases node, 1
  {
    if t == node.mtimeMs {
      path, target := [], node;
    } else {
      var i, below, found := EntryHasNode(node, node.entries, t);
      path, target := [i] + below, found;
      assert path[1..] == below;
    }
  }

  lemma {:induction false} EntryHasNode(parent: Node, nodes: seq<Node>, t: real)
    returns (i: nat, path: seq<nat>, target: Node)
    requires parent.Directory? && nodes <= parent.entries && t in MtimesOf(nodes)
    ensures i < |nodes| && LeadsTo(nodes[i], path, target) && target.mtimeMs == t
    decreases parent, 0, |nodes|
  {
    var n := |nodes| - 1;
    if t in Mtimes(nodes[n]) {
      assert nodes[n] == parent.entries[n];
      i := n;
      path, target := MtimeHasNode(nodes[n], t);
    } else {
      i, path, target := EntryHasNode(parent, nodes[..n], t);
    }
  }

  lemma {:induction false} InputHasTime(inputs: seq<Option<Node>>, t: real) returns (i: nat)
    requires t in InputTimes(inputs)
    ensures i < |inputs| && inputs[i].Some? && t in Mtimes(inputs[i].value)
  {
    var n := |inputs| - 1;
    if inputs[n].Some? && t in Mtimes(inputs[n].value) {
      i := n;
    } else {
      i := InputHasTime(inputs[..n], t);
    }
  }

  /** A node somewhere under the build inputs. */
  ghost predicate UnderInputs(w: Workspace, target: Node) {
    exists i: nat, path :: i < |w.inputs| && w.inputs[i].Some? && LeadsTo(w.inputs[i].value, path, target)
  }

  /**
   * The entrypoint is fresh exactly when it has a time that is not before the epoch and no file or directory, at
   * any depth under any build input, is newer.
   */
  lemma FreshMeansNewest(w: Workspace)
    ensures IsFresh(w) <==>
      && w.entrypointMtimeMs.Some? && w.entrypointMtimeMs.value >= 0.0
      && forall target :: UnderInputs(w, target) ==> w.entrypointMtimeMs.value >= target.mtimeMs
  {
    forall target | UnderInputs(w, target)
      ensures target.mtimeMs in InputTimes(w.inputs)
    {
      var i: nat, path :| i < |w.inputs| && w.inputs[i].Some? && LeadsTo(w.inputs[i].value, path, target);
      BelowCounts(w.inputs[i].value, path, target);
      InputCounts(w.inputs, i);
    }
    forall t | t in InputTimes(w.inputs)
      ensures exists target :: UnderInputs(w, target) && target.mtimeMs == t
    {
      var i := InputHasTime(w.inputs, t);
      var path, target := MtimeHasNode(w.inputs[i].value, t);
      assert UnderInputs(w, target);
    }
  }
}
