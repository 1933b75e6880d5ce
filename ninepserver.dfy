/** development/scripts/rpi9pServer.ts: exports a host directory to the
    Raspberry Pi over 9P.  After the target check and the tool check it takes
    a temp directory, checks that the export directory exists, starts diod,
    the remote frps and the local frpc, mounts the export on the target, and
    waits for the first long-running command to settle.

    The command line, the file system, the commands' exit status, the
    tracker outcomes and the readiness polls are inputs (`Env`). */
module NinePServer {
  import opened Common
  import opened Cleanup
  import opened Stages
  import Names

  const RemoveTemp := "remove temp dir"
  const KillDiod := "kill diod"
  const Unmount := "unmount 9p"

  datatype Env = Env(
    target: string,            // --target
    toolsFound: bool,          // every `which` succeeds
    exportExists: bool,        // `existsSync(--export)`
    mountFails: bool,          // the remote mkdir and mount
    unmountThrows: bool,       // the remote unmount teardown fails
    diodPort: nat,
    diod: Daemon,
    remote: Remote,
    firstFulfilled: bool)      // the first long-running command to settle succeeded

  /** diod serves the export to the tunnel; the remote side mounts it, and
      the teardown unmounts it. */
  const NineP := Plan("diod", KillDiod, "9p-server", "mount 9p", Unmount)

  function Rest(env: Env): Outcomes {
    Outcomes(env.diod, env.diodPort, env.remote, env.mountFails, env.unmountThrows, env.firstFulfilled)
  }

  /** Everything before diod succeeds. */
  predicate Preflight(env: Env) {
    Names.IsSshTarget(env.target) && env.toolsFound && env.exportExists
  }

  /** Every stage up to the mount succeeds. */
  ghost predicate Serving(env: Env) {
    Preflight(env) && Served(Rest(env))
  }

  /** Lines 21-33: the target check and the tool check throw before anything
      is registered; the export check throws after the temp directory's
      removal is registered, so the temp directory still goes. */
  method Acquire(cs: CleanupStack, env: Env) returns (ok: bool)
    requires Live(cs) && Teardowns(cs) == [] && cs.trace == []
    modifies cs
    ensures ok <==> Preflight(env)
    ensures ok ==> Live(cs) && Teardowns(cs) == [RemoveTemp] && cs.trace == []
    ensures !ok ==> cs.exitCode == Some(1)
    ensures !(Names.IsSshTarget(env.target) && env.toolsFound) ==> RanTags(cs.trace) == []
    ensures Names.IsSshTarget(env.target) && env.toolsFound && !env.exportExists ==> RanTags(cs.trace) == [RemoveTemp]
  {
    if !Names.IsSshTarget(env.target) || !env.toolsFound {
      Abort(cs);
      return false;
    }
    var _ := Register(cs, RemoveTemp, false);
    if !env.exportExists {
      Abort(cs);
      return false;
    }
    ok := true;
  }

  /** The run once the temp directory is held: diod, the tunnel, the mount
      and the race (lines 35-151). */
  method Finish(cs: CleanupStack, env: Env, host: string) returns (r: Run)
    requires Live(cs) && Teardowns(cs) == [RemoveTemp] && cs.trace == []
    modifies cs
    ensures r.code == if Served(Rest(env)) && env.firstFulfilled then 0 else 1
    ensures r.ran == Reverse(ServiceTags(NineP, Rest(env))) + [RemoveTemp]
    ensures Served(Rest(env)) ==> r.steps == ServiceSteps(NineP, Rest(env), host)
  {
    var steps := BringUp(cs, NineP, Rest(env), host);
    ReverseAppend([RemoveTemp], ServiceTags(NineP, Rest(env)));
    assert Reverse([RemoveTemp]) == [RemoveTemp] by {
      assert Reverse([RemoveTemp])[0] == [RemoveTemp][0];
    }
    r := Report(cs, steps);
  }

  /** The script from start to exit: exit code 0 exactly when every stage
      came up and the first long-running command to settle succeeded; the
      teardowns that ran, newest first, for each way it can stop. */
  method Serve(env: Env) returns (r: Run)
    ensures r.code == 0 <==> Serving(env) && env.firstFulfilled
    ensures !(Names.IsSshTarget(env.target) && env.toolsFound) ==> r == Run(1, [], [])
    ensures Names.IsSshTarget(env.target) && env.toolsFound && !env.exportExists ==> r == Run(1, [RemoveTemp], [])
    ensures Preflight(env) ==> r.ran == Reverse(ServiceTags(NineP, Rest(env))) + [RemoveTemp]
    ensures Serving(env) ==> r.steps == ServiceSteps(NineP, Rest(env), Names.TargetHost(env.target))
  {
    var cs := Begin();
    var ok := Acquire(cs, env);
    if !ok {
      return Report(cs, []);
    }
    r := Finish(cs, env, Names.TargetHost(env.target));
  }
}
