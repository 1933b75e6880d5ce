/** The pieces the three development scripts are assembled from
    (development/scripts/rpiNbdDiskServer.ts, development/rpiNbdRamServer.ts,
    development/scripts/rpi9pServer.ts): registering a teardown, calling or
    dropping the newest teardown early, a long-running stage (spawn,
    correlate, register its kill teardown, wait for its readiness line), the
    frps/frpc tunnel the three scripts share, and the two ways a script ends.

    A script owns the process-wide cleanup stack, so each step is stated on
    the tags of the teardowns registered (`Teardowns`) and of those that ran
    (`RanTags` of the trace). */
module Stages {
  import opened Common
  import opened Cleanup
  import opened Readiness
  import Names

  /** A line of the frpc.toml the scripts write. */
  datatype FrpcConfig = FrpcConfig(
    serverAddr: string,
    serverPort: nat,
    token: string,
    proxy: string,
    localPort: nat,
    remotePort: nat)

  /** What a script does, in order. */
  datatype Step =
    | Exec(command: string)      // a one-shot command, awaited
    | Launch(command: string)    // a long-running command, spawned
    | Truncate(bytes: int)       // `truncate -s <bytes>` of the disk or swap file
    | Write(config: FrpcConfig)  // the local frpc.toml

  /** The sizes of the `truncate -s` steps, in order. */
  function Truncations(steps: seq<Step>): (r: seq<int>)
    ensures |r| <= |steps|
  {
    if steps == [] then []
    else (if steps[0].Truncate? then [steps[0].bytes] else []) + Truncations(steps[1..])
  }

  lemma {:induction false} TruncationsAppend(a: seq<Step>, b: seq<Step>)
    ensures Truncations(a + b) == Truncations(a) + Truncations(b)
    decreases a
  {
    if a == [] {
      assert a + b == b;
    } else {
      assert (a + b)[0] == a[0] && (a + b)[1..] == a[1..] + b;
      TruncationsAppend(a[1..], b);
    }
  }

  /** A step other than `truncate` leaves the truncations as they were. */
  lemma NoTruncation(steps: seq<Step>, s: Step)
    requires !s.Truncate?
    ensures Truncations(steps + [s]) == Truncations(steps)
  {
    TruncationsAppend(steps, [s]);
  }

  /** No step truncates a file. */
  predicate Untruncated(steps: seq<Step>) {
    forall i :: 0 <= i < |steps| ==> !steps[i].Truncate?
  }

  lemma {:induction false} TruncationsNone(steps: seq<Step>)
    ensures Truncations(steps) == [] <==> Untruncated(steps)
    decreases steps
  {
    if steps != [] {
      TruncationsNone(steps[1..]);
      assert forall i :: 1 <= i < |steps| ==> steps[i] == steps[1..][i - 1];
    }
  }

  /** `steps` followed by one awaited command. */
  function AndExec(steps: seq<Step>, command: string): (r: seq<Step>)
    ensures r == steps + [Exec(command)] && Truncations(r) == Truncations(steps)
  {
    NoTruncation(steps, Exec(command));
    steps + [Exec(command)]
  }

  /** How a run ends: its exit code, the teardowns that started, in order,
      and the steps taken. */
  datatype Run = Run(code: int, ran: seq<string>, steps: seq<Step>)

  /** What the environment does with one long-running command: whether its
      tracker finds the process (`first()` resolves) and what the readiness
      polls see. */
  datatype Daemon = Daemon(found: bool, obs: Observation)

  /** The remote side of a tunnel: the random frps port and token, the random
      forwarded port, and the two long-running commands. */
  datatype Remote = Remote(frpsPort: nat, token: string, forwardPort: nat, frps: Daemon, frpc: Daemon)

  const FrpsReady := "frps started successfully"
  const FrpcReady := "login to server success"
  const KillFrps := "kill remote frps"
  const KillFrpc := "kill local frpc"

  /** The cleanup state in which a script runs its stages: the handlers are
      bound, cleanup has not started, and only leaf callbacks are registered
      (a kill teardown's `addCleanup(promise)` pushes nothing). */
  ghost predicate Live(cs: CleanupStack)
    reads cs
  {
    cs.Valid() && cs.bound && !cs.running && cs.exitCode.None? && Leaves(cs.Slots())
  }

  /** The tags of the registered teardowns, oldest first. */
  ghost function Teardowns(cs: CleanupStack): seq<string>
    reads cs
    requires cs.StackOk()
  {
    Tags(cs.Slots())
  }

  /** `id` is the newest registered teardown, a leaf with this tag. */
  ghost predicate Newest(cs: CleanupStack, id: nat, tag: string, throws: bool)
    reads cs
  {
    && cs.stack != [] && cs.stack[|cs.stack| - 1] == id
    && id < |cs.entries| && cs.entries[id] == Entry(Action(tag, [], throws), Pending)
  }

  /** The start of every script: the module's cleanup stack, with
      `bindCleanup()` called before anything else. */
  method Begin() returns (cs: CleanupStack)
    ensures fresh(cs) && Live(cs) && Teardowns(cs) == [] && cs.trace == []
  {
    cs := new CleanupStack();
    cs.BindCleanup();
  }

  /** `addCleanup(async () => ...)` of a teardown that registers nothing. */
  method Register(cs: CleanupStack, tag: string, throws: bool) returns (id: nat)
    requires Live(cs)
    modifies cs
    ensures Live(cs) && Newest(cs, id, tag, throws)
    ensures Teardowns(cs) == old(Teardowns(cs)) + [tag]
    ensures cs.stack == old(cs.stack) + [id] && cs.entries[..id] == old(cs.entries)
    ensures cs.trace == old(cs.trace)
  {
    ghost var before := cs.Slots();
    id := cs.AddCleanup(Action(tag, [], throws));
    assert Tags(before + [Slot(id, Action(tag, [], throws))]) == Tags(before) + [tag];
  }

  /** The newest entry taken off the stack leaves the older ones as they were. */
  lemma PopSlots(before: seq<Slot>, after: seq<Slot>)
    requires before != [] && after == before[..|before| - 1]
    ensures Leaves(before) ==> Leaves(after)
    ensures Tags(after) == Tags(before)[..|before| - 1]
  {
  }

  /** `await cleanupX()`: the newest teardown runs now and leaves the stack;
      its throw reaches the caller. */
  method InvokeNewest(cs: CleanupStack, id: nat, ghost tag: string, ghost throws: bool) returns (ok: bool)
    requires Live(cs) && Newest(cs, id, tag, throws)
    modifies cs
    ensures Live(cs)
    ensures ok == !throws
    ensures Teardowns(cs) == old(Teardowns(cs))[..|old(cs.stack)| - 1]
    ensures cs.stack == old(cs.stack)[..|old(cs.stack)| - 1] && id < |cs.entries| && cs.entries[..id] == old(cs.entries[..id])
    ensures RanTags(cs.trace) == old(RanTags(cs.trace)) + [tag]
  {
    ghost var before, stack0, trace0 := cs.Slots(), cs.stack, cs.trace;
    EraseLast(cs.stack);
    ok := cs.Invoke(id);
    assert cs.stack == stack0[..|stack0| - 1];
    forall i | 0 <= i < |cs.stack|
      ensures cs.Slots()[i] == before[i]
    {
      assert cs.stack[i] != id;
    }
    PopSlots(before, cs.Slots());
    RanTagsAppend(trace0, Outcome(Slot(id, Action(tag, [], throws))));
    OutcomeRan(Slot(id, Action(tag, [], throws)));
  }

  /** `cleanupX.remove()`: the newest teardown leaves the stack without running. */
  method RemoveNewest(cs: CleanupStack, id: nat, ghost tag: string, ghost throws: bool)
    requires Live(cs) && Newest(cs, id, tag, throws)
    modifies cs
    ensures Live(cs)
    ensures Teardowns(cs) == old(Teardowns(cs))[..|old(cs.stack)| - 1]
    ensures cs.trace == old(cs.trace)
  {
    ghost var before, stack0 := cs.Slots(), cs.stack;
    EraseLast(cs.stack);
    cs.Remove(id);
    forall i | 0 <= i < |cs.stack|
      ensures cs.Slots()[i] == before[i]
    {
      assert cs.stack[i] != id;
    }
    PopSlots(before, cs.Slots());
  }

  /** A throw at top level: the uncaught-exception handler installed by
      `bindCleanup` runs every registered teardown, newest first, and exits 1. */
  method Abort(cs: CleanupStack)
    requires Live(cs)
    modifies cs
    ensures cs.Valid() && cs.running && cs.exitCode == Some(1)
    ensures RanTags(cs.trace) == old(RanTags(cs.trace)) + Reverse(old(Teardowns(cs)))
  {
    ghost var slots, next, trace0 := cs.Slots(), |cs.entries|, cs.trace;
    var _, _ := cs.OnProcessEvent(UncaughtException);
    ShutdownRuns(slots, next, 1);
    RanTagsAppend(trace0, Shutdown(slots, next, 1));
  }

  /** The end of a script that got to "Ready": the race over the three
      long-running commands settles with the first of them.  A fulfilment
      continues to `runCleanupAndExit()` with the default code 0; a rejection
      is thrown at top level and the handler exits 1.  Either way every
      registered teardown runs, newest first. */
  method Settle(cs: CleanupStack, firstFulfilled: bool)
    requires Live(cs)
    modifies cs
    ensures cs.Valid() && cs.running && cs.exitCode == Some(if firstFulfilled then 0 else 1)
    ensures RanTags(cs.trace) == old(RanTags(cs.trace)) + Reverse(old(Teardowns(cs)))
  {
    if !firstFulfilled {
      Abort(cs);
      return;
    }
    ghost var slots, next, trace0 := cs.Slots(), |cs.entries|, cs.trace;
    var _ := cs.RunCleanupAndExit(0);
    ShutdownRuns(slots, next, 0);
    RanTagsAppend(trace0, Shutdown(slots, next, 0));
  }

  /** The run as it ends once cleanup has exited. */
  function Report(cs: CleanupStack, steps: seq<Step>): (r: Run)
    reads cs
    requires cs.exitCode.Some?
    ensures r.code == cs.exitCode.value && r.ran == RanTags(cs.trace) && r.steps == steps
  {
    Run(cs.exitCode.value, RanTags(cs.trace), steps)
  }

  /** The readiness line of a long-running command appears within the polls
      (or it has none to wait for). */
  ghost predicate Up(d: Daemon, pattern: Option<string>) {
    d.found && (pattern.None? || BecomesReady(d.obs, pattern.value))
  }

  /** One long-running stage: spawned, correlated by its tracker, its kill
      teardown registered right after correlation and before the readiness
      wait, so a stage that never becomes ready is still killed.  A failed
      correlation registers nothing. */
  method Stage(cs: CleanupStack, d: Daemon, killTag: string, pattern: Option<string>) returns (ok: bool)
    requires Live(cs)
    modifies cs
    ensures Live(cs) && cs.trace == old(cs.trace)
    ensures Teardowns(cs) == old(Teardowns(cs)) + (if d.found then [killTag] else [])
    ensures ok <==> Up(d, pattern)
  {
    if !d.found {
      return false;
    }
    var _ := Register(cs, killTag, false);
    if pattern.None? {
      return true;
    }
    var r := WaitForText(d.obs, pattern.value);
    ReadyOutcome(r, d.obs, pattern.value);
    ok := r.Ready?;
  }

  /** The frpc.toml: connect to `host` at the frps port with the token, and
      forward the remote port to the local service port under the proxy
      name. */
  function Config(host: string, r: Remote, proxy: string, localPort: nat): FrpcConfig {
    FrpcConfig(host, r.frpsPort, r.token, proxy, localPort, r.forwardPort)
  }

  /** The configuration written for a target connects to the target's host,
      whatever the user and port in front of and behind it. */
  lemma ConfigHost(t: Names.SshTarget, r: Remote, proxy: string, localPort: nat)
    requires Names.WellFormedTarget(t)
    ensures Names.IsSshTarget(Names.RenderTarget(t))
    ensures var c := Config(Names.TargetHost(Names.RenderTarget(t)), r, proxy, localPort);
      && c.serverAddr == t.host && Names.ValidHost(c.serverAddr) && '@' !in c.serverAddr
      && c.serverPort == r.frpsPort && c.token == r.token && c.remotePort == r.forwardPort
  {
    Names.TargetHostOf(t);
  }

  /** The teardowns a tunnel registers: the frps kill once frps is
      correlated, the frpc kill once frpc is. */
  ghost function TunnelTags(r: Remote): seq<string> {
    (if r.frps.found then [KillFrps] else [])
      + (if Up(r.frps, Some(FrpsReady)) && r.frpc.found then [KillFrpc] else [])
  }

  /** The remote frps, then the local frpc configured to reach it: the
      configuration is written after frps is ready and before frpc is
      spawned. */
  method Tunnel(cs: CleanupStack, host: string, r: Remote, proxy: string, localPort: nat) returns (ok: bool, steps: seq<Step>)
    requires Live(cs)
    modifies cs
    ensures Live(cs) && cs.trace == old(cs.trace)
    ensures Teardowns(cs) == old(Teardowns(cs)) + TunnelTags(r)
    ensures ok <==> Up(r.frps, Some(FrpsReady)) && Up(r.frpc, Some(FrpcReady))
    ensures steps == [Launch("frps")]
      + (if Up(r.frps, Some(FrpsReady)) then [Write(Config(host, r, proxy, localPort)), Launch("frpc")] else [])
  {
    steps := [Launch("frps")];
    ok := Stage(cs, r.frps, KillFrps, Some(FrpsReady));
    if !ok {
      return;
    }
    steps := steps + [Write(Config(host, r, proxy, localPort)), Launch("frpc")];
    ok := Stage(cs, r.frpc, KillFrpc, Some(FrpcReady));
  }

  /** What a script serves: the local server it starts and the kill
      teardown it registers for it, the frpc proxy name, and the remote
      command that attaches the forwarded port with the teardown that
      detaches it again. */
  datatype Plan = Plan(server: string, killServer: string, proxy: string, attach: string, detach: string)

  /** What the environment does with the last stages: the local server and
      its random port, the tunnel, whether the attach command fails, whether
      the detach teardown throws, and whether the first long-running command
      to settle succeeded. */
  datatype Outcomes = Outcomes(
    server: Daemon,
    port: nat,
    remote: Remote,
    attachFails: bool,
    detachThrows: bool,
    firstFulfilled: bool)

  /** frps and frpc come up and the attach command succeeds. */
  ghost predicate Exposed(o: Outcomes) {
    Up(o.remote.frps, Some(FrpsReady)) && Up(o.remote.frpc, Some(FrpcReady)) && !o.attachFails
  }

  /** Every stage from the local server on succeeds: the script gets to
      "Ready". */
  ghost predicate Served(o: Outcomes) {
    Up(o.server, None) && Exposed(o)
  }

  /** The teardowns registered from frps on, oldest first. */
  ghost function ExposeTags(p: Plan, o: Outcomes): seq<string> {
    TunnelTags(o.remote) + (if Exposed(o) then [p.detach] else [])
  }

  /** The teardowns registered from the local server on, oldest first: its
      kill once it is correlated, then the rest once it is up. */
  ghost function ServiceTags(p: Plan, o: Outcomes): seq<string> {
    (if o.server.found then [p.killServer] else []) + (if Up(o.server, None) then ExposeTags(p, o) else [])
  }

  /** A script that gets to "Ready" holds the server kill, the frps kill,
      the frpc kill and the detach, and drains them in the opposite order. */
  lemma ServedTags(p: Plan, o: Outcomes)
    requires Served(o)
    ensures ServiceTags(p, o) == [p.killServer, KillFrps, KillFrpc, p.detach]
    ensures Reverse(ServiceTags(p, o)) == [p.detach, KillFrpc, KillFrps, p.killServer]
  {
  }

  /** The steps from frps on when everything comes up. */
  function ExposeSteps(p: Plan, o: Outcomes, host: string): seq<Step> {
    ([Launch("frps")] + [Write(Config(host, o.remote, p.proxy, o.port)), Launch("frpc")]) + [Exec(p.attach)]
  }

  /** The steps from the local server on when everything comes up. */
  function ServiceSteps(p: Plan, o: Outcomes, host: string): seq<Step> {
    [Launch(p.server)] + ExposeSteps(p, o, host)
  }

  /** The tunnel to the local server's port, the remote attach and its
      teardown, then the race.  Every path ends with all registered
      teardowns run, newest first. */
  method Expose(cs: CleanupStack, p: Plan, o: Outcomes, host: string) returns (steps: seq<Step>)
    requires Live(cs)
    modifies cs
    ensures cs.Valid() && cs.running
    ensures cs.exitCode == Some(if Exposed(o) && o.firstFulfilled then 0 else 1)
    ensures RanTags(cs.trace) == old(RanTags(cs.trace)) + Reverse(old(Teardowns(cs)) + ExposeTags(p, o))
    ensures Untruncated(steps)
    ensures Exposed(o) ==> steps == ExposeSteps(p, o, host)
  {
    ghost var below := Teardowns(cs);
    var ok;
    ok, steps := Tunnel(cs, host, o.remote, p.proxy, o.port);
    assert Untruncated(steps);
    if !ok {
      assert Teardowns(cs) == below + ExposeTags(p, o);
      Abort(cs);
      return;
    }
    steps := steps + [Exec(p.attach)];
    assert Untruncated(steps);
    if o.attachFails {
      assert Teardowns(cs) == below + ExposeTags(p, o);
      Abort(cs);
      return;
    }
    var _ := Register(cs, p.detach, o.detachThrows);
    assert Teardowns(cs) == below + ExposeTags(p, o);
    Settle(cs, o.firstFulfilled);
  }

  /** The local server, which has no readiness line to wait for, then the
      tunnel, the attach and the race. */
  method BringUp(cs: CleanupStack, p: Plan, o: Outcomes, host: string) returns (steps: seq<Step>)
    requires Live(cs)
    modifies cs
    ensures cs.Valid() && cs.running
    ensures cs.exitCode == Some(if Served(o) && o.firstFulfilled then 0 else 1)
    ensures RanTags(cs.trace) == old(RanTags(cs.trace)) + Reverse(old(Teardowns(cs)) + ServiceTags(p, o))
    ensures Untruncated(steps)
    ensures Served(o) ==> steps == ServiceSteps(p, o, host)
  {
    ghost var below := Teardowns(cs);
    var ok := Stage(cs, o.server, p.killServer, None);
    if !ok {
      assert Teardowns(cs) == below + ServiceTags(p, o);
      Abort(cs);
      return [Launch(p.server)];
    }
    ghost var mid := Teardowns(cs);
    var rest := Expose(cs, p, o, host);
    assert below + ServiceTags(p, o) == mid + ExposeTags(p, o) by {
      assert ServiceTags(p, o) == [p.killServer] + ExposeTags(p, o);
    }
    steps := [Launch(p.server)] + rest;
  }

  /** The tag of a teardown that reads the nbd device from the captured
      output of the attach command: the device when the line is there (the
      teardown throws before doing anything otherwise). */
  function DetachTag(action: string, output: string): (tag: string)
    ensures DeviceLine(output).Some? ==> tag == action + " /dev/" + DeviceLine(output).value
  {
    match DeviceLine(output)
    case Some(dev) => action + " /dev/" + dev
    case None => action
  }

  const DeviceMarker := "NBD device is: "

  /** `text.match(/^NBD device is: (.+)$/m)?.[1]`: the rest of the first line
      that starts with the marker and has something after it. */
  function DeviceLine(text: string): (dev: Option<string>)
    ensures dev.Some? ==> |dev.value| > 0 && NoLineTerminator(dev.value)
    decreases |text|
  {
    var k := RunLength(text, |text|);
    var line := text[..k];
    if StartsWith(line, DeviceMarker) && |line| > |DeviceMarker| then
      Some(line[|DeviceMarker|..])
    else if k == |text| then None
    else DeviceLine(text[k + 1..])
  }

  /** The line the remote script echoes is found. */
  lemma DeviceLineEcho(dev: string, rest: string)
    requires |dev| > 0 && NoLineTerminator(dev)
    ensures DeviceLine(DeviceMarker + dev + "\n" + rest) == Some(dev)
  {
    var text := DeviceMarker + dev + "\n" + rest;
    var n := |DeviceMarker + dev|;
    assert text[..n] == DeviceMarker + dev;
    assert text[n] == '\n';
    assert RunLength(text, |text|) == n by {
      assert forall i :: 0 <= i < n ==> text[i] == (DeviceMarker + dev)[i];
      RunLengthStops(text, n);
    }
  }

  /** A line without the marker is skipped. */
  lemma DeviceLineSkips(line: string, rest: string)
    requires NoLineTerminator(line) && !(StartsWith(line, DeviceMarker) && |line| > |DeviceMarker|)
    ensures DeviceLine(line + "\n" + rest) == DeviceLine(rest)
  {
    var text := line + "\n" + rest;
    assert text[..|line|] == line && text[|line| + 1..] == rest;
    RunLengthStops(text, |line|);
  }

  /** The longest terminator-free prefix ends at the first terminator. */
  lemma RunLengthStops(s: string, n: nat)
    requires n < |s| && IsLineTerminator(s[n])
    requires forall i :: 0 <= i < n ==> !IsLineTerminator(s[i])
    ensures RunLength(s, |s|) == n
  {
  }
}
