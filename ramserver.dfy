/** development/rpiNbdRamServer.ts: lends the Raspberry Pi swap space kept in
    the host's RAM (or in a host file) over NBD.  After the argument and tool
    checks it takes a temp directory, maps the `--ram` URL to a directory,
    creates it, mounts a ramfs there for a `ramfs:` URL, creates and formats
    a swap file of `--size` bytes in it, starts nbdkit, the remote frps and
    the local frpc, turns the swap on on the target, and waits for the first
    long-running command to settle.

    The command line, the file system, the commands' exit status, the
    tracker outcomes and the readiness polls are inputs (`Env`). */
module RamServer {
  import opened Common
  import opened Cleanup
  import opened Stages
  import Names
  import Sizes

  const RemoveTemp := "remove temp dir"
  const RemoveMount := "remove mount dir"
  const UnmountRamfs := "unmount ramfs"
  const KillNbdkit := "kill nbdkit"
  const SwapOff := "swapoff and disconnect"

  /** The parts of the parsed `--ram` URL the script reads. */
  datatype RamUrl = RamUrl(protocol: string, host: string, pathname: string)

  /** The directory the swap file goes into: an absolute path, or a path
      joined to the working directory or to the home directory. */
  datatype Place = Absolute(path: string) | InCwd(rel: string) | InHome(rel: string)

  /** Why a URL has no place: `fileURLToPath` refuses a scheme other than
      `file:`, or the host is none of "", "." and "~". */
  datatype UrlError = NotFileScheme | UnknownHost

  /** Lines 35-39 as written: an empty host goes through `fileURLToPath`,
      which throws for any scheme but `file:` — including the `ramfs:` URLs
      the `--ram` help text suggests. */
  function PlaceAsWritten(u: RamUrl): (r: Result<Place, UrlError>)
    ensures r == Err(NotFileScheme) <==> u.host == "" && u.protocol != "file:"
  {
    if u.host == "" then
      if u.protocol == "file:" then Ok(Absolute(u.pathname)) else Err(NotFileScheme)
    else if u.host == "." then Ok(InCwd(u.pathname))
    else if u.host == "~" then Ok(InHome(u.pathname))
    else Err(UnknownHost)
  }

  /** Lines 35-39 as evidently intended: an empty host names the absolute
      path of the URL, whatever the scheme. */
  function PlaceOf(u: RamUrl): (r: Result<Place, UrlError>)
    ensures r.Ok? <==> u.host == "" || u.host == "." || u.host == "~"
    ensures r.Err? ==> r.error == UnknownHost
  {
    if u.host == "" then Ok(Absolute(u.pathname))
    else if u.host == "." then Ok(InCwd(u.pathname))
    else if u.host == "~" then Ok(InHome(u.pathname))
    else Err(UnknownHost)
  }

  /** Every place keeps the URL's path, and the host alone picks the base:
      "" the root, "." the working directory, "~" the home directory. */
  lemma PlaceKeepsPath(u: RamUrl)
    requires PlaceOf(u).Ok?
    ensures var p := PlaceOf(u).value;
      && (p.Absolute? <==> u.host == "") && (p.InCwd? <==> u.host == ".") && (p.InHome? <==> u.host == "~")
      && (if p.Absolute? then p.path else p.rel) == u.pathname
  {
  }

  /** The two mappings differ exactly on an empty host under a scheme other
      than `file:`, where the code as written throws. */
  lemma PlaceAgrees(u: RamUrl)
    ensures PlaceAsWritten(u) == PlaceOf(u) <==> !(u.host == "" && u.protocol != "file:")
  {
  }

  /** The help text's own example is rejected as written and mapped to
      /mnt/rpi-nbd-ram-0 as intended. */
  lemma RamfsExample()
    ensures PlaceAsWritten(RamUrl("ramfs:", "", "/mnt/rpi-nbd-ram-0")) == Err(NotFileScheme)
    ensures PlaceOf(RamUrl("ramfs:", "", "/mnt/rpi-nbd-ram-0")) == Ok(Absolute("/mnt/rpi-nbd-ram-0"))
  {
  }

  datatype Env = Env(
    target: string,            // --target
    size: string,              // --size, before `sizeToBytes`
    ram: Option<RamUrl>,       // --ram, None when `new URL` throws
    toolsFound: bool,          // every `which` succeeds
    placeExists: bool,         // `existsSync(mountPath)`
    failing: set<string>,      // one-shot commands that exit non-zero
    nbdkitPort: nat,
    nbdkit: Daemon,
    remote: Remote,
    swapOutput: string,        // what the remote swapon script prints
    firstFulfilled: bool)      // the first long-running command to settle succeeded

  /** `--size` parses and the target matches the SSH target pattern. */
  predicate ArgsOk(env: Env) {
    Sizes.SizeToBytes(env.size).Ok? && Names.IsSshTarget(env.target)
  }

  /** The URL parses, maps to a place through the mapping as written, and
      nothing exists there yet. */
  predicate Placed(env: Env) {
    env.ram.Some? && PlaceAsWritten(env.ram.value).Ok? && !env.placeExists
  }

  /** The help text's own `ramfs:` example never gets a place, so the run
      stops with exit code 1 after removing only the temp directory
      (`Serve`'s third ensures); the intended mapping would place it. */
  lemma RamfsRefused(env: Env)
    requires env.ram == Some(RamUrl("ramfs:", "", "/mnt/rpi-nbd-ram-0"))
    ensures !Placed(env) && !Serving(env)
    ensures PlaceOf(env.ram.value).Ok?
  {
    RamfsExample();
  }

  predicate IsRamfs(env: Env) {
    env.ram.Some? && env.ram.value.protocol == "ramfs:"
  }

  /** The protocol branch succeeds: a mounted and owned ramfs, or a plain
      `file:` directory. */
  predicate Backed(env: Env) {
    if IsRamfs(env) then "mount ramfs" !in env.failing && "chown" !in env.failing
    else env.ram.Some? && env.ram.value.protocol == "file:"
  }

  predicate SwapMade(env: Env) {
    "truncate" !in env.failing && "mkswap" !in env.failing
  }

  /** The ramfs unmount, registered once the ramfs is mounted. */
  function RamfsTags(env: Env): seq<string> {
    if IsRamfs(env) && "mount ramfs" !in env.failing then [UnmountRamfs] else []
  }

  /** The teardowns the place step registers, oldest first: the directory's
      removal once it is created, then the ramfs unmount once it is
      mounted. */
  function PlaceTags(env: Env): seq<string> {
    [RemoveMount] + RamfsTags(env)
  }

  /** The steps of the protocol branch when it succeeds. */
  function BackingSteps(env: Env): seq<Step> {
    if IsRamfs(env) then [Exec("mount ramfs"), Exec("chown")] else []
  }

  /** nbdkit serves the swap file to the tunnel; the remote side turns it on
      as swap, and the teardown turns off the device named in the output. */
  function Swap(env: Env): Plan {
    Plan("nbdkit", KillNbdkit, "nbd-server", "swapon nbd", DetachTag(SwapOff, env.swapOutput))
  }

  function Rest(env: Env): Outcomes {
    Outcomes(env.nbdkit, env.nbdkitPort, env.remote, "swapon nbd" in env.failing,
      DeviceLine(env.swapOutput).None?, env.firstFulfilled)
  }

  /** The swap teardown turns off the device the remote script echoed, and
      does not throw. */
  lemma SwapDevice(env: Env, dev: string, rest: string)
    requires |dev| > 0 && NoLineTerminator(dev)
    requires env.swapOutput == DeviceMarker + dev + "\n" + rest
    ensures Swap(env).detach == SwapOff + " /dev/" + dev && !Rest(env).detachThrows
  {
    DeviceLineEcho(dev, rest);
  }

  /** Every stage up to the swapon succeeds. */
  ghost predicate Serving(env: Env) {
    ArgsOk(env) && env.toolsFound && Placed(env) && Backed(env) && SwapMade(env) && Served(Rest(env))
  }

  /** Lines 12-32: `--size` goes through `sizeToBytes` while the command line
      is parsed, the target is checked, the tools are looked up, and only
      then is the temp directory taken and its removal registered. */
  method Acquire(cs: CleanupStack, env: Env) returns (ok: bool, size: int)
    requires Live(cs) && Teardowns(cs) == [] && cs.trace == []
    modifies cs
    ensures ok <==> ArgsOk(env) && env.toolsFound
    ensures ok ==> Live(cs) && Teardowns(cs) == [RemoveTemp] && cs.trace == []
    ensures ok ==> Sizes.SizeToBytes(env.size) == Ok(size)
    ensures !ok ==> cs.exitCode == Some(1) && RanTags(cs.trace) == []
  {
    var parsed := Sizes.SizeToBytes(env.size);
    if parsed.Err? || !Names.IsSshTarget(env.target) || !env.toolsFound {
      Abort(cs);
      return false, 0;
    }
    size := parsed.value;
    var _ := Register(cs, RemoveTemp, false);
    ok := true;
  }

  /** Lines 49-60: only `ramfs:` mounts (and registers the unmount right
      after), `file:` does nothing, any other protocol throws. */
  method Back(cs: CleanupStack, env: Env) returns (ok: bool, steps: seq<Step>)
    requires Live(cs) && env.ram.Some?
    modifies cs
    ensures ok <==> Backed(env)
    ensures ok ==> Live(cs) && Teardowns(cs) == old(Teardowns(cs)) + RamfsTags(env) && cs.trace == old(cs.trace)
    ensures ok ==> steps == BackingSteps(env)
    ensures !ok ==> cs.Valid() && cs.running && cs.exitCode == Some(1)
    ensures !ok ==> RanTags(cs.trace) == old(RanTags(cs.trace)) + Reverse(old(Teardowns(cs)) + RamfsTags(env))
  {
    steps := [];
    if env.ram.value.protocol == "ramfs:" {
      steps := [Exec("mount ramfs")];
      if "mount ramfs" in env.failing {
        Abort(cs);
        return false, steps;
      }
      var _ := Register(cs, UnmountRamfs, false);
      steps := steps + [Exec("chown")];
      if "chown" in env.failing {
        Abort(cs);
        return false, steps;
      }
    } else if env.ram.value.protocol != "file:" {
      Abort(cs);
      return false, steps;
    }
    ok := true;
  }

  /** Lines 34-60: the URL, its place, the existence check, the directory
      and its removal, then the protocol branch.  The directory's removal is
      registered before the protocol is looked at, so an unsupported
      protocol still removes it. */
  method Locate(cs: CleanupStack, env: Env) returns (ok: bool, steps: seq<Step>)
    requires Live(cs)
    modifies cs
    ensures ok <==> Placed(env) && Backed(env)
    ensures ok ==> Live(cs) && Teardowns(cs) == old(Teardowns(cs)) + PlaceTags(env) && cs.trace == old(cs.trace)
    ensures ok ==> steps == BackingSteps(env)
    ensures !ok ==> cs.Valid() && cs.running && cs.exitCode == Some(1)
    ensures !Placed(env) ==> steps == [] && RanTags(cs.trace) == old(RanTags(cs.trace)) + Reverse(old(Teardowns(cs)))
    ensures Placed(env) && !Backed(env) ==>
      RanTags(cs.trace) == old(RanTags(cs.trace)) + Reverse(old(Teardowns(cs)) + PlaceTags(env))
  {
    steps := [];
    if env.ram.None? {
      Abort(cs);
      return false, steps;
    }
    var place := PlaceAsWritten(env.ram.value);
    if place.Err? || env.placeExists {
      Abort(cs);
      return false, steps;
    }
    ghost var below := Teardowns(cs);
    var _ := Register(cs, RemoveMount, false);
    ok, steps := Back(cs, env);
    assert below + PlaceTags(env) == below + [RemoveMount] + RamfsTags(env);
  }

  /** Lines 61-62: the swap file of `--size` bytes, then its swap
      signature. */
  method MakeSwap(cs: CleanupStack, env: Env, size: int) returns (ok: bool, steps: seq<Step>)
    requires Live(cs)
    modifies cs
    ensures ok <==> SwapMade(env)
    ensures Truncations(steps) == [size]
    ensures ok ==> steps == [Truncate(size), Exec("mkswap")]
    ensures ok ==> Live(cs) && Teardowns(cs) == old(Teardowns(cs)) && cs.trace == old(cs.trace)
    ensures !ok ==> cs.Valid() && cs.running && cs.exitCode == Some(1)
    ensures !ok ==> RanTags(cs.trace) == old(RanTags(cs.trace)) + Reverse(old(Teardowns(cs)))
  {
    steps := [Truncate(size)];
    if "truncate" in env.failing {
      Abort(cs);
      return false, steps;
    }
    steps := AndExec(steps, "mkswap");
    ok := "mkswap" !in env.failing;
    if !ok {
      Abort(cs);
    }
  }

  /** Lines 61-197: the swap file, then the service. */
  method Lend(cs: CleanupStack, env: Env, size: int, host: string) returns (steps: seq<Step>)
    requires Live(cs)
    modifies cs
    ensures cs.Valid() && cs.running
    ensures cs.exitCode == Some(if SwapMade(env) && Served(Rest(env)) && env.firstFulfilled then 0 else 1)
    ensures Truncations(steps) == [size]
    ensures !SwapMade(env) ==> RanTags(cs.trace) == old(RanTags(cs.trace)) + Reverse(old(Teardowns(cs)))
    ensures SwapMade(env) ==>
      RanTags(cs.trace) == old(RanTags(cs.trace)) + Reverse(old(Teardowns(cs)) + ServiceTags(Swap(env), Rest(env)))
    ensures SwapMade(env) && Served(Rest(env)) ==>
      steps == [Truncate(size), Exec("mkswap")] + ServiceSteps(Swap(env), Rest(env), host)
  {
    var ok;
    ok, steps := MakeSwap(cs, env, size);
    if !ok {
      return;
    }
    var service := BringUp(cs, Swap(env), Rest(env), host);
    TruncationsNone(service);
    TruncationsAppend(steps, service);
    steps := steps + service;
  }

  /** The temp directory goes last, after the place's teardowns. */
  lemma TempLast(place: seq<string>, later: seq<string>)
    ensures Reverse([RemoveTemp] + place + later) == Reverse(later) + Reverse(place) + [RemoveTemp]
  {
    ReverseAppend([RemoveTemp] + place, later);
    TempFirst(place);
    assert Reverse([RemoveTemp] + place + later) == Reverse(later) + (Reverse(place) + [RemoveTemp]);
  }

  lemma TempFirst(place: seq<string>)
    ensures Reverse([RemoveTemp] + place) == Reverse(place) + [RemoveTemp]
  {
    ReverseAppend([RemoveTemp], place);
    ReverseOne(RemoveTemp);
  }

  /** The run once the temp directory is held: the place, the swap file and
      the service. */
  method Finish(cs: CleanupStack, env: Env, size: int, host: string) returns (r: Run)
    requires Live(cs) && Teardowns(cs) == [RemoveTemp] && cs.trace == []
    modifies cs
    ensures r.code == if Placed(env) && Backed(env) && SwapMade(env) && Served(Rest(env)) && env.firstFulfilled then 0 else 1
    ensures !Placed(env) ==> r == Run(1, [RemoveTemp], [])
    ensures Placed(env) && !Backed(env) ==> r.ran == Reverse(PlaceTags(env)) + [RemoveTemp]
    ensures Placed(env) && Backed(env) ==> Truncations(r.steps) == [size]
    ensures Placed(env) && Backed(env) && !SwapMade(env) ==> r.ran == Reverse(PlaceTags(env)) + [RemoveTemp]
    ensures Placed(env) && Backed(env) && SwapMade(env) ==>
      r.ran == Reverse(ServiceTags(Swap(env), Rest(env))) + Reverse(PlaceTags(env)) + [RemoveTemp]
    ensures Placed(env) && Backed(env) && SwapMade(env) && Served(Rest(env)) ==>
      r.steps == BackingSteps(env) + ([Truncate(size), Exec("mkswap")] + ServiceSteps(Swap(env), Rest(env), host))
  {
    var ok, steps := Locate(cs, env);
    if !ok {
      if Placed(env) {
        TempFirst(PlaceTags(env));
      } else {
        ReverseOne(RemoveTemp);
      }
      return Report(cs, steps);
    }
    var rest := Lend(cs, env, size, host);
    if SwapMade(env) {
      TempLast(PlaceTags(env), ServiceTags(Swap(env), Rest(env)));
    } else {
      TempFirst(PlaceTags(env));
    }
    TruncationsAppend(steps, rest);
    TruncationsNone(steps);
    r := Report(cs, steps + rest);
  }

  /** The script from start to exit: exit code 0 exactly when every stage
      came up and the first long-running command to settle succeeded; the
      teardowns that ran, newest first, for each way it can stop. */
  method Serve(env: Env) returns (r: Run)
    ensures r.code == 0 <==> Serving(env) && env.firstFulfilled
    ensures !(ArgsOk(env) && env.toolsFound) ==> r == Run(1, [], [])
    ensures ArgsOk(env) && env.toolsFound && !Placed(env) ==> r == Run(1, [RemoveTemp], [])
    ensures ArgsOk(env) && env.toolsFound && Placed(env) && !Backed(env) ==>
      r.ran == Reverse(PlaceTags(env)) + [RemoveTemp]
    ensures ArgsOk(env) && env.toolsFound && Placed(env) && Backed(env) ==>
      Truncations(r.steps) == [Sizes.SizeToBytes(env.size).value]
    ensures ArgsOk(env) && env.toolsFound && Placed(env) && Backed(env) && SwapMade(env) ==>
      r.ran == Reverse(ServiceTags(Swap(env), Rest(env))) + Reverse(PlaceTags(env)) + [RemoveTemp]
  {
    var cs := Begin();
    var ok, size := Acquire(cs, env);
    if !ok {
      return Report(cs, []);
    }
    r := Finish(cs, env, size, Names.TargetHost(env.target));
  }
}
