/** development/scripts/rpiNbdDiskServer.ts: serves a local disk file to the
    Raspberry Pi over NBD.  After the target check and the tool check it
    takes a temp directory and the disk lock, creates the disk file (or grows
    it), starts nbdkit, the remote frps and the local frpc, mounts the disk
    on the target, and waits for the first long-running command to settle.

    The command line, the file system, the lock, the commands' exit status,
    the tracker outcomes and the readiness polls are inputs (`Env`). */
module DiskServer {
  import opened Common
  import opened Cleanup
  import opened Stages
  import Names
  import Sizes

  const RemoveTemp := "remove temp dir"
  const Unlock := "unlock disk file"
  const DeleteDisk := "delete disk file"
  const DetachLoop := "detach loop device"
  const KillNbdkit := "kill nbdkit"
  const Unmount := "unmount and disconnect"

  datatype Env = Env(
    target: string,            // --target
    size: Option<string>,      // --size, before `sizeToBytes`
    toolsFound: bool,          // every `which` succeeds
    locked: bool,              // `lockfile.check` of the disk file
    diskExists: bool,
    diskBytes: nat,            // `stat.size` of an existing disk file
    confirmed: bool,           // the answer to "Do you want to grow the disk file?"
    failing: set<string>,      // one-shot commands that exit non-zero
    detachThrows: bool,        // the loop-detach teardown throws
    nbdkitPort: nat,
    nbdkit: Daemon,
    remote: Remote,
    mountOutput: string,       // what the remote mount script prints
    firstFulfilled: bool)      // the first long-running command to settle succeeded

  /** The new-disk commands up to attaching the loop device succeed. */
  predicate Attached(env: Env) {
    "truncate" !in env.failing && "parted mklabel" !in env.failing
      && "parted mkpart" !in env.failing && "losetup" !in env.failing
  }

  predicate CreateSucceeds(env: Env) {
    Attached(env) && "mkfs.ext4" !in env.failing
  }

  predicate GrowSucceeds(env: Env) {
    "truncate" !in env.failing && "losetup" !in env.failing && "parted resizepart" !in env.failing
      && "e2fsck" !in env.failing && "resize2fs" !in env.failing
  }

  /** `--size` is absent or parses (commander runs `sizeToBytes` while
      parsing, and its throw aborts the script). */
  predicate SizeOk(env: Env) {
    env.size.None? || Sizes.SizeToBytes(env.size.value).Ok?
  }

  /** `cliOptions.size`: the parsed `--size`, if given. */
  function Parsed(env: Env): Option<int>
    requires SizeOk(env)
  {
    if env.size.Some? then Some(Sizes.SizeToBytes(env.size.value).value) else None
  }

  /** `sizeToBytes("8G")`, the size of a new disk file without `--size`. */
  function DefaultSize(): (n: int)
    ensures n == 8000000000
  {
    var t := "8G";
    Sizes.DefaultDiskSize(t);
    Sizes.SizeToBytes(t).value
  }

  /** The size a new disk file is truncated to: `--size`, else 8G. */
  function NewDiskBytes(size: Option<int>): int {
    if size.Some? then size.value else 8000000000
  }

  /** An existing disk is grown only when it is smaller than the parsed
      `--size` and the operator agrees. */
  predicate GrowWanted(env: Env, size: Option<int>) {
    env.diskExists && size.Some? && env.diskBytes < size.value && env.confirmed
  }

  /** Everything before the disk step succeeds. */
  predicate Preflight(env: Env) {
    SizeOk(env) && Names.IsSshTarget(env.target) && env.toolsFound && !env.locked
  }

  /** A loop device is attached: a new disk, or a disk being grown. */
  predicate UsesLoop(env: Env, size: Option<int>) {
    !env.diskExists || GrowWanted(env, size)
  }

  /** The disk step succeeds, including the direct call of the loop-detach
      teardown. */
  predicate DiskReady(env: Env, size: Option<int>) {
    if !env.diskExists then CreateSucceeds(env) && !env.detachThrows
    else if GrowWanted(env, size) then GrowSucceeds(env) && !env.detachThrows
    else true
  }

  /** The teardowns that ran before the end: the loop detach, called directly. */
  function Early(env: Env, size: Option<int>): seq<string> {
    if UsesLoop(env, size) then [DetachLoop] else []
  }

  /** nbdkit serves the disk file to the tunnel; the remote side mounts
      its first partition, and the teardown unmounts it and disconnects the
      device named in the output. */
  function Nbd(env: Env): Plan {
    Plan("nbdkit", KillNbdkit, "nbd-server", "mount nbd", DetachTag(Unmount, env.mountOutput))
  }

  function Rest(env: Env): Outcomes {
    Outcomes(env.nbdkit, env.nbdkitPort, env.remote, "mount nbd" in env.failing,
      DeviceLine(env.mountOutput).None?, env.firstFulfilled)
  }

  /** The unmount teardown disconnects the device the remote script
      echoed, and does not throw. */
  lemma MountDevice(env: Env, dev: string, rest: string)
    requires |dev| > 0 && NoLineTerminator(dev)
    requires env.mountOutput == DeviceMarker + dev + "\n" + rest
    ensures Nbd(env).detach == Unmount + " /dev/" + dev && !Rest(env).detachThrows
  {
    DeviceLineEcho(dev, rest);
  }

  /** Every stage up to the mount succeeds. */
  ghost predicate Serving(env: Env) {
    Preflight(env) && DiskReady(env, Parsed(env)) && Served(Rest(env))
  }

  /** The disk step on a new disk file (rpiNbdDiskServer.ts:43-63). */
  method CreateDisk(cs: CleanupStack, env: Env, bytes: int) returns (ok: bool, steps: seq<Step>)
    requires Live(cs)
    modifies cs
    ensures Live(cs)
    ensures Truncations(steps) == [bytes]
    ensures ok <==> CreateSucceeds(env) && !env.detachThrows
    ensures ok ==> Teardowns(cs) == old(Teardowns(cs)) && RanTags(cs.trace) == old(RanTags(cs.trace)) + [DetachLoop]
    ensures !ok && "truncate" in env.failing ==>
      Teardowns(cs) == old(Teardowns(cs)) && cs.trace == old(cs.trace)
    ensures !ok && "truncate" !in env.failing && !Attached(env) ==>
      Teardowns(cs) == old(Teardowns(cs)) + [DeleteDisk] && cs.trace == old(cs.trace)
    ensures !ok && Attached(env) && "mkfs.ext4" in env.failing ==>
      Teardowns(cs) == old(Teardowns(cs)) + [DeleteDisk, DetachLoop] && cs.trace == old(cs.trace)
    ensures !ok && CreateSucceeds(env) ==>
      Teardowns(cs) == old(Teardowns(cs)) + [DeleteDisk] && RanTags(cs.trace) == old(RanTags(cs.trace)) + [DetachLoop]
  {
    ghost var below := Teardowns(cs);
    steps := [Truncate(bytes)];
    if "truncate" in env.failing {
      return false, steps;
    }
    var deleteId := Register(cs, DeleteDisk, false);
    steps := AndExec(steps, "parted mklabel");
    if "parted mklabel" in env.failing {
      return false, steps;
    }
    steps := AndExec(steps, "parted mkpart");
    if "parted mkpart" in env.failing {
      return false, steps;
    }
    steps := AndExec(steps, "losetup");
    if "losetup" in env.failing {
      return false, steps;
    }
    var loopId := Register(cs, DetachLoop, env.detachThrows);
    steps := AndExec(steps, "mkfs.ext4");
    if "mkfs.ext4" in env.failing {
      return false, steps;
    }
    ok := InvokeNewest(cs, loopId, DetachLoop, env.detachThrows);
    if !ok {
      return;
    }
    RemoveNewest(cs, deleteId, DeleteDisk, false);
  }

  /** The disk step on an existing disk file with `--size`
      (rpiNbdDiskServer.ts:64-91): a larger disk is left alone, a smaller one
      is grown only when the operator agrees. */
  method GrowDisk(cs: CleanupStack, env: Env, size: int) returns (ok: bool, steps: seq<Step>)
    requires Live(cs) && env.diskExists
    modifies cs
    ensures Live(cs)
    ensures Truncations(steps) == if GrowWanted(env, Some(size)) then [size] else []
    ensures ok <==> !GrowWanted(env, Some(size)) || (GrowSucceeds(env) && !env.detachThrows)
    ensures ok ==> Teardowns(cs) == old(Teardowns(cs)) && RanTags(cs.trace) == old(RanTags(cs.trace)) + Early(env, Some(size))
    ensures !ok && ("truncate" in env.failing || "losetup" in env.failing) ==>
      Teardowns(cs) == old(Teardowns(cs)) && cs.trace == old(cs.trace)
    ensures !ok && "truncate" !in env.failing && "losetup" !in env.failing && !GrowSucceeds(env) ==>
      Teardowns(cs) == old(Teardowns(cs)) + [DetachLoop] && cs.trace == old(cs.trace)
    ensures !ok && GrowSucceeds(env) ==>
      Teardowns(cs) == old(Teardowns(cs)) && RanTags(cs.trace) == old(RanTags(cs.trace)) + [DetachLoop]
  {
    steps := [];
    if !(env.diskBytes < size && env.confirmed) {
      return true, steps;
    }
    steps := [Truncate(size)];
    if "truncate" in env.failing {
      return false, steps;
    }
    steps := AndExec(steps, "losetup");
    if "losetup" in env.failing {
      return false, steps;
    }
    var loopId := Register(cs, DetachLoop, env.detachThrows);
    steps := AndExec(steps, "parted resizepart");
    if "parted resizepart" in env.failing {
      return false, steps;
    }
    steps := AndExec(steps, "e2fsck");
    if "e2fsck" in env.failing {
      return false, steps;
    }
    steps := AndExec(steps, "resize2fs");
    if "resize2fs" in env.failing {
      return false, steps;
    }
    ok := InvokeNewest(cs, loopId, DetachLoop, env.detachThrows);
  }

  /** Lines 9-25: `--size` goes through `sizeToBytes` while the command line
      is parsed, then the target must match the SSH target pattern; either
      failure throws before anything is registered or spawned. */
  method CheckArguments(cs: CleanupStack, env: Env) returns (ok: bool, size: Option<int>)
    requires Live(cs) && Teardowns(cs) == [] && cs.trace == []
    modifies cs
    ensures ok <==> SizeOk(env) && Names.IsSshTarget(env.target)
    ensures ok ==> Live(cs) && Teardowns(cs) == [] && cs.trace == [] && size == Parsed(env)
    ensures !ok ==> cs.exitCode == Some(1) && RanTags(cs.trace) == []
  {
    size := None;
    if env.size.Some? {
      var parsed := Sizes.SizeToBytes(env.size.value);
      if parsed.Err? {
        Abort(cs);
        return false, size;
      }
      size := Some(parsed.value);
    }
    ok := Names.IsSshTarget(env.target);
    if !ok {
      Abort(cs);
    }
  }

  /** Lines 26-41: the tools, the temp directory, the lock check, the lock.
      The unlock teardown is registered only once the lock is taken. */
  method Acquire(cs: CleanupStack, env: Env) returns (ok: bool)
    requires Live(cs) && Teardowns(cs) == [] && cs.trace == []
    modifies cs
    ensures ok <==> env.toolsFound && !env.locked
    ensures ok ==> Live(cs) && Teardowns(cs) == [RemoveTemp, Unlock] && cs.trace == []
    ensures !ok ==> cs.Valid() && cs.running && cs.exitCode == Some(1)
    ensures !env.toolsFound ==> RanTags(cs.trace) == []
    ensures env.toolsFound && env.locked ==> RanTags(cs.trace) == [RemoveTemp]
  {
    if !env.toolsFound {
      Abort(cs);
      return false;
    }
    var _ := Register(cs, RemoveTemp, false);
    if env.locked {
      Abort(cs);
      return false;
    }
    var _ := Register(cs, Unlock, false);
    ok := true;
  }

  /** Lines 43-63 followed by the abort a failure leads to: the teardowns
      registered so far run newest first. */
  method PrepareNew(cs: CleanupStack, env: Env, bytes: int) returns (ok: bool, steps: seq<Step>)
    requires Live(cs)
    modifies cs
    ensures Truncations(steps) == [bytes]
    ensures ok <==> CreateSucceeds(env) && !env.detachThrows
    ensures ok ==> Live(cs) && Teardowns(cs) == old(Teardowns(cs)) && RanTags(cs.trace) == old(RanTags(cs.trace)) + [DetachLoop]
    ensures !ok ==> cs.Valid() && cs.running && cs.exitCode == Some(1)
    ensures "truncate" in env.failing ==>
      RanTags(cs.trace) == old(RanTags(cs.trace)) + Reverse(old(Teardowns(cs)))
    ensures "truncate" !in env.failing && !Attached(env) ==>
      RanTags(cs.trace) == old(RanTags(cs.trace)) + [DeleteDisk] + Reverse(old(Teardowns(cs)))
    ensures Attached(env) && ("mkfs.ext4" in env.failing || env.detachThrows) ==>
      RanTags(cs.trace) == old(RanTags(cs.trace)) + [DetachLoop, DeleteDisk] + Reverse(old(Teardowns(cs)))
  {
    ghost var below, ran := Teardowns(cs), RanTags(cs.trace);
    ok, steps := CreateDisk(cs, env, bytes);
    if !ok {
      ghost var mid, midRan := Teardowns(cs), RanTags(cs.trace);
      Abort(cs);
      CreateAborts(env, below, ran, mid, midRan);
    }
  }

  /** What the abort after a failed creation runs: the loop detach and the
      disk file's deletion, as far as they were registered or not yet run,
      then the teardowns held before. */
  lemma CreateAborts(env: Env, below: seq<string>, ran: seq<string>, mid: seq<string>, midRan: seq<string>)
    requires "truncate" in env.failing ==> mid == below && midRan == ran
    requires "truncate" !in env.failing && !Attached(env) ==> mid == below + [DeleteDisk] && midRan == ran
    requires Attached(env) && "mkfs.ext4" in env.failing ==> mid == below + [DeleteDisk, DetachLoop] && midRan == ran
    requires CreateSucceeds(env) ==> mid == below + [DeleteDisk] && midRan == ran + [DetachLoop]
    ensures "truncate" in env.failing ==> midRan + Reverse(mid) == ran + Reverse(below)
    ensures "truncate" !in env.failing && !Attached(env) ==> midRan + Reverse(mid) == ran + [DeleteDisk] + Reverse(below)
    ensures Attached(env) && ("mkfs.ext4" in env.failing || env.detachThrows) ==>
      midRan + Reverse(mid) == ran + [DetachLoop, DeleteDisk] + Reverse(below)
  {
    if "truncate" in env.failing {
    } else if !Attached(env) || CreateSucceeds(env) {
      ReverseAppend(below, [DeleteDisk]);
    } else {
      ReverseAppend(below, [DeleteDisk, DetachLoop]);
      assert Reverse([DeleteDisk, DetachLoop]) == [DetachLoop, DeleteDisk];
    }
  }

  /** What the abort after a failed grow runs: the loop detach when the
      loop device was attached, then the teardowns held before. */
  lemma GrowAborts(env: Env, below: seq<string>, ran: seq<string>, mid: seq<string>, midRan: seq<string>)
    requires "truncate" in env.failing || "losetup" in env.failing ==> mid == below && midRan == ran
    requires "truncate" !in env.failing && "losetup" !in env.failing && !GrowSucceeds(env) ==>
      mid == below + [DetachLoop] && midRan == ran
    requires GrowSucceeds(env) ==> mid == below && midRan == ran + [DetachLoop]
    ensures "truncate" in env.failing || "losetup" in env.failing ==> midRan + Reverse(mid) == ran + Reverse(below)
    ensures "truncate" !in env.failing && "losetup" !in env.failing ==>
      midRan + Reverse(mid) == ran + [DetachLoop] + Reverse(below)
  {
    if "truncate" !in env.failing && "losetup" !in env.failing && !GrowSucceeds(env) {
      ReverseAppend(below, [DetachLoop]);
    }
  }

  /** Lines 64-91 followed by the abort a failure leads to. */
  method PrepareGrow(cs: CleanupStack, env: Env, size: int) returns (ok: bool, steps: seq<Step>)
    requires Live(cs) && env.diskExists
    modifies cs
    ensures Truncations(steps) == if GrowWanted(env, Some(size)) then [size] else []
    ensures ok <==> DiskReady(env, Some(size))
    ensures ok ==> Live(cs) && Teardowns(cs) == old(Teardowns(cs)) && RanTags(cs.trace) == old(RanTags(cs.trace)) + Early(env, Some(size))
    ensures !ok ==> cs.Valid() && cs.running && cs.exitCode == Some(1)
    ensures !ok && ("truncate" in env.failing || "losetup" in env.failing) ==>
      RanTags(cs.trace) == old(RanTags(cs.trace)) + Reverse(old(Teardowns(cs)))
    ensures !ok && "truncate" !in env.failing && "losetup" !in env.failing ==>
      RanTags(cs.trace) == old(RanTags(cs.trace)) + [DetachLoop] + Reverse(old(Teardowns(cs)))
  {
    ghost var below, ran := Teardowns(cs), RanTags(cs.trace);
    ok, steps := GrowDisk(cs, env, size);
    if !ok {
      ghost var mid, midRan := Teardowns(cs), RanTags(cs.trace);
      Abort(cs);
      GrowAborts(env, below, ran, mid, midRan);
    }
  }

  /** Lines 43-92: create a missing disk file (`--size`, else 8G), or grow
      an existing one when `--size` is given; a failure aborts. */
  method PrepareDisk(cs: CleanupStack, env: Env, size: Option<int>) returns (ok: bool, steps: seq<Step>)
    requires Live(cs)
    modifies cs
    ensures ok <==> DiskReady(env, size)
    ensures !env.diskExists ==> Truncations(steps) == [NewDiskBytes(size)]
    ensures env.diskExists ==> Truncations(steps) == if GrowWanted(env, size) then [size.value] else []
    ensures ok ==> Live(cs) && Teardowns(cs) == old(Teardowns(cs)) && RanTags(cs.trace) == old(RanTags(cs.trace)) + Early(env, size)
    ensures !ok ==> cs.Valid() && cs.running && cs.exitCode == Some(1)
    ensures !env.diskExists && "truncate" in env.failing ==>
      RanTags(cs.trace) == old(RanTags(cs.trace)) + Reverse(old(Teardowns(cs)))
    ensures !env.diskExists && "truncate" !in env.failing && !Attached(env) ==>
      RanTags(cs.trace) == old(RanTags(cs.trace)) + [DeleteDisk] + Reverse(old(Teardowns(cs)))
    ensures !env.diskExists && Attached(env) && ("mkfs.ext4" in env.failing || env.detachThrows) ==>
      RanTags(cs.trace) == old(RanTags(cs.trace)) + [DetachLoop, DeleteDisk] + Reverse(old(Teardowns(cs)))
  {
    if !env.diskExists {
      var bytes := if size.Some? then size.value else DefaultSize();
      ok, steps := PrepareNew(cs, env, bytes);
    } else if size.Some? {
      ok, steps := PrepareGrow(cs, env, size.value);
    } else {
      ok, steps := true, [];
    }
  }

  /** The whole script once the arguments are checked and the lock is held. */
  method Hold(cs: CleanupStack, env: Env, size: Option<int>, host: string) returns (steps: seq<Step>)
    requires Live(cs)
    modifies cs
    ensures cs.Valid() && cs.running
    ensures cs.exitCode == Some(if DiskReady(env, size) && Served(Rest(env)) && env.firstFulfilled then 0 else 1)
    ensures !env.diskExists ==> Truncations(steps) == [NewDiskBytes(size)]
    ensures env.diskExists ==> Truncations(steps) == if GrowWanted(env, size) then [size.value] else []
    ensures !env.diskExists && "truncate" in env.failing ==>
      RanTags(cs.trace) == old(RanTags(cs.trace)) + Reverse(old(Teardowns(cs)))
    ensures !env.diskExists && "truncate" !in env.failing && !Attached(env) ==>
      RanTags(cs.trace) == old(RanTags(cs.trace)) + [DeleteDisk] + Reverse(old(Teardowns(cs)))
    ensures !env.diskExists && Attached(env) && ("mkfs.ext4" in env.failing || env.detachThrows) ==>
      RanTags(cs.trace) == old(RanTags(cs.trace)) + [DetachLoop, DeleteDisk] + Reverse(old(Teardowns(cs)))
    ensures DiskReady(env, size) ==>
      RanTags(cs.trace) == old(RanTags(cs.trace)) + Early(env, size) + Reverse(old(Teardowns(cs)) + ServiceTags(Nbd(env), Rest(env)))
    ensures DiskReady(env, size) && Served(Rest(env)) ==> |steps| >= 5 && steps[|steps| - 5..] == ServiceSteps(Nbd(env), Rest(env), host)
  {
    var ok;
    ok, steps := PrepareDisk(cs, env, size);
    if !ok {
      return;
    }
    var service := BringUp(cs, Nbd(env), Rest(env), host);
    TruncationsNone(service);
    TruncationsAppend(steps, service);
    steps := steps + service;
  }

  /** The temp directory and the lock are released last, the lock first. */
  lemma HeldLast(ran: seq<string>, early: seq<string>, later: seq<string>)
    ensures ran + early + Reverse([RemoveTemp, Unlock] + later) == ran + early + Reverse(later) + [Unlock, RemoveTemp]
  {
    ReverseAppend([RemoveTemp, Unlock], later);
    assert Reverse([RemoveTemp, Unlock]) == [Unlock, RemoveTemp];
  }

  /** The run from the disk step on, once the temp directory and the lock
      are held. */
  method Finish(cs: CleanupStack, env: Env, size: Option<int>, host: string) returns (r: Run)
    requires Live(cs) && Teardowns(cs) == [RemoveTemp, Unlock] && cs.trace == []
    modifies cs
    ensures r.code == if DiskReady(env, size) && Served(Rest(env)) && env.firstFulfilled then 0 else 1
    ensures !env.diskExists ==> Truncations(r.steps) == [NewDiskBytes(size)]
    ensures env.diskExists ==> Truncations(r.steps) == if GrowWanted(env, size) then [size.value] else []
    ensures !env.diskExists && "truncate" in env.failing ==> r.ran == [Unlock, RemoveTemp]
    ensures !env.diskExists && "truncate" !in env.failing && !Attached(env) ==>
      r.ran == [DeleteDisk, Unlock, RemoveTemp]
    ensures !env.diskExists && Attached(env) && ("mkfs.ext4" in env.failing || env.detachThrows) ==>
      r.ran == [DetachLoop, DeleteDisk, Unlock, RemoveTemp]
    ensures DiskReady(env, size) ==> r.ran == Early(env, size) + Reverse(ServiceTags(Nbd(env), Rest(env))) + [Unlock, RemoveTemp]
    ensures DiskReady(env, size) && Served(Rest(env)) ==> |r.steps| >= 5 && r.steps[|r.steps| - 5..] == ServiceSteps(Nbd(env), Rest(env), host)
  {
    var steps := Hold(cs, env, size, host);
    r := Report(cs, steps);
    HeldRan(env, size, r.ran);
  }

  /** The teardowns a run from the disk step on ran, with the temp
      directory and the lock released last. */
  lemma HeldRan(env: Env, size: Option<int>, ran: seq<string>)
    requires !env.diskExists && "truncate" in env.failing ==> ran == [] + Reverse([RemoveTemp, Unlock])
    requires !env.diskExists && "truncate" !in env.failing && !Attached(env) ==>
      ran == [] + [DeleteDisk] + Reverse([RemoveTemp, Unlock])
    requires !env.diskExists && Attached(env) && ("mkfs.ext4" in env.failing || env.detachThrows) ==>
      ran == [] + [DetachLoop, DeleteDisk] + Reverse([RemoveTemp, Unlock])
    requires DiskReady(env, size) ==>
      ran == [] + Early(env, size) + Reverse([RemoveTemp, Unlock] + ServiceTags(Nbd(env), Rest(env)))
    ensures !env.diskExists && "truncate" in env.failing ==> ran == [Unlock, RemoveTemp]
    ensures !env.diskExists && "truncate" !in env.failing && !Attached(env) ==> ran == [DeleteDisk, Unlock, RemoveTemp]
    ensures !env.diskExists && Attached(env) && ("mkfs.ext4" in env.failing || env.detachThrows) ==>
      ran == [DetachLoop, DeleteDisk, Unlock, RemoveTemp]
    ensures DiskReady(env, size) ==> ran == Early(env, size) + Reverse(ServiceTags(Nbd(env), Rest(env))) + [Unlock, RemoveTemp]
  {
    assert Reverse([RemoveTemp, Unlock]) == [Unlock, RemoveTemp];
    if DiskReady(env, size) {
      HeldLast([], Early(env, size), ServiceTags(Nbd(env), Rest(env)));
    }
  }

  /** The script from start to exit: exit code 0 exactly when every stage
      came up and the first long-running command to settle succeeded; the
      teardowns that ran, newest first, for each way it can stop. */
  method Serve(env: Env) returns (r: Run)
    ensures r.code == 0 <==> Serving(env) && env.firstFulfilled
    ensures !(SizeOk(env) && Names.IsSshTarget(env.target)) ==> r == Run(1, [], [])
    ensures SizeOk(env) && Names.IsSshTarget(env.target) && !env.toolsFound ==> r == Run(1, [], [])
    ensures SizeOk(env) && Names.IsSshTarget(env.target) && env.toolsFound && env.locked ==> r == Run(1, [RemoveTemp], [])
    ensures Preflight(env) && !env.diskExists ==> Truncations(r.steps) == [NewDiskBytes(Parsed(env))]
    ensures Preflight(env) && env.diskExists ==>
      Truncations(r.steps) == if GrowWanted(env, Parsed(env)) then [Parsed(env).value] else []
    ensures Preflight(env) && !env.diskExists && "truncate" in env.failing ==> r.ran == [Unlock, RemoveTemp]
    ensures Preflight(env) && !env.diskExists && "truncate" !in env.failing && !Attached(env) ==>
      r.ran == [DeleteDisk, Unlock, RemoveTemp]
    ensures Preflight(env) && !env.diskExists && Attached(env) && ("mkfs.ext4" in env.failing || env.detachThrows) ==>
      r.ran == [DetachLoop, DeleteDisk, Unlock, RemoveTemp]
    ensures Preflight(env) && DiskReady(env, Parsed(env)) ==>
      r.ran == Early(env, Parsed(env)) + Reverse(ServiceTags(Nbd(env), Rest(env))) + [Unlock, RemoveTemp]
    ensures Serving(env) ==> |r.steps| >= 5 && r.steps[|r.steps| - 5..] == ServiceSteps(Nbd(env), Rest(env), Names.TargetHost(env.target))
  {
    var cs := Begin();
    var ok, size := CheckArguments(cs, env);
    if !ok {
      return Report(cs, []);
    }
    ok := Acquire(cs, env);
    if !ok {
      return Report(cs, []);
    }
    r := Finish(cs, env, size, Names.TargetHost(env.target));
  }
}
