/** packages/toolchain-raspios/scripts/createDockerImage.ts: the older image
    import script.  It does not use the cleanup stack: it validates its
    options, obtains the image, maps its partitions, mounts and imports in a
    `try` block, and tears down in a `finally` block, guided by two flags
    that record which partitions were mounted.  Every teardown command's
    failure is swallowed, and the temp directory is removed only when
    nothing threw.

    The command line, the file system, the commands' exit status and their
    printed output are inputs (`Env`). */
module ImportImage {
  import opened Common
  import Partitions

  datatype Env = Env(
    url: Option<string>,       // --url, if given
    file: Option<string>,      // --file, if given
    name: string,              // --name
    toolsFound: bool,          // every `which` succeeds
    fileExists: bool,          // the --file path exists
    isXz: bool,                // `file` reports XZ compressed data
    failing: set<string>,      // commands that exit non-zero
    mapping: string,           // what `kpartx -v -a` prints
    arch: string)              // what `file bin/bash` prints

  /** The teardown steps of the `finally` block (lines 76-98). */
  datatype Step =
    | UnmountBoot
    | UnmountRoot
    | DeleteMapping
    | RemoveMapping(partition: string)
    | DetachLoop(device: string)

  /** How a run ends: whether it completed, the `finally` steps in the
      order they ran, the imported image, and whether the temp directory
      is left behind. */
  datatype Outcome = Outcome(ok: bool, ran: seq<Step>, image: Option<string>, tempLeft: bool)

  /** JavaScript truthiness of an optional string option: absent and ""
      are false. */
  predicate Truthy(o: Option<string>) {
    o.Some? && o.value != ""
  }

  /** Lines 20-21: `!!url == !!file` throws. */
  predicate ExactlyOne(url: Option<string>, file: Option<string>) {
    Truthy(url) != Truthy(file)
  }

  /** The characters `[a-z0-9 ._-]`. */
  predicate IsNameChar(c: char) {
    IsLower(c) || IsDigit(c) || c == ' ' || c == '.' || c == '_' || c == '-'
  }

  /** Line 22: `/^[a-z][a-z0-9 ._-]{11,64}$/`. */
  predicate ValidName(name: string) {
    12 <= |name| <= 65 && IsLower(name[0]) && forall i :: 1 <= i < |name| ==> IsNameChar(name[i])
  }

  /** The name is a lower-case letter followed by 11 to 64 name
      characters: an underscore is not a valid first character, although
      the error message of line 23 shows `[a-z_]` there. */
  lemma ValidNameMeans(name: string)
    ensures ValidName(name) <==>
      |name| >= 1 && IsLower(name[0]) && 11 <= |name[1..]| <= 64 && forall c :: c in name[1..] ==> IsNameChar(c)
    ensures !ValidName("_" + name)
  {
    if |name| >= 1 && IsLower(name[0]) && 11 <= |name[1..]| <= 64 && (forall c :: c in name[1..] ==> IsNameChar(c)) {
      forall i | 1 <= i < |name| ensures IsNameChar(name[i]) {
        assert name[i] == name[1..][i - 1];
      }
    }
    if ValidName(name) {
      forall c | c in name[1..] ensures IsNameChar(c) {
        var k :| 0 <= k < |name[1..]| && name[1..][k] == c;
        assert name[k + 1] == c;
      }
    }
    assert ("_" + name)[0] == '_';
  }

  /** The options pass the checks of lines 20-26. */
  predicate ArgsOk(env: Env) {
    ExactlyOne(env.url, env.file) && ValidName(env.name) && env.toolsFound
  }

  /** Lines 32-45: the image is downloaded and decompressed, or the file is
      found and, when compressed, decompressed.  The branch is chosen by
      `typeof url != "undefined"`, not by truthiness. */
  predicate ImageReady(env: Env) {
    ArgsOk(env)
    && if env.url.Some? then "download" !in env.failing
       else env.fileExists && (env.isXz ==> "unxz" !in env.failing)
  }

  /** An empty `--url` given with a `--file` passes the check of lines
      20-21, yet the script then downloads from the empty URL and ignores
      the file. */
  lemma EmptyUrlTakesUrlBranch(env: Env)
    requires env.url == Some("") && env.file.Some? && env.file.value != ""
    requires ValidName(env.name) && env.toolsFound
    ensures ArgsOk(env)
    ensures ImageReady(env) <==> "download" !in env.failing
  {
  }

  function Root(env: Env): Option<string> { Partitions.Partition(env.mapping, '2') }
  function Boot(env: Env): Option<string> { Partitions.Partition(env.mapping, '1') }

  /** Line 49 succeeds; the `try` block is entered. */
  predicate Mapped(env: Env) {
    ImageReady(env) && "kpartx -a" !in env.failing
  }

  /** Line 63 is reached. */
  predicate RootMounted(env: Env) {
    Mapped(env) && Root(env).Some? && "mount root" !in env.failing
  }

  /** Line 67 is reached. */
  predicate BootMounted(env: Env) {
    RootMounted(env) && Boot(env).Some? && "mount boot" !in env.failing
  }

  /** The `try` block completes. */
  predicate Imported(env: Env) {
    && RootMounted(env)
    && (Boot(env).Some? ==> BootMounted(env))
    && Contains(env.arch, "aarch64")
    && "docker import" !in env.failing
  }

  /** The steps the `finally` block runs, in order. */
  function Finally(root: Option<string>, boot: Option<string>, rootMounted: bool, bootMounted: bool): seq<Step> {
    (if bootMounted then [UnmountBoot] else [])
    + (if rootMounted then [UnmountRoot] else [])
    + [DeleteMapping]
    + (if root.Some? then [RemoveMapping(root.value)] else [])
    + (if boot.Some? then [RemoveMapping(boot.value)] else [])
    + (if root.Some? && boot.Some? then [DetachLoop(Partitions.LoopDevice(root.value))] else [])
  }

  /** Lines 55-75: mount root, then boot, check the architecture and
      import; a throw leaves the flags as they were. */
  method TryBlock(env: Env, root: Option<string>, boot: Option<string>)
    returns (rootMounted: bool, bootMounted: bool, image: Option<string>)
    ensures rootMounted <==> root.Some? && "mount root" !in env.failing
    ensures bootMounted <==> rootMounted && boot.Some? && "mount boot" !in env.failing
    ensures image.Some? <==> rootMounted && (boot.Some? ==> bootMounted) && Contains(env.arch, "aarch64") && "docker import" !in env.failing
    ensures image.Some? ==> image.value == "local/raspios:" + env.name
  {
    rootMounted, bootMounted, image := false, false, None;
    if root.None? {
      return;
    }
    if "mount root" in env.failing {
      return;
    }
    rootMounted := true;
    if boot.Some? {
      if "mount boot" in env.failing {
        return;
      }
      bootMounted := true;
    }
    if !Contains(env.arch, "aarch64") || "docker import" in env.failing {
      return;
    }
    image := Some("local/raspios:" + env.name);
  }

  /** Lines 76-98: each step runs when its flag or partition says so. */
  method FinallyBlock(root: Option<string>, boot: Option<string>, rootMounted: bool, bootMounted: bool) returns (ran: seq<Step>)
    ensures ran == Finally(root, boot, rootMounted, bootMounted)
  {
    ghost var a := if bootMounted then [UnmountBoot] else [];
    ghost var b := if rootMounted then [UnmountRoot] else [];
    ghost var c := if root.Some? then [RemoveMapping(root.value)] else [];
    ghost var d := if boot.Some? then [RemoveMapping(boot.value)] else [];
    ran := [];
    if bootMounted {
      ran := ran + [UnmountBoot];
    }
    assert ran == a;
    if rootMounted {
      ran := ran + [UnmountRoot];
    }
    assert ran == a + b;
    ran := ran + [DeleteMapping];
    if root.Some? {
      ran := ran + [RemoveMapping(root.value)];
    }
    assert ran == a + b + [DeleteMapping] + c;
    if boot.Some? {
      ran := ran + [RemoveMapping(boot.value)];
    }
    assert ran == a + b + [DeleteMapping] + c + d;
    if root.Some? && boot.Some? {
      ran := ran + [DetachLoop(Partitions.LoopDevice(root.value))];
    }
  }

  /** The script from start to exit. */
  method Create(env: Env) returns (r: Outcome)
    ensures r.ok <==> Imported(env)
    ensures r.image == if Imported(env) then Some("local/raspios:" + env.name) else None
    ensures r.ran == FinallySteps(env)
    ensures r.tempLeft <==> ArgsOk(env) && !Imported(env)
  {
    if !ExactlyOne(env.url, env.file) || !ValidName(env.name) || !env.toolsFound {
      return Outcome(false, [], None, false);
    }
    // the temp directory exists from here on
    if env.url.Some? {
      if "download" in env.failing {
        return Outcome(false, [], None, true);
      }
    } else {
      if !env.fileExists || (env.isXz && "unxz" in env.failing) {
        return Outcome(false, [], None, true);
      }
    }
    if "kpartx -a" in env.failing {
      return Outcome(false, [], None, true);
    }
    var root := Partitions.Partition(env.mapping, '2');
    var boot := Partitions.Partition(env.mapping, '1');
    var rootMounted, bootMounted, image := TryBlock(env, root, boot);
    var ran := FinallyBlock(root, boot, rootMounted, bootMounted);
    // line 101 runs only when the `try` block did not throw
    r := Outcome(image.Some?, ran, image, image.None?);
  }

  /** A partition is unmounted exactly when it was mounted, and the mapping
      is deleted on every path through the `finally` block. */
  lemma FinallyUnmountsMounted(root: Option<string>, boot: Option<string>, rootMounted: bool, bootMounted: bool)
    ensures var ran := Finally(root, boot, rootMounted, bootMounted);
      && (UnmountBoot in ran <==> bootMounted)
      && (UnmountRoot in ran <==> rootMounted)
      && DeleteMapping in ran
      && (forall d :: DetachLoop(d) in ran <==> root.Some? && boot.Some? && d == Partitions.LoopDevice(root.value))
  {
    var ran := Finally(root, boot, rootMounted, bootMounted);
    var unmounts := (if bootMounted then [UnmountBoot] else []) + (if rootMounted then [UnmountRoot] else []);
    var unmaps := (if root.Some? then [RemoveMapping(root.value)] else []) + (if boot.Some? then [RemoveMapping(boot.value)] else []);
    var detach := if root.Some? && boot.Some? then [DetachLoop(Partitions.LoopDevice(root.value))] else [];
    assert ran == unmounts + [DeleteMapping] + unmaps + detach;
    assert ran[|unmounts|] == DeleteMapping;
    forall x | x in ran && (x.UnmountBoot? || x.UnmountRoot? || x.DetachLoop?)
      ensures x in unmounts + detach
    {
    }
    forall d
      ensures DetachLoop(d) in ran <==> root.Some? && boot.Some? && d == Partitions.LoopDevice(root.value)
    {
      if root.Some? && boot.Some? && d == Partitions.LoopDevice(root.value) {
        assert ran[|ran| - 1] == DetachLoop(d);
      }
    }
  }

  /** After a successful import of an image with both partitions the
      `finally` block runs: boot unmount, root unmount, partition mapping,
      root mapping, boot mapping, loop device. */
  lemma ImportedOrder(env: Env)
    requires Imported(env) && Boot(env).Some?
    ensures FinallySteps(env) == [UnmountBoot, UnmountRoot, DeleteMapping, RemoveMapping(Root(env).value),
      RemoveMapping(Boot(env).value), DetachLoop(Partitions.LoopDevice(Root(env).value))]
  {
    assert Mapped(env) && RootMounted(env) && BootMounted(env);
    FinallyFull(Root(env).value, Boot(env).value);
  }

  /** With both partitions mapped and mounted every step runs. */
  lemma FinallyFull(root: string, boot: string)
    ensures Finally(Some(root), Some(boot), true, true) == [UnmountBoot, UnmountRoot, DeleteMapping, RemoveMapping(root),
      RemoveMapping(boot), DetachLoop(Partitions.LoopDevice(root))]
  {
  }

  /** The `finally` steps of a run: none when it throws before the `try`. */
  function FinallySteps(env: Env): seq<Step> {
    if Mapped(env) then Finally(Root(env), Boot(env), RootMounted(env), BootMounted(env)) else []
  }

  /** A failure inside the `try` block still deletes the mapping; a
      failure before it runs no teardown at all. */
  lemma FailureStillUnmaps(env: Env)
    requires ArgsOk(env) && !Imported(env)
    ensures Mapped(env) ==> DeleteMapping in FinallySteps(env)
    ensures !Mapped(env) ==> FinallySteps(env) == []
  {
    if Mapped(env) {
      FinallyUnmountsMounted(Root(env), Boot(env), RootMounted(env), BootMounted(env));
    }
  }
}
