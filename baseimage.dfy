/** packages/toolchain-raspios/scripts/createBaseDockerImage.ts: imports a
    Raspberry Pi OS image as a docker base image.  It collects etags of the
    image source one at a time (the HTTP ETag, then the hashes of the
    compressed and decompressed image) and, after each, exits early when the
    existing image already carries one of them.  Otherwise it maps the image's
    partitions, mounts them, checks the architecture and imports the root
    file system with one `ETAG_IMAGE_<i>` label per etag.  Every acquired
    resource gets a teardown on the cleanup stack.

    The command line, `docker image inspect`, the HTTP HEAD response, the
    file system, the hashes, the commands' exit status and their printed
    output are inputs (`Env`). */
module BaseImage {
  import opened Common
  import opened Cleanup
  import opened Stages
  import Names
  import Etags
  import Partitions
  import RamServer

  const RemoveTemp := "remove temp dir"
  const DeleteMapping := "kpartx -d"
  const UnmountRoot := "umount root"
  const UnmountBoot := "umount boot"
  function UnmapRoot(root: string): string { "dmsetup remove " + root }
  function UnmapBoot(boot: string): string { "dmsetup remove " + boot }
  function Losetup(dev: string): string { "losetup -d " + dev }

  const LabelPrefix := "ETAG_IMAGE"

  /** Where `--url` points. */
  datatype Source =
    | Http(headOk: bool, etagHeader: Option<string>, downloadHash: string, imageHash: string)
    | File(host: string, pathname: string, present: bool, isXz: bool, fileHash: string, imageHash: string)
    | Unsupported(protocol: string)
    | BadUrl

  datatype Env = Env(
    name: string,                               // --name
    toolsFound: bool,                           // every `which` succeeds
    inspected: Option<Option<map<string, string>>>, // None: inspect failed; Some(None): no labels
    source: Source,
    failing: set<string>,                       // commands that exit non-zero
    mapping: string,                            // what `kpartx -v -a` prints
    arch: string)                               // what `file bin/bash` prints

  /** The outcome: exit code, teardowns run in order, and the labels of the
      imported image, if one was imported. */
  datatype Created = Created(code: int, ran: seq<string>, imported: Option<map<string, string>>)

  /** `header.slice(1, -1)`: the ETag without its surrounding quotes. */
  function StripQuotes(h: string): string {
    if |h| >= 2 then h[1..|h| - 1] else []
  }

  lemma StripQuotesRoundTrip(e: string)
    ensures StripQuotes("\"" + e + "\"") == e
  {
  }

  /** One step of collecting etags: push an etag and re-check, or run a
      command that may fail. */
  datatype Action = Push(etag: string) | Do(command: string)

  datatype FetchError = InvalidUrl | HeadFailed | InvalidFileUrl | FileMissing | UnsupportedProtocol

  /** Lines 41-84: the steps the source calls for, or why it throws before
      the first etag. */
  function Fetching(src: Source): (r: Result<seq<Action>, FetchError>)
    ensures r == Err(InvalidUrl) <==> src.BadUrl?
    ensures r == Err(HeadFailed) <==> src.Http? && !src.headOk
    ensures r == Err(InvalidFileUrl) <==> src.File? && src.host != "" && src.host != "." && src.host != "~"
    ensures r == Err(FileMissing) <==> src.File? && (src.host == "" || src.host == "." || src.host == "~") && !src.present
    ensures r == Err(UnsupportedProtocol) <==> src.Unsupported?
    ensures r.Ok? ==> r.value != [] && r.value[|r.value| - 1].Push?
    ensures r.Ok? ==> forall i :: 0 <= i < |r.value| && r.value[i].Do? ==> i + 1 < |r.value| && r.value[i + 1].Push?
    ensures r.Ok? && (src.Http? || src.isXz) ==> r.value[|r.value| - 1] == Push(src.imageHash)
    ensures r.Ok? && src.File? && !src.isXz ==> r.value == [Push(src.fileHash)]
  {
    match src
    case BadUrl => Err(InvalidUrl)
    case Http(headOk, header, downloadHash, imageHash) =>
      if !headOk then Err(HeadFailed)
      else Ok((if header.Some? then [Push(StripQuotes(header.value))] else [])
              + [Do("download"), Push(downloadHash), Do("unxz"), Push(imageHash)])
    case File(host, pathname, present, isXz, fileHash, imageHash) =>
      if RamServer.PlaceAsWritten(RamServer.RamUrl("file:", host, pathname)).Err? then Err(InvalidFileUrl)
      else if !present then Err(FileMissing)
      else if isXz then Ok([Push(fileHash), Do("unxz"), Push(imageHash)])
      else Ok([Push(fileHash)])
    case Unsupported(_) => Err(UnsupportedProtocol)
  }

  /** For a `file:` URL the mapping of lines 62-66 is the one that calls
      `fileURLToPath` only for `file:` URLs, so it never throws there. */
  lemma FileUrlMapping(host: string, pathname: string)
    ensures RamServer.PlaceAsWritten(RamServer.RamUrl("file:", host, pathname))
      == RamServer.PlaceOf(RamServer.RamUrl("file:", host, pathname))
  {
    RamServer.PlaceAgrees(RamServer.RamUrl("file:", host, pathname));
  }

  /** `checkIfImageAlreadyCreated`'s condition (lines 33-37). */
  predicate AlreadyCreated(inspected: Option<Option<map<string, string>>>, etags: seq<string>) {
    inspected.Some? && inspected.value.Some?
    && Etags.CompareDockerEtagLabels(Etags.Record(inspected.value.value, Some(LabelPrefix)), Etags.List(etags))
  }

  /** Some `ETAG_IMAGE`, `ETAG_IMAGE_<digits>` label holds one of the etags. */
  predicate LabelMatches(labels: map<string, string>, etags: seq<string>) {
    exists k :: k in labels && StartsWith(k, LabelPrefix) && Etags.GroupKey(k[|LabelPrefix|..]) == "" && labels[k] in etags
  }

  /** With at least one etag collected, the image counts as already created
      exactly when it has labels and one of its etag labels holds one of the
      collected etags. */
  lemma AlreadyCreatedMeans(inspected: Option<Option<map<string, string>>>, etags: seq<string>)
    requires etags != []
    ensures AlreadyCreated(inspected, etags) <==>
      inspected.Some? && inspected.value.Some? && LabelMatches(inspected.value.value, etags)
  {
    if inspected.Some? && inspected.value.Some? {
      Etags.CompareRecordWithArray(inspected.value.value, LabelPrefix, etags);
    }
  }

  /** More etags can only make the check succeed. */
  lemma AlreadyCreatedGrows(inspected: Option<Option<map<string, string>>>, etags: seq<string>, more: seq<string>)
    requires etags != [] && AlreadyCreated(inspected, etags)
    ensures AlreadyCreated(inspected, etags + more)
  {
    AlreadyCreatedMeans(inspected, etags);
    AlreadyCreatedMeans(inspected, etags + more);
    var m := inspected.value.value;
    var k :| k in m && StartsWith(k, LabelPrefix) && Etags.GroupKey(k[|LabelPrefix|..]) == "" && m[k] in etags;
    assert m[k] in etags + more;
  }

  /** What collecting the etags comes to. */
  datatype Gathered =
    | Found(etags: seq<string>)                  // the image exists: exit 0
    | Stopped(command: string)                   // a command failed: abort
    | Collected(etags: seq<string>)              // every etag collected, none matched

  /** The etags the actions push, in order. */
  function Pushed(actions: seq<Action>): seq<string> {
    if actions == [] then []
    else (if actions[0].Push? then [actions[0].etag] else []) + Pushed(actions[1..])
  }

  /** Runs the actions with `etags` collected so far: each push appends and
      re-checks, each command may fail. */
  function Gather(inspected: Option<Option<map<string, string>>>, actions: seq<Action>, failing: set<string>, etags: seq<string>): (r: Gathered)
    ensures r.Stopped? ==> r.command in failing
    ensures r.Found? ==> AlreadyCreated(inspected, r.etags) && |etags| < |r.etags| && r.etags <= etags + Pushed(actions)
    ensures r.Collected? ==> r.etags == etags + Pushed(actions)
  {
    if actions == [] then Collected(etags)
    else match actions[0]
      case Push(e) =>
        assert etags + Pushed(actions) == (etags + [e]) + Pushed(actions[1..]);
        if AlreadyCreated(inspected, etags + [e]) then Found(etags + [e])
        else Gather(inspected, actions[1..], failing, etags + [e])
      case Do(c) =>
        assert etags + Pushed(actions) == etags + Pushed(actions[1..]);
        if c in failing then Stopped(c) else Gather(inspected, actions[1..], failing, etags)
  }

  predicate NoneFails(actions: seq<Action>, failing: set<string>) {
    forall i :: 0 <= i < |actions| && actions[i].Do? ==> actions[i].command !in failing
  }

  /** What a run that started with `etags` collected and would collect
      `all` in the end comes to: it never stops on a command, it exits
      early exactly when `all` matches, then at a longer prefix of `all`
      than it started with, and otherwise it collects all of `all`. */
  predicate Decided(inspected: Option<Option<map<string, string>>>, g: Gathered, etags: seq<string>, all: seq<string>) {
    && !g.Stopped?
    && (g.Found? <==> all != [] && AlreadyCreated(inspected, all))
    && (g.Found? ==> exists n :: |etags| < n <= |all| && g.etags == all[..n])
    && (g.Collected? ==> g.etags == all)
  }

  /** When no command fails, the early exit fires exactly when the full
      list of etags would match, and the run stops at a prefix of it;
      otherwise every etag is collected in order. */
  lemma {:induction false} GatherDecides(inspected: Option<Option<map<string, string>>>, actions: seq<Action>, failing: set<string>, etags: seq<string>)
    requires NoneFails(actions, failing)
    requires etags == [] || !AlreadyCreated(inspected, etags)
    ensures Decided(inspected, Gather(inspected, actions, failing, etags), etags, etags + Pushed(actions))
  {
    if actions == [] {
      assert etags + Pushed(actions) == etags;
    } else {
      var rest := actions[1..];
      assert NoneFails(rest, failing) by {
        forall i | 0 <= i < |rest| && rest[i].Do? ensures rest[i].command !in failing {
          assert rest[i] == actions[i + 1];
        }
      }
      match actions[0]
      case Push(e) =>
        var es := etags + [e];
        assert etags + Pushed(actions) == es + Pushed(rest);
        if AlreadyCreated(inspected, es) {
          FoundEarly(inspected, etags, es, Pushed(rest));
        } else {
          GatherDecides(inspected, rest, failing, es);
          DecidedLater(inspected, Gather(inspected, rest, failing, es), etags, es, es + Pushed(rest));
        }
      case Do(c) =>
        assert actions[0].Do? && actions[0].command == c;
        assert etags + Pushed(actions) == etags + Pushed(rest);
        GatherDecides(inspected, rest, failing, etags);
    }
  }

  /** An exit at the etag just appended is an exit at a prefix of the full list. */
  lemma FoundEarly(inspected: Option<Option<map<string, string>>>, etags: seq<string>, es: seq<string>, more: seq<string>)
    requires |es| == |etags| + 1 && es != [] && AlreadyCreated(inspected, es)
    ensures Decided(inspected, Found(es), etags, es + more)
  {
    AlreadyCreatedGrows(inspected, es, more);
    assert es == (es + more)[..|etags| + 1];
  }

  /** A run decided from a longer start is decided from a shorter one. */
  lemma DecidedLater(inspected: Option<Option<map<string, string>>>, g: Gathered, etags: seq<string>, es: seq<string>, all: seq<string>)
    requires |etags| <= |es| && Decided(inspected, g, es, all)
    ensures Decided(inspected, g, etags, all)
  {
    if g.Found? {
      var n :| |es| < n <= |all| && g.etags == all[..n];
    }
  }

  /** The labels `docker import` is given: `ETAG_IMAGE_<i>` for the i-th etag. */
  function ImportLabels(etags: seq<string>): (m: map<string, string>)
    ensures forall i :: 0 <= i < |etags| ==> LabelPrefix + Etags.ArrayKey(i) in m && m[LabelPrefix + Etags.ArrayKey(i)] == etags[i]
  {
    forall i: nat, j: nat | LabelPrefix + Etags.ArrayKey(i) == LabelPrefix + Etags.ArrayKey(j)
      ensures i == j
    {
      LabelKeyInjective(i, j);
    }
    map i | 0 <= i < |etags| :: LabelPrefix + Etags.ArrayKey(i) := etags[i]
  }

  /** Different indices give different `ETAG_IMAGE_<i>` labels. */
  lemma LabelKeyInjective(i: nat, j: nat)
    requires LabelPrefix + Etags.ArrayKey(i) == LabelPrefix + Etags.ArrayKey(j)
    ensures i == j
  {
    assert (LabelPrefix + Etags.ArrayKey(i))[|LabelPrefix|..] == Etags.ArrayKey(i);
    assert (LabelPrefix + Etags.ArrayKey(j))[|LabelPrefix|..] == Etags.ArrayKey(j);
    Etags.ArrayKeyInjective(i, j);
  }

  /** Round trip: once imported with its etags, a later run from the same
      source finds the image already created at its first etag. */
  lemma ImportedIsFound(etags: seq<string>)
    requires etags != []
    ensures AlreadyCreated(Some(Some(ImportLabels(etags))), [etags[0]])
  {
    var m := ImportLabels(etags);
    var k := LabelPrefix + Etags.ArrayKey(0);
    assert k[|LabelPrefix|..] == Etags.ArrayKey(0) && StartsWith(k, LabelPrefix);
    Etags.ArrayKeyGroup(0);
    assert m[k] in [etags[0]];
    AlreadyCreatedMeans(Some(Some(m)), [etags[0]]);
  }

  /** The teardowns lines 93-118 register for the partitions found. */
  function MapTags(root: Option<string>, boot: Option<string>): seq<string> {
    [DeleteMapping]
    + (if root.Some? then [UnmapRoot(root.value)] else [])
    + (if boot.Some? then [UnmapBoot(boot.value)] else [])
    + (if root.Some? && boot.Some? then [Losetup(Partitions.LoopDevice(root.value))] else [])
  }

  // ---------------------------------------------------------------------
  // Phases of the script, each on the shared cleanup stack
  // ---------------------------------------------------------------------

  /** Lines 20-29: the name check and the tool check throw before anything
      is registered; then the temp directory's removal is registered. */
  method Prepare(cs: CleanupStack, env: Env) returns (ok: bool)
    requires Live(cs) && Teardowns(cs) == [] && cs.trace == []
    modifies cs
    ensures ok <==> Names.IsImageName(env.name) && env.toolsFound
    ensures ok ==> Live(cs) && Teardowns(cs) == [RemoveTemp] && cs.trace == []
    ensures !ok ==> cs.exitCode == Some(1) && RanTags(cs.trace) == []
  {
    if !Names.IsImageName(env.name) || !env.toolsFound {
      Abort(cs);
      return false;
    }
    var _ := Register(cs, RemoveTemp, false);
    ok := true;
  }

  /** What lines 31-88 come to: the etags, or the reason the run ends. */
  datatype Fetched = Fetched(etags: seq<string>) | Exists | Fails

  /** The outcome of lines 31-88 as a function of the inputs. */
  function FetchOutcome(env: Env): Fetched {
    match Fetching(env.source)
    case Err(_) => Fails
    case Ok(actions) =>
      match Gather(env.inspected, actions, env.failing, [])
      case Found(_) => Exists
      case Stopped(_) => Fails
      case Collected(etags) =>
        if env.inspected.Some? && "docker image rm" in env.failing then Fails else Fetched(etags)
  }

  /** Lines 31-88: collect the etags, exit 0 as soon as the image is found,
      throw on a failed step, and remove an existing image that did not
      match before rebuilding it. */
  method Fetch(cs: CleanupStack, env: Env) returns (etags: Option<seq<string>>)
    requires Live(cs)
    modifies cs
    ensures etags.Some? <==> FetchOutcome(env).Fetched?
    ensures etags.Some? ==>
      Live(cs) && Teardowns(cs) == old(Teardowns(cs)) && cs.trace == old(cs.trace) && etags.value == FetchOutcome(env).etags
    ensures etags.None? ==>
      cs.Valid() && cs.running && cs.exitCode == Some(if FetchOutcome(env).Exists? then 0 else 1)
    ensures etags.None? ==> RanTags(cs.trace) == old(RanTags(cs.trace)) + Reverse(old(Teardowns(cs)))
  {
    var actions := Fetching(env.source);
    if actions.Err? {
      Abort(cs);
      return None;
    }
    var g := Gather(env.inspected, actions.value, env.failing, []);
    if g.Found? {
      Settle(cs, true);
      return None;
    }
    if g.Stopped? {
      Abort(cs);
      return None;
    }
    if env.inspected.Some? && "docker image rm" in env.failing {
      Abort(cs);
      return None;
    }
    etags := Some(g.etags);
  }

  /** Lines 93-118: the mapping's teardowns, registered in this order. */
  method RegisterMapping(cs: CleanupStack, root: Option<string>, boot: Option<string>)
    requires Live(cs)
    modifies cs
    ensures Live(cs) && Teardowns(cs) == old(Teardowns(cs)) + MapTags(root, boot) && cs.trace == old(cs.trace)
  {
    ghost var below := Teardowns(cs);
    var _ := Register(cs, DeleteMapping, false);
    RegisterWhen(cs, root.Some?, if root.Some? then UnmapRoot(root.value) else "");
    RegisterWhen(cs, boot.Some?, if boot.Some? then UnmapBoot(boot.value) else "");
    RegisterWhen(cs, root.Some? && boot.Some?, if root.Some? then Losetup(Partitions.LoopDevice(root.value)) else "");
    ghost var a, b, c := When(root.Some?, if root.Some? then UnmapRoot(root.value) else ""),
      When(boot.Some?, if boot.Some? then UnmapBoot(boot.value) else ""),
      When(root.Some? && boot.Some?, if root.Some? then Losetup(Partitions.LoopDevice(root.value)) else "");
    assert Teardowns(cs) == below + [DeleteMapping] + a + b + c;
    assert MapTags(root, boot) == [DeleteMapping] + a + b + c;
    Reassociate(below, [DeleteMapping], a, b, c);
  }

  function When(found: bool, tag: string): seq<string> {
    if found then [tag] else []
  }

  lemma Reassociate(s: seq<string>, t: seq<string>, a: seq<string>, b: seq<string>, c: seq<string>)
    ensures s + t + a + b + c == s + (t + a + b + c)
  {
  }

  /** `if (found) addCleanup(...)`: one teardown, registered or not. */
  method RegisterWhen(cs: CleanupStack, found: bool, tag: string)
    requires Live(cs)
    modifies cs
    ensures Live(cs) && Teardowns(cs) == old(Teardowns(cs)) + When(found, tag) && cs.trace == old(cs.trace)
  {
    if found {
      var _ := Register(cs, tag, false);
    }
  }

  /** Lines 90-120: map the partitions and register the mapping's
      teardowns; a missing root partition throws after them. */
  method MapPartitions(cs: CleanupStack, env: Env) returns (ok: bool, root: Option<string>, boot: Option<string>)
    requires Live(cs)
    modifies cs
    ensures root == Partitions.Partition(env.mapping, '2') && boot == Partitions.Partition(env.mapping, '1')
    ensures ok <==> "kpartx -d" !in env.failing && "kpartx -a" !in env.failing && root.Some?
    ensures ok ==> Live(cs) && Teardowns(cs) == old(Teardowns(cs)) + MapTags(root, boot) && cs.trace == old(cs.trace)
    ensures !ok ==> cs.Valid() && cs.running && cs.exitCode == Some(1)
    ensures !ok && ("kpartx -d" in env.failing || "kpartx -a" in env.failing) ==>
      RanTags(cs.trace) == old(RanTags(cs.trace)) + Reverse(old(Teardowns(cs)))
    ensures !ok && "kpartx -d" !in env.failing && "kpartx -a" !in env.failing ==>
      RanTags(cs.trace) == old(RanTags(cs.trace)) + Reverse(old(Teardowns(cs)) + MapTags(root, boot))
  {
    root := Partitions.Partition(env.mapping, '2');
    boot := Partitions.Partition(env.mapping, '1');
    if "kpartx -d" in env.failing || "kpartx -a" in env.failing {
      Abort(cs);
      return false, root, boot;
    }
    RegisterMapping(cs, root, boot);
    if root.None? {
      Abort(cs);
      return false, root, boot;
    }
    ok := true;
  }

  /** The mounts lines 126-139 leave registered. */
  function MountTags(env: Env, boot: Option<string>): seq<string> {
    if "mount root" in env.failing then []
    else [UnmountRoot] + (if boot.Some? && "mount boot" !in env.failing then [UnmountBoot] else [])
  }

  /** Everything from the mounts on succeeds. */
  predicate Imports(env: Env, boot: Option<string>) {
    && "mount root" !in env.failing
    && (boot.Some? ==> "mount boot" !in env.failing)
    && Contains(env.arch, "aarch64")
    && "docker import" !in env.failing
  }

  /** Lines 121-147: mount root and boot, each teardown registered right
      after its mount; check the architecture, import, and tear down. */
  method MountAndImport(cs: CleanupStack, env: Env, boot: Option<string>, etags: seq<string>) returns (imported: Option<map<string, string>>)
    requires Live(cs)
    modifies cs
    ensures cs.Valid() && cs.running && cs.exitCode == Some(if Imports(env, boot) then 0 else 1)
    ensures RanTags(cs.trace) == old(RanTags(cs.trace)) + Reverse(old(Teardowns(cs)) + MountTags(env, boot))
    ensures imported == if Imports(env, boot) then Some(ImportLabels(etags)) else None
  {
    ghost var below := Teardowns(cs);
    if "mount root" in env.failing {
      assert below + MountTags(env, boot) == below;
      Abort(cs);
      return None;
    }
    var _ := Register(cs, UnmountRoot, false);
    if boot.Some? {
      if "mount boot" in env.failing {
        assert Teardowns(cs) == below + MountTags(env, boot);
        Abort(cs);
        return None;
      }
      var _ := Register(cs, UnmountBoot, false);
    }
    assert Teardowns(cs) == below + MountTags(env, boot);
    if !Contains(env.arch, "aarch64") || "docker import" in env.failing {
      Abort(cs);
      return None;
    }
    Settle(cs, true);
    imported := Some(ImportLabels(etags));
  }

  // ---------------------------------------------------------------------
  // The whole script
  // ---------------------------------------------------------------------

  /** Every check and command up to the import succeeds. */
  predicate Built(env: Env) {
    && Names.IsImageName(env.name) && env.toolsFound
    && FetchOutcome(env).Fetched?
    && "kpartx -d" !in env.failing && "kpartx -a" !in env.failing
    && Partitions.Partition(env.mapping, '2').Some?
    && Imports(env, Partitions.Partition(env.mapping, '1'))
  }

  /** The teardowns registered by the time the run ends, oldest first. */
  function Registered(env: Env): seq<string> {
    var root := Partitions.Partition(env.mapping, '2');
    var boot := Partitions.Partition(env.mapping, '1');
    if !(Names.IsImageName(env.name) && env.toolsFound) then []
    else if !FetchOutcome(env).Fetched? || "kpartx -d" in env.failing || "kpartx -a" in env.failing then [RemoveTemp]
    else if root.None? then [RemoveTemp] + MapTags(root, boot)
    else [RemoveTemp] + MapTags(root, boot) + MountTags(env, boot)
  }

  /** Lines 31-147, after the temp directory: fetch, map, mount, import. */
  method Build(cs: CleanupStack, env: Env) returns (r: Created)
    requires Names.IsImageName(env.name) && env.toolsFound
    requires Live(cs) && Teardowns(cs) == [RemoveTemp] && cs.trace == []
    modifies cs
    ensures r.code == (if Built(env) || FetchOutcome(env).Exists? then 0 else 1)
    ensures r.ran == Reverse(Registered(env))
    ensures r.imported == if Built(env) then Some(ImportLabels(FetchOutcome(env).etags)) else None
  {
    var etags := Fetch(cs, env);
    if etags.None? {
      return Created(cs.exitCode.value, RanTags(cs.trace), None);
    }
    var ok, root, boot := MapPartitions(cs, env);
    if !ok {
      return Created(cs.exitCode.value, RanTags(cs.trace), None);
    }
    ghost var mapped := Teardowns(cs);
    var imported := MountAndImport(cs, env, boot, etags.value);
    assert mapped + MountTags(env, boot) == [RemoveTemp] + MapTags(root, boot) + MountTags(env, boot);
    r := Created(cs.exitCode.value, RanTags(cs.trace), imported);
  }

  /** The script from start to exit. */
  method Create(env: Env) returns (r: Created)
    ensures r.code == 0 <==> Built(env) || (Names.IsImageName(env.name) && env.toolsFound && FetchOutcome(env).Exists?)
    ensures !(Names.IsImageName(env.name) && env.toolsFound) ==> r == Created(1, [], None)
    ensures Names.IsImageName(env.name) && env.toolsFound && FetchOutcome(env).Exists? ==> r == Created(0, [RemoveTemp], None)
    ensures r.ran == Reverse(Registered(env))
    ensures Built(env) ==> r.imported == Some(ImportLabels(FetchOutcome(env).etags))
    ensures !Built(env) ==> r.imported == None
  {
    var cs := Begin();
    var ok := Prepare(cs, env);
    if !ok {
      return Created(1, [], None);
    }
    r := Build(cs, env);
  }

  /** After a successful import everything was registered. */
  lemma RegisteredWhenBuilt(env: Env)
    requires Built(env)
    ensures Registered(env) == [RemoveTemp] + MapTags(Partitions.Partition(env.mapping, '2'), Partitions.Partition(env.mapping, '1'))
      + MountTags(env, Partitions.Partition(env.mapping, '1'))
  {
  }

  /** The teardowns of a run that imported an image with both
      partitions, newest first: boot unmount, root unmount, loop device,
      boot and root mappings, partition mapping, temp directory. */
  lemma TeardownOrder(root: string, boot: string)
    ensures Reverse([RemoveTemp] + MapTags(Some(root), Some(boot)) + [UnmountRoot, UnmountBoot])
      == [UnmountBoot, UnmountRoot, Losetup(Partitions.LoopDevice(root)), UnmapBoot(boot), UnmapRoot(root), DeleteMapping, RemoveTemp]
  {
    var s := [RemoveTemp] + MapTags(Some(root), Some(boot)) + [UnmountRoot, UnmountBoot];
    assert s == [RemoveTemp, DeleteMapping, UnmapRoot(root), UnmapBoot(boot), Losetup(Partitions.LoopDevice(root)), UnmountRoot, UnmountBoot];
    var r := Reverse(s);
    assert r == [s[6], s[5], s[4], s[3], s[2], s[1], s[0]];
  }

  /** A successful import of an image with both partitions tears down in
      the order of `TeardownOrder`. */
  lemma BuiltOrder(env: Env)
    requires Built(env) && Partitions.Partition(env.mapping, '1').Some?
    ensures var root := Partitions.Partition(env.mapping, '2').value;
      var boot := Partitions.Partition(env.mapping, '1').value;
      Reverse(Registered(env)) == [UnmountBoot, UnmountRoot, Losetup(Partitions.LoopDevice(root)),
        UnmapBoot(boot), UnmapRoot(root), DeleteMapping, RemoveTemp]
  {
    var root := Partitions.Partition(env.mapping, '2');
    var boot := Partitions.Partition(env.mapping, '1');
    RegisteredWhenBuilt(env);
    assert MountTags(env, boot) == [UnmountRoot, UnmountBoot];
    TeardownOrder(root.value, boot.value);
  }

  /** A missing root partition aborts after the mapping teardowns are
      registered, so the mapping is still deleted. */
  lemma RootMissing(env: Env)
    requires Names.IsImageName(env.name) && env.toolsFound && FetchOutcome(env).Fetched?
    requires "kpartx -d" !in env.failing && "kpartx -a" !in env.failing
    requires Partitions.Partition(env.mapping, '2').None?
    ensures Reverse(Registered(env)) ==
      (if Partitions.Partition(env.mapping, '1').Some? then [UnmapBoot(Partitions.Partition(env.mapping, '1').value)] else [])
      + [DeleteMapping, RemoveTemp]
  {
    var boot := Partitions.Partition(env.mapping, '1');
    assert Registered(env) == [RemoveTemp] + MapTags(None, boot);
    RootlessTags(boot);
  }

  /** Without a root partition only the mapping teardowns follow the temp
      directory's removal. */
  lemma RootlessTags(boot: Option<string>)
    ensures Reverse([RemoveTemp] + MapTags(None, boot)) ==
      (if boot.Some? then [UnmapBoot(boot.value)] else []) + [DeleteMapping, RemoveTemp]
  {
    if boot.Some? {
      assert [RemoveTemp] + MapTags(None, boot) == [RemoveTemp, DeleteMapping, UnmapBoot(boot.value)];
    } else {
      assert [RemoveTemp] + MapTags(None, boot) == [RemoveTemp, DeleteMapping];
    }
  }
}
