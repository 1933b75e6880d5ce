/** packages/device/scripts/build.ts: builds the device's build container
    for the one supported platform, unless the existing container image's
    etag labels show it is built from the same toolchain image, Dockerfile
    template and pruned package manifests, and then runs it either way.
    No teardown is ever registered; every throw ends in exit code 1 through
    the handlers `bindCleanup` installs.

    The command line, `docker image inspect`, the hashes and the outcome of
    each command are inputs (`Env`). */
module DeviceBuild {
  import opened Common
  import opened Cleanup
  import opened Stages
  import Names
  import Etags
  import opened Rebuild

  const Platform := "raspios-linux-arm64"

  datatype Env = Env(
    platform: string,                                // --platform
    toolchain: Option<string>,                       // --toolchain-raspios
    name: string,                                    // --name
    toolsFound: bool,                                // every `which` succeeds
    created: Inspected,                              // labels of the image to build
    toolchainLabels: Option<Option<map<string, string>>>, // None: inspect throws
    templateEtag: string,                            // sha256 of the template
    pruneFails: bool,                                // `turbo prune` exits non-zero
    jsonEtag: string,                                // sha256 of the pruned manifests
    buildFails: bool,                                // `docker build` exits non-zero
    runFails: bool)                                  // `docker run` exits non-zero

  /** How a run ends: exit code, whether `docker build` and `docker run`
      were started. */
  datatype Outcome = Outcome(code: int, built: bool, ran: bool)

  /** Lines 40-41: the image's `ETAG_TOOLCHAIN*` labels against the
      toolchain image's `ETAG*` labels. */
  predicate ToolchainAgrees(created: map<string, string>, toolchain: map<string, string>) {
    Etags.CompareDockerEtagLabels(Etags.Record(created, Some("ETAG_TOOLCHAIN")), Etags.Record(toolchain, Some("ETAG")))
  }

  /** The four checks of lines 35-55, every one passing. */
  predicate Compatible(created: map<string, string>, toolchain: Option<map<string, string>>, templateEtag: string, jsonEtag: string) {
    && NotAvailable !in created
    && (toolchain.Some? ==> ToolchainAgrees(created, toolchain.value))
    && Holds(created, "ETAG_TEMPLATE", templateEtag)
    && Holds(created, "ETAG_JSON", jsonEtag)
  }

  /** Lines 34-55: the flag, cleared check by check; `history` holds its
      successive values. */
  method Decide(created: map<string, string>, toolchain: Option<map<string, string>>, templateEtag: string, jsonEtag: string)
    returns (etagCompatible: bool, ghost history: seq<bool>)
    ensures |history| == 5 && history[0] && history[4] == etagCompatible && NonIncreasing(history)
    ensures etagCompatible <==> Compatible(created, toolchain, templateEtag, jsonEtag)
  {
    etagCompatible := true;
    history := [etagCompatible];
    etagCompatible := Clear(etagCompatible, NotAvailable in created);
    ClearExtends(history, NotAvailable in created);
    history := history + [etagCompatible];
    var toolchainFails := toolchain.Some? && !ToolchainAgrees(created, toolchain.value);
    etagCompatible := Clear(etagCompatible, toolchainFails);
    ClearExtends(history, toolchainFails);
    history := history + [etagCompatible];
    var templateFails := !Holds(created, "ETAG_TEMPLATE", templateEtag);
    etagCompatible := Clear(etagCompatible, templateFails);
    ClearExtends(history, templateFails);
    history := history + [etagCompatible];
    var jsonFails := !Holds(created, "ETAG_JSON", jsonEtag);
    etagCompatible := Clear(etagCompatible, jsonFails);
    ClearExtends(history, jsonFails);
    history := history + [etagCompatible];
  }

  /** Lines 20-29 and 39: the tools, the platform, the toolchain option and
      its inspection. */
  predicate Accepted(env: Env) {
    && env.toolsFound
    && env.platform == Platform
    && env.toolchain.Some?
    && Names.IsImageName(env.toolchain.value)
    && env.toolchainLabels.Some?
  }

  /** Everything up to the decision succeeds. */
  predicate Prepared(env: Env) {
    Accepted(env) && !env.pruneFails
  }

  predicate Rebuilds(env: Env)
    requires env.toolchainLabels.Some?
  {
    !Compatible(CreatedLabels(env.created), env.toolchainLabels.value, env.templateEtag, env.jsonEtag)
  }

  /** Lines 57-73: build when incompatible, then run the container. */
  method Finish(cs: CleanupStack, env: Env) returns (built: bool, ran: bool)
    requires Live(cs) && Teardowns(cs) == [] && Prepared(env)
    modifies cs
    ensures built <==> Rebuilds(env)
    ensures ran <==> !(built && env.buildFails)
    ensures cs.Valid() && cs.running && cs.exitCode == Some(if ran && !env.runFails then 0 else 1)
    ensures RanTags(cs.trace) == old(RanTags(cs.trace))
  {
    var etagCompatible, _ := Decide(CreatedLabels(env.created), env.toolchainLabels.value, env.templateEtag, env.jsonEtag);
    built := !etagCompatible;
    if built && env.buildFails {
      Abort(cs);
      return built, false;
    }
    ran := true;
    if env.runFails {
      Abort(cs);
      return;
    }
    Settle(cs, true);
  }

  /** The script from start to exit. */
  method Build(env: Env) returns (r: Outcome)
    ensures r.code == 0 <==> Prepared(env) && (Rebuilds(env) ==> !env.buildFails) && !env.runFails
    ensures r.built <==> Prepared(env) && Rebuilds(env)
    ensures r.ran <==> Prepared(env) && (Rebuilds(env) ==> !env.buildFails)
  {
    var cs := Begin();
    if !env.toolsFound || env.platform != Platform || env.toolchain.None? || !Names.IsImageName(env.toolchain.value)
      || env.toolchainLabels.None? || env.pruneFails
    {
      Abort(cs);
      return Outcome(1, false, false);
    }
    var built, ran := Finish(cs, env);
    r := Outcome(cs.exitCode.value, built, ran);
  }

  /** A compatible image carries the template and manifest etags and no
      `NOT-AVAILABLE` label; so an image that cannot be inspected, or has
      no labels, is always rebuilt, and so is one whose manifests changed. */
  lemma CompatibleMeans(env: Env)
    requires env.toolchainLabels.Some? && !Rebuilds(env)
    ensures env.created.Labels?
    ensures "ETAG_TEMPLATE" in env.created.labels && env.created.labels["ETAG_TEMPLATE"] == env.templateEtag
    ensures "ETAG_JSON" in env.created.labels && env.created.labels["ETAG_JSON"] == env.jsonEtag
    ensures NotAvailable !in env.created.labels
    ensures env.toolchainLabels.value.Some? ==> ToolchainAgrees(env.created.labels, env.toolchainLabels.value.value)
  {
  }
}
