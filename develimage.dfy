/** packages/toolchain-raspios/scripts/createDevelDockerImage.ts: builds the
    development image on top of a base image unless the existing image's
    etag labels show it is already built from the same base and the same
    Dockerfile template.

    The command line, `docker image inspect`, the template's hash and the
    outcome of `docker build` are inputs (`Env`). */
module DevelImage {
  import opened Common
  import opened Cleanup
  import opened Stages
  import Names
  import Etags
  import opened Rebuild

  const RemoveTemp := "remove temp dir"

  datatype Env = Env(
    name: string,                               // --name
    toolsFound: bool,                           // every `which` succeeds
    created: Inspected,                         // labels of the image to build
    base: Option<Option<map<string, string>>>,  // labels of --base; None: inspect throws
    templateEtag: string,                       // sha256 of devel.template.dockerfile
    buildFails: bool)                           // `docker build` exits non-zero

  /** How a run ends: exit code, teardowns run, and whether `docker build`
      was started. */
  datatype Outcome = Outcome(code: int, ran: seq<string>, built: bool)

  /** Lines 38-39: the created image's `ETAG_BASE*` labels against the base
      image's `ETAG*` labels. */
  predicate BaseAgrees(created: map<string, string>, base: map<string, string>) {
    Etags.CompareDockerEtagLabels(Etags.Record(created, Some("ETAG_BASE")), Etags.Record(base, Some("ETAG")))
  }

  /** The three checks of lines 33-46, every one passing. */
  predicate Compatible(created: map<string, string>, base: Option<map<string, string>>, templateEtag: string) {
    && NotAvailable !in created
    && (base.Some? ==> BaseAgrees(created, base.value))
    && Holds(created, "ETAG_TEMPLATE", templateEtag)
  }

  /** Lines 32-46: the flag, cleared check by check; `history` holds its
      successive values. */
  method Decide(created: map<string, string>, base: Option<map<string, string>>, templateEtag: string)
    returns (etagCompatible: bool, ghost history: seq<bool>)
    ensures |history| == 4 && history[0] && history[3] == etagCompatible && NonIncreasing(history)
    ensures etagCompatible <==> Compatible(created, base, templateEtag)
  {
    etagCompatible := true;
    history := [etagCompatible];
    etagCompatible := Clear(etagCompatible, NotAvailable in created);
    ClearExtends(history, NotAvailable in created);
    history := history + [etagCompatible];
    var baseFails := base.Some? && !BaseAgrees(created, base.value);
    etagCompatible := Clear(etagCompatible, baseFails);
    ClearExtends(history, baseFails);
    history := history + [etagCompatible];
    var templateFails := !Holds(created, "ETAG_TEMPLATE", templateEtag);
    etagCompatible := Clear(etagCompatible, templateFails);
    ClearExtends(history, templateFails);
    history := history + [etagCompatible];
  }

  /** The options pass lines 18-21. */
  predicate ArgsOk(env: Env) {
    Names.IsImageName(env.name) && env.toolsFound
  }

  /** The decision for the inputs, once the base image is inspected. */
  predicate Rebuilds(env: Env)
    requires env.base.Some?
  {
    !Compatible(CreatedLabels(env.created), env.base.value, env.templateEtag)
  }

  /** Lines 29-63 after the temp directory. */
  method Finish(cs: CleanupStack, env: Env) returns (built: bool)
    requires Live(cs)
    modifies cs
    ensures built <==> env.base.Some? && Rebuilds(env)
    ensures cs.Valid() && cs.running
    ensures cs.exitCode == Some(if env.base.Some? && !(built && env.buildFails) then 0 else 1)
    ensures RanTags(cs.trace) == old(RanTags(cs.trace)) + Reverse(old(Teardowns(cs)))
  {
    var created := CreatedLabels(env.created);
    if env.base.None? {
      Abort(cs);
      return false;
    }
    var etagCompatible, _ := Decide(created, env.base.value, env.templateEtag);
    built := !etagCompatible;
    if built && env.buildFails {
      Abort(cs);
      return;
    }
    Settle(cs, true);
  }

  /** The script from start to exit. */
  method Create(env: Env) returns (r: Outcome)
    ensures r.code == 0 <==> ArgsOk(env) && env.base.Some? && (Rebuilds(env) ==> !env.buildFails)
    ensures r.built <==> ArgsOk(env) && env.base.Some? && Rebuilds(env)
    ensures r.ran == if ArgsOk(env) then [RemoveTemp] else []
  {
    var cs := Begin();
    if !Names.IsImageName(env.name) || !env.toolsFound {
      Abort(cs);
      return Outcome(1, [], false);
    }
    var _ := Register(cs, RemoveTemp, false);
    var built := Finish(cs, env);
    assert Reverse([RemoveTemp]) == [RemoveTemp];
    r := Outcome(cs.exitCode.value, RanTags(cs.trace), built);
  }

  /** A compatible image carries the template's etag, no `NOT-AVAILABLE`
      label and, when the base image has labels, base etags that agree
      with them; so an image that cannot be inspected, or has no labels,
      is always rebuilt. */
  lemma CompatibleMeans(env: Env)
    requires env.base.Some? && !Rebuilds(env)
    ensures env.created.Labels?
    ensures "ETAG_TEMPLATE" in env.created.labels && env.created.labels["ETAG_TEMPLATE"] == env.templateEtag
    ensures NotAvailable !in env.created.labels
    ensures env.base.value.Some? ==> BaseAgrees(env.created.labels, env.base.value.value)
  {
  }

  /** Lines 37-39: a base image without labels is not compared at all. */
  lemma NullBaseSkipsComparison(env: Env)
    requires env.base == Some(None)
    ensures !Rebuilds(env) <==>
      NotAvailable !in CreatedLabels(env.created) && Holds(CreatedLabels(env.created), "ETAG_TEMPLATE", env.templateEtag)
  {
  }

  /** A base image whose etag labels are all `ETAG` or `ETAG_<i>` agrees
      with the created image exactly when it has none or one of them
      equals a value the created image holds under `ETAG_BASE` or
      `ETAG_BASE_<j>`. */
  lemma BaseAgreesMeans(created: map<string, string>, base: map<string, string>)
    requires forall k :: k in base && StartsWith(k, "ETAG") ==> Etags.GroupKey(k[4..]) == ""
    ensures BaseAgrees(created, base) <==>
      Etags.Etags(Etags.Record(base, Some("ETAG"))) == map[]
      || Etags.SharedIn(Etags.Etags(Etags.Record(created, Some("ETAG_BASE"))), Etags.Etags(Etags.Record(base, Some("ETAG"))), "")
  {
    var against := Etags.Etags(Etags.Record(base, Some("ETAG")));
    forall k | k in against ensures Etags.GroupKey(k) == "" {
      assert "ETAG" + k in base;
      assert ("ETAG" + k)[4..] == k;
      assert StartsWith("ETAG" + k, "ETAG");
    }
    Etags.AgainstInOneGroup(Etags.Etags(Etags.Record(created, Some("ETAG_BASE"))), against, "");
  }
}
