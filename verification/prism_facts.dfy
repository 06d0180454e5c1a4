/**
 * How the recursive Prism parse composes: the first failing requirement
 * aborts it, and a successful one appends the children's classpaths
 * after the downloader's.
 */
module PrismFacts {
  import opened Wrappers
  import opened Json
  import opened PrismParse

  /**
   * The first required manifest that fails, in "requires" order, fails the
   * whole parse with its error, whatever the downloader would have said.
   */
  lemma ChildFailureAborts(manifest: Value, env: PrismEnv, fuel: nat, i: nat)
    requires i < |Requires(manifest)| && Child(Requires(manifest)[i], env, fuel).Err?
    requires forall j :: 0 <= j < i ==> Child(Requires(manifest)[j], env, fuel).Ok?
    ensures ParsePrism(manifest, env, fuel) == Err(Child(Requires(manifest)[i], env, fuel).error)
  {
    var reqs := Requires(manifest);
    CollectStopsAtFirstError(reqs, req => Child(req, env, fuel), i);
    assert Children(reqs, env, fuel).Err?;
  }

  /**
   * When every required manifest parses and the download succeeds, the
   * classpath is the downloader's, followed by each child's in "requires"
   * order, each child's led by ':'.
   */
  lemma ChildrenFollowOwn(manifest: Value, env: PrismEnv, fuel: nat)
    requires forall j :: 0 <= j < |Requires(manifest)| ==> Child(Requires(manifest)[j], env, fuel).Ok?
    requires env.downloadMissing(OwnDescriptors(manifest, env)).Ok?
    ensures ParsePrism(manifest, env, fuel).Ok?
    ensures ParsePrism(manifest, env, fuel).value.classpaths
         == env.downloadMissing(OwnDescriptors(manifest, env)).value.classpaths
          + Classpaths(Requires(manifest), req => Child(req, env, fuel))
  {
    var reqs := Requires(manifest);
    CollectAllOk(reqs, req => Child(req, env, fuel));
  }

  /**
   * Without "requires", a parse downloads exactly this
   * manifest's own descriptors and returns the downloader's result.
   */
  lemma NoRequiresIsOneDownload(manifest: Value, env: PrismEnv, fuel: nat)
    requires AsArray(At(manifest, "requires")).None?
    ensures ParsePrism(manifest, env, fuel) == env.downloadMissing(OwnDescriptors(manifest, env))
  {
    match env.downloadMissing(OwnDescriptors(manifest, env)) {
      case Ok(own) =>
        assert own.classpaths + [] == own.classpaths && own.natives + [] == own.natives;
      case Err(e) =>
    }
  }
}
