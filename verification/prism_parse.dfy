/**
 * `parse_manifest_prism`: library descriptors of a Prism-style meta
 * manifest, including the manifests it "requires", fetched and parsed in
 * turn.
 */
module PrismParse {
  import opened Wrappers
  import opened Strings
  import opened Json
  import opened Libs
  import opened Seqs
  import opened OfficialParse

  /** `META_BASE_URL` */
  const MetaBaseUrl: string := "https://meta.prismlauncher.org/v1/"

  /** `x.and_then(|v| v.get(key))` */
  function GetIn(x: Option<Value>, key: string): Option<Value> {
    if x.Some? then Get(x.value, key) else None
  }

  /** `x.and_then(|v| v.as_str())` */
  function StrIn(x: Option<Value>, key: string): Option<string> {
    match GetIn(x, key)
    case Some(v) => AsStr(v)
    case None => None
  }

  // ---------------------------------------------------------------------
  // rules_applies

  /** The rule names an "os" whose name is the current OS, and has a string action. */
  predicate Decides(rule: Value, currentOs: string) {
    && Get(rule, "os").Some?
    && StrIn(Get(rule, "os"), "name") == Some(currentOs)
    && StrIn(Some(rule), "action").Some?
  }

  /** The rule has no "os" key and allows. */
  predicate AllowsEverywhere(rule: Value) {
    Get(rule, "os").None? && StrIn(Some(rule), "action") == Some("allow")
  }

  /** `rules_applies` as written: a scan carrying the sticky allow flag. */
  function Scan(rules: seq<Value>, currentOs: string, allow: bool): bool
    decreases |rules|
  {
    if |rules| == 0 then allow
    else
      var rule := rules[0];
      match Get(rule, "os")
      case None => Scan(rules[1..], currentOs, allow || StrIn(Some(rule), "action") == Some("allow"))
      case Some(os) =>
        if StrIn(Some(os), "name") == Some(currentOs) && StrIn(Some(rule), "action").Some? then
          StrIn(Some(rule), "action") == Some("allow")
        else Scan(rules[1..], currentOs, allow)
  }

  /** `rules_applies` */
  function RulesApplies(rules: seq<Value>, currentOs: string): bool {
    Scan(rules, currentOs, false)
  }

  /** The first rule that names the current OS with an action. */
  function FirstDecider(rules: seq<Value>, currentOs: string): (r: Option<nat>)
    ensures r.Some? ==>
      (r.value < |rules| && Decides(rules[r.value], currentOs)
       && forall j :: 0 <= j < r.value ==> !Decides(rules[j], currentOs))
    ensures r.None? ==> forall j :: 0 <= j < |rules| ==> !Decides(rules[j], currentOs)
    decreases |rules|
  {
    if |rules| == 0 then None
    else if Decides(rules[0], currentOs) then Some(0)
    else
      match FirstDecider(rules[1..], currentOs)
      case Some(i) => Some(i + 1)
      case None => None
  }

  /**
   * What `rules_applies` means: the first rule naming the current OS with
   * an action decides; when there is none, any OS-less "allow" allows, and
   * nothing else does.
   */
  function RulesAppliesSpec(rules: seq<Value>, currentOs: string): bool {
    match FirstDecider(rules, currentOs)
    case Some(i) => StrIn(Some(rules[i]), "action") == Some("allow")
    case None => exists j :: 0 <= j < |rules| && AllowsEverywhere(rules[j])
  }

  lemma {:induction false} ScanMeaning(rules: seq<Value>, currentOs: string, allow: bool)
    ensures Scan(rules, currentOs, allow) == match FirstDecider(rules, currentOs)
      case Some(i) => StrIn(Some(rules[i]), "action") == Some("allow")
      case None => allow || exists j :: 0 <= j < |rules| && AllowsEverywhere(rules[j])
    decreases |rules|
  {
    if |rules| > 0 {
      var rule := rules[0];
      var tail := rules[1..];
      var allow' := if Get(rule, "os").None? then allow || StrIn(Some(rule), "action") == Some("allow") else allow;
      ScanMeaning(tail, currentOs, allow');
      assert forall j :: 0 <= j < |tail| ==> tail[j] == rules[j + 1];
      if !Decides(rule, currentOs) {
        if exists j :: 0 <= j < |rules| && AllowsEverywhere(rules[j]) {
          var j :| 0 <= j < |rules| && AllowsEverywhere(rules[j]);
          if j > 0 {
            assert AllowsEverywhere(tail[j - 1]);
          }
        }
      }
    }
  }

  /** `rules_applies` agrees with its meaning. */
  lemma RulesAppliesMeaning(rules: seq<Value>, currentOs: string)
    ensures RulesApplies(rules, currentOs) == RulesAppliesSpec(rules, currentOs)
  {
    ScanMeaning(rules, currentOs, false);
  }

  /** An OS-less "disallow" added at the end never clears an earlier allow. */
  lemma DisallowNeverClears(rules: seq<Value>, extra: Value, currentOs: string)
    requires Get(extra, "os").None? && StrIn(Some(extra), "action") != Some("allow")
    ensures RulesApplies(rules + [extra], currentOs) == RulesApplies(rules, currentOs)
  {
    var all := rules + [extra];
    RulesAppliesMeaning(rules, currentOs);
    RulesAppliesMeaning(all, currentOs);
    assert forall j :: 0 <= j < |rules| ==> all[j] == rules[j];
    assert !Decides(all[|rules|], currentOs);
    FirstDeciderPrefix(rules, extra, currentOs);
    if exists j :: 0 <= j < |all| && AllowsEverywhere(all[j]) {
      var j :| 0 <= j < |all| && AllowsEverywhere(all[j]);
      assert j < |rules|;
    }
  }

  lemma FirstDeciderPrefix(rules: seq<Value>, extra: Value, currentOs: string)
    requires !Decides(extra, currentOs)
    ensures FirstDecider(rules + [extra], currentOs) == FirstDecider(rules, currentOs)
  {
    var all := rules + [extra];
    var a, b := FirstDecider(all, currentOs), FirstDecider(rules, currentOs);
    assert forall j :: 0 <= j < |rules| ==> all[j] == rules[j];
    if a.Some? && b.Some? {
      assert !(a.value < b.value) && !(b.value < a.value);
    }
  }

  // ---------------------------------------------------------------------
  // Descriptors

  /** `get_path_from_url`: the URL from its third '/' on, that '/' included. */
  function GetPathFromUrl(url: string): (r: Option<string>)
    ensures r.Some? <==> CountChar(url, '/') >= 3
    ensures r.Some? ==>
      var pos := NthOccurrence(url, '/', 3).value;
      url == url[..pos] + r.value && r.value[0] == '/' && CountChar(url[..pos], '/') == 2
  {
    match NthOccurrence(url, '/', 3)
    case None => None
    case Some(pos) =>
      assert url == url[..pos] + url[pos..];
      Some(url[pos..])
  }

  /** What a Prism parse needs from outside: the OS name, the meta fetch and the downloader. */
  datatype PrismEnv = PrismEnv(
    currentOs: string,
    fetchManifest: string -> Result<Value, string>,
    downloadMissing: seq<LibInfo> -> Result<SyncResult, string>)

  /** A descriptor from an object with string "url" and "sha1" and a derivable path. */
  function Fetchable(name: string, v: Option<Value>, native: bool, env: PrismEnv): (r: Option<LibInfo>)
    ensures r.Some? <==> StrIn(v, "url").Some? && StrIn(v, "sha1").Some? && GetPathFromUrl(StrIn(v, "url").value).Some?
    ensures r.Some? ==> r.value == LibInfo(StrIn(v, "sha1").value, name, GetPathFromUrl(StrIn(v, "url").value).value,
                                            StrIn(v, "url").value, native, None)
  {
    var url, sha1 := StrIn(v, "url"), StrIn(v, "sha1");
    if url.None? || sha1.None? then None
    else
      var path := GetPathFromUrl(url.value);
      if path.None? then None
      else Some(LibInfo(sha1.value, name, path.value, url.value, native, None))
  }

  /** The native descriptor is looked for when the rules apply, or when there are no rules. */
  predicate NativeWanted(lib: Value, currentOs: string) {
    match AsArray(At(lib, "rules"))
    case Some(rules) => RulesApplies(rules, currentOs)
    case None => true
  }

  /** `classifiers["natives-<os>"]` under "downloads". */
  function NativeObject(lib: Value, currentOs: string): Option<Value> {
    GetIn(GetIn(Get(lib, "downloads"), "classifiers"), "natives-" + currentOs)
  }

  /**
   * One library's descriptors: none without a string name and a
   * "downloads" key; otherwise the artifact whatever the rules say, then
   * the native classifier when `NativeWanted`.
   */
  function PrismLibDescriptors(lib: Value, env: PrismEnv): (r: seq<LibInfo>)
    ensures |r| <= 2
    ensures forall i :: 0 <= i < |r| ==> Some(r[i].name) == StrIn(Some(lib), "name")
  {
    var name, downloads := StrIn(Some(lib), "name"), Get(lib, "downloads");
    if name.None? || downloads.None? then []
    else
      var artifact := OptionToSeq(Fetchable(name.value, GetIn(downloads, "artifact"), false, env));
      var native := if NativeWanted(lib, env.currentOs)
                    then OptionToSeq(Fetchable(name.value, NativeObject(lib, env.currentOs), true, env)) else [];
      artifact + native
  }

  /** The artifact descriptor does not depend on the rules. */
  lemma ArtifactIgnoresRules(lib: Value, env: PrismEnv, name: string)
    requires StrIn(Some(lib), "name") == Some(name) && Get(lib, "downloads").Some?
    requires Fetchable(name, GetIn(Get(lib, "downloads"), "artifact"), false, env).Some?
    ensures |PrismLibDescriptors(lib, env)| > 0
    ensures PrismLibDescriptors(lib, env)[0] == Fetchable(name, GetIn(Get(lib, "downloads"), "artifact"), false, env).value
    ensures !PrismLibDescriptors(lib, env)[0].native
  {
  }

  /** The library has a name and "downloads", its rules let natives in, and its natives-<os> classifier is complete. */
  predicate NativeAvailable(lib: Value, env: PrismEnv) {
    && StrIn(Some(lib), "name").Some? && Get(lib, "downloads").Some? && NativeWanted(lib, env.currentOs)
    && Fetchable(StrIn(Some(lib), "name").value, NativeObject(lib, env.currentOs), true, env).Some?
  }

  /** A native descriptor only appears when `NativeAvailable`. */
  lemma NativeNeedsRules(lib: Value, env: PrismEnv)
    requires exists i :: 0 <= i < |PrismLibDescriptors(lib, env)| && PrismLibDescriptors(lib, env)[i].native
    ensures NativeAvailable(lib, env)
  {
  }

  /** When `NativeAvailable`, the natives-<os> classifier's descriptor is the last one, and native. */
  lemma NativeFound(lib: Value, env: PrismEnv)
    requires NativeAvailable(lib, env)
    ensures var d := PrismLibDescriptors(lib, env);
            && |d| > 0 && d[|d| - 1].native
            && d[|d| - 1] == Fetchable(StrIn(Some(lib), "name").value, NativeObject(lib, env.currentOs), true, env).value
  {
  }

  /** `mainJar`: the client jar, when its name, sha1, url and the manifest's version are strings. */
  function MainJar(manifest: Value): (r: Option<LibInfo>)
    ensures var jar := Get(manifest, "mainJar");
            var artifact := if jar.Some? then GetIn(Get(jar.value, "downloads"), "artifact") else None;
            r.Some? <==> && jar.Some? && jar.value.Obj?
                         && StrIn(jar, "name").Some? && StrIn(artifact, "sha1").Some? && StrIn(artifact, "url").Some?
                         && StrIn(Some(manifest), "version").Some?
    ensures var jar := Get(manifest, "mainJar");
            var artifact := if jar.Some? then GetIn(Get(jar.value, "downloads"), "artifact") else None;
            r.Some? ==>
              && r.value.name == StrIn(jar, "name").value
              && r.value.hash == StrIn(artifact, "sha1").value
              && r.value.url == StrIn(artifact, "url").value
              && r.value.path == "/com/mojang/minecraft/" + StrIn(Some(manifest), "version").value + "-client.jar"
              && !r.value.native && r.value.savePath.None?
  {
    var jar := Get(manifest, "mainJar");
    if jar.None? || !jar.value.Obj? then None
    else
      var artifact := GetIn(Get(jar.value, "downloads"), "artifact");
      var name, hash, url := StrIn(jar, "name"), StrIn(artifact, "sha1"), StrIn(artifact, "url");
      var version := StrIn(Some(manifest), "version");
      if name.Some? && hash.Some? && url.Some? && version.Some? then
        Some(LibInfo(hash.value, name.value, "/com/mojang/minecraft/" + version.value + "-client.jar", url.value, false, None))
      else None
  }

  /** This manifest's own descriptors: its libraries in order, then the main jar. */
  function OwnDescriptors(manifest: Value, env: PrismEnv): seq<LibInfo>
  {
    var libs := AsArray(At(manifest, "libraries")).GetOr([]);
    FlatMap(lib => PrismLibDescriptors(lib, env), libs) + OptionToSeq(MainJar(manifest))
  }

  // ---------------------------------------------------------------------
  // The recursive parse

  /** The location of a required component's manifest. */
  function RequireUrl(uid: string, suggests: string): string {
    MetaBaseUrl + uid + "/" + suggests + ".json"
  }

  /** The "requires" entries, none when it is not an array. */
  function Requires(manifest: Value): seq<Value> {
    AsArray(At(manifest, "requires")).GetOr([])
  }

  /** Returned when requirements nest deeper than the fuel allows. */
  const RequiresTooDeep: string := "requires nest too deeply"

  /** A child's classpath entries with ':' put in front of the first. */
  function LeadWithColon(cps: seq<string>): (r: seq<string>)
    ensures |r| == |cps|
    ensures Concat(r) == if |cps| == 0 then "" else ":" + Concat(cps)
  {
    if |cps| == 0 then cps
    else
      ConcatCons(":" + cps[0], cps[1..]);
      ConcatCons(cps[0], cps[1..]);
      assert cps == [cps[0]] + cps[1..];
      [":" + cps[0]] + cps[1..]
  }

  /** What a requirement contributes: classpath entries and natives. */
  type Contribution = (seq<string>, seq<Paths.Path>)

  /** Runs `f` over `xs` in order, concatenating the contributions; the first error stops the run. */
  function Collect<A>(xs: seq<A>, f: A -> Result<Contribution, string>): Result<Contribution, string>
    decreases |xs|
  {
    if |xs| == 0 then Ok(([], []))
    else
      var first := f(xs[0]);
      if first.Err? then Err(first.error)
      else
        var rest := Collect(xs[1..], f);
        if rest.Err? then Err(rest.error)
        else Ok((first.value.0 + rest.value.0, first.value.1 + rest.value.1))
  }

  /** The first failing element's error is the run's error; nothing after it runs. */
  lemma {:induction false} CollectStopsAtFirstError<A>(xs: seq<A>, f: A -> Result<Contribution, string>, i: nat)
    requires i < |xs| && f(xs[i]).Err?
    requires forall j :: 0 <= j < i ==> f(xs[j]).Ok?
    ensures Collect(xs, f) == Err(f(xs[i]).error)
    decreases i
  {
    if i > 0 {
      var tail := xs[1..];
      forall j | 0 <= j < i - 1 ensures f(tail[j]).Ok? {
        assert tail[j] == xs[j + 1];
      }
      assert tail[i - 1] == xs[i];
      CollectStopsAtFirstError(tail, f, i - 1);
    }
  }

  /** The classpath entries of the successful contributions, in order. */
  function Classpaths<A>(xs: seq<A>, f: A -> Result<Contribution, string>): seq<string>
    decreases |xs|
  {
    if |xs| == 0 then []
    else (if f(xs[0]).Ok? then f(xs[0]).value.0 else []) + Classpaths(xs[1..], f)
  }

  /** When every element succeeds, the run succeeds with the contributions concatenated in order. */
  lemma {:induction false} CollectAllOk<A>(xs: seq<A>, f: A -> Result<Contribution, string>)
    requires forall j :: 0 <= j < |xs| ==> f(xs[j]).Ok?
    ensures Collect(xs, f).Ok?
    ensures Collect(xs, f).value.0 == Classpaths(xs, f)
    decreases |xs|
  {
    if |xs| > 0 {
      var tail := xs[1..];
      forall j | 0 <= j < |tail| ensures f(tail[j]).Ok? {
        assert tail[j] == xs[j + 1];
      }
      CollectAllOk(tail, f);
    }
  }

  /**
   * `parse_manifest_prism`: every required manifest is fetched and parsed
   * first, in order, and the first failure aborts; then this manifest's
   * own descriptors are downloaded, and the children's classpaths and
   * natives follow the downloader's own. `fuel` bounds how deep
   * requirements may nest.
   */
  function ParsePrism(manifest: Value, env: PrismEnv, fuel: nat): (r: Result<SyncResult, string>)
    ensures Requires(manifest) == [] ==> r == env.downloadMissing(OwnDescriptors(manifest, env))
    ensures env.downloadMissing(OwnDescriptors(manifest, env)).Err? ==> r.Err?
    ensures r.Ok? ==>
      var own := env.downloadMissing(OwnDescriptors(manifest, env));
      && own.Ok?
      && own.value.classpaths <= r.value.classpaths
      && own.value.natives <= r.value.natives
    decreases fuel, 2
  {
    var reqs := Requires(manifest);
    var own := env.downloadMissing(OwnDescriptors(manifest, env));
    assert own.Ok? ==> own.value.classpaths + [] == own.value.classpaths && own.value.natives + [] == own.value.natives;
    Assemble(Children(reqs, env, fuel), own)
  }

  /**
   * A failed child is the result; otherwise a failed download is; otherwise
   * the children's classpaths and natives follow the downloader's.
   */
  function Assemble(children: Result<Contribution, string>, own: Result<SyncResult, string>): (r: Result<SyncResult, string>)
    ensures children.Err? ==> r == Err(children.error)
    ensures children.Ok? && own.Err? ==> r == Err(own.error)
    ensures children.Ok? && own.Ok? ==>
      r == Ok(SyncResult(own.value.classpaths + children.value.0, own.value.natives + children.value.1))
  {
    if children.Err? then Err(children.error)
    else if own.Err? then Err(own.error)
    else Ok(SyncResult(own.value.classpaths + children.value.0, own.value.natives + children.value.1))
  }

  /** The classpaths and natives the required manifests contribute, or the first error. */
  function Children(reqs: seq<Value>, env: PrismEnv, fuel: nat): Result<Contribution, string>
    decreases fuel, 1
  {
    Collect(reqs, req => Child(req, env, fuel))
  }

  /**
   * One "requires" entry: skipped unless "suggests" and "uid" are strings;
   * otherwise the manifest at `RequireUrl` is fetched and parsed.
   */
  function Child(req: Value, env: PrismEnv, fuel: nat): Result<Contribution, string>
    decreases fuel, 0
  {
    var suggests, uid := StrIn(Some(req), "suggests"), StrIn(Some(req), "uid");
    if suggests.None? || uid.None? then Ok(([], []))
    else if fuel == 0 then Err(RequiresTooDeep)
    else
      var fetched := env.fetchManifest(RequireUrl(uid.value, suggests.value));
      if fetched.Err? then Err(fetched.error)
      else
        var parsed := ParsePrism(fetched.value, env, fuel - 1);
        if parsed.Err? then Err(parsed.error)
        else Ok((LeadWithColon(parsed.value.classpaths), parsed.value.natives))
  }

  /**
   * A child's classpath continues the parent's: joined together, the
   * entries read as the parent's classpath, ':' and the child's.
   */
  lemma ChildClasspathContinues(parent: seq<string>, child: seq<string>)
    requires |child| > 0
    ensures Concat(parent + LeadWithColon(child)) == Concat(parent) + ":" + Concat(child)
  {
    ConcatAppend(parent, LeadWithColon(child));
  }

  lemma {:induction false} ConcatAppend(a: seq<string>, b: seq<string>)
    ensures Concat(a + b) == Concat(a) + Concat(b)
    decreases |b|
  {
    if |b| == 0 {
      assert a + b == a;
    }
    else {
      var init := b[..|b| - 1];
      var ab := a + b;
      ConcatAppend(a, init);
      assert ab[..|ab| - 1] == a + init;
      assert ab[|ab| - 1] == b[|b| - 1];
      assert Concat(ab) == Concat(a + init) + b[|b| - 1];
      assert Concat(b) == Concat(init) + b[|b| - 1];
    }
  }
}
