/**
 * `parse_manifest_official`: the library descriptors of an official
 * (Mojang) version manifest, in manifest order.
 */
module OfficialParse {
  import opened Wrappers
  import opened Json
  import opened Libs
  import opened Seqs

  /**
   * The closure passed to `rules.iter().any(..)`: an "allow" rule counts
   * when it has no "os" object, or its os.name is the current OS.
   */
  predicate RuleAllows(rule: Value, currentOs: string) {
    && StrAt(rule, "action") == Some("allow")
    && (AsObject(At(rule, "os")).None? || StrGet(At(rule, "os"), "name") == Some(currentOs))
  }

  /** A library without a "rules" array is allowed; otherwise some rule must allow it. */
  predicate LibAllowed(lib: Value, currentOs: string) {
    match AsArray(At(lib, "rules"))
    case None => true
    case Some(rules) => exists i :: 0 <= i < |rules| && RuleAllows(rules[i], currentOs)
  }

  /** A rule whose action is not "allow" never allows anything. */
  lemma NonAllowRulesIgnored(rules: seq<Value>, extra: Value, currentOs: string)
    requires StrAt(extra, "action") != Some("allow")
    ensures (exists i :: 0 <= i < |rules + [extra]| && RuleAllows((rules + [extra])[i], currentOs))
        <==> (exists i :: 0 <= i < |rules| && RuleAllows(rules[i], currentOs))
  {
    var all := rules + [extra];
    if exists i :: 0 <= i < |all| && RuleAllows(all[i], currentOs) {
      var i :| 0 <= i < |all| && RuleAllows(all[i], currentOs);
      assert i < |rules| && all[i] == rules[i];
    }
    if exists i :: 0 <= i < |rules| && RuleAllows(rules[i], currentOs) {
      var i :| 0 <= i < |rules| && RuleAllows(rules[i], currentOs);
      assert all[i] == rules[i];
    }
  }

  /** The descriptor `path`/`url`/`sha1` fields make, when all of them and the name are strings. */
  function Descriptor(name: Option<string>, v: Value, native: bool): (r: Option<LibInfo>)
    ensures r.Some? <==> name.Some? && StrAt(v, "path").Some? && StrAt(v, "url").Some? && StrAt(v, "sha1").Some?
    ensures r.Some? ==> r.value == LibInfo(StrAt(v, "sha1").value, name.value, StrAt(v, "path").value,
                                            StrAt(v, "url").value, native, None)
  {
    match (name, StrAt(v, "path"), StrAt(v, "url"), StrAt(v, "sha1"))
    case (Some(n), Some(p), Some(u), Some(h)) => Some(LibInfo(h, n, p, u, native, None))
    case _ => None
  }

  /** The artifact descriptor of an allowed library. */
  function Artifact(lib: Value, currentOs: string): (r: Option<LibInfo>)
    ensures r.Some? ==> LibAllowed(lib, currentOs) && !r.value.native
  {
    if LibAllowed(lib, currentOs) then Descriptor(StrAt(lib, "name"), At(At(lib, "downloads"), "artifact"), false)
    else None
  }

  /** Some classifier is named by `nativeName` (a JSON string equal to its key) and its descriptor is `x`. */
  predicate ClassifierYields(name: Option<string>, classifiers: seq<(string, Value)>, nativeName: Value, x: LibInfo) {
    exists i :: 0 <= i < |classifiers| && Str(classifiers[i].0) == nativeName && Descriptor(name, classifiers[i].1, true) == Some(x)
  }

  /** Some "natives" entry is keyed by the current OS and its value names a classifier yielding `x`. */
  predicate NativeSelects(name: Option<string>, natives: seq<(string, Value)>, classifiers: Option<seq<(string, Value)>>,
                          currentOs: string, x: LibInfo) {
    && classifiers.Some?
    && exists j :: 0 <= j < |natives| && natives[j].0 == currentOs && ClassifierYields(name, classifiers.value, natives[j].1, x)
  }

  /** The descriptors of the classifiers named `nativeName`, in classifier order. */
  function Classifiers(name: Option<string>, classifiers: seq<(string, Value)>, nativeName: Value): (r: seq<LibInfo>)
    ensures |r| <= |classifiers|
    ensures forall i :: 0 <= i < |r| ==> r[i].native && Some(r[i].name) == name
    ensures forall x :: x in r <==> ClassifierYields(name, classifiers, nativeName, x)
    decreases |classifiers|
  {
    if |classifiers| == 0 then []
    else
      var last := |classifiers| - 1;
      var init := classifiers[..last];
      var (cname, v) := classifiers[last];
      var rest := Classifiers(name, init, nativeName);
      var here := if Str(cname) == nativeName then OptionToSeq(Descriptor(name, v, true)) else [];
      assert forall i :: 0 <= i < last ==> init[i] == classifiers[i];
      assert forall x :: ClassifierYields(name, classifiers, nativeName, x) <==>
                         ClassifierYields(name, init, nativeName, x) || x in here by {
        forall x | ClassifierYields(name, classifiers, nativeName, x)
          ensures ClassifierYields(name, init, nativeName, x) || x in here
        {
          var i :| 0 <= i < |classifiers| && Str(classifiers[i].0) == nativeName && Descriptor(name, classifiers[i].1, true) == Some(x);
          if i == last {
            assert x in here;
          }
        }
      }
      rest + here
  }

  /**
   * The native descriptors of a library: for every "natives" entry keyed by
   * the current OS, the classifiers named by its value. The rules play no
   * part.
   */
  function NativesOf(name: Option<string>, natives: seq<(string, Value)>, classifiers: Option<seq<(string, Value)>>,
                     currentOs: string): (r: seq<LibInfo>)
    ensures forall i :: 0 <= i < |r| ==> r[i].native && Some(r[i].name) == name
    ensures forall x :: x in r <==> NativeSelects(name, natives, classifiers, currentOs, x)
    decreases |natives|
  {
    if |natives| == 0 then []
    else
      var last := |natives| - 1;
      var init := natives[..last];
      var (k, nativeName) := natives[last];
      var rest := NativesOf(name, init, classifiers, currentOs);
      var here := if k == currentOs && classifiers.Some? then Classifiers(name, classifiers.value, nativeName) else [];
      assert forall j :: 0 <= j < last ==> init[j] == natives[j];
      assert forall x :: NativeSelects(name, natives, classifiers, currentOs, x) <==>
                         NativeSelects(name, init, classifiers, currentOs, x) || x in here by {
        forall x | NativeSelects(name, natives, classifiers, currentOs, x)
          ensures NativeSelects(name, init, classifiers, currentOs, x) || x in here
        {
          var j :| 0 <= j < |natives| && natives[j].0 == currentOs && ClassifierYields(name, classifiers.value, natives[j].1, x);
          if j == last {
            assert x in here;
          }
        }
      }
      rest + here
  }

  /**
   * A library's native descriptors: exactly those of the classifiers named
   * by a "natives" entry keyed by the current OS, whatever the rules say.
   */
  function Natives(lib: Value, currentOs: string): (r: seq<LibInfo>)
    ensures forall i :: 0 <= i < |r| ==> r[i].native && Some(r[i].name) == StrAt(lib, "name")
    ensures AsObject(At(lib, "natives")).None? ==> r == []
    ensures AsObject(At(lib, "natives")).Some? ==>
      forall x :: x in r <==> NativeSelects(StrAt(lib, "name"), AsObject(At(lib, "natives")).value,
                                            AsObject(At(At(lib, "downloads"), "classifiers")), currentOs, x)
  {
    match AsObject(At(lib, "natives"))
    case None => []
    case Some(natives) =>
      NativesOf(StrAt(lib, "name"), natives, AsObject(At(At(lib, "downloads"), "classifiers")), currentOs)
  }

  /** One library's descriptors: its artifact first, then its natives. */
  function LibDescriptors(lib: Value, currentOs: string): seq<LibInfo> {
    OptionToSeq(Artifact(lib, currentOs)) + Natives(lib, currentOs)
  }

  /** The descriptors of a run of libraries, in order, duplicates kept. */
  function LibrariesDescriptors(libs: seq<Value>, currentOs: string): seq<LibInfo> {
    FlatMap(lib => LibDescriptors(lib, currentOs), libs)
  }

  /** Nothing is de-duplicated: descriptors of a concatenation are the concatenated descriptors. */
  lemma LibrariesAppend(a: seq<Value>, b: seq<Value>, currentOs: string)
    ensures LibrariesDescriptors(a + b, currentOs) == LibrariesDescriptors(a, currentOs) + LibrariesDescriptors(b, currentOs)
  {
    FlatMapAppend(lib => LibDescriptors(lib, currentOs), a, b);
  }

  /** A library with no "natives" yields its artifact alone, and only when allowed and complete. */
  lemma ArtifactOnly(lib: Value, currentOs: string)
    requires AsObject(At(lib, "natives")).None?
    ensures |LibDescriptors(lib, currentOs)| == 1 <==>
      && LibAllowed(lib, currentOs)
      && Descriptor(StrAt(lib, "name"), At(At(lib, "downloads"), "artifact"), false).Some?
    ensures |LibDescriptors(lib, currentOs)| <= 1
  {
  }

  /** Any "downloads.client.url" requires an "id" and a "downloads.client.sha1"; unwrapping either panics otherwise. */
  predicate ClientJarWellFormed(manifest: Value) {
    var client := At(At(manifest, "downloads"), "client");
    StrAt(client, "url").Some? ==> StrAt(manifest, "id").Some? && StrAt(client, "sha1").Some?
  }

  /** The client jar's descriptor, when the manifest names a client download. */
  function ClientJar(manifest: Value): (r: Option<LibInfo>)
    requires ClientJarWellFormed(manifest)
    ensures r.Some? <==> StrAt(At(At(manifest, "downloads"), "client"), "url").Some?
    ensures r.Some? ==>
      var name := StrAt(manifest, "id").value + "-client.jar";
      && r.value.name == name && r.value.path == "com/mojang/minecraft/" + name && !r.value.native
      && r.value.hash == StrAt(At(At(manifest, "downloads"), "client"), "sha1").value
      && r.value.url == StrAt(At(At(manifest, "downloads"), "client"), "url").value
      && r.value.savePath.None?
  {
    var client := At(At(manifest, "downloads"), "client");
    match StrAt(client, "url")
    case None => None
    case Some(url) =>
      var name := StrAt(manifest, "id").value + "-client.jar";
      Some(LibInfo(StrAt(client, "sha1").value, name, "com/mojang/minecraft/" + name, url, false, None))
  }

  /** Every descriptor of the manifest, in the order the parser pushes them. */
  function Descriptors(manifest: Value, currentOs: string): seq<LibInfo>
    requires ClientJarWellFormed(manifest)
  {
    var libs := AsArray(At(manifest, "libraries")).GetOr([]);
    LibrariesDescriptors(libs, currentOs) + OptionToSeq(ClientJar(manifest))
  }

  /**
   * `parse_manifest_official`: one pass over "libraries", then the client
   * jar; the list goes to `download_missing_libs` (here `downloadMissing`),
   * whose result is returned as it is.
   */
  method ParseManifestOfficial(manifest: Value, currentOs: string,
                               downloadMissing: seq<LibInfo> -> Result<SyncResult, string>)
    returns (result: Result<SyncResult, string>, downloadable: seq<LibInfo>)
    requires ClientJarWellFormed(manifest)
    ensures downloadable == Descriptors(manifest, currentOs)
    ensures result == downloadMissing(downloadable)
    ensures ClientJar(manifest).Some? ==> |downloadable| > 0 && downloadable[|downloadable| - 1] == ClientJar(manifest).value
  {
    downloadable := [];
    var libs := AsArray(At(manifest, "libraries")).GetOr([]);
    for i := 0 to |libs|
      invariant downloadable == LibrariesDescriptors(libs[..i], currentOs)
    {
      FlatMapSnoc(lib => LibDescriptors(lib, currentOs), libs, i);
      downloadable := downloadable + LibDescriptors(libs[i], currentOs);
    }
    assert libs[..|libs|] == libs;
    match ClientJar(manifest) {
      case Some(jar) => downloadable := downloadable + [jar];
      case None =>
    }
    result := downloadMissing(downloadable);
  }
}
