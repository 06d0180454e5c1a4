/**
 * Filesystem paths as the strings they display as. `Join` follows
 * `PathBuf::push`: an absolute argument replaces the path; otherwise a '/'
 * separator is inserted unless the path is empty or already ends in one.
 */
module Paths {
  import opened Wrappers
  import opened Strings

  type Path = string

  predicate EndsWithSlash(p: Path) {
    |p| > 0 && p[|p| - 1] == '/'
  }

  /** The separator `PathBuf::push` puts between `p` and a relative name. */
  function Sep(p: Path): string {
    if |p| == 0 || EndsWithSlash(p) then "" else "/"
  }

  predicate IsAbsolute(s: string) {
    |s| > 0 && s[0] == '/'
  }

  /** `PathBuf::join` */
  function Join(p: Path, s: string): (r: Path)
    ensures IsAbsolute(s) ==> r == s
    ensures !IsAbsolute(s) ==> |r| == |p| + |Sep(p)| + |s| && r[..|p|] == p && r[|p| + |Sep(p)|..] == s
  {
    if IsAbsolute(s) then s else p + Sep(p) + s
  }

  /** A plain relative name: it neither starts with '/' nor is empty. */
  predicate IsRelative(s: string) {
    |s| > 0 && s[0] != '/'
  }

  /** Joining two relative names one after the other is joining "a/b" at once. */
  lemma JoinTwice(p: Path, a: string, b: string)
    requires IsRelative(a) && IsRelative(b) && a[|a| - 1] != '/'
    ensures Join(Join(p, a), b) == Join(p, a + "/" + b)
  {
    var ab := a + "/" + b;
    assert ab[0] == a[0];
    var pa := p + Sep(p) + a;
    assert pa[|pa| - 1] == a[|a| - 1];
    assert Sep(pa) == "/";
    calc {
      Join(Join(p, a), b);
      pa + "/" + b;
      p + Sep(p) + ab;
      Join(p, ab);
    }
  }

  /** Joining different relative names to the same path gives different paths. */
  lemma JoinInjective(p: Path, a: string, b: string)
    requires IsRelative(a) && IsRelative(b) && a != b
    ensures Join(p, a) != Join(p, b)
  {
    var k := |p| + |Sep(p)|;
    assert Join(p, a)[k..] == a;
    assert Join(p, b)[k..] == b;
  }

  /** The non-empty, non-"." '/'-separated segments of `s`, in order. */
  function Components(s: string): (r: seq<string>)
    ensures forall i :: 0 <= i < |r| ==> |r[i]| > 0 && '/' !in r[i] && r[i] != "."
  {
    Normal(Split(s, '/'))
  }

  function Normal(ss: seq<string>): (r: seq<string>)
    requires forall i :: 0 <= i < |ss| ==> '/' !in ss[i]
    ensures forall i :: 0 <= i < |r| ==> |r[i]| > 0 && '/' !in r[i] && r[i] != "."
    ensures |r| <= |ss|
  {
    if |ss| == 0 then []
    else if |ss[0]| == 0 || ss[0] == "." then Normal(ss[1..])
    else [ss[0]] + Normal(ss[1..])
  }

  /** `Path::file_name`: the last component, unless there is none or it is "..". */
  function FileName(p: Path): (r: Option<string>)
    ensures r.Some? ==> |r.value| > 0 && '/' !in r.value && r.value != ".."
  {
    var cs := Components(p);
    if |cs| == 0 || cs[|cs| - 1] == ".." then None else Some(cs[|cs| - 1])
  }

  /** `Path::parent`: the path without its last component; none for "" or "/". */
  function Parent(p: Path): (r: Option<Path>)
    ensures r.None? <==> |Components(p)| == 0
  {
    var cs := Components(p);
    if |cs| == 0 then None
    else
      var dir := JoinWith(cs[..|cs| - 1], '/');
      Some(if IsAbsolute(p) then "/" + dir else dir)
  }

  /** Every location the launcher keeps for one instance. */
  datatype InstancePaths = InstancePaths(
    root: Path,
    libs: Path,
    assets: Path,
    instance: Path,
    instanceManifestFile: Path,
    instancesListFile: Path,
    headers: Path,
    meta: Path,
    versionManifestFile: Option<Path>,
    metacacheFile: Path)

  /** `InstancePaths::get_required_paths` */
  function GetRequiredPaths(instanceName: string, launcherRoot: Path): (r: InstancePaths)
    ensures r.root == launcherRoot && r.versionManifestFile.None?
    ensures r.instanceManifestFile == Join(r.headers, instanceName) && r.instancesListFile == Join(r.headers, "main.json")
    ensures r.instance == Join(Join(launcherRoot, "instances"), instanceName)
  {
    var headers := Join(launcherRoot, "headers");
    InstancePaths(
      root := launcherRoot,
      libs := Join(launcherRoot, "libraries"),
      assets := Join(launcherRoot, "assets"),
      instance := Join(Join(launcherRoot, "instances"), instanceName),
      instanceManifestFile := Join(headers, instanceName),
      instancesListFile := Join(headers, "main.json"),
      headers := headers,
      meta := Join(launcherRoot, "meta"),
      versionManifestFile := None,
      metacacheFile := Join(launcherRoot, "metacache.json"))
  }

  /**
   * An instance's own manifest never overwrites the instance list, unless
   * the instance is itself called "main.json".
   */
  lemma ManifestApartFromInstanceList(instanceName: string, launcherRoot: Path)
    requires IsRelative(instanceName)
    ensures var ps := GetRequiredPaths(instanceName, launcherRoot);
      ps.instanceManifestFile != ps.instancesListFile <==> instanceName != "main.json"
  {
    var headers := Join(launcherRoot, "headers");
    JoinTwice(launcherRoot, "headers", "main.json");
    if instanceName != "main.json" {
      JoinInjective(headers, instanceName, "main.json");
    }
  }

  /** `InstancePaths::set_version_manifest_file` */
  function SetVersionManifestFile(ps: InstancePaths, path: Path): (r: InstancePaths)
    ensures r.versionManifestFile == Some(path)
    ensures r.(versionManifestFile := ps.versionManifestFile) == ps
  {
    ps.(versionManifestFile := Some(path))
  }

  datatype LauncherPathKind =
    | LibsDir
    | AssetsDir
    | InstancesDir
    | InstancesEntryFile
    | HeadersDir
    | MetaDir
    | MetacacheFile
    | LauncherRootDir

  /** The fixed location, relative to the launcher root, of each kind but the root itself. */
  function RelativeLocation(kind: LauncherPathKind): string
    requires kind != LauncherRootDir
  {
    match kind
    case LibsDir => "libraries"
    case AssetsDir => "assets"
    case InstancesDir => "instances"
    case InstancesEntryFile => "headers/main.json"
    case HeadersDir => "headers"
    case MetaDir => "meta"
    case MetacacheFile => "metacache.json"
  }

  /** `construct_launcher_path` */
  function ConstructLauncherPath(launcherRoot: Path, kind: LauncherPathKind): (r: Path)
    ensures kind == LauncherRootDir ==> r == launcherRoot
    ensures kind != LauncherRootDir ==> |r| > |launcherRoot| && r[..|launcherRoot|] == launcherRoot
  {
    match kind
    case LauncherRootDir => launcherRoot
    case _ => Join(launcherRoot, RelativeLocation(kind))
  }

  /** Different kinds name different locations under the same root. */
  lemma LauncherPathsDistinct(root: Path, k1: LauncherPathKind, k2: LauncherPathKind)
    requires k1 != k2
    ensures ConstructLauncherPath(root, k1) != ConstructLauncherPath(root, k2)
  {
    if k1 != LauncherRootDir && k2 != LauncherRootDir {
      JoinInjective(root, RelativeLocation(k1), RelativeLocation(k2));
    }
  }

  /** The launcher-wide path table and the per-instance directories agree. */
  lemma LauncherDirsAgree(name: string, root: Path)
    ensures var ps := GetRequiredPaths(name, root);
      && ConstructLauncherPath(root, LibsDir) == ps.libs
      && ConstructLauncherPath(root, AssetsDir) == ps.assets
      && ConstructLauncherPath(root, HeadersDir) == ps.headers
  {
  }

  /** ... and so do the metadata locations and the root. */
  lemma LauncherMetaAgree(name: string, root: Path)
    ensures var ps := GetRequiredPaths(name, root);
      && ConstructLauncherPath(root, MetaDir) == ps.meta
      && ConstructLauncherPath(root, MetacacheFile) == ps.metacacheFile
      && ConstructLauncherPath(root, LauncherRootDir) == ps.root
  {
  }

  /** The launcher's instance-list file is the one every instance's paths name. */
  lemma InstancesEntryFileAgrees(name: string, root: Path)
    ensures ConstructLauncherPath(root, InstancesEntryFile) == GetRequiredPaths(name, root).instancesListFile
  {
    assert GetRequiredPaths(name, root).instancesListFile == Join(Join(root, "headers"), "main.json");
    JoinTwice(root, "headers", "main.json");
    HeadersMainJson();
  }

  lemma HeadersMainJson()
    ensures "headers" + "/" + "main.json" == "headers/main.json"
  {
  }
}
