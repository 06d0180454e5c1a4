/**
 * Library descriptors and the platform table of the library synchroniser.
 */
module Libs {
  import opened Wrappers
  import opened Strings
  import opened Paths

  datatype ManifestType = Official | Prism

  datatype LibsSyncError = OsNotAvailable | ArchNotAvailable

  /** The `Display` text of each error. */
  function ErrorMessage(e: LibsSyncError): string {
    match e
    case OsNotAvailable => "OS is not supported"
    case ArchNotAvailable => "CPU architecture is not supported"
  }

  /**
   * One library to have on disk. Equality is structural over all six
   * fields, exactly as the derived `Eq`/`Hash` make it for sets.
   */
  datatype LibInfo = LibInfo(hash: string, name: string, path: string, url: string, native: bool,
                             savePath: Option<Path>)

  datatype SyncResult = SyncResult(classpaths: seq<string>, natives: seq<Path>)

  /** `LibInfo::is_native` */
  function IsNative(lib: LibInfo): (r: bool)
    ensures r <==> lib.native
  {
    if lib.native == true then true else false
  }

  /** Two descriptors of the same file under different names are two members of a set. */
  lemma SameHashDifferentName(a: LibInfo, b: LibInfo)
    requires a.hash == b.hash && a.name != b.name
    ensures a != b && |{a, b}| == 2
  {
  }

  /** The build target's operating system, as `cfg(target_os)` sees it. */
  datatype TargetOs = Linux | MacOs | Windows | OtherOs

  /** The build target's architecture, as `cfg(target_arch)` sees it. */
  datatype TargetArch = X86 | X86_64 | Arm | Aarch64 | OtherArch

  /** `construct_os_name`: the manifests' name for the platform the launcher was built for. */
  function ConstructOsName(os: TargetOs, arch: TargetArch): (r: Result<string, LibsSyncError>)
    ensures r.Err? ==> r.error == OsNotAvailable
    ensures r.Ok? ==> os != OtherOs && arch != OtherArch
  {
    match (os, arch)
    case (Linux, X86) => Ok("linux")
    case (Linux, X86_64) => Ok("linux")
    case (Linux, Arm) => Ok("linux-arm32")
    case (Linux, Aarch64) => Ok("linux-arm64")
    case (MacOs, X86) => Ok("osx")
    case (MacOs, X86_64) => Ok("osx")
    case (MacOs, Arm) => Ok("osx")
    case (MacOs, Aarch64) => Ok("osx-arm64")
    case (Windows, X86) => Ok("windows")
    case (Windows, X86_64) => Ok("windows")
    case (Windows, Arm) => Ok("windows-arm32")
    case (Windows, Aarch64) => Ok("windows-arm64")
    case _ => Err(OsNotAvailable)
  }

  /** The family prefix each operating system's names start with. */
  function OsFamily(os: TargetOs): string {
    match os
    case Linux => "linux"
    case MacOs => "osx"
    case Windows => "windows"
    case OtherOs => ""
  }

  /**
   * Every supported combination has a name, led by its operating system's
   * family; the unsupported ones all fail with `OsNotAvailable`.
   */
  lemma OsNameTable(os: TargetOs, arch: TargetArch)
    ensures ConstructOsName(os, arch).Ok? <==> os != OtherOs && arch != OtherArch
    ensures ConstructOsName(os, arch).Ok? ==> StartsWith(ConstructOsName(os, arch).value, OsFamily(os))
  {
  }

  /** Only ARM targets get a suffixed name; 32- and 64-bit x86 share the plain one. */
  lemma OsNameSuffixes(os: TargetOs)
    requires os != OtherOs
    ensures ConstructOsName(os, X86) == ConstructOsName(os, X86_64) == Ok(OsFamily(os))
    ensures ConstructOsName(os, Aarch64) == Ok(OsFamily(os) + "-arm64")
    ensures os == MacOs <==> ConstructOsName(os, Arm) == Ok(OsFamily(os))
  {
    match os
    case Linux => assert "linux" + "-arm64" == "linux-arm64";
    case MacOs => assert "osx" + "-arm64" == "osx-arm64";
    case Windows => assert "windows" + "-arm64" == "windows-arm64";
  }
}
