/**
 * `sync_libs`: the library stage of an instance sync. It announces the
 * stage, names the platform, runs the parser the manifest type calls for
 * and reports the stage complete only when that parser succeeded.
 */
module LibsSync {
  import opened Wrappers
  import opened Json
  import opened Libs
  import opened OfficialParse
  import opened PrismParse

  /** The stage messages the synchroniser sends, in order. */
  datatype StageEvent = Started | Completed

  /**
   * `sync_libs`. The build target is `os`/`arch`; `fetchManifest` and
   * `downloadMissing` stand for the meta fetch and `download_missing_libs`,
   * and `fuel` bounds how deep Prism requirements may nest.
   */
  method SyncLibs(manifest: Value, manifestType: ManifestType, os: TargetOs, arch: TargetArch,
                  fetchManifest: string -> Result<Value, string>,
                  downloadMissing: seq<LibInfo> -> Result<SyncResult, string>, fuel: nat)
    returns (result: Result<SyncResult, string>, events: seq<StageEvent>)
    requires manifestType == Official ==> ClientJarWellFormed(manifest)
    ensures |events| > 0 && events[0] == Started
    ensures result.Ok? <==> events == [Started, Completed]
    ensures result.Err? <==> events == [Started]
    ensures ConstructOsName(os, arch).Err? ==> result == Err(ErrorMessage(ConstructOsName(os, arch).error))
    ensures ConstructOsName(os, arch).Ok? && manifestType == Official ==>
      result == downloadMissing(Descriptors(manifest, ConstructOsName(os, arch).value))
    ensures ConstructOsName(os, arch).Ok? && manifestType == Prism ==>
      result == ParsePrism(manifest, PrismEnv(ConstructOsName(os, arch).value, fetchManifest, downloadMissing), fuel)
  {
    events := [Started];
    var currentOs;
    match ConstructOsName(os, arch) {
      case Err(e) =>
        return Err(ErrorMessage(e)), events;
      case Ok(name) =>
        currentOs := name;
    }
    match manifestType {
      case Official =>
        var downloadable;
        result, downloadable := ParseManifestOfficial(manifest, currentOs, downloadMissing);
      case Prism =>
        result := ParsePrism(manifest, PrismEnv(currentOs, fetchManifest, downloadMissing), fuel);
    }
    if result.Err? {
      return;
    }
    events := events + [Completed];
  }
}
