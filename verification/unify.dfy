/**
 * `UnifiedVersionsData`: the version list of a metadata provider reduced
 * to (id, url) pairs. Only the Prism index is understood.
 */
module Unify {
  import opened Wrappers
  import opened Json
  import opened Seqs

  datatype MetaProviders = Mojang | Prism

  datatype UnifiedVersion = UnifiedVersion(id: string, url: string)

  /** Where each provider's version index is downloaded from. */
  function ManifestUrl(p: MetaProviders): string {
    match p
    case Mojang => "https://piston-meta.mojang.com/mc/game/version_manifest_v2.json"
    case Prism => "https://meta.prismlauncher.org/v1/net.minecraft/index.json"
  }

  const PrismMetaRoot: string := "https://meta.prismlauncher.org/v1/"

  /** The url of one version's document under a component's base path. */
  function VersionUrl(base: string, id: string): string {
    base + "/" + id + ".json"
  }

  /** One "versions" entry: a string "version" gives one unified version, anything else none. */
  function Unified(base: string, item: Value): (r: seq<UnifiedVersion>)
    ensures |r| <= 1
    ensures |r| == 1 <==> StrGet(item, "version").Some?
    ensures |r| == 1 ==> r[0] == UnifiedVersion(StrGet(item, "version").value, VersionUrl(base, StrGet(item, "version").value))
  {
    match StrGet(item, "version")
    case Some(id) => [UnifiedVersion(id, VersionUrl(base, id))]
    case None => []
  }

  /** The versions array, when "versions" is one. */
  function VersionItems(manifest: Value): Option<seq<Value>> {
    match Get(manifest, "versions")
    case Some(v) => AsArray(v)
    case None => None
  }

  /**
   * `extract_prism`: a string "uid" and an array "versions" are required;
   * entries without a string "version" are skipped.
   */
  method ExtractPrism(manifest: Value) returns (r: Result<seq<UnifiedVersion>, string>)
    ensures r.Ok? <==> StrGet(manifest, "uid").Some? && VersionItems(manifest).Some?
    ensures r.Err? ==> r.error == "Failed to parse"
    ensures r.Ok? ==> r.value == FlatMap(item => Unified(PrismMetaRoot + StrGet(manifest, "uid").value, item), VersionItems(manifest).value)
  {
    match StrGet(manifest, "uid") {
      case None =>
      case Some(uid) =>
        var base := PrismMetaRoot + uid;
        match VersionItems(manifest) {
          case None =>
          case Some(items) =>
            var unified: seq<UnifiedVersion> := [];
            for i := 0 to |items|
              invariant unified == FlatMap(item => Unified(base, item), items[..i])
            {
              FlatMapSnoc(item => Unified(base, item), items, i);
              match StrGet(items[i], "version") {
                case Some(id) =>
                  unified := unified + [UnifiedVersion(id, VersionUrl(base, id))];
                case None =>
              }
            }
            assert items[..|items|] == items;
            return Ok(unified);
        }
    }
    return Err("Failed to parse");
  }

  /** `build`: the Mojang index is not supported yet. */
  method Build(manifest: Value, provider: MetaProviders) returns (r: Result<seq<UnifiedVersion>, string>)
    ensures provider.Mojang? ==> r == Err("Not implemented")
    ensures provider.Prism? ==> (r.Ok? <==> StrGet(manifest, "uid").Some? && VersionItems(manifest).Some?)
    ensures provider.Prism? && r.Err? ==> r.error == "Failed to parse"
  {
    if provider.Mojang? {
      return Err("Not implemented");
    }
    r := ExtractPrism(manifest);
  }

  /**
   * Every extracted version points at its own document (the base, the id
   * and ".json"), and there is at most one version per entry.
   */
  lemma {:induction false} ExtractedUrls(base: string, items: seq<Value>)
    ensures var r := FlatMap(item => Unified(base, item), items);
            && (forall i :: 0 <= i < |r| ==> r[i].url == VersionUrl(base, r[i].id))
            && |r| <= |items|
    decreases |items|
  {
    if |items| > 0 {
      ExtractedUrls(base, items[..|items| - 1]);
    }
  }

  /** An entry without a string "version" adds nothing. */
  lemma SkipsNonStringVersions(base: string, items: seq<Value>, bad: Value)
    requires StrGet(bad, "version").None?
    ensures FlatMap(item => Unified(base, item), items + [bad]) == FlatMap(item => Unified(base, item), items)
  {
    FlatMapAppend(item => Unified(base, item), items, [bad]);
    assert [bad][..0] == [];
  }
}
