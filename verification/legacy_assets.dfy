/**
 * The older asset synchroniser: an object is fetched unless the metacache
 * already lists an asset with its name AND its hash; what was fetched is
 * appended to the metacache's "assets" array.
 */
module LegacyAssets {
  import opened Wrappers
  import opened Json
  import opened Dispatch
  import Assets

  /** The base URL, this time with the trailing '/'. */
  const LegacyBaseUrl: string := "https://resources.download.minecraft.net/"

  /** What a fetch reports and the metacache records: name and hash. */
  datatype LegacyAsset = LegacyAsset(name: string, hash: string)

  /**
   * `construct_asset_url`: the URL, the two-character directory and the
   * hash. Slicing a hash shorter than two characters panics.
   */
  function ConstructAssetUrl(baseUrl: string, hash: string): (r: (string, string, string))
    requires |hash| >= 2
    ensures r.1 == hash[..2] && r.2 == hash
    ensures r.0 == baseUrl + r.1 + "/" + r.2
  {
    (baseUrl + hash[..2] + "/" + hash, hash[..2], hash)
  }

  /** Both synchronisers fetch an object from the same URL. */
  lemma SameUrlAsCurrent(hash: string)
    requires |hash| >= 2
    ensures ConstructAssetUrl(LegacyBaseUrl, hash).0 == Assets.ConstructAssetUrl(hash).0
  {
    assert LegacyBaseUrl == Assets.AssetsBaseUrl + "/";
  }

  /** `is_array_exists(metacache, "assets")` */
  predicate HasAssetsArray(metacache: Value) {
    Get(metacache, "assets").Some? && Get(metacache, "assets").value.Arr?
  }

  /**
   * The metacache after the "assets" check: unchanged when it has an
   * "assets" array, given an empty one when it is an object without, and
   * unchanged (and arrayless) otherwise.
   */
  function EnsureAssetsArray(metacache: Value): (r: Value)
    ensures HasAssetsArray(metacache) ==> r == metacache
    ensures metacache.Obj? ==> HasAssetsArray(r)
    ensures !HasAssetsArray(metacache) && metacache.Obj? ==> Get(r, "assets") == Some(Arr([]))
    ensures metacache.Obj? ==> r.Obj? && forall k :: k != "assets" ==> Get(r, k) == Get(metacache, k)
    ensures !metacache.Obj? ==> r == metacache
  {
    if HasAssetsArray(metacache) || !metacache.Obj? then metacache
    else Obj(PutField(metacache.fields, "assets", Arr([])))
  }

  /** Some recorded asset has this name and the same `as_str()` hash (both missing counts as the same). */
  predicate Known(assets: seq<Value>, name: string, hash: Option<string>) {
    exists j :: 0 <= j < |assets| && StrAt(assets[j], "name") == Some(name) && StrAt(assets[j], "hash") == hash
  }

  /** An entry the filter lets through: not known under its name and hash. */
  predicate Unknown(entry: (string, Value), assets: seq<Value>) {
    !Known(assets, entry.0, StrAt(entry.1, "hash"))
  }

  /** Every object the filter lets through has a string hash of at least two characters; otherwise the source panics. */
  predicate Fetchable(objects: seq<(string, Value)>, assets: seq<Value>) {
    forall i :: 0 <= i < |objects| && Unknown(objects[i], assets) ==>
      StrAt(objects[i].1, "hash").Some? && |StrAt(objects[i].1, "hash").value| >= 2
  }

  /** The assets to fetch, in object order. */
  function ToFetch(objects: seq<(string, Value)>, assets: seq<Value>): (r: seq<LegacyAsset>)
    requires Fetchable(objects, assets)
    ensures forall i :: 0 <= i < |r| ==> |r[i].hash| >= 2
    decreases |objects|
  {
    if |objects| == 0 then []
    else
      var init := objects[..|objects| - 1];
      var (k, v) := objects[|objects| - 1];
      assert forall i :: 0 <= i < |init| ==> init[i] == objects[i];
      ToFetch(init, assets) + (if Unknown((k, v), assets) then [LegacyAsset(k, StrAt(v, "hash").value)] else [])
  }

  /** Some object names the asset with its hash as a string. */
  predicate Lists(objects: seq<(string, Value)>, a: LegacyAsset) {
    exists i :: 0 <= i < |objects| && objects[i].0 == a.name && StrAt(objects[i].1, "hash") == Some(a.hash)
  }

  /** The objects list an asset when the earlier ones do or the last one does. */
  lemma ListsSnoc(objects: seq<(string, Value)>, a: LegacyAsset)
    requires |objects| > 0
    ensures var last := objects[|objects| - 1];
      Lists(objects, a) <==> Lists(objects[..|objects| - 1], a) || (last.0 == a.name && StrAt(last.1, "hash") == Some(a.hash))
  {
    var init := objects[..|objects| - 1];
    assert forall i :: 0 <= i < |init| ==> init[i] == objects[i];
  }

  /** An asset is fetched exactly when some object names it and its (name, hash) pair is not recorded. */
  lemma {:induction false} ToFetchMembers(objects: seq<(string, Value)>, assets: seq<Value>, a: LegacyAsset)
    requires Fetchable(objects, assets)
    ensures a in ToFetch(objects, assets) <==> Lists(objects, a) && !Known(assets, a.name, Some(a.hash))
    decreases |objects|
  {
    if |objects| > 0 {
      var init := objects[..|objects| - 1];
      var (k, v) := objects[|objects| - 1];
      assert forall i :: 0 <= i < |init| ==> init[i] == objects[i];
      ToFetchMembers(init, assets, a);
      ListsSnoc(objects, a);
      assert ToFetch(objects, assets) == ToFetch(init, assets) + (if Unknown((k, v), assets) then [LegacyAsset(k, StrAt(v, "hash").value)] else []);
    }
  }

  /** The directory an asset goes to: the assets path, '/', the hash's first two characters. */
  function AssetDir(assetsPath: string, hash: string): string
    requires |hash| >= 2
  {
    assetsPath + "/" + ConstructAssetUrl(LegacyBaseUrl, hash).1
  }

  /**
   * The asset's hash has two characters to slice, and once the directory
   * exists and the GET completes, its file can be created and filled: the
   * source unwraps both, so a failure there is a panic.
   */
  predicate WriteSucceeds(asset: LegacyAsset, assetsPath: string, mkdir: string -> Result<(), string>,
                          get: string -> Result<(), string>, write: string -> bool)
  {
    && |asset.hash| >= 2
    && var fetched := mkdir(AssetDir(assetsPath, asset.hash)).Ok? && get(ConstructAssetUrl(LegacyBaseUrl, asset.hash).0).Ok?;
       fetched ==> write(AssetFile(assetsPath, asset.hash))
  }

  /** The file an asset is written to. */
  function AssetFile(assetsPath: string, hash: string): (r: string)
    requires |hash| >= 2
    ensures r == AssetDir(assetsPath, hash) + "/" + hash
  {
    var (_, hashPart, h) := ConstructAssetUrl(LegacyBaseUrl, hash);
    assetsPath + "/" + hashPart + "/" + h
  }

  /**
   * `download_asset`: a failure to create the directory aborts this asset
   * before the request; otherwise any completed GET succeeds and reports
   * the asset. `mkdir` and `get` stand for the file system and the network,
   * `write` for creating and filling a file.
   */
  function DownloadAsset(asset: LegacyAsset, assetsPath: string, mkdir: string -> Result<(), string>,
                         get: string -> Result<(), string>, write: string -> bool): (r: Result<LegacyAsset, string>)
    requires WriteSucceeds(asset, assetsPath, mkdir, get, write)
    ensures mkdir(AssetDir(assetsPath, asset.hash)).Err? ==> r == Err(mkdir(AssetDir(assetsPath, asset.hash)).error)
    ensures r.Ok? <==> mkdir(AssetDir(assetsPath, asset.hash)).Ok? && get(ConstructAssetUrl(LegacyBaseUrl, asset.hash).0).Ok?
    ensures r.Ok? ==> r.value == asset && write(AssetFile(assetsPath, asset.hash))
  {
    var (url, _, _) := ConstructAssetUrl(LegacyBaseUrl, asset.hash);
    match mkdir(AssetDir(assetsPath, asset.hash))
    case Err(e) => Err(e)
    case Ok(_) =>
      match get(url)
      case Err(e) => Err(e)
      case Ok(_) => Ok(asset)
  }

  /**
   * `extract_manifest_assets` (legacy) up to `register_assets`: the
   * metacache gets its "assets" array, then every object it does not know
   * is fetched under the concurrency cap. Returns the metacache as it goes
   * to `register_assets`, with what was fetched.
   */
  method ExtractManifestAssets(manifest: Value, assetsPath: string, metacache: Value,
                               mkdir: string -> Result<(), string>, get: string -> Result<(), string>, write: string -> bool,
                               reorder: seq<Option<LegacyAsset>> -> seq<Option<LegacyAsset>>)
    returns (cache: Value, downloaded: set<LegacyAsset>, reports: seq<Report<LegacyAsset>>, peak: nat)
    requires forall s :: multiset(reorder(s)) == multiset(s)
    requires AsObject(At(manifest, "objects")).Some? && AsArray(At(EnsureAssetsArray(metacache), "assets")).Some? ==>
      var objects, assets := AsObject(At(manifest, "objects")).value, AsArray(At(EnsureAssetsArray(metacache), "assets")).value;
      && Fetchable(objects, assets)
      && forall a :: a in ToFetch(objects, assets) ==> WriteSucceeds(a, assetsPath, mkdir, get, write)
    ensures cache == EnsureAssetsArray(metacache)
    ensures AsObject(At(manifest, "objects")).None? || AsArray(At(cache, "assets")).None? ==> downloaded == {} && reports == []
    ensures AsObject(At(manifest, "objects")).Some? && AsArray(At(cache, "assets")).Some? ==>
      var objects, assets := AsObject(At(manifest, "objects")).value, AsArray(At(cache, "assets")).value;
      && (forall a :: a in downloaded <==>
            a in ToFetch(objects, assets) && DownloadAsset(a, assetsPath, mkdir, get, write).Ok?)
      && (forall i :: 0 <= i < |reports| ==> reports[i].total == |objects| && reports[i].item in downloaded)
    ensures peak <= ConcurrentTasksCount
  {
    cache := EnsureAssetsArray(metacache);
    downloaded, reports, peak := {}, [], 0;
    match (AsObject(At(manifest, "objects")), AsArray(At(cache, "assets"))) {
      case (Some(objects), Some(assets)) =>
        var pending := ToFetch(objects, assets);
        downloaded, reports, peak := DispatchAll(pending,
          (a: LegacyAsset) => WriteSucceeds(a, assetsPath, mkdir, get, write) && DownloadAsset(a, assetsPath, mkdir, get, write).Ok?,
          reorder, |objects|);
      case _ =>
    }
  }

  /** The record `register_assets` appends for an asset. */
  function Record(a: LegacyAsset): Value {
    Obj([("name", Str(a.name)), ("hash", Str(a.hash))])
  }

  /**
   * `register_assets`: one record per fetched asset, in the set's iteration
   * order `items`, appended to the "assets" array; None (nothing written)
   * when there is no such array. `metacache["assets"]` is taken mutably,
   * which panics on anything but an object or null.
   */
  function RegisterAssets(metacache: Value, items: seq<LegacyAsset>): (r: Option<Value>)
    requires metacache.Obj? || metacache.Null?
    ensures r.Some? <==> HasAssetsArray(metacache)
    ensures r.Some? ==>
      && AsArray(At(r.value, "assets")) == Some(AsArray(At(metacache, "assets")).value + seq(|items|, i requires 0 <= i < |items| => Record(items[i])))
      && forall k :: k != "assets" ==> Get(r.value, k) == Get(metacache, k)
  {
    if !HasAssetsArray(metacache) then None
    else
      var assets := Get(metacache, "assets").value.items;
      Some(Obj(PutField(metacache.fields, "assets", Arr(assets + seq(|items|, i requires 0 <= i < |items| => Record(items[i]))))))
  }

  /** Once registered, a fetched asset is known, so the next run does not fetch it again. */
  lemma RegisteredAreKnown(metacache: Value, items: seq<LegacyAsset>, a: LegacyAsset)
    requires HasAssetsArray(metacache) && a in items
    ensures Known(AsArray(At(RegisterAssets(metacache, items).value, "assets")).value, a.name, Some(a.hash))
  {
    var old_ := AsArray(At(metacache, "assets")).value;
    var recs := AsArray(At(RegisterAssets(metacache, items).value, "assets")).value;
    var i :| 0 <= i < |items| && items[i] == a;
    assert recs[|old_| + i] == Record(a);
    var fields := Record(a).fields;
    assert "name"[0] != "hash"[0];
    assert fields[1..] == [("hash", Str(a.hash))];
    assert Lookup(fields[1..], "hash") == Some(Str(a.hash));
    assert StrAt(Record(a), "name") == Some(a.name);
    assert StrAt(Record(a), "hash") == Some(a.hash);
  }
}
