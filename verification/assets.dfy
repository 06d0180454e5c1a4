/**
 * `extract_manifest_assets`: turning the asset index's "objects" into
 * downloads keyed by content hash, skipping what is cached, fetching the
 * rest under the concurrency cap and registering what arrived.
 */
module Assets {
  import opened Wrappers
  import opened Json
  import opened Paths
  import opened Dispatch
  import BufferPool

  /** `ASSETS_BASE_URL` */
  const AssetsBaseUrl: string := "https://resources.download.minecraft.net"

  datatype AssetInfo = AssetInfo(name: string, hash: string, url: string)

  /**
   * `construct_asset_url`: the download URL and the relative save path of
   * an object, both "<first two characters>/<hash>". Slicing a hash shorter
   * than two characters panics.
   */
  function ConstructAssetUrl(hash: string): (r: (string, string))
    requires |hash| >= 2
    ensures r.0 == AssetsBaseUrl + "/" + r.1
    ensures |r.1| == |hash| + 3 && r.1[..2] == hash[..2] && r.1[2] == '/' && r.1[3..] == hash
  {
    var short := hash[..2];
    (AssetsBaseUrl + "/" + short + "/" + hash, short + "/" + hash)
  }

  /** Different hashes are fetched from, and saved to, different places. */
  lemma AssetUrlInjective(h1: string, h2: string)
    requires |h1| >= 2 && |h2| >= 2 && h1 != h2
    ensures ConstructAssetUrl(h1).0 != ConstructAssetUrl(h2).0
    ensures ConstructAssetUrl(h1).1 != ConstructAssetUrl(h2).1
  {
    var r1, r2 := ConstructAssetUrl(h1), ConstructAssetUrl(h2);
    assert r1.1[3..] != r2.1[3..];
    var k := |AssetsBaseUrl| + 1;
    assert r1.0[k..] == r1.1 && r2.0[k..] == r2.1;
  }

  /** The hash an object entry names, when "hash" is a string. */
  function HashOf(entry: (string, Value)): Option<string> {
    StrAt(entry.1, "hash")
  }

  /** The object entry is to be downloaded: it names a hash, and that hash is not cached. */
  predicate Wanted(entry: (string, Value), cached: string -> bool) {
    HashOf(entry).Some? && !cached(HashOf(entry).value)
  }

  /** Every wanted entry's hash is long enough for `construct_asset_url`. */
  predicate HashesSliceable(objects: seq<(string, Value)>, cached: string -> bool) {
    forall i :: 0 <= i < |objects| && Wanted(objects[i], cached) ==> |HashOf(objects[i]).value| >= 2
  }

  /** The descriptor an entry yields. */
  function Describe(entry: (string, Value), cached: string -> bool): (a: AssetInfo)
    requires Wanted(entry, cached) && |HashOf(entry).value| >= 2
    ensures a.name == entry.0 && a.hash == HashOf(entry).value
  {
    var hash := HashOf(entry).value;
    AssetInfo(entry.0, hash, ConstructAssetUrl(hash).0)
  }

  /** The descriptors of the wanted entries, in manifest order. */
  function Pending(objects: seq<(string, Value)>, cached: string -> bool): (r: seq<AssetInfo>)
    requires HashesSliceable(objects, cached)
    ensures |r| <= |objects|
    ensures forall i :: 0 <= i < |r| ==> |r[i].hash| >= 2 && r[i].url == ConstructAssetUrl(r[i].hash).0
    decreases |objects|
  {
    if |objects| == 0 then []
    else
      var init := objects[..|objects| - 1];
      var last := objects[|objects| - 1];
      assert forall i :: 0 <= i < |init| ==> init[i] == objects[i];
      Pending(init, cached) + (if Wanted(last, cached) then [Describe(last, cached)] else [])
  }

  /** Where an asset is saved: the assets directory joined with its relative path. */
  function SavePath(assetsDir: Path, asset: AssetInfo): Path {
    if |asset.hash| >= 2 then Join(assetsDir, ConstructAssetUrl(asset.hash).1) else assetsDir
  }

  /** An entry with no string hash, or a cached one, yields nothing; any other yields its descriptor. */
  lemma PendingSingle(entry: (string, Value), cached: string -> bool)
    requires Wanted(entry, cached) ==> |HashOf(entry).value| >= 2
    ensures HashesSliceable([entry], cached)
    ensures !Wanted(entry, cached) ==> Pending([entry], cached) == []
    ensures Wanted(entry, cached) ==> Pending([entry], cached) == [Describe(entry, cached)]
  {
    assert [entry][..0] == [];
  }

  /** Entries are handled one at a time, in order. */
  lemma {:induction false} PendingAppend(a: seq<(string, Value)>, b: seq<(string, Value)>, cached: string -> bool)
    requires HashesSliceable(a + b, cached)
    ensures HashesSliceable(a, cached) && HashesSliceable(b, cached)
    ensures Pending(a + b, cached) == Pending(a, cached) + Pending(b, cached)
    decreases |b|
  {
    assert forall i :: 0 <= i < |a| ==> (a + b)[i] == a[i];
    assert forall i :: 0 <= i < |b| ==> (a + b)[|a| + i] == b[i];
    if |b| == 0 {
      assert a + b == a;
    }
    else {
      var init := b[..|b| - 1];
      assert (a + b)[..|a + b| - 1] == a + init;
      assert forall i :: 0 <= i < |init| ==> (a + init)[i] == (a + b)[i];
      PendingAppend(a, init, cached);
    }
  }

  /** Every wanted entry is downloaded, and every download comes from a wanted entry. */
  lemma {:induction false} PendingMembers(objects: seq<(string, Value)>, cached: string -> bool, a: AssetInfo)
    requires HashesSliceable(objects, cached)
    ensures a in Pending(objects, cached) <==>
      exists i :: 0 <= i < |objects| && Wanted(objects[i], cached) && a == Describe(objects[i], cached)
    decreases |objects|
  {
    if |objects| > 0 {
      var init := objects[..|objects| - 1];
      assert forall i :: 0 <= i < |init| ==> init[i] == objects[i];
      PendingMembers(init, cached, a);
    }
  }

  /**
   * `extract_manifest_assets`. The cache query, the per-asset download and
   * `register_assets` are inputs: `isCached(cached, hash)` is
   * `cached.contains(&AssetInfo::with_hash(hash))`, `fetch(path, asset)`
   * says whether `download_with_checksum` of `asset` into `path`
   * succeeded, and `reorder` is the completion order of each drain.
   */
  method ExtractManifestAssets(manifest: Value, assetsDir: Path,
                               cachedQuery: Result<seq<AssetInfo>, string>,
                               isCached: (seq<AssetInfo>, string) -> bool,
                               fetch: (Path, AssetInfo) -> bool,
                               reorder: seq<Option<AssetInfo>> -> seq<Option<AssetInfo>>,
                               registerAssets: set<AssetInfo> -> Result<(), string>)
    returns (result: Result<(), string>, pool: BufferPool.Channel,
             downloaded: set<AssetInfo>, reports: seq<Report<AssetInfo>>, peak: nat)
    requires forall s :: multiset(reorder(s)) == multiset(s)
    requires cachedQuery.Ok? && AsObject(At(manifest, "objects")).Some? ==>
      HashesSliceable(AsObject(At(manifest, "objects")).value, h => isCached(cachedQuery.value, h))
    ensures pool.capacity == |pool.queue| == ConcurrentTasksCount
    ensures cachedQuery.Err? ==> result == Err(cachedQuery.error) && downloaded == {} && reports == []
    ensures cachedQuery.Ok? ==> result == registerAssets(downloaded)
    ensures cachedQuery.Ok? && AsObject(At(manifest, "objects")).None? ==> downloaded == {} && reports == []
    ensures cachedQuery.Ok? && AsObject(At(manifest, "objects")).Some? ==>
      var objects := AsObject(At(manifest, "objects")).value;
      var pending := Pending(objects, h => isCached(cachedQuery.value, h));
      && (forall a :: a in downloaded <==> a in pending && fetch(SavePath(assetsDir, a), a))
      && (forall i :: 0 <= i < |reports| ==> reports[i].total == |objects| && reports[i].item in downloaded)
    ensures peak <= ConcurrentTasksCount
  {
    pool := BufferPool.New(ConcurrentTasksCount, ConcurrentBuffersSize);
    downloaded, reports, peak := {}, [], 0;
    if cachedQuery.Err? {
      return Err(cachedQuery.error), pool, downloaded, reports, peak;
    }
    var cached := cachedQuery.value;
    match AsObject(At(manifest, "objects")) {
      case Some(objects) =>
        var pending := Pending(objects, h => isCached(cached, h));
        downloaded, reports, peak := DispatchAll(pending, a => fetch(SavePath(assetsDir, a), a), reorder, |objects|);
      case None =>
    }
    result := registerAssets(downloaded);
  }
}
