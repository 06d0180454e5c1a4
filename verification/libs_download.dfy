/**
 * `download_missing_libs`: partitioning the needed libraries against the
 * cached ones, fetching the rest under the concurrency cap, and handing
 * what was fetched to the registration step.
 */
module LibsDownload {
  import opened Wrappers
  import opened Strings
  import opened Paths
  import opened Libs
  import opened Dispatch
  import opened Seqs
  import BufferPool

  /**
   * `add_to_classpaths`: the first entry goes in as it is, every later one
   * with a ':' in front, so the entries read as one ':'-separated list.
   */
  function AddToClasspaths(classpaths: seq<string>, value: string): (r: seq<string>)
    ensures |r| == |classpaths| + 1 && r[..|classpaths|] == classpaths
    ensures Concat(r) == if |classpaths| == 0 then value else Concat(classpaths) + ":" + value
  {
    var r := if |classpaths| == 0 then classpaths + [value] else classpaths + [":" + value];
    assert r[..|r| - 1] == classpaths;
    r
  }

  /** Adding several values one after the other. */
  function AddAll(classpaths: seq<string>, values: seq<string>): (r: seq<string>)
    ensures |r| == |classpaths| + |values|
    decreases |values|
  {
    if |values| == 0 then classpaths
    else AddToClasspaths(AddAll(classpaths, values[..|values| - 1]), values[|values| - 1])
  }

  /** One more value is one more `add_to_classpaths`. */
  lemma AddAllSnoc(classpaths: seq<string>, values: seq<string>, v: string)
    ensures AddAll(classpaths, values + [v]) == AddToClasspaths(AddAll(classpaths, values), v)
  {
    assert (values + [v])[..|values|] == values;
  }

  lemma {:induction false} JoinWithSnoc(parts: seq<string>, v: string, c: char)
    requires |parts| > 0
    ensures JoinWith(parts + [v], c) == JoinWith(parts, c) + [c] + v
    decreases |parts|
  {
    if |parts| == 1 {
      assert parts + [v] == [parts[0], v];
    }
    else {
      assert (parts + [v])[1..] == parts[1..] + [v];
      JoinWithSnoc(parts[1..], v, c);
    }
  }

  /** Starting from no entries, the classpath reads as the values joined with ':'. */
  lemma {:induction false} ClasspathIsColonJoined(values: seq<string>)
    ensures Concat(AddAll([], values)) == JoinWith(values, ':')
    decreases |values|
  {
    if |values| > 0 {
      var init := values[..|values| - 1];
      ClasspathIsColonJoined(init);
      assert values == init + [values[|values| - 1]];
      if |init| > 0 {
        JoinWithSnoc(init, values[|values| - 1], ':');
      }
    }
  }

  /** The hashes of the cached libraries. */
  function Hashes(cached: seq<LibInfo>): set<string> {
    set l | l in cached :: l.hash
  }

  /** The needed libraries whose hash is not cached, in their order. */
  function Missing(have: set<string>, needed: seq<LibInfo>): seq<LibInfo>
    decreases |needed|
  {
    if |needed| == 0 then []
    else
      var last := needed[|needed| - 1];
      Missing(have, needed[..|needed| - 1]) + (if last.hash in have then [] else [last])
  }

  /** The paths of the needed libraries whose hash is cached, in their order. */
  function CachedPaths(have: set<string>, needed: seq<LibInfo>): seq<string>
    decreases |needed|
  {
    if |needed| == 0 then []
    else
      var last := needed[|needed| - 1];
      CachedPaths(have, needed[..|needed| - 1]) + (if last.hash in have then [last.path] else [])
  }

  /**
   * `get_missing_by_hash`: one pass over the needed libraries; a library
   * whose hash is cached contributes its path to the classpath, any other
   * is missing.
   */
  method GetMissingByHash(downloaded: seq<LibInfo>, needed: seq<LibInfo>, classpaths: seq<string>)
    returns (missing: seq<LibInfo>, classpathsOut: seq<string>)
    ensures missing == Missing(Hashes(downloaded), needed)
    ensures classpathsOut == AddAll(classpaths, CachedPaths(Hashes(downloaded), needed))
  {
    var have := Hashes(downloaded);
    missing, classpathsOut := [], classpaths;
    for i := 0 to |needed|
      invariant missing == Missing(have, needed[..i])
      invariant classpathsOut == AddAll(classpaths, CachedPaths(have, needed[..i]))
    {
      var lib := needed[i];
      PartitionStep(have, needed, i, classpaths);
      if lib.hash !in have {
        missing := missing + [lib];
      }
      else {
        classpathsOut := AddToClasspaths(classpathsOut, lib.path);
      }
    }
    assert needed[..|needed|] == needed;
  }

  /** What one more library does to the partition. */
  lemma PartitionStep(have: set<string>, needed: seq<LibInfo>, i: nat, classpaths: seq<string>)
    requires i < |needed|
    ensures Missing(have, needed[..i + 1])
      == Missing(have, needed[..i]) + (if needed[i].hash in have then [] else [needed[i]])
    ensures needed[i].hash !in have ==> CachedPaths(have, needed[..i + 1]) == CachedPaths(have, needed[..i])
    ensures needed[i].hash in have ==>
      (AddAll(classpaths, CachedPaths(have, needed[..i + 1]))
       == AddToClasspaths(AddAll(classpaths, CachedPaths(have, needed[..i])), needed[i].path))
  {
    assert needed[..i + 1][..i] == needed[..i];
    var paths := CachedPaths(have, needed[..i]);
    if needed[i].hash in have {
      assert CachedPaths(have, needed[..i + 1]) == paths + [needed[i].path];
      assert (paths + [needed[i].path])[..|paths|] == paths;
    }
  }

  /** A needed library is missing exactly when its hash is not among the cached ones. */
  lemma {:induction false} MissingMembers(have: set<string>, needed: seq<LibInfo>, lib: LibInfo)
    ensures lib in Missing(have, needed) <==> lib in needed && lib.hash !in have
    decreases |needed|
  {
    if |needed| > 0 {
      MissingMembers(have, needed[..|needed| - 1], lib);
      assert needed == needed[..|needed| - 1] + [needed[|needed| - 1]];
    }
  }

  /** Every needed library lands in exactly one of the two outputs. */
  lemma {:induction false} PartitionIsExhaustive(have: set<string>, needed: seq<LibInfo>)
    ensures |Missing(have, needed)| + |CachedPaths(have, needed)| == |needed|
    decreases |needed|
  {
    if |needed| > 0 {
      PartitionIsExhaustive(have, needed[..|needed| - 1]);
    }
  }

  /** The partition keeps input order: it works piecewise on concatenations. */
  lemma {:induction false} PartitionKeepsOrder(have: set<string>, a: seq<LibInfo>, b: seq<LibInfo>)
    ensures Missing(have, a + b) == Missing(have, a) + Missing(have, b)
    ensures CachedPaths(have, a + b) == CachedPaths(have, a) + CachedPaths(have, b)
    decreases |b|
  {
    if |b| == 0 {
      assert a + b == a;
    }
    else {
      var init := b[..|b| - 1];
      var last := b[|b| - 1];
      var ab := a + b;
      PartitionKeepsOrder(have, a, init);
      assert ab[..|ab| - 1] == a + init && ab[|ab| - 1] == last;
      if last.hash in have {
        assert Missing(have, ab) == Missing(have, a + init);
        assert Missing(have, b) == Missing(have, init);
        assert CachedPaths(have, ab) == CachedPaths(have, a + init) + [last.path];
        assert CachedPaths(have, b) == CachedPaths(have, init) + [last.path];
      }
      else {
        assert Missing(have, ab) == Missing(have, a + init) + [last];
        assert Missing(have, b) == Missing(have, init) + [last];
        assert CachedPaths(have, ab) == CachedPaths(have, a + init);
        assert CachedPaths(have, b) == CachedPaths(have, init);
      }
    }
  }

  /**
   * `download_missing_libs`. The cache query, the per-library download and
   * `register_libs` are inputs: `fetch(lib)` says whether
   * `download_with_checksum` into `lib.path` succeeded, `reorder` is the
   * completion order of each drain.
   */
  method DownloadMissingLibs(downloadable: seq<LibInfo>, cachedQuery: Result<seq<LibInfo>, string>,
                             fetch: LibInfo -> bool,
                             reorder: seq<Option<LibInfo>> -> seq<Option<LibInfo>>,
                             registerLibs: set<LibInfo> -> Result<(seq<string>, seq<Path>), string>)
    returns (result: Result<SyncResult, string>, pool: BufferPool.Channel,
             downloaded: set<LibInfo>, reports: seq<Report<LibInfo>>, peak: nat)
    requires forall s :: multiset(reorder(s)) == multiset(s)
    ensures pool.capacity == |pool.queue| == ConcurrentTasksCount
    ensures forall i :: 0 <= i < |pool.queue| ==> |pool.queue[i]| == ConcurrentBuffersSize
    ensures cachedQuery.Err? ==> result == Err(cachedQuery.error) && downloaded == {} && reports == []
    ensures cachedQuery.Ok? ==>
      && downloaded == Succeeded(fetch, Missing(Hashes(cachedQuery.value), downloadable))
      && result == match registerLibs(downloaded)
                   case Ok((cps, natives)) => Ok(SyncResult(cps, natives))
                   case Err(e) => Err(e)
    ensures forall i :: 0 <= i < |reports| ==> reports[i].total == |downloadable| && reports[i].item in downloaded
    ensures peak <= ConcurrentTasksCount
  {
    pool := BufferPool.New(ConcurrentTasksCount, ConcurrentBuffersSize);
    downloaded, reports, peak := {}, [], 0;
    if cachedQuery.Err? {
      return Err(cachedQuery.error), pool, downloaded, reports, peak;
    }
    var missing, _ := GetMissingByHash(cachedQuery.value, downloadable, []);
    downloaded, reports, peak := DispatchAll(missing, fetch, reorder, |downloadable|);
    match registerLibs(downloaded)
    case Ok((cps, natives)) => result := Ok(SyncResult(cps, natives));
    case Err(e) => result := Err(e);
  }
}
