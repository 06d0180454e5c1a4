/**
 * The older, hash-keyed library synchroniser: the official parser's
 * descriptors are collected into a map keyed by SHA-1, the classpath lists
 * every entry of that map, and only hashes the metacache does not know are
 * fetched, with no checksum check.
 */
module LegacyLibs {
  import opened Wrappers
  import opened Strings
  import opened Json
  import opened Libs
  import opened Seqs
  import opened OfficialParse
  import opened Dispatch
  import opened LibsDownload
  import LibsSync

  /** What the map keeps per hash: name, path and URL. */
  type Entry = (string, string, string)

  function EntryOf(lib: LibInfo): Entry {
    (lib.name, lib.path, lib.url)
  }

  /** `version_libs.insert(hash, ..)` for each descriptor in turn. */
  function InsertAll(m: map<string, Entry>, libs: seq<LibInfo>): map<string, Entry>
    decreases |libs|
  {
    if |libs| == 0 then m
    else
      var last := libs[|libs| - 1];
      InsertAll(m, libs[..|libs| - 1])[last.hash := EntryOf(last)]
  }

  /** The map the legacy extraction builds: the official descriptors, keyed by hash, in order. */
  function VersionLibs(manifest: Value, currentOs: string): map<string, Entry>
    requires ClientJarWellFormed(manifest)
  {
    InsertAll(map[], Descriptors(manifest, currentOs))
  }

  lemma {:induction false} InsertAllAppend(m: map<string, Entry>, a: seq<LibInfo>, b: seq<LibInfo>)
    ensures InsertAll(m, a + b) == InsertAll(InsertAll(m, a), b)
    decreases |b|
  {
    if |b| == 0 {
      assert a + b == a;
    }
    else {
      InsertAllAppend(m, a, b[..|b| - 1]);
      assert (a + b)[..|a + b| - 1] == a + b[..|b| - 1];
    }
  }

  /** The last descriptor with a given hash decides that hash's entry. */
  lemma {:induction false} LaterEntryWins(m: map<string, Entry>, libs: seq<LibInfo>, i: nat)
    requires i < |libs|
    requires forall j :: i < j < |libs| ==> libs[j].hash != libs[i].hash
    ensures libs[i].hash in InsertAll(m, libs)
    ensures InsertAll(m, libs)[libs[i].hash] == EntryOf(libs[i])
    decreases |libs|
  {
    if i < |libs| - 1 {
      var init := libs[..|libs| - 1];
      assert forall j :: i < j < |init| ==> init[j] == libs[j];
      LaterEntryWins(m, init, i);
    }
  }

  /** A hash no descriptor carries keeps whatever the map held. */
  lemma {:induction false} UntouchedHash(m: map<string, Entry>, libs: seq<LibInfo>, k: string)
    requires forall j :: 0 <= j < |libs| ==> libs[j].hash != k
    ensures k in InsertAll(m, libs) <==> k in m
    ensures k in m ==> InsertAll(m, libs)[k] == m[k]
    decreases |libs|
  {
    if |libs| > 0 {
      var init := libs[..|libs| - 1];
      assert forall j :: 0 <= j < |init| ==> init[j] == libs[j];
      UntouchedHash(m, init, k);
    }
  }

  /** The map's keys are exactly the descriptors' hashes: one entry per hash. */
  lemma {:induction false} KeysAreHashes(libs: seq<LibInfo>, k: string)
    ensures k in InsertAll(map[], libs) <==> exists j :: 0 <= j < |libs| && libs[j].hash == k
    decreases |libs|
  {
    if |libs| > 0 {
      var init := libs[..|libs| - 1];
      KeysAreHashes(init, k);
      if exists j :: 0 <= j < |init| && init[j].hash == k {
        var j :| 0 <= j < |init| && init[j].hash == k;
        assert libs[j] == init[j];
      }
      if exists j :: 0 <= j < |libs| && libs[j].hash == k {
        var j :| 0 <= j < |libs| && libs[j].hash == k;
        if j < |init| {
          assert init[j] == libs[j];
        }
      }
    }
  }

  /** The client jar, inserted last, overwrites any descriptor that shares its hash. */
  lemma ClientJarWins(manifest: Value, currentOs: string)
    requires ClientJarWellFormed(manifest) && ClientJar(manifest).Some?
    ensures ClientJar(manifest).value.hash in VersionLibs(manifest, currentOs)
    ensures VersionLibs(manifest, currentOs)[ClientJar(manifest).value.hash] == EntryOf(ClientJar(manifest).value)
  {
    var all := Descriptors(manifest, currentOs);
    LaterEntryWins(map[], all, |all| - 1);
  }

  /**
   * `extract_manifest_libs` (both legacy copies): the same pass as the
   * official parser, but each descriptor is inserted into the hash-keyed
   * map; the map goes to `download_missing_libs` (here `downloadMissing`).
   */
  method ExtractManifestLibs(manifest: Value, currentOs: string,
                             downloadMissing: map<string, Entry> -> Result<seq<string>, string>)
    returns (result: Result<seq<string>, string>, versionLibs: map<string, Entry>)
    requires ClientJarWellFormed(manifest)
    ensures versionLibs == VersionLibs(manifest, currentOs)
    ensures forall k :: k in versionLibs <==> exists j :: 0 <= j < |Descriptors(manifest, currentOs)|
                                                         && Descriptors(manifest, currentOs)[j].hash == k
    ensures result == downloadMissing(versionLibs)
  {
    versionLibs := map[];
    var libs := AsArray(At(manifest, "libraries")).GetOr([]);
    for i := 0 to |libs|
      invariant versionLibs == InsertAll(map[], LibrariesDescriptors(libs[..i], currentOs))
    {
      FlatMapSnoc(lib => LibDescriptors(lib, currentOs), libs, i);
      InsertAllAppend(map[], LibrariesDescriptors(libs[..i], currentOs), LibDescriptors(libs[i], currentOs));
      versionLibs := InsertAll(versionLibs, LibDescriptors(libs[i], currentOs));
    }
    assert libs[..|libs|] == libs;
    InsertAllAppend(map[], LibrariesDescriptors(libs, currentOs), OptionToSeq(ClientJar(manifest)));
    match ClientJar(manifest) {
      case Some(jar) =>
        assert InsertAll(versionLibs, [jar]) == versionLibs[jar.hash := EntryOf(jar)] by {
          assert [jar][..0] == [];
        }
        versionLibs := versionLibs[jar.hash := EntryOf(jar)];
      case None =>
    }
    forall k ensures k in versionLibs <==> exists j :: 0 <= j < |Descriptors(manifest, currentOs)|
                                                       && Descriptors(manifest, currentOs)[j].hash == k {
      KeysAreHashes(Descriptors(manifest, currentOs), k);
    }
    result := downloadMissing(versionLibs);
  }

  // ---------------------------------------------------------------------
  // download_missing_libs, download_libs, sync_libs

  /** One download: the map entry of a hash. */
  datatype Task = Task(hash: string, name: string, path: string, url: string)

  function TaskOf(m: map<string, Entry>, k: string): Task
    requires k in m
  {
    Task(k, m[k].0, m[k].1, m[k].2)
  }

    /** Some metacache "libraries" entry has this string "hash". */
  predicate KnownHash(libraries: seq<Value>, hash: string) {
    exists j :: 0 <= j < |libraries| && StrAt(libraries[j], "hash") == Some(hash)
  }

  /** The classpath values, "<libs>/<path>" per key, in iteration order. */
  function ClasspathValues(order: seq<string>, m: map<string, Entry>, libsDir: string): (r: seq<string>)
    requires forall i :: 0 <= i < |order| ==> order[i] in m
    ensures |r| == |order|
    ensures forall i :: 0 <= i < |order| ==> r[i] == libsDir + "/" + m[order[i]].1
    decreases |order|
  {
    if |order| == 0 then []
    else
      var init := order[..|order| - 1];
      assert forall i :: 0 <= i < |init| ==> init[i] == order[i];
      ClasspathValues(init, m, libsDir) + [libsDir + "/" + m[order[|order| - 1]].1]
  }

  /** The tasks for keys the metacache does not know, in iteration order. */
  function UnknownTasks(order: seq<string>, m: map<string, Entry>, libraries: seq<Value>): seq<Task>
    requires forall i :: 0 <= i < |order| ==> order[i] in m
    decreases |order|
  {
    if |order| == 0 then []
    else
      var init := order[..|order| - 1];
      var k := order[|order| - 1];
      assert forall i :: 0 <= i < |init| ==> init[i] == order[i];
      UnknownTasks(init, m, libraries) + (if KnownHash(libraries, k) then [] else [TaskOf(m, k)])
  }

  lemma {:induction false} UnknownTasksMembers(order: seq<string>, m: map<string, Entry>, libraries: seq<Value>, t: Task)
    requires forall i :: 0 <= i < |order| ==> order[i] in m
    ensures t in UnknownTasks(order, m, libraries) <==>
      exists i :: 0 <= i < |order| && t == TaskOf(m, order[i]) && !KnownHash(libraries, order[i])
    decreases |order|
  {
    if |order| > 0 {
      var init := order[..|order| - 1];
      assert forall i :: 0 <= i < |init| ==> init[i] == order[i];
      UnknownTasksMembers(init, m, libraries, t);
    }
  }

  /**
   * Over a full iteration order, the tasks fetched are exactly the map
   * entries whose hash the metacache does not know.
   */
  lemma OnlyUnknownHashesFetched(order: seq<string>, m: map<string, Entry>, libraries: seq<Value>, t: Task)
    requires EnumeratesKeys(order, m)
    ensures t in UnknownTasks(order, m, libraries) <==>
      t.hash in m && t == TaskOf(m, t.hash) && !KnownHash(libraries, t.hash)
  {
    UnknownTasksMembers(order, m, libraries, t);
    if t.hash in m && t == TaskOf(m, t.hash) && !KnownHash(libraries, t.hash) {
      var i :| 0 <= i < |order| && order[i] == t.hash;
    }
  }

  lemma ClasspathStep(order: seq<string>, m: map<string, Entry>, libsDir: string, libraries: seq<Value>, i: nat)
    requires i < |order| && forall j :: 0 <= j < |order| ==> order[j] in m
    ensures ClasspathValues(order[..i + 1], m, libsDir) == ClasspathValues(order[..i], m, libsDir) + [libsDir + "/" + m[order[i]].1]
    ensures UnknownTasks(order[..i + 1], m, libraries)
         == UnknownTasks(order[..i], m, libraries) + (if KnownHash(libraries, order[i]) then [] else [TaskOf(m, order[i])])
  {
    assert order[..i + 1][..i] == order[..i];
  }

  /** The message a failed metacache recovery gives. */
  function RecreateFailed(e: string): string {
    "Failed to recreate metacache file: " + e
  }

  /**
   * `download_missing_libs` (legacy). `cacheRead` is the parsed metacache
   * (None when it does not parse), `recreate` the outcome of recreating it;
   * `order` is the map's iteration order and `fetch(t)` whether
   * `download_libs` of `t` succeeded. The classpath names every entry of the
   * map, cached or not; only unknown hashes are fetched. The source submits
   * each fetch while it builds the classpath; the two do not interact, so
   * here the classpath is built first and the fetches are dispatched after.
   */
  method DownloadMissingLibs(versionLibs: map<string, Entry>, order: seq<string>, libsDir: string,
                             cacheRead: Option<Value>, recreate: Result<Value, string>,
                             fetch: Task -> bool, reorder: seq<Option<Task>> -> seq<Option<Task>>)
    returns (result: Result<seq<string>, string>, downloaded: set<Task>, reports: seq<Report<Task>>, peak: nat)
    requires EnumeratesKeys(order, versionLibs)
    requires forall s :: multiset(reorder(s)) == multiset(s)
    ensures cacheRead.None? && recreate.Err? ==>
      result == Err(RecreateFailed(recreate.error)) && downloaded == {} && reports == []
    ensures cacheRead.Some? || recreate.Ok? ==>
      var metacache := if cacheRead.Some? then cacheRead.value else recreate.value;
      match AsArray(At(metacache, "libraries"))
      case None => result == Ok([]) && downloaded == {} && reports == []
      case Some(libraries) =>
        && result.Ok? && |result.value| == |versionLibs|
        && Concat(result.value) == JoinWith(ClasspathValues(order, versionLibs, libsDir), ':')
        && (forall t :: t in downloaded <==>
              t.hash in versionLibs && t == TaskOf(versionLibs, t.hash) && !KnownHash(libraries, t.hash) && fetch(t))
    ensures forall i :: 0 <= i < |reports| ==> reports[i].total == |versionLibs| && reports[i].item in downloaded
    ensures peak <= ConcurrentTasksCount
  {
    downloaded, reports, peak := {}, [], 0;
    var metacache;
    match cacheRead {
      case Some(v) => metacache := v;
      case None =>
        if recreate.Err? {
          return Err(RecreateFailed(recreate.error)), downloaded, reports, peak;
        }
        metacache := recreate.value;
    }
    var classpaths := [];
    match AsArray(At(metacache, "libraries")) {
      case None =>
      case Some(libraries) =>
        classpaths, downloaded, reports, peak := ListAndFetch(versionLibs, order, libsDir, libraries, fetch, reorder);
    }
    result := Ok(classpaths);
  }

  /** The body of `download_missing_libs` once the metacache has a "libraries" array. */
  method ListAndFetch(versionLibs: map<string, Entry>, order: seq<string>, libsDir: string, libraries: seq<Value>,
                      fetch: Task -> bool, reorder: seq<Option<Task>> -> seq<Option<Task>>)
    returns (classpaths: seq<string>, downloaded: set<Task>, reports: seq<Report<Task>>, peak: nat)
    requires EnumeratesKeys(order, versionLibs)
    requires forall s :: multiset(reorder(s)) == multiset(s)
    ensures |classpaths| == |versionLibs|
    ensures Concat(classpaths) == JoinWith(ClasspathValues(order, versionLibs, libsDir), ':')
    ensures forall t :: t in downloaded <==>
      t.hash in versionLibs && t == TaskOf(versionLibs, t.hash) && !KnownHash(libraries, t.hash) && fetch(t)
    ensures forall i :: 0 <= i < |reports| ==> reports[i].total == |versionLibs| && reports[i].item in downloaded
    ensures peak <= ConcurrentTasksCount
  {
    var missing;
    classpaths, missing := ListEntries(versionLibs, order, libsDir, libraries);
    EnumerationLength(order, versionLibs);
    downloaded, reports, peak := DispatchAll(missing, fetch, reorder, |versionLibs|);
    forall t ensures t in downloaded <==>
        t.hash in versionLibs && t == TaskOf(versionLibs, t.hash) && !KnownHash(libraries, t.hash) && fetch(t) {
      OnlyUnknownHashesFetched(order, versionLibs, libraries, t);
    }
  }

  /** One pass over the map: a classpath entry per key, and a task per key the metacache does not know. */
  method ListEntries(versionLibs: map<string, Entry>, order: seq<string>, libsDir: string, libraries: seq<Value>)
    returns (classpaths: seq<string>, missing: seq<Task>)
    requires forall i :: 0 <= i < |order| ==> order[i] in versionLibs
    ensures |classpaths| == |order|
    ensures Concat(classpaths) == JoinWith(ClasspathValues(order, versionLibs, libsDir), ':')
    ensures missing == UnknownTasks(order, versionLibs, libraries)
  {
    classpaths, missing := [], [];
    for i := 0 to |order|
      invariant Listed(versionLibs, order, libsDir, libraries, i, classpaths, missing)
    {
      classpaths, missing := ListEntry(versionLibs, order, libsDir, libraries, i, classpaths, missing);
    }
    ListedAll(versionLibs, order, libsDir, libraries, classpaths, missing);
  }

  /** The pass after the first `i` keys: their classpath entries and their unknown tasks. */
  predicate Listed(versionLibs: map<string, Entry>, order: seq<string>, libsDir: string, libraries: seq<Value>, i: nat,
                   classpaths: seq<string>, missing: seq<Task>)
    requires forall j :: 0 <= j < |order| ==> order[j] in versionLibs
  {
    && i <= |order|
    && classpaths == AddAll([], ClasspathValues(order[..i], versionLibs, libsDir))
    && missing == UnknownTasks(order[..i], versionLibs, libraries)
  }

  /** One key of the pass: its classpath entry, and its task when the hash is unknown. */
  method ListEntry(versionLibs: map<string, Entry>, order: seq<string>, libsDir: string, libraries: seq<Value>, i: nat,
                   classpaths: seq<string>, missing: seq<Task>)
    returns (classpaths': seq<string>, missing': seq<Task>)
    requires i < |order| && forall j :: 0 <= j < |order| ==> order[j] in versionLibs
    requires Listed(versionLibs, order, libsDir, libraries, i, classpaths, missing)
    ensures Listed(versionLibs, order, libsDir, libraries, i + 1, classpaths', missing')
  {
    var value := libsDir + "/" + versionLibs[order[i]].1;
    ClasspathStep(order, versionLibs, libsDir, libraries, i);
    AddAllSnoc([], ClasspathValues(order[..i], versionLibs, libsDir), value);
    classpaths' := AddToClasspaths(classpaths, value);
    missing' := missing;
    if !KnownHash(libraries, order[i]) {
      missing' := missing + [TaskOf(versionLibs, order[i])];
    }
  }

  /** After the last key the pass has built the joined classpath and every unknown task. */
  lemma ListedAll(versionLibs: map<string, Entry>, order: seq<string>, libsDir: string, libraries: seq<Value>,
                  classpaths: seq<string>, missing: seq<Task>)
    requires forall i :: 0 <= i < |order| ==> order[i] in versionLibs
    requires Listed(versionLibs, order, libsDir, libraries, |order|, classpaths, missing)
    ensures |classpaths| == |order|
    ensures Concat(classpaths) == JoinWith(ClasspathValues(order, versionLibs, libsDir), ':')
    ensures missing == UnknownTasks(order, versionLibs, libraries)
  {
    assert order[..|order|] == order;
    ClasspathIsColonJoined(ClasspathValues(order, versionLibs, libsDir));
  }

  /**
   * The directory `download_libs` creates for a library path: the
   * libraries directory joined with everything before the path's last '/'.
   * A path without '/' has none.
   */
  function LibDir(libsDir: string, path: string): (r: Option<string>)
    ensures r.Some? <==> '/' in path
    ensures r.Some? ==>
      var pos := RFind(path, '/').value;
      r.value + path[pos..] == libsDir + "/" + path && '/' !in path[pos + 1..]
  {
    match RFind(path, '/')
    case None => None
    case Some(pos) =>
      assert path == path[..pos] + path[pos..];
      Some(libsDir + "/" + path[..pos])
  }

  /** The library `download_libs` reports: hash, name and path. */
  datatype LegacyLib = LegacyLib(hash: string, name: string, path: string)

  /**
   * `download_libs`: a path without '/' fails with "Failed to parse path"
   * before any request; otherwise the directory is created (a failure there
   * is ignored) and any completed GET (`get`) is a success: nothing checks
   * the bytes against the hash. After a completed GET the response is
   * written to "<libsDir>/<path>"; `write` says for which files creating
   * and filling succeeds. A failure there is an `unwrap` panic, hence the
   * precondition.
   */
  function DownloadLibs(task: Task, libsDir: string, get: string -> Result<(), string>, write: string -> bool)
    : (r: Result<LegacyLib, string>)
    requires '/' in task.path && get(task.url).Ok? ==> write(libsDir + "/" + task.path)
    ensures '/' !in task.path ==> r == Err("Failed to parse path")
    ensures r.Ok? <==> '/' in task.path && get(task.url).Ok?
    ensures r.Ok? ==> r.value == LegacyLib(task.hash, task.name, task.path) && write(libsDir + "/" + task.path)
    ensures '/' in task.path && get(task.url).Err? ==> r == Err(get(task.url).error)
  {
    if RFind(task.path, '/').None? then Err("Failed to parse path")
    else
      match get(task.url)
      case Ok(_) => Ok(LegacyLib(task.hash, task.name, task.path))
      case Err(e) => Err(e)
  }

  /** The record `register_libs` appends for a library. */
  function LibRecord(l: LegacyLib): Value {
    Obj([("hash", Str(l.hash)), ("name", Str(l.name)), ("path", Str(l.path))])
  }

  /** The records of `items`, in order. */
  function LibRecords(items: seq<LegacyLib>): seq<Value> {
    seq(|items|, i requires 0 <= i < |items| => LibRecord(items[i]))
  }

  /**
   * `register_libs`: the metacache as it is written back. `metacache["libraries"]`
   * is taken mutably, which turns a null metacache into an object and adds a
   * null "libraries" entry when there is none (anything else that is not an
   * object panics); one record per fetched library, in the set's iteration
   * order `items`, is appended when that entry is an array.
   */
  function RegisterLibs(metacache: Value, items: seq<LegacyLib>): (r: Value)
    requires metacache.Obj? || metacache.Null?
    ensures r.Obj? && Get(r, "libraries").Some?
    ensures AsArray(At(metacache, "libraries")).Some? ==>
      AsArray(At(r, "libraries")) == Some(AsArray(At(metacache, "libraries")).value + LibRecords(items))
    ensures AsArray(At(metacache, "libraries")).None? ==> At(r, "libraries") == At(metacache, "libraries")
    ensures forall k :: k != "libraries" ==> Get(r, k) == Get(metacache, k)
  {
    var fields := if metacache.Obj? then metacache.fields else [];
    match Get(metacache, "libraries")
    case None => Obj(PutField(fields, "libraries", Null))
    case Some(v) =>
      if v.Arr? then Obj(PutField(fields, "libraries", Arr(v.items + LibRecords(items))))
      else Obj(fields)
  }

  /** Once registered, a fetched library's hash is known, so the next run does not fetch it again. */
  lemma RegisteredLibsKnown(metacache: Value, items: seq<LegacyLib>, l: LegacyLib)
    requires AsArray(At(metacache, "libraries")).Some? && l in items
    ensures metacache.Obj?
    ensures KnownHash(AsArray(At(RegisterLibs(metacache, items), "libraries")).value, l.hash)
  {
    var before := AsArray(At(metacache, "libraries")).value;
    var recs := AsArray(At(RegisterLibs(metacache, items), "libraries")).value;
    var i :| 0 <= i < |items| && items[i] == l;
    assert recs[|before| + i] == LibRecord(l);
    assert StrAt(LibRecord(l), "hash") == Some(l.hash);
  }

  /**
   * Legacy `sync_libs`: announces the stage, extracts for "osx" whatever the
   * platform, and on success reports completion and returns the library
   * directory "<root>/.sonata/libraries/" with the classpath.
   */
  method SyncLibs(manifest: Value, root: string,
                  downloadMissing: map<string, Entry> -> Result<seq<string>, string>)
    returns (result: Result<(string, seq<string>), string>, events: seq<LibsSync.StageEvent>)
    requires ClientJarWellFormed(manifest)
    ensures result.Ok? <==> events == [LibsSync.Started, LibsSync.Completed]
    ensures result.Err? <==> events == [LibsSync.Started]
    ensures result.Ok? ==>
      && result.value.0 == root + "/.sonata/libraries/"
      && Ok(result.value.1) == downloadMissing(VersionLibs(manifest, "osx"))
    ensures result.Err? ==>
      downloadMissing(VersionLibs(manifest, "osx")).Err? && result.error == downloadMissing(VersionLibs(manifest, "osx")).error
  {
    events := [LibsSync.Started];
    var extracted, versionLibs := ExtractManifestLibs(manifest, "osx", downloadMissing);
    if extracted.Err? {
      return Err(extracted.error), events;
    }
    events := events + [LibsSync.Completed];
    result := Ok((root + "/.sonata/libraries/", extracted.value));
  }
}
