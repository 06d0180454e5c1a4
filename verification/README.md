# sonata launcher core in Dafny

This project models the artifact-synchronisation core of the sonata
Minecraft launcher (`launcher-core`, written in Rust) and proves properties
of the model. It covers:

- the checksum-verified downloader with its bounded redirect loop and its
  read, hash and write stream;
- the pool of reusable download buffers;
- the cache partition and the bounded dispatch of library and asset
  downloads;
- the manifest adapters: the official Mojang format, the Prism format, and
  the older hash-keyed parsers;
- the small path and string helpers: Maven coordinates, file names,
  launcher and instance paths;
- the launch-argument builder and both revisions of `define_launch_args`;
- the option-request builder, the page parsers, the overview merge and the
  `InstanceFields` message codec.

Everything the source does over the network, on disk, in SQL or through
sockets is an input:

- the server is a function from URL to response;
- SHA-1 and URL parsing and joining are function parameters;
- the file system is a set of function-valued flags for which operations
  succeed;
- the completion order of concurrent futures is a permutation supplied by
  the caller;
- hash-map iteration order is a sequence that enumerates the keys.

The `InstanceFields` reader is modelled twice: as written, where it
cannot read what the writer produces (see Findings), and as evidently
intended, where the two round-trip.

A panic in the source (an `unwrap`, an `expect`, an out-of-range slice)
becomes a precondition. A returned error becomes a `Result` or `Option`
value.

One module per source component, all files flat:

| file | models |
|---|---|
| download.dfy | `Download::download_with_checksum` |
| buffer_pool.dfy | `BufferPool` / `BufferGuard` as a state machine |
| dispatch.dfy | the bounded dispatch/drain loop, `process_futures` of libraries and assets |
| libs_download.dfy | `download_missing_libs`, `get_missing_by_hash`, `add_to_classpaths` |
| assets.dfy | `extract_manifest_assets`, `construct_asset_url` |
| official_parse.dfy | `parse_manifest_official` |
| prism_parse.dfy, prism_facts.dfy | `parse_manifest_prism`, `rules_applies`, `get_path_from_url` |
| libs.dfy, libs_sync.dfy | `construct_os_name`, `is_native`, `LibInfo` equality, `sync_libs` |
| legacy_libs.dfy, legacy_assets.dfy | the older hash-keyed library and asset synchronisation |
| maven.dfy, utils.dfy | `coord_to_path`, `build_file_path`, `extract_filename` |
| paths.dfy | `InstancePaths`, `construct_launcher_path`, path joining |
| launch.dfy, launch_args.dfy, legacy_launch.dfy, traits.dfy | the launch-argument builder, `ArgType`, both `define_launch_args`, `StartupTraits::extract` |
| pages.dfy, option_fields.dfy, options.dfy, option_message.dfy | pages, export types, option fields, `ChangeRequestBuilder::build`, `Options::retrieve/change`, the `InstanceFields` codec |
| unify.dfy | `UnifiedVersionsData::build`, `extract_prism` |
| json.dfy, strings.dfy, seqs.dfy, wrappers.dfy | a minimal JSON value, string and sequence helpers, `Option`/`Result` |

## Model

| member | source | states |
|---|---|---|
| Download.Resolve | src/utils/download/mod.rs:109-117 | a base URL that does not parse fails first; an absolute Location replaces the URL; a relative one is joined to the current URL |
| Download.HopAt | src/utils/download/mod.rs:90-123 | a pass continues only on a 3xx reply with fewer than 100 redirects followed; a pass that ends well hands back its own URL with a non-redirect reply |
| Download.Trail | src/utils/download/mod.rs:82-123 | the loop requests between 1 and 101 - count URLs |
| Download.Landing | src/utils/download/mod.rs:82-138 | a successful end of the redirect loop is a non-redirect reply |
| Download.FollowRedirects | src/utils/download/mod.rs:79-123 | the loop requests exactly the trail of URLs and ends as `Landing` says, after at most 101 requests |
| Download.StreamBody | src/utils/download/mod.rs:150-164 | every read is hashed and then written in read order: bytes hashed equal bytes written unless a write fails, and the byte count is their length |
| Download.DownloadWithChecksum | src/utils/download/mod.rs:63-178 | a missing parent or file name fails before any request; redirect errors and non-2xx statuses create no file; the file holds exactly the bytes read; Ok (with the item unchanged) exactly when the body is non-empty and its lowercase hex SHA-1 equals the lowercased expected hash |
| Download.EndlessRedirectsStop | src/utils/download/mod.rs:91-120 | against a server that always redirects, the loop entered after `count` redirects makes 101 - count requests and fails with "too many redirects" |
| Download.EndlessRedirectsFromStart | src/utils/download/tests.rs:100-127 | from the start that is 101 requests, i.e. 100 redirects followed, then the error |
| Download.LimitCheckedBeforeLocation | src/utils/download/mod.rs:95-107 | at the limit, a redirect fails as too many redirects whether or not it has a Location |
| Download.MissingLocationRefused | src/utils/download/mod.rs:99-107 | below the limit, a redirect without Location ends the loop with "without Location" after that one request |
| Download.TrailFollowsLocations | src/utils/download/mod.rs:109-120 | each request after the first goes to the previous reply's last Location, resolved against the previous URL, not the original |
| Download.LandingIsLastRequest | src/utils/download/mod.rs:119-132 | the URL the loop ends at is the last one requested |
| BufferPool.TrySendTo | src/utils/download/buffer.rs:71-84 | `try_send` queues the buffer exactly when the channel is open and below its bound, and hands it back when full |
| BufferPool.New | src/utils/download/buffer.rs:17-26 | a channel bounded at `capacity` holding exactly `capacity` zero-filled buffers of `buf_size` bytes, with every buffer accounted for |
| BufferPool.GiveBack | src/utils/download/buffer.rs:67-86 | the drop of a full guard puts its buffer in exactly one place: the queue when there is room, a spawned send when full, the dropped pile when closed |
| BufferPool.ReleaseBack | src/utils/download/buffer.rs:59-64 | `release` returns the buffer once, into the queue or a waiting send |
| BufferPool.StepConserves | src/utils/download/buffer.rs:28-86 | no step (acquire, drop, release, into_inner, send-back, close) makes or loses a buffer: available + held + taken + dropped stays equal to the capacity |
| BufferPool.AcquireTakesOldest | src/utils/download/buffer.rs:28-35 | `acquire` moves the oldest queued buffer into a new guard, and that buffer is what the new guard's slice gives |
| BufferPool.NeverFull | src/utils/download/buffer.rs:71-80 | while the pool is open and nothing is in flight, a returned buffer always finds room, so the spawned fallback send never happens |
| BufferPool.DropReturnsBuffer | src/utils/download/buffer.rs:67-72 | on an open pool, dropping a guard appends the buffer its slice gives to the queue and removes the guard |
| BufferPool.ReleaseReturnsOnce | src/utils/download/buffer.rs:59-68 | after `release` the guard is gone and the pool gained exactly one buffer, the one its slice gave, so there is no double return |
| BufferPool.IntoInnerLeavesPoolShort | src/utils/download/buffer.rs:52-56 | `into_inner` gives the caller the buffer the guard's slice gave, and the pool stays one buffer short |
| BufferPool.ClosedDropsBuffer | src/utils/download/buffer.rs:81-83 | on a closed channel the buffer the guard's slice gave is dropped, not queued |
| BufferPool.AsMutSlice | src/utils/download/buffer.rs:48-99 | only a live guard (one still holding its buffer) can be accessed, and it gives one of the held buffers; which one is fixed by the lemmas above: the buffer acquired, and the one returned on drop or release |
| BufferPool.RunConserves | src/utils/download/buffer.rs:17-86 | any sequence of steps keeps every buffer accounted for |
| BufferPool.RunNeverFull | src/utils/download/buffer.rs:71-80 | no run on an open pool ever needs the spawned send |
| Dispatch.ProcessFutures | src/instance/download/libs/download.rs:121-148 | draining adds exactly the successful results to the downloaded set; one progress report per success, each against the fixed total and naming an item that ends up downloaded; failures are dropped silently |
| Dispatch.DrainOrderIrrelevant | src/instance/download/libs/download.rs:121-148 | whatever order the futures complete in, the drain ends with the same downloaded set and the same number of reports |
| Dispatch.DuplicateDoesNotGrow | src/instance/download/libs/download.rs:131-145 | a result already in the set is still reported, with the current size, but does not grow the set |
| Dispatch.ProgressCountsUp | src/instance/download/libs/download.rs:131-145 | for distinct new successes the reported counts are the starting size, then one more, and so on, in completion order |
| Dispatch.Submit | src/instance/download/libs/download.rs:45-73 | pushing one task keeps fewer than 100 in flight (a full batch is drained), loses no result and keeps earlier reports as they were |
| Dispatch.DispatchAll | src/instance/download/libs/download.rs:45-81 | after the loop and the final drain, the downloaded set is exactly the items whose download succeeded, with one report per success, and never more than 100 tasks were in flight at once |
| Dispatch.Drain | src/instance/download/libs/download.rs:64-81 | a drain in any completion order collects the successes among the in-flight tasks, one report each |
| LibsDownload.AddToClasspaths | src/instance/download/libs/download.rs:93-99 | one entry is appended and the others are kept; the entries concatenated read as the old list, a ':' and the new value, or the value alone when the list was empty |
| LibsDownload.ClasspathIsColonJoined | src/instance/download/libs/download.rs:93-99 | starting empty, the entries concatenated are the values joined with ':' |
| LibsDownload.GetMissingByHash | src/instance/download/libs/download.rs:102-119 | the missing list is the needed libraries whose hash is not cached, in order; the cached ones' paths are added to the classpath, in order |
| LibsDownload.MissingMembers | src/instance/download/libs/download.rs:107-116 | a library is missing exactly when it is needed and its hash is not among the cached hashes |
| LibsDownload.PartitionIsExhaustive | src/instance/download/libs/download.rs:110-116 | every needed library goes to exactly one of the two outputs |
| LibsDownload.PartitionKeepsOrder | src/instance/download/libs/download.rs:110-116 | the partition of a concatenation is the concatenation of the partitions, so input order is kept |
| LibsDownload.DownloadMissingLibs | src/instance/download/libs/download.rs:14-90 | a failing cache query is returned as the error with nothing fetched; otherwise exactly the missing libraries whose download succeeded are handed to registration, whose result (or error) is returned; the pool holds 100 buffers of 16 KiB and at most 100 tasks run at once |
| Assets.ConstructAssetUrl | src/instance/download/assets/parse.rs:100-109 | the save path is the hash's first two characters, '/', and the hash; the URL is the resources base, '/', and that save path; a hash shorter than two characters is a panic, hence a precondition |
| Assets.AssetUrlInjective | src/instance/download/assets/parse.rs:100-109 | different hashes never share a URL or a save path |
| Assets.PendingMembers | src/instance/download/assets/parse.rs:42-60 | an asset is queued exactly when some object entry has a string hash that is not cached and describes it (its name, hash and URL) |
| Assets.PendingAppend | src/instance/download/assets/parse.rs:42-83 | objects are handled one at a time, in manifest order |
| Assets.PendingSingle | src/instance/download/assets/parse.rs:43-50 | an entry without a string hash, or with a cached one, is skipped; any other yields its descriptor |
| Assets.ExtractManifestAssets | src/instance/download/assets/parse.rs:14-98 | a failing cache query is returned as the error; with no "objects" object nothing is fetched; otherwise the downloaded set is exactly the queued assets whose download into the assets directory succeeded, reports count against the number of objects, and registration's result is returned |
| OfficialParse.NonAllowRulesIgnored | src/instance/download/libs/parse/mod.rs:16-36 | a rule whose action is not "allow" never makes a library allowed, so adding one changes nothing |
| OfficialParse.Descriptor | src/instance/download/libs/parse/mod.rs:39-54 | a descriptor is made exactly when the name and the object's path, url and sha1 are all strings, and it carries those four values |
| OfficialParse.Artifact | src/instance/download/libs/parse/mod.rs:38-55 | an artifact descriptor exists only for an allowed library, and is not native |
| OfficialParse.Classifiers | src/instance/download/libs/parse/mod.rs:61-86 | at most one descriptor per classifier, each native and carrying the library's name; a descriptor is produced exactly when some classifier is keyed by the wanted native name and its object yields a complete native descriptor |
| OfficialParse.NativesOf | src/instance/download/libs/parse/mod.rs:58-89 | every natives descriptor is native and carries the library's name; a descriptor is produced exactly when a "natives" entry is keyed by the current OS, the library has classifiers, and the classifier that entry names yields it |
| OfficialParse.Natives | src/instance/download/libs/parse/mod.rs:58-89 | without a "natives" object there are none; otherwise a descriptor is produced exactly when the current OS's entry names a classifier under downloads.classifiers that yields it, whatever the rules say; all are native under the library's name |
| OfficialParse.LibrariesAppend | src/instance/download/libs/parse/mod.rs:12-93 | libraries are handled one at a time and nothing is de-duplicated |
| OfficialParse.ArtifactOnly | src/instance/download/libs/parse/mod.rs:38-58 | a library without natives yields one descriptor exactly when it is allowed and its artifact is complete, and never more than one |
| OfficialParse.ClientJar | src/instance/download/libs/parse/mod.rs:95-111 | a client descriptor exists exactly when downloads.client.url is a string; it is named "<id>-client.jar", saved under com/mojang/minecraft/, hashed by client.sha1, fetched from downloads.client.url, not native and with no save path; a missing id or sha1 is a panic, hence a precondition |
| OfficialParse.ParseManifestOfficial | src/instance/download/libs/parse/mod.rs:6-117 | the list handed to the downloader is every library's descriptors in order, then the client jar last; the downloader's result is returned unchanged |
| PrismParse.FirstDecider | src/instance/download/libs/parse/prism.rs:194-203 | finds the first rule that names the current OS and has a string action: no earlier rule does, and when there is none no rule does |
| PrismParse.ScanMeaning | src/instance/download/libs/parse/prism.rs:177-208 | the scan's answer is the first deciding rule's action being "allow"; without a deciding rule it is the flag or any OS-less "allow" |
| PrismParse.RulesAppliesMeaning | src/instance/download/libs/parse/prism.rs:177-208 | `rules_applies` equals its declarative reading: the first rule for this OS decides, otherwise an OS-less allow anywhere allows |
| PrismParse.DisallowNeverClears | src/instance/download/libs/parse/prism.rs:183-190 | an OS-less rule that does not allow never clears an earlier allow |
| PrismParse.FirstDeciderPrefix | src/instance/download/libs/parse/prism.rs:194-203 | a rule that does not decide for this OS, added at the end, does not move the deciding rule |
| PrismParse.GetPathFromUrl | src/instance/download/libs/parse/prism.rs:210-217 | there is a path exactly when the URL has at least three '/'; it is the URL's suffix starting at the third '/' |
| Strings.NthOccurrence | src/instance/download/libs/parse/prism.rs:210-211 | the index of the n-th occurrence of the character, counting from 1: that index holds the character, exactly n - 1 occurrences come before it, and there is none exactly when n is 0 or there are fewer than n |
| PrismParse.Fetchable | src/instance/download/libs/parse/prism.rs:25-38 | a descriptor is made exactly when the object's url and sha1 are strings and the url has a path; it carries that sha1, url and path, the library's name, the requested native flag and no save path |
| PrismParse.PrismLibDescriptors | src/instance/download/libs/parse/prism.rs:19-92 | a library yields at most two descriptors (artifact, native), all under its name |
| PrismParse.ArtifactIgnoresRules | src/instance/download/libs/parse/prism.rs:24-40 | a complete artifact is always the first descriptor and is not native, whatever the rules say |
| PrismParse.NativeNeedsRules | src/instance/download/libs/parse/prism.rs:43-89 | a native descriptor appears only when the library has a name and downloads, there are no rules or they apply, and the natives-<os> classifier is complete |
| PrismParse.NativeFound | src/instance/download/libs/parse/prism.rs:43-89 | conversely, under those conditions the last descriptor is native and is the one the natives-<os> classifier describes |
| PrismParse.MainJar | src/instance/download/libs/parse/prism.rs:137-163 | a main jar exists exactly when "mainJar" is an object whose name, artifact sha1 and artifact url are strings and the manifest's version is a string; it carries that name, hash and url, is saved at /com/mojang/minecraft/<version>-client.jar, and is not native |
| PrismParse.LeadWithColon | src/instance/download/libs/parse/prism.rs:119-124 | a child's classpath keeps its length and reads as ':' followed by its own entries, or stays empty |
| PrismParse.CollectStopsAtFirstError | src/instance/download/libs/parse/prism.rs:98-134 | the first failing requirement, in order, is the result; the ones after it do not count |
| PrismParse.CollectAllOk | src/instance/download/libs/parse/prism.rs:98-134 | when every requirement succeeds, the children's classpaths are concatenated in order |
| PrismParse.ParsePrism | src/instance/download/libs/parse/prism.rs:15-174 | a manifest without requirements gives exactly what downloading its own descriptors gives; a failed download fails the whole parse; on success the manifest's own classpaths and natives come first |
| PrismParse.Assemble | src/instance/download/libs/parse/prism.rs:98-173 | a failed child is the result; otherwise a failed download is; otherwise the children's classpaths and natives follow the downloader's |
| PrismParse.ChildClasspathContinues | src/instance/download/libs/parse/prism.rs:119-124 | joined together, the parent's entries and a child's read as the parent's classpath, ':' and the child's |
| PrismFacts.ChildFailureAborts | src/instance/download/libs/parse/prism.rs:98-134 | the first required manifest that fails to fetch or parse fails the whole parse with its error |
| PrismFacts.ChildrenFollowOwn | src/instance/download/libs/parse/prism.rs:98-173 | when all requirements parse and the download succeeds, the classpath is the downloader's followed by each child's in order |
| PrismFacts.NoRequiresIsOneDownload | src/instance/download/libs/parse/prism.rs:15-173 | without "requires", a parse is one download of this manifest's own descriptors |
| Libs.IsNative | src/instance/download/libs/mod.rs:159-166 | a library is native exactly when its native flag is set |
| Libs.SameHashDifferentName | src/instance/download/libs/mod.rs:45-53 | set membership compares all fields, so one file under two names is two members |
| Libs.ConstructOsName | src/instance/download/libs/mod.rs:114-157 | an unsupported target fails with OsNotAvailable; a name exists only for a known OS and architecture |
| Libs.OsNameTable | src/instance/download/libs/mod.rs:114-157 | every known combination has a name, led by its OS family (linux, osx, windows); the rest fail |
| Libs.OsNameSuffixes | src/instance/download/libs/mod.rs:114-157 | x86 and x86_64 share the plain name; aarch64 adds "-arm64"; 32-bit arm adds "-arm32" except on macOS |
| LibsSync.SyncLibs | src/instance/download/libs/mod.rs:58-103 | the stage is started first and completed exactly when the result is Ok; an unsupported target fails with its message; otherwise the official or the Prism parser for the target's OS name gives the result |
| LegacyLibs.LaterEntryWins | src/instance/download/libs.rs:127-158 | with the map keyed by hash, the last descriptor carrying a hash decides that hash's entry |
| LegacyLibs.UntouchedHash | src/instance/download/libs.rs:127-158 | a hash no descriptor carries keeps whatever the map held, present or absent |
| LegacyLibs.KeysAreHashes | src/instance/download/libs.rs:127-176 | the map's keys are exactly the descriptors' hashes, one entry per hash |
| LegacyLibs.ClientJarWins | src/instance/download/libs.rs:170-177 | the client jar, inserted last, overwrites any library that shares its hash |
| LegacyLibs.ExtractManifestLibs | src/instance/download/libs.rs:83-184 | the map is the official parser's descriptors inserted in order, so its keys are exactly their hashes; the downloader's result is returned |
| LegacyLibs.ClasspathValues | src/instance/download/libs.rs:222-232 | one classpath value per key, in iteration order: the libraries directory, '/', the entry's path |
| LegacyLibs.UnknownTasksMembers | src/instance/download/libs.rs:234-237 | a task is queued exactly when its key is iterated and the metacache has no library with that string hash |
| LegacyLibs.OnlyUnknownHashesFetched | src/instance/download/libs.rs:219-256 | over a full iteration of the map, the queued tasks are exactly the map's entries whose hash the metacache does not know |
| LegacyLibs.ListEntries | src/instance/download/libs.rs:222-237 | one pass gives a classpath entry for every key, cached or not, joined with ':', and the tasks of the unknown hashes in order |
| LegacyLibs.ListAndFetch | src/instance/download/libs.rs:219-259 | the classpath names every map entry, joined with ':'; the downloaded set is exactly the unknown-hash tasks whose download succeeded; at most 100 run at once |
| LegacyLibs.DownloadMissingLibs | src/instance/download/libs.rs:193-263 | an unreadable metacache that cannot be recreated fails with "Failed to recreate metacache file: ..."; a metacache without a "libraries" array gives an empty classpath and fetches nothing; otherwise as `ListAndFetch` |
| LegacyLibs.LibDir | src/instance/download/libs.rs:307-308 | a directory exists exactly when the path has a '/'; it is the libraries directory joined with the path up to its last '/' |
| LegacyLibs.DownloadLibs | src/instance/download/libs.rs:300-342 | a path without '/' fails with "Failed to parse path"; otherwise success exactly when the GET completes, reporting the hash, name and path, with no checksum check, and the file <libsDir>/<path> written; a failed write after a completed GET is an `unwrap` panic, hence a precondition |
| LegacyLibs.RegisterLibs | src/instance/download/libs.rs:344-357 | the written metacache is an object with a "libraries" entry; an existing array gets one record per fetched library appended; every other key is unchanged |
| LegacyLibs.RegisteredLibsKnown | src/instance/download/libs.rs:344-357 | after registration every fetched library's hash is known, so a later run does not fetch it again |
| LegacyLibs.SyncLibs | src/instance/download/libs.rs:25-81 | the stage starts, libraries are extracted for "osx" whatever the platform, and on success the stage completes and "<root>/.sonata/libraries/" is returned with the classpath; a failure is returned with only the start event |
| LegacyAssets.ConstructAssetUrl | src/instance/download/assets.rs:245-253 | the URL is the base, the hash's first two characters, '/' and the hash; a hash shorter than two characters is a panic, hence a precondition |
| LegacyAssets.SameUrlAsCurrent | src/instance/download/assets.rs:245-253 | the older synchroniser fetches an object from the same URL as the current one |
| LegacyAssets.EnsureAssetsArray | src/instance/download/assets.rs:100-108 | an object metacache always ends up with an "assets" array, an empty one added only when it had none, with every other key kept; any other metacache is left alone |
| LegacyAssets.ToFetch | src/instance/download/assets.rs:116-122 | every queued asset has a hash of at least two characters |
| LegacyAssets.ToFetchMembers | src/instance/download/assets.rs:116-136 | an asset is fetched exactly when some object names it with its hash and the metacache has no record with that name and hash |
| LegacyAssets.AssetFile | src/instance/download/assets.rs:194-204 | the file is written inside the directory that was created, under the full hash |
| LegacyAssets.DownloadAsset | src/instance/download/assets.rs:185-219 | a directory failure is the error and no request is made; otherwise success exactly when the GET completes, reporting the asset unchanged, with no checksum check, and its file <path>/<hash[..2]>/<hash> written; a failed write after a completed GET is an `unwrap` panic, hence a precondition |
| LegacyAssets.ExtractManifestAssets | src/instance/download/assets.rs:89-149 | the metacache gets its "assets" array first; without "objects" or that array nothing is fetched; otherwise the downloaded set is exactly the unknown objects whose download succeeded, with reports against the number of objects |
| LegacyAssets.RegisterAssets | src/instance/download/assets.rs:221-243 | nothing is written without an "assets" array; otherwise one record per fetched asset is appended, and every other key is unchanged |
| LegacyAssets.RegisteredAreKnown | src/instance/download/assets.rs:221-236 | after registration every fetched asset is known under its name and hash, so a later run does not fetch it again |
| Maven.CoordToPath | src/utils/maven.rs:15-64 | the path is the coordinate with every ':' made '/' and the group's dots made '/'; the version found is the first later segment matching the version pattern, and which segment it is never changes the path |
| Maven.FindVersion | src/utils/maven.rs:29-36 | the index found is the first segment after the group that matches the version pattern; none means no later segment matches |
| Maven.JoinParts | src/utils/maven.rs:38-61 | both branches, with or without a version, give the group with dots made '/', then each later part after a '/' |
| Maven.MavenPathOfParts | src/utils/maven.rs:16-61 | the path built from the ':'-split parts equals the character-wise reading: ':' becomes '/', and so does '.' before the first ':' |
| Maven.NoColonIsGroupOnly | src/utils/maven.rs:39 | a coordinate without ':' only has its dots made '/' |
| Maven.VersionAcceptsRelease | src/utils/maven.rs:26-27 | the version pattern accepts "1.20.1" |
| Maven.VersionAcceptsSnapshot | src/utils/maven.rs:26-27 | the version pattern accepts "1.0-SNAPSHOT" |
| Maven.VersionRejects | src/utils/maven.rs:147-152 | "client" and "SNAPSHOT" are not versions, since a version starts with a digit |
| Maven.PathExamples | src/utils/maven.rs:154-164 | "single.segment" gives "single/segment" and "group:artifact" gives "group/artifact"; dots after the first ':' are kept |
| Maven.BuildFilePath | src/utils/maven.rs:66-78 | a Maven path starting with '/' is put directly after the libraries directory; any other gets a '/' in between |
| Maven.LeadingSlashIrrelevant | src/utils/maven.rs:88-110 | with or without a leading '/', a Maven path lands at the same file |
| Utils.ExtractFilename | src/utils/mod.rs:7-16 | a name exists exactly when the path has a '/' and a '.' and the last '/' comes before the last '.'; the name holds no '/' |
| Utils.FilenameSplitsPath | src/utils/mod.rs:7-16 | a found name splits the path into directory, '/', name, '.', and an extension with no '/' or '.' |
| Utils.FilenameOfPath | src/utils/mod.rs:7-16 | the inverse: a path built as directory, '/', name, '.', extension gives the name back when neither the name nor the extension holds '/' and the extension holds no '.' |
| Paths.GetRequiredPaths | src/instance/paths/mod.rs:23-36 | the instance manifest and the instance list sit in the headers directory, the instance under "instances", and no version manifest is set yet |
| Paths.Join | src/instance/paths/mod.rs:23-32 | joining an absolute name gives that name; joining a relative one gives the path, one separator unless the path is empty or already ends in '/', then the name |
| Paths.JoinTwice | src/instance/paths/mod.rs:26-27 | joining two relative names one after the other is joining "a/b" at once |
| Paths.JoinInjective | src/instance/paths/mod.rs:23-32 | different relative names joined to the same path give different paths |
| Paths.ManifestApartFromInstanceList | src/instance/paths/mod.rs:28-29 | an instance's manifest file is a different file from the instance list exactly when the instance is not named "main.json" |
| Paths.SetVersionManifestFile | src/instance/paths/mod.rs:38-41 | the version manifest is set to the path and nothing else changes |
| Paths.ConstructLauncherPath | src/data/paths.rs:14-41 | the root kind gives the root itself; every other kind lies strictly under the root |
| Paths.LauncherPathsDistinct | src/data/paths.rs:14-41 | different kinds name different locations under the same root |
| Paths.LauncherDirsAgree | src/data/paths.rs:16-30 | the launcher's libraries, assets and headers directories are the ones every instance's paths use |
| Paths.LauncherMetaAgree | src/data/paths.rs:31-39 | so are the meta directory, the metacache file and the root |
| Paths.InstancesEntryFileAgrees | src/data/paths.rs:25-27 | the launcher's "headers/main.json" is the instance list file of every instance |
| Launch.SetMainClass | src/instance/launch/mod.rs:42-45 | the main class is replaced and nothing else changes |
| Launch.AddCp | src/instance/launch/mod.rs:47-50 | one classpath entry is appended at the end and nothing else changes |
| Launch.AddCps | src/instance/launch/mod.rs:52-61 | the entries are appended in iteration order, exactly as successive `add_cp` calls would |
| Launch.SetArgs | src/instance/launch/mod.rs:63-66 | the argument map is replaced, not merged |
| Launch.AddArg | src/instance/launch/mod.rs:68-75 | the key ends up with the value, the key set gains at most that key, and no other key's value changes |
| Launch.RmArg | src/instance/launch/mod.rs:77-79 | the key is gone, its previous value (if any) is returned, and every other entry is kept |
| Launch.RmUndoesAdd | src/instance/launch/mod.rs:68-79 | removing a key just added returns its value and, for a key that was absent, gives back the builder as it was |
| Launch.SetArgValue | src/instance/launch/mod.rs:81-90 | the path is stored under the kind's "${...}" placeholder and no other key changes |
| Launch.AddNatives | src/instance/launch/mod.rs:92-95 | the natives list is replaced, not extended |
| Launch.OrInsertAll | src/instance/launch/mod.rs:101-105 | the keys become the old ones plus the entries'; present keys keep their values; absent ones get the entry's value |
| Launch.OrInsertAllIdempotent | src/instance/launch/mod.rs:101-105 | a second pass over the same entries inserts nothing |
| Launch.DefaultEntries | src/instance/launch/mod.rs:101-104 | one entry per kind, in iteration order, each the kind's placeholder with its default; no placeholder repeats |
| Launch.FillDefaults | src/instance/launch/mod.rs:97-108 | afterwards every kind's placeholder is present; values already there are never overwritten; missing ones get their default; no other key is added |
| Launch.FillDefaultsIdempotent | src/instance/launch/mod.rs:97-108 | filling defaults twice is filling once |
| Launch.Build | src/instance/launch/mod.rs:110-123 | the classpath is the entries concatenated in order with no separator added; everything else is carried over |
| Launch.BuildAfterAddCp | src/instance/launch/mod.rs:47-50 | one more `add_cp` puts its text at the end of the built classpath |
| Launch.FreshBuildsEmpty | src/instance/launch/mod.rs:130-142 | a fresh builder builds an empty classpath, no game arguments and no main class |
| Launch.Prelude | src/instance/launch/execute.rs:23-50 | the 15 JVM flags, "-XstartOnFirstThread", "-cp", then the classpath |
| Launch.PreludesAgree | src/instance/launch/execute.rs:23-50 | two preludes differ only in the classpath |
| Launch.MainClass | src/instance/launch/execute.rs:52-57 | the builder's main class wins; otherwise the manifest's string "mainClass"; otherwise none; never more than one |
| Launch.Pairs | src/instance/launch/execute.rs:59-62 | each game argument in iteration order as its key followed by its value |
| Launch.DefineLaunchArgs | src/instance/launch/execute.rs:20-99 | the command line is the prelude, the main class if any, the game arguments as key-value pairs, then "--accessToken" and an empty value |
| Launch.ArgumentCount | src/instance/launch/execute.rs:20-99 | the command line has 20 fixed entries, the main class if any, and two entries per game argument |
| Launch.ArgumentsInPairs | src/instance/launch/execute.rs:59-62 | after the main class the arguments come as key, value, key, value, in iteration order |
| Launch.EveryArgumentPassed | src/instance/launch/execute.rs:59-62 | every game argument appears as its key immediately followed by its value |
| LaunchArgs.ValuePlaceholder | src/instance/launch/args.rs:19-37 | the placeholder is "${", a name, "}", and the name identifies the kind |
| LaunchArgs.ManifestKey | src/instance/launch/args.rs:42-60 | the key is "--" then a name that identifies the kind |
| LaunchArgs.PlaceholderNameRoundTrip | src/instance/launch/args.rs:19-33 | every kind's placeholder name reads back as that kind |
| LaunchArgs.KeyNameRoundTrip | src/instance/launch/args.rs:42-56 | every kind's key name reads back as that kind |
| LaunchArgs.PlaceholderInjective | src/instance/launch/args.rs:19-37 | different kinds have different placeholders |
| LaunchArgs.ManifestKeyInjective | src/instance/launch/args.rs:42-60 | different kinds have different manifest keys |
| LaunchArgs.UsernameMapping | src/instance/launch/args.rs:16-21 | the user name goes under "--username" and fills "${auth_player_name}" |
| LaunchArgs.AllArgTypesComplete | src/instance/launch/args.rs:1-13 | the iteration order lists every kind exactly once |
| LegacyLaunch.Substitute | src/instance/launch.rs:74-99 | an argument starting with "${" becomes its value, or " " when there is none; anything else is copied; an argument shorter than two bytes is a panic, hence a precondition |
| LegacyLaunch.SetValueIsSubstituted | src/instance/launch.rs:75-78 | a value stored with `set_arg_value` is what its placeholder turns into |
| LegacyLaunch.StringItems | src/instance/launch.rs:73-84 | a text is kept exactly when it is a string entry of the array; objects and other values are skipped; a one-entry array gives that entry or nothing |
| LegacyLaunch.StringItemsAppend | src/instance/launch.rs:73-84 | the kept entries of two arrays one after the other are the first's followed by the second's, so the order of the array is kept |
| LegacyLaunch.GameArgs | src/instance/launch.rs:70-101 | with an "arguments" object, the game arguments are exactly the string entries of its "game" array, none when "game" is not an array, and a missing "game" key is a map-index panic, hence a precondition; otherwise they are "minecraftArguments" split on whitespace, or none |
| LegacyLaunch.SubstituteAll | src/instance/launch.rs:73-100 | one output per argument, each substituted, in order |
| LegacyLaunch.DefineLaunchArgs | src/instance/launch.rs:25-104 | the prelude with the stored classpath (its absence is a panic, hence a precondition, as are a missing "game" key in an "arguments" object and an argument shorter than two bytes), the manifest's main class if any, then each game argument substituted in order |
| LegacyLaunch.SamePrelude | src/instance/launch.rs:36-63 | both revisions start with the same 15 JVM flags, "-XstartOnFirstThread" and "-cp" |
| LegacyLaunch.ArgumentsObjectWins | src/instance/launch.rs:70-88 | with an "arguments" object, "minecraftArguments" is never read |
| StartupTraits.CountFirstThreadPositive | src/instance/launch/traits.rs:17-31 | some entry matches exactly when the string "FirstThreadOnMacOS" is in the traits |
| StartupTraits.Matched | src/instance/launch/traits.rs:17-31 | one trait per matching entry, duplicates kept, and none on targets other than macOS |
| StartupTraits.Extract | src/instance/launch/traits.rs:14-39 | Ok exactly on macOS when "+traits" is an array holding "FirstThreadOnMacOS", with one trait per such entry; otherwise TraitsNotFound |
| Pages.ParsePage | src/instance/options/pages/mod.rs:50-65 | a string is a page exactly when its lowercase form is that page's name; anything else is ParsePageError |
| Pages.PageNameRoundTrip | src/instance/options/pages/mod.rs:54-61 | each of the seven pages has a name that parses back to it, so no two pages share a name |
| Pages.ParsePageIgnoresCase | src/instance/options/pages/mod.rs:54 | a string and its lowercase form parse to the same result |
| Pages.MixedCaseOverview | src/instance/options/tests.rs:148-162 | "oVerVieW" is the overview page |
| Pages.LegacyParsePage | src/instance/options/pages.rs:62-77 | the older parser gives a page only when the lowercased input is that page's name |
| Pages.ParsersAgree | src/instance/options/pages.rs:62-77 | the older and the current parser give the same result on every string |
| Pages.ParseExportType | src/instance/options/pages/overview.rs:137-150 | a stored text is an export type exactly when it is a variant's displayed name, case included; any other text is an error |
| Pages.ExportTypeRoundTrip | src/instance/options/pages/overview.rs:137-156 | the text `Display` writes for a variant reads back as that variant |
| Pages.ExportTypeCaseSensitive | src/instance/options/pages/overview.rs:141-145 | "sonata" in lowercase is refused as a corrupted value |
| Options.ParseI64 | src/instance/options/mod.rs:87-89 | an id parses exactly when it is an optional sign and at least one digit with the value in the i64 range; the value is the digits' value, negated after '-' |
| Options.NatDigitsValue | src/instance/options/mod.rs:87-89 | the decimal digits of a natural number are all digits and read back as that number |
| Options.I64RoundTrip | src/instance/options/mod.rs:87-89 | every i64 written in decimal parses back to itself |
| Options.ParseNonNegative | src/instance/options/mod.rs:87-89 | unsigned digits in range parse to their value |
| Options.ParseNegative | src/instance/options/mod.rs:87-89 | a '-' before digits in range gives their negated value |
| Options.WordIsNoId | src/instance/options/tests.rs:128-146 | "wrongid" is not an i64 |
| Options.ErrorMessage | src/instance/mod.rs:74-108 | every error variant the options code returns has its own message, except database errors, whose text comes from the database layer |
| Options.ParseChange | src/instance/options/mod.rs:94-112 | the overview page reads overview fields and the settings page settings fields; it fails, with OptionNotAvailable, exactly when that page's fields do not parse |
| Options.BuildRequest | src/instance/options/mod.rs:86-115 | a bad id is reported first with the id quoted, then an unknown page with the page as given, then pages other than overview and settings as not implemented; a built request holds the parsed id, the requested page and that page's parsed fields |
| Options.Retrieve | src/instance/options/mod.rs:44-56 | overview and settings are read from their own tables and a read failure is a database error; every other page is not implemented |
| Options.Change | src/instance/options/mod.rs:58-70 | the change is merged into its own page's table and the other table is untouched |
| Options.ChangeThenRetrieve | src/instance/options/mod.rs:44-70 | a request carrying a whole overview page, built from the id's decimal text and the page's serialised fields and applied to an existing row, makes that page what is read back |
| Options.PartialRequest | src/instance/options/tests.rs:16-45 | id "8" with only name and tags builds an overview change of those two fields, the others absent |
| Options.FullRequest | src/instance/options/tests.rs:47-78 | id "14" with all four fields builds an overview change carrying each of them |
| Options.EmptyRequest | src/instance/options/tests.rs:80-106 | an empty options object builds an overview change with every field absent |
| Options.WrongPageRequest | src/instance/options/tests.rs:108-126 | page "asdq" fails with the message "Wrong options page is present: asdq" |
| Options.WrongIdRequest | src/instance/options/tests.rs:128-146 | id "wrongid" fails, whatever the page, with "Instance id is wrong: must be integer (i64), got \"wrongid\"" |
| Options.MixedCaseRequest | src/instance/options/tests.rs:148-162 | page "oVerVieW" builds an overview change |
| OptionFields.ParseEntries | src/instance/options/pages/overview.rs:30-39 | an unknown key anywhere in the object refuses it; the only refusals are an unknown key, a repeated key and a value of the wrong type |
| OptionFields.ParseObject | src/instance/options/mod.rs:96-105 | a value that is neither a map nor a sequence is an invalid type; a sequence of the wrong length is refused with its length; a map with an unknown key is refused |
| OptionFields.ParsePositional | src/instance/options/mod.rs:96-105 | the sequence form reads each element into the field in its declared position; its only refusal is an invalid value for one of the fields |
| OptionFields.PositionalIsKeyed | src/instance/options/mod.rs:96-105 | reading a sequence positionally is reading the map that pairs each field name with its element |
| OptionFields.ExportTypeValue | src/instance/options/pages/overview.rs:21-28 | an export type is read from its name or from a one-key map of its name to null, and from nothing else |
| OptionFields.ParseOverviewFields | src/instance/options/pages/overview.rs:30-39 | a map or a four-element sequence is read; anything else is an invalid type, a sequence of another length is refused with its length, and a map with a key outside the four fields is refused |
| OptionFields.OverviewSequenceForm | src/instance/options/pages/overview.rs:30-39 | a four-element sequence reads as the map of name, tags, export type and play time in that order |
| OptionFields.NullSequenceChangesNothing | src/instance/options/pages/overview.rs:30-39 | four nulls are a change with every field absent |
| OptionFields.ExportTypeMapForm | src/instance/options/pages/overview.rs:21-39 | an export type written as a one-key map of its name to null is read as that export type |
| OptionFields.SerializeOverviewFields | src/instance/options/pages/overview.rs:30-39 | one entry per present field, each under one of the four names, none null, no name twice |
| OptionFields.OverviewFieldsRoundTrip | src/instance/options/pages/overview.rs:30-39 | the fields serde writes, absent ones skipped, read back as the same fields |
| OptionFields.PartialOptions | src/instance/options/pages/overview.rs:30-39 | options with only name and tags leave export type and play time absent |
| OptionFields.FullOptions | src/instance/options/pages/overview.rs:30-39 | name, tags, export type and play time, given in that order, each land in their own field |
| OptionFields.DuplicateKeyRefused | src/instance/options/pages/overview.rs:30-39 | a key given twice is refused as a duplicate |
| OptionFields.WrongTypeRefused | src/instance/options/pages/overview.rs:34-38 | a play time given as text is refused as an invalid value |
| OptionFields.EmptyOptions | src/instance/options/pages/overview.rs:30-39 | an empty object is a change with every field absent |
| OptionFields.FieldsOf | src/instance/options/pages/overview.rs:41-50 | every field is present and holds the page's value |
| OptionFields.ReadOverview | src/instance/options/pages/overview.rs:113-134 | a row reads as a page exactly when its export-type text parses; name, tags and play time are carried over and the export type is the one the text names |
| OptionFields.InsertThenRead | src/instance/options/pages/overview.rs:90-134 | a page inserted as a row reads back as the same page |
| OptionFields.UpdateOverview | src/instance/options/pages/overview.rs:62-88 | each column takes the change's value when one is given, the export type as its text, and keeps its own otherwise |
| OptionFields.EmptyUpdateKeepsRow | src/instance/options/pages/overview.rs:62-88 | a change with no fields leaves the row as it was |
| OptionFields.UpdateIdempotent | src/instance/options/pages/overview.rs:62-88 | applying a change twice is applying it once |
| OptionFields.FullUpdateReadsBack | src/instance/options/pages/overview.rs:41-134 | updating any row with all of a page's fields makes it read back as that page |
| OptionFields.UpdateOverviewIn | src/instance/options/pages/overview.rs:62-88 | the update touches at most the instance's own row, adds and removes no row |
| OptionFields.ReadOverviewFrom | src/instance/options/pages/overview.rs:113-134 | a missing row is RowNotFound; an existing one reads exactly when its export type parses, and what is read is the row written back |
| OptionFields.InsertOverviewIn | src/instance/options/pages/overview.rs:90-108 | the table gains exactly the instance's row, holding the page |
| OptionFields.InsertUpdateRead | src/instance/options/pages/overview.rs:62-134 | an inserted page, updated with a change, reads back as the page with each given field replaced |
| OptionFields.UpdateMissingRow | src/instance/options/pages/overview.rs:62-134 | updating an instance without a row changes nothing, and reading it still fails with RowNotFound |
| OptionFields.ParseSettingsFields | src/instance/options/pages/settings.rs:17-23 | a map or a one-element sequence is read; anything else is an invalid type, a sequence of another length is refused with its length, and a map with a key other than "dir" is refused |
| OptionFields.SettingsSequenceForm | src/instance/options/pages/settings.rs:17-23 | a one-element sequence reads as the map naming that element "dir" |
| OptionFields.SettingsSequenceDir | src/instance/options/pages/settings.rs:17-23 | a sequence holding one text sets the directory to it |
| OptionFields.SerializeSettingsFields | src/instance/options/pages/settings.rs:17-23 | nothing is written without a directory; otherwise exactly the "dir" entry holding it |
| OptionFields.SettingsFieldsRoundTrip | src/instance/options/pages/settings.rs:17-23 | the settings fields serde writes read back as the same fields |
| OptionFields.UpdateSettings | src/instance/options/pages/settings.rs:32-50 | the directory takes the change's value when one is given and keeps its own otherwise |
| OptionFields.UpsertSettings | src/instance/options/pages/settings.rs:52-69 | the instance's row exists afterwards with the given directory, whether or not it existed before; no other row changes |
| OptionFields.UpdateSettingsIn | src/instance/options/pages/settings.rs:32-50 | the update touches at most the instance's own row, adds and removes no row |
| OptionFields.ReadSettingsFrom | src/instance/options/pages/settings.rs:74-89 | a read succeeds exactly when the instance has a row, and gives that row; otherwise it is a not-found error |
| OptionFields.UpsertOverwrites | src/instance/options/pages/settings.rs:52-89 | two upserts leave the second directory |
| OptionFields.SettingsFullUpdate | src/instance/options/pages/settings.rs:25-89 | updating an existing row with a page's fields makes it read back as that page |
| OptionMessage.Serialize | src/websocket/messages/option/mod.rs:23-59 | the payload starts with the "page" entry naming the kind of fields |
| OptionMessage.LastWinsAppend | src/websocket/messages/option/mod.rs:66 | collecting entries into a map: the entries of a later part override those of an earlier one |
| OptionMessage.LastValueKept | src/websocket/messages/option/mod.rs:66 | of a key given twice the map keeps the second value |
| OptionMessage.OverviewFromMap | src/websocket/messages/option/mod.rs:76-80 | a remainder with a key outside the four overview fields is refused |
| OptionMessage.SettingsFromMap | src/instance/options/pages/settings.rs:17-23 | a remainder with a key other than "dir" is refused |
| OptionMessage.SplitPage | src/websocket/messages/option/mod.rs:66-76 | anything but a map is refused; a map without "page" is MissingPage; otherwise the page text is the map's "page" string and the rest is the map without it |
| OptionMessage.DeserializeAsWritten | src/websocket/messages/option/mod.rs:61-86 | only a page value that lowercases to "page" can succeed, and it yields overview fields; any other page value is an unknown option naming the lowercased value |
| OptionMessage.PageValueIsLower | src/websocket/messages/option/mod.rs:34-45 | the two page values written are lowercase, differ from "page", and "overview" belongs to overview fields |
| OptionMessage.SerializedNeverReadBack | src/websocket/messages/option/mod.rs:23-86 | every payload the serialiser writes is refused by the reader as an unknown option |
| OptionMessage.EntryCollects | src/websocket/messages/option/mod.rs:36-42 | one present field collects into a one-key map, an absent one into nothing |
| OptionMessage.OverviewCollects | src/websocket/messages/option/mod.rs:36-42 | the serialised overview fields collect into the map of their present fields |
| OptionMessage.SettingsCollects | src/websocket/messages/option/mod.rs:47-53 | the serialised settings fields collect into the map of their present fields |
| OptionMessage.SplitOfPayload | src/websocket/messages/option/mod.rs:66-76 | a payload with any page value before the fields splits into that value and the fields' map |
| OptionMessage.PageOfSerialized | src/websocket/messages/option/mod.rs:23-76 | a serialised payload's page value is its kind's name and the remainder is its fields' map |
| OptionMessage.PageKeywordReadsOverview | src/websocket/messages/option/mod.rs:78-82 | the page value "PAGE" before overview fields reads back as those fields |
| OptionMessage.Deserialize | src/websocket/messages/option/mod.rs:61-86 | a success names its page by its lowercased page value; values other than "overview" and "settings" are unknown options; map and page errors pass through |
| OptionMessage.OverviewMapRoundTrip | src/websocket/messages/option/mod.rs:36-80 | the map of the overview fields reads back as the same fields |
| OptionMessage.SettingsMapRoundTrip | src/websocket/messages/option/mod.rs:47-53 | the map of the settings fields reads back as the same fields |
| OptionMessage.RoundTrip | src/websocket/messages/option/mod.rs:23-86 | with the intended page names, every payload reads back as what was written |
| OptionMessage.MissingPageRefused | src/websocket/messages/option/mod.rs:68-70 | fields without a "page" entry are refused as MissingPage by both readers |
| OptionMessage.UnknownKeyRefused | src/websocket/messages/option/mod.rs:66-80 | once "page" is taken out, a key outside the four overview fields makes the fields fail |
| Unify.Unified | src/utils/unify/mod.rs:64-69 | an entry gives one version exactly when it has a string "version", with the URL built from the base and that id |
| Unify.ExtractPrism | src/utils/unify/mod.rs:56-77 | Ok exactly when "uid" is a string and "versions" an array; the result is each entry's version in order, entries without a string "version" skipped; otherwise "Failed to parse" |
| Unify.Build | src/utils/unify/mod.rs:41-54 | the Mojang index is "Not implemented"; the Prism index succeeds exactly when its uid and versions are present |
| Unify.ExtractedUrls | src/utils/unify/mod.rs:61-70 | every extracted URL is the base, the id and ".json", and there are no more versions than entries |
| Unify.SkipsNonStringVersions | src/utils/unify/mod.rs:64-70 | an entry without a string "version" adds nothing to the list |

## Left out

- Network, disk and database I/O: the server, the file system and the two option tables are values or function parameters; SQL errors other than a missing row, and the database layer's error texts, are not modelled.
- Console output, websocket sends and progress messages: they have no effect on the values computed.
- The exact texts of serde errors (expected alternatives, line and column): a refused options map carries only which key failed and why.
- OptionFields.ParseObject: a sequence of the wrong length is refused as WrongLength, but serde reads the elements first, so an ill-typed element is reported before the length (`[1]` is an invalid type for "name"), and a sequence that is too long fails as trailing characters. For the sequence form only that it is refused matches the source, not the error kind.
- OptionFields.SerializeOverviewFields and OptionMessage.Serialize: keys are written in sorted order, as serde_json's default `BTreeMap`-backed `Map` does. With serde_json's `preserve_order` feature the order would be insertion order; the model does not cover that build.
- Which key a `BTreeMap` deserialisation error names when several are wrong: only that the payload is refused is stated.
- Pretty-printed JSON: `UnifiedVersionsData::build` turns its list into text with `to_string_pretty`; Unify.Build returns the list itself.
- `UnifiedVersionsData::new`: it only downloads the index; the index is an input of Unify.Build.
- Unify.Build: states success and failure for the Prism index but not the list's contents; those are stated by Unify.ExtractPrism, which Build calls.
- PrismParse.ParsePrism: the source follows "requires" to any depth; the model takes a `fuel` bound and fails when it runs out, so nesting deeper than the fuel is not modelled.
- Unicode: `to_lowercase`, `split_whitespace` and the regex class `\d` are modelled on ASCII characters only. The members affected:
  - Pages.ParsePage and Pages.LegacyParsePage: the Kelvin sign (U+212A) lowercases to 'k' in Rust but is left alone here.
  - OptionMessage.DeserializeAsWritten and Download.DownloadWithChecksum: they lowercase only ASCII letters.
  - Maven.IsVersion, Maven.FindVersion and Maven.CoordToPath: `\d` matches only ASCII digits here, but Unicode digits in Rust.
  - LegacyLaunch.GameArgs and LegacyLaunch.DefineLaunchArgs: no-break space (U+00A0) and other Unicode spaces separate arguments in Rust, but not here.
- Maven.IsVersion: the version regex is written as a predicate on characters, not as a regular expression.
- Byte slicing: `[..2]` on a string takes two bytes in Rust, and panics in the middle of a multi-byte character. The model takes two characters instead. The two agree on ASCII hashes and placeholders. The members affected are Assets.ConstructAssetUrl, LegacyAssets.ConstructAssetUrl and LegacyLaunch.Substitute.
- SHA-1, URL parsing and joining, `AssetInfo::with_hash`, `get_default_value` and the current `register_libs`: function parameters, because their code is not part of this model.
- Strings.NthOccurrence: `str_nth_occurrence` is not part of this model. It is defined here as the index of the n-th occurrence counting from 1, with none for n = 0.
- PrismParse.GetPathFromUrl: its path starts at the third '/' only under that reading of `str_nth_occurrence`, whose code is not part of this model; a 0-based reading would start it at the fourth.
- Download.DownloadWithChecksum: does not take a buffer from the pool (`buffers_pool.acquire()`, src/utils/download/mod.rs:152). BufferPool models the pool on its own, so waiting for a free buffer and returning it are not part of the download.
- Json.Lookup: a key that appears twice in an object is read from its first entry. serde_json keeps the last one when it parses text, so a `Value` it produces never holds a key twice; manifests are read here as such duplicate-free values, and a repeated key in the text is not modelled.
- Concurrency: `FuturesUnordered` completion order is a caller-supplied permutation; the dispatch itself is sequential.
- `Options::new` and `Options::retrieve_all`: the first only prints a default value and the second is a plain serde call.
- The `General` struct, the empty page structs (`Mods`, `Worlds` and the rest) and the older revision's page structs: they hold no behaviour.
- Settings pages: modelled only as far as the option requests read and change them.
- LegacyLibs.DownloadMissingLibs: does not write the metacache back; LegacyLibs.RegisterLibs models that step separately, because the order in which the source's set is iterated is unknown.
- Unwraps on the legacy metacache and the `File::create` and `io::copy` unwraps after a completed GET: preconditions, not modelled error paths. LegacyLibs.DownloadLibs, LegacyAssets.DownloadAsset and LegacyAssets.ExtractManifestAssets take a `write` parameter for which files can be written, and require it for every file they would write; LegacyLibs.ListAndFetch takes the outcome of each `download_libs` as `fetch`, under the same assumption.
- Maven.PathExamples: covers short coordinates only; the source's tests with long real-world coordinates are not restated, because equalities between long string literals are too costly for the verifier.
- OptionFields.InsertOverviewIn: requires the instance to have no row yet; an insert over an existing row is a database error in the source, and that error is not modelled.
- OptionFields.ReadSettingsFrom: the source reports a missing settings row as `DBError::NotFound`, while a missing overview row is sqlx's row-not-found; both are RowNotFound here.
- Options.ErrorMessage: covers only the variants the options code returns, not the launcher's other instance errors.

## Findings

| source | as written | input that shows it | evidently intended | confidence | as-written member | corrected member |
|---|---|---|---|---|---|---|
| src/websocket/messages/option/mod.rs:78-84 | the reader accepts only the page value "page" (any case) and reads it as overview fields | any payload the serialiser writes, such as {"page": "overview", "name": "x"}, is refused as unknown option 'overview' | "overview" reads overview fields and "settings" reads settings fields, so what `Serialize` writes reads back | not executed; high | OptionMessage.SerializedNeverReadBack | OptionMessage.RoundTrip |
