/**
 * The checksum-verified downloader (`Download::download_with_checksum`).
 *
 * The HTTP server, URL parsing, the disk and SHA-1 are inputs: `Net` answers
 * each GET and parses/joins URLs, `Disk` says which directory creations,
 * file creations and writes succeed, and `sha1Hex` is the lowercase hex
 * digest. Console output is left out.
 */
module Download {
  import opened Wrappers
  import opened Strings
  import opened Paths

  newtype byte = x: int | 0 <= x < 256

  /** `MAX_REDIRECT_COUNT` */
  const MaxRedirectCount: nat := 100

  /** What one call of `read` on a response body gives back. */
  datatype Read = Chunk(bytes: seq<byte>) | ReadFailed

  /**
   * The answer to one GET: the request fails outright, or a status with the
   * values of its Location header and the successive reads of its body.
   * Reads past the end of `body` return 0 bytes.
   */
  datatype Response =
    | RequestFailed
    | Reply(status: int, location: seq<string>, body: seq<Read>)

  /** Section 15.4 of RFC 9110: 3xx */
  predicate IsRedirection(status: int) {
    300 <= status < 400
  }

  /** Section 15.3 of RFC 9110: 2xx */
  predicate IsSuccess(status: int) {
    200 <= status < 300
  }

  /**
   * The network: `get` answers a request, `parse` is `Url::parse` followed by
   * `to_string` (None on a parse error), `join` is `Url::join` on a parsed base.
   */
  datatype Net = Net(
    get: string -> Response,
    parse: string -> Option<string>,
    join: (string, string) -> Option<string>)

  /** The filesystem: which `create_dir_all`, `File::create` and n-th `write_all` succeed. */
  datatype Disk = Disk(
    createDirAll: Path -> bool,
    createFile: Path -> bool,
    writeOk: (Path, nat) -> bool)

  /** The `Downloadable` getters. */
  datatype Target = Target(name: string, hash: string, url: string)

  datatype Error =
    | NoParentDir
    | NoFileName
    | DirCreateFailed(dir: Path)
    | RequestError(url: string)
    | TooManyRedirects(url: string)
    | RedirectWithoutLocation(status: int, url: string)
    | BaseUrlParseError(url: string)
    | JoinFailed(base: string, location: string)
    | HttpError(status: int, url: string)
    | FileCreateFailed(path: Path)
    | ReadError
    | WriteError
    | EmptyBody(url: string)
    | ShaMismatch(url: string)

  /** The last value of the Location header, if it has any. */
  function LastLocation(values: seq<string>): Option<string> {
    if |values| == 0 then None else Some(values[|values| - 1])
  }

  /**
   * The URL a redirect to `location` leads to from `current`: an absolute
   * Location replaces the URL, a relative one is joined to the parsed
   * current URL (section 5.2 of RFC 3986).
   */
  function Resolve(net: Net, current: string, location: string): (r: Result<string, Error>)
    ensures net.parse(current).None? ==> r == Err(BaseUrlParseError(current))
    ensures net.parse(current).Some? && net.parse(location).Some? ==> r == Ok(net.parse(location).value)
    ensures r.Ok? && net.parse(location).None? ==>
      net.parse(current).Some? && net.join(net.parse(current).value, location) == Some(r.value)
  {
    match net.parse(current)
    case None => Err(BaseUrlParseError(current))
    case Some(base) =>
      match net.parse(location)
      case Some(abs) => Ok(abs)
      case None =>
        match net.join(base, location)
        case Some(next) => Ok(next)
        case None => Err(JoinFailed(base, location))
  }

  /** What one pass of the redirect loop decides. */
  datatype Hop =
    | Stop(outcome: Result<(string, Response), Error>)
    | Continue(next: string)

  /**
   * One pass of the redirect loop at `url` with `count` redirects followed.
   * The too-many check comes before the Location check.
   */
  function HopAt(net: Net, url: string, count: nat): (h: Hop)
    ensures h.Continue? ==> count < MaxRedirectCount && net.get(url).Reply? && IsRedirection(net.get(url).status)
    ensures h.Stop? && h.outcome.Ok? ==>
      h.outcome.value == (url, net.get(url)) && net.get(url).Reply? && !IsRedirection(net.get(url).status)
  {
    var resp := net.get(url);
    if resp.RequestFailed? then Stop(Err(RequestError(url)))
    else if !IsRedirection(resp.status) then Stop(Ok((url, resp)))
    else if count >= MaxRedirectCount then Stop(Err(TooManyRedirects(url)))
    else
      match LastLocation(resp.location)
      case None => Stop(Err(RedirectWithoutLocation(resp.status, url)))
      case Some(loc) =>
        match Resolve(net, url, loc)
        case Err(e) => Stop(Err(e))
        case Ok(next) => Continue(next)
  }

  /**
   * The URLs the redirect loop requests when entered at `url` with `count`
   * redirects followed.
   */
  function Trail(net: Net, url: string, count: nat): (t: seq<string>)
    requires count <= MaxRedirectCount
    ensures 1 <= |t| <= MaxRedirectCount - count + 1
    decreases MaxRedirectCount - count
  {
    match HopAt(net, url, count)
    case Stop(_) => [url]
    case Continue(next) => [url] + Trail(net, next, count + 1)
  }

  /**
   * How the redirect loop entered at `url` with `count` redirects followed
   * ends: the final URL with its non-redirect reply, or an error.
   */
  function Landing(net: Net, url: string, count: nat): (r: Result<(string, Response), Error>)
    requires count <= MaxRedirectCount
    ensures r.Ok? ==> r.value.1.Reply? && !IsRedirection(r.value.1.status)
    decreases MaxRedirectCount - count
  {
    match HopAt(net, url, count)
    case Stop(outcome) => outcome
    case Continue(next) => Landing(net, next, count + 1)
  }

  /** How the read loop ended. */
  datatype StreamEnd = Finished | ReadFailure | WriteFailure

  /**
   * The read loop from the `i`-th read: the bytes written to the file and how
   * it ended. An empty read or the end of the body finishes it.
   */
  function StreamFrom(body: seq<Read>, disk: Disk, path: Path, i: nat): (seq<byte>, StreamEnd)
    decreases |body| - i
  {
    if i >= |body| then ([], Finished)
    else if body[i].ReadFailed? then ([], ReadFailure)
    else if |body[i].bytes| == 0 then ([], Finished)
    else if !disk.writeOk(path, i) then ([], WriteFailure)
    else
      var (rest, end) := StreamFrom(body, disk, path, i + 1);
      (body[i].bytes + rest, end)
  }

  /** The save path has a parent directory and a file name, and the directory was created. */
  predicate Prepared(savePath: Path, disk: Disk) {
    Parent(savePath).Some? && FileName(savePath).Some? && disk.createDirAll(Parent(savePath).value)
  }

  /** Where the file is written: the parent directory joined with the file name. */
  function FullSavePath(savePath: Path): Path
    requires Parent(savePath).Some? && FileName(savePath).Some?
  {
    Join(Parent(savePath).value, FileName(savePath).value)
  }

  /**
   * The redirect loop of `download_with_checksum`, from the item's URL with
   * no redirect followed yet.
   */
  method FollowRedirects(net: Net, startUrl: string)
    returns (requested: seq<string>, outcome: Result<(string, Response), Error>)
    ensures requested == Trail(net, startUrl, 0)
    ensures outcome == Landing(net, startUrl, 0)
    ensures 1 <= |requested| <= MaxRedirectCount + 1
  {
    requested := [];
    var currentUrl := startUrl;
    var redirectCount: nat := 0;
    assert requested + Trail(net, startUrl, 0) == Trail(net, startUrl, 0);
    while true
      invariant redirectCount <= MaxRedirectCount
      invariant |requested| == redirectCount
      invariant Trail(net, startUrl, 0) == requested + Trail(net, currentUrl, redirectCount)
      invariant Landing(net, startUrl, 0) == Landing(net, currentUrl, redirectCount)
      decreases MaxRedirectCount - redirectCount
    {
      ghost var before := requested;
      requested := requested + [currentUrl];
      match HopAt(net, currentUrl, redirectCount)
      case Stop(result) =>
        return requested, result;
      case Continue(next) =>
        AppendAssoc(before, [currentUrl], Trail(net, next, redirectCount + 1));
        currentUrl := next;
        redirectCount := redirectCount + 1;
    }
  }

  lemma AppendAssoc<X>(a: seq<X>, b: seq<X>, c: seq<X>)
    ensures a + (b + c) == (a + b) + c
  {
  }

  /**
   * The read loop: every non-empty read is fed to the hasher and then
   * written, in read order. Returns the bytes hashed, the bytes written,
   * the byte count and how the loop ended.
   */
  method StreamBody(body: seq<Read>, disk: Disk, path: Path)
    returns (hashed: seq<byte>, written: seq<byte>, totalRead: nat, end: StreamEnd)
    ensures (written, end) == StreamFrom(body, disk, path, 0)
    ensures end != WriteFailure ==> hashed == written
    ensures totalRead == |written|
  {
    hashed, written, totalRead, end := [], [], 0, Finished;
    var i: nat := 0;
    while i < |body|
      invariant i <= |body|
      invariant hashed == written && totalRead == |written|
      invariant StreamFrom(body, disk, path, 0).0 == written + StreamFrom(body, disk, path, i).0
      invariant StreamFrom(body, disk, path, 0).1 == StreamFrom(body, disk, path, i).1
      decreases |body| - i
    {
      if body[i].ReadFailed? {
        assert StreamFrom(body, disk, path, i) == ([], ReadFailure);
        assert written + [] == written;
        return hashed, written, totalRead, ReadFailure;
      }
      var n := |body[i].bytes|;
      if n == 0 {
        assert StreamFrom(body, disk, path, i) == ([], Finished);
        break;
      }
      hashed := hashed + body[i].bytes;
      if !disk.writeOk(path, i) {
        assert StreamFrom(body, disk, path, i) == ([], WriteFailure);
        assert written + [] == written;
        return hashed, written, totalRead, WriteFailure;
      }
      ghost var rest := StreamFrom(body, disk, path, i + 1);
      assert StreamFrom(body, disk, path, i) == (body[i].bytes + rest.0, rest.1);
      assert written + (body[i].bytes + rest.0) == (written + body[i].bytes) + rest.0;
      written := written + body[i].bytes;
      totalRead := totalRead + n;
      i := i + 1;
    }
    assert written + [] == written;
  }


  /**
   * `download_with_checksum`. Returns the result, the URLs requested in order
   * and the file's contents (None when no file was created).
   */
  method DownloadWithChecksum<T>(savePath: Path, item: T, getters: T -> Target,
                                 net: Net, disk: Disk, sha1Hex: seq<byte> -> string)
    returns (result: Result<T, Error>, requested: seq<string>, file: Option<seq<byte>>)
    // path checks come before any request
    ensures Parent(savePath).None? ==> result == Err(NoParentDir)
    ensures Parent(savePath).Some? && FileName(savePath).None? ==> result == Err(NoFileName)
    ensures !Prepared(savePath, disk) ==> result.Err? && requested == [] && file.None?
    // the redirect loop
    ensures Prepared(savePath, disk) ==> requested == Trail(net, getters(item).url, 0)
    ensures |requested| <= MaxRedirectCount + 1
    ensures Prepared(savePath, disk) && Landing(net, getters(item).url, 0).Err? ==>
      result == Err(Landing(net, getters(item).url, 0).error) && file.None?
    // a final status other than 2xx fails before the file is created
    ensures Prepared(savePath, disk) && Landing(net, getters(item).url, 0).Ok? ==>
      var (finalUrl, resp) := Landing(net, getters(item).url, 0).value;
      !IsSuccess(resp.status) ==> result == Err(HttpError(resp.status, finalUrl)) && file.None?
    // the file holds exactly the bytes read before the loop ended
    ensures file.Some? ==> (Prepared(savePath, disk) && Landing(net, getters(item).url, 0).Ok?
      && file.value == StreamFrom(Landing(net, getters(item).url, 0).value.1.body,
                                  disk, FullSavePath(savePath), 0).0)
    // success: a non-empty body whose digest matches the lowercased expected hash
    ensures result.Ok? ==> (result.value == item && file.Some? && |file.value| > 0
      && sha1Hex(file.value) == Lower(getters(item).hash))
    ensures result.Ok? <==>
      && Prepared(savePath, disk)
      && Landing(net, getters(item).url, 0).Ok?
      && var (finalUrl, resp) := Landing(net, getters(item).url, 0).value;
      && IsSuccess(resp.status)
      && disk.createFile(FullSavePath(savePath))
      && var (bytes, end) := StreamFrom(resp.body, disk, FullSavePath(savePath), 0);
      && end == Finished && |bytes| > 0 && sha1Hex(bytes) == Lower(getters(item).hash)
  {
    requested := [];
    file := None;
    var parent := Parent(savePath);
    if parent.None? {
      return Err(NoParentDir), requested, file;
    }
    var fileName := FileName(savePath);
    if fileName.None? {
      return Err(NoFileName), requested, file;
    }
    var saveDir := parent.value;
    if !disk.createDirAll(saveDir) {
      return Err(DirCreateFailed(saveDir)), requested, file;
    }

    var outcome;
    requested, outcome := FollowRedirects(net, getters(item).url);
    if outcome.Err? {
      return Err(outcome.error), requested, file;
    }
    var (currentUrl, resp) := outcome.value;
    if !IsSuccess(resp.status) {
      return Err(HttpError(resp.status, currentUrl)), requested, file;
    }

    var fullSavePath := Join(saveDir, fileName.value);
    if !disk.createFile(fullSavePath) {
      return Err(FileCreateFailed(fullSavePath)), requested, file;
    }
    var hashed, written, totalRead, end := StreamBody(resp.body, disk, fullSavePath);
    file := Some(written);
    if end == ReadFailure {
      return Err(ReadError), requested, file;
    } else if end == WriteFailure {
      return Err(WriteError), requested, file;
    }

    if totalRead == 0 {
      return Err(EmptyBody(currentUrl)), requested, file;
    }
    var calculated := sha1Hex(hashed);
    var expected := Lower(getters(item).hash);
    if calculated != expected {
      return Err(ShaMismatch(currentUrl)), requested, file;
    }
    return Ok(item), requested, file;
  }

  /** Every URL answers with a redirect whose Location resolves. */
  ghost predicate AlwaysRedirects(net: Net) {
    forall url :: net.get(url).Reply? && IsRedirection(net.get(url).status)
      && LastLocation(net.get(url).location).Some?
      && Resolve(net, url, LastLocation(net.get(url).location).value).Ok?
  }

  /**
   * Against a server that redirects forever, the loop entered after `count`
   * redirects makes exactly `MaxRedirectCount - count + 1` requests and fails
   * with "too many redirects" at the last one.
   */
  lemma {:induction false} EndlessRedirectsStop(net: Net, url: string, count: nat)
    requires AlwaysRedirects(net) && count <= MaxRedirectCount
    ensures |Trail(net, url, count)| == MaxRedirectCount - count + 1
    ensures Landing(net, url, count).Err? && Landing(net, url, count).error.TooManyRedirects?
    decreases MaxRedirectCount - count
  {
    if count < MaxRedirectCount {
      var next := Resolve(net, url, LastLocation(net.get(url).location).value).value;
      assert HopAt(net, url, count) == Continue(next);
      EndlessRedirectsStop(net, next, count + 1);
    }
  }

  /** From a fresh start that is 101 requests, i.e. 100 redirects followed. */
  lemma EndlessRedirectsFromStart(net: Net, url: string)
    requires AlwaysRedirects(net)
    ensures |Trail(net, url, 0)| == MaxRedirectCount + 1 == 101
    ensures Landing(net, url, 0).Err? && Landing(net, url, 0).error.TooManyRedirects?
  {
    EndlessRedirectsStop(net, url, 0);
  }

  /**
   * Once the limit is reached, a redirect fails as "too many redirects"
   * whether or not it carries a Location.
   */
  lemma LimitCheckedBeforeLocation(net: Net, url: string)
    requires net.get(url).Reply? && IsRedirection(net.get(url).status)
    ensures Landing(net, url, MaxRedirectCount) == Err(TooManyRedirects(url))
    ensures Trail(net, url, MaxRedirectCount) == [url]
  {
  }

  /**
   * Below the limit, a redirect without a Location header ends the loop
   * with that error and no further request.
   */
  lemma MissingLocationRefused(net: Net, url: string, count: nat)
    requires count < MaxRedirectCount
    requires net.get(url).Reply? && IsRedirection(net.get(url).status) && net.get(url).location == []
    ensures Landing(net, url, count) == Err(RedirectWithoutLocation(net.get(url).status, url))
    ensures Trail(net, url, count) == [url]
  {
  }

  /**
   * Each request after the first goes to the previous URL's Location,
   * resolved against that previous URL (not the original one).
   */
  lemma {:induction false} TrailFollowsLocations(net: Net, url: string, count: nat, k: nat)
    requires count <= MaxRedirectCount
    requires k + 1 < |Trail(net, url, count)|
    ensures var t := Trail(net, url, count);
      && net.get(t[k]).Reply? && IsRedirection(net.get(t[k]).status)
      && LastLocation(net.get(t[k]).location).Some?
      && Resolve(net, t[k], LastLocation(net.get(t[k]).location).value) == Ok(t[k + 1])
    decreases MaxRedirectCount - count
  {
    var t := Trail(net, url, count);
    match HopAt(net, url, count)
    case Stop(_) =>
    case Continue(next) =>
      var rest := Trail(net, next, count + 1);
      assert t == [url] + rest;
      if k == 0 {
        assert t[1] == rest[0];
        FirstOfTrail(net, next, count + 1);
      } else {
        TrailFollowsLocations(net, next, count + 1, k - 1);
        assert t[k] == rest[k - 1] && t[k + 1] == rest[k];
      }
  }

  lemma FirstOfTrail(net: Net, url: string, count: nat)
    requires count <= MaxRedirectCount
    ensures Trail(net, url, count)[0] == url
  {
  }

  /** The loop's final URL is the last one requested. */
  lemma {:induction false} LandingIsLastRequest(net: Net, url: string, count: nat)
    requires count <= MaxRedirectCount
    requires Landing(net, url, count).Ok?
    ensures var t := Trail(net, url, count);
      Landing(net, url, count).value == (t[|t| - 1], net.get(t[|t| - 1]))
    decreases MaxRedirectCount - count
  {
    match HopAt(net, url, count)
    case Stop(_) =>
    case Continue(next) =>
      LandingIsLastRequest(net, next, count + 1);
      var rest := Trail(net, next, count + 1);
      assert Trail(net, url, count) == [url] + rest;
  }
}
