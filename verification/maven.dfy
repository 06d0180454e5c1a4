/**
 * Maven coordinates: `coord_to_path` turns "group:artifact:..." into a
 * relative path, and `build_file_path` puts a path under the libraries
 * directory.
 */
module Maven {
  import opened Wrappers
  import opened Strings

  predicate IsAlnum(c: char) {
    IsDigit(c) || 'a' <= c <= 'z' || 'A' <= c <= 'Z'
  }

  /** The suffix separators of the version pattern: '-', '+', '_', '.'. */
  predicate IsSep(c: char) {
    c == '-' || c == '+' || c == '_' || c == '.'
  }

  predicate AllAlnum(s: string) {
    forall i :: 0 <= i < |s| ==> IsAlnum(s[i])
  }

  /** Zero or more groups, each a separator followed by one or more letters or digits. */
  predicate Groups(s: string)
    decreases |s|
  {
    |s| == 0 || (IsSep(s[0]) && exists k :: 1 < k <= |s| && AllAlnum(s[1..k]) && Groups(s[k..]))
  }

  /**
   * The version pattern `^\d+(?:\.\d+)*(?:[-+_\.][A-Za-z0-9]+(?:[.\-+_][A-Za-z0-9]+)*)?$`:
   * a run of digits, then any number of separator-led alphanumeric groups.
   * Every ".<digits>" group of the pattern is also such a group, and the
   * optional tail is exactly a run of them, so the two describe the same
   * strings.
   */
  predicate IsVersion(p: string) {
    exists k :: 0 < k <= |p| && AllDigits(p[..k]) && Groups(p[k..])
  }

  /** The parts after the group, each led by '/'. */
  function Tail(parts: seq<string>): string
    decreases |parts|
  {
    if |parts| == 0 then "" else Tail(parts[..|parts| - 1]) + "/" + parts[|parts| - 1]
  }

  /**
   * What `coord_to_path` computes, character by character: every ':'
   * becomes '/', and so does every '.' before the first ':'.
   */
  function MavenPath(coord: string): (r: string)
    ensures |r| == |coord|
  {
    seq(|coord|, i requires 0 <= i < |coord| =>
      if coord[i] == ':' then '/' else if coord[i] == '.' && ':' !in coord[..i] then '/' else coord[i])
  }

  /**
   * `coord_to_path`. The version search mirrors the source and its index is
   * returned as `versionIdx`: the first segment after the group that looks
   * like a version. Both branches build the same path, so the result never
   * depends on it. `split` never returns an empty list, so the source's
   * emptiness check cannot fire and is not repeated here.
   */
  method CoordToPath(coord: string) returns (out: string, versionIdx: Option<nat>)
    ensures out == MavenPath(coord)
    ensures versionIdx.Some? ==>
      var parts := Split(coord, ':');
      && 1 <= versionIdx.value < |parts| && IsVersion(parts[versionIdx.value])
      && forall j :: 1 <= j < versionIdx.value ==> !IsVersion(parts[j])
    ensures versionIdx.None? ==> forall j :: 1 <= j < |Split(coord, ':')| ==> !IsVersion(Split(coord, ':')[j])
  {
    var parts := Split(coord, ':');
    versionIdx := FindVersion(parts);
    out := JoinParts(parts, versionIdx);
    MavenPathOfParts(coord);
  }

  /** The first segment after the group that matches the version pattern. */
  method FindVersion(parts: seq<string>) returns (versionIdx: Option<nat>)
    requires |parts| > 0
    ensures versionIdx.Some? ==>
      && 1 <= versionIdx.value < |parts| && IsVersion(parts[versionIdx.value])
      && forall j :: 1 <= j < versionIdx.value ==> !IsVersion(parts[j])
    ensures versionIdx.None? ==> forall j :: 1 <= j < |parts| ==> !IsVersion(parts[j])
  {
    var i := 1;
    while i < |parts|
      invariant 1 <= i <= |parts|
      invariant forall j :: 1 <= j < i ==> !IsVersion(parts[j])
    {
      if IsVersion(parts[i]) {
        return Some(i);
      }
      i := i + 1;
    }
    return None;
  }

  /**
   * The two branches of the source: with a version, the parts before it,
   * the version, and the parts after it; without one, all later parts.
   * Either way each later part is appended after a '/'.
   */
  method JoinParts(parts: seq<string>, versionIdx: Option<nat>) returns (out: string)
    requires |parts| > 0
    requires versionIdx.Some? ==> 1 <= versionIdx.value < |parts|
    ensures out == ReplaceChar(parts[0], '.', '/') + Tail(parts[1..])
  {
    var head := ReplaceChar(parts[0], '.', '/');
    match versionIdx {
      case Some(v) =>
        out := AppendParts(head, parts, head, 1, v);
        TailSnoc(parts, v);
        out := out + "/" + parts[v];
        out := AppendParts(out, parts, head, v + 1, |parts|);
      case None =>
        out := AppendParts(head, parts, head, 1, |parts|);
    }
    assert parts[1..|parts|] == parts[1..];
  }

  /** Appends "/" + part for the parts from `lo` up to `hi`. */
  method AppendParts(acc: string, parts: seq<string>, head: string, lo: nat, hi: nat) returns (out: string)
    requires 1 <= lo <= hi <= |parts|
    requires acc == head + Tail(parts[1..lo])
    ensures out == head + Tail(parts[1..hi])
  {
    out := acc;
    for j := lo to hi
      invariant out == head + Tail(parts[1..j])
    {
      TailSnoc(parts, j);
      out := out + "/" + parts[j];
    }
  }

  lemma TailSnoc(parts: seq<string>, j: nat)
    requires 1 <= j < |parts|
    ensures Tail(parts[1..j + 1]) == Tail(parts[1..j]) + "/" + parts[j]
  {
    assert parts[1..j + 1][..j - 1] == parts[1..j];
  }

  lemma {:induction false} TailCons(p: string, ps: seq<string>)
    ensures Tail([p] + ps) == "/" + p + Tail(ps)
    decreases |ps|
  {
    if |ps| > 0 {
      var init := ps[..|ps| - 1];
      TailCons(p, init);
      assert ([p] + ps)[..|ps|] == [p] + init;
    }
  }

  lemma ReplaceConcat(a: string, b: string, x: char, y: char)
    ensures ReplaceChar(a + b, x, y) == ReplaceChar(a, x, y) + ReplaceChar(b, x, y)
  {
  }

  /** Joined back with ':' and with every ':' made '/', the later parts read as their `Tail`. */
  lemma {:induction false} TailIsColonsReplaced(ps: seq<string>)
    requires |ps| > 0 && forall i :: 0 <= i < |ps| ==> ':' !in ps[i]
    ensures ReplaceChar(":" + JoinWith(ps, ':'), ':', '/') == Tail(ps)
    decreases |ps|
  {
    var p := ps[0];
    assert ps == [p] + ps[1..];
    TailCons(p, ps[1..]);
    ColonLead(p);
    if |ps| == 1 {
      assert Tail(ps[1..]) == "";
      assert ":" + JoinWith(ps, ':') == ":" + p;
    }
    else {
      TailIsColonsReplaced(ps[1..]);
      var rest := ":" + JoinWith(ps[1..], ':');
      assert ":" + JoinWith(ps, ':') == (":" + p) + rest;
      ReplaceConcat(":" + p, rest, ':', '/');
    }
  }

  /** A part led by ':' reads with a '/' in its place. */
  lemma ColonLead(p: string)
    requires ':' !in p
    ensures ReplaceChar(":" + p, ':', '/') == "/" + p
  {
    ReplaceConcat(":", p, ':', '/');
    assert ReplaceChar(p, ':', '/') == p;
    assert ReplaceChar(":", ':', '/') == "/";
  }

  /** The path built from the split parts is `MavenPath` of the coordinate. */
  lemma MavenPathOfParts(coord: string)
    ensures var parts := Split(coord, ':');
      ReplaceChar(parts[0], '.', '/') + Tail(parts[1..]) == MavenPath(coord)
  {
    var parts := Split(coord, ':');
    var p0 := parts[0];
    var rest := if |parts| == 1 then "" else ":" + JoinWith(parts[1..], ':');
    JoinSplit(coord, ':');
    assert coord == p0 + rest;
    if |parts| > 1 {
      TailIsColonsReplaced(parts[1..]);
    }
    assert ReplaceChar(rest, ':', '/') == Tail(parts[1..]);
    MavenPathOfHeadAndRest(coord, p0, rest);
  }

  /**
   * Before the first ':' the dots become '/'; from it on only the colons do.
   */
  lemma MavenPathOfHeadAndRest(coord: string, head: string, rest: string)
    requires coord == head + rest && ':' !in head
    requires |rest| > 0 ==> rest[0] == ':'
    ensures MavenPath(coord) == ReplaceChar(head, '.', '/') + ReplaceChar(rest, ':', '/')
  {
    var out := ReplaceChar(head, '.', '/') + ReplaceChar(rest, ':', '/');
    forall i | 0 <= i < |coord| ensures out[i] == MavenPath(coord)[i] {
      if i < |head| {
        assert coord[..i] == head[..i];
      }
      else {
        assert coord[..i + 1][|head|] == ':';
        if i > |head| {
          assert coord[..i][|head|] == ':';
        }
      }
    }
  }

  /** "" maps to "", and a coordinate without ':' only has its dots made '/'. */
  lemma NoColonIsGroupOnly(coord: string)
    requires ':' !in coord
    ensures MavenPath(coord) == ReplaceChar(coord, '.', '/')
  {
    forall i | 0 <= i < |coord| ensures ':' !in coord[..i] {
      assert forall j :: 0 <= j < i ==> coord[..i][j] == coord[j];
    }
  }

  /** The version pattern accepts "1.20.1". */
  lemma VersionAcceptsRelease()
    ensures IsVersion("1.20.1")
  {
    var s := "1.20.1";
    GroupsCons(s[4..], 2);
    GroupsCons(s[1..], 3);
    DigitsThenGroups(s, 1);
  }

  /** The version pattern accepts "1.0-SNAPSHOT". */
  lemma VersionAcceptsSnapshot()
    ensures IsVersion("1.0-SNAPSHOT")
  {
    var s := "1.0-SNAPSHOT";
    GroupsCons(s[3..], 9);
    GroupsCons(s[1..], 2);
    DigitsThenGroups(s, 1);
  }

  /** A separator, a run of letters or digits, then more groups. */
  lemma GroupsCons(s: string, k: nat)
    requires 1 < k <= |s| && IsSep(s[0]) && AllAlnum(s[1..k]) && Groups(s[k..])
    ensures Groups(s)
  {
  }

  lemma DigitsThenGroups(p: string, k: nat)
    requires 0 < k <= |p| && AllDigits(p[..k]) && Groups(p[k..])
    ensures IsVersion(p)
  {
  }

  /** A version must start with a digit: "client" and "SNAPSHOT" are not versions. */
  lemma VersionRejects()
    ensures !IsVersion("client") && !IsVersion("SNAPSHOT")
  {
    assert !IsDigit("client"[0]);
    assert !IsDigit("SNAPSHOT"[0]);
  }

  /**
   * Small coordinates: the empty one, the source's two-part and group-only
   * tests, and one whose later dots are kept.
   */
  lemma PathExamples()
    ensures MavenPath("") == ""
    ensures MavenPath("group:artifact") == "group/artifact"
    ensures MavenPath("single.segment") == "single/segment"
    ensures MavenPath("a.b:c.d:1.2") == "a/b/c.d/1.2"
  {
    NoColonIsGroupOnly("single.segment");
    var c := "a.b:c.d:1.2";
    assert c[3] == ':';
    forall i | 3 < i < |c| ensures ':' in c[..i] {
      assert c[..i][3] == ':';
    }
  }

  /**
   * `build_file_path`: the libraries directory, then the Maven path, with
   * a '/' between them only when the path does not already start with one.
   */
  function BuildFilePath(libsDir: string, mavenPath: string): (r: string)
    ensures |mavenPath| > 0 && mavenPath[0] == '/' ==> r == libsDir + mavenPath
    ensures !(|mavenPath| > 0 && mavenPath[0] == '/') ==> r == libsDir + "/" + mavenPath
  {
    if |mavenPath| > 0 && mavenPath[0] == '/' then libsDir + mavenPath else libsDir + "/" + mavenPath
  }

  /** With or without a leading '/', a Maven path lands at the same file. */
  lemma LeadingSlashIrrelevant(libsDir: string, mavenPath: string)
    ensures BuildFilePath(libsDir, "/" + mavenPath) == BuildFilePath(libsDir, mavenPath)
      || (|mavenPath| > 0 && mavenPath[0] == '/')
  {
  }
}
