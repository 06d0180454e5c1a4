/** `extract_filename`: the file name between the last '/' and the last '.'. */
module Utils {
  import opened Wrappers
  import opened Strings

  /**
   * None when the path has no '/', no '.', or its last '.' comes before
   * its last '/'; otherwise the text strictly between the two.
   */
  function ExtractFilename(path: string): (r: Option<string>)
    ensures r.Some? <==> '/' in path && '.' in path && RFind(path, '/').value < RFind(path, '.').value
    ensures r.Some? ==> '/' !in r.value
  {
    match RFind(path, '/')
    case None => None
    case Some(slash) =>
      match RFind(path, '.')
      case None => None
      case Some(dot) =>
        if slash < dot then
          assert forall i :: slash + 1 <= i < dot ==> path[i] == path[slash + 1..][i - slash - 1];
          Some(path[slash + 1..dot])
        else None
  }

  /** A name that was found splits the path into directory, '/', name, '.', extension. */
  lemma FilenameSplitsPath(path: string)
    requires ExtractFilename(path).Some?
    ensures exists dir, ext :: path == dir + "/" + ExtractFilename(path).value + "." + ext && '/' !in ext && '.' !in ext
  {
    var slash, dot := RFind(path, '/').value, RFind(path, '.').value;
    var name, ext := path[slash + 1..dot], path[dot + 1..];
    assert ExtractFilename(path).value == name;
    assert ext == path[slash + 1..][dot - slash..];
    SuffixLacks(path[slash + 1..], dot - slash, '/');
    TwoCuts(path, slash, dot);
    assert path == path[..slash] + "/" + name + "." + ext;
  }

  /** A string cut at two positions reads as the pieces around them. */
  lemma TwoCuts(s: string, i: nat, j: nat)
    requires i < j < |s|
    ensures s == s[..i] + [s[i]] + s[i + 1..j] + [s[j]] + s[j + 1..]
  {
    assert s == s[..i] + s[i..];
    assert s[i..] == [s[i]] + s[i + 1..j] + s[j..];
    assert s[j..] == [s[j]] + s[j + 1..];
  }

  lemma SuffixLacks(s: string, k: nat, c: char)
    requires k <= |s| && c !in s
    ensures c !in s[k..]
  {
  }

  /**
   * The inverse direction: a path built as directory, '/', name, '.',
   * extension gives back the name, provided neither the name nor the
   * extension holds a '/' and the extension holds no '.'.
   */
  lemma FilenameOfPath(dir: string, name: string, ext: string)
    requires '/' !in name && '/' !in ext && '.' !in ext
    ensures ExtractFilename(dir + "/" + name + "." + ext) == Some(name)
  {
    var path := dir + "/" + name + "." + ext;
    var slash, dot := |dir|, |dir| + 1 + |name|;
    assert path[slash] == '/' && path[dot] == '.';
    assert path[slash + 1..] == name + "." + ext;
    assert path[dot + 1..] == ext;
    LastAt(path, '/', slash);
    LastAt(path, '.', dot);
    assert path[slash + 1..dot] == name;
  }

  /** If `c` sits at `i` and not after it, `RFind` finds `i`. */
  lemma LastAt(s: string, c: char, i: nat)
    requires i < |s| && s[i] == c && c !in s[i + 1..]
    ensures RFind(s, c) == Some(i)
  {
  }
}
