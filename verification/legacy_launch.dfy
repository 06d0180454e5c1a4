/**
 * The older `define_launch_args`: the same JVM prelude, the classpath
 * taken from the argument map, the manifest's main class, and the
 * manifest's own game arguments with every "${...}" placeholder replaced
 * from the argument map.
 */
module LegacyLaunch {
  import opened Wrappers
  import opened Strings
  import opened Json
  import opened LaunchArgs
  import opened Seqs
  import Launch

  /** The key the classpath is stored under. */
  const ClasspathKey: string := "${classpath_libs_directories}"

  /** An argument that starts with "${" is a placeholder. */
  predicate IsPlaceholder(arg: string)
    requires |arg| >= 2
  {
    arg[..2] == "${"
  }

  /**
   * One argument: a placeholder becomes its value in `info`, or " " when
   * `info` has none; anything else is copied. Slicing an argument shorter
   * than two bytes panics.
   */
  function Substitute(arg: string, info: map<string, string>): (r: string)
    requires |arg| >= 2
    ensures IsPlaceholder(arg) && arg in info ==> r == info[arg]
    ensures IsPlaceholder(arg) && arg !in info ==> r == " "
    ensures !IsPlaceholder(arg) ==> r == arg
  {
    if arg[..2] == "${" then (if arg in info then info[arg] else " ") else arg
  }

  /** A value stored with `set_arg_value` is what its placeholder turns into. */
  lemma SetValueIsSubstituted(b: Launch.Builder, t: ArgType, path: string)
    ensures Substitute(ValuePlaceholder(t), Launch.SetArgValue(b, t, path).gameArgs) == path
  {
  }

  /** The string entries of an array, in order; other entries are skipped. */
  function StringItems(items: seq<Value>): (r: seq<string>)
    ensures |r| <= |items|
    ensures forall s :: s in r <==> Str(s) in items
    ensures |items| == 1 ==> r == (if items[0].Str? then [items[0].s] else [])
    decreases |items|
  {
    if |items| == 0 then []
    else
      var init := items[..|items| - 1];
      var rest := StringItems(init);
      assert items == init + [items[|items| - 1]];
      rest + (match items[|items| - 1] case Str(s) => [s] case _ => [])
  }

  /** Entries are taken in order: the strings of a concatenation are the concatenated strings. */
  lemma {:induction false} StringItemsAppend(a: seq<Value>, b: seq<Value>)
    ensures StringItems(a + b) == StringItems(a) + StringItems(b)
    decreases |b|
  {
    if |b| == 0 {
      assert a + b == a;
    } else {
      var b' := b[..|b| - 1];
      assert (a + b)[..|a + b| - 1] == a + b';
      StringItemsAppend(a, b');
    }
  }

  /**
   * An "arguments" object has a "game" key. The source indexes the object
   * as a map, and a map index panics on a missing key.
   */
  predicate GameKeyPresent(manifest: Value) {
    At(manifest, "arguments").Obj? ==> Get(At(manifest, "arguments"), "game").Some?
  }

  /**
   * The raw game arguments: the strings of "arguments"."game" when
   * "arguments" is an object, otherwise the whitespace-separated words of
   * a string "minecraftArguments", otherwise none.
   */
  function GameArgs(manifest: Value): (r: seq<string>)
    requires GameKeyPresent(manifest)
    ensures var arguments := At(manifest, "arguments");
            arguments.Obj? ==>
              forall s :: s in r <==> AsArray(At(arguments, "game")).Some? && Str(s) in AsArray(At(arguments, "game")).value
    ensures var arguments := At(manifest, "arguments");
            !arguments.Obj? && StrAt(manifest, "minecraftArguments").Some? ==>
              r == SplitWhitespace(StrAt(manifest, "minecraftArguments").value)
    ensures !At(manifest, "arguments").Obj? && StrAt(manifest, "minecraftArguments").None? ==> r == []
  {
    var arguments := At(manifest, "arguments");
    if arguments.Obj? then
      match AsArray(At(arguments, "game"))
      case Some(items) => StringItems(items)
      case None => []
    else
      match StrAt(manifest, "minecraftArguments")
      case Some(s) => SplitWhitespace(s)
      case None => []
  }

  /** The game arguments can be read, and every one can be sliced: none is shorter than two bytes. */
  predicate Sliceable(manifest: Value) {
    && GameKeyPresent(manifest)
    && forall i :: 0 <= i < |GameArgs(manifest)| ==> |GameArgs(manifest)[i]| >= 2
  }

  /** The substituted arguments, in order. */
  function SubstituteAll(args: seq<string>, info: map<string, string>): (r: seq<string>)
    requires forall i :: 0 <= i < |args| ==> |args[i]| >= 2
    ensures |r| == |args|
    ensures forall i :: 0 <= i < |args| ==> r[i] == Substitute(args[i], info)
    decreases |args|
  {
    if |args| == 0 then []
    else
      var init := args[..|args| - 1];
      assert forall i :: 0 <= i < |init| ==> init[i] == args[i];
      SubstituteAll(init, info) + [Substitute(args[|args| - 1], info)]
  }

  /**
   * `define_launch_args` (legacy). The classpath lookup unwraps, so the
   * key must be present.
   */
  function DefineLaunchArgs(manifest: Value, info: map<string, string>): (r: seq<string>)
    requires ClasspathKey in info
    requires Sliceable(manifest)
    ensures var m := |OptionToSeq(StrAt(manifest, "mainClass"))|;
      && |r| == 18 + m + |GameArgs(manifest)|
      && r[..18] == Launch.Prelude(info[ClasspathKey])
      && r[18..18 + m] == OptionToSeq(StrAt(manifest, "mainClass"))
      && forall i :: 0 <= i < |GameArgs(manifest)| ==> r[18 + m + i] == Substitute(GameArgs(manifest)[i], info)
  {
    Launch.Prelude(info[ClasspathKey]) + OptionToSeq(StrAt(manifest, "mainClass"))
      + SubstituteAll(GameArgs(manifest), info)
  }

  /** Both versions start with the same 15 JVM flags, "-XstartOnFirstThread" and "-cp". */
  lemma SamePrelude(manifest: Value, info: map<string, string>, launch: Launch.LaunchInfo, order: seq<string>)
    requires ClasspathKey in info && Sliceable(manifest)
    requires EnumeratesKeys(order, launch.gameArgs)
    ensures DefineLaunchArgs(manifest, info)[..17] == Launch.DefineLaunchArgs(manifest, launch, order)[..17]
  {
    var a, b := DefineLaunchArgs(manifest, info), Launch.DefineLaunchArgs(manifest, launch, order);
    assert a[..17] == a[..18][..17];
    assert b[..17] == b[..18][..17];
    Launch.PreludesAgree(info[ClasspathKey], launch.classpath);
  }

  /** With an "arguments" object, "minecraftArguments" is never read. */
  lemma ArgumentsObjectWins(fields: seq<(string, Value)>, legacy: string)
    requires At(Obj(fields), "arguments").Obj? && GameKeyPresent(Obj(fields))
    ensures GameArgs(Obj(PutField(fields, "minecraftArguments", Str(legacy)))) == GameArgs(Obj(fields))
  {
    assert Lookup(PutField(fields, "minecraftArguments", Str(legacy)), "arguments") == Lookup(fields, "arguments");
  }
}
