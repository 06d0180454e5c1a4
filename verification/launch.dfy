/**
 * Assembling a launch: `LaunchInfoBuilder` collects the classpath, the
 * natives, the main class and the game arguments, `build` freezes them into
 * a `LaunchInfo`, and `define_launch_args` lays them out as the JVM's
 * command line.
 */
module Launch {
  import opened Wrappers
  import opened Json
  import opened Seqs
  import opened Paths
  import opened LaunchArgs

  datatype Builder = Builder(classpath: seq<string>, nativeLibs: seq<Path>, mainClass: Option<string>,
                             gameArgs: map<string, string>)

  datatype LaunchInfo = LaunchInfo(classpath: string, nativeLibs: seq<Path>, mainClass: Option<string>,
                                   gameArgs: map<string, string>)

  /** `LaunchInfoBuilder::new`: everything empty. */
  function NewBuilder(): Builder {
    Builder([], [], None, map[])
  }

  /** `set_main_class`: the class replaces any earlier one. */
  function SetMainClass(b: Builder, name: string): (r: Builder)
    ensures r.mainClass == Some(name)
    ensures r.classpath == b.classpath && r.nativeLibs == b.nativeLibs && r.gameArgs == b.gameArgs
  {
    b.(mainClass := Some(name))
  }

  /** `add_cp`: one more classpath entry at the end. */
  function AddCp(b: Builder, path: string): (r: Builder)
    ensures |r.classpath| == |b.classpath| + 1 && r.classpath[..|b.classpath|] == b.classpath
    ensures r.classpath[|b.classpath|] == path
    ensures r.nativeLibs == b.nativeLibs && r.mainClass == b.mainClass && r.gameArgs == b.gameArgs
  {
    b.(classpath := b.classpath + [path])
  }

  /** `add_cps`: the entries one by one, in iteration order, as `add_cp` would add them. */
  method AddCps(b: Builder, paths: seq<string>) returns (r: Builder)
    ensures r.classpath == b.classpath + paths
    ensures r.nativeLibs == b.nativeLibs && r.mainClass == b.mainClass && r.gameArgs == b.gameArgs
  {
    r := b;
    for i := 0 to |paths|
      invariant r.classpath == b.classpath + paths[..i]
      invariant r.nativeLibs == b.nativeLibs && r.mainClass == b.mainClass && r.gameArgs == b.gameArgs
    {
      assert paths[..i + 1] == paths[..i] + [paths[i]];
      r := AddCp(r, paths[i]);
    }
    assert paths[..|paths|] == paths;
  }

  /** `set_args`: the whole map is replaced, not merged. */
  function SetArgs(b: Builder, m: map<string, string>): (r: Builder)
    ensures r.gameArgs == m
    ensures r.classpath == b.classpath && r.nativeLibs == b.nativeLibs && r.mainClass == b.mainClass
  {
    b.(gameArgs := m)
  }

  /** `add_arg`: the key is inserted or overwritten; no other key changes. */
  function AddArg(b: Builder, key: string, val: string): (r: Builder)
    ensures key in r.gameArgs && r.gameArgs[key] == val
    ensures r.gameArgs.Keys == b.gameArgs.Keys + {key}
    ensures forall k :: k in b.gameArgs && k != key ==> r.gameArgs[k] == b.gameArgs[k]
    ensures r.classpath == b.classpath && r.nativeLibs == b.nativeLibs && r.mainClass == b.mainClass
  {
    b.(gameArgs := b.gameArgs[key := val])
  }

  /** `rm_arg`: the key is gone and its previous value, if any, is returned. */
  function RmArg(b: Builder, key: string): (r: (Builder, Option<string>))
    ensures r.1 == (if key in b.gameArgs then Some(b.gameArgs[key]) else None)
    ensures r.0.gameArgs.Keys == b.gameArgs.Keys - {key}
    ensures forall k :: k in r.0.gameArgs ==> r.0.gameArgs[k] == b.gameArgs[k]
    ensures r.0.classpath == b.classpath && r.0.nativeLibs == b.nativeLibs && r.0.mainClass == b.mainClass
  {
    (b.(gameArgs := b.gameArgs - {key}), if key in b.gameArgs then Some(b.gameArgs[key]) else None)
  }

  /** Removing what was just added gives back its value and the builder as it was without that key. */
  lemma RmUndoesAdd(b: Builder, key: string, val: string)
    ensures RmArg(AddArg(b, key, val), key).1 == Some(val)
    ensures key !in b.gameArgs ==> RmArg(AddArg(b, key, val), key).0 == b
  {
    if key !in b.gameArgs {
      assert RmArg(AddArg(b, key, val), key).0.gameArgs == b.gameArgs;
    }
  }

  /** `set_arg_value`: the path is stored under the kind's "${...}" placeholder. */
  function SetArgValue(b: Builder, t: ArgType, path: string): (r: Builder)
    ensures ValuePlaceholder(t) in r.gameArgs && r.gameArgs[ValuePlaceholder(t)] == path
    ensures r.gameArgs.Keys == b.gameArgs.Keys + {ValuePlaceholder(t)}
    ensures forall k :: k in b.gameArgs && k != ValuePlaceholder(t) ==> r.gameArgs[k] == b.gameArgs[k]
  {
    AddArg(b, ValuePlaceholder(t), path)
  }

  /** `add_natives`: the list is replaced, not extended. */
  function AddNatives(b: Builder, natives: seq<Path>): (r: Builder)
    ensures r.nativeLibs == natives
    ensures r.classpath == b.classpath && r.mainClass == b.mainClass && r.gameArgs == b.gameArgs
  {
    b.(nativeLibs := natives)
  }

  /** The keys of a list of (key, value) entries. */
  function EntryKeys(entries: seq<(string, string)>): set<string> {
    set i | 0 <= i < |entries| :: entries[i].0
  }

  /**
   * The `entry(key).or_insert(value)` loop of `fill_defauls`: an absent key
   * gets its entry's value, a present one keeps its own.
   */
  function OrInsertAll(m: map<string, string>, entries: seq<(string, string)>): (r: map<string, string>)
    requires forall i, j :: 0 <= i < j < |entries| ==> entries[i].0 != entries[j].0
    ensures r.Keys == m.Keys + EntryKeys(entries)
    ensures forall k :: k in m ==> r[k] == m[k]
    ensures forall i :: 0 <= i < |entries| && entries[i].0 !in m ==> r[entries[i].0] == entries[i].1
    decreases |entries|
  {
    if |entries| == 0 then m
    else
      var init := entries[..|entries| - 1];
      var (k, v) := entries[|entries| - 1];
      var prev := OrInsertAll(m, init);
      EntryKeysSnoc(entries);
      assert forall i :: 0 <= i < |init| ==> init[i] == entries[i];
      if k in prev then prev else prev[k := v]
  }

  /** The last entry's key joins the keys of the others, and is none of them. */
  lemma EntryKeysSnoc(entries: seq<(string, string)>)
    requires |entries| > 0
    requires forall i, j :: 0 <= i < j < |entries| ==> entries[i].0 != entries[j].0
    ensures EntryKeys(entries) == EntryKeys(entries[..|entries| - 1]) + {entries[|entries| - 1].0}
    ensures entries[|entries| - 1].0 !in EntryKeys(entries[..|entries| - 1])
  {
    var init := entries[..|entries| - 1];
    assert forall i :: 0 <= i < |init| ==> init[i] == entries[i];
  }

  /** A second pass over the same entries inserts nothing. */
  lemma OrInsertAllIdempotent(m: map<string, string>, entries: seq<(string, string)>)
    requires forall i, j :: 0 <= i < j < |entries| ==> entries[i].0 != entries[j].0
    ensures OrInsertAll(OrInsertAll(m, entries), entries) == OrInsertAll(m, entries)
  {
    var once := OrInsertAll(m, entries);
    assert OrInsertAll(once, entries).Keys == once.Keys;
  }

  /** Each kind's placeholder with its default value, in `ArgType::iter` order. */
  function DefaultEntries(defaults: ArgType -> string): (r: seq<(string, string)>)
    ensures |r| == |AllArgTypes|
    ensures forall i :: 0 <= i < |r| ==> r[i] == (ValuePlaceholder(AllArgTypes[i]), defaults(AllArgTypes[i]))
    ensures forall i, j :: 0 <= i < j < |r| ==> r[i].0 != r[j].0
  {
    var r := seq(|AllArgTypes|, i requires 0 <= i < |AllArgTypes| => (ValuePlaceholder(AllArgTypes[i]), defaults(AllArgTypes[i])));
    forall i, j | 0 <= i < j < |r| ensures r[i].0 != r[j].0 {
      AllArgTypesComplete(AllArgTypes[i]);
      PlaceholderInjective(AllArgTypes[i], AllArgTypes[j]);
    }
    r
  }

  /**
   * `fill_defauls`: every kind's placeholder ends up present; values already
   * there are never overwritten. `defaults` stands for `get_default_value`.
   */
  function FillDefaults(b: Builder, defaults: ArgType -> string): (r: Builder)
    ensures forall t :: ValuePlaceholder(t) in r.gameArgs
    ensures forall k :: k in b.gameArgs ==> k in r.gameArgs && r.gameArgs[k] == b.gameArgs[k]
    ensures forall t :: ValuePlaceholder(t) !in b.gameArgs ==> r.gameArgs[ValuePlaceholder(t)] == defaults(t)
    ensures forall k :: k in r.gameArgs ==> k in b.gameArgs || exists t :: k == ValuePlaceholder(t)
    ensures r.classpath == b.classpath && r.nativeLibs == b.nativeLibs && r.mainClass == b.mainClass
  {
    var entries := DefaultEntries(defaults);
    var r := b.(gameArgs := OrInsertAll(b.gameArgs, entries));
    forall t ensures ValuePlaceholder(t) in EntryKeys(entries) && (ValuePlaceholder(t) !in b.gameArgs ==> r.gameArgs[ValuePlaceholder(t)] == defaults(t)) {
      var i := DefaultEntryOf(defaults, t);
    }
    DefaultKeysArePlaceholders(defaults);
    r
  }

  /** Every kind has its entry among the defaults. */
  lemma DefaultEntryOf(defaults: ArgType -> string, t: ArgType) returns (i: nat)
    ensures i < |DefaultEntries(defaults)| && DefaultEntries(defaults)[i] == (ValuePlaceholder(t), defaults(t))
  {
    AllArgTypesComplete(t);
    i :| 0 <= i < |AllArgTypes| && AllArgTypes[i] == t;
  }

  /** The defaults only name placeholders. */
  lemma DefaultKeysArePlaceholders(defaults: ArgType -> string)
    ensures forall k :: k in EntryKeys(DefaultEntries(defaults)) ==> exists t :: k == ValuePlaceholder(t)
  {
    var entries := DefaultEntries(defaults);
    forall k | k in EntryKeys(entries) ensures exists t :: k == ValuePlaceholder(t) {
      var i :| 0 <= i < |entries| && entries[i].0 == k;
      assert k == ValuePlaceholder(AllArgTypes[i]);
    }
  }

  /** Filling twice is filling once. */
  lemma FillDefaultsIdempotent(b: Builder, defaults: ArgType -> string)
    ensures FillDefaults(FillDefaults(b, defaults), defaults) == FillDefaults(b, defaults)
  {
    OrInsertAllIdempotent(b.gameArgs, DefaultEntries(defaults));
  }

  /** `build`: the classpath entries concatenated in order, with no separator added. */
  method Build(b: Builder) returns (info: LaunchInfo)
    ensures info.classpath == Concat(b.classpath)
    ensures info.nativeLibs == b.nativeLibs && info.mainClass == b.mainClass && info.gameArgs == b.gameArgs
  {
    var classpath := "";
    for i := 0 to |b.classpath|
      invariant classpath == Concat(b.classpath[..i])
    {
      assert b.classpath[..i + 1][..i] == b.classpath[..i];
      classpath := classpath + b.classpath[i];
    }
    assert b.classpath[..|b.classpath|] == b.classpath;
    info := LaunchInfo(classpath, b.nativeLibs, b.mainClass, b.gameArgs);
  }

  /** One more `add_cp` puts its text at the end of the built classpath. */
  lemma BuildAfterAddCp(b: Builder, path: string)
    ensures Concat(AddCp(b, path).classpath) == Concat(b.classpath) + path
  {
    assert AddCp(b, path).classpath[..|b.classpath|] == b.classpath;
  }

  /** A fresh builder builds an empty classpath, no arguments and no main class. */
  lemma FreshBuildsEmpty()
    ensures Concat(NewBuilder().classpath) == ""
    ensures NewBuilder().gameArgs == map[] && NewBuilder().mainClass == None
  {
  }

  /** The fixed JVM options every launch starts with. */
  const JvmFlags: seq<string> := [
    "-XX:+UnlockExperimentalVMOptions",
    "-XX:+UseG1GC",
    "-XX:G1NewSizePercent=20",
    "-XX:G1ReservePercent=20",
    "-XX:MaxGCPauseMillis=50",
    "-XX:G1HeapRegionSize=32M",
    "-XX:+DisableExplicitGC",
    "-XX:+AlwaysPreTouch",
    "-XX:+ParallelRefProcEnabled",
    "-Xms512M",
    "-Xmx1024M",
    "-Dfile.encoding=UTF-8",
    "-Dfml.ignoreInvalidMinecraftCertificates=true",
    "-Dfml.ignorePatchDiscrepancies=true",
    "-Djava.net.useSystemProxies=true"
  ]

  /** The flags, "-XstartOnFirstThread", and the classpath after "-cp". */
  function Prelude(classpath: string): (r: seq<string>)
    ensures |r| == 18 && r[..15] == JvmFlags
    ensures r[15] == "-XstartOnFirstThread" && r[16] == "-cp" && r[17] == classpath
  {
    JvmFlags + ["-XstartOnFirstThread", "-cp", classpath]
  }

  /** Only the classpath differs between two preludes. */
  lemma PreludesAgree(a: string, b: string)
    ensures Prelude(a)[..17] == Prelude(b)[..17]
  {
    assert Prelude(a)[..17] == JvmFlags + ["-XstartOnFirstThread", "-cp"];
    assert Prelude(b)[..17] == JvmFlags + ["-XstartOnFirstThread", "-cp"];
  }

  /** The builder's main class, else the manifest's string "mainClass", else none. */
  function MainClass(info: LaunchInfo, manifest: Value): (r: seq<string>)
    ensures info.mainClass.Some? ==> r == [info.mainClass.value]
    ensures info.mainClass.None? ==> r == OptionToSeq(StrAt(manifest, "mainClass"))
    ensures |r| <= 1
  {
    match info.mainClass
    case Some(c) => [c]
    case None => OptionToSeq(StrAt(manifest, "mainClass"))
  }

  /** Each game argument as its key followed by its value, in map iteration order `order`. */
  function Pairs(order: seq<string>, args: map<string, string>): (r: seq<string>)
    requires forall i :: 0 <= i < |order| ==> order[i] in args
    ensures |r| == 2 * |order|
    ensures forall i :: 0 <= i < |order| ==> r[2 * i] == order[i] && r[2 * i + 1] == args[order[i]]
    decreases |order|
  {
    if |order| == 0 then []
    else
      var init := order[..|order| - 1];
      var k := order[|order| - 1];
      var prev := Pairs(init, args);
      prev + [k, args[k]]
  }

  /**
   * `define_launch_args`: the JVM flags, "-XstartOnFirstThread", "-cp" and
   * the classpath, the main class when there is one, every game argument
   * as key then value, and an empty "--accessToken". `order` is the game
   * argument map's iteration order.
   */
  function DefineLaunchArgs(manifest: Value, info: LaunchInfo, order: seq<string>): (r: seq<string>)
    requires EnumeratesKeys(order, info.gameArgs)
    ensures var m := |MainClass(info, manifest)|;
      && |r| == 20 + m + 2 * |order|
      && r[..18] == Prelude(info.classpath)
      && r[18..18 + m] == MainClass(info, manifest)
      && r[18 + m..|r| - 2] == Pairs(order, info.gameArgs)
      && r[|r| - 2] == "--accessToken" && r[|r| - 1] == ""
  {
    var main := MainClass(info, manifest);
    var head := Prelude(info.classpath) + main;
    var tail := ["--accessToken", ""];
    var pairs := Pairs(order, info.gameArgs);
    var r := head + pairs + tail;
    assert |head| == 18 + |main|;
    assert r[..18] == head[..18] == Prelude(info.classpath);
    assert r[18..18 + |main|] == head[18..] == main;
    assert r[18 + |main|..|r| - 2] == pairs;
    r
  }

  /** From `at` on, `r` holds each key of `order` at an even offset and its value right after. */
  predicate PairedFrom(r: seq<string>, at: nat, order: seq<string>, args: map<string, string>)
    requires forall i :: 0 <= i < |order| ==> order[i] in args
  {
    && at + 2 * |order| <= |r|
    && forall i :: 0 <= i < |order| ==> r[at + 2 * i] == order[i] && r[at + 2 * i + 1] == args[order[i]]
  }

  /** `Pairs` placed at `at` lays the pairs out from there. */
  lemma PairsFrom(r: seq<string>, at: nat, order: seq<string>, args: map<string, string>)
    requires forall i :: 0 <= i < |order| ==> order[i] in args
    requires at + 2 * |order| <= |r| && r[at..at + 2 * |order|] == Pairs(order, args)
    ensures PairedFrom(r, at, order, args)
  {
    var pairs := Pairs(order, args);
    forall i | 0 <= i < |order| ensures r[at + 2 * i] == order[i] && r[at + 2 * i + 1] == args[order[i]] {
      assert r[at + 2 * i] == pairs[2 * i];
      assert r[at + 2 * i + 1] == pairs[2 * i + 1];
    }
  }

  /** The command line holds one key and one value per game argument, besides the 20 fixed entries and the main class. */
  lemma ArgumentCount(manifest: Value, info: LaunchInfo, order: seq<string>)
    requires EnumeratesKeys(order, info.gameArgs)
    ensures |DefineLaunchArgs(manifest, info, order)| == 20 + |MainClass(info, manifest)| + 2 * |info.gameArgs|
  {
    EnumerationLength(order, info.gameArgs);
  }

  /** The game arguments follow the main class as key, value, key, value, in iteration order. */
  lemma ArgumentsInPairs(manifest: Value, info: LaunchInfo, order: seq<string>)
    requires EnumeratesKeys(order, info.gameArgs)
    ensures PairedFrom(DefineLaunchArgs(manifest, info, order), 18 + |MainClass(info, manifest)|, order, info.gameArgs)
  {
    var r := DefineLaunchArgs(manifest, info, order);
    var at := 18 + |MainClass(info, manifest)|;
    assert at + 2 * |order| == |r| - 2;
    PairsFrom(r, at, order, info.gameArgs);
  }

  /** Every game argument appears on the command line as its key immediately followed by its value. */
  lemma EveryArgumentPassed(manifest: Value, info: LaunchInfo, order: seq<string>, key: string)
    requires EnumeratesKeys(order, info.gameArgs)
    requires key in info.gameArgs
    ensures var r := DefineLaunchArgs(manifest, info, order);
      exists i :: 0 <= i < |r| - 1 && r[i] == key && r[i + 1] == info.gameArgs[key]
  {
    ArgumentsInPairs(manifest, info, order);
    AdjacentPair(DefineLaunchArgs(manifest, info, order), 18 + |MainClass(info, manifest)|, order, info.gameArgs, key);
  }

  /** A key laid out in key-value pairs from `at` on is followed by its value. */
  lemma AdjacentPair(r: seq<string>, at: nat, order: seq<string>, args: map<string, string>, key: string)
    requires forall i :: 0 <= i < |order| ==> order[i] in args
    requires PairedFrom(r, at, order, args)
    requires key in order
    ensures exists i :: 0 <= i < |r| - 1 && r[i] == key && r[i + 1] == args[key]
  {
    var j :| 0 <= j < |order| && order[j] == key;
    assert r[at + 2 * j] == key && r[at + 2 * j + 1] == args[key];
  }
}
