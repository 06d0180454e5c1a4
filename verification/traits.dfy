/** `StartupTraits::extract`: the launch traits a Prism manifest asks for under "+traits". */
module StartupTraits {
  import opened Wrappers
  import opened Json

  datatype StartupTrait = FirstThreadOnMacOS

  datatype StartupTraitsError = TraitsNotFound

  /** How many entries are the string "FirstThreadOnMacOS". */
  function CountFirstThread(items: seq<Value>): nat
    decreases |items|
  {
    if |items| == 0 then 0
    else CountFirstThread(items[..|items| - 1]) + (if items[|items| - 1] == Str("FirstThreadOnMacOS") then 1 else 0)
  }

  lemma {:induction false} CountFirstThreadPositive(items: seq<Value>)
    ensures CountFirstThread(items) > 0 <==> Str("FirstThreadOnMacOS") in items
    decreases |items|
  {
    if |items| > 0 {
      var init := items[..|items| - 1];
      CountFirstThreadPositive(init);
      assert items == init + [items[|items| - 1]];
    }
  }

  /**
   * The matched traits: one `FirstThreadOnMacOS` per matching entry, in
   * order, duplicates kept. The push is compiled only for macOS targets, so
   * elsewhere nothing matches.
   */
  method Matched(items: seq<Value>, targetIsMacOs: bool) returns (matched: seq<StartupTrait>)
    ensures |matched| == if targetIsMacOs then CountFirstThread(items) else 0
  {
    matched := [];
    for i := 0 to |items|
      invariant |matched| == if targetIsMacOs then CountFirstThread(items[..i]) else 0
    {
      assert items[..i + 1][..i] == items[..i];
      match items[i]
      case Str(s) =>
        if s == "FirstThreadOnMacOS" && targetIsMacOs {
          matched := matched + [FirstThreadOnMacOS];
        }
      case _ =>
    }
    assert items[..|items|] == items;
  }

  /**
   * `extract`: Ok with the matched traits when at least one entry matched,
   * `TraitsNotFound` otherwise, including when "+traits" is missing or not
   * an array. The target OS is a parameter.
   */
  method Extract(manifest: Value, targetIsMacOs: bool) returns (r: Result<seq<StartupTrait>, StartupTraitsError>)
    ensures r.Ok? <==> targetIsMacOs && Get(manifest, "+traits").Some? && Get(manifest, "+traits").value.Arr?
                       && Str("FirstThreadOnMacOS") in Get(manifest, "+traits").value.items
    ensures r.Err? ==> r.error == TraitsNotFound
    ensures r.Ok? ==> |r.value| == CountFirstThread(Get(manifest, "+traits").value.items)
  {
    var matched := [];
    match Get(manifest, "+traits") {
      case Some(Arr(items)) =>
        matched := Matched(items, targetIsMacOs);
        CountFirstThreadPositive(items);
      case _ =>
    }
    if |matched| > 0 {
      return Ok(matched);
    }
    return Err(TraitsNotFound);
  }
}
