/**
 * The `InstanceFields` websocket payload: a page name under "page" and the
 * page's present fields beside it. The reader collects the object into a
 * sorted map (a repeated key keeps its last value), takes "page" out,
 * lowercases it and parses the rest as the page's fields.
 */
module OptionMessage {
  import opened Wrappers
  import opened Strings
  import opened Json
  import opened OptionFields

  /** One page's changed fields. */
  datatype InstanceFields = OverviewPage(overview: OverviewFields) | SettingsPage(settings: SettingsFields)

  /** Why a payload was refused. */
  datatype MessageError = NotAMap | MissingPage | PageNotString | UnknownOption(name: string) | BadFields

  /** The `"page"` value written for each kind of payload. */
  function PageValue(x: InstanceFields): string {
    if x.OverviewPage? then "overview" else "settings"
  }

  /**
   * `Serialize`: "page" first, then the present fields in key order, as
   * they come out of `serde_json::to_value`.
   */
  function Serialize(x: InstanceFields): (r: seq<(string, Value)>)
    ensures |r| >= 1 && r[0] == ("page", Str(PageValue(x)))
  {
    match x
    case OverviewPage(f) => [("page", Str("overview"))] + SerializeOverviewFields(f)
    case SettingsPage(f) => [("page", Str("settings"))] + SerializeSettingsFields(f)
  }

  // ---- The map the reader collects ----

  /** The object's entries as a map; a repeated key keeps its last value. */
  function LastWins(fields: seq<(string, Value)>): (m: map<string, Value>)
    decreases |fields|
  {
    if |fields| == 0 then map[]
    else
      var init := fields[..|fields| - 1];
      LastWins(init)[fields[|fields| - 1].0 := fields[|fields| - 1].1]
  }

  /** Collecting a concatenation: the later part's entries win. */
  lemma {:induction false} LastWinsAppend(a: seq<(string, Value)>, b: seq<(string, Value)>)
    ensures LastWins(a + b) == LastWins(a) + LastWins(b)
    decreases |b|
  {
    if |b| == 0 {
      assert a + b == a;
    } else {
      var init := b[..|b| - 1];
      LastWinsAppend(a, init);
      assert (a + b)[..|a + b| - 1] == a + init;
    }
  }

  /** A repeated key keeps its last value. */
  lemma LastValueKept(k: string, x: Value, y: Value)
    ensures LastWins([(k, x), (k, y)]) == map[k := y]
  {
    LastWinsAppend([(k, x)], [(k, y)]);
    EntryCollects(k, Some(x));
    EntryCollects(k, Some(y));
  }

  /**
   * The fields read from a map: each key of `keys` present in `m` is put
   * into the record in turn; None when a value has the wrong type.
   */
  function FieldsFromMap<F>(m: map<string, Value>, keys: seq<string>, acc: F, set_: (F, string, Value) -> Option<F>): Option<F>
    decreases |keys|
  {
    if |keys| == 0 then Some(acc)
    else
      var next := if keys[0] in m then set_(acc, keys[0], m[keys[0]]) else Some(acc);
      if next.None? then None else FieldsFromMap(m, keys[1..], next.value, set_)
  }

  const OverviewKeyOrder: seq<string> := ["export_type", "name", "playtime", "tags"]

  /**
   * `serde_json::from_value::<OverviewFields>` of the remaining map: every
   * key must be a field (`deny_unknown_fields`) and every value must have
   * its field's type.
   */
  function OverviewFromMap(m: map<string, Value>): (r: Option<OverviewFields>)
    ensures !(m.Keys <= OverviewKeys) ==> r.None?
  {
    if m.Keys <= OverviewKeys then FieldsFromMap(m, OverviewKeyOrder, NoOverviewChanges, SetOverviewField) else None
  }

  /** `serde_json::from_value::<SettingsFields>` of the remaining map. */
  function SettingsFromMap(m: map<string, Value>): (r: Option<SettingsFields>)
    ensures !(m.Keys <= SettingsKeys) ==> r.None?
  {
    if m.Keys <= SettingsKeys then FieldsFromMap(m, ["dir"], SettingsFields(None), SetSettingsField) else None
  }

  /** The page name, lowercased, and the other entries. */
  function SplitPage(v: Value): (r: Result<(string, map<string, Value>), MessageError>)
    ensures r.Ok? ==> v.Obj? && "page" in LastWins(v.fields) && LastWins(v.fields)["page"] == Str(r.value.0)
                      && r.value.1 == LastWins(v.fields) - {"page"}
    ensures !v.Obj? ==> r == Err(NotAMap)
    ensures v.Obj? && "page" !in LastWins(v.fields) ==> r == Err(MissingPage)
  {
    if !v.Obj? then Err(NotAMap)
    else
      var m := LastWins(v.fields);
      if "page" !in m then Err(MissingPage)
      else if !m["page"].Str? then Err(PageNotString)
      else Ok((m["page"].s, m - {"page"}))
  }

  /**
   * `Deserialize` as written: only the page value "page" (in any case) is
   * accepted, and it reads the overview fields; every other value, "overview"
   * and "settings" included, is an unknown option.
   */
  function DeserializeAsWritten(v: Value): (r: Result<InstanceFields, MessageError>)
    ensures r.Ok? ==> r.value.OverviewPage? && SplitPage(v).Ok? && Lower(SplitPage(v).value.0) == "page"
    ensures SplitPage(v).Ok? && Lower(SplitPage(v).value.0) != "page" ==> r == Err(UnknownOption(Lower(SplitPage(v).value.0)))
  {
    match SplitPage(v)
    case Err(e) => Err(e)
    case Ok((page, rest)) =>
      var name := Lower(page);
      if name == "page" then
        match OverviewFromMap(rest)
        case Some(f) => Ok(OverviewPage(f))
        case None => Err(BadFields)
      else Err(UnknownOption(name))
  }

  /** Nothing the serialiser writes can be read back by the reader as written. */
  lemma SerializedNeverReadBack(x: InstanceFields)
    ensures DeserializeAsWritten(Obj(Serialize(x))) == Err(UnknownOption(PageValue(x)))
  {
    PageOfSerialized(x);
    PageValueIsLower(x);
  }

  /** The page values are lowercase already, and neither is the keyword "page". */
  lemma PageValueIsLower(x: InstanceFields)
    ensures Lower(PageValue(x)) == PageValue(x)
    ensures PageValue(x) != "page" && (PageValue(x) == "overview" <==> x.OverviewPage?)
  {
    LowerOfNoUpper(PageValue(x));
    assert "overview"[0] != "settings"[0];
  }

  /** The map one entry collects into. */
  function EntryMap(k: string, v: Option<Value>): (m: map<string, Value>)
    ensures m.Keys <= {k}
  {
    if v.Some? then map[k := v.value] else map[]
  }

  lemma EntryCollects(k: string, v: Option<Value>)
    ensures LastWins(Entry(k, v)) == EntryMap(k, v)
  {
    if v.Some? {
      assert Entry(k, v)[..0] == [];
    }
  }

  /** The map the present overview fields collect into. */
  function OverviewMap(f: OverviewFields): (m: map<string, Value>)
    ensures m.Keys <= OverviewKeys
  {
    EntryMap("export_type", ExportValue(f)) + (EntryMap("name", NameValue(f))
      + (EntryMap("playtime", PlaytimeValue(f)) + EntryMap("tags", TagsValue(f))))
  }

  lemma OverviewCollects(f: OverviewFields)
    ensures LastWins(SerializeOverviewFields(f)) == OverviewMap(f)
  {
    var e, n := Entry("export_type", ExportValue(f)), Entry("name", NameValue(f));
    var p, t := Entry("playtime", PlaytimeValue(f)), Entry("tags", TagsValue(f));
    LastWinsAppend(p, t);
    LastWinsAppend(n, p + t);
    LastWinsAppend(e, n + (p + t));
    EntryCollects("export_type", ExportValue(f));
    EntryCollects("name", NameValue(f));
    EntryCollects("playtime", PlaytimeValue(f));
    EntryCollects("tags", TagsValue(f));
  }

  /** The map the present settings fields collect into. */
  function SettingsMap(f: SettingsFields): (m: map<string, Value>)
    ensures m.Keys <= SettingsKeys
  {
    EntryMap("dir", if f.dir.Some? then Some(Str(f.dir.value)) else None)
  }

  lemma SettingsCollects(f: SettingsFields)
    ensures LastWins(SerializeSettingsFields(f)) == SettingsMap(f)
  {
    EntryCollects("dir", if f.dir.Some? then Some(Str(f.dir.value)) else None);
  }

  /** The fields' own map: the "page" entry first, then the fields. */
  function FieldsMap(x: InstanceFields): (m: map<string, Value>)
    ensures "page" !in m
  {
    if x.OverviewPage? then OverviewMap(x.overview) else SettingsMap(x.settings)
  }

  /** A payload with page value `page` before the fields splits into that value and the fields' map. */
  lemma SplitOfPayload(page: string, x: InstanceFields)
    ensures var v := Obj([("page", Str(page))] + Serialize(x)[1..]);
            SplitPage(v) == Ok((page, FieldsMap(x)))
  {
    var rest := Serialize(x)[1..];
    if x.OverviewPage? {
      assert rest == SerializeOverviewFields(x.overview);
      OverviewCollects(x.overview);
    } else {
      assert rest == SerializeSettingsFields(x.settings);
      SettingsCollects(x.settings);
    }
    SplitOfEntries(page, rest, FieldsMap(x));
  }

  /** "page" put before entries that collect into a map without "page". */
  lemma SplitOfEntries(page: string, rest: seq<(string, Value)>, m: map<string, Value>)
    requires LastWins(rest) == m && "page" !in m
    ensures SplitPage(Obj([("page", Str(page))] + rest)) == Ok((page, m))
  {
    LastWinsAppend([("page", Str(page))], rest);
    EntryCollects("page", Some(Str(page)));
    assert map["page" := Str(page)] + m - {"page"} == m;
  }

  /** The page value of a serialised payload is its page name, and the rest is its fields. */
  lemma PageOfSerialized(x: InstanceFields)
    ensures SplitPage(Obj(Serialize(x))) == Ok((PageValue(x), FieldsMap(x)))
  {
    SplitOfPayload(PageValue(x), x);
    assert Serialize(x) == [("page", Str(PageValue(x)))] + Serialize(x)[1..];
  }

  /** Only the keyword "page" (any case) reaches the overview fields. */
  lemma PageKeywordReadsOverview(f: OverviewFields)
    ensures DeserializeAsWritten(Obj([("page", Str("PAGE"))] + SerializeOverviewFields(f))) == Ok(OverviewPage(f))
  {
    SplitOfPayload("PAGE", OverviewPage(f));
    assert Serialize(OverviewPage(f))[1..] == SerializeOverviewFields(f);
    assert Lower("PAGE") == "page";
    OverviewMapRoundTrip(f);
  }

  // ---- The evidently intended reader ----

  /**
   * `Deserialize` with the page values the serialiser writes: "overview"
   * reads the overview fields and "settings" the settings fields.
   */
  function Deserialize(v: Value): (r: Result<InstanceFields, MessageError>)
    ensures r.Ok? ==> SplitPage(v).Ok? && Lower(SplitPage(v).value.0) == PageValue(r.value)
    ensures SplitPage(v).Ok? && Lower(SplitPage(v).value.0) != "overview" && Lower(SplitPage(v).value.0) != "settings"
            ==> r == Err(UnknownOption(Lower(SplitPage(v).value.0)))
    ensures SplitPage(v).Err? ==> r == Err(SplitPage(v).error)
  {
    match SplitPage(v)
    case Err(e) => Err(e)
    case Ok((page, rest)) =>
      var name := Lower(page);
      if name == "overview" then
        match OverviewFromMap(rest)
        case Some(f) => Ok(OverviewPage(f))
        case None => Err(BadFields)
      else if name == "settings" then
        match SettingsFromMap(rest)
        case Some(f) => Ok(SettingsPage(f))
        case None => Err(BadFields)
      else Err(UnknownOption(name))
  }

  /** The overview fields' map reads back as the same fields. */
  lemma OverviewMapRoundTrip(f: OverviewFields)
    ensures OverviewFromMap(OverviewMap(f)) == Some(f)
  {
    var m := OverviewMap(f);
    var f1 := NoOverviewChanges.(exportType := f.exportType);
    var f2 := f1.(name := f.name);
    var f3 := f2.(playtime := f.playtime);
    OverviewMapAt(f);
    ExportStep(f, NoOverviewChanges);
    NameStep(f, f1, {});
    PlaytimeStep(f, f2, {});
    TagsStep(f, f3, {});
    var S := SetOverviewField;
    assert FieldsFromMap(m, [], f, S) == Some(f);
    assert FieldsFromMap(m, ["tags"], f3, S) == Some(f) by {
      assert ["tags"][1..] == [];
    }
    assert FieldsFromMap(m, ["playtime", "tags"], f2, S) == Some(f) by {
      assert ["playtime", "tags"][1..] == ["tags"];
    }
    assert FieldsFromMap(m, ["name", "playtime", "tags"], f1, S) == Some(f) by {
      assert ["name", "playtime", "tags"][1..] == ["playtime", "tags"];
    }
    assert OverviewKeyOrder[1..] == ["name", "playtime", "tags"];
  }

  /** Where each overview field sits in the fields' map. */
  lemma OverviewMapAt(f: OverviewFields)
    ensures ("export_type" in OverviewMap(f) <==> f.exportType.Some?) && (f.exportType.Some? ==> OverviewMap(f)["export_type"] == ExportValue(f).value)
    ensures ("name" in OverviewMap(f) <==> f.name.Some?) && (f.name.Some? ==> OverviewMap(f)["name"] == NameValue(f).value)
    ensures ("playtime" in OverviewMap(f) <==> f.playtime.Some?) && (f.playtime.Some? ==> OverviewMap(f)["playtime"] == PlaytimeValue(f).value)
    ensures ("tags" in OverviewMap(f) <==> f.tags.Some?) && (f.tags.Some? ==> OverviewMap(f)["tags"] == TagsValue(f).value)
  {
    NameStep(f, f, {"export_type"});
    PlaytimeStep(f, f, {"export_type", "name"});
    TagsStep(f, f, {"export_type", "name", "playtime"});
  }

  /** The settings fields' map reads back as the same fields. */
  lemma SettingsMapRoundTrip(f: SettingsFields)
    ensures SettingsFromMap(SettingsMap(f)) == Some(f)
  {
    assert ["dir"][1..] == [];
  }

  /** With the intended reader, every payload reads back as written. */
  lemma RoundTrip(x: InstanceFields)
    ensures Deserialize(Obj(Serialize(x))) == Ok(x)
  {
    PageOfSerialized(x);
    PageValueIsLower(x);
    if x.OverviewPage? {
      OverviewMapRoundTrip(x.overview);
    } else {
      SettingsMapRoundTrip(x.settings);
    }
  }

  /** A payload without "page" is refused before anything else is read. */
  lemma MissingPageRefused(f: OverviewFields)
    ensures Deserialize(Obj(SerializeOverviewFields(f))) == Err(MissingPage)
    ensures DeserializeAsWritten(Obj(SerializeOverviewFields(f))) == Err(MissingPage)
  {
    NoPageEntry(f);
  }

  lemma NoPageEntry(f: OverviewFields)
    ensures SplitPage(Obj(SerializeOverviewFields(f))) == Err(MissingPage)
  {
    OverviewCollects(f);
    assert "page" !in OverviewMap(f);
  }

  /** "page" is taken out first, so any other unknown key makes the fields fail. */
  lemma UnknownKeyRefused(k: string, x: Value)
    requires k !in OverviewKeys && k != "page"
    ensures Deserialize(Obj([("page", Str("overview")), (k, x)])) == Err(BadFields)
  {
    var fields := [("page", Str("overview")), (k, x)];
    LastWinsAppend([("page", Str("overview"))], [(k, x)]);
    EntryCollects("page", Some(Str("overview")));
    EntryCollects(k, Some(x));
    assert LastWins(fields) == map["page" := Str("overview"), k := x];
    assert k in SplitPage(Obj(fields)).value.1;
    LowerOfNoUpper("overview");
  }
}
