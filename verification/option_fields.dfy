/**
 * The editable fields of the overview and settings pages: how a JSON
 * object of options is read into them (absent keys stay None, unknown keys
 * are refused), how they are written back out (None fields omitted), and
 * how an update merges them into a stored row (SQL COALESCE).
 */
module OptionFields {
  import opened Wrappers
  import opened Json
  import Pages

  /** A 64-bit signed integer, the type of ids and play time. */
  type I64 = x: int | -0x8000_0000_0000_0000 <= x < 0x8000_0000_0000_0000

  /** Why an options object was refused. */
  datatype FieldsError =
    | InvalidType
    | WrongLength(n: nat)
    | UnknownField(key: string)
    | DuplicateField(key: string)
    | InvalidValue(key: string)

  /**
   * The entries of an options object, read in order as a derived
   * `Deserialize` with `deny_unknown_fields` reads them: the first unknown
   * key, repeated key or ill-typed value stops the parse. `set` puts one
   * value into the record; None means the value has the wrong type.
   */
  function ParseEntries<F>(fields: seq<(string, Value)>, acc: F, seen: set<string>,
                           allowed: set<string>, set_: (F, string, Value) -> Option<F>): (r: Result<F, FieldsError>)
    ensures r.Err? ==> r.error.UnknownField? || r.error.DuplicateField? || r.error.InvalidValue?
    ensures (exists i :: 0 <= i < |fields| && fields[i].0 !in allowed) ==> r.Err?
    decreases |fields|
  {
    if |fields| == 0 then Ok(acc)
    else
      var (k, v) := fields[0];
      if k !in allowed then Err(UnknownField(k))
      else if k in seen then Err(DuplicateField(k))
      else match set_(acc, k, v)
        case None => Err(InvalidValue(k))
        case Some(acc') =>
          var r := ParseEntries(fields[1..], acc', seen + {k}, allowed, set_);
          assert forall i :: 1 <= i < |fields| ==> fields[i] == fields[1..][i - 1];
          r
  }

  /**
   * The elements of the sequence form, read by position: the i-th element
   * goes to the i-th declared field.
   */
  function ParsePositional<F>(keys: seq<string>, items: seq<Value>, acc: F, set_: (F, string, Value) -> Option<F>): (r: Result<F, FieldsError>)
    requires |keys| == |items|
    ensures r.Err? ==> r.error.InvalidValue? && r.error.key in keys
    decreases |items|
  {
    if |items| == 0 then Ok(acc)
    else match set_(acc, keys[0], items[0])
      case None => Err(InvalidValue(keys[0]))
      case Some(acc') => ParsePositional(keys[1..], items[1..], acc', set_)
  }

  /** The entries that pair each declared field with the element at its position. */
  function Zip(keys: seq<string>, items: seq<Value>): (r: seq<(string, Value)>)
    requires |keys| == |items|
    ensures |r| == |keys| && forall i :: 0 <= i < |r| ==> r[i] == (keys[i], items[i])
  {
    seq(|keys|, i requires 0 <= i < |keys| => (keys[i], items[i]))
  }

  /** No field is declared twice. */
  predicate Distinct(keys: seq<string>) {
    forall i, j :: 0 <= i < j < |keys| ==> keys[i] != keys[j]
  }

  /**
   * A whole options value, as a derived `Deserialize` reads a struct from
   * serde_json: a map of named fields, or a sequence holding exactly one
   * element per declared field, in declaration order. Anything else has
   * the wrong type.
   */
  function ParseObject<F>(v: Value, empty: F, allowed: set<string>, order: seq<string>, set_: (F, string, Value) -> Option<F>): (r: Result<F, FieldsError>)
    ensures !v.Obj? && !v.Arr? ==> r == Err(InvalidType)
    ensures v.Arr? && |v.items| != |order| ==> r == Err(WrongLength(|v.items|))
    ensures v.Obj? && (exists i :: 0 <= i < |v.fields| && v.fields[i].0 !in allowed) ==> r.Err?
  {
    if v.Obj? then ParseEntries(v.fields, empty, {}, allowed, set_)
    else if v.Arr? then
      (if |v.items| == |order| then ParsePositional(order, v.items, empty, set_) else Err(WrongLength(|v.items|)))
    else Err(InvalidType)
  }

  /**
   * Reading by position is reading the map that names each element by its
   * field: no key can be unknown or repeated when the fields are declared
   * once each and none has been seen yet.
   */
  lemma {:induction false} PositionalIsKeyed<F>(keys: seq<string>, items: seq<Value>, acc: F, seen: set<string>,
                                               allowed: set<string>, set_: (F, string, Value) -> Option<F>)
    requires |keys| == |items| && Distinct(keys)
    requires forall i :: 0 <= i < |keys| ==> keys[i] in allowed && keys[i] !in seen
    ensures ParsePositional(keys, items, acc, set_) == ParseEntries(Zip(keys, items), acc, seen, allowed, set_)
    decreases |items|
  {
    if |items| > 0 {
      var z := Zip(keys, items);
      assert z[0] == (keys[0], items[0]);
      assert z[1..] == Zip(keys[1..], items[1..]);
      if set_(acc, keys[0], items[0]).Some? {
        var acc' := set_(acc, keys[0], items[0]).value;
        assert forall i :: 0 <= i < |keys[1..]| ==> keys[1..][i] == keys[i + 1] && keys[i + 1] != keys[0];
        PositionalIsKeyed(keys[1..], items[1..], acc', seen + {keys[0]}, allowed, set_);
      }
    }
  }

  // ---- Overview ----

  /** `OverviewFields`: every field optional. */
  datatype OverviewFields = OverviewFields(name: Option<string>, tags: Option<string>,
                                           exportType: Option<Pages.ExportTypes>, playtime: Option<I64>)

  const NoOverviewChanges: OverviewFields := OverviewFields(None, None, None, None)

  /** `Overview`: the page as read from the database. */
  datatype Overview = Overview(name: string, tags: string, exportType: Pages.ExportTypes, playtime: I64)

  /** The database row: the export type is stored as its text. */
  datatype OverviewRow = OverviewRow(name: string, tags: string, exportType: string, playtime: I64)

  const OverviewKeys: set<string> := {"name", "tags", "export_type", "playtime"}

  /**
   * A derived `Deserialize` of the unit-only enum `ExportTypes`: the
   * variant's name as a string, or a map whose one key is the name and
   * whose value is null.
   */
  function ExportTypeValue(v: Value): (r: Option<Pages.ExportTypes>)
    ensures r.Some? ==> v == Str(Pages.ExportName(r.value)) || v == Obj([(Pages.ExportName(r.value), Null)])
    ensures forall e :: v == Str(Pages.ExportName(e)) || v == Obj([(Pages.ExportName(e), Null)]) ==> r == Some(e)
  {
    if v.Str? then
      (match Pages.ParseExportType(v.s) case Ok(e) => Some(e) case Err(_) => None)
    else if v.Obj? && |v.fields| == 1 && v.fields[0].1 == Null then
      (match Pages.ParseExportType(v.fields[0].0) case Ok(e) => Some(e) case Err(_) => None)
    else None
  }

  /** One overview value: null leaves the field None; otherwise it must have the field's type. */
  function SetOverviewField(f: OverviewFields, key: string, v: Value): Option<OverviewFields> {
    if v.Null? then Some(f)
    else if key == "name" then (if v.Str? then Some(f.(name := Some(v.s))) else None)
    else if key == "tags" then (if v.Str? then Some(f.(tags := Some(v.s))) else None)
    else if key == "export_type" then
      (match ExportTypeValue(v)
       case Some(e) => Some(f.(exportType := Some(e)))
       case None => None)
    else if key == "playtime" then
      (if v.Num? && -0x8000_0000_0000_0000 <= v.n < 0x8000_0000_0000_0000 then Some(f.(playtime := Some(v.n as I64))) else None)
    else None
  }

  /** The fields in declaration order, the order of the sequence form. */
  const OverviewFieldOrder: seq<string> := ["name", "tags", "export_type", "playtime"]

  /** `serde_json::from_str::<OverviewFields>`. */
  function ParseOverviewFields(v: Value): (r: Result<OverviewFields, FieldsError>)
    ensures !v.Obj? && !v.Arr? ==> r == Err(InvalidType)
    ensures v.Arr? && |v.items| != 4 ==> r == Err(WrongLength(|v.items|))
    ensures v.Obj? && (exists i :: 0 <= i < |v.fields| && v.fields[i].0 !in OverviewKeys) ==> r.Err?
  {
    ParseObject(v, NoOverviewChanges, OverviewKeys, OverviewFieldOrder, SetOverviewField)
  }

  /** The sequence form of four elements reads as the map naming them name, tags, export_type, playtime. */
  lemma OverviewSequenceForm(items: seq<Value>)
    requires |items| == 4
    ensures ParseOverviewFields(Arr(items)) == ParseOverviewFields(Obj(Zip(OverviewFieldOrder, items)))
  {
    var o := OverviewFieldOrder;
    assert o[0][0] == 'n' && o[1][0] == 't' && o[2][0] == 'e' && o[3][0] == 'p';
    PositionalIsKeyed(o, items, NoOverviewChanges, {}, OverviewKeys, SetOverviewField);
  }

  /** `[null, null, null, null]` is a change with every field absent. */
  lemma NullSequenceChangesNothing()
    ensures ParseOverviewFields(Arr([Null, Null, Null, Null])) == Ok(NoOverviewChanges)
  {
  }

  /** The export type may also be given as the map `{"Sonata": null}`. */
  lemma ExportTypeMapForm(e: Pages.ExportTypes)
    ensures ParseOverviewFields(Obj([("export_type", Obj([(Pages.ExportName(e), Null)]))]))
            == Ok(NoOverviewChanges.(exportType := Some(e)))
  {
    var v := Obj([(Pages.ExportName(e), Null)]);
    assert ExportTypeValue(v) == Some(e);
    assert "export_type"[0] != "name"[0] && "export_type"[0] != "tags"[0];
    var f1 := NoOverviewChanges.(exportType := Some(e));
    assert SetOverviewField(NoOverviewChanges, "export_type", v) == Some(f1);
    ParseEntriesCons([("export_type", v)], [], NoOverviewChanges, f1, {}, {"export_type"});
    assert [("export_type", v)] + [] == [("export_type", v)];
  }

  /** The one entry a present field is written as; nothing for an absent one. */
  function Entry(key: string, v: Option<Value>): (r: seq<(string, Value)>)
    ensures |r| <= 1 && (|r| == 1 <==> v.Some?)
    ensures v.Some? ==> r == [(key, v.value)]
  {
    if v.Some? then [(key, v.value)] else []
  }

  /** The key an entry adds to the seen set. */
  function KeyIf(key: string, v: Option<Value>): set<string> {
    if v.Some? then {key} else {}
  }

  function ExportValue(f: OverviewFields): Option<Value> {
    if f.exportType.Some? then Some(Str(Pages.ExportName(f.exportType.value))) else None
  }

  function NameValue(f: OverviewFields): Option<Value> {
    if f.name.Some? then Some(Str(f.name.value)) else None
  }

  function PlaytimeValue(f: OverviewFields): Option<Value> {
    if f.playtime.Some? then Some(Num(f.playtime.value)) else None
  }

  function TagsValue(f: OverviewFields): Option<Value> {
    if f.tags.Some? then Some(Str(f.tags.value)) else None
  }

  /** How many of the four fields are present. */
  function PresentCount(f: OverviewFields): nat {
    (if f.name.Some? then 1 else 0) + (if f.tags.Some? then 1 else 0)
      + (if f.exportType.Some? then 1 else 0) + (if f.playtime.Some? then 1 else 0)
  }

  /**
   * The fields written out: None fields are skipped, the rest appear in
   * key order, as `serde_json::to_value` puts them in its sorted map.
   */
  function SerializeOverviewFields(f: OverviewFields): (r: seq<(string, Value)>)
    ensures |r| == PresentCount(f)
    ensures forall i :: 0 <= i < |r| ==> r[i].0 in OverviewKeys && !r[i].1.Null?
    ensures forall i, j :: 0 <= i < j < |r| ==> r[i].0 != r[j].0
  {
    assert "export_type"[0] != "name"[0] && "name"[0] != "playtime"[0] && "playtime"[0] != "tags"[0];
    assert "export_type"[0] != "playtime"[0] && "export_type"[0] != "tags"[0] && "name"[0] != "tags"[0];
    Entry("export_type", ExportValue(f)) + (Entry("name", NameValue(f)) + (Entry("playtime", PlaytimeValue(f)) + Entry("tags", TagsValue(f))))
  }

  /** Reading back what was written gives the same fields. */
  lemma OverviewFieldsRoundTrip(f: OverviewFields)
    ensures ParseOverviewFields(Obj(SerializeOverviewFields(f))) == Ok(f)
  {
    var n, p, t := Entry("name", NameValue(f)), Entry("playtime", PlaytimeValue(f)), Entry("tags", TagsValue(f));
    var f1 := NoOverviewChanges.(exportType := f.exportType);
    var f2 := f1.(name := f.name);
    var f3 := f2.(playtime := f.playtime);
    var s1 := KeyIf("export_type", ExportValue(f));
    var s2 := s1 + KeyIf("name", NameValue(f));
    var s3 := s2 + KeyIf("playtime", PlaytimeValue(f));
    ExportStep(f, NoOverviewChanges);
    ParseEntriesCons(Entry("export_type", ExportValue(f)), n + (p + t), NoOverviewChanges, f1, {}, s1);
    NameStep(f, f1, s1);
    ParseEntriesCons(n, p + t, f1, f2, s1, s2);
    PlaytimeStep(f, f2, s2);
    ParseEntriesCons(p, t, f2, f3, s2, s3);
    TagsStep(f, f3, s3);
    ParseEntriesCons(t, [], f3, f, s3, s3 + KeyIf("tags", TagsValue(f)));
    assert t + [] == t;
  }

  lemma ExportStep(f: OverviewFields, acc: OverviewFields)
    ensures f.exportType.Some? ==> SetOverviewField(acc, "export_type", ExportValue(f).value) == Some(acc.(exportType := f.exportType))
  {
    if f.exportType.Some? {
      Pages.ExportTypeRoundTrip(f.exportType.value);
    }
  }

  lemma NameStep(f: OverviewFields, acc: OverviewFields, seen: set<string>)
    requires seen <= {"export_type"}
    ensures "name" !in seen
    ensures f.name.Some? ==> SetOverviewField(acc, "name", NameValue(f).value) == Some(acc.(name := f.name))
  {
    assert "name"[0] != "export_type"[0];
  }

  lemma PlaytimeStep(f: OverviewFields, acc: OverviewFields, seen: set<string>)
    requires seen <= {"export_type", "name"}
    ensures "playtime" !in seen
    ensures f.playtime.Some? ==> SetOverviewField(acc, "playtime", PlaytimeValue(f).value) == Some(acc.(playtime := f.playtime))
  {
    assert "playtime"[0] != "export_type"[0] && "playtime"[0] != "name"[0];
  }

  lemma TagsStep(f: OverviewFields, acc: OverviewFields, seen: set<string>)
    requires seen <= {"export_type", "name", "playtime"}
    ensures "tags" !in seen
    ensures f.tags.Some? ==> SetOverviewField(acc, "tags", TagsValue(f).value) == Some(acc.(tags := f.tags))
  {
    assert "tags"[0] != "export_type"[0] && "tags"[0] != "name"[0] && "tags"[0] != "playtime"[0];
  }

  /** At most one well-formed new entry at the front: parse it, then go on. */
  lemma ParseEntriesCons(head: seq<(string, Value)>, rest: seq<(string, Value)>, acc: OverviewFields, acc': OverviewFields,
                         seen: set<string>, seen': set<string>)
    requires |head| <= 1
    requires |head| == 0 ==> acc' == acc && seen' == seen
    requires |head| == 1 ==> head[0].0 in OverviewKeys && head[0].0 !in seen && seen' == seen + {head[0].0}
                             && SetOverviewField(acc, head[0].0, head[0].1) == Some(acc')
    ensures ParseEntries(head + rest, acc, seen, OverviewKeys, SetOverviewField)
            == ParseEntries(rest, acc', seen', OverviewKeys, SetOverviewField)
  {
    if |head| == 1 {
      assert (head + rest)[1..] == rest;
    }
    else {
      assert head + rest == rest;
    }
  }

  /** Options holding only "name" and "tags" leave the other two fields None. */
  lemma PartialOptions(name: string, tags: string)
    ensures ParseOverviewFields(Obj([("name", Str(name)), ("tags", Str(tags))]))
            == Ok(OverviewFields(Some(name), Some(tags), None, None))
  {
    var fields := [("name", Str(name)), ("tags", Str(tags))];
    var f1 := NoOverviewChanges.(name := Some(name));
    ParseEntriesCons([fields[0]], [fields[1]], NoOverviewChanges, f1, {}, {"name"});
    assert "tags" != "name";
    ParseEntriesCons([fields[1]], [], f1, f1.(tags := Some(tags)), {"name"}, {"name", "tags"});
    assert fields == [fields[0]] + [fields[1]];
  }

  /** All four fields given, in the order a client sends them: each is read into its own field. */
  lemma FullOptions(name: string, tags: string, kind: Pages.ExportTypes, playtime: I64)
    ensures ParseOverviewFields(Obj([("name", Str(name)), ("tags", Str(tags)),
                                     ("export_type", Str(Pages.ExportName(kind))), ("playtime", Num(playtime))]))
            == Ok(OverviewFields(Some(name), Some(tags), Some(kind), Some(playtime)))
  {
    var fields := [("name", Str(name)), ("tags", Str(tags)), ("export_type", Str(Pages.ExportName(kind))), ("playtime", Num(playtime))];
    var f1 := NoOverviewChanges.(name := Some(name));
    var f2 := f1.(tags := Some(tags));
    var f3 := f2.(exportType := Some(kind));
    var f4 := f3.(playtime := Some(playtime));
    ParseEntriesCons([fields[0]], fields[1..], NoOverviewChanges, f1, {}, {"name"});
    assert "tags"[0] != "name"[0];
    ParseEntriesCons([fields[1]], fields[2..], f1, f2, {"name"}, {"name", "tags"});
    Pages.ExportTypeRoundTrip(kind);
    assert "export_type"[0] != "name"[0] && "export_type"[0] != "tags"[0];
    ParseEntriesCons([fields[2]], fields[3..], f2, f3, {"name", "tags"}, {"name", "tags", "export_type"});
    assert "playtime"[0] != "name"[0] && "playtime"[0] != "tags"[0] && "playtime"[0] != "export_type"[0];
    ParseEntriesCons([fields[3]], [], f3, f4, {"name", "tags", "export_type"}, {"name", "tags", "export_type", "playtime"});
    assert fields == [fields[0]] + fields[1..];
    assert fields[1..] == [fields[1]] + fields[2..];
    assert fields[2..] == [fields[2]] + fields[3..];
    assert fields[3..] == [fields[3]] + [];
  }

  /** A key given twice is refused at its second occurrence. */
  lemma DuplicateKeyRefused(a: string, b: string)
    ensures ParseOverviewFields(Obj([("name", Str(a)), ("name", Str(b))])) == Err(DuplicateField("name"))
  {
    var fields := [("name", Str(a)), ("name", Str(b))];
    var f1 := NoOverviewChanges.(name := Some(a));
    ParseEntriesCons([fields[0]], [fields[1]], NoOverviewChanges, f1, {}, {"name"});
    assert fields == [fields[0]] + [fields[1]];
  }

  /** A value of the wrong type is refused: play time must be a number. */
  lemma WrongTypeRefused(s: string)
    ensures ParseOverviewFields(Obj([("playtime", Str(s))])) == Err(InvalidValue("playtime"))
  {
    assert "playtime"[0] != "name"[0] && "playtime"[0] != "tags"[0] && "playtime"[0] != "export_type"[0];
  }

  /** The settings fields read back as written. */
  lemma SettingsFieldsRoundTrip(f: SettingsFields)
    ensures ParseSettingsFields(Obj(SerializeSettingsFields(f))) == Ok(f)
  {
    if f.dir.Some? {
      var fields := SerializeSettingsFields(f);
      assert fields[1..] == [];
      assert SetSettingsField(SettingsFields(None), "dir", fields[0].1) == Some(f);
      assert ParseEntries(fields[1..], f, {"dir"}, SettingsKeys, SetSettingsField) == Ok(f);
      assert fields[0].0 == "dir";
      assert ParseEntries(fields, SettingsFields(None), {}, SettingsKeys, SetSettingsField) == Ok(f);
    } else {
      assert SerializeSettingsFields(f) == [];
    }
  }

  /** An empty options object changes nothing. */
  lemma EmptyOptions()
    ensures ParseOverviewFields(Obj([])) == Ok(NoOverviewChanges)
  {
  }

  /** `From<Overview>`: every field present, holding the page's value. */
  function FieldsOf(o: Overview): (r: OverviewFields)
    ensures r.name == Some(o.name) && r.tags == Some(o.tags)
    ensures r.exportType == Some(o.exportType) && r.playtime == Some(o.playtime)
  {
    OverviewFields(Some(o.name), Some(o.tags), Some(o.exportType), Some(o.playtime))
  }

  /** `Overview::insert`: the row, with the export type written as text. */
  function InsertOverview(o: Overview): OverviewRow {
    OverviewRow(o.name, o.tags, Pages.ExportName(o.exportType), o.playtime)
  }

  /** `Overview::from_db`: the export type text must parse, or the row is corrupted. */
  function ReadOverview(row: OverviewRow): (r: Result<Overview, Pages.DBError>)
    ensures r.Ok? <==> Pages.ParseExportType(row.exportType).Ok?
    ensures r.Ok? ==> r.value.name == row.name && r.value.tags == row.tags && r.value.playtime == row.playtime
                      && Pages.ExportName(r.value.exportType) == row.exportType
  {
    match Pages.ParseExportType(row.exportType)
    case Ok(e) => Ok(Overview(row.name, row.tags, e, row.playtime))
    case Err(err) => Err(err)
  }

  /** A stored page reads back unchanged. */
  lemma InsertThenRead(o: Overview)
    ensures ReadOverview(InsertOverview(o)) == Ok(o)
  {
    Pages.ExportTypeRoundTrip(o.exportType);
  }

  /**
   * `Overview::update`: `SET x = COALESCE($x, x)` for every column, the
   * export type bound as its text.
   */
  function UpdateOverview(row: OverviewRow, change: OverviewFields): (r: OverviewRow)
    ensures r.name == (if change.name.Some? then change.name.value else row.name)
    ensures r.tags == (if change.tags.Some? then change.tags.value else row.tags)
    ensures r.exportType == (if change.exportType.Some? then Pages.ExportName(change.exportType.value) else row.exportType)
    ensures r.playtime == (if change.playtime.Some? then change.playtime.value else row.playtime)
  {
    OverviewRow(change.name.GetOr(row.name), change.tags.GetOr(row.tags),
                (if change.exportType.Some? then Some(Pages.ExportName(change.exportType.value)) else None).GetOr(row.exportType),
                change.playtime.GetOr(row.playtime))
  }

  /** An update with no fields leaves the row as it is. */
  lemma EmptyUpdateKeepsRow(row: OverviewRow)
    ensures UpdateOverview(row, NoOverviewChanges) == row
  {
  }

  /** Applying the same change twice is applying it once. */
  lemma UpdateIdempotent(row: OverviewRow, change: OverviewFields)
    ensures UpdateOverview(UpdateOverview(row, change), change) == UpdateOverview(row, change)
  {
  }

  /** Updating with all of a page's fields makes the row read back as that page. */
  lemma FullUpdateReadsBack(row: OverviewRow, o: Overview)
    ensures ReadOverview(UpdateOverview(row, FieldsOf(o))) == Ok(o)
  {
    Pages.ExportTypeRoundTrip(o.exportType);
  }

  // ---- Settings ----

  /** `SettingsFields`: the instance directory, optional. */
  datatype SettingsFields = SettingsFields(dir: Option<string>)

  /** `Settings`: the page as read from the database. */
  datatype Settings = Settings(dir: string)

  const SettingsKeys: set<string> := {"dir"}

  function SetSettingsField(f: SettingsFields, key: string, v: Value): Option<SettingsFields> {
    if v.Null? then Some(f)
    else if key == "dir" && v.Str? then Some(f.(dir := Some(v.s)))
    else None
  }

  /** `serde_json::from_str::<SettingsFields>`. */
  function ParseSettingsFields(v: Value): (r: Result<SettingsFields, FieldsError>)
    ensures !v.Obj? && !v.Arr? ==> r == Err(InvalidType)
    ensures v.Arr? && |v.items| != 1 ==> r == Err(WrongLength(|v.items|))
    ensures v.Obj? && (exists i :: 0 <= i < |v.fields| && v.fields[i].0 !in SettingsKeys) ==> r.Err?
  {
    ParseObject(v, SettingsFields(None), SettingsKeys, ["dir"], SetSettingsField)
  }

  /** `["/x"]` is the directory "/x". */
  lemma SettingsSequenceDir(d: string)
    ensures ParseSettingsFields(Arr([Str(d)])) == Ok(SettingsFields(Some(d)))
  {
    SettingsSequenceForm(Str(d));
    SettingsFieldsRoundTrip(SettingsFields(Some(d)));
  }

  /** The one-element sequence form reads as the map naming it "dir". */
  lemma SettingsSequenceForm(x: Value)
    ensures ParseSettingsFields(Arr([x])) == ParseSettingsFields(Obj([("dir", x)]))
  {
    PositionalIsKeyed(["dir"], [x], SettingsFields(None), {}, SettingsKeys, SetSettingsField);
    assert Zip(["dir"], [x]) == [("dir", x)];
  }

  /** The settings fields written out, None skipped. */
  function SerializeSettingsFields(f: SettingsFields): (r: seq<(string, Value)>)
    ensures f.dir.None? <==> r == []
    ensures f.dir.Some? ==> r == [("dir", Str(f.dir.value))]
  {
    Entry("dir", if f.dir.Some? then Some(Str(f.dir.value)) else None)
  }

  /** `Settings::update`: COALESCE on the one column. */
  function UpdateSettings(row: Settings, change: SettingsFields): (r: Settings)
    ensures r.dir == (if change.dir.Some? then change.dir.value else row.dir)
  {
    Settings(change.dir.GetOr(row.dir))
  }

  // ---- Tables ----

  /** Why a page could not be read from its table. */
  datatype ReadError = RowNotFound | Corrupted(e: Pages.DBError)

  /** `instances_overview`, keyed by instance id. */
  type OverviewTable = map<I64, OverviewRow>

  /** `Overview::update` on the table: `WHERE instance_id = ...` touches at most that row. */
  function UpdateOverviewIn(table: OverviewTable, id: I64, change: OverviewFields): (r: OverviewTable)
    ensures r.Keys == table.Keys
    ensures id in table ==> r[id] == UpdateOverview(table[id], change)
    ensures forall k :: k in table && k != id ==> r[k] == table[k]
  {
    if id in table then table[id := UpdateOverview(table[id], change)] else table
  }

  /** `Overview::from_db`: the row must exist (`fetch_one`) and its export type must parse. */
  function ReadOverviewFrom(table: OverviewTable, id: I64): (r: Result<Overview, ReadError>)
    ensures id !in table ==> r == Err(RowNotFound)
    ensures id in table ==> (r.Ok? <==> ReadOverview(table[id]).Ok?)
    ensures r.Ok? ==> InsertOverview(r.value) == table[id]
  {
    if id !in table then Err(RowNotFound)
    else match ReadOverview(table[id])
      case Ok(o) => Ok(o)
      case Err(e) => Err(Corrupted(e))
  }

  /** `Overview::insert` on the table: a new row for the instance. */
  function InsertOverviewIn(table: OverviewTable, id: I64, o: Overview): (r: OverviewTable)
    requires id !in table
    ensures r.Keys == table.Keys + {id}
    ensures r[id] == InsertOverview(o)
  {
    table[id := InsertOverview(o)]
  }

  /** An inserted page, updated with a change, reads back as the page with the change applied. */
  lemma InsertUpdateRead(table: OverviewTable, id: I64, o: Overview, change: OverviewFields)
    requires id !in table
    ensures ReadOverviewFrom(UpdateOverviewIn(InsertOverviewIn(table, id, o), id, change), id)
            == Ok(Overview(change.name.GetOr(o.name), change.tags.GetOr(o.tags),
                           change.exportType.GetOr(o.exportType), change.playtime.GetOr(o.playtime)))
  {
    var e := change.exportType.GetOr(o.exportType);
    Pages.ExportTypeRoundTrip(e);
  }

  /** Updating an instance with no row changes nothing, and it stays unreadable. */
  lemma UpdateMissingRow(table: OverviewTable, id: I64, change: OverviewFields)
    requires id !in table
    ensures UpdateOverviewIn(table, id, change) == table
    ensures ReadOverviewFrom(UpdateOverviewIn(table, id, change), id) == Err(RowNotFound)
  {
  }

  /** `instances_settings`, keyed by instance id. */
  type SettingsTable = map<I64, Settings>

  /** `Settings::upset`: insert, or replace the directory of an existing row. */
  function UpsertSettings(table: SettingsTable, id: I64, dir: string): (r: SettingsTable)
    ensures r.Keys == table.Keys + {id}
    ensures r[id] == Settings(dir)
    ensures forall k :: k in table && k != id ==> r[k] == table[k]
  {
    table[id := Settings(dir)]
  }

  /** `Settings::update` on the table. */
  function UpdateSettingsIn(table: SettingsTable, id: I64, change: SettingsFields): (r: SettingsTable)
    ensures r.Keys == table.Keys
    ensures id in table ==> r[id] == UpdateSettings(table[id], change)
    ensures forall k :: k in table && k != id ==> r[k] == table[k]
  {
    if id in table then table[id := UpdateSettings(table[id], change)] else table
  }

  /** `Settings::from_db`: `NotFound` when the instance has no row. */
  function ReadSettingsFrom(table: SettingsTable, id: I64): (r: Result<Settings, ReadError>)
    ensures r.Ok? <==> id in table
    ensures r.Ok? ==> r.value == table[id]
    ensures r.Err? ==> r.error == RowNotFound
  {
    if id in table then Ok(table[id]) else Err(RowNotFound)
  }

  /** Upserting twice keeps only the second directory. */
  lemma UpsertOverwrites(table: SettingsTable, id: I64, a: string, b: string)
    ensures ReadSettingsFrom(UpsertSettings(UpsertSettings(table, id, a), id, b), id) == Ok(Settings(b))
  {
  }

  /** The fields of a page (`From<Settings>`) written over any row read back as that page. */
  lemma SettingsFullUpdate(table: SettingsTable, id: I64, s: Settings)
    requires id in table
    ensures ReadSettingsFrom(UpdateSettingsIn(table, id, SettingsFields(Some(s.dir))), id) == Ok(s)
  {
  }
}
