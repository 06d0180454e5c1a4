/**
 * Instance options: a change request arrives as an id string, a page name
 * and an options object; `build` validates them in that order, and
 * `retrieve` / `change` read and update the page's table.
 */
module Options {
  import opened Wrappers
  import opened Strings
  import opened Json
  import opened OptionFields
  import Pages

  // ---- i64 text ----

  /** The value of a run of decimal digits, most significant first. */
  function DigitsValue(s: string): int
    decreases |s|
  {
    if |s| == 0 then 0 else DigitsValue(s[..|s| - 1]) * 10 + (s[|s| - 1] as int - '0' as int)
  }

  /** The digits after an optional leading sign. */
  function Unsigned(s: string): string {
    if |s| > 0 && (s[0] == '-' || s[0] == '+') then s[1..] else s
  }

  predicate InI64(v: int) {
    -0x8000_0000_0000_0000 <= v < 0x8000_0000_0000_0000
  }

  /**
   * `str::parse::<i64>`: an optional '+' or '-', then at least one ASCII
   * digit and nothing else, with the value in range.
   */
  function ParseI64(s: string): (r: Option<I64>)
    ensures r.Some? <==> |Unsigned(s)| > 0 && AllDigits(Unsigned(s))
                         && InI64(if s[0] == '-' then -DigitsValue(Unsigned(s)) else DigitsValue(Unsigned(s)))
    ensures r.Some? ==> r.value == (if s[0] == '-' then -DigitsValue(Unsigned(s)) else DigitsValue(Unsigned(s)))
  {
    var body := Unsigned(s);
    if |body| == 0 || !AllDigits(body) then None
    else
      var v := if s[0] == '-' then -DigitsValue(body) else DigitsValue(body);
      if InI64(v) then Some(v as I64) else None
  }

  function DigitChar(d: int): (c: char)
    requires 0 <= d < 10
    ensures IsDigit(c) && c as int - '0' as int == d
  {
    ('0' as int + d) as char
  }

  /** The decimal digits of a natural number, no leading zero. */
  function NatDigits(n: nat): (r: string)
    ensures |r| > 0
    decreases n
  {
    if n < 10 then [DigitChar(n)] else NatDigits(n / 10) + [DigitChar(n % 10)]
  }

  /** `i64::to_string`: a '-' for negative values, then the digits of the magnitude. */
  function Decimal(n: I64): string {
    if n < 0 then "-" + NatDigits(-(n as int)) else NatDigits(n)
  }

  lemma {:induction false} NatDigitsValue(n: nat)
    ensures AllDigits(NatDigits(n)) && DigitsValue(NatDigits(n)) == n
    decreases n
  {
    if n >= 10 {
      NatDigitsValue(n / 10);
      var s := NatDigits(n);
      assert s[..|s| - 1] == NatDigits(n / 10);
    }
  }

  /** Every i64 written in decimal parses back to itself. */
  lemma I64RoundTrip(n: I64)
    ensures ParseI64(Decimal(n)) == Some(n)
  {
    if n < 0 {
      NatDigitsValue(-(n as int));
      ParseNegative(NatDigits(-(n as int)));
    } else {
      NatDigitsValue(n);
      ParseNonNegative(NatDigits(n));
    }
  }

  /** Digits without a sign parse to their value. */
  lemma ParseNonNegative(d: string)
    requires |d| > 0 && AllDigits(d) && InI64(DigitsValue(d))
    ensures ParseI64(d) == Some(DigitsValue(d))
  {
    assert Unsigned(d) == d;
  }

  /** A '-' before digits negates their value. */
  lemma ParseNegative(d: string)
    requires |d| > 0 && AllDigits(d) && InI64(-DigitsValue(d))
    ensures ParseI64("-" + d) == Some(-DigitsValue(d))
  {
    assert Unsigned("-" + d) == d;
  }

  /** Letters are not an id. */
  lemma WordIsNoId()
    ensures ParseI64("wrongid") == None
  {
    assert !IsDigit("wrongid"[0]);
  }

  // ---- Errors ----

  /** The `InstanceError` variants the options code returns. */
  datatype InstanceError =
    | WrongId(msg: string)
    | OptionsPageWrong(page: string)
    | OptionNotAvailable(msg: string)
    | NotImplemented
    | DB(e: ReadError)

  /**
   * A serde error's description, in the shape of serde's messages (the
   * exact wording, with the expected alternatives and the position, is not
   * modelled).
   */
  function FieldsErrorText(e: FieldsError): string {
    match e
    case InvalidType => "invalid type: expected a map or a sequence"
    case WrongLength(_) => "invalid length"
    case UnknownField(k) => "unknown field `" + k + "`"
    case DuplicateField(k) => "duplicate field `" + k + "`"
    case InvalidValue(k) => "invalid value for field `" + k + "`"
  }

  /**
   * The `Display` text of an error; None for database errors, whose text
   * comes from the database layer.
   */
  function ErrorMessage(e: InstanceError): (r: Option<string>)
    ensures r.None? <==> e.DB?
  {
    match e
    case WrongId(m) => Some("Instance id is wrong: " + m)
    case OptionsPageWrong(p) => Some("Wrong options page is present: " + p)
    case OptionNotAvailable(m) => Some("Failed to read option: " + m)
    case NotImplemented => Some("Function is not implemented yet")
    case DB(_) => None
  }

  // ---- Change requests ----

  datatype ChangableOptions = OverviewChange(overview: OverviewFields) | SettingsChange(settings: SettingsFields)

  datatype ChangeRequest = ChangeRequest(id: I64, change: ChangableOptions)

  /** The fields of the requested page, or the page's parse error. */
  function ParseChange(p: Pages.Page, options: Value): (r: Result<ChangableOptions, InstanceError>)
    requires p.Overview? || p.Settings?
    ensures r.Ok? && p.Overview? ==> r.value.OverviewChange? && ParseOverviewFields(options) == Ok(r.value.overview)
    ensures r.Ok? && p.Settings? ==> r.value.SettingsChange? && ParseSettingsFields(options) == Ok(r.value.settings)
    ensures r.Err? <==> (if p.Overview? then ParseOverviewFields(options).Err? else ParseSettingsFields(options).Err?)
    ensures r.Err? ==> r.error.OptionNotAvailable?
  {
    if p.Overview? then
      match ParseOverviewFields(options)
      case Ok(f) => Ok(OverviewChange(f))
      case Err(e) => Err(OptionNotAvailable("Failed to parse Overview page option: " + FieldsErrorText(e)))
    else
      match ParseSettingsFields(options)
      case Ok(f) => Ok(SettingsChange(f))
      case Err(e) => Err(OptionNotAvailable("Failed to parse Settings page option: " + FieldsErrorText(e)))
  }

  /**
   * `ChangeRequestBuilder::build`. The id is checked first, then the page,
   * then the options; only the overview and settings pages can be changed.
   */
  function BuildRequest(id: string, page: string, options: Value): (r: Result<ChangeRequest, InstanceError>)
    ensures ParseI64(id).None? ==> r == Err(WrongId("must be integer (i64), got \"" + id + "\""))
    ensures ParseI64(id).Some? && Pages.ParsePage(page).Err? ==> r == Err(OptionsPageWrong(page))
    ensures var p := Pages.ParsePage(page);
            ParseI64(id).Some? && p.Ok? && !(p.value.Overview? || p.value.Settings?) ==> r == Err(NotImplemented)
    ensures r.Ok? ==> Some(r.value.id) == ParseI64(id)
    ensures r.Ok? ==> Pages.ParsePage(page) == Ok(if r.value.change.OverviewChange? then Pages.Overview else Pages.Settings)
    ensures r.Ok? && r.value.change.OverviewChange? ==> ParseOverviewFields(options) == Ok(r.value.change.overview)
    ensures r.Ok? && r.value.change.SettingsChange? ==> ParseSettingsFields(options) == Ok(r.value.change.settings)
  {
    match ParseI64(id)
    case None => Err(WrongId("must be integer (i64), got \"" + id + "\""))
    case Some(n) =>
      match Pages.ParsePage(page)
      case Err(_) => Err(OptionsPageWrong(page))
      case Ok(p) =>
        if p.Overview? || p.Settings? then
          match ParseChange(p, options)
          case Ok(c) => Ok(ChangeRequest(n, c))
          case Err(e) => Err(e)
        else Err(NotImplemented)
  }

  // ---- Reading and changing pages ----

  /** The two option tables of the database. */
  datatype Db = Db(overview: OverviewTable, settings: SettingsTable)

  datatype PageResult = OverviewPage(overview: Overview) | SettingsPage(settings: Settings)

  /** `Options::retrieve`: only the overview and settings pages are stored. */
  function Retrieve(db: Db, id: I64, page: Pages.Page): (r: Result<PageResult, InstanceError>)
    ensures !(page.Overview? || page.Settings?) ==> r == Err(NotImplemented)
    ensures page.Overview? ==> (r.Ok? <==> ReadOverviewFrom(db.overview, id).Ok?)
    ensures page.Overview? && r.Ok? ==> r.value == OverviewPage(ReadOverviewFrom(db.overview, id).value)
    ensures page.Settings? ==> (r.Ok? <==> id in db.settings)
    ensures page.Settings? && r.Ok? ==> r.value == SettingsPage(db.settings[id])
    ensures r.Err? && (page.Overview? || page.Settings?) ==> r.error.DB?
  {
    match page
    case Overview =>
      (match ReadOverviewFrom(db.overview, id)
       case Ok(o) => Ok(OverviewPage(o))
       case Err(e) => Err(DB(e)))
    case Settings =>
      (match ReadSettingsFrom(db.settings, id)
       case Ok(s) => Ok(SettingsPage(s))
       case Err(e) => Err(DB(e)))
    case _ => Err(NotImplemented)
  }

  /** `Options::change`: the change goes to its page's table and the other table is untouched. */
  function Change(db: Db, request: ChangeRequest): (r: Db)
    ensures request.change.OverviewChange? ==>
      r.settings == db.settings && r.overview == UpdateOverviewIn(db.overview, request.id, request.change.overview)
    ensures request.change.SettingsChange? ==>
      r.overview == db.overview && r.settings == UpdateSettingsIn(db.settings, request.id, request.change.settings)
  {
    match request.change
    case OverviewChange(f) => db.(overview := UpdateOverviewIn(db.overview, request.id, f))
    case SettingsChange(f) => db.(settings := UpdateSettingsIn(db.settings, request.id, f))
  }

  /**
   * A request carrying all of a page's fields, built from their text and
   * applied to an existing row, makes that page what the instance reads back.
   */
  lemma ChangeThenRetrieve(db: Db, id: I64, o: Overview)
    requires id in db.overview
    ensures var req := BuildRequest(Decimal(id), "overview", Obj(SerializeOverviewFields(FieldsOf(o))));
            req.Ok? && Retrieve(Change(db, req.value), id, Pages.Overview) == Ok(OverviewPage(o))
  {
    I64RoundTrip(id);
    OverviewFieldsRoundTrip(FieldsOf(o));
    Pages.PageNameRoundTrip(Pages.Overview);
    FullUpdateReadsBack(db.overview[id], o);
  }

  // ---- The documented requests ----

  lemma IdEight()
    ensures ParseI64("8") == Some(8)
  {
    assert Unsigned("8") == "8";
    assert "8"[..0] == [];
  }

  lemma IdFourteen()
    ensures ParseI64("14") == Some(14)
  {
    assert Unsigned("14") == "14";
    assert "14"[..1] == "1" && "1"[..0] == [];
  }

  /** Only name and tags given: the request changes those two and nothing else. */
  lemma PartialRequest()
    ensures BuildRequest("8", "overview", Obj([("name", Str("a new name")), ("tags", Str("Fabric, SMP"))]))
            == Ok(ChangeRequest(8, OverviewChange(OverviewFields(Some("a new name"), Some("Fabric, SMP"), None, None))))
  {
    IdEight();
    Pages.PageNameRoundTrip(Pages.Overview);
    PartialOptions("a new name", "Fabric, SMP");
  }

  /** Every overview field given: the request carries all four. */
  lemma FullRequest()
    ensures BuildRequest("14", "overview", Obj([("name", Str("a new name")), ("tags", Str("Fabric, SMP")),
                                                ("export_type", Str("Sonata")), ("playtime", Num(512))]))
            == Ok(ChangeRequest(14, OverviewChange(OverviewFields(Some("a new name"), Some("Fabric, SMP"), Some(Pages.Sonata), Some(512)))))
  {
    IdFourteen();
    Pages.PageNameRoundTrip(Pages.Overview);
    assert Pages.ExportName(Pages.Sonata) == "Sonata";
    FullOptions("a new name", "Fabric, SMP", Pages.Sonata, 512);
  }

  /** An empty options object is a request that changes nothing. */
  lemma EmptyRequest()
    ensures BuildRequest("14", "overview", Obj([])) == Ok(ChangeRequest(14, OverviewChange(NoOverviewChanges)))
  {
    IdFourteen();
    Pages.PageNameRoundTrip(Pages.Overview);
  }

  /** An unknown page is reported with the page as given. */
  lemma WrongPageRequest(options: Value)
    ensures var r := BuildRequest("14", "asdq", options);
            r.Err? && ErrorMessage(r.error) == Some("Wrong options page is present: asdq")
  {
    assert "Wrong options page is present: " + "asdq" == "Wrong options page is present: asdq";
    IdFourteen();
    assert Lower("asdq") == "asdq";
    assert Pages.ParsePage("asdq").Err?;
  }

  /** A non-numeric id is reported, quoted, before the page is looked at. */
  lemma WrongIdRequest(page: string, options: Value)
    ensures var r := BuildRequest("wrongid", page, options);
            r == Err(WrongId("must be integer (i64), got \"wrongid\""))
            && ErrorMessage(r.error) == Some("Instance id is wrong: " + r.error.msg)
  {
    WordIsNoId();
    WrongIdDetail();
  }

  lemma WrongIdDetail()
    ensures "must be integer (i64), got \"" + "wrongid" + "\"" == "must be integer (i64), got \"wrongid\""
  {
  }

  /** The page name's case does not matter. */
  lemma MixedCaseRequest()
    ensures var r := BuildRequest("623", "oVerVieW", Obj([]));
            r.Ok? && r.value.change.OverviewChange?
  {
    I64RoundTrip(623);
    assert Decimal(623) == "623";
    Pages.MixedCaseOverview();
  }
}
