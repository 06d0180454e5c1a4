/**
 * The option pages of an instance and the export formats: the
 * case-insensitive page parser (current and older revision) and the
 * `ExportTypes` text form.
 */
module Pages {
  import opened Wrappers
  import opened Strings

  datatype Page = Overview | Mods | Worlds | Resourcepacks | Shaderpacks | Logs | Settings

  datatype ParsePageError = ParsePageError

  /** The lowercase name a page is requested by. */
  function PageName(p: Page): string {
    match p
    case Overview => "overview"
    case Mods => "mods"
    case Worlds => "worlds"
    case Resourcepacks => "resourcepacks"
    case Shaderpacks => "shaderpacks"
    case Logs => "logs"
    case Settings => "settings"
  }

  /**
   * `Page::from_str`: the input is lowercased and must then be exactly one
   * of the seven page names.
   */
  function ParsePage(s: string): (r: Result<Page, ParsePageError>)
    ensures r.Ok? ==> PageName(r.value) == Lower(s)
    ensures r.Err? ==> forall p :: PageName(p) != Lower(s)
  {
    var l := Lower(s);
    if l == "overview" then Ok(Overview)
    else if l == "mods" then Ok(Mods)
    else if l == "worlds" then Ok(Worlds)
    else if l == "resourcepacks" then Ok(Resourcepacks)
    else if l == "shaderpacks" then Ok(Shaderpacks)
    else if l == "logs" then Ok(Logs)
    else if l == "settings" then Ok(Settings)
    else Err(ParsePageError)
  }

  /** Each page's name parses back to it, so distinct names give distinct pages. */
  lemma PageNameRoundTrip(p: Page)
    ensures ParsePage(PageName(p)) == Ok(p)
  {
    LowerOfNoUpper(PageName(p));
  }

  /** Case does not matter: a string parses as its lowercase form does. */
  lemma ParsePageIgnoresCase(s: string)
    ensures ParsePage(s) == ParsePage(Lower(s))
  {
    LowerIdempotent(s);
  }

  /** Mixed case parses: "oVerVieW" is the overview page. */
  lemma MixedCaseOverview()
    ensures ParsePage("oVerVieW") == Ok(Overview)
  {
    assert Lower("oVerVieW") == "overview";
  }

  /** `Page::from_str` of the older revision: the same seven names after lowercasing. */
  function LegacyParsePage(s: string): (r: Result<Page, ParsePageError>)
    ensures r.Ok? ==> Lower(s) == PageName(r.value)
  {
    match Lower(s)
    case "overview" => Ok(Overview)
    case "mods" => Ok(Mods)
    case "worlds" => Ok(Worlds)
    case "resourcepacks" => Ok(Resourcepacks)
    case "shaderpacks" => Ok(Shaderpacks)
    case "logs" => Ok(Logs)
    case "settings" => Ok(Settings)
    case _ => Err(ParsePageError)
  }

  /** Both revisions accept the same strings and map them to the same pages. */
  lemma ParsersAgree(s: string)
    ensures LegacyParsePage(s) == ParsePage(s)
  {
  }

  /** The export formats of an instance; `Sonata` is the default. */
  datatype ExportTypes = Sonata | MultiMC | Modrinth

  /** The error a corrupted stored value gives. */
  datatype DBError = ResultCorrupted

  /** `Display`: the variant's name. */
  function ExportName(e: ExportTypes): string {
    match e
    case Sonata => "Sonata"
    case MultiMC => "MultiMC"
    case Modrinth => "Modrinth"
  }

  /** `ExportTypes::from_str`: exactly a variant's name, case-sensitively. */
  function ParseExportType(s: string): (r: Result<ExportTypes, DBError>)
    ensures r.Ok? ==> ExportName(r.value) == s
    ensures r.Err? ==> forall e :: ExportName(e) != s
  {
    if s == "Sonata" then Ok(Sonata)
    else if s == "MultiMC" then Ok(MultiMC)
    else if s == "Modrinth" then Ok(Modrinth)
    else Err(ResultCorrupted)
  }

  /** What is written is what is read back. */
  lemma ExportTypeRoundTrip(e: ExportTypes)
    ensures ParseExportType(ExportName(e)) == Ok(e)
  {
  }

  /** Parsing is case-sensitive: "sonata" is rejected. */
  lemma ExportTypeCaseSensitive()
    ensures ParseExportType("sonata") == Err(ResultCorrupted)
  {
    assert "sonata"[0] != "Sonata"[0];
  }
}
