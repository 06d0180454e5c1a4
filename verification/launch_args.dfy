/**
 * The game arguments a launch fills in: each kind has a manifest key
 * ("--username") and a placeholder ("${auth_player_name}") that manifests
 * use where its value goes.
 */
module LaunchArgs {
  import opened Wrappers

  datatype ArgType =
    | Username | Version | GameDir | AssetsDir | AssetIndex | AuthUuid
    | AccessToken | ClientId | XUid | UserType | VersionType

  /** Every kind once, in declaration order (the order `ArgType::iter` yields). */
  const AllArgTypes: seq<ArgType> :=
    [Username, Version, GameDir, AssetsDir, AssetIndex, AuthUuid,
     AccessToken, ClientId, XUid, UserType, VersionType]

  /** The name inside the placeholder. */
  function PlaceholderName(t: ArgType): string {
    match t
    case Username => "auth_player_name"
    case Version => "version_name"
    case GameDir => "game_directory"
    case AssetsDir => "assets_root"
    case AssetIndex => "assets_index_name"
    case AuthUuid => "auth_uuid"
    case AccessToken => "auth_access_token"
    case ClientId => "clientid"
    case XUid => "auth_xuid"
    case UserType => "user_type"
    case VersionType => "version_type"
  }

  /** The key after "--". */
  function KeyName(t: ArgType): string {
    match t
    case Username => "username"
    case Version => "version"
    case GameDir => "gameDir"
    case AssetsDir => "assetsDir"
    case AssetIndex => "assetIndex"
    case AuthUuid => "uuid"
    case AccessToken => "accessToken"
    case ClientId => "clientId"
    case XUid => "xuid"
    case UserType => "userType"
    case VersionType => "versionType"
  }

  /** The kind a placeholder name belongs to, if any. */
  function OfPlaceholderName(s: string): Option<ArgType> {
    if s == "auth_player_name" then Some(Username)
    else if s == "version_name" then Some(Version)
    else if s == "game_directory" then Some(GameDir)
    else if s == "assets_root" then Some(AssetsDir)
    else if s == "assets_index_name" then Some(AssetIndex)
    else if s == "auth_uuid" then Some(AuthUuid)
    else if s == "auth_access_token" then Some(AccessToken)
    else if s == "clientid" then Some(ClientId)
    else if s == "auth_xuid" then Some(XUid)
    else if s == "user_type" then Some(UserType)
    else if s == "version_type" then Some(VersionType)
    else None
  }

  /** The kind a key name belongs to, if any. */
  function OfKeyName(s: string): Option<ArgType> {
    if s == "username" then Some(Username)
    else if s == "version" then Some(Version)
    else if s == "gameDir" then Some(GameDir)
    else if s == "assetsDir" then Some(AssetsDir)
    else if s == "assetIndex" then Some(AssetIndex)
    else if s == "uuid" then Some(AuthUuid)
    else if s == "accessToken" then Some(AccessToken)
    else if s == "clientId" then Some(ClientId)
    else if s == "xuid" then Some(XUid)
    else if s == "userType" then Some(UserType)
    else if s == "versionType" then Some(VersionType)
    else None
  }

  /** `get_value_placeholder`: the name wrapped in "${" and "}". */
  function ValuePlaceholder(t: ArgType): (r: string)
    ensures |r| >= 3 && r[..2] == "${" && r[|r| - 1] == '}'
    ensures OfPlaceholderName(r[2..|r| - 1]) == Some(t)
  {
    var r := "${" + PlaceholderName(t) + "}";
    assert r[2..|r| - 1] == PlaceholderName(t);
    PlaceholderNameRoundTrip(t);
    r
  }

  /** `get_manifest_key`: the key name after "--". */
  function ManifestKey(t: ArgType): (r: string)
    ensures |r| >= 3 && r[..2] == "--"
    ensures OfKeyName(r[2..]) == Some(t)
  {
    var r := "--" + KeyName(t);
    assert r[2..] == KeyName(t);
    KeyNameRoundTrip(t);
    r
  }

  lemma PlaceholderNameRoundTrip(t: ArgType)
    ensures OfPlaceholderName(PlaceholderName(t)) == Some(t)
  {
  }

  lemma KeyNameRoundTrip(t: ArgType)
    ensures OfKeyName(KeyName(t)) == Some(t)
  {
  }

  /** Distinct kinds have distinct placeholders. */
  lemma PlaceholderInjective(a: ArgType, b: ArgType)
    ensures ValuePlaceholder(a) == ValuePlaceholder(b) ==> a == b
  {
  }

  /** Distinct kinds have distinct manifest keys. */
  lemma ManifestKeyInjective(a: ArgType, b: ArgType)
    ensures ManifestKey(a) == ManifestKey(b) ==> a == b
  {
  }

  /** The user name goes under "--username", its value replaces "${auth_player_name}". */
  lemma UsernameMapping()
    ensures ValuePlaceholder(Username) == "${auth_player_name}"
    ensures ManifestKey(Username) == "--username"
  {
  }

  /** `AllArgTypes` lists every kind exactly once. */
  lemma AllArgTypesComplete(t: ArgType)
    ensures t in AllArgTypes
    ensures forall i, j :: 0 <= i < j < |AllArgTypes| ==> AllArgTypes[i] != AllArgTypes[j]
  {
  }
}
