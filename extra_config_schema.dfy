/**
 * The request bodies of the web API for extra configurations
 * (webpanel/routers/api/v1/schema/config/extra_config.py): field presence,
 * string type, minimum length and the URI protocol validators, as the body
 * model accepts or rejects a decoded request.
 */
module ExtraConfigSchema {
  import opened Wrappers
  import opened Text
  import ExtraConfig

  /** The schema keeps its own copy of the protocol list. */
  const ValidProtocols: seq<string> := ["vmess://", "vless://", "ss://", "trojan://"]

  /** A string field of a request: left out, explicitly null, or a string. */
  datatype Field = Absent | Null | Str(s: string)

  datatype SchemaError = MissingField | NotAString | TooShort | InvalidUriProtocol

  datatype ConfigBody = ConfigBody(name: string, uri: string)

  datatype EditBody = EditBody(name: string, newName: Option<string>, uri: Option<string>, enabled: Option<bool>)

  predicate HasValidProtocol(v: string) {
    exists k :: 0 <= k < |ValidProtocols| && StartsWith(v, ValidProtocols[k])
  }

  /** Both copies of the protocol list are the same, so both checks accept the same URIs. */
  lemma ProtocolListsAgree(v: string)
    ensures HasValidProtocol(v) <==> ExtraConfig.HasValidProtocol(v)
  {
    assert ValidProtocols == ExtraConfig.ValidProtocols;
  }

  /** `validate_uri_protocol` of the add and response bodies: the value itself, or an error. */
  function ValidateUriProtocol(v: string): (r: Result<string, SchemaError>)
    ensures r.Ok? <==> HasValidProtocol(v)
    ensures r.Ok? ==> r.value == v
    ensures r.Err? ==> r.error == InvalidUriProtocol
  {
    if !HasValidProtocol(v) then Err(InvalidUriProtocol) else Ok(v)
  }

  /** `validate_uri_protocol` of the edit body: an empty URI is let through unchecked. */
  function ValidateEditUri(v: string): (r: Result<string, SchemaError>)
    ensures r.Ok? <==> v == "" || HasValidProtocol(v)
    ensures r.Ok? ==> r.value == v
    ensures r.Err? ==> r.error == InvalidUriProtocol
  {
    if v != "" && !HasValidProtocol(v) then Err(InvalidUriProtocol) else Ok(v)
  }

  /** A required string field. */
  function RequiredStr(f: Field): (r: Result<string, SchemaError>)
    ensures r.Ok? <==> f.Str?
    ensures r.Ok? ==> r.value == f.s
  {
    match f
    case Absent => Err(MissingField)
    case Null => Err(NotAString)
    case Str(s) => Ok(s)
  }

  /** An optional string field: left out it is None, null is not a string. */
  function OptionalStr(f: Field): (r: Result<Option<string>, SchemaError>)
    ensures r.Ok? <==> !f.Null?
    ensures r == Ok(None) <==> f.Absent?
    ensures f.Str? ==> r == Ok(Some(f.s))
  {
    match f
    case Absent => Ok(None)
    case Null => Err(NotAString)
    case Str(s) => Ok(Some(s))
  }

  /** `AddExtraConfigBody` / `ExtraConfigResponse`: a non-empty name and a URI with a known protocol. */
  function ParseConfigBody(name: Field, uri: Field): (r: Result<ConfigBody, SchemaError>)
    ensures r.Ok? <==> name.Str? && |name.s| >= 1 && uri.Str? && HasValidProtocol(uri.s)
    ensures r.Ok? ==> r.value == ConfigBody(name.s, uri.s)
  {
    match RequiredStr(name)
    case Err(e) => Err(e)
    case Ok(n) =>
      if |n| < 1 then Err(TooShort)
      else match RequiredStr(uri)
        case Err(e) => Err(e)
        case Ok(u) =>
          match ValidateUriProtocol(u)
          case Err(e) => Err(e)
          case Ok(v) => Ok(ConfigBody(n, v))
  }

  /** `EditExtraConfigBody`: defaults are not validated; a given new name must be non-empty. */
  function ParseEditBody(name: Field, newName: Field, uri: Field, enabled: Option<bool>): (r: Result<EditBody, SchemaError>)
    ensures r.Ok? <==>
      && name.Str?
      && !newName.Null? && (newName.Str? ==> |newName.s| >= 1)
      && !uri.Null? && (uri.Str? ==> uri.s == "" || HasValidProtocol(uri.s))
    ensures r.Ok? ==> r.value.name == name.s && r.value.enabled == enabled
    ensures r.Ok? ==> r.value.newName == (if newName.Str? then Some(newName.s) else None)
    ensures r.Ok? ==> r.value.uri == (if uri.Str? then Some(uri.s) else None)
  {
    match RequiredStr(name)
    case Err(e) => Err(e)
    case Ok(n) =>
      match OptionalStr(newName)
      case Err(e) => Err(e)
      case Ok(nn) =>
        if nn.Some? && |nn.value| < 1 then Err(TooShort)
        else match OptionalStr(uri)
          case Err(e) => Err(e)
          case Ok(u) =>
            if u.None? then Ok(EditBody(n, nn, None, enabled))
            else match ValidateEditUri(u.value)
              case Err(e) => Err(e)
              case Ok(v) => Ok(EditBody(n, nn, Some(v), enabled))
  }

  /** A URI the add body accepts also passes the registry's own protocol check. */
  lemma AcceptedBodyPassesAdd(name: Field, uri: Field, configs: seq<ExtraConfig.Entry>)
    requires ParseConfigBody(name, uri).Ok?
    ensures ExtraConfig.Add(configs, name.s, uri.s) != Err(ExtraConfig.InvalidUri)
  {
    ProtocolListsAgree(uri.s);
  }

  /** A URI the edit body accepts also passes the registry's check on edit. */
  lemma AcceptedEditPassesUriCheck(name: Field, newName: Field, uri: Field, enabled: Option<bool>)
    requires ParseEditBody(name, newName, uri, enabled).Ok?
    ensures var b := ParseEditBody(name, newName, uri, enabled).value;
      ExtraConfig.Given(b.uri) ==> ExtraConfig.HasValidProtocol(b.uri.value)
  {
    if uri.Str? {
      ProtocolListsAgree(uri.s);
    }
  }
}
