/**
 * The post-processing of the generated OpenAPI document
 * (webpanel/openapi/openapi.py): the single server entry under the root
 * path, the API-key security scheme, and the security requirement appended
 * to every operation under `/api/v1/`. The document is a JSON object; an
 * exception the code would raise is an `Err` naming where it happens.
 */
module OpenApi {
  import opened Wrappers
  import opened Text
  import opened Json

  const ApiPrefix := "/api/v1/"

  /** Where the code raises: a missing key, or a value of the wrong kind. */
  datatype SetupError =
    | NoComponents         // `["components"]` is missing
    | ComponentsNotDict    // item assignment on a value that is not a dict
    | NoPaths              // `["paths"]` is missing
    | PathsNotDict         // `.items()` on a value that is not a dict
    | OperationsNotDict    // `.values()` on a value that is not a dict
    | OperationNotDict     // `operation["security"]` on a value that is not a dict
    | SecurityNotList      // `.append` on a value that is not a list

  /** The requirement appended to each operation: `{"ApiKeyAuth": []}`. */
  function Requirement(): Json {
    JObj(map["ApiKeyAuth" := JArr([])])
  }

  function Servers(rootPath: string): Json {
    JArr([JObj(map["url" := JStr("/" + rootPath), "description" := JStr("Root path of the API")])])
  }

  function SecuritySchemes(): Json {
    JObj(map["ApiKeyAuth" := JObj(map["type" := JStr("apiKey"), "in" := JStr("header"), "name" := JStr("Authorization")])])
  }

  /** One operation: its `security` list, empty when missing, gets the requirement at its end. */
  function Secure(operation: Json): (r: Result<Json, SetupError>)
    ensures r.Err? <==> !operation.JObj? || ("security" in operation.fields && !operation.fields["security"].JArr?)
    ensures r.Err? ==> r.error == (if operation.JObj? then SecurityNotList else OperationNotDict)
    ensures r.Ok? ==> r.value.JObj? && r.value.fields.Keys == operation.fields.Keys + {"security"}
    ensures r.Ok? ==> forall k :: k in operation.fields && k != "security" ==> r.value.fields[k] == operation.fields[k]
    ensures r.Ok? ==> r.value.fields["security"] == JArr(Get(operation.fields, "security", JArr([])).items + [Requirement()])
  {
    if !operation.JObj? then Err(OperationNotDict)
    else
      var security := Get(operation.fields, "security", JArr([]));
      if !security.JArr? then Err(SecurityNotList)
      else Ok(JObj(operation.fields["security" := JArr(security.items + [Requirement()])]))
  }

  /**
   * Every operation of a path, when all of them can be secured; otherwise
   * the errors the failing operations raise. Which of them the code raises
   * depends on the order of the dict, which a map does not have.
   */
  function SecureAll(operations: map<string, Json>): (r: Result<map<string, Json>, set<SetupError>>)
    ensures r.Ok? <==> forall m :: m in operations ==> Secure(operations[m]).Ok?
    ensures r.Ok? ==> r.value.Keys == operations.Keys
    ensures r.Ok? ==> forall m :: m in operations ==> Secure(operations[m]) == Ok(r.value[m])
    ensures r.Err? ==> forall e :: e in r.error <==> exists m :: m in operations && Secure(operations[m]) == Err(e)
  {
    if forall m :: m in operations ==> Secure(operations[m]).Ok? then
      Ok(map m | m in operations :: Secure(operations[m]).value)
    else
      Err(set m | m in operations && Secure(operations[m]).Err? :: Secure(operations[m]).error)
  }

  /** One path: under `/api/v1/` its operations are secured, any other path is left as it is. */
  function SecurePath(path: string, operations: Json): (r: Result<Json, set<SetupError>>)
    ensures !StartsWith(path, ApiPrefix) ==> r == Ok(operations)
    ensures StartsWith(path, ApiPrefix) && !operations.JObj? ==> r == Err({OperationsNotDict})
    ensures StartsWith(path, ApiPrefix) && operations.JObj? ==>
      r == (match SecureAll(operations.fields) case Ok(m) => Ok(JObj(m)) case Err(e) => Err(e))
  {
    if !StartsWith(path, ApiPrefix) then Ok(operations)
    else if !operations.JObj? then Err({OperationsNotDict})
    else match SecureAll(operations.fields)
      case Ok(m) => Ok(JObj(m))
      case Err(e) => Err(e)
  }

  /** The `paths` object after the loop, or the errors the failing paths raise. */
  function SecurePaths(paths: map<string, Json>): (r: Result<map<string, Json>, set<SetupError>>)
    ensures r.Ok? <==> forall p :: p in paths ==> SecurePath(p, paths[p]).Ok?
    ensures r.Ok? ==> r.value.Keys == paths.Keys
    ensures r.Ok? ==> forall p :: p in paths ==> SecurePath(p, paths[p]) == Ok(r.value[p])
    ensures r.Err? ==> forall e :: e in r.error <==> exists p :: p in paths && SecurePath(p, paths[p]).Err? && e in SecurePath(p, paths[p]).error
  {
    if forall p :: p in paths ==> SecurePath(p, paths[p]).Ok? then
      Ok(map p | p in paths :: SecurePath(p, paths[p]).value)
    else
      Err(set p, e | p in paths && SecurePath(p, paths[p]).Err? && e in SecurePath(p, paths[p]).error :: e)
  }

  /**
   * `setup_openapi_schema` on the generated document: `servers` and
   * `components.securitySchemes` are replaced, `paths` is secured, and every
   * other key is kept. An error is the set of exceptions the code may raise.
   */
  function Setup(schema: map<string, Json>, rootPath: string): (r: Result<map<string, Json>, set<SetupError>>)
    ensures "components" !in schema ==> r == Err({NoComponents})
    ensures "components" in schema && !schema["components"].JObj? ==> r == Err({ComponentsNotDict})
    ensures "components" in schema && schema["components"].JObj? && "paths" !in schema ==> r == Err({NoPaths})
    ensures "components" in schema && schema["components"].JObj? && "paths" in schema && !schema["paths"].JObj? ==>
      r == Err({PathsNotDict})
    ensures
      && "components" in schema && schema["components"].JObj? && "paths" in schema && schema["paths"].JObj?
      && SecurePaths(schema["paths"].fields).Err?
      ==> r == Err(SecurePaths(schema["paths"].fields).error)
    // the document is set up exactly when both objects are present and every path can be secured
    ensures r.Ok? <==>
      && "components" in schema && schema["components"].JObj?
      && "paths" in schema && schema["paths"].JObj?
      && SecurePaths(schema["paths"].fields).Ok?
    ensures r.Ok? ==> r.value.Keys == schema.Keys + {"servers"}
    ensures r.Ok? ==> r.value["servers"] == Servers(rootPath)
    ensures r.Ok? ==> r.value["components"] == JObj(schema["components"].fields["securitySchemes" := SecuritySchemes()])
    ensures r.Ok? ==> r.value["paths"] == JObj(SecurePaths(schema["paths"].fields).value)
    ensures r.Ok? ==> forall k :: k in schema && k !in {"servers", "components", "paths"} ==> r.value[k] == schema[k]
  {
    if "components" !in schema then Err({NoComponents})
    else if !schema["components"].JObj? then Err({ComponentsNotDict})
    else if "paths" !in schema then Err({NoPaths})
    else if !schema["paths"].JObj? then Err({PathsNotDict})
    else match SecurePaths(schema["paths"].fields)
      case Err(e) => Err(e)
      case Ok(paths) =>
        var components := JObj(schema["components"].fields["securitySchemes" := SecuritySchemes()]);
        Ok(schema["servers" := Servers(rootPath)]["components" := components]["paths" := JObj(paths)])
  }

  /** The `paths` entry of a set-up document. */
  function PathOf(doc: map<string, Json>, path: string): Option<Json> {
    if "paths" in doc && doc["paths"].JObj? && path in doc["paths"].fields then Some(doc["paths"].fields[path]) else None
  }

  /** A path outside `/api/v1/` is the same after the setup as before. */
  lemma OtherPathsUnchanged(schema: map<string, Json>, rootPath: string, path: string)
    requires Setup(schema, rootPath).Ok?
    requires !StartsWith(path, ApiPrefix)
    ensures PathOf(Setup(schema, rootPath).value, path) == PathOf(schema, path)
  {
    var paths := schema["paths"].fields;
    var secured := SecurePaths(paths).value;
    if path in paths {
      assert SecurePath(path, paths[path]) == Ok(secured[path]);
    }
  }

  /**
   * Under `/api/v1/` every operation keeps its fields and ends with its old
   * security requirements (none when it had no `security`) followed by
   * `{"ApiKeyAuth": []}`.
   */
  lemma ApiOperationsSecured(schema: map<string, Json>, rootPath: string, path: string, m: string)
    requires Setup(schema, rootPath).Ok?
    requires StartsWith(path, ApiPrefix)
    requires PathOf(schema, path).Some? && PathOf(schema, path).value.JObj? && m in PathOf(schema, path).value.fields
    ensures var after := PathOf(Setup(schema, rootPath).value, path);
      && after.Some? && after.value.JObj? && m in after.value.fields
      && Secure(PathOf(schema, path).value.fields[m]) == Ok(after.value.fields[m])
  {
    var paths := schema["paths"].fields;
    var secured := SecurePaths(paths).value;
    var ops := paths[path];
    assert SecurePath(path, ops) == Ok(secured[path]);
    var all := SecureAll(ops.fields);
    assert all.Ok? && secured[path] == JObj(all.value);
    assert Secure(ops.fields[m]) == Ok(all.value[m]);
  }

  /** An operation that had no `security` ends with exactly the one requirement. */
  lemma NewSecurityIsSingle(operation: Json)
    requires operation.JObj? && "security" !in operation.fields
    ensures Secure(operation).Ok? && Secure(operation).value.fields["security"] == JArr([Requirement()])
  {
    assert [] + [Requirement()] == [Requirement()];
  }

  /** Setting up twice appends the requirement twice: the setup is not idempotent. */
  lemma SecureTwice(operation: Json)
    requires Secure(operation).Ok?
    ensures var once := Secure(operation).value;
      && Secure(once).Ok?
      && Secure(once).value.fields["security"] == JArr(Get(operation.fields, "security", JArr([])).items + [Requirement(), Requirement()])
  {
    var before := Get(operation.fields, "security", JArr([])).items;
    var once := Secure(operation).value;
    assert Get(once.fields, "security", JArr([])) == JArr(before + [Requirement()]);
    assert before + [Requirement()] + [Requirement()] == before + [Requirement(), Requirement()];
  }

  /** The inner loop: secure every operation of one `/api/v1/` path. */
  method SecureOperations(operations: map<string, Json>) returns (r: Result<map<string, Json>, SetupError>)
    ensures r.Ok? <==> SecureAll(operations).Ok?
    ensures r.Ok? ==> r.value == SecureAll(operations).value
    ensures r.Err? ==> r.error in SecureAll(operations).error
  {
    var result: map<string, Json> := map[];
    var todo := operations.Keys;
    while todo != {}
      invariant todo <= operations.Keys
      invariant result.Keys == operations.Keys - todo
      invariant forall m :: m in result ==> Secure(operations[m]) == Ok(result[m])
      decreases todo
    {
      var m :| m in todo;
      var operation := operations[m];
      if !operation.JObj? {
        return Err(OperationNotDict);
      }
      var fields := operation.fields;
      if "security" !in fields {
        fields := fields["security" := JArr([])];
      }
      if !fields["security"].JArr? {
        return Err(SecurityNotList);
      }
      var security := fields["security"];
      assert security == Get(operation.fields, "security", JArr([]));
      fields := fields["security" := JArr(security.items + [Requirement()])];
      assert fields == operation.fields["security" := JArr(security.items + [Requirement()])];
      result := result[m := JObj(fields)];
      todo := todo - {m};
    }
    assert result == map m | m in operations :: Secure(operations[m]).value;
    return Ok(result);
  }

  /** The outer loop over the paths. */
  method SecurePathsLoop(paths: map<string, Json>) returns (r: Result<map<string, Json>, SetupError>)
    ensures r.Ok? <==> SecurePaths(paths).Ok?
    ensures r.Ok? ==> r.value == SecurePaths(paths).value
    ensures r.Err? ==> r.error in SecurePaths(paths).error
  {
    var result: map<string, Json> := map[];
    var todo := paths.Keys;
    while todo != {}
      invariant todo <= paths.Keys
      invariant result.Keys == paths.Keys - todo
      invariant forall p :: p in result ==> SecurePath(p, paths[p]) == Ok(result[p])
      decreases todo
    {
      var p :| p in todo;
      var operations := paths[p];
      if StartsWith(p, ApiPrefix) {
        if !operations.JObj? {
          return Err(OperationsNotDict);
        }
        var secured := SecureOperations(operations.fields);
        if secured.Err? {
          return secured;
        }
        operations := JObj(secured.value);
      }
      result := result[p := operations];
      todo := todo - {p};
    }
    assert result == map p | p in paths :: SecurePath(p, paths[p]).value;
    return Ok(result);
  }

  /** `setup_openapi_schema` as written. */
  method SetupOpenapiSchema(schema: map<string, Json>, rootPath: string) returns (r: Result<map<string, Json>, SetupError>)
    ensures r.Ok? <==> Setup(schema, rootPath).Ok?
    ensures r.Ok? ==> r.value == Setup(schema, rootPath).value
    ensures r.Err? ==> r.error in Setup(schema, rootPath).error
  {
    var doc := schema["servers" := Servers(rootPath)];
    if "components" !in doc {
      return Err(NoComponents);
    }
    if !doc["components"].JObj? {
      return Err(ComponentsNotDict);
    }
    doc := doc["components" := JObj(doc["components"].fields["securitySchemes" := SecuritySchemes()])];
    if "paths" !in doc {
      return Err(NoPaths);
    }
    if !doc["paths"].JObj? {
      return Err(PathsNotDict);
    }
    var paths := SecurePathsLoop(doc["paths"].fields);
    if paths.Err? {
      return paths;
    }
    doc := doc["paths" := JObj(paths.value)];
    return Ok(doc);
  }
}
