/**
 * The registry of extra proxy configurations (core/scripts/hysteria2/extra_config.py):
 * a list of `{name, uri, enabled}` entries kept in a JSON file. Every command
 * reads the list, checks its arguments, and either exits with an error before
 * writing or writes the changed list back.
 */
module ExtraConfig {
  import opened Wrappers
  import opened Text

  const ValidProtocols: seq<string> := ["vmess://", "vless://", "ss://", "trojan://"]

  /** An entry; `uri` is None when the stored object has no "uri" key. */
  datatype Entry = Entry(name: string, uri: Option<string>, enabled: bool)

  /** The configuration file as `read_configs` finds it. */
  datatype ConfigFile = Missing | EmptyFile | Unparseable | Parsed(entries: seq<Entry>)

  datatype Error = InvalidUri | NameExists | UriExists | NotFound

  /** The `enabled` argument of edit: absent, a string, or any other value (by its truthiness). */
  datatype EnabledArg = NoChange | Text(s: string) | Other(truthy: bool)

  /** `read_configs`: a missing, empty or unparseable file reads as the empty list. */
  function ReadConfigs(f: ConfigFile): (configs: seq<Entry>)
    ensures f.Parsed? ==> configs == f.entries
    ensures !f.Parsed? ==> configs == []
  {
    if f.Parsed? then f.entries else []
  }

  /** `any(uri.startswith(p) for p in VALID_PROTOCOLS)`. */
  predicate HasValidProtocol(uri: string) {
    exists k :: 0 <= k < |ValidProtocols| && StartsWith(uri, ValidProtocols[k])
  }

  lemma ValidProtocolCases(uri: string)
    ensures HasValidProtocol(uri) <==>
      (StartsWith(uri, "vmess://") || StartsWith(uri, "vless://") || StartsWith(uri, "ss://") || StartsWith(uri, "trojan://"))
  {
    if StartsWith(uri, "vmess://") { assert StartsWith(uri, ValidProtocols[0]); }
    if StartsWith(uri, "vless://") { assert StartsWith(uri, ValidProtocols[1]); }
    if StartsWith(uri, "ss://") { assert StartsWith(uri, ValidProtocols[2]); }
    if StartsWith(uri, "trojan://") { assert StartsWith(uri, ValidProtocols[3]); }
  }

  /** Every protocol prefix has at least five characters, so a valid URI is never empty. */
  lemma ValidUriNonEmpty(uri: string)
    requires HasValidProtocol(uri)
    ensures |uri| >= 5
  {
    var k :| 0 <= k < |ValidProtocols| && StartsWith(uri, ValidProtocols[k]);
    assert |ValidProtocols[k]| >= 5 by {
      assert |ValidProtocols[0]| == 8 && |ValidProtocols[1]| == 8;
      assert |ValidProtocols[2]| == 5 && |ValidProtocols[3]| == 9;
    }
  }

  predicate NameTaken(configs: seq<Entry>, name: string) {
    exists i :: 0 <= i < |configs| && configs[i].name == name
  }

  /** `c.get('uri', '').strip()`. */
  function StrippedUri(c: Entry): string {
    Strip(c.uri.GetOr(""))
  }

  predicate UriTaken(configs: seq<Entry>, uri: string) {
    exists i :: 0 <= i < |configs| && StrippedUri(configs[i]) == Strip(uri)
  }

  /** No two entries share a name. */
  ghost predicate UniqueNames(configs: seq<Entry>) {
    forall i, j :: 0 <= i < j < |configs| ==> configs[i].name != configs[j].name
  }

  /** No two entries share a stripped URI. */
  ghost predicate UniqueUris(configs: seq<Entry>) {
    forall i, j :: 0 <= i < j < |configs| ==> StrippedUri(configs[i]) != StrippedUri(configs[j])
  }

  /** `add_config`: the checks in the source's order, then the append. */
  function Add(configs: seq<Entry>, name: string, uri: string): (r: Result<seq<Entry>, Error>)
    ensures r == Err(InvalidUri) <==> !HasValidProtocol(uri)
    ensures r == Err(NameExists) <==> HasValidProtocol(uri) && NameTaken(configs, name)
    ensures r == Err(UriExists) <==> HasValidProtocol(uri) && !NameTaken(configs, name) && UriTaken(configs, uri)
    ensures r.Ok? <==> HasValidProtocol(uri) && !NameTaken(configs, name) && !UriTaken(configs, uri)
    // success appends exactly one entry, with the URI as given, and keeps the rest
    ensures r.Ok? ==> r.value == configs + [Entry(name, Some(uri), true)]
  {
    if !HasValidProtocol(uri) then Err(InvalidUri)
    else if NameTaken(configs, name) then Err(NameExists)
    else if UriTaken(configs, uri) then Err(UriExists)
    else
      Ok(configs + [Entry(name, Some(uri), true)])
  }

  /** The duplicate checks of add make it keep names and stripped URIs unique. */
  lemma AddKeepsUnique(configs: seq<Entry>, name: string, uri: string)
    requires Add(configs, name, uri).Ok?
    ensures UniqueNames(configs) ==> UniqueNames(Add(configs, name, uri).value)
    ensures UniqueUris(configs) ==> UniqueUris(Add(configs, name, uri).value)
  {
    var e := Entry(name, Some(uri), true);
    var r := configs + [e];
    assert !NameTaken(configs, name) && !UriTaken(configs, uri);
    assert StrippedUri(e) == Strip(uri);
    forall i, j | 0 <= i < j < |r|
      ensures UniqueNames(configs) ==> r[i].name != r[j].name
      ensures UniqueUris(configs) ==> StrippedUri(r[i]) != StrippedUri(r[j])
    {
      assert r[i] == configs[i];
      if j < |configs| {
        assert r[j] == configs[j];
      } else {
        assert r[j] == e;
      }
    }
  }

  /** The position of the first entry with this name (`next(...)` in the source). */
  function FirstIndex(configs: seq<Entry>, name: string): (r: Option<nat>)
    ensures r.None? <==> !NameTaken(configs, name)
    ensures r.Some? ==> r.value < |configs| && configs[r.value].name == name
    ensures r.Some? ==> forall j :: 0 <= j < r.value ==> configs[j].name != name
  {
    if configs == [] then None
    else if configs[0].name == name then Some(0)
    else match FirstIndex(configs[1..], name)
      case None => None
      case Some(i) => Some(i + 1)
  }

  /** `get_config`: the first entry with this name. */
  function Get(configs: seq<Entry>, name: string): (r: Option<Entry>)
    ensures r.None? <==> !NameTaken(configs, name)
    ensures r.Some? ==> r.value.name == name && r.value in configs
    // it is the first such entry, as `next(...)` finds it
    ensures r.Some? ==> exists i :: 0 <= i < |configs| && configs[i] == r.value && forall j :: 0 <= j < i ==> configs[j].name != name
  {
    match FirstIndex(configs, name)
    case None => None
    case Some(i) => Some(configs[i])
  }

  /** The new `enabled`: a string counts as true iff it is "true" ignoring case. */
  function NewEnabled(current: bool, arg: EnabledArg): (b: bool)
    ensures arg.NoChange? ==> b == current
    ensures arg.Text? ==> (b <==> AsciiLower(arg.s) == "true")
    ensures arg.Other? ==> b == arg.truthy
  {
    match arg
    case NoChange => current
    case Text(s) => AsciiLower(s) == "true"
    case Other(t) => t
  }

  predicate Given(v: Option<string>) {
    v.Some? && v.value != ""
  }

  /** The entry after an edit. */
  function Edited(c: Entry, name: string, newName: Option<string>, newUri: Option<string>, enabled: EnabledArg): Entry {
    Entry(
      if Given(newName) && newName.value != name then newName.value else c.name,
      if Given(newUri) then newUri else c.uri,
      NewEnabled(c.enabled, enabled))
  }

  /** `edit_config`: the name must exist, a given URI must be valid, a rename must not clash. */
  function Edit(configs: seq<Entry>, name: string, newName: Option<string>, newUri: Option<string>, enabled: EnabledArg)
    : (r: Result<seq<Entry>, Error>)
    // the missing name is reported before the URI is checked
    ensures r == Err(NotFound) <==> !NameTaken(configs, name)
    ensures r == Err(InvalidUri) <==> NameTaken(configs, name) && Given(newUri) && !HasValidProtocol(newUri.value)
    ensures r == Err(NameExists) <==>
      && NameTaken(configs, name)
      && !(Given(newUri) && !HasValidProtocol(newUri.value))
      && Given(newName) && newName.value != name && NameTaken(configs, newName.value)
    // every other case succeeds: in particular no URI is checked for duplicates
    ensures r.Ok? <==>
      && NameTaken(configs, name)
      && !(Given(newUri) && !HasValidProtocol(newUri.value))
      && !(Given(newName) && newName.value != name && NameTaken(configs, newName.value))
    // only the first entry with the name changes; the list keeps its length and order
    ensures r.Ok? ==>
      var i := FirstIndex(configs, name).value;
      && |r.value| == |configs|
      && r.value[i] == Edited(configs[i], name, newName, newUri, enabled)
      && (forall j :: 0 <= j < |configs| && j != i ==> r.value[j] == configs[j])
  {
    match FirstIndex(configs, name)
    case None => Err(NotFound)
    case Some(i) =>
      if Given(newUri) && !HasValidProtocol(newUri.value) then Err(InvalidUri)
      else if Given(newName) && newName.value != name && NameTaken(configs, newName.value) then Err(NameExists)
      else Ok(configs[i := Edited(configs[i], name, newName, newUri, enabled)])
  }

  /** The list comprehension of `delete_config`: every entry with another name, in order. */
  function WithoutName(configs: seq<Entry>, name: string): (r: seq<Entry>)
    ensures |r| <= |configs|
    ensures forall c :: c in r <==> c in configs && c.name != name
    ensures |r| == |configs| <==> !NameTaken(configs, name)
  {
    if configs == [] then []
    else if configs[0].name == name then WithoutName(configs[1..], name)
    else [configs[0]] + WithoutName(configs[1..], name)
  }

  /** `delete_config`: fails when nothing was removed. */
  function Delete(configs: seq<Entry>, name: string): (r: Result<seq<Entry>, Error>)
    ensures r.Err? <==> !NameTaken(configs, name)
    ensures r.Err? ==> r.error == NotFound
    ensures r.Ok? ==> r.value == WithoutName(configs, name) && !NameTaken(r.value, name)
  {
    var kept := WithoutName(configs, name);
    if |kept| == |configs| then Err(NotFound) else Ok(kept)
  }

  /** The stored list after an operation: its new value on success, the old one on error. */
  function After(configs: seq<Entry>, r: Result<seq<Entry>, Error>): (next: seq<Entry>)
    ensures r.Err? ==> next == configs
  {
    if r.Ok? then r.value else configs
  }

  function ErrorOf(r: Result<seq<Entry>, Error>): (e: Option<Error>)
    ensures e.None? <==> r.Ok?
  {
    if r.Ok? then None else Some(r.error)
  }

  // ---- Properties of the registry ----

  /** A rename is checked against every name, so edit keeps names unique. */
  lemma EditKeepsUniqueNames(configs: seq<Entry>, name: string, newName: Option<string>, newUri: Option<string>, enabled: EnabledArg)
    requires UniqueNames(configs)
    requires Edit(configs, name, newName, newUri, enabled).Ok?
    ensures UniqueNames(Edit(configs, name, newName, newUri, enabled).value)
  {
    var r := Edit(configs, name, newName, newUri, enabled).value;
    var i := FirstIndex(configs, name).value;
    forall a, b | 0 <= a < b < |r|
      ensures r[a].name != r[b].name
    {
      if a == i || b == i {
        var other := if a == i then b else a;
        assert r[other] == configs[other];
        if Given(newName) && newName.value != name {
          assert r[i].name == newName.value;
          assert !NameTaken(configs, newName.value);
        } else {
          assert r[i].name == configs[i].name;
        }
      }
    }
  }

  /** Giving the second of two entries the first one's URI edits just that entry. */
  lemma EditSecondUri(a: string, b: string, u: string, v: string)
    requires a != b && HasValidProtocol(u)
    ensures
      var configs := [Entry(a, Some(u), true), Entry(b, Some(v), true)];
      Edit(configs, b, None, Some(u), NoChange) == Ok([Entry(a, Some(u), true), Entry(b, Some(u), true)])
  {
    var configs := [Entry(a, Some(u), true), Entry(b, Some(v), true)];
    ValidUriNonEmpty(u);
    assert configs[1..] == [Entry(b, Some(v), true)];
    assert FirstIndex(configs[1..], b) == Some(0);
    assert FirstIndex(configs, b) == Some(1);
    assert configs[1 := Entry(b, Some(u), true)] == [Entry(a, Some(u), true), Entry(b, Some(u), true)];
  }

  /** Edit does not re-check URIs: moving one entry's URI onto another's is accepted. */
  lemma EditCanDuplicateUri(a: string, b: string, u: string, v: string)
    requires a != b && HasValidProtocol(u) && Strip(u) != Strip(v)
    ensures
      var configs := [Entry(a, Some(u), true), Entry(b, Some(v), true)];
      var r := Edit(configs, b, None, Some(u), NoChange);
      UniqueUris(configs) && r.Ok? && !UniqueUris(r.value)
  {
    EditSecondUri(a, b, u, v);
    SharedUri(a, b, u, v);
  }

  lemma SharedUri(a: string, b: string, u: string, v: string)
    requires Strip(u) != Strip(v)
    ensures UniqueUris([Entry(a, Some(u), true), Entry(b, Some(v), true)])
    ensures !UniqueUris([Entry(a, Some(u), true), Entry(b, Some(u), true)])
  {
    var configs := [Entry(a, Some(u), true), Entry(b, Some(v), true)];
    assert UniqueUris(configs) by {
      forall i, j | 0 <= i < j < |configs|
        ensures StrippedUri(configs[i]) != StrippedUri(configs[j])
      {
        assert i == 0 && j == 1;
      }
    }
    var edited := [Entry(a, Some(u), true), Entry(b, Some(u), true)];
    assert StrippedUri(edited[0]) == StrippedUri(edited[1]);
  }

  /** The comprehension distributes over concatenation, so delete keeps the order of the rest. */
  lemma {:induction false} WithoutNameAppend(a: seq<Entry>, b: seq<Entry>, name: string)
    ensures WithoutName(a + b, name) == WithoutName(a, name) + WithoutName(b, name)
    decreases |a|
  {
    if a == [] {
      assert a + b == b;
    } else {
      assert (a + b)[0] == a[0];
      assert (a + b)[1..] == a[1..] + b;
      WithoutNameAppend(a[1..], b, name);
    }
  }

  /** Deleting a name that is absent keeps every entry. */
  lemma {:induction false} WithoutAbsentName(configs: seq<Entry>, name: string)
    requires !NameTaken(configs, name)
    ensures WithoutName(configs, name) == configs
    decreases |configs|
  {
    if configs != [] {
      assert configs[0].name != name;
      assert !NameTaken(configs[1..], name) by {
        forall i | 0 <= i < |configs[1..]| ensures configs[1..][i].name != name {
          assert configs[1..][i] == configs[i + 1];
        }
      }
      WithoutAbsentName(configs[1..], name);
      assert configs == [configs[0]] + configs[1..];
    }
  }

  /** Delete keeps names unique. */
  lemma {:induction false} WithoutNameKeepsUnique(configs: seq<Entry>, name: string)
    requires UniqueNames(configs)
    ensures UniqueNames(WithoutName(configs, name))
    decreases |configs|
  {
    if configs != [] {
      var rest := configs[1..];
      assert UniqueNames(rest) by {
        forall i, j | 0 <= i < j < |rest| ensures rest[i].name != rest[j].name {
          assert rest[i] == configs[i + 1] && rest[j] == configs[j + 1];
        }
      }
      WithoutNameKeepsUnique(rest, name);
      if configs[0].name != name {
        var tail := WithoutName(rest, name);
        var r := [configs[0]] + tail;
        forall k | 0 <= k < |rest| ensures rest[k].name != configs[0].name {
          assert rest[k] == configs[k + 1];
        }
        forall c | c in tail ensures c.name != configs[0].name {
          assert c in rest;
        }
        forall i, j | 0 <= i < j < |r| ensures r[i].name != r[j].name {
          assert r[j] == tail[j - 1];
          if i > 0 {
            assert r[i] == tail[i - 1];
          }
        }
      }
    }
  }

  lemma DeleteKeepsUniqueNames(configs: seq<Entry>, name: string)
    requires UniqueNames(configs)
    ensures UniqueNames(After(configs, Delete(configs, name)))
  {
    WithoutNameKeepsUnique(configs, name);
  }

  /** Deleting what was just added restores the list. */
  lemma AddThenDelete(configs: seq<Entry>, name: string, uri: string)
    requires Add(configs, name, uri).Ok?
    ensures Delete(Add(configs, name, uri).value, name) == Ok(configs)
  {
    var e := Entry(name, Some(uri), true);
    var r := configs + [e];
    assert Add(configs, name, uri).value == r;
    assert !NameTaken(configs, name);
    WithoutNameAppend(configs, [e], name);
    WithoutAbsentName(configs, name);
    assert WithoutName([e], name) == [];
    assert WithoutName(r, name) == configs;
    assert |configs| != |r|;
  }

  /** After a successful add, get finds the new entry, unchanged. */
  lemma AddThenGet(configs: seq<Entry>, name: string, uri: string)
    requires Add(configs, name, uri).Ok?
    ensures Get(Add(configs, name, uri).value, name) == Some(Entry(name, Some(uri), true))
  {
    var r := Add(configs, name, uri).value;
    assert !NameTaken(configs, name);
    assert r[|configs|].name == name;
    assert forall j :: 0 <= j < |configs| ==> r[j] == configs[j];
    assert FirstIndex(r, name).value == |configs|;
  }

}
