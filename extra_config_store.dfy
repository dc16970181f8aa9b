/**
 * The registry commands as the script runs them: the list read from the file
 * is a field, `add` appends to it, `edit` assigns the found entry's fields one
 * by one, and `delete` replaces the list by the filtered one. An error leaves
 * the field as read, which is what exiting before `write_configs` amounts to.
 */
module ExtraConfigStore {
  import opened Wrappers
  import opened ExtraConfig

  class Store {
    var configs: seq<Entry>

    /** `read_configs`. */
    constructor (f: ConfigFile)
      ensures configs == ReadConfigs(f)
    {
      if f.Parsed? {
        configs := f.entries;
      } else {
        configs := [];
      }
    }

    /** `add_config`. */
    method AddConfig(name: string, uri: string) returns (err: Option<Error>)
      modifies this
      ensures configs == After(old(configs), Add(old(configs), name, uri))
      ensures err == ErrorOf(Add(old(configs), name, uri))
    {
      if !HasValidProtocol(uri) {
        return Some(InvalidUri);
      }
      if NameTaken(configs, name) {
        return Some(NameExists);
      }
      if UriTaken(configs, uri) {
        return Some(UriExists);
      }
      configs := configs + [Entry(name, Some(uri), true)];
      return None;
    }

    /** `edit_config`: the checks, then the found entry's fields are assigned one after another. */
    method EditConfig(name: string, newName: Option<string>, newUri: Option<string>, enabled: EnabledArg)
      returns (err: Option<Error>)
      modifies this
      ensures configs == After(old(configs), Edit(old(configs), name, newName, newUri, enabled))
      ensures err == ErrorOf(Edit(old(configs), name, newName, newUri, enabled))
    {
      var found := FirstIndex(configs, name);
      if found.None? {
        return Some(NotFound);
      }
      var i := found.value;
      if Given(newUri) && !HasValidProtocol(newUri.value) {
        return Some(InvalidUri);
      }
      if Given(newName) && newName.value != name && NameTaken(configs, newName.value) {
        return Some(NameExists);
      }
      // the found dict, whose fields are assigned in place
      var entry := configs[i];
      if Given(newName) && newName.value != name {
        entry := entry.(name := newName.value);
      }
      if Given(newUri) {
        entry := entry.(uri := newUri);
      }
      match enabled {
        case NoChange =>
        case Text(s) =>
          entry := entry.(enabled := Text.AsciiLower(s) == "true");
        case Other(t) =>
          entry := entry.(enabled := t);
      }
      assert entry == Edited(configs[i], name, newName, newUri, enabled);
      assert Edit(configs, name, newName, newUri, enabled) == Ok(configs[i := entry]);
      configs := configs[i := entry];
      return None;
    }

    /** `delete_config`. */
    method DeleteConfig(name: string) returns (err: Option<Error>)
      modifies this
      ensures configs == After(old(configs), Delete(old(configs), name))
      ensures err == ErrorOf(Delete(old(configs), name))
    {
      var initialLength := |configs|;
      var kept := WithoutName(configs, name);
      if |kept| == initialLength {
        return Some(NotFound);
      }
      configs := kept;
      return None;
    }
  }
}
