/**
 * Loading the reseller bot's configuration (webpanel/routers/reseller/reseller.py,
 * `load_config`): the stored JSON object, or the built-in default when the
 * file is missing, is not an object, or reading it raises. A legacy file
 * (one without "menus") has its `keyboard` rows migrated into a "main"
 * menu, turning "support" buttons into "text" buttons; missing "prices" get
 * the default price list.
 */
module Reseller {
  import opened Wrappers
  import opened Json

  /** The configuration file: missing, not readable as JSON, or decoded. */
  datatype ConfigFile = Missing | Unreadable | Loaded(data: Json)

  const DefaultWelcome := "Welcome! Choose an option:"
  const DefaultSupport := "Contact @admin"

  function Button(text: string, action: string, param: string): Json {
    JObj(map["text" := JStr(text), "action" := JStr(action), "param" := JStr(param)])
  }

  function DefaultPrices(): Json {
    JObj(map["1_day" := JReal(1.0), "7_days" := JReal(5.0), "30_days" := JReal(10.0),
             "90_days" := JReal(25.0), "365_days" := JReal(80.0)])
  }

  function DefaultConfig(): (c: Json)
    ensures c.JObj? && "menus" in c.fields && "prices" in c.fields
  {
    JObj(map[
      "bot_token" := JStr(""),
      "cryptobot_token" := JStr(""),
      "prices" := DefaultPrices(),
      "menus" := JObj(map[
        "main" := JObj(map[
          "text" := JStr(DefaultWelcome),
          "buttons" := JArr([
            JArr([Button("\U{1F4B3} Buy VPN", "submenu", "buy_menu"), Button("\U{1F511} My Key", "my_key", "")]),
            JArr([Button("\U{1F4D6} Instructions", "text", "This is a VPN bot..."), Button("\U{1F198} Support", "text", DefaultSupport)])]),
          "type" := JStr("reply")]),
        "buy_menu" := JObj(map[
          "text" := JStr("Select a plan:"),
          "buttons" := JArr([
            JArr([Button("1 Day - $1.0", "payment", "1_day")]),
            JArr([Button("30 Days - $10.0", "payment", "30_days")]),
            JArr([Button("\U{1F519} Back", "submenu", "main")])]),
          "type" := JStr("inline")])])])
  }

  /**
   * What `for x in v` visits, when a body that needs dicts follows: a list
   * gives its items, an empty dict or empty string gives nothing, and
   * anything else raises (keys and characters are not dicts, scalars are
   * not iterable).
   */
  function Iterate(v: Json): (r: Option<seq<Json>>)
    ensures v.JArr? ==> r == Some(v.items)
    ensures r.None? <==> !(v.JArr? || v == JObj(map[]) || v == JStr(""))
    ensures r.Some? && !v.JArr? ==> r.value == []
  {
    match v
    case JArr(items) => Some(items)
    case JObj(m) => if m == map[] then Some([]) else None
    case JStr(s) => if s == "" then Some([]) else None
    case _ => None
  }

  predicate IsSupport(btn: Json)
    requires btn.JObj? && "action" in btn.fields
  {
    btn.fields["action"] == JStr("support")
  }

  /**
   * One legacy button: `btn['action']` must exist; a "support" button
   * becomes a "text" button whose param is `messages.support_text`, which
   * raises when "messages" is not a dict.
   */
  function MigrateButton(btn: Json, messages: Json): (r: Option<Json>)
    ensures r.Some? <==> btn.JObj? && "action" in btn.fields && (IsSupport(btn) ==> messages.JObj?)
  {
    if !btn.JObj? || "action" !in btn.fields then None
    else if !IsSupport(btn) then Some(btn)
    else if !messages.JObj? then None
    else Some(JObj(btn.fields["action" := JStr("text")]["param" := Get(messages.fields, "support_text", JStr(DefaultSupport))]))
  }

  /** What a migrated button holds: a support button becomes a text button, any other is kept. */
  lemma MigratedButton(btn: Json, messages: Json)
    requires MigrateButton(btn, messages).Some?
    ensures !IsSupport(btn) ==> MigrateButton(btn, messages).value == btn
    ensures IsSupport(btn) ==>
      var b := MigrateButton(btn, messages).value;
      && b.JObj?
      && b.fields.Keys == btn.fields.Keys + {"param"}
      && b.fields["action"] == JStr("text")
      && b.fields["param"] == Get(messages.fields, "support_text", JStr(DefaultSupport))
      && forall k :: k in btn.fields && k != "action" && k != "param" ==> b.fields[k] == btn.fields[k]
  {
  }

  /** The buttons of one row, migrated in order; one that raises makes the whole load raise. */
  function MigrateButtons(btns: seq<Json>, messages: Json): (r: Option<seq<Json>>)
    ensures r.Some? ==> |r.value| == |btns|
    decreases |btns|
  {
    if btns == [] then Some([])
    else
      match MigrateButtons(btns[..|btns| - 1], messages)
      case None => None
      case Some(done) =>
        match MigrateButton(btns[|btns| - 1], messages)
        case None => None
        case Some(b) => Some(done + [b])
  }

  /** The row migrates exactly when every button does, each one to its own migration. */
  lemma {:induction false} MigrateButtonsAll(btns: seq<Json>, messages: Json)
    ensures MigrateButtons(btns, messages).Some? <==> forall j :: 0 <= j < |btns| ==> MigrateButton(btns[j], messages).Some?
    ensures MigrateButtons(btns, messages).Some? ==>
      forall j :: 0 <= j < |btns| ==> MigrateButtons(btns, messages).value[j] == MigrateButton(btns[j], messages).value
    decreases |btns|
  {
    if btns != [] {
      var init := btns[..|btns| - 1];
      MigrateButtonsAll(init, messages);
      assert forall j :: 0 <= j < |init| ==> init[j] == btns[j];
    }
  }

  /** `row.get('buttons', [])` as the inner loop visits it; a row that is not a dict raises. */
  function RowButtons(row: Json): (r: Option<seq<Json>>)
    ensures r.Some? ==> row.JObj?
  {
    if !row.JObj? then None else Iterate(Get(row.fields, "buttons", JArr([])))
  }

  function MigrateRow(row: Json, messages: Json): Option<seq<Json>> {
    match RowButtons(row)
    case None => None
    case Some(btns) => MigrateButtons(btns, messages)
  }

  /** The rows of the new main menu, one per legacy row, in order. */
  function MigrateRows(rows: seq<Json>, messages: Json): (r: Option<seq<seq<Json>>>)
    ensures r.Some? ==> |r.value| == |rows|
    decreases |rows|
  {
    if rows == [] then Some([])
    else
      match MigrateRows(rows[..|rows| - 1], messages)
      case None => None
      case Some(done) =>
        match MigrateRow(rows[|rows| - 1], messages)
        case None => None
        case Some(row) => Some(done + [row])
  }

  /** The rows migrate exactly when every row does, each one to its own migration. */
  lemma {:induction false} MigrateRowsAll(rows: seq<Json>, messages: Json)
    ensures MigrateRows(rows, messages).Some? <==> forall i :: 0 <= i < |rows| ==> MigrateRow(rows[i], messages).Some?
    ensures MigrateRows(rows, messages).Some? ==>
      forall i :: 0 <= i < |rows| ==> MigrateRows(rows, messages).value[i] == MigrateRow(rows[i], messages).value
    decreases |rows|
  {
    if rows != [] {
      var init := rows[..|rows| - 1];
      MigrateRowsAll(init, messages);
      assert forall i :: 0 <= i < |init| ==> init[i] == rows[i];
    }
  }

  /**
   * The buttons are changed in place, so a stored `keyboard` row whose
   * "buttons" is a list ends up holding the migrated buttons too.
   */
  predicate HasButtonList(row: Json) {
    row.JObj? && "buttons" in row.fields && row.fields["buttons"].JArr?
  }

  function RewriteRow(row: Json, newRow: seq<Json>): Json {
    if HasButtonList(row) then JObj(row.fields["buttons" := JArr(newRow)]) else row
  }

  function RewriteRows(rows: seq<Json>, newRows: seq<seq<Json>>): (r: seq<Json>)
    requires |newRows| == |rows|
    ensures |r| == |rows|
    // a row whose "buttons" is a list holds the new buttons in that list; any other row is as it was
    ensures forall i :: 0 <= i < |rows| && HasButtonList(rows[i]) ==>
      r[i] == JObj(rows[i].fields["buttons" := JArr(newRows[i])])
    ensures forall i :: 0 <= i < |rows| && !HasButtonList(rows[i]) ==> r[i] == rows[i]
  {
    seq(|rows|, i requires 0 <= i < |rows| => RewriteRow(rows[i], newRows[i]))
  }

  function AsArrays(rows: seq<seq<Json>>): (r: seq<Json>)
    ensures |r| == |rows| && forall i :: 0 <= i < |rows| ==> r[i] == JArr(rows[i])
  {
    seq(|rows|, i requires 0 <= i < |rows| => JArr(rows[i]))
  }

  function MainMenu(welcome: Json, rows: seq<seq<Json>>): Json {
    JObj(map["main" := JObj(map["text" := welcome, "buttons" := JArr(AsArrays(rows))])])
  }

  /** `data.get('messages', {})`. */
  function Messages(data: map<string, Json>): Json {
    Get(data, "messages", JObj(map[]))
  }

  /** The legacy migration, or None where it raises. */
  function Migrate(data: map<string, Json>): (r: Option<map<string, Json>>)
    requires "menus" !in data
    ensures r.Some? ==> r.value.Keys == data.Keys + {"menus"}
    ensures r.Some? ==> forall k :: k in data && k != "keyboard" ==> r.value[k] == data[k]
    ensures r.Some? ==> Messages(data).JObj?
    // a stored keyboard list is rewritten in place: its rows hold the migrated buttons
    ensures r.Some? && "keyboard" in data && data["keyboard"].JArr? ==>
      && MigrateRows(data["keyboard"].items, Messages(data)).Some?
      && r.value["keyboard"] == JArr(RewriteRows(data["keyboard"].items, MigrateRows(data["keyboard"].items, Messages(data)).value))
    ensures r.Some? && "keyboard" in data && !data["keyboard"].JArr? ==> r.value["keyboard"] == data["keyboard"]
  {
    var oldKb := Get(data, "keyboard", JArr([]));
    match Iterate(oldKb)
    case None => None
    case Some(rows) =>
      match MigrateRows(rows, Messages(data))
      case None => None
      case Some(newRows) =>
        match GetOf(Messages(data), "welcome", JStr(DefaultWelcome))
        case None => None
        case Some(welcome) =>
          var kb := if "keyboard" in data && oldKb.JArr? then data["keyboard" := JArr(RewriteRows(rows, newRows))] else data;
          Some(kb["menus" := MainMenu(welcome, newRows)])
  }

  function WithPrices(data: map<string, Json>): (r: map<string, Json>)
    ensures "prices" in r
    ensures r.Keys == data.Keys + {"prices"}
    ensures forall k :: k in data ==> r[k] == data[k]
    ensures "prices" !in data ==> r["prices"] == DefaultPrices()
  {
    if "prices" in data then data else data["prices" := DefaultPrices()]
  }

  /** `load_config`. */
  function Load(file: ConfigFile): (r: Json)
    ensures r.JObj? && "menus" in r.fields && "prices" in r.fields
    ensures !file.Loaded? || !file.data.JObj? ==> r == DefaultConfig()
    // an existing "menus" means no migration: only missing prices are filled in
    ensures file.Loaded? && file.data.JObj? && "menus" in file.data.fields ==>
      r == JObj(WithPrices(file.data.fields))
  {
    if !file.Loaded? || !file.data.JObj? then DefaultConfig()
    else
      var data := file.data.fields;
      if "menus" in data then JObj(WithPrices(data))
      else match Migrate(data)
        case None => DefaultConfig()
        case Some(migrated) => JObj(WithPrices(migrated))
  }

  /** A loaded configuration always has "menus" and "prices", so loading it again changes nothing. */
  lemma LoadIdempotent(file: ConfigFile)
    ensures Load(Loaded(Load(file))) == Load(file)
  {
    var r := Load(file);
    assert WithPrices(r.fields) == r.fields;
  }

  /**
   * A legacy file whose rows and buttons all migrate loads into a single
   * "main" menu: `messages.welcome` (default "Welcome! Choose an option:") as
   * text and one row per legacy row, buttons in order. Every other stored
   * entry except "keyboard" is kept.
   */
  lemma LegacyMigration(data: map<string, Json>, rows: seq<Json>)
    requires "menus" !in data
    requires Iterate(Get(data, "keyboard", JArr([]))) == Some(rows)
    requires Messages(data).JObj?
    requires forall i :: 0 <= i < |rows| ==> MigrateRow(rows[i], Messages(data)).Some?
    ensures MigrateRows(rows, Messages(data)).Some?
    ensures
      var r := Load(Loaded(JObj(data)));
      var newRows := MigrateRows(rows, Messages(data)).value;
      && r.fields["menus"] == MainMenu(Get(Messages(data).fields, "welcome", JStr(DefaultWelcome)), newRows)
      && |newRows| == |rows|
      && (forall k :: k in data && k != "keyboard" ==> r.fields[k] == data[k])
      && ("prices" !in data ==> r.fields["prices"] == DefaultPrices())
      // the stored keyboard is left rewritten, not removed
      && ("keyboard" in data && data["keyboard"].JArr? ==> r.fields["keyboard"] == JArr(RewriteRows(rows, newRows)))
      && ("keyboard" in data && !data["keyboard"].JArr? ==> r.fields["keyboard"] == data["keyboard"])
  {
    MigrateRowsAll(rows, Messages(data));
    var m := Migrate(data);
    assert m.Some?;
    assert Load(Loaded(JObj(data))) == JObj(WithPrices(m.value));
  }

  /**
   * Because the buttons are changed in place, row `i` of the stored keyboard
   * shares its buttons with row `i` of the new main menu: a row whose
   * "buttons" is a list holds that row's migrated buttons, any other row is
   * left as it was.
   */
  lemma LegacyKeyboardShared(data: map<string, Json>, rows: seq<Json>, i: int)
    requires "menus" !in data
    requires Iterate(Get(data, "keyboard", JArr([]))) == Some(rows)
    requires Messages(data).JObj?
    requires forall j :: 0 <= j < |rows| ==> MigrateRow(rows[j], Messages(data)).Some?
    requires 0 <= i < |rows|
    ensures
      var r := Load(Loaded(JObj(data)));
      var migrated := MigrateRow(rows[i], Messages(data)).value;
      && "keyboard" in r.fields && r.fields["keyboard"].JArr? && |r.fields["keyboard"].items| == |rows|
      && (HasButtonList(rows[i]) ==> r.fields["keyboard"].items[i] == JObj(rows[i].fields["buttons" := JArr(migrated)]))
      && (!HasButtonList(rows[i]) ==> r.fields["keyboard"].items[i] == rows[i])
      && r.fields["menus"].fields["main"].fields["buttons"].items[i] == JArr(migrated)
  {
    LegacyMigration(data, rows);
    MigrateRowsAll(rows, Messages(data));
    assert "keyboard" in data && data["keyboard"] == JArr(rows);
  }

  /** Any part of the migration that raises yields the default configuration. */
  lemma LegacyFailure(data: map<string, Json>)
    requires "menus" !in data
    requires
      || Iterate(Get(data, "keyboard", JArr([]))).None?
      || !Messages(data).JObj?
      || exists i :: 0 <= i < |Iterate(Get(data, "keyboard", JArr([]))).value|
           && MigrateRow(Iterate(Get(data, "keyboard", JArr([]))).value[i], Messages(data)).None?
    ensures Load(Loaded(JObj(data))) == DefaultConfig()
  {
    var rows := Iterate(Get(data, "keyboard", JArr([])));
    if rows.Some? {
      MigrateRowsAll(rows.value, Messages(data));
    }
  }

  /** One legacy button, as the inner loop changes it. */
  method MigrateButtonInPlace(btn: Json, messages: Json) returns (r: Option<Json>)
    ensures r == MigrateButton(btn, messages)
  {
    if !btn.JObj? || "action" !in btn.fields {
      return None;
    }
    var b := btn;
    if b.fields["action"] == JStr("support") {
      if !messages.JObj? {
        return None;
      }
      b := JObj(b.fields["action" := JStr("text")]);
      b := JObj(b.fields["param" := Get(messages.fields, "support_text", JStr(DefaultSupport))]);
    }
    return Some(b);
  }

  /** The inner loop of `load_config`: one row's buttons, migrated in order. */
  method MigrateRowInPlace(row: Json, messages: Json) returns (r: Option<seq<Json>>)
    ensures r == MigrateRow(row, messages)
  {
    var btnsOpt := RowButtons(row);
    if btnsOpt.None? {
      return None;
    }
    var btns := btnsOpt.value;
    var newRow: seq<Json> := [];
    for j := 0 to |btns|
      invariant MigrateButtons(btns[..j], messages) == Some(newRow)
    {
      var b := MigrateButtonInPlace(btns[j], messages);
      if b.None? {
        MigrateButtonsAll(btns, messages);
        return None;
      }
      var prefix := btns[..j + 1];
      assert prefix[..j] == btns[..j] && prefix[j] == btns[j];
      assert MigrateButtons(prefix, messages) == Some(newRow + [b.value]);
      newRow := newRow + [b.value];
    }
    assert btns[..|btns|] == btns;
    return Some(newRow);
  }

  /** The legacy branch of `load_config`: the row loop builds `new_buttons`, then the main menu. */
  method MigrateInPlace(data: map<string, Json>) returns (r: Option<map<string, Json>>)
    requires "menus" !in data
    ensures r == Migrate(data)
  {
    var oldKb := Get(data, "keyboard", JArr([]));
    var rowsOpt := Iterate(oldKb);
    if rowsOpt.None? {
      return None;
    }
    var rows := rowsOpt.value;
    var messages := Messages(data);
    var newButtons: seq<seq<Json>> := [];
    for i := 0 to |rows|
      invariant MigrateRows(rows[..i], messages) == Some(newButtons)
    {
      var newRow := MigrateRowInPlace(rows[i], messages);
      if newRow.None? {
        MigrateRowsAll(rows, messages);
        return None;
      }
      assert rows[..i + 1][..i] == rows[..i];
      newButtons := newButtons + [newRow.value];
    }
    assert rows[..|rows|] == rows;
    var welcome := GetOf(messages, "welcome", JStr(DefaultWelcome));
    if welcome.None? {
      return None;
    }
    var kb := data;
    if "keyboard" in data && oldKb.JArr? {
      kb := data["keyboard" := JArr(RewriteRows(rows, newButtons))];
    }
    return Some(kb["menus" := MainMenu(welcome.value, newButtons)]);
  }

  /** `load_config`: defaults when unreadable, the legacy migration, then the missing prices. */
  method LoadConfig(file: ConfigFile) returns (config: Json)
    ensures config == Load(file)
  {
    if !file.Loaded? || !file.data.JObj? {
      return DefaultConfig();
    }
    var data := file.data.fields;
    if "menus" !in data {
      var migrated := MigrateInPlace(data);
      if migrated.None? {
        return DefaultConfig();
      }
      data := migrated.value;
    }
    if "prices" !in data {
      data := data["prices" := DefaultPrices()];
    }
    return JObj(data);
  }
}
