/**
 * The reseller Telegram bot (telegrambot/reselbot.py): menus read from the
 * configuration, the keyboards built from them, the callback data of inline
 * buttons and its parsing, the search for a pressed reply button, and text
 * placeholders. The configuration is typed: a button has a text and an
 * optional action and param, a menu a text, rows of buttons and a type.
 */
module Reselbot {
  import opened Wrappers
  import opened Text

  /** A string-valued dict entry as `.get` reads it: missing, JSON null, or a string. */
  datatype Field = Absent | Null | Str(s: string)

  datatype Button = Button(text: string, action: Field, param: Field)

  /**
   * A stored menu (a non-empty dict): `text`, `buttons` (None when the key is
   * missing) and `type`. An empty dict is falsy, and every caller tests a menu
   * for truth before it uses it, so a stored `{}` is modelled like `null`.
   */
  datatype Menu = Menu(text: Field, buttons: Option<seq<seq<Button>>>, kind: Field)

  /**
   * The configuration as the bot reads it: `menus` (None when the key is
   * missing; an entry is None when it is null or `{}`), the legacy `keyboard` (empty
   * when missing) and the prices, each already rendered with `str`.
   */
  datatype Config = Config(menus: Option<map<string, Option<Menu>>>, keyboard: seq<seq<Button>>, prices: map<string, string>)

  /** The Telegram user: `first_name`, `username` (None or empty when unset) and `id`. */
  datatype User = User(firstName: Option<string>, username: Option<string>, id: int)

  datatype InlineButton = UrlButton(text: string, url: string) | CallbackButton(text: string, data: string)

  datatype Keyboard =
    | Placeholder                           // a reply keyboard with the single button "Wait for config..."
    | Inline(inlineRows: seq<seq<InlineButton>>)
    | Reply(replyRows: seq<seq<string>>)

  const PlaceholderText := "Wait for config..."

  predicate Truthy(f: Field) {
    f.Str? && f.s != ""
  }

  /** The f-string rendering of a `.get(key, default)` value: null prints as "None". */
  function Render(f: Field, default: string): (s: string)
    ensures f.Absent? ==> s == default
    ensures f.Null? ==> s == "None"
    ensures f.Str? ==> s == f.s
  {
    match f
    case Absent => default
    case Null => "None"
    case Str(v) => v
  }

  /**
   * `get_menu`: with a "menus" key the entry for the id (None when missing);
   * without one, "main" is synthesized from the legacy keyboard as a reply
   * menu, and every other id has no menu. An id that is not a string (a
   * button's missing or null param) finds nothing.
   */
  function GetMenu(cfg: Config, menuId: Option<string>): (m: Option<Menu>)
    ensures cfg.menus.Some? ==>
      m == (if menuId.Some? && menuId.value in cfg.menus.value then cfg.menus.value[menuId.value] else None)
    ensures cfg.menus.None? && menuId == Some("main") ==> m == Some(Menu(Str("Welcome"), Some(cfg.keyboard), Str("reply")))
    ensures cfg.menus.None? && menuId != Some("main") ==> m.None?
  {
    if cfg.menus.Some? then
      if menuId.Some? && menuId.value in cfg.menus.value then cfg.menus.value[menuId.value] else None
    else if menuId == Some("main") then Some(Menu(Str("Welcome"), Some(cfg.keyboard), Str("reply")))
    else None
  }

  function FirstNameOr(u: User): string {
    if u.firstName.Some? && u.firstName.value != "" then u.firstName.value else "User"
  }

  function AtUsername(u: User): string {
    if u.username.Some? && u.username.value != "" then "@" + u.username.value else ""
  }

  /**
   * `process_text_variables`: `{user}`, then `{username}`, then `{id}`,
   * each replaced everywhere. A missing text (None) comes back as None.
   */
  function ProcessText(text: Option<string>, u: User): (r: Option<string>)
    ensures r.None? <==> text.None?
  {
    match text
    case None => None
    case Some(t) =>
      Some(Replace(Replace(Replace(t, "{user}", FirstNameOr(u)), "{username}", AtUsername(u)), "{id}", IntToString(u.id)))
  }

  // ---- Inline callback data ----

  /** The callback data of a non-url inline button. */
  function Encode(action: string, param: string): string {
    "a|" + action + "|" + param
  }

  /** The inline handler's parsing: split on '|', at least three parts, action and param are parts 1 and 2. */
  function Decode(data: string): (r: Option<(string, string)>)
    ensures r.Some? ==> '|' !in r.value.0 && '|' !in r.value.1
    // data with fewer than three '|'-separated parts is ignored
    ensures r.None? <==> |Split(data, '|')| < 3
  {
    var parts := Split(data, '|');
    if |parts| < 3 then None else Some((parts[1], parts[2]))
  }

  /** The inline handler only sees callbacks that start with "a|". */
  predicate Handled(data: string) {
    StartsWith(data, "a|")
  }

  // ---- Keyboards ----

  /** One inline button. A url button's param must be a string; only one starting with "http" becomes a link. */
  function InlineButtonOf(b: Button): (r: Option<InlineButton>)
    ensures r.None? <==> b.action == Str("url") && b.param.Null?
    ensures b.action == Str("url") && b.param.Str? && StartsWith(b.param.s, "http") ==> r == Some(UrlButton(b.text, b.param.s))
    ensures b.action == Str("url") && !(b.param.Str? && StartsWith(b.param.s, "http")) && r.Some? ==>
      r == Some(CallbackButton(b.text, "error:url"))
    // whatever its length, the data is the encoding
    ensures b.action != Str("url") ==> r == Some(CallbackButton(b.text, Encode(Render(b.action, "text"), Render(b.param, ""))))
  {
    if b.action == Str("url") then
      match b.param
      case Null => None
      case Absent => Some(CallbackButton(b.text, "error:url"))
      case Str(p) => if StartsWith(p, "http") || StartsWith(p, "https") then Some(UrlButton(b.text, p)) else Some(CallbackButton(b.text, "error:url"))
    else
      var cbData := Encode(Render(b.action, "text"), Render(b.param, ""));
      Some(CallbackButton(b.text, cbData))
  }

  function InlineRow(row: seq<Button>): Option<seq<InlineButton>>
    decreases |row|
  {
    if row == [] then Some([])
    else
      match InlineRow(row[..|row| - 1])
      case None => None
      case Some(done) =>
        match InlineButtonOf(row[|row| - 1])
        case None => None
        case Some(b) => Some(done + [b])
  }

  /** A row is built exactly when every button is, each into its own inline button, in order. */
  lemma {:induction false} InlineRowAll(row: seq<Button>)
    ensures InlineRow(row).Some? <==> forall j :: 0 <= j < |row| ==> InlineButtonOf(row[j]).Some?
    ensures InlineRow(row).Some? ==>
      && |InlineRow(row).value| == |row|
      && forall j :: 0 <= j < |row| ==> InlineRow(row).value[j] == InlineButtonOf(row[j]).value
    decreases |row|
  {
    if row != [] {
      var init := row[..|row| - 1];
      InlineRowAll(init);
      assert forall j :: 0 <= j < |init| ==> init[j] == row[j];
    }
  }

  /** The rows of an inline keyboard; an empty row is not added. */
  function InlineRows(rows: seq<seq<Button>>): Option<seq<seq<InlineButton>>>
    decreases |rows|
  {
    if rows == [] then Some([])
    else AddRow(InlineRows(rows[..|rows| - 1]), InlineRow(rows[|rows| - 1]))
  }

  /** The keyboard is built exactly when every row is, and has no empty row and no more rows than the menu. */
  lemma {:induction false} InlineRowsAll(rows: seq<seq<Button>>)
    ensures InlineRows(rows).Some? <==> forall i :: 0 <= i < |rows| ==> InlineRow(rows[i]).Some?
    ensures InlineRows(rows).Some? ==>
      |InlineRows(rows).value| <= |rows| && forall k :: 0 <= k < |InlineRows(rows).value| ==> InlineRows(rows).value[k] != []
    decreases |rows|
  {
    if rows != [] {
      var init := rows[..|rows| - 1];
      InlineRowsAll(init);
      assert forall i :: 0 <= i < |init| ==> init[i] == rows[i];
    }
  }

  /** One more row of an inline keyboard: added when it has buttons; a row that raised spoils all. */
  function AddRow(done: Option<seq<seq<InlineButton>>>, row: Option<seq<InlineButton>>): Option<seq<seq<InlineButton>>> {
    match done
    case None => None
    case Some(d) =>
      match row
      case None => None
      case Some(r) => Some(if r != [] then d + [r] else d)
  }

  /** Two blocks of rows, both built, one after the other. */
  function BothRows(x: Option<seq<seq<InlineButton>>>, y: Option<seq<seq<InlineButton>>>): Option<seq<seq<InlineButton>>> {
    if x.Some? && y.Some? then Some(x.value + y.value) else None
  }

  lemma AddRowAfter(x: Option<seq<seq<InlineButton>>>, y: Option<seq<seq<InlineButton>>>, row: Option<seq<InlineButton>>)
    ensures BothRows(x, AddRow(y, row)) == AddRow(BothRows(x, y), row)
  {
    if x.Some? && y.Some? && row.Some? && row.value != [] {
      assert (x.value + y.value) + [row.value] == x.value + (y.value + [row.value]);
    }
  }

  function Texts(row: seq<Button>): (r: seq<string>)
    ensures |r| == |row| && forall j :: 0 <= j < |row| ==> r[j] == row[j].text
  {
    seq(|row|, j requires 0 <= j < |row| => row[j].text)
  }

  /** The rows of a reply keyboard: button texts, empty rows left out. */
  function ReplyRows(rows: seq<seq<Button>>): (r: seq<seq<string>>)
    ensures |r| <= |rows| && forall k :: 0 <= k < |r| ==> r[k] != []
    // no row is lost but the empty ones (ReplyRowsAppend: and the order is kept)
    ensures forall i :: 0 <= i < |rows| && rows[i] != [] ==> Texts(rows[i]) in r
    decreases |rows|
  {
    if rows == [] then []
    else
      var done := ReplyRows(rows[..|rows| - 1]);
      assert forall i :: 0 <= i < |rows| - 1 ==> rows[..|rows| - 1][i] == rows[i];
      if rows[|rows| - 1] != [] then done + [Texts(rows[|rows| - 1])] else done
  }

  /** One row of an inline menu: its buttons, or nothing when it has none. */
  lemma InlineRowsOne(row: seq<Button>)
    ensures InlineRows([row]) == match InlineRow(row)
      case None => None
      case Some(bs) => Some(if bs == [] then [] else [bs])
  {
    assert [row][..0] == [];
    assert InlineRows([row]) == AddRow(Some([]), InlineRow(row));
    if InlineRow(row).Some? {
      assert [] + [InlineRow(row).value] == [InlineRow(row).value];
    }
  }

  /** The inline rows of two blocks of rows are those of the first, then those of the second. */
  lemma {:induction false} InlineRowsAppend(a: seq<seq<Button>>, b: seq<seq<Button>>)
    ensures InlineRows(a + b) ==
      if InlineRows(a).Some? && InlineRows(b).Some? then Some(InlineRows(a).value + InlineRows(b).value) else None
    decreases |b|
  {
    if b == [] {
      assert a + b == a;
      assert InlineRows(b) == Some([]);
      if InlineRows(a).Some? {
        assert InlineRows(a).value + [] == InlineRows(a).value;
      }
    } else {
      var init, last := b[..|b| - 1], b[|b| - 1];
      InlineRowsAppend(a, init);
      var ab := a + b;
      assert ab[..|ab| - 1] == a + init && ab[|ab| - 1] == last;
      assert InlineRows(ab) == AddRow(BothRows(InlineRows(a), InlineRows(init)), InlineRow(last));
      AddRowAfter(InlineRows(a), InlineRows(init), InlineRow(last));
      assert InlineRows(b) == AddRow(InlineRows(init), InlineRow(last));
    }
  }

  /** One row of a reply menu: its texts, or nothing when it has no button. */
  lemma ReplyRowsOne(row: seq<Button>)
    ensures ReplyRows([row]) == if row == [] then [] else [Texts(row)]
  {
    assert [row][..0] == [];
  }

  /** The reply rows of two blocks of rows are those of the first, then those of the second. */
  lemma {:induction false} ReplyRowsAppend(a: seq<seq<Button>>, b: seq<seq<Button>>)
    ensures ReplyRows(a + b) == ReplyRows(a) + ReplyRows(b)
    decreases |b|
  {
    if b == [] {
      assert a + b == a;
    } else {
      var init := b[..|b| - 1];
      ReplyRowsAppend(a, init);
      var ab := a + b;
      assert ab[..|ab| - 1] == a + init;
      assert ab[|ab| - 1] == b[|b| - 1];
      var x, y := ReplyRows(a), ReplyRows(init);
      if b[|b| - 1] != [] {
        assert (x + y) + [Texts(b[|b| - 1])] == x + (y + [Texts(b[|b| - 1])]);
      }
    }
  }

  /**
   * `build_keyboard`: no menu or no "buttons" gives the placeholder; a menu of
   * type "inline" gives an inline keyboard, anything else a reply keyboard.
   * None where a url button's param is null (the source raises there).
   */
  function KeyboardOf(menu: Option<Menu>): (r: Option<Keyboard>)
    ensures menu.None? || menu.value.buttons.None? ==> r == Some(Placeholder)
    ensures menu.Some? && menu.value.buttons.Some? && menu.value.kind == Str("inline") ==>
      r == (match InlineRows(menu.value.buttons.value) case None => None case Some(rows) => Some(Inline(rows)))
    ensures menu.Some? && menu.value.buttons.Some? && menu.value.kind != Str("inline") ==>
      r == Some(Reply(ReplyRows(menu.value.buttons.value)))
  {
    if menu.None? || menu.value.buttons.None? then Some(Placeholder)
    else if menu.value.kind == Str("inline") then
      match InlineRows(menu.value.buttons.value)
      case None => None
      case Some(rows) => Some(Inline(rows))
    else Some(Reply(ReplyRows(menu.value.buttons.value)))
  }

  // ---- Reply-button search ----

  /** The index of the first button of a row with this text: where the inner loop breaks. */
  function FirstMatch(row: seq<Button>, text: string): (r: Option<nat>)
    ensures r.Some? ==> r.value < |row| && row[r.value].text == text
    ensures r.Some? ==> forall j :: 0 <= j < r.value ==> row[j].text != text
    ensures r.None? ==> forall j :: 0 <= j < |row| ==> row[j].text != text
  {
    if row == [] then None
    else if row[0].text == text then Some(0)
    else match FirstMatch(row[1..], text)
      case None => None
      case Some(j) => Some(j + 1)
  }

  /** Row `i`'s first matching button has a truthy action: the outer loop stops there. */
  predicate StopsAt(rows: seq<seq<Button>>, text: string, i: nat)
    requires i < |rows|
  {
    FirstMatch(rows[i], text).Some? && Truthy(rows[i][FirstMatch(rows[i], text).value].action)
  }

  /** The `(action, param)` of the button the search settles on. */
  function Pressed(rows: seq<seq<Button>>, text: string): (r: Option<(Field, Field)>)
    ensures r.None? <==> forall i :: 0 <= i < |rows| ==> !StopsAt(rows, text, i)
    ensures r.Some? ==> exists i :: (
      && 0 <= i < |rows| && StopsAt(rows, text, i)
      && (forall k :: 0 <= k < i ==> !StopsAt(rows, text, k))
      && r.value == (rows[i][FirstMatch(rows[i], text).value].action, rows[i][FirstMatch(rows[i], text).value].param))
    ensures r.Some? ==> Truthy(r.value.0)
    decreases |rows|
  {
    if rows == [] then None
    else if StopsAt(rows, text, 0) then
      var b := rows[0][FirstMatch(rows[0], text).value];
      Some((b.action, b.param))
    else
      var rest := Pressed(rows[1..], text);
      if rest.None? then
        assert forall i :: 0 <= i < |rows| ==> !StopsAt(rows, text, i) by {
          forall i | 0 <= i < |rows| ensures !StopsAt(rows, text, i) {
            if i > 0 {
              assert rows[1..][i - 1] == rows[i];
              assert !StopsAt(rows[1..], text, i - 1);
            }
          }
        }
        rest
      else
        var i :| 0 <= i < |rows[1..]| && StopsAt(rows[1..], text, i) && (forall k :: 0 <= k < i ==> !StopsAt(rows[1..], text, k))
          && rest.value == (rows[1..][i][FirstMatch(rows[1..][i], text).value].action, rows[1..][i][FirstMatch(rows[1..][i], text).value].param);
        assert rows[1..][i] == rows[i + 1];
        assert StopsAt(rows, text, i + 1);
        assert forall k :: 0 <= k < i + 1 ==> !StopsAt(rows, text, k) by {
          forall k | 0 <= k < i + 1 ensures !StopsAt(rows, text, k) {
            if k > 0 {
              assert rows[1..][k - 1] == rows[k];
              assert !StopsAt(rows[1..], text, k - 1);
            }
          }
        }
        rest
  }

  /**
   * `handle_reply_text`'s two searches: the current menu (default "main",
   * or "main" when the current one is gone), then the main menu. None when
   * nothing matched with a truthy action: the bot does not answer.
   */
  function CurrentMenu(cfg: Config, states: map<int, string>, chatId: int): (m: Option<Menu>)
    ensures chatId in states && GetMenu(cfg, Some(states[chatId])).Some? ==> m == GetMenu(cfg, Some(states[chatId]))
    ensures chatId in states && GetMenu(cfg, Some(states[chatId])).None? ==> m == GetMenu(cfg, Some("main"))
    ensures chatId !in states ==> m == GetMenu(cfg, Some("main"))
  {
    var current := if chatId in states then states[chatId] else "main";
    var m := GetMenu(cfg, Some(current));
    if m.Some? then m else GetMenu(cfg, Some("main"))
  }

  function MenuRows(m: Option<Menu>): seq<seq<Button>> {
    if m.Some? && m.value.buttons.Some? then m.value.buttons.value else []
  }

  function ReplyLookup(cfg: Config, states: map<int, string>, chatId: int, text: string): (r: Option<(Field, Field)>)
    ensures r.Some? ==> Truthy(r.value.0)
    // a button of the current menu with a truthy action wins
    ensures (exists i :: 0 <= i < |MenuRows(CurrentMenu(cfg, states, chatId))| && StopsAt(MenuRows(CurrentMenu(cfg, states, chatId)), text, i)) ==>
      r == Pressed(MenuRows(CurrentMenu(cfg, states, chatId)), text)
    // otherwise the main menu is searched
    ensures (forall i :: 0 <= i < |MenuRows(CurrentMenu(cfg, states, chatId))| ==> !StopsAt(MenuRows(CurrentMenu(cfg, states, chatId)), text, i)) ==>
      r == Pressed(MenuRows(GetMenu(cfg, Some("main"))), text)
  {
    var first := Pressed(MenuRows(CurrentMenu(cfg, states, chatId)), text);
    if first.Some? then first else Pressed(MenuRows(GetMenu(cfg, Some("main"))), text)
  }

  // ---- What a handler sends, and how it changes `user_states` ----

  datatype Sent =
    | MenuNotFound                                                  // "Menu not found" (message or callback answer)
    | MenuShown(menuId: string, text: Option<string>, keyboard: Option<Keyboard>)  // keyboard None: building it raised
    | TextSent(text: Option<string>)
    | InvoiceSent(invoice: string)
    | ProfileSent(profile: string)
    | KeySent(notice: string)
    | NoReply

  /** `menu.get('text', default)` as the text handed to `process_text_variables`. */
  function TextOf(f: Field, default: Option<string>): (r: Option<string>)
    ensures f.Str? ==> r == Some(f.s)
    ensures f.Absent? ==> r == default
    ensures f.Null? ==> r.None?
  {
    match f
    case Absent => default
    case Null => None
    case Str(v) => Some(v)
  }

  function AsId(f: Field): Option<string> {
    if f.Str? then Some(f.s) else None
  }

  /** A chat's state entry is the only one a handler may touch. */
  ghost predicate OnlyChatChanged(before: map<int, string>, after: map<int, string>, chatId: int) {
    forall c :: c != chatId ==> (c in after <==> c in before) && (c in before ==> after[c] == before[c])
  }

  /** `send_menu`: the chat's state becomes the menu id only when that menu exists. */
  function SendMenuSpec(states: map<int, string>, cfg: Config, chatId: int, menuId: Option<string>, u: User)
    : (r: (map<int, string>, Sent))
    ensures GetMenu(cfg, menuId).None? ==> r == (states, MenuNotFound)
    ensures GetMenu(cfg, menuId).Some? ==> menuId.Some? && r.0 == states[chatId := menuId.value]
    ensures GetMenu(cfg, menuId).Some? ==>
      r.1.MenuShown? && r.1.menuId == menuId.value && r.1.keyboard == KeyboardOf(GetMenu(cfg, menuId))
    // the text sent is the menu's text, "Menu" when it has none, with its placeholders filled in
    ensures GetMenu(cfg, menuId).Some? ==> r.1.text == ProcessText(TextOf(GetMenu(cfg, menuId).value.text, Some("Menu")), u)
    ensures OnlyChatChanged(states, r.0, chatId)
  {
    match GetMenu(cfg, menuId)
    case None => (states, MenuNotFound)
    case Some(m) =>
      (states[chatId := menuId.value], MenuShown(menuId.value, ProcessText(TextOf(m.text, Some("Menu")), u), KeyboardOf(Some(m))))
  }

  function PriceOf(cfg: Config, param: string): string {
    if param in cfg.prices then cfg.prices[param] else "0"
  }

  function FirstNameText(u: User): string {
    if u.firstName.Some? then u.firstName.value else "None"
  }

  function NoKeyNotice(u: User): string {
    "\U{1F511} No active subscription found for " + FirstNameText(u) + "."
  }

  /** The callback asks for this action. */
  predicate Asks(data: string, action: string) {
    Handled(data) && Decode(data).Some? && Decode(data).value.0 == action
  }

  /** `handle_inline_action`, for a callback whose data the bot receives. */
  function InlineSpec(states: map<int, string>, cfg: Config, chatId: int, data: string, u: User)
    : (r: (map<int, string>, Sent))
    ensures !Handled(data) || Decode(data).None? ==> r == (states, NoReply)
    // a submenu button moves the chat to the target only when the target exists
    ensures Handled(data) && Decode(data).Some? && Decode(data).value.0 == "submenu" ==>
      var param := Decode(data).value.1;
      r.0 == (if GetMenu(cfg, Some(param)).Some? then states[chatId := param] else states)
    // the profile button always moves the chat to "profile"
    ensures Handled(data) && Decode(data).Some? && Decode(data).value.0 == "profile" ==> r.0 == states[chatId := "profile"]
    ensures Handled(data) && Decode(data).Some? && Decode(data).value.0 !in {"submenu", "profile"} ==> r.0 == states
    // what is sent for each action
    ensures Asks(data, "submenu") && GetMenu(cfg, Some(Decode(data).value.1)).None? ==> r.1 == MenuNotFound
    ensures Asks(data, "submenu") && GetMenu(cfg, Some(Decode(data).value.1)).Some? ==>
      var param := Decode(data).value.1;
      r == SendMenuSpec(states, cfg, chatId, Some(param), u)
    ensures Asks(data, "text") ==> r.1 == TextSent(ProcessText(Some(Decode(data).value.1), u))
    ensures Asks(data, "payment") ==>
      var param := Decode(data).value.1;
      r.1 == InvoiceSent("\U{1F4B3} Invoice: " + param + " - $" + PriceOf(cfg, param))
    ensures Asks(data, "profile") && GetMenu(cfg, Some("profile")).None? ==>
      r.1 == ProfileSent("\U{1F464} Profile: " + FirstNameText(u) + " (ID: " + IntToString(chatId) + ")")
    // an inline profile menu is edited in with no default text; any other is sent as `send_menu` sends it
    ensures Asks(data, "profile") && GetMenu(cfg, Some("profile")).Some? && GetMenu(cfg, Some("profile")).value.kind == Str("inline") ==>
      var pm := GetMenu(cfg, Some("profile"));
      r.1 == MenuShown("profile", ProcessText(TextOf(pm.value.text, None), u), KeyboardOf(pm))
    ensures Asks(data, "profile") && GetMenu(cfg, Some("profile")).Some? && GetMenu(cfg, Some("profile")).value.kind != Str("inline") ==>
      r == SendMenuSpec(states, cfg, chatId, Some("profile"), u)
    ensures Asks(data, "my_key") ==> r.1 == KeySent(NoKeyNotice(u))
    ensures Handled(data) && Decode(data).Some? && Decode(data).value.0 !in {"submenu", "text", "payment", "profile", "my_key"} ==>
      r == (states, NoReply)
    ensures OnlyChatChanged(states, r.0, chatId)
  {
    if !Handled(data) then (states, NoReply)
    else match Decode(data)
      case None => (states, NoReply)
      case Some((action, param)) =>
        if action == "submenu" then
          match GetMenu(cfg, Some(param))
          case None => (states, MenuNotFound)
          case Some(target) =>
            (states[chatId := param], MenuShown(param, ProcessText(TextOf(target.text, Some("Menu")), u), KeyboardOf(Some(target))))
        else if action == "text" then (states, TextSent(ProcessText(Some(param), u)))
        else if action == "payment" then
          (states, InvoiceSent("\U{1F4B3} Invoice: " + param + " - $" + PriceOf(cfg, param)))
        else if action == "profile" then
          var st := states[chatId := "profile"];
          match GetMenu(cfg, Some("profile"))
          case None => (st, ProfileSent("\U{1F464} Profile: " + FirstNameText(u) + " (ID: " + IntToString(chatId) + ")"))
          case Some(pm) =>
            if pm.kind == Str("inline") then (st, MenuShown("profile", ProcessText(TextOf(pm.text, None), u), KeyboardOf(Some(pm))))
            else SendMenuSpec(st, cfg, chatId, Some("profile"), u)
        else if action == "my_key" then (states, KeySent(NoKeyNotice(u)))
        else (states, NoReply)
  }

  /** The button found for the text has this action. */
  predicate Chose(cfg: Config, states: map<int, string>, chatId: int, text: string, action: string) {
    ReplyLookup(cfg, states, chatId, text).Some? && ReplyLookup(cfg, states, chatId, text).value.0 == Str(action)
  }

  /** `handle_reply_text`. */
  function ReplySpec(states: map<int, string>, cfg: Config, chatId: int, text: string, u: User)
    : (r: (map<int, string>, Sent))
    ensures ReplyLookup(cfg, states, chatId, text).None? ==> r == (states, NoReply)
    // what is sent for the action of the button found, with that button's param
    ensures Chose(cfg, states, chatId, text, "text") ==>
      r == (states, TextSent(ProcessText(AsId(ReplyLookup(cfg, states, chatId, text).value.1), u)))
    ensures Chose(cfg, states, chatId, text, "submenu") ==>
      r == SendMenuSpec(states, cfg, chatId, AsId(ReplyLookup(cfg, states, chatId, text).value.1), u)
    ensures Chose(cfg, states, chatId, text, "payment") ==>
      var param := ReplyLookup(cfg, states, chatId, text).value.1;
      r == (states, InvoiceSent("Invoice: " + Render(param, "None") + " ($" + (if param.Str? then PriceOf(cfg, param.s) else "0") + ")"))
    ensures Chose(cfg, states, chatId, text, "profile") && GetMenu(cfg, Some("profile")).Some? ==>
      r == SendMenuSpec(states, cfg, chatId, Some("profile"), u)
    ensures Chose(cfg, states, chatId, text, "profile") && GetMenu(cfg, Some("profile")).None? ==>
      r == (states, ProfileSent("Profile: " + IntToString(chatId)))
    ensures Chose(cfg, states, chatId, text, "my_key") ==> r == (states, KeySent(NoKeyNotice(u)))
    ensures
      && ReplyLookup(cfg, states, chatId, text).Some?
      && ReplyLookup(cfg, states, chatId, text).value.0 !in {Str("text"), Str("submenu"), Str("payment"), Str("profile"), Str("my_key")}
      ==> r == (states, NoReply)
    ensures OnlyChatChanged(states, r.0, chatId)
  {
    match ReplyLookup(cfg, states, chatId, text)
    case None => (states, NoReply)
    case Some((action, param)) =>
      if action == Str("text") then (states, TextSent(ProcessText(AsId(param), u)))
      else if action == Str("submenu") then SendMenuSpec(states, cfg, chatId, AsId(param), u)
      else if action == Str("payment") then
        var price := if param.Str? then PriceOf(cfg, param.s) else "0";
        (states, InvoiceSent("Invoice: " + Render(param, "None") + " ($" + price + ")"))
      else if action == Str("profile") then
        if GetMenu(cfg, Some("profile")).Some? then SendMenuSpec(states, cfg, chatId, Some("profile"), u)
        else (states, ProfileSent("Profile: " + IntToString(chatId)))
      else if action == Str("my_key") then (states, KeySent(NoKeyNotice(u)))
      else (states, NoReply)
  }

  // ---- Properties ----

  /** A text that no button of the current menu or of the main menu answers gets no reply and moves no chat. */
  lemma ReplyNoMatch(states: map<int, string>, cfg: Config, chatId: int, text: string, u: User)
    requires forall i :: 0 <= i < |MenuRows(CurrentMenu(cfg, states, chatId))| ==> !StopsAt(MenuRows(CurrentMenu(cfg, states, chatId)), text, i)
    requires forall i :: 0 <= i < |MenuRows(GetMenu(cfg, Some("main")))| ==> !StopsAt(MenuRows(GetMenu(cfg, Some("main"))), text, i)
    ensures ReplySpec(states, cfg, chatId, text, u) == (states, NoReply)
  {
  }

  /** A reply text button whose param greets with `{user}` answers with the user's first name in its place. */
  lemma ReplyTextGreets(states: map<int, string>, cfg: Config, chatId: int, text: string, u: User, a: string, b: string)
    requires '{' !in a && '{' !in b && '{' !in FirstNameOr(u)
    requires ReplyLookup(cfg, states, chatId, text) == Some((Str("text"), Str(a + "{user}" + b)))
    ensures ReplySpec(states, cfg, chatId, text, u) == (states, TextSent(Some(a + FirstNameOr(u) + b)))
  {
    ProcessUser(a, b, u);
  }

  /** Encoded data decodes to its action and to the param up to its first '|'. */
  lemma DecodeAction(action: string, param: string)
    requires '|' !in action
    ensures Decode(Encode(action, param)) == Some((action, Split(param, '|')[0]))
  {
    assert Encode(action, param) == "a" + ['|'] + action + ['|'] + param by {
      assert "a|" == "a" + ['|'];
    }
    SplitCons2("a", action, '|', param);
  }

  /** Callback data round-trips when neither the action nor the param contains '|'. */
  lemma DecodeEncode(action: string, param: string)
    requires '|' !in action && '|' !in param
    ensures Handled(Encode(action, param))
    ensures Decode(Encode(action, param)) == Some((action, param))
  {
    assert Encode(action, param)[..2] == "a|";
    DecodeAction(action, param);
    assert Split(param, '|') == [param];
  }

  /** A param containing '|' is cut at its first '|'. */
  lemma DecodeTruncatesParam(action: string, x: string, y: string)
    requires '|' !in action && '|' !in x
    ensures Decode(Encode(action, x + "|" + y)) == Some((action, x))
  {
    DecodeAction(action, x + "|" + y);
    SplitCons(x, '|', y);
  }

  /** An inline button other than a url button sends back its own action and param. */
  lemma ButtonCallbackRoundTrip(b: Button, action: string, param: string)
    requires b.action == Str(action) && action != "url" && b.param == Str(param)
    requires '|' !in action && '|' !in param
    ensures InlineButtonOf(b) == Some(CallbackButton(b.text, Encode(action, param)))
    ensures Decode(Encode(action, param)) == Some((action, param))
  {
    DecodeEncode(action, param);
  }

  /** A pattern starting with '{' cannot occur in a string without '{'. */
  lemma BraceFree(s: string, p: string)
    requires p != [] && p[0] == '{' && '{' !in s
    ensures forall i :: 0 <= i < |s| ==> !OccursAt(s, p, i)
  {
    forall i | 0 <= i < |s| ensures !OccursAt(s, p, i) {
      if i + |p| <= |s| {
        assert s[i..i + |p|][0] == s[i];
        assert s[i] != '{';
      }
    }
  }

  /** A text without '{' is sent as written. */
  lemma PlainTextUnchanged(t: string, u: User)
    requires '{' !in t
    ensures ProcessText(Some(t), u) == Some(t)
  {
    BraceFree(t, "{user}");
    ReplaceAbsent(t, "{user}", FirstNameOr(u));
    BraceFree(t, "{username}");
    ReplaceAbsent(t, "{username}", AtUsername(u));
    BraceFree(t, "{id}");
    ReplaceAbsent(t, "{id}", IntToString(u.id));
  }

  /** A placeholder is never found in a text without '{'. */
  lemma ReplaceBraceFree(t: string, p: string, q: string)
    requires p != [] && p[0] == '{' && '{' !in t
    ensures Replace(t, p, q) == t
  {
    ReplaceSkip(t, [], p, q);
    assert t + [] == t;
  }

  /** `{user}` anywhere in brace-free text becomes the first name, or "User". */
  lemma ProcessUser(a: string, b: string, u: User)
    requires '{' !in a && '{' !in b && '{' !in FirstNameOr(u)
    ensures ProcessText(Some(a + "{user}" + b), u) == Some(a + FirstNameOr(u) + b)
  {
    var f := FirstNameOr(u);
    var p := "{user}";
    assert a + p + b == a + (p + b);
    ReplaceSkip(a, p + b, p, f);
    ReplaceAt(p, b, f);
    ReplaceBraceFree(b, p, f);
    var t := a + f + b;
    assert Replace(a + p + b, p, f) == t;
    ReplaceBraceFree(t, "{username}", AtUsername(u));
    ReplaceBraceFree(t, "{id}", IntToString(u.id));
  }

  /** `{username}` anywhere in brace-free text becomes "@" and the username, or nothing. */
  lemma ProcessUsername(a: string, b: string, u: User)
    requires '{' !in a && '{' !in b && '{' !in AtUsername(u)
    ensures ProcessText(Some(a + "{username}" + b), u) == Some(a + AtUsername(u) + b)
  {
    var p := "{username}";
    var at := AtUsername(u);
    var t := a + p + b;
    assert t == a + (p + b);
    // `{user}` is not a match: the text goes on with "n" where the pattern has "}"
    ReplaceSkip(a, p + b, "{user}", FirstNameOr(u));
    assert (p + b)[5] == 'n';
    assert !StartsWith(p + b, "{user}");
    ReplaceMiss(p, b, "{user}", FirstNameOr(u));
    ReplaceBraceFree(b, "{user}", FirstNameOr(u));
    assert Replace(t, "{user}", FirstNameOr(u)) == t;
    ReplaceSkip(a, p + b, p, at);
    ReplaceAt(p, b, at);
    ReplaceBraceFree(b, p, at);
    var t2 := a + at + b;
    assert Replace(t, p, at) == t2;
    ReplaceBraceFree(t2, "{id}", IntToString(u.id));
  }

  /** `{id}` anywhere in brace-free text becomes the decimal user id. */
  lemma ProcessId(a: string, b: string, u: User)
    requires '{' !in a && '{' !in b
    ensures ProcessText(Some(a + "{id}" + b), u) == Some(a + IntToString(u.id) + b)
  {
    var p := "{id}";
    var t := a + p + b;
    assert t == a + (p + b);
    assert (p + b)[1] == 'i';
    assert !StartsWith(p + b, "{user}") && !StartsWith(p + b, "{username}");
    ReplaceSkip(a, p + b, "{user}", FirstNameOr(u));
    ReplaceMiss(p, b, "{user}", FirstNameOr(u));
    ReplaceBraceFree(b, "{user}", FirstNameOr(u));
    assert Replace(t, "{user}", FirstNameOr(u)) == t;
    ReplaceSkip(a, p + b, "{username}", AtUsername(u));
    ReplaceMiss(p, b, "{username}", AtUsername(u));
    ReplaceBraceFree(b, "{username}", AtUsername(u));
    assert Replace(t, "{username}", AtUsername(u)) == t;
    ReplaceSkip(a, p + b, p, IntToString(u.id));
    ReplaceAt(p, b, IntToString(u.id));
    ReplaceBraceFree(b, p, IntToString(u.id));
    assert a + (IntToString(u.id) + b) == a + IntToString(u.id) + b;
  }

  /** "{user}" greets by first name, or "User" without one (a name without '{' is not rewritten further). */
  lemma GreetingByName(u: User)
    requires '{' !in FirstNameOr(u)
    ensures ProcessText(Some("{user}"), u) == Some(FirstNameOr(u))
  {
    var first := FirstNameOr(u);
    ReplaceWhole("{user}", first);
    BraceFree(first, "{username}");
    ReplaceAbsent(first, "{username}", AtUsername(u));
    BraceFree(first, "{id}");
    ReplaceAbsent(first, "{id}", IntToString(u.id));
  }

  /** The substitutions run in sequence, so a first name "{id}" is itself replaced by the id. */
  lemma NameIsRewritten(u: User)
    requires u.firstName == Some("{id}")
    ensures ProcessText(Some("{user}"), u) == Some(IntToString(u.id))
  {
    ReplaceWhole("{user}", "{id}");
    assert "{id}"[..1] == "{";
    assert !StartsWith("{id}", "{username}");
    assert !StartsWith("id}", "{username}") && !StartsWith("d}", "{username}") && !StartsWith("}", "{username}");
    assert Replace("{id}", "{username}", AtUsername(u)) == "{id}";
    ReplaceWhole("{id}", IntToString(u.id));
  }

  /** A submenu button whose target exists: the state and the shown menu agree. */
  lemma SubmenuMovesChat(states: map<int, string>, cfg: Config, chatId: int, target: string, u: User)
    requires '|' !in target && GetMenu(cfg, Some(target)).Some?
    ensures
      var r := InlineSpec(states, cfg, chatId, Encode("submenu", target), u);
      && r.0 == states[chatId := target]
      && r.1.MenuShown? && r.1.menuId == target
  {
    DecodeEncode("submenu", target);
  }

  // ---- The loops of the source ----

  /** The inner loop of `build_keyboard` for an inline menu: one row's buttons. */
  method BuildInlineRow(row: seq<Button>) returns (r: Option<seq<InlineButton>>)
    ensures r == InlineRow(row)
  {
    var rowButtons: seq<InlineButton> := [];
    for j := 0 to |row|
      invariant InlineRow(row[..j]) == Some(rowButtons)
    {
      var b := InlineButtonOf(row[j]);
      if b.None? {
        InlineRowAll(row);
        return None;
      }
      assert row[..j + 1][..j] == row[..j];
      rowButtons := rowButtons + [b.value];
    }
    assert row[..|row|] == row;
    return Some(rowButtons);
  }

  /** The row loop of `build_keyboard` for an inline menu; empty rows are dropped. */
  method BuildInlineRows(rows: seq<seq<Button>>) returns (r: Option<seq<seq<InlineButton>>>)
    ensures r == InlineRows(rows)
  {
    var markup: seq<seq<InlineButton>> := [];
    for i := 0 to |rows|
      invariant InlineRows(rows[..i]) == Some(markup)
    {
      var rowButtons := BuildInlineRow(rows[i]);
      if rowButtons.None? {
        InlineRowsAll(rows);
        return None;
      }
      assert rows[..i + 1][..i] == rows[..i];
      if rowButtons.value != [] {
        markup := markup + [rowButtons.value];
      }
    }
    assert rows[..|rows|] == rows;
    return Some(markup);
  }

  /** The row loop of `build_keyboard` for a reply menu; empty rows are dropped. */
  method BuildReplyRows(rows: seq<seq<Button>>) returns (r: seq<seq<string>>)
    ensures r == ReplyRows(rows)
  {
    r := [];
    for i := 0 to |rows|
      invariant ReplyRows(rows[..i]) == r
    {
      var rowButtons := Texts(rows[i]);
      assert rows[..i + 1][..i] == rows[..i];
      if rowButtons != [] {
        r := r + [rowButtons];
      }
    }
    assert rows[..|rows|] == rows;
  }

  /** `build_keyboard`: a placeholder without buttons, else the rows of the menu's kind. */
  method BuildKeyboard(menu: Option<Menu>) returns (r: Option<Keyboard>)
    ensures r == KeyboardOf(menu)
  {
    if menu.None? || menu.value.buttons.None? {
      return Some(Placeholder);
    }
    var rows := menu.value.buttons.value;
    if menu.value.kind == Str("inline") {
      var markup := BuildInlineRows(rows);
      if markup.None? {
        return None;
      }
      return Some(Inline(markup.value));
    }
    var replyRows := BuildReplyRows(rows);
    return Some(Reply(replyRows));
  }

  /**
   * One search of `handle_reply_text`: the inner loop breaks at the first
   * button with the text, the outer one only once the action is truthy.
   */
  method FindButton(rows: seq<seq<Button>>, text: string) returns (action: Field, param: Field)
    ensures Truthy(action) <==> Pressed(rows, text).Some?
    ensures Pressed(rows, text).Some? ==> (action, param) == Pressed(rows, text).value
  {
    action, param := Absent, Absent;
    var i := 0;
    while i < |rows|
      invariant 0 <= i <= |rows|
      invariant forall k :: 0 <= k < i ==> !StopsAt(rows, text, k)
      invariant !Truthy(action)
    {
      var row := rows[i];
      var j := 0;
      while j < |row|
        invariant 0 <= j <= |row|
        invariant forall k :: 0 <= k < j ==> row[k].text != text
        invariant !Truthy(action)
      {
        if row[j].text == text {
          action := row[j].action;
          param := row[j].param;
          assert FirstMatch(row, text) == Some(j);
          break;
        }
        j := j + 1;
      }
      if Truthy(action) {
        assert StopsAt(rows, text, i);
        var p := Pressed(rows, text);
        assert p.Some?;
        var i' :| 0 <= i' < |rows| && StopsAt(rows, text, i') && (forall k :: 0 <= k < i' ==> !StopsAt(rows, text, k))
          && p.value == (rows[i'][FirstMatch(rows[i'], text).value].action, rows[i'][FirstMatch(rows[i'], text).value].param);
        assert i' == i;
        return;
      }
      assert !StopsAt(rows, text, i);
      i := i + 1;
    }
  }
}
