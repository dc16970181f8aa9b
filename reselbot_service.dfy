/**
 * The reseller bot's handlers as they run: `user_states` (chat id to the id
 * of the menu last shown) is a field the handlers update in place. Each
 * handler is proved to have exactly the effect of its function in module
 * Reselbot; sending, editing and deleting Telegram messages is reduced to
 * the `Sent` value describing what would be sent.
 */
module ReselbotService {
  import opened Wrappers
  import opened Text
  import opened Reselbot

  class ResellerBot {
    var userStates: map<int, string>

    constructor ()
      ensures userStates == map[]
    {
      userStates := map[];
    }

    /** `send_menu`. */
    method SendMenu(cfg: Config, chatId: int, menuId: Option<string>, u: User) returns (sent: Sent)
      modifies this
      ensures (userStates, sent) == SendMenuSpec(old(userStates), cfg, chatId, menuId, u)
    {
      var menu := GetMenu(cfg, menuId);
      if menu.None? {
        return MenuNotFound;
      }
      userStates := userStates[chatId := menuId.value];
      var markup := BuildKeyboard(menu);
      var text := ProcessText(TextOf(menu.value.text, Some("Menu")), u);
      return MenuShown(menuId.value, text, markup);
    }

    /** `handle_inline_action`. */
    method HandleInlineAction(cfg: Config, chatId: int, data: string, u: User) returns (sent: Sent)
      modifies this
      ensures (userStates, sent) == InlineSpec(old(userStates), cfg, chatId, data, u)
    {
      if !StartsWith(data, "a|") {
        return NoReply;
      }
      var parts := Split(data, '|');
      if |parts| < 3 {
        return NoReply;
      }
      var action, param := parts[1], parts[2];
      if action == "submenu" {
        var target := GetMenu(cfg, Some(param));
        if target.None? {
          return MenuNotFound;
        }
        userStates := userStates[chatId := param];
        var text := ProcessText(TextOf(target.value.text, Some("Menu")), u);
        var markup := BuildKeyboard(target);
        return MenuShown(param, text, markup);
      } else if action == "text" {
        return TextSent(ProcessText(Some(param), u));
      } else if action == "payment" {
        var price := if param in cfg.prices then cfg.prices[param] else "0";
        return InvoiceSent("\U{1F4B3} Invoice: " + param + " - $" + price);
      } else if action == "profile" {
        userStates := userStates[chatId := "profile"];
        var profMenu := GetMenu(cfg, Some("profile"));
        if profMenu.None? {
          return ProfileSent("\U{1F464} Profile: " + FirstNameText(u) + " (ID: " + IntToString(chatId) + ")");
        }
        if profMenu.value.kind == Str("inline") {
          var text := ProcessText(TextOf(profMenu.value.text, None), u);
          var markup := BuildKeyboard(profMenu);
          return MenuShown("profile", text, markup);
        }
        sent := SendMenu(cfg, chatId, Some("profile"), u);
      } else if action == "my_key" {
        return KeySent(NoKeyNotice(u));
      } else {
        return NoReply;
      }
    }

    /** `handle_reply_text`: search the current menu, then the main one, then dispatch. */
    method HandleReplyText(cfg: Config, chatId: int, text: string, u: User) returns (sent: Sent)
      modifies this
      ensures (userStates, sent) == ReplySpec(old(userStates), cfg, chatId, text, u)
    {
      var currentMenuId := if chatId in userStates then userStates[chatId] else "main";
      var currentMenu := GetMenu(cfg, Some(currentMenuId));
      if currentMenu.None? {
        currentMenu := GetMenu(cfg, Some("main"));
      }
      var action, actionParam := Absent, Absent;
      if currentMenu.Some? {
        action, actionParam := FindButton(MenuRows(currentMenu), text);
      }
      if !Truthy(action) {
        var main := GetMenu(cfg, Some("main"));
        if main.Some? {
          action, actionParam := FindButton(MenuRows(main), text);
        }
      }
      if !Truthy(action) {
        return NoReply;
      }
      if action == Str("text") {
        return TextSent(ProcessText(AsId(actionParam), u));
      } else if action == Str("submenu") {
        sent := SendMenu(cfg, chatId, AsId(actionParam), u);
      } else if action == Str("payment") {
        var p := if actionParam.Str? then PriceOf(cfg, actionParam.s) else "0";
        return InvoiceSent("Invoice: " + Render(actionParam, "None") + " ($" + p + ")");
      } else if action == Str("profile") {
        if GetMenu(cfg, Some("profile")).Some? {
          sent := SendMenu(cfg, chatId, Some("profile"), u);
        } else {
          return ProfileSent("Profile: " + IntToString(chatId));
        }
      } else if action == Str("my_key") {
        return KeySent(NoKeyNotice(u));
      } else {
        return NoReply;
      }
    }
  }
}
