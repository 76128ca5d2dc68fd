/** The bot's global tables as one object: `CONFIG`, `BUTTONS["main_menu"]`,
    `USERS`, `ORDERS`, `ADMINS["admins"]` and `admin_sessions`, with one method
    per handler that updates them in place. Each method is proved to leave the
    tables exactly as the handler's function in `Handlers`/`Sessions` says, so
    every lemma about those functions holds of the object. */
module Bot {
  import opened Wrappers
  import opened Text
  import opened Menu
  import opened Orders
  import opened State
  import opened Sessions
  import opened Handlers

  class Store {
    var config: Config
    var menu: seq<Node>
    var users: map<int, User>
    var orders: seq<Order>
    var admins: seq<AdminEntry>
    var sessions: map<int, Session>

    /** The tables as one value. */
    function Snapshot(): World
      reads this
    {
      World(config, menu, users, orders, admins, sessions)
    }

    /** The tables as `load_json` left them (`InitialWorld` on a first run). */
    constructor (loaded: World)
      ensures Snapshot() == loaded
    {
      config := loaded.config;
      menu := loaded.menu;
      users := loaded.users;
      orders := loaded.orders;
      admins := loaded.admins;
      sessions := loaded.sessions;
    }

    // ---------------- lookups ----------------

    /** `is_admin_user` (main.py:163-169): the `ADMIN_IDS` test, then a scan of
        the panel-added admins. */
    method IsAdminUser(uid: int) returns (b: bool)
      ensures b == IsAdmin(Snapshot(), uid)
    {
      if uid in config.adminIds {
        return true;
      }
      var k := 0;
      while k < |admins|
        invariant 0 <= k <= |admins|
        invariant forall j :: 0 <= j < k ==> admins[j].id != uid
      {
        if admins[k].id == uid {
          return true;
        }
        k := k + 1;
      }
      return false;
    }

    /** `next((o for o in ORDERS if o["order_id"] == order_id), None)`, as an
        index (main.py:458). */
    method LocateOrder(orderId: string) returns (r: Option<nat>)
      ensures r == FindOrder(orders, orderId)
    {
      var i := 0;
      while i < |orders|
        invariant 0 <= i <= |orders|
        invariant forall j :: 0 <= j < i ==> orders[j].orderId != orderId
      {
        if orders[i].orderId == orderId {
          return Some(i);
        }
        i := i + 1;
      }
      return None;
    }

    /** The scan of the delete step (main.py:625-629): the position of the
        first top-level button whose id or text is the key. */
    method LocateTopLevel(key: string) returns (r: Option<nat>)
      ensures r == FirstMatchIndex(menu, key)
    {
      FirstMatchIndexIsFirst(menu, key);
      var i := 0;
      while i < |menu|
        invariant 0 <= i <= |menu|
        invariant forall j :: 0 <= j < i ==> !Matches(menu[j], key)
      {
        if menu[i].id == key || menu[i].text == key {
          return Some(i);
        }
        i := i + 1;
      }
      return None;
    }

    // ---------------- /start ----------------

    /** `cmd_start` (main.py:239-244). */
    method Start(uid: int, name: string, now: string)
      modifies this
      ensures Snapshot() == CmdStart(old(Snapshot()), uid, name, now)
    {
      if uid !in users {
        users := users[uid := NewUser(uid, name, now)];
      }
    }

    // ---------------- handle_admin_session_input ----------------

    /** The add-button steps that read the stripped text (main.py:517-578,
        609-619). */
    method WizardInput(aid: int, s: Session, line: string)
      modifies this
      ensures Snapshot() == WizardLine(old(Snapshot()), aid, s, line)
    {
      match s
      case AddButtonStep1 =>
        sessions := sessions[aid := AddButtonStep2(line)];
      case AddButtonStep2(text) =>
        sessions := sessions[aid := AddButtonStep3(text, line)];
      case AddButtonStep3(text, id) =>
        KindInput(aid, text, id, line);
      case AddButtonSubmenu(text, id, items) =>
        SubmenuInput(aid, text, id, items, line);
      case AddButtonFinishContentImg(text, id, content) =>
        menu := menu + [ContentNode(id, text, content, ImageChoice(line))];
        sessions := sessions - {aid};
      case _ =>
    }

    /** The edit steps: write into the button the search finds, wherever it
        sits (main.py:689-759). */
    method EditButton(aid: int, key: string, e: Edit)
      modifies this
      ensures Snapshot() == EditStep(old(Snapshot()), aid, key, e)
    {
      if Find(menu, key).Some? {
        menu := EditFirst(menu, key, e);
      }
      sessions := sessions - {aid};
    }

    /** The delete, rate, column, add-admin and image-URL steps
        (main.py:622-686, 704-716). */
    method SettingsInput(aid: int, sender: string, s: Session, line: string, env: Env)
      modifies this
      ensures Snapshot() == SettingsLine(old(Snapshot()), aid, sender, s, line, env)
    {
      match s
      case DelButtonStep1 =>
        DeleteInput(aid, line);
      case SetRateStep1 =>
        var p := env.parseFloat(line);
        if p.Some? {
          config := config.(rate := Some(p.value));
        }
        sessions := sessions - {aid};
      case SetLayoutColumns =>
        var p := env.parseInt(line);
        if p.Some? && p.value >= 1 {
          config := config.(layout := config.layout.(gridColumns := p.value));
        }
        sessions := sessions - {aid};
      case AddAdminStep1 =>
        var p := env.parseInt(line);
        if p.Some? {
          admins := admins + [AdminEntry(p.value, sender, ["all"])];
        }
        sessions := sessions - {aid};
      case EditAddImageUrl(key) =>
        EditButton(aid, key, SetImage(line));
      case _ =>
    }

    /** The type step of the wizard (main.py:527-553). */
    method KindInput(aid: int, text: string, id: string, line: string)
      modifies this
      ensures Snapshot() == ChooseKind(old(Snapshot()), aid, text, id, line)
    {
      if line == "submenu" {
        sessions := sessions[aid := AddButtonSubmenu(text, id, [])];
      } else if line == "request_info" {
        sessions := sessions[aid := AddButtonFinishRequest(text, id)];
      } else if line == "content" {
        sessions := sessions[aid := AddButtonFinishContent(text, id)];
      } else if line == "contact_admin" {
        menu := menu + [ContactNode(id, text)];
        sessions := sessions - {aid};
      } else {
        sessions := sessions - {aid};
      }
    }

    /** One line of the submenu loop (main.py:555-578). */
    method SubmenuInput(aid: int, text: string, id: string, items: seq<Node>, line: string)
      modifies this
      ensures Snapshot() == SubmenuLine(old(Snapshot()), aid, text, id, items, line)
    {
      if LowerEquals(line, "done") {
        menu := menu + [SubmenuNode(id, text, items)];
        sessions := sessions - {aid};
      } else {
        var parts := Split(line, '|');
        if |parts| >= 3 {
          var item := SubItem(parts);
          if item.kind == "request_info" {
            sessions := sessions[aid := AddButtonSubmenuPrompt(text, id, items, item)];
          } else {
            sessions := sessions[aid := AddButtonSubmenu(text, id, items + [item])];
          }
        }
      }
    }

    /** The delete step (main.py:622-636): the first top-level match goes, in
        place, and the session ends. */
    method DeleteInput(aid: int, line: string)
      modifies this
      ensures Snapshot() == Close(old(Snapshot()).(menu := DeleteTopLevel(old(menu), line)), aid)
    {
      var r := LocateTopLevel(line);
      if r.Some? {
        menu := menu[..r.value] + menu[r.value + 1..];
      }
      sessions := sessions - {aid};
    }

    /** The steps that take the message whatever it is (main.py:503-515,
        580-606, 689-702, 718-759). */
    method MessageInput(aid: int, s: Session, m: Message)
      modifies this
      ensures Snapshot() == MessageStep(old(Snapshot()), aid, s, m)
    {
      if s.EditAddText? || s.EditAddImageUpload? || s.EditSetRequestInfo? || s.EditSetRequestInfoPrompt? {
        EditMessageInput(aid, s, m);
      } else {
        match s
        case AskMoreInput(_) =>
          sessions := sessions - {aid};
        case AddButtonSubmenuPrompt(text, id, items, pending) =>
          sessions := sessions[aid := AddButtonSubmenu(text, id, items + [pending.(infoRequest := MessageField(m))])];
        case AddButtonFinishRequest(text, id) =>
          menu := menu + [RequestNode(id, text, MessageField(m))];
          sessions := sessions - {aid};
        case AddButtonFinishContent(text, id) =>
          sessions := sessions[aid := AddButtonFinishContentImg(text, id, MessageField(m))];
        case _ =>
      }
    }

    /** The edit steps among them (main.py:689-701, 718-762). */
    method EditMessageInput(aid: int, s: Session, m: Message)
      requires s.EditAddText? || s.EditAddImageUpload? || s.EditSetRequestInfo? || s.EditSetRequestInfoPrompt?
      modifies this
      ensures Snapshot() == MessageStep(old(Snapshot()), aid, s, m)
    {
      match s
      case EditAddText(key) =>
        EditButton(aid, key, SetDescription(MessageField(m)));
      case EditAddImageUpload(key) =>
        if m.PhotoMessage? {
          EditButton(aid, key, SetImage(m.fileId));
        }
      case EditSetRequestInfo(key) =>
        MakeRequestInfo(aid, key, m);
      case EditSetRequestInfoPrompt(key) =>
        EditButton(aid, key, SetInfoRequest(MessageField(m)));
    }

    /** The type switch of the request_info edit (main.py:737-748): the button
        is written at once and the session waits for the prompt. */
    method MakeRequestInfo(aid: int, key: string, m: Message)
      modifies this
      ensures Snapshot() == MessageStep(old(Snapshot()), aid, EditSetRequestInfo(key), m)
    {
      var found := Find(menu, key);
      if found.None? {
        sessions := sessions - {aid};
      } else {
        menu := EditFirst(menu, key, SetKind("request_info"));
        sessions := sessions[aid := EditSetRequestInfoPrompt(key)];
      }
    }

    /** `handle_admin_session_input` (main.py:499-767): a photo reaching a step
        that strips the text raises, and the `except` drops the session. */
    method SessionInput(aid: int, sender: string, m: Message, env: Env)
      requires aid in sessions
      modifies this
      ensures Snapshot() == Step(old(Snapshot()), aid, sender, m, env)
    {
      var s := sessions[aid];
      if !ReadsText(s) {
        MessageInput(aid, s, m);
      } else if s.EditAddImageUrl? && Find(menu, s.mainId).None? {
        sessions := sessions - {aid};
      } else if m.PhotoMessage? {
        sessions := sessions - {aid};
      } else if WizardReadsText(s) {
        WizardInput(aid, s, Strip(m.text));
      } else {
        SettingsInput(aid, sender, s, Strip(m.text), env);
      }
    }

    // ---------------- catch_all ----------------

    /** `catch_all` (main.py:253-300). */
    method CatchAllMessage(uid: int, sender: string, m: Message, env: Env, orderId: string, now: string)
      modifies this
      ensures Snapshot() == CatchAll(old(Snapshot()), uid, sender, m, env, orderId, now)
    {
      var admin := IsAdminUser(uid);
      if admin && uid in sessions {
        SessionInput(uid, sender, m, env);
      } else if uid in users && users[uid].awaiting.Some? {
        if !config.allowLinks && m.TextMessage? && IsLink(m.text) {
          return;
        }
        var u := users[uid];
        orders := orders + [NewOrder(uid, u, u.awaiting.value, m, orderId, now)];
        users := users[uid := u.(awaiting := None)];
      }
    }

    // ---------------- callbacks ----------------

    /** `admin_order_action` (main.py:457-496): the order is changed in place. */
    method OrderAction(aid: int, orderId: string, action: string, now: string)
      modifies this
      ensures Snapshot() == AdminOrderAction(old(Snapshot()), aid, orderId, action, now)
    {
      var r := LocateOrder(orderId);
      if r.None? {
        return;
      }
      var i := r.value;
      if action == "approve" {
        orders := orders[i := orders[i].(status := Approved, handledAt := Some(now))];
      } else if action == "reject" {
        orders := orders[i := orders[i].(status := Rejected, handledAt := Some(now))];
      } else if action == "askmore" {
        orders := orders[i := orders[i].(status := NeedsMore)];
        sessions := sessions[aid := AskMoreInput(orderId)];
      } else {
        assert orders[i := orders[i]] == orders;
      }
    }

    /** `handle_admin_action` (main.py:786-866). */
    method AdminAction(aid: int, action: string)
      modifies this
      ensures Snapshot() == HandleAdminAction(old(Snapshot()), aid, action)
    {
      if action == "toggle" {
        config := config.(botStatus := if config.botStatus == "on" then "off" else "on");
      } else {
        var next := Opener(action);
        if next.Some? {
          sessions := sessions[aid := next.value];
        }
      }
    }

    /** `handle_admin_edit_main_button` (main.py:882-925). */
    method AdminEditMainButton(aid: int, mainId: string, action: string)
      modifies this
      ensures Snapshot() == HandleAdminEditMainButton(old(Snapshot()), aid, mainId, action)
    {
      if Find(menu, mainId).Some? {
        var next := EditOpener(mainId, action);
        if next.Some? {
          sessions := sessions[aid := next.value];
        }
      }
    }

    /** `layout_handlers` (main.py:929-948). */
    method Layout(aid: int, data: string)
      requires StartsWith(data, "ADMIN|")
      modifies this
      ensures Snapshot() == LayoutHandlers(old(Snapshot()), aid, data)
    {
      var admin := IsAdminUser(aid);
      if !admin {
        return;
      }
      var action := data[6..];
      if action == "layout_vertical" {
        config := config.(layout := config.layout.(kind := "vertical"));
      } else if action == "layout_horizontal" {
        config := config.(layout := config.layout.(kind := "horizontal"));
      } else if action == "layout_grid" {
        config := config.(layout := config.layout.(kind := "grid"));
        sessions := sessions[aid := SetLayoutColumns];
      }
    }

    /** The currency toggle (main.py:317-323). */
    method ToggleCurrencyPref(uid: int)
      modifies this
      ensures Snapshot() == ToggleCurrency(old(Snapshot()), uid)
    {
      var u := if uid in users then users[uid] else BareUser;
      users := users[uid := u.(currencyPref := Some(TogglePref(u.currencyPref)))];
    }

    /** A `BTN|<id>` press (main.py:372-434). */
    method Press(uid: int, name: string, bid: string, now: string)
      modifies this
      ensures Snapshot() == PressButton(old(Snapshot()), uid, name, bid, now)
    {
      var found := Find(menu, bid);
      if found.Some? && found.value.kind == "request_info" {
        var b := found.value;
        var u := if uid in users then users[uid] else NewUser(uid, name, now);
        users := users[uid := u.(awaiting := Some(Awaiting(b.id, b.text, PromptOf(b.infoRequest))))];
      }
    }

    /** `callback_handler` (main.py:304-436). */
    method Callback(uid: int, name: string, data: string, now: string)
      modifies this
      ensures Snapshot() == CallbackHandler(old(Snapshot()), uid, name, data, now)
    {
      if data == "NAV|home" {
      } else if data == "NAV|toggle_currency" {
        ToggleCurrencyPref(uid);
      } else if StartsWith(data, "ADMIN|") {
        var admin := IsAdminUser(uid);
        if admin {
          AdminAction(uid, data[6..]);
        }
      } else if StartsWith(data, "ADMIN_EDIT|") {
        var parts := Split(data, '|');
        if |parts| >= 3 {
          AdminEditMainButton(uid, parts[1], parts[2]);
        }
      } else if StartsWith(data, "ORDER|") {
        var parts := Split(data, '|');
        if |parts| >= 3 {
          OrderAction(uid, parts[1], parts[2], now);
        }
      } else if StartsWith(data, "BTN|") {
        Press(uid, name, data[4..], now);
      }
    }

    // ---------------- one update ----------------

    /** One update, given to the handler `Route` picks. */
    method Handle(ev: Event, env: Env)
      modifies this
      ensures Snapshot() == Deliver(old(Snapshot()), ev, env)
    {
      var h := Route(ev.update);
      match ev.update
      case MessageUpdate(m) =>
        if h == StartHandler {
          Start(ev.uid, ev.name, ev.now);
        } else if h == CatchAllHandler {
          CatchAllMessage(ev.uid, ev.name, m, env, ev.orderId, ev.now);
        }
      case CallbackUpdate(d) =>
        if h == CallbackHandlerH {
          Callback(ev.uid, ev.name, d, ev.now);
        } else if h == LayoutHandler && StartsWith(d, "ADMIN|") {
          Layout(ev.uid, d);
        }
    }
  }
}
