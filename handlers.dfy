/** The telebot handlers as functions from the state before an update to the
    state after it: `/start`, `catch_all`, `callback_handler` with the admin
    screens it calls (`handle_admin_action`, `handle_admin_edit_main_button`,
    `admin_order_action`), `layout_handlers`, and the routing that decides which
    of them an update reaches. Replies, keyboards and file writes are left out;
    only what stays in memory is modelled. */
module Handlers {
  import opened Wrappers
  import opened Text
  import opened Menu
  import opened Orders
  import opened State
  import opened Sessions
  import Keyboard

  /** What one update carries besides its payload: the sender's chat id (the
      bot only serves private chats, where chat id and user id coincide), the
      sender's full name, the clock reading and the fresh `uuid4` an order
      would get. */
  datatype Update = MessageUpdate(m: Message) | CallbackUpdate(data: string)

  datatype Event = Event(uid: int, name: string, update: Update, now: string, orderId: string)

  // ---------------- /start ----------------

  /** `cmd_start` (main.py:239-249): a record is created only for a user who
      has none; the "bot is off" reply changes nothing. */
  function CmdStart(w: World, uid: int, name: string, now: string): World {
    if uid in w.users then w else w.(users := w.users[uid := NewUser(uid, name, now)])
  }

  /** After `/start` the user has a record; an existing one is kept as it was,
      a new one has no `awaiting` slot and preference AUTO; nothing else changes. */
  lemma StartCreatesOnlyMissingUser(w: World, uid: int, name: string, now: string)
    ensures var w' := CmdStart(w, uid, name, now);
      && uid in w'.users
      && w'.users.Keys == w.users.Keys + {uid}
      && (forall v :: v in w.users ==> w'.users[v] == w.users[v])
      && (uid !in w.users ==> w'.users[uid].awaiting.None? && w'.users[uid].currencyPref == Some("AUTO"))
      && w'.(users := w.users) == w
  {
  }

  /** A second `/start`, under any name and at any time, changes nothing. */
  lemma StartIsIdempotent(w: World, uid: int, name: string, now: string, name': string, now': string)
    ensures CmdStart(CmdStart(w, uid, name, now), uid, name', now') == CmdStart(w, uid, name, now)
  {
  }

  /** A new user under a config without an exchange rate sees prices in USD. */
  lemma NewUserSeesUsdWithoutRate(w: World, uid: int, name: string, now: string)
    requires uid !in w.users && !RateIsSet(w.config.rate)
    ensures UserCurrency(CmdStart(w, uid, name, now), uid) == "USD"
  {
  }

  // ---------------- catch_all ----------------

  /** A text the link filter refuses. */
  predicate IsLink(t: string) {
    StartsWith(t, "http://") || StartsWith(t, "https://")
  }

  /** The `info` of an order: the text, or the photo's file id. */
  function InfoOf(m: Message): Info {
    match m
    case TextMessage(t) => TextInfo(t)
    case PhotoMessage(f) => PhotoInfo(f)
  }

  /** The order `catch_all` builds from an answer (main.py:274-283). */
  function NewOrder(uid: int, u: User, a: Awaiting, m: Message, orderId: string, now: string): Order {
    Order(orderId, uid, u.name, a.buttonId, a.buttonText, InfoOf(m), Pending, now, None)
  }

  /** The user has pressed a request_info button and not yet answered. */
  predicate Awaits(w: World, uid: int) {
    uid in w.users && w.users[uid].awaiting.Some?
  }

  /** The answer branch of `catch_all` (main.py:261-295). */
  function AnswerAwaiting(w: World, uid: int, m: Message, orderId: string, now: string): World
    requires Awaits(w, uid)
  {
    if !w.config.allowLinks && m.TextMessage? && IsLink(m.text) then w
    else
      var u := w.users[uid];
      w.(orders := w.orders + [NewOrder(uid, u, u.awaiting.value, m, orderId, now)],
         users := w.users[uid := u.(awaiting := None)])
  }

  /** The admin is routed to the open session before anything else. */
  predicate RoutedToSession(w: World, uid: int) {
    IsAdmin(w, uid) && uid in w.sessions
  }

  /** `catch_all` (main.py:253-300): an admin's open session first, then a
      pending answer; any other free message is refused with no change. */
  function CatchAll(w: World, uid: int, sender: string, m: Message, env: Env, orderId: string, now: string): World {
    if RoutedToSession(w, uid) then Step(w, uid, sender, m, env)
    else if Awaits(w, uid) then AnswerAwaiting(w, uid, m, orderId, now)
    else w
  }

  /** An admin with an open session is served by the session even when that
      admin is also waiting to answer a request_info button; no order is made. */
  lemma SessionComesBeforeAnswer(w: World, uid: int, sender: string, m: Message, env: Env, orderId: string, now: string)
    requires IsAdmin(w, uid) && uid in w.sessions
    ensures CatchAll(w, uid, sender, m, env, orderId, now) == Step(w, uid, sender, m, env)
  {
  }

  /** So the admin's own `awaiting` slot and the order list stay as they are. */
  lemma SessionLeavesAnswerPending(w: World, uid: int, sender: string, m: Message, env: Env, orderId: string, now: string)
    requires IsAdmin(w, uid) && uid in w.sessions && Awaits(w, uid)
    ensures var w' := CatchAll(w, uid, sender, m, env, orderId, now);
      w'.orders == w.orders && Awaits(w', uid) && w'.users[uid] == w.users[uid]
  {
    SessionComesBeforeAnswer(w, uid, sender, m, env, orderId, now);
    StepFrame(w, uid, sender, m, env);
  }

  /** A session held by someone who is not an admin (the edit and order
      screens open one without checking) is never advanced by their messages. */
  lemma NonAdminSessionIgnored(w: World, uid: int, sender: string, m: Message, env: Env, orderId: string, now: string)
    requires !IsAdmin(w, uid) && uid in w.sessions
    ensures CatchAll(w, uid, sender, m, env, orderId, now).sessions == w.sessions
  {
  }

  /** An answer either trips the link filter, and then nothing changes and the
      slot stays, or it becomes exactly one new order at the end of the list:
      pending, for the awaited button, holding the text or the photo, with the
      user's id and name; the slot is then empty and nothing else is touched. */
  lemma AnswerMakesOneOrder(w: World, uid: int, sender: string, m: Message, env: Env, orderId: string, now: string)
    requires Awaits(w, uid) && !RoutedToSession(w, uid)
    ensures var w' := CatchAll(w, uid, sender, m, env, orderId, now);
      var a := w.users[uid].awaiting.value;
      if !w.config.allowLinks && m.TextMessage? && IsLink(m.text) then w' == w
      else
        && |w'.orders| == |w.orders| + 1
        && w'.orders[..|w.orders|] == w.orders
        && var o := w'.orders[|w.orders|];
        && o.orderId == orderId && o.userId == uid && o.userName == w.users[uid].name
        && o.status == Pending && o.handledAt.None?
        && o.buttonId == a.buttonId && o.buttonText == a.buttonText
        && o.info == (if m.PhotoMessage? then PhotoInfo(m.fileId) else TextInfo(m.text))
        && w'.users.Keys == w.users.Keys
        && w'.users[uid] == w.users[uid].(awaiting := None)
        && (forall v :: v in w.users && v != uid ==> w'.users[v] == w.users[v])
        && w'.config == w.config && w'.menu == w.menu && w'.admins == w.admins && w'.sessions == w.sessions
  {
    var w' := CatchAll(w, uid, sender, m, env, orderId, now);
    if !(!w.config.allowLinks && m.TextMessage? && IsLink(m.text)) {
      assert w'.orders == w.orders + [w'.orders[|w.orders|]];
    }
  }

  /** The slot is consumed once: after the answer that made an order, the
      next free message of that (non-admin) user makes none. */
  lemma AnswerIsConsumedOnce(w: World, uid: int, sender: string, m: Message, m': Message, env: Env,
                             orderId: string, now: string, orderId': string, now': string)
    requires Awaits(w, uid) && !IsAdmin(w, uid)
    requires CatchAll(w, uid, sender, m, env, orderId, now) != w
    ensures var w1 := CatchAll(w, uid, sender, m, env, orderId, now);
      && |w1.orders| == |w.orders| + 1
      && !Awaits(w1, uid)
      && CatchAll(w1, uid, sender, m', env, orderId', now') == w1
  {
  }

  /** Links are let through when the config allows them. */
  lemma LinksAllowedMakeOrders(w: World, uid: int, sender: string, t: string, env: Env, orderId: string, now: string)
    requires Awaits(w, uid) && !RoutedToSession(w, uid) && w.config.allowLinks
    ensures |CatchAll(w, uid, sender, TextMessage(t), env, orderId, now).orders| == |w.orders| + 1
  {
  }

  // ---------------- admin_order_action ----------------

  /** `admin_order_action(call, order_id, action)` (main.py:457-496); `aid` is
      whoever pressed the button, which the callback handler does not check. */
  function AdminOrderAction(w: World, aid: int, orderId: string, action: string, now: string): World {
    if FindOrder(w.orders, orderId).None? then w
    else
      var w1 := w.(orders := Review(w.orders, orderId, action, now));
      if action == "askmore" then w1.(sessions := w1.sessions[aid := AskMoreInput(orderId)]) else w1
  }

  /** An unknown order id changes nothing. Otherwise the order list keeps its
      length and changes as `Review` says, askmore also opens the follow-up
      session for that order, and nothing else changes. */
  lemma OrderActionEffect(w: World, aid: int, orderId: string, action: string, now: string)
    ensures var w' := AdminOrderAction(w, aid, orderId, action, now);
      && (FindOrder(w.orders, orderId).None? ==> w' == w)
      && |w'.orders| == |w.orders|
      && w'.orders == Review(w.orders, orderId, action, now)
      && w'.config == w.config && w'.menu == w.menu && w'.users == w.users && w'.admins == w.admins
      && (FindOrder(w.orders, orderId).Some? && action == "askmore" ==> w'.sessions == w.sessions[aid := AskMoreInput(orderId)])
      && (action != "askmore" ==> w'.sessions == w.sessions)
  {
    if FindOrder(w.orders, orderId).None? {
      assert Review(w.orders, orderId, action, now) == w.orders;
    }
  }

  /** The follow-up question is taken by the session and then the session is
      gone; the order keeps "needs_more". */
  lemma AskMoreRoundTrip(w: World, aid: int, orderId: string, now: string, sender: string, m: Message, env: Env)
    requires FindOrder(w.orders, orderId).Some?
    ensures var w1 := AdminOrderAction(w, aid, orderId, "askmore", now);
      && w1.sessions[aid] == AskMoreInput(orderId)
      && w1.orders[FindOrder(w.orders, orderId).value].status == NeedsMore
      && var w2 := Step(w1, aid, sender, m, env);
      && aid !in w2.sessions && w2.orders == w1.orders
  {
    ReviewTouchesOnlyTheOrder(w.orders, orderId, "askmore", now);
  }

  // ---------------- the admin panel ----------------

  /** The session each panel entry opens (main.py:806-866). */
  function Opener(action: string): Option<Session> {
    if action == "broadcast" then Some(BroadcastStep1)
    else if action == "set_rate" then Some(SetRateStep1)
    else if action == "add_button" then Some(AddButtonStep1)
    else if action == "del_button" then Some(DelButtonStep1)
    else if action == "add_admin" then Some(AddAdminStep1)
    else if action == "del_admin" then Some(DelAdminStep1)
    else None
  }

  /** `CONFIG["BOT_STATUS"] = "off" if ... == "on" else "on"` (main.py:838). */
  function ToggledStatus(status: string): string {
    if status == "on" then "off" else "on"
  }

  /** `handle_admin_action(call, action)` (main.py:786-866). The listing
      screens (buttons, orders, layout, admins, statistics) only send messages. */
  function HandleAdminAction(w: World, aid: int, action: string): World {
    if action == "toggle" then w.(config := w.config.(botStatus := ToggledStatus(w.config.botStatus)))
    else match Opener(action)
      case Some(s) => w.(sessions := w.sessions[aid := s])
      case None => w
  }

  /** The first states of the six flows the panel opens. */
  predicate IsFirstState(s: Session) {
    s in {BroadcastStep1, SetRateStep1, AddButtonStep1, DelButtonStep1, AddAdminStep1, DelAdminStep1}
  }

  /** A panel entry never touches the menu, the users, the orders, the admin
      list or another admin's session. The bot switch is the only entry that
      writes the config, and it writes only the status, always to a different
      value. Each of the six openers leaves the admin in the first state of a
      flow, replacing any session that was open; every other entry changes
      nothing. */
  lemma AdminActionEffect(w: World, aid: int, action: string)
    ensures var w' := HandleAdminAction(w, aid, action);
      && w'.menu == w.menu && w'.users == w.users && w'.orders == w.orders && w'.admins == w.admins
      && w'.sessions - {aid} == w.sessions - {aid}
      && w'.config.(botStatus := w.config.botStatus) == w.config
      && (action != "toggle" ==> w'.config == w.config)
      && (action == "toggle" ==> w'.config.botStatus != w.config.botStatus && w'.config.botStatus in {"on", "off"})
      && (action == "toggle" && w.config.botStatus != "on" ==> w'.config.botStatus == "on")
      && (w'.sessions != w.sessions ==> aid in w'.sessions && IsFirstState(w'.sessions[aid]))
      && (action in {"broadcast", "set_rate", "add_button", "del_button", "add_admin", "del_admin"} ==>
            aid in w'.sessions && IsFirstState(w'.sessions[aid]))
      && (action !in {"toggle", "broadcast", "set_rate", "add_button", "del_button", "add_admin", "del_admin"} ==> w' == w)
  {
  }

  /** The bot switch: "on" goes "off", anything else (including "off") goes
      "on", so two presses from "on" or "off" come back. */
  lemma StatusToggleFlips(status: string)
    ensures status == "on" ==> ToggledStatus(status) == "off"
    ensures status != "on" ==> ToggledStatus(status) == "on"
    ensures ToggledStatus(status) in {"on", "off"}
    ensures ToggledStatus(status) != status || status !in {"on", "off"}
    ensures status in {"on", "off"} ==> ToggledStatus(ToggledStatus(status)) == status
  {
  }

  /** The session one "edit this main button" entry opens (main.py:899-915). */
  function EditOpener(mainId: string, action: string): Option<Session> {
    if action == "add_text" then Some(EditAddText(mainId))
    else if action == "add_image_url" then Some(EditAddImageUrl(mainId))
    else if action == "add_image_upload" then Some(EditAddImageUpload(mainId))
    else if action == "set_request_info" then Some(EditSetRequestInfo(mainId))
    else None
  }

  /** `handle_admin_edit_main_button(call, main_id, action)` (main.py:882-925). */
  function HandleAdminEditMainButton(w: World, aid: int, mainId: string, action: string): World {
    if Find(w.menu, mainId).None? then w
    else match EditOpener(mainId, action)
      case Some(s) => w.(sessions := w.sessions[aid := s])
      case None => w
  }

  /** A state of one of the four edit flows, for the button `mainId`. */
  predicate IsEditStateFor(s: Session, mainId: string) {
    (s.EditAddText? || s.EditAddImageUrl? || s.EditAddImageUpload? || s.EditSetRequestInfo?) && s.mainId == mainId
  }

  /** An edit entry touches nothing but the presser's session. It opens an
      edit flow for `mainId` only when the search finds that button, anywhere
      in the tree, and only for the four edit entries; "menu", "show_subs" and
      unknown entries change nothing. */
  lemma EditOpenerEffect(w: World, aid: int, mainId: string, action: string)
    ensures var w' := HandleAdminEditMainButton(w, aid, mainId, action);
      && w'.config == w.config && w'.menu == w.menu && w'.users == w.users
      && w'.orders == w.orders && w'.admins == w.admins
      && w'.sessions - {aid} == w.sessions - {aid}
      && (w'.sessions != w.sessions ==> Find(w.menu, mainId).Some? && aid in w'.sessions && IsEditStateFor(w'.sessions[aid], mainId))
      && (Find(w.menu, mainId).None? ==> w' == w)
      && (action !in {"add_text", "add_image_url", "add_image_upload", "set_request_info"} ==> w' == w)
      && (Find(w.menu, mainId).Some? && action in {"add_text", "add_image_url", "add_image_upload", "set_request_info"} ==>
            aid in w'.sessions && IsEditStateFor(w'.sessions[aid], mainId))
  {
  }

  /** `layout_handlers` (main.py:929-948): `data` is the whole callback string. */
  function LayoutHandlers(w: World, aid: int, data: string): World
    requires StartsWith(data, "ADMIN|")
  {
    var action := data[6..];
    if !IsAdmin(w, aid) then w
    else if action == "layout_vertical" then w.(config := w.config.(layout := w.config.layout.(kind := "vertical")))
    else if action == "layout_horizontal" then w.(config := w.config.(layout := w.config.layout.(kind := "horizontal")))
    else if action == "layout_grid" then
      w.(config := w.config.(layout := w.config.layout.(kind := "grid")), sessions := w.sessions[aid := SetLayoutColumns])
    else w
  }

  /** The layout entries: a non-admin's press changes nothing. "vertical" and
      "horizontal" write only the layout type, "grid" writes it and opens the
      columns step, and any other suffix changes nothing. No entry writes the
      column count or anything outside the layout and the presser's session. */
  lemma LayoutEntriesEffect(w: World, aid: int, data: string)
    requires StartsWith(data, "ADMIN|")
    ensures var w' := LayoutHandlers(w, aid, data);
      && (!IsAdmin(w, aid) ==> w' == w)
      && w'.menu == w.menu && w'.users == w.users && w'.orders == w.orders && w'.admins == w.admins
      && w'.sessions - {aid} == w.sessions - {aid}
      && w'.config.(layout := w.config.layout) == w.config
      && w'.config.layout.gridColumns == w.config.layout.gridColumns
      && (IsAdmin(w, aid) && data[6..] == "layout_vertical" ==>
            w'.config.layout.kind == "vertical" && w'.sessions == w.sessions)
      && (IsAdmin(w, aid) && data[6..] == "layout_horizontal" ==>
            w'.config.layout.kind == "horizontal" && w'.sessions == w.sessions)
      && (IsAdmin(w, aid) && data[6..] == "layout_grid" ==>
            w'.config.layout.kind == "grid" && aid in w'.sessions && w'.sessions[aid] == SetLayoutColumns)
      && (data[6..] !in {"layout_vertical", "layout_horizontal", "layout_grid"} ==> w' == w)
  {
  }

  // ---------------- what each panel entry leads to ----------------

  /** "set_rate", then a text: a number becomes the rate, anything else
      leaves the config as it was, and the session ends. */
  lemma SetRateEntryRoundTrip(w: World, aid: int, sender: string, t: string, env: Env)
    ensures var w1 := HandleAdminAction(w, aid, "set_rate");
      && aid in w1.sessions
      && var w2 := Step(w1, aid, sender, TextMessage(t), env);
      && aid !in w2.sessions && w2.menu == w.menu && w2.admins == w.admins
      && w2.config == (if env.parseFloat(Strip(t)).Some? then w.config.(rate := env.parseFloat(Strip(t))) else w.config)
  {
    NumericStepsRejectBadInput(HandleAdminAction(w, aid, "set_rate"), aid, sender, t, env);
  }

  /** "add_admin", then a text: an id is appended to the admin list, anything
      else leaves it, the config is kept and the session ends. */
  lemma AddAdminEntryRoundTrip(w: World, aid: int, sender: string, t: string, env: Env)
    ensures var w1 := HandleAdminAction(w, aid, "add_admin");
      && aid in w1.sessions
      && var w2 := Step(w1, aid, sender, TextMessage(t), env);
      && aid !in w2.sessions && w2.menu == w.menu && w2.config == w.config
      && w2.admins == (if env.parseInt(Strip(t)).Some?
                       then w.admins + [AdminEntry(env.parseInt(Strip(t)).value, sender, ["all"])]
                       else w.admins)
  {
    var w1 := HandleAdminAction(w, aid, "add_admin");
    NumericStepsRejectBadInput(w1, aid, sender, t, env);
    if env.parseInt(Strip(t)).Some? {
      AddAdminAppends(w1, aid, sender, t, env);
    }
  }

  /** "del_button", then a text: the first top-level button with that id or
      text is removed, and the session ends. */
  lemma DelButtonEntryRoundTrip(w: World, aid: int, sender: string, t: string, env: Env)
    ensures var w1 := HandleAdminAction(w, aid, "del_button");
      && aid in w1.sessions
      && var w2 := Step(w1, aid, sender, TextMessage(t), env);
      && aid !in w2.sessions && w2.config == w.config && w2.admins == w.admins
      && w2.menu == DeleteTopLevel(w.menu, Strip(t))
  {
    DeleteStep(HandleAdminAction(w, aid, "del_button"), aid, sender, t, env);
  }

  /** "add_button", then a text, an id and "contact_admin": a contact button
      with that text and id is appended and the session ends. */
  lemma AddButtonEntryRoundTrip(w: World, aid: int, sender: string, a: string, b: string, c: string, env: Env)
    requires Strip(c) == "contact_admin"
    ensures var w1 := HandleAdminAction(w, aid, "add_button");
      && aid in w1.sessions
      && Run(w1, aid, sender, [TextMessage(a), TextMessage(b), TextMessage(c)], env)
         == w.(menu := w.menu + [ContactNode(Strip(b), Strip(a))], sessions := w.sessions - {aid})
  {
    var w1 := HandleAdminAction(w, aid, "add_button");
    ContactWizard(w1, aid, sender, a, b, c, env);
    assert w1.sessions - {aid} == w.sessions - {aid};
  }

  /** "broadcast" and "del_admin" open sessions that no step handles: whatever
      the admin sends next, nothing changes and the session stays open. */
  lemma StuckEntriesStay(w: World, aid: int, action: string, sender: string, msgs: seq<Message>, env: Env)
    requires action in {"broadcast", "del_admin"}
    ensures var w1 := HandleAdminAction(w, aid, action);
      && aid in w1.sessions && w1.sessions != w.sessions - {aid}
      && Run(w1, aid, sender, msgs, env) == w1
  {
    StuckSessionsStay(HandleAdminAction(w, aid, action), aid, sender, msgs, env);
  }

  /** "add_text" on a button the lookup finds, then any message: that message
      (null for a photo) becomes the button's description. */
  lemma AddTextEntryRoundTrip(w: World, aid: int, mainId: string, sender: string, m: Message, env: Env)
    requires Find(w.menu, mainId).Some?
    ensures var w1 := HandleAdminEditMainButton(w, aid, mainId, "add_text");
      && aid in w1.sessions
      && var w2 := Step(w1, aid, sender, m, env);
      && aid !in w2.sessions && w2.config == w.config
      && Find(w2.menu, mainId) == Some(Find(w.menu, mainId).value.(description := MessageField(m)))
  {
    EditReachesFound(w.menu, mainId, SetDescription(MessageField(m)));
  }

  /** "add_image_url" on a button the lookup finds, then a text: the stripped
      text becomes the button's image. */
  lemma AddImageUrlEntryRoundTrip(w: World, aid: int, mainId: string, sender: string, t: string, env: Env)
    requires Find(w.menu, mainId).Some?
    ensures var w1 := HandleAdminEditMainButton(w, aid, mainId, "add_image_url");
      && aid in w1.sessions
      && var w2 := Step(w1, aid, sender, TextMessage(t), env);
      && aid !in w2.sessions && w2.config == w.config
      && Find(w2.menu, mainId) == Some(Find(w.menu, mainId).value.(image := Str(Strip(t))))
  {
    EditReachesFound(w.menu, mainId, SetImage(Strip(t)));
  }

  /** "add_image_upload" on a button the lookup finds: texts leave everything
      as it is, and a photo's file id becomes the button's image. */
  lemma AddImageUploadEntryRoundTrip(w: World, aid: int, mainId: string, sender: string, texts: seq<Message>, f: string, env: Env)
    requires Find(w.menu, mainId).Some?
    requires AllText(texts)
    ensures var w1 := HandleAdminEditMainButton(w, aid, mainId, "add_image_upload");
      && aid in w1.sessions
      && Run(w1, aid, sender, texts, env) == w1
      && var w2 := Step(w1, aid, sender, PhotoMessage(f), env);
      && aid !in w2.sessions && w2.config == w.config
      && Find(w2.menu, mainId) == Some(Find(w.menu, mainId).value.(image := Str(f)))
  {
    var w1 := HandleAdminEditMainButton(w, aid, mainId, "add_image_upload");
    UploadWaitsForPhoto(w1, aid, sender, mainId, texts, env);
    UploadTakesPhoto(w1, aid, sender, mainId, f, env);
  }

  /** "set_request_info" on a button the lookup finds, then two messages: the
      button becomes a request_info button whose prompt is the second one. */
  lemma SetRequestInfoEntryRoundTrip(w: World, aid: int, mainId: string, sender: string, m1: Message, m2: Message, env: Env)
    requires Find(w.menu, mainId).Some?
    ensures var w1 := HandleAdminEditMainButton(w, aid, mainId, "set_request_info");
      && aid in w1.sessions
      && var w2 := Run(w1, aid, sender, [m1, m2], env);
      && aid !in w2.sessions && w2.config == w.config
      && Find(w2.menu, mainId) == Some(Find(w.menu, mainId).value.(kind := "request_info", infoRequest := MessageField(m2)))
  {
    var w1 := HandleAdminEditMainButton(w, aid, mainId, "set_request_info");
    RequestInfoTakesTwoMessages(w1, aid, sender, mainId, m1, m1, m2, env);
  }

  // ---------------- callback_handler ----------------

  /** The currency toggle (main.py:317-323); a record holding only the
      preference is created for an unknown user. */
  function ToggleCurrency(w: World, uid: int): World {
    var u := if uid in w.users then w.users[uid] else BareUser;
    w.(users := w.users[uid := u.(currencyPref := Some(TogglePref(u.currencyPref)))])
  }

  /** Three presses in a row from a user whose preference is AUTO, USD or SYP
      (or who has none) come back to where they started, with AUTO for none. */
  lemma ToggleThreeTimes(w: World, uid: int)
    requires uid in w.users ==> w.users[uid].currencyPref.None? || w.users[uid].currencyPref.value in {"AUTO", "USD", "SYP"}
    ensures var w3 := ToggleCurrency(ToggleCurrency(ToggleCurrency(w, uid), uid), uid);
      && uid in w3.users
      && w3.users[uid].currencyPref == (if uid in w.users && w.users[uid].currencyPref.Some? then w.users[uid].currencyPref else Some("AUTO"))
      && w3.(users := w.users) == w
  {
  }

  const DefaultPrompt: string := "أرسل المعلومات المطلوبة"

  /** `btn.get("info_request", <default prompt>)`. */
  function PromptOf(f: Field): Option<string> {
    match f
    case Absent => Some(DefaultPrompt)
    case Null => None
    case Str(p) => Some(p)
  }

  /** A `BTN|<id>` press (main.py:372-434): only a request_info button changes
      state, by filling the user's `awaiting` slot, creating the record first
      for an unknown user. */
  function PressButton(w: World, uid: int, name: string, bid: string, now: string): World {
    match Find(w.menu, bid)
    case None => w
    case Some(b) =>
      if b.kind != "request_info" then w
      else
        var u := if uid in w.users then w.users[uid] else NewUser(uid, name, now);
        w.(users := w.users[uid := u.(awaiting := Some(Awaiting(b.id, b.text, PromptOf(b.infoRequest))))])
  }

  /** Pressing a request_info button, wherever it sits in the tree, sets the
      slot to that button and its prompt, the default prompt when the button
      has none; the rest of the presser's record is kept, or is a new user's
      record when there was none; any other press changes nothing. */
  lemma PressSetsAwaiting(w: World, uid: int, name: string, bid: string, now: string)
    ensures var w' := PressButton(w, uid, name, bid, now);
      && (Find(w.menu, bid).None? || Find(w.menu, bid).value.kind != "request_info" ==> w' == w)
      && (Find(w.menu, bid).Some? && Find(w.menu, bid).value.kind == "request_info" ==>
            var b := Find(w.menu, bid).value;
            && Awaits(w', uid)
            && w'.users[uid].awaiting.value.buttonId == b.id
            && w'.users[uid].awaiting.value.buttonText == b.text
            && w'.users[uid].awaiting.value.prompt == (if b.infoRequest.Absent? then Some(DefaultPrompt)
                                                       else if b.infoRequest.Null? then None
                                                       else Some(b.infoRequest.value))
            && w'.users[uid].(awaiting := None) == (if uid in w.users then w.users[uid].(awaiting := None) else NewUser(uid, name, now))
            && w'.users.Keys == w.users.Keys + {uid}
            && w'.(users := w.users) == w
            && (forall v :: v in w.users && v != uid ==> w'.users[v] == w.users[v]))
  {
  }

  /** `callback_handler` (main.py:304-436). */
  function CallbackHandler(w: World, uid: int, name: string, data: string, now: string): World {
    if data == "NAV|home" then w
    else if data == "NAV|toggle_currency" then ToggleCurrency(w, uid)
    else if StartsWith(data, "ADMIN|") then
      (if IsAdmin(w, uid) then HandleAdminAction(w, uid, data[6..]) else w)
    else if StartsWith(data, "ADMIN_EDIT|") then
      var parts := Split(data, '|');
      if |parts| >= 3 then HandleAdminEditMainButton(w, uid, parts[1], parts[2]) else w
    else if StartsWith(data, "ORDER|") then
      var parts := Split(data, '|');
      if |parts| >= 3 then AdminOrderAction(w, uid, parts[1], parts[2], now) else w
    else if StartsWith(data, "BTN|") then PressButton(w, uid, name, data[4..], now)
    else w
  }

  /** The admin panel is closed to everyone else. */
  lemma AdminCallbacksNeedAdmin(w: World, uid: int, name: string, action: string, now: string)
    requires !IsAdmin(w, uid)
    ensures CallbackHandler(w, uid, name, "ADMIN|" + action, now) == w
  {
    var data := "ADMIN|" + action;
    assert data[..6] == "ADMIN|";
    assert data[0] == 'A' && "NAV|home"[0] == 'N' && "NAV|toggle_currency"[0] == 'N';
  }

  // ---------------- routing ----------------

  datatype Handler = StartHandler | CatchAllHandler | AdminCommandHandler | CallbackHandlerH | EditMainListHandler | LayoutHandler

  /** telebot's `commands=[...]` filter. */
  predicate IsCommand(m: Message, names: set<string>) {
    m.TextMessage? && CommandOf(m.text).Some? && CommandOf(m.text).value in names
  }

  /** telebot gives an update to the FIRST handler, in registration order,
      whose filter accepts it. `catch_all` (main.py:252) and `callback_handler`
      (main.py:303) accept everything and are registered before `cmd_admin`
      (main.py:770), `admin_edit_main_list` (main.py:869) and `layout_handlers`
      (main.py:928), so those three never run. */
  function RouteAsRegistered(u: Update): Handler {
    match u
    case MessageUpdate(m) => if IsCommand(m, {"start", "help"}) then StartHandler else CatchAllHandler
    case CallbackUpdate(_) => CallbackHandlerH
  }

  /** The routing the handlers' own filters ask for: the specific handlers
      take their updates and the catch-all ones get the rest. */
  function Route(u: Update): Handler {
    match u
    case MessageUpdate(m) =>
      if IsCommand(m, {"start", "help"}) then StartHandler
      else if IsCommand(m, {"admin", "panel"}) then AdminCommandHandler
      else CatchAllHandler
    case CallbackUpdate(d) =>
      if d == "ADMIN|edit_main_list" then EditMainListHandler
      else if StartsWith(d, "ADMIN|layout_") then LayoutHandler
      else CallbackHandlerH
  }

  /** What a handler does to the state. `cmd_admin` and `admin_edit_main_list`
      only send a keyboard. */
  function Dispatch(w: World, ev: Event, env: Env, h: Handler): World {
    match ev.update
    case MessageUpdate(m) =>
      (match h
       case StartHandler => CmdStart(w, ev.uid, ev.name, ev.now)
       case CatchAllHandler => CatchAll(w, ev.uid, ev.name, m, env, ev.orderId, ev.now)
       case _ => w)
    case CallbackUpdate(d) =>
      (match h
       case CallbackHandlerH => CallbackHandler(w, ev.uid, ev.name, d, ev.now)
       case LayoutHandler => if StartsWith(d, "ADMIN|") then LayoutHandlers(w, ev.uid, d) else w
       case _ => w)
  }

  /** One update as the bot, as written, processes it. */
  function DeliverAsRegistered(w: World, ev: Event, env: Env): World {
    Dispatch(w, ev, env, RouteAsRegistered(ev.update))
  }

  /** One update with every handler reachable. */
  function Deliver(w: World, ev: Event, env: Env): World {
    Dispatch(w, ev, env, Route(ev.update))
  }

  function RunAsRegistered(w: World, evs: seq<Event>, env: Env): World
    decreases |evs|
  {
    if evs == [] then w else RunAsRegistered(DeliverAsRegistered(w, evs[0], env), evs[1..], env)
  }

  predicate NoColumnsSession(w: World) {
    forall a :: a in w.sessions ==> w.sessions[a] != SetLayoutColumns
  }

  /** `handle_admin_action` has no branch for the layout entries. */
  lemma AdminActionKeepsLayout(w: World, aid: int, action: string)
    ensures HandleAdminAction(w, aid, action).config.layout == w.config.layout
    ensures NoColumnsSession(w) ==> NoColumnsSession(HandleAdminAction(w, aid, action))
  {
  }

  /** No step of any session writes the layout type, and only the columns
      session writes the column count. */
  lemma StepKeepsLayout(w: World, aid: int, sender: string, m: Message, env: Env)
    requires aid in w.sessions
    ensures var w' := Step(w, aid, sender, m, env);
      && w'.config.layout.kind == w.config.layout.kind
      && (w.sessions[aid] != SetLayoutColumns ==> w'.config.layout == w.config.layout)
      && (NoColumnsSession(w) ==> NoColumnsSession(w'))
  {
    var w' := Step(w, aid, sender, m, env);
    StepFrame(w, aid, sender, m, env);
    StepMoves(w, aid, sender, m, env);
    StepLayout(w, aid, sender, m, env);
    if NoColumnsSession(w) {
      forall a | a in w'.sessions
        ensures w'.sessions[a] != SetLayoutColumns
      {
        if a != aid {
          assert a in w'.sessions - {aid};
          assert w'.sessions[a] == (w'.sessions - {aid})[a] == (w.sessions - {aid})[a] == w.sessions[a];
        }
      }
    }
  }

  /** One update of the bot as written, for the layout. */
  lemma DeliveredKeepsLayout(w: World, ev: Event, env: Env)
    requires NoColumnsSession(w)
    ensures DeliverAsRegistered(w, ev, env).config.layout == w.config.layout
    ensures NoColumnsSession(DeliverAsRegistered(w, ev, env))
  {
    match ev.update
    case MessageUpdate(m) =>
      if !IsCommand(m, {"start", "help"}) {
        CatchAllKeepsLayout(w, ev.uid, ev.name, m, env, ev.orderId, ev.now);
      }
    case CallbackUpdate(d) =>
      CallbackKeepsLayout(w, ev.uid, ev.name, d, ev.now);
  }

  lemma CatchAllKeepsLayout(w: World, uid: int, sender: string, m: Message, env: Env, orderId: string, now: string)
    requires NoColumnsSession(w)
    ensures CatchAll(w, uid, sender, m, env, orderId, now).config.layout == w.config.layout
    ensures NoColumnsSession(CatchAll(w, uid, sender, m, env, orderId, now))
  {
    if RoutedToSession(w, uid) {
      StepKeepsLayout(w, uid, sender, m, env);
    }
  }

  lemma CallbackKeepsLayout(w: World, uid: int, name: string, d: string, now: string)
    requires NoColumnsSession(w)
    ensures CallbackHandler(w, uid, name, d, now).config.layout == w.config.layout
    ensures NoColumnsSession(CallbackHandler(w, uid, name, d, now))
  {
    if StartsWith(d, "ADMIN|") && IsAdmin(w, uid) {
      AdminActionKeepsLayout(w, uid, d[6..]);
    }
  }

  /** As written, the button layout can never be changed: from a state with
      no columns session open (the state after a start has none), every
      sequence of updates leaves type and column count as they were. */
  lemma {:induction false} LayoutIsFrozenAsRegistered(w: World, evs: seq<Event>, env: Env)
    requires NoColumnsSession(w)
    ensures RunAsRegistered(w, evs, env).config.layout == w.config.layout
    decreases |evs|
  {
    if evs != [] {
      DeliveredKeepsLayout(w, evs[0], env);
      LayoutIsFrozenAsRegistered(DeliverAsRegistered(w, evs[0], env), evs[1..], env);
    }
  }

  /** With the layout handler reachable, an admin's "grid" press sets the type
      and asks for the column count, and a valid count is then stored. */
  lemma GridLayoutReachable(w: World, ev: Event, env: Env, cols: string, sender: string)
    requires ev.update == CallbackUpdate("ADMIN|layout_grid") && IsAdmin(w, ev.uid)
    requires env.parseInt(Strip(cols)).Some? && env.parseInt(Strip(cols)).value >= 1
    ensures var w1 := Deliver(w, ev, env);
      && w1.config.layout.kind == "grid"
      && w1.sessions[ev.uid] == SetLayoutColumns
      && var w2 := Step(w1, ev.uid, sender, TextMessage(cols), env);
      && w2.config.layout == Keyboard.Layout("grid", env.parseInt(Strip(cols)).value)
      && ev.uid !in w2.sessions
  {
    GridPressRoute(w, ev, env);
    var w1 := Deliver(w, ev, env);
    ColumnsStep(w1, ev.uid, sender, cols, env);
  }

  /** The "grid" press reaches `layout_handlers`, which sets the type and opens
      the columns session. */
  lemma GridPressRoute(w: World, ev: Event, env: Env)
    requires ev.update == CallbackUpdate("ADMIN|layout_grid") && IsAdmin(w, ev.uid)
    ensures Deliver(w, ev, env)
         == w.(config := w.config.(layout := w.config.layout.(kind := "grid")), sessions := w.sessions[ev.uid := SetLayoutColumns])
  {
    assert StartsWith("ADMIN|layout_grid", "ADMIN|layout_") && StartsWith("ADMIN|layout_grid", "ADMIN|");
    assert "ADMIN|layout_grid"[6..] == "layout_grid";
  }

  /** A valid column count closes the columns session and is stored. */
  lemma ColumnsStep(w: World, aid: int, sender: string, cols: string, env: Env)
    requires aid in w.sessions && w.sessions[aid] == SetLayoutColumns
    requires env.parseInt(Strip(cols)).Some? && env.parseInt(Strip(cols)).value >= 1
    ensures var w' := Step(w, aid, sender, TextMessage(cols), env);
      w'.config.layout == w.config.layout.(gridColumns := env.parseInt(Strip(cols)).value) && aid !in w'.sessions
  {
  }

  /** As written, the same press reaches `handle_admin_action`, which has no
      "layout_grid" branch: nothing changes. */
  lemma GridLayoutUnreachableAsRegistered(w: World, ev: Event, env: Env)
    requires ev.update == CallbackUpdate("ADMIN|layout_grid")
    ensures DeliverAsRegistered(w, ev, env) == w
  {
    assert StartsWith("ADMIN|layout_grid", "ADMIN|");
    assert "ADMIN|layout_grid"[6..] == "layout_grid";
  }

  /** As written, "/admin" from a user who is waiting to answer becomes that
      user's order text; with `cmd_admin` reachable it changes nothing. */
  lemma AdminCommandBecomesAnswer(w: World, ev: Event, env: Env)
    requires ev.update == MessageUpdate(TextMessage("/admin"))
    requires Awaits(w, ev.uid) && !RoutedToSession(w, ev.uid)
    ensures |DeliverAsRegistered(w, ev, env).orders| == |w.orders| + 1
    ensures Deliver(w, ev, env) == w
  {
    assert CommandOf("/admin") == Some("admin") by {
      assert WordEnd("/admin", 6) == 6;
      assert "/admin"[1..6] == "admin";
    }
    assert !IsLink("/admin") by {
      assert "/admin"[..1] != "h";
    }
  }

  // ---------------- order status over any run ----------------

  /** No update ever puts an existing order back to "pending": review actions
      write approved, rejected or needs_more, and new orders go at the end. */
  lemma ReviewNeverPending(orders: seq<Order>, orderId: string, action: string, now: string, j: nat)
    requires j < |orders| && orders[j].status != Pending
    ensures Review(orders, orderId, action, now)[j].status != Pending
  {
    ReviewTouchesOnlyTheOrder(orders, orderId, action, now);
  }

  /** `catch_all` only ever appends to the order list. */
  lemma CatchAllExtendsOrders(w: World, uid: int, sender: string, m: Message, env: Env, orderId: string, now: string)
    ensures var w' := CatchAll(w, uid, sender, m, env, orderId, now);
      |w.orders| <= |w'.orders| && w'.orders[..|w.orders|] == w.orders
  {
    if RoutedToSession(w, uid) {
      StepFrame(w, uid, sender, m, env);
    } else if Awaits(w, uid) {
      var w' := AnswerAwaiting(w, uid, m, orderId, now);
      assert w'.orders[..|w.orders|] == w.orders;
    }
  }

  /** Of the callbacks, only the order buttons touch the order list, and they
      never write "pending". */
  lemma CallbackNeverReopens(w: World, uid: int, name: string, data: string, now: string, j: nat)
    requires j < |w.orders| && w.orders[j].status != Pending
    ensures var w' := CallbackHandler(w, uid, name, data, now);
      j < |w'.orders| && w'.orders[j].status != Pending
  {
    var parts := Split(data, '|');
    if |parts| >= 3 {
      ReviewNeverPending(w.orders, parts[1], parts[2], now, j);
      OrderActionEffect(w, uid, parts[1], parts[2], now);
    }
  }

  /** Once reviewed, an order is never "pending" again, whatever update comes,
      under either routing. */
  lemma DeliverNeverReopens(w: World, ev: Event, env: Env, j: nat)
    requires j < |w.orders| && w.orders[j].status != Pending
    ensures j < |Deliver(w, ev, env).orders| && Deliver(w, ev, env).orders[j].status != Pending
    ensures j < |DeliverAsRegistered(w, ev, env).orders| && DeliverAsRegistered(w, ev, env).orders[j].status != Pending
  {
    DispatchNeverReopens(w, ev, env, Route(ev.update), j);
    DispatchNeverReopens(w, ev, env, RouteAsRegistered(ev.update), j);
  }

  lemma DispatchNeverReopens(w: World, ev: Event, env: Env, h: Handler, j: nat)
    requires j < |w.orders| && w.orders[j].status != Pending
    ensures j < |Dispatch(w, ev, env, h).orders| && Dispatch(w, ev, env, h).orders[j].status != Pending
  {
    match ev.update
    case MessageUpdate(m) =>
      CatchAllNeverReopens(w, ev.uid, ev.name, m, env, ev.orderId, ev.now, j);
    case CallbackUpdate(d) =>
      CallbackNeverReopens(w, ev.uid, ev.name, d, ev.now, j);
  }

  lemma CatchAllNeverReopens(w: World, uid: int, sender: string, m: Message, env: Env, orderId: string, now: string, j: nat)
    requires j < |w.orders| && w.orders[j].status != Pending
    ensures var w' := CatchAll(w, uid, sender, m, env, orderId, now);
      j < |w'.orders| && w'.orders[j].status != Pending
  {
    CatchAllExtendsOrders(w, uid, sender, m, env, orderId, now);
    var w' := CatchAll(w, uid, sender, m, env, orderId, now);
    assert w'.orders[j] == w'.orders[..|w.orders|][j];
  }
}
