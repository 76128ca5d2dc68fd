/** The bot's whole in-memory state (`CONFIG`, `BUTTONS`, `USERS`, `ORDERS`,
    `ADMINS` and `admin_sessions`) as one value, with the read-only helpers
    `is_admin_user` and `user_currency` and the labels a keyboard shows. */
module State {
  import opened Wrappers
  import opened Menu
  import opened Keyboard
  import opened Orders
  import opened Prices

  /** `CONFIG` without the token. `rate` is `EXCHANGE_RATE`, `None` for null. */
  datatype Config = Config(
    botStatus: string,
    adminIds: seq<int>,
    allowLinks: bool,
    rate: Option<real>,
    currencyDefault: string,
    layout: Layout)

  const DefaultConfig: Config := Config("on", [], false, None, "AUTO", Layout("vertical", 2))

  /** `awaiting`: the request_info button a customer pressed and its prompt
      (`None` when the button's `info_request` holds null). */
  datatype Awaiting = Awaiting(buttonId: string, buttonText: string, prompt: Option<string>)

  /** A `USERS` record. Every key is optional: the currency toggle creates a
      record holding only `currency_pref`. */
  datatype User = User(
    id: Option<int>,
    name: Option<string>,
    firstSeen: Option<string>,
    awaiting: Option<Awaiting>,
    currencyPref: Option<string>)

  const BareUser: User := User(None, None, None, None, None)

  /** The record `/start` and a request_info button create for a new user. */
  function NewUser(uid: int, name: string, now: string): User {
    User(Some(uid), Some(name), Some(now), None, Some("AUTO"))
  }

  /** An entry of `ADMINS["admins"]`. */
  datatype AdminEntry = AdminEntry(id: int, name: string, perms: seq<string>)

  /** An `admin_sessions` entry: the `action` with the parts of `temp`,
      `pending` and `order_id` that action uses. `AddButtonSubmenuPrompt` holds the
      one item `pending` can hold, so the source's empty-`pending` branch has no
      state here. */
  datatype Session =
    | AskMoreInput(orderId: string)
    | AddButtonStep1
    | AddButtonStep2(text: string)
    | AddButtonStep3(text: string, id: string)
    | AddButtonSubmenu(text: string, id: string, items: seq<Node>)
    | AddButtonSubmenuPrompt(text: string, id: string, items: seq<Node>, pending: Node)
    | AddButtonFinishRequest(text: string, id: string)
    | AddButtonFinishContent(text: string, id: string)
    | AddButtonFinishContentImg(text: string, id: string, content: Field)
    | DelButtonStep1
    | SetRateStep1
    | SetLayoutColumns
    | AddAdminStep1
    | EditAddText(mainId: string)
    | EditAddImageUrl(mainId: string)
    | EditAddImageUpload(mainId: string)
    | EditSetRequestInfo(mainId: string)
    | EditSetRequestInfoPrompt(mainId: string)
    | BroadcastStep1
    | DelAdminStep1

  /** Users and sessions are keyed by the Telegram id (the source keys `USERS`
      by its decimal string, which is the same thing). */
  datatype World = World(
    config: Config,
    menu: seq<Node>,
    users: map<int, User>,
    orders: seq<Order>,
    admins: seq<AdminEntry>,
    sessions: map<int, Session>)

  /** The state after a first start: the default files, no session. */
  const InitialWorld: World := World(DefaultConfig, DefaultMenu, map[], [], [], map[])

  /** `is_admin_user`: listed in `ADMIN_IDS` or added through the panel. */
  predicate IsAdmin(w: World, uid: int) {
    uid in w.config.adminIds || exists k :: 0 <= k < |w.admins| && w.admins[k].id == uid
  }

  /** Python truth of `EXCHANGE_RATE`: set and non-zero. */
  predicate RateIsSet(rate: Option<real>) {
    rate.Some? && rate.value != 0.0
  }

  /** `user_currency`. */
  function UserCurrency(w: World, uid: int): string {
    var pref := if uid in w.users then w.users[uid].currencyPref else None;
    var p := if pref.None? || pref.value == "" then w.config.currencyDefault else pref.value;
    if p == "AUTO" then (if RateIsSet(w.config.rate) then "SYP" else "USD") else p
  }

  /** What `user_currency` resolves: a missing or empty preference falls back
      to the configured default, "AUTO" becomes SYP exactly when a non-zero rate
      is set and USD otherwise, and any other value is used as it is; so the
      result is never "AUTO". */
  lemma UserCurrencyResolves(w: World, uid: int)
    ensures UserCurrency(w, uid) != "AUTO"
    ensures var pref := if uid in w.users then w.users[uid].currencyPref else None;
      var p := if pref.None? || pref.value == "" then w.config.currencyDefault else pref.value;
      && (p == "AUTO" ==> (UserCurrency(w, uid) == "SYP" <==> RateIsSet(w.config.rate)))
      && (p == "AUTO" ==> (UserCurrency(w, uid) == "USD" <==> !RateIsSet(w.config.rate)))
      && (p != "AUTO" ==> UserCurrency(w, uid) == p)
  {
  }

  /** The currency toggle: missing or AUTO to USD, USD to SYP, anything else to AUTO. */
  function TogglePref(pref: Option<string>): string {
    if pref.None? || pref.value == "AUTO" then "USD"
    else if pref.value == "USD" then "SYP"
    else "AUTO"
  }

  function ToggleTimes(pref: Option<string>, n: nat): Option<string>
    decreases n
  {
    if n == 0 then pref else ToggleTimes(Some(TogglePref(pref)), n - 1)
  }

  /** The toggle cycles with period three through AUTO, then USD, then SYP; a
      missing preference acts as AUTO. */
  lemma ToggleCycles(p: string)
    requires p in {"AUTO", "USD", "SYP"}
    ensures p == "AUTO" ==> ToggleTimes(Some(p), 1) == Some("USD")
    ensures p == "USD" ==> ToggleTimes(Some(p), 1) == Some("SYP")
    ensures p == "SYP" ==> ToggleTimes(Some(p), 1) == Some("AUTO")
    ensures ToggleTimes(Some(p), 3) == Some(p)
    ensures ToggleTimes(None, 1) == Some("USD")
    ensures ToggleTimes(None, 3) == Some("AUTO")
  {
  }

  /** A value outside the cycle (say "EUR", written into users.json by hand)
      joins it at AUTO after one press and never comes back, so from there the
      period holds only from the first press on. */
  lemma ToggleEntersCycle(pref: Option<string>)
    ensures pref.None? ==> ToggleTimes(pref, 1) == Some("USD")
    ensures pref.Some? && pref.value !in {"AUTO", "USD"} ==> ToggleTimes(pref, 1) == Some("AUTO")
    ensures ToggleTimes(pref, 1).Some? && ToggleTimes(pref, 1).value in {"AUTO", "USD", "SYP"}
    ensures ToggleTimes(pref, 4) == ToggleTimes(pref, 1)
    ensures pref == Some("EUR") ==> ToggleTimes(pref, 3) != pref
  {
    var once := TogglePref(pref);
    assert ToggleTimes(pref, 4) == ToggleTimes(Some(once), 3);
    ToggleCycles(once);
  }

  /** `build_keyboard_from_buttons`' currency: the user's when a user id is
      given, otherwise `CURRENCY_DEFAULT` unresolved. */
  function KeyboardCurrency(w: World, uid: Option<int>): string {
    if uid.Some? then UserCurrency(w, uid.value) else w.config.currencyDefault
  }

  /** The button labels of a keyboard: each node's text with its prices converted. */
  function ButtonLabels(w: World, uid: Option<int>, nodes: seq<Node>, fmt: PriceFormat): (labels: seq<string>)
    ensures |labels| == |nodes|
    ensures forall k :: 0 <= k < |nodes| ==>
      labels[k] == ConvertTextPrices(nodes[k].text, KeyboardCurrency(w, uid), w.config.rate, fmt)
  {
    if nodes == [] then []
    else [ConvertTextPrices(nodes[0].text, KeyboardCurrency(w, uid), w.config.rate, fmt)] + ButtonLabels(w, uid, nodes[1..], fmt)
  }

  /** Without a user id the default "AUTO" reaches the converter unresolved, and
      a keyboard built that way shows every label exactly as stored. */
  lemma LabelsUnconvertedWithoutUser(w: World, nodes: seq<Node>, fmt: PriceFormat)
    requires w.config.currencyDefault == "AUTO"
    ensures forall k :: 0 <= k < |nodes| ==> ButtonLabels(w, None, nodes, fmt)[k] == nodes[k].text
  {
    forall k | 0 <= k < |nodes|
      ensures ButtonLabels(w, None, nodes, fmt)[k] == nodes[k].text
    {
      OtherTargetUnchanged(nodes[k].text, "AUTO", w.config.rate, fmt);
    }
  }

  /** With a user id the converter never sees "AUTO". */
  lemma LabelsResolvedForUser(w: World, uid: int)
    ensures KeyboardCurrency(w, Some(uid)) != "AUTO"
  {
    UserCurrencyResolves(w, uid);
  }

  function Ids(nodes: seq<Node>): (ids: seq<string>)
    ensures |ids| == |nodes|
    ensures forall k :: 0 <= k < |nodes| ==> ids[k] == nodes[k].id
  {
    if nodes == [] then [] else [nodes[0].id] + Ids(nodes[1..])
  }

  /** The rows of a keyboard for a list of buttons under the current layout. */
  function KeyboardFor(w: World, nodes: seq<Node>): seq<seq<string>> {
    KeyboardRows(Ids(nodes), w.config.layout)
  }
}
