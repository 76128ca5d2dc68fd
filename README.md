# Telegram storefront bot: a verified model

`main.py` is a Telegram bot that runs a small shop. Customers browse a tree
of inline buttons and see prices converted from dollars to Syrian pounds.
When they press a "request_info" button they are asked for details, and
their next free message (text or photo) becomes an order. Admins review
orders through an inline panel. They also edit the button tree, the exchange
rate, the button layout and the admin list, through multi-step chat
"sessions" held in `admin_sessions`.

This project models what stays in memory when Telegram and the JSON files
are removed: the six global tables `CONFIG`, `BUTTONS["main_menu"]`,
`USERS`, `ORDERS`, `ADMINS["admins"]` and `admin_sessions`, and how every
handler changes them.

- `State.World` holds the six tables as one value. Each handler is a function
  from the world before an update to the world after it (modules `Handlers`
  and `Sessions`). The properties are lemmas about these functions.
- `Bot.Store` is the same six tables as a class whose fields the methods
  update in place: appends, `pop(i)`, session reassignment, writes into the
  node a lookup returns. Each method is proved to leave the object exactly as
  its handler function says, so every lemma carries over to the object.
- Pure helpers keep their own modules:
  - `Text`: `strip`, `split`, `startswith`, `lower() ==`, telebot's command word.
  - `Prices`: `convert_text_prices` with an abstract number renderer.
  - `Menu`: `find_button_by_id`, in-place edits, the top-level delete.
  - `Keyboard`: the rows of `build_keyboard_from_buttons`.
  - `Orders`: review, the recent list, statistics.
  - `State`: config, users, `user_currency`, `is_admin_user`.

Where an operation reads a clock, makes a `uuid4` or parses a number, the
value is passed in: `now`, `orderId`, and `Sessions.Env`, whose `parseFloat`
and `parseInt` return `None` where Python raises.

Some behaviour of the code that a reader might not expect:

- A review overwrites the status every time, so an approved order can still
  be rejected (`Orders.ApprovedCanBeRejected`).
- A missing currency preference falls back to `CURRENCY_DEFAULT`, which need
  not be AUTO (`State.UserCurrencyResolves`).
- The currency toggle cycles AUTO→USD→SYP with period three only from those
  three values. A stored value outside them joins the cycle after one press
  and never comes back (`State.ToggleEntersCycle`).
- `re.sub` keeps the text around a price, so "خدمة (1$)" becomes
  "خدمة (" + amount + " ل.س)" (`Prices.ExampleSypConversion`).
- The panel opens a broadcast session, but no session branch handles it, so
  that session stays open for good (`Sessions.StuckSessionsStay`).

## Model

| member | source | states |
|---|---|---|
| Text.Strip | main.py:518 | `strip()` removes exactly the leading and trailing whitespace: the result is the slice of the input that starts after the leading whitespace, both of its ends are non-whitespace, and everything after it is whitespace |
| Text.StripIdempotent | main.py:556 | stripping again changes nothing |
| Text.Split | main.py:564 | `split("\|")` gives at least one piece and no piece contains the separator |
| Text.SplitJoin | main.py:564 | joining the pieces with the separator gives the input back |
| Text.SplitCount | main.py:564-565 | the number of pieces is the number of separators plus one |
| Text.CommandOf | main.py:238 | a command is read exactly from texts that start with "/"; the word is the text right after the "/", holds no whitespace and no "@", and is followed by the end of the text, whitespace or "@" |
| Text.CommandWordIsUnique | main.py:238 | any word with those properties is the command read, so the command is the text after "/" up to the first whitespace or "@" |
| Prices.MatchAtExact | main.py:130 | the pattern `(-?\d+(?:\.\d+)?)\s*\$` (`PriceMatch`: a number, whitespace, "$") matches from a position with a given group 1 exactly when the greedy attempt returns that group and that end: the match is found and it is the only one |
| Prices.NoneMeansNoMatch | main.py:130 | where the attempt returns None, no match of the pattern starts at that position |
| Prices.ScanCovers | main.py:152 | the scan `re.sub` makes cuts the text into literal characters and matches that put back together give the text |
| Prices.OtherTargetUnchanged | main.py:141-152 | a target currency other than USD or SYP leaves the text unchanged |
| Prices.SypWithoutRateIsUsd | main.py:145-148 | SYP with no rate renders exactly as USD does |
| Prices.NoDollarUnchanged | main.py:141-152 | a text without "$" is unchanged for every target |
| Prices.ExampleTokens | main.py:6 | the example text "خدمة (1$)" has exactly one price token, "1$", after six literal characters |
| Prices.ExampleSypConversion | main.py:141-152 | with a rate, SYP replaces that one token by the converted amount and the local-currency label and keeps the rest of the text |
| Menu.FindIsFirstInPreorder | main.py:171-181 | `find_button_by_id` returns the first node, in preorder over the nodes reachable through "submenu" nodes, whose id or text is the key |
| Menu.FindNoneIffUnreachable | main.py:171-181 | the lookup returns None exactly when no reachable node matches, and what it returns is reachable and matches |
| Menu.OnlySubmenusAreSearched | main.py:177-180 | a node whose type is not "submenu" hides its children from the lookup |
| Menu.FirstMatchIndex | main.py:625-629 | a position returned is inside the list and holds a node whose id or text is the key |
| Menu.FirstMatchIndexIsFirst | main.py:625-629 | no position before the one returned holds a match, and None is returned exactly when no position does |
| Menu.Apply | main.py:697-758 | each edit writes its value into the one attribute it names (description, image, type or `info_request`); id, text, content, children and the other attributes keep their values |
| Menu.EditMissingKey | main.py:693-696 | when the lookup fails the tree is unchanged |
| Menu.EditReachesFound | main.py:689-759 | after the in-place write, the same lookup returns the edited node, at any depth |
| Menu.EditChangesOneNode | main.py:689-759 | every edit, the type edit included, writes into exactly one node of the tree: the node the lookup finds, at a path where it sits, takes its edited attributes; every other path holds the same attributes as before and the tree keeps its shape |
| Menu.EditChangesOnlyTheMatch | main.py:689-759 | an edit that keeps the type changes exactly one entry of the preorder, the first match, into its edited form; every other node keeps its attributes and place |
| Menu.DeleteRemovesFirstTopLevelMatch | main.py:622-636 | with no top-level match the menu is unchanged; otherwise exactly the first top-level match is removed and the rest keep their order |
| Menu.NestedButtonFoundButNotDeleted | main.py:622-636 | in the default menu the lookup finds the nested "pubg" button, but the delete step leaves the menu unchanged |
| Keyboard.Columns | main.py:186-209 | the column count is at least 1, equals a positive stored value, a stored 0 means 2 and a negative one counts by its size |
| Keyboard.Callbacks | main.py:194-212 | each button's callback is "BTN\|" + its id, one per button, in order |
| Keyboard.ChunksShape | main.py:202-212 | grid rows read in order are the buttons; every row but the last has exactly `cols` buttons and the last has 1 to `cols` |
| Keyboard.VerticalOneRowPerButton | main.py:194-196 | vertical gives one row per button, in order, then the two fixed rows |
| Keyboard.HorizontalOneRowIffButtons | main.py:197-201 | horizontal gives a single row of every button exactly when there is a button |
| Keyboard.UnknownLayoutOnlyNav | main.py:194-215 | any other layout type gives only the two fixed rows |
| Keyboard.KeepsButtonOrder | main.py:183-216 | for the three known layouts, the rows read in order are the buttons' callbacks in menu order, then "NAV\|toggle_currency", then "NAV\|home" |
| Keyboard.BuildKeyboard | main.py:183-216 | the rows built one by one are the specified keyboard rows |
| Keyboard.VerticalRows | main.py:194-196 | the loop adding one row per button gives one single-button row per callback |
| Keyboard.GridRows | main.py:202-212 | the counter loop that closes a row at every multiple of `cols` builds exactly the grid chunks |
| Orders.FindOrder | main.py:458 | the index returned holds the order id, no earlier order does, and None means no order does |
| Orders.ReviewTouchesOnlyTheOrder | main.py:457-496 | the list keeps its length; an unknown id changes nothing; otherwise only the first order with the id changes: approve and reject overwrite any status and stamp the time, askmore sets needs_more without a time, and "view" changes nothing |
| Orders.ApprovedCanBeRejected | main.py:471-484 | an approved order can still be rejected; status is not terminal |
| Orders.RecentNewestFirst | main.py:802 | the order screen lists at most forty orders, newest first, one step back at a time |
| Orders.MostUsedIsFirstMaximum | main.py:827-834 | with no order there is no most-used button; otherwise it is an ordered label, no label was used more often, and every label first seen before it was used strictly less often |
| State.UserCurrencyResolves | main.py:154-161 | a missing or empty preference falls back to the default; AUTO becomes SYP exactly when a non-zero rate is set and USD otherwise; any other value is used as is; the result is never AUTO |
| State.ToggleCycles | main.py:317-323 | one press takes AUTO to USD, USD to SYP and SYP to AUTO, and no preference to USD; from AUTO, USD or SYP three presses come back, and from no preference they reach AUTO |
| State.ToggleEntersCycle | main.py:317-323 | no preference goes to USD and any value other than AUTO and USD goes to AUTO; any preference is in the cycle after one press and then has period three; a stored "EUR" is not reached again |
| State.ButtonLabels | main.py:188-193 | each label is the node's text converted for the keyboard's currency and the configured rate |
| State.LabelsUnconvertedWithoutUser | main.py:188 | without a user id the unresolved default "AUTO" reaches the converter, so every label is shown as stored |
| State.LabelsResolvedForUser | main.py:188 | with a user id the converter never receives "AUTO" |
| Sessions.StepFrame | main.py:499-767 | a session step changes no user, no order and no other admin's session; only the rate and column steps change the config; only the add-admin step changes the admin list, by appending one entry |
| Sessions.StepMoves | main.py:499-767 | a step keeps the admin's session, ends it, or moves it along one edge of the wizard graph (`Successor`) |
| Sessions.StepLayout | main.py:659-672 | no step writes the layout type; only the columns step writes the count |
| Sessions.PhotoAbortsTextStep | main.py:499-767 | a photo sent to a step that strips the text ends the session and changes nothing else |
| Sessions.WizardAppendsAtEnd | main.py:517-619 | the add-button wizard only ever adds one node at the end of the menu, and then the session is over |
| Sessions.ThreeAnswers | main.py:517-531 | the first three answers store the stripped text and id and choose the type from the stripped third answer |
| Sessions.ContactWizard | main.py:545-551 | text, id and "contact_admin" append a contact button at once and end the session |
| Sessions.RequestInfoWizard | main.py:517-601 | text, id, "request_info" and one prompt append a request_info button holding the prompt as sent (null for a photo) |
| Sessions.ContentWizard | main.py:517-619 | text, id, "content", the content and an image append a content button; "no" in any letter case leaves the image empty |
| Sessions.UnknownKindCancels | main.py:552-553 | an unknown type ends the session with the menu unchanged |
| Sessions.SubmenuLoopKeepsOrder | main.py:563-576 | items that are not request_info join the submenu at once, in the order sent |
| Sessions.SubmenuDone | main.py:556-562 | "done" in any letter case appends the submenu button with the collected items and ends the session |
| Sessions.SubmenuBadLine | main.py:564-567 | a line with fewer than three parts changes nothing |
| Sessions.SubmenuRequestItem | main.py:570-591 | a request_info item waits for the next message, which becomes its `info_request`, and then joins the submenu |
| Sessions.StuckSessionsStay | main.py:499-767 | the broadcast and delete-admin sessions are never handled: any messages change nothing and the session stays |
| Sessions.UploadWaitsForPhoto | main.py:720-722 | the upload step answers any number of texts with a hint and keeps waiting |
| Sessions.UploadTakesPhoto | main.py:723-731 | a photo becomes the image of the button the lookup finds, and the session ends |
| Sessions.RequestInfoTakesTwoMessages | main.py:736-759 | turning a button into request_info takes two messages; the first only sets the type, whatever it says, and the second becomes the prompt |
| Sessions.DeleteStep | main.py:622-636 | the delete step removes the first top-level match of the stripped text and ends the session either way |
| Sessions.NumericStepsRejectBadInput | main.py:639-684 | the rate, column and add-admin steps end the session on any input; input that does not parse, or a column count below one, leaves config and admins unchanged; the rate and column steps write only their own field, and the add-admin step never writes the config |
| Sessions.AddAdminAppends | main.py:674-684 | a valid id is appended with every permission, even if already an admin, and is then an admin |
| Handlers.StartCreatesOnlyMissingUser | main.py:239-244 | `/start` creates a record only for a user without one, and changes nothing else |
| Handlers.StartIsIdempotent | main.py:239-244 | a second `/start` changes nothing |
| Handlers.NewUserSeesUsdWithoutRate | main.py:239-249 | a new user with default AUTO and no rate sees USD |
| Handlers.SessionComesBeforeAnswer | main.py:256-259 | an admin with an open session is served by the session step |
| Handlers.SessionLeavesAnswerPending | main.py:256-259 | so an admin who is also awaiting an answer makes no order and keeps the slot |
| Handlers.NonAdminSessionIgnored | main.py:256-259 | a session held by a non-admin is never advanced |
| Handlers.AnswerMakesOneOrder | main.py:261-295 | an answer tripping the link filter changes nothing; otherwise exactly one pending order is appended with the awaited button, the text or photo and the user's id and name, the slot is emptied, and nothing else changes |
| Handlers.AnswerIsConsumedOnce | main.py:261-300 | after the answer makes an order, the user's next free message makes none |
| Handlers.LinksAllowedMakeOrders | main.py:264 | links are accepted when the config allows them |
| Handlers.OrderActionEffect | main.py:457-496 | an unknown order id changes nothing; otherwise the orders change as `Review` says, askmore also opens the follow-up session for the presser, and nothing else changes |
| Handlers.AskMoreRoundTrip | main.py:491-515 | after askmore the order is needs_more and the admin's next message ends the session, leaving the orders alone |
| Handlers.AdminActionEffect | main.py:786-866 | a panel entry never changes the menu, users, orders, admin list or another admin's session; only the toggle writes the config, and only the status, always to a different value in {"on", "off"} and to "on" from anything but "on"; each of the six openers leaves the admin in the first state of a flow; every other entry changes nothing |
| Handlers.StatusToggleFlips | main.py:838 | the toggle maps "on" to "off" and anything else to "on", and two presses from "on" or "off" come back |
| Handlers.EditOpenerEffect | main.py:882-915 | an edit entry changes nothing but the presser's session; a session it opens is one of the four edit flows for that button id, and only when the lookup finds the button at some depth; the four edit entries do open it then, and every other entry changes nothing |
| Handlers.ToggleThreeTimes | main.py:317-323 | three currency presses bring the preference back (or to AUTO from none) and change nothing else |
| Handlers.PressSetsAwaiting | main.py:372-434 | pressing a request_info button anywhere in the tree sets the user's slot to that button's id, text and prompt (the default prompt when the key is missing, null when it holds null); the rest of the user's record is kept, or is a fresh `/start` record for an unknown user; any other press changes nothing |
| Handlers.AdminCallbacksNeedAdmin | main.py:332-335 | a non-admin's "ADMIN\|..." press changes nothing |
| Handlers.LayoutIsFrozenAsRegistered | main.py:928-948 | with the handlers routed as registered, no sequence of updates changes the button layout |
| Handlers.GridLayoutUnreachableAsRegistered | main.py:786-866 | as registered, an admin's "ADMIN\|layout_grid" press changes nothing |
| Handlers.AdminCommandBecomesAnswer | main.py:252-295 | as registered, "/admin" from a user awaiting an answer becomes an order; with `cmd_admin` reachable it changes nothing |
| Handlers.LayoutEntriesEffect | main.py:929-948 | a non-admin's press changes nothing; "vertical" and "horizontal" write only the layout type, "grid" writes it and opens the columns step, any other suffix changes nothing, and no entry writes the column count |
| Handlers.SetRateEntryRoundTrip | main.py:810-813 | "set_rate" and then a text: a number becomes the rate, anything else leaves the config, and the session ends |
| Handlers.AddAdminEntryRoundTrip | main.py:859-862 | "add_admin" and then a text: a parsed id is appended with every permission, anything else leaves the admins, and the session ends |
| Handlers.DelButtonEntryRoundTrip | main.py:846-849 | "del_button" and then a text: the first top-level button with that id or text is removed, and the session ends |
| Handlers.AddButtonEntryRoundTrip | main.py:842-845 | "add_button", a text, an id and "contact_admin": that contact button is appended and the session ends |
| Handlers.StuckEntriesStay | main.py:806-866 | "broadcast" and "del_admin" open a session that whatever the admin sends next leaves as it is |
| Handlers.AddTextEntryRoundTrip | main.py:899-902 | "add_text" on a found button and then any message: the message (null for a photo) becomes that button's description |
| Handlers.AddImageUrlEntryRoundTrip | main.py:903-906 | "add_image_url" on a found button and then a text: the stripped text becomes that button's image |
| Handlers.AddImageUploadEntryRoundTrip | main.py:907-910 | "add_image_upload" on a found button: texts change nothing, then a photo's file id becomes that button's image |
| Handlers.SetRequestInfoEntryRoundTrip | main.py:911-915 | "set_request_info" on a found button and then two messages: the button becomes request_info with the second message as its prompt |
| Handlers.GridLayoutReachable | main.py:928-948 | with `layout_handlers` reachable, "grid" sets the type and opens the columns step, and a valid count is then stored |
| Handlers.DeliveredKeepsLayout | main.py:252-304 | one update routed as registered keeps the layout |
| Handlers.CatchAllExtendsOrders | main.py:253-300 | `catch_all` only ever appends to the order list |
| Handlers.DeliverNeverReopens | main.py:457-496 | once reviewed, an order never goes back to pending, whatever update comes, with the handlers routed as registered or as their filters ask |
| Bot.Store.constructor | main.py:104-109 | the object holds the loaded tables |
| Bot.Store.IsAdminUser | main.py:163-169 | the `ADMIN_IDS` test and the scan of the added admins answer `is_admin_user` |
| Bot.Store.LocateOrder | main.py:458 | the scan returns the first index holding the order id, or None |
| Bot.Store.LocateTopLevel | main.py:625-629 | the delete scan returns the first top-level index whose id or text is the key, or None |
| Bot.Store.Start | main.py:239-244 | the tables after `/start` are those `Handlers.CmdStart` gives |
| Bot.Store.WizardInput | main.py:517-619 | the tables after a text step of the add-button wizard are those `Sessions.WizardLine` gives |
| Bot.Store.KindInput | main.py:527-553 | the type answer leaves the tables as `Sessions.ChooseKind` says |
| Bot.Store.SubmenuInput | main.py:555-578 | one submenu line leaves the tables as `Sessions.SubmenuLine` says |
| Bot.Store.EditButton | main.py:689-759 | the in-place write into the found button, then the session ends |
| Bot.Store.SettingsInput | main.py:622-716 | the delete, rate, columns, add-admin and image-URL steps leave the tables as `Sessions.SettingsLine` says |
| Bot.Store.DeleteInput | main.py:622-636 | the delete step removes, in place, what `Menu.DeleteTopLevel` removes, and ends the session |
| Bot.Store.EditMessageInput | main.py:689-762 | the edit steps that take any message leave the tables as `Sessions.MessageStep` says |
| Bot.Store.MakeRequestInfo | main.py:737-748 | the type switch writes "request_info" into the found button and waits for the prompt, or ends the session when the button is gone |
| Bot.Store.MessageInput | main.py:503-759 | the steps that take any message leave the tables as `Sessions.MessageStep` says |
| Bot.Store.SessionInput | main.py:499-767 | one session step leaves the tables as `Sessions.Step` says |
| Bot.Store.CatchAllMessage | main.py:253-300 | the tables after `catch_all` are those `Handlers.CatchAll` gives |
| Bot.Store.OrderAction | main.py:457-496 | the in-place review leaves the tables as `Handlers.AdminOrderAction` says |
| Bot.Store.AdminAction | main.py:786-866 | the tables after a panel entry are those `Handlers.HandleAdminAction` gives |
| Bot.Store.AdminEditMainButton | main.py:882-925 | the tables after an edit entry are those `Handlers.HandleAdminEditMainButton` gives |
| Bot.Store.Layout | main.py:929-948 | the tables after a layout press are those `Handlers.LayoutHandlers` gives |
| Bot.Store.ToggleCurrencyPref | main.py:317-323 | the toggle leaves the tables as `Handlers.ToggleCurrency` says |
| Bot.Store.Press | main.py:372-434 | a button press leaves the tables as `Handlers.PressButton` says |
| Bot.Store.Callback | main.py:304-436 | the tables after a callback are those `Handlers.CallbackHandler` gives |
| Bot.Store.Handle | main.py:238-948 | one update, given to the handler its filters select, leaves the tables as `Handlers.Deliver` says |

## Left out

- Telegram I/O: every `bot.*` call, the reply texts, captions, HTML and
  keyboard objects. A send that fails inside a session step would raise and
  end the session; the model assumes sends succeed.
- Notifications: `notify_admins`, the rate-change announcement to users, and
  `user_send_message_to_admin`. They only send messages.
- The "CONTACT|send" flow: the model assumes that no next-step handler is
  pending. That press registers `user_send_message_to_admin` through telebot's
  `register_next_step_handler` (main.py:357), and telebot then hands the
  chat's next message to that function alone, which only forwards it. So in
  the program that message reaches neither `cmd_start` nor `catch_all`: it
  makes no order, leaves an awaiting slot as it is and does not advance an
  admin's session, while `Handlers.Deliver` and `Bot.Store.Handle` treat it
  as any other message.
- The listing screens (`manage_buttons`, `manage_orders`, `set_layout`,
  `manage_admins`, `show_buttons`, `stats`, `menu`, `show_subs`), `cmd_admin`
  and `admin_edit_main_list`. They change no state; the order list and the
  statistics they show are `Orders.Recent` and `Orders.MostUsed`.
- JSON persistence and `LOCK`: `ensure_file`, `load_json`, `save_json`,
  `save_all`. Writes are taken as no-ops over the in-memory tables. All
  config keys are taken as present, and the constructor takes the loaded
  tables as they are.
- Menu.EditChangesOnlyTheMatch: states the search-order frame only for edits
  that keep the type, because the type edit changes which nodes the search
  reaches; `Menu.EditChangesOneNode` gives the frame for every edit over the
  tree itself.
- Prices.IsDigit: takes `\d` to be the ASCII digits and the two Arabic-Indic
  digit ranges. Python's `\d` and `float` accept every Unicode decimal digit,
  so a price written with other digits (say "３$" or "५$") is converted by the
  program but kept as literal text by the model.
- Keyboard.KeyboardRows: each `kb.row(...)` is taken to give one row however
  many buttons it holds. telebot splits a row longer than its `max_row_keys`
  (8) into several, so a horizontal layout of more than eight buttons, or a
  grid of more than eight columns, shows more rows than the model says.
- State.TogglePref: a stored `"currency_pref": null` (only a hand-edited
  users.json holds one) is read as a missing key, which toggles to USD; the
  program reads None there and toggles to AUTO.
- Floating point: `format_number`, `float(...)`, `val * rate` and how Python
  prints a float. `Prices.PriceFormat` renders a matched number abstractly,
  and `Sessions.Env` stands in for the two parses.
- `uuid4()` and `datetime.now()`: passed in with each `Handlers.Event`. Order
  ids are taken to be fresh.
- The scheduler, the token check and polling setup: process setup only.
- Chat id and user id are taken to be equal, which holds in the private chats
  the bot serves. The source keys `USERS` by the decimal string of the id; the
  model keys by the id.
- The add-button wizard's `temp` dictionary is kept as the fields each state
  needs. `pending` holds at most one item in every reachable state, so its
  empty-list branch (main.py:583-585) has no state in the model.
- The contents of a session-step exception other than the `.strip()` of a
  photo's missing text are not modelled. Those are a missing `temp` key
  through a hand-edited session, or a send failure.
- Bot.Store: list and dictionary updates are modelled as reassignment of
  `seq` and `map` fields. A node edited in place is modelled by
  `Menu.EditFirst`, which rebuilds the path to the found node. The aliasing
  that lets a Python write go through a shared node object is therefore not
  represented, and no node is shared in any state the handlers build.

## Findings

| source | as written | input that shows it | evidently intended | confidence | as-written member | corrected member |
|---|---|---|---|---|---|---|
| main.py:252-304 | telebot hands an update to the first registered handler whose filter accepts it. `catch_all` (every text or photo) and `callback_handler` (every callback) are registered before `cmd_admin`, `admin_edit_main_list` and `layout_handlers`, so those three never run. | An admin presses "ADMIN\|layout_grid": `callback_handler` passes "layout_grid" to `handle_admin_action`, which has no such branch, and nothing changes. More generally, no sequence of updates can change the layout. Separately, "/admin" from a user who is waiting to answer becomes an order. | Each specific handler takes the updates its filter names, and the catch-all handlers get the rest. | high; not executed | Handlers.RouteAsRegistered, Handlers.LayoutIsFrozenAsRegistered, Handlers.GridLayoutUnreachableAsRegistered, Handlers.AdminCommandBecomesAnswer | Handlers.Route, Handlers.GridLayoutReachable, Bot.Store.Handle |
