/** `handle_admin_session_input`: one message from an admin who has an open
    session moves that session one step. Steps that call `.strip()` on the text
    of a photo message, which has none, raise; the handler's `except` then drops
    the session, and nothing else has changed by then. */
module Sessions {
  import opened Wrappers
  import opened Text
  import opened Menu
  import opened State

  /** A message the handlers accept: text, or a photo given by the file id of
      its largest size. */
  datatype Message = TextMessage(text: string) | PhotoMessage(fileId: string)

  /** `float(...)` and `int(...)` on the stripped text; `None` where Python raises. */
  datatype Env = Env(parseFloat: string -> Option<real>, parseInt: string -> Option<int>)

  /** `message.text` stored as a node attribute: a photo stores null. */
  function MessageField(m: Message): Field {
    match m
    case TextMessage(t) => Str(t)
    case PhotoMessage(_) => Null
  }

  /** `admin_sessions.pop(aid, None)`. */
  function Close(w: World, aid: int): World {
    w.(sessions := w.sessions - {aid})
  }

  /** `session["action"] = ...` (with the matching `temp` update). */
  function Goto(w: World, aid: int, s: Session): World {
    w.(sessions := w.sessions[aid := s])
  }

  /** `BUTTONS["main_menu"].append(newb)`, then the session ends. */
  function Commit(w: World, aid: int, n: Node): World {
    Close(w.(menu := w.menu + [n]), aid)
  }

  /** The four main buttons the add-button wizard can build. */
  function ContactNode(id: string, text: string): Node {
    Node(id, text, "contact_admin", Str(""), Str(""), Absent, Absent, [])
  }

  function RequestNode(id: string, text: string, prompt: Field): Node {
    Node(id, text, "request_info", Str(""), Str(""), Absent, prompt, [])
  }

  function ContentNode(id: string, text: string, content: Field, image: string): Node {
    Node(id, text, "content", Str(image), Str(""), content, Absent, [])
  }

  function SubmenuNode(id: string, text: string, items: seq<Node>): Node {
    Node(id, text, "submenu", Absent, Absent, Absent, Absent, items)
  }

  /** `{"id": ..., "text": ..., "type": ...}` from the first three stripped
      parts of an `id|text|type` line. */
  function SubItem(parts: seq<string>): Node
    requires |parts| >= 3
  {
    Node(Strip(parts[0]), Strip(parts[1]), Strip(parts[2]), Absent, Absent, Absent, Absent, [])
  }

  /** The image step: "no" in any letter case means no image. */
  function ImageChoice(line: string): string {
    if LowerEquals(line, "no") then "" else line
  }

  /** One line of the submenu loop, already stripped. */
  function SubmenuLine(w: World, aid: int, text: string, id: string, items: seq<Node>, line: string): World {
    if LowerEquals(line, "done") then Commit(w, aid, SubmenuNode(id, text, items))
    else
      var parts := Split(line, '|');
      if |parts| < 3 then w
      else
        var item := SubItem(parts);
        if item.kind == "request_info" then Goto(w, aid, AddButtonSubmenuPrompt(text, id, items, item))
        else Goto(w, aid, AddButtonSubmenu(text, id, items + [item]))
  }

  /** The type step of the wizard. */
  function ChooseKind(w: World, aid: int, text: string, id: string, kind: string): World {
    if kind == "submenu" then Goto(w, aid, AddButtonSubmenu(text, id, []))
    else if kind == "request_info" then Goto(w, aid, AddButtonFinishRequest(text, id))
    else if kind == "content" then Goto(w, aid, AddButtonFinishContent(text, id))
    else if kind == "contact_admin" then Commit(w, aid, ContactNode(id, text))
    else Close(w, aid)
  }

  /** The edit steps: look the button up again, write into it, end the session. */
  function EditStep(w: World, aid: int, key: string, e: Edit): World {
    if Find(w.menu, key).None? then Close(w, aid)
    else Close(w.(menu := EditFirst(w.menu, key, e)), aid)
  }

  /** The add-button steps that read the stripped text. */
  predicate WizardReadsText(s: Session) {
    s.AddButtonStep1? || s.AddButtonStep2? || s.AddButtonStep3? || s.AddButtonSubmenu? || s.AddButtonFinishContentImg?
  }

  function WizardLine(w: World, aid: int, s: Session, line: string): World {
    match s
    case AddButtonStep1 => Goto(w, aid, AddButtonStep2(line))
    case AddButtonStep2(text) => Goto(w, aid, AddButtonStep3(text, line))
    case AddButtonStep3(text, id) => ChooseKind(w, aid, text, id, line)
    case AddButtonSubmenu(text, id, items) => SubmenuLine(w, aid, text, id, items, line)
    case AddButtonFinishContentImg(text, id, content) => Commit(w, aid, ContentNode(id, text, content, ImageChoice(line)))
    case _ => w
  }

  /** The delete, rate, column, add-admin and image-URL steps. */
  function SettingsLine(w: World, aid: int, sender: string, s: Session, line: string, env: Env): World {
    match s
    case DelButtonStep1 => Close(w.(menu := DeleteTopLevel(w.menu, line)), aid)
    case SetRateStep1 =>
      (match env.parseFloat(line)
       case None => Close(w, aid)
       case Some(r) => Close(w.(config := w.config.(rate := Some(r))), aid))
    case SetLayoutColumns =>
      (match env.parseInt(line)
       case Some(c) =>
         if c >= 1 then Close(w.(config := w.config.(layout := w.config.layout.(gridColumns := c))), aid)
         else Close(w, aid)
       case None => Close(w, aid))
    case AddAdminStep1 =>
      (match env.parseInt(line)
       case None => Close(w, aid)
       case Some(n) => Close(w.(admins := w.admins + [AdminEntry(n, sender, ["all"])]), aid))
    case EditAddImageUrl(key) => EditStep(w, aid, key, SetImage(line))
    case _ => w
  }

  /** The steps that work on the stripped text; a photo aborts them. */
  function TextStep(w: World, aid: int, sender: string, s: Session, line: string, env: Env): World {
    if WizardReadsText(s) then WizardLine(w, aid, s, line) else SettingsLine(w, aid, sender, s, line, env)
  }

  /** The states whose step reads `message.text.strip()`. */
  predicate ReadsText(s: Session) {
    || WizardReadsText(s) || s.DelButtonStep1? || s.SetRateStep1? || s.SetLayoutColumns?
    || s.AddAdminStep1? || s.EditAddImageUrl?
  }

  /** The steps that take the message whatever it is: its text, or null for a photo. */
  function MessageStep(w: World, aid: int, s: Session, m: Message): World {
    match s
    case AskMoreInput(_) => Close(w, aid)
    case AddButtonSubmenuPrompt(text, id, items, pending) =>
      Goto(w, aid, AddButtonSubmenu(text, id, items + [pending.(infoRequest := MessageField(m))]))
    case AddButtonFinishRequest(text, id) => Commit(w, aid, RequestNode(id, text, MessageField(m)))
    case AddButtonFinishContent(text, id) => Goto(w, aid, AddButtonFinishContentImg(text, id, MessageField(m)))
    case EditAddText(key) => EditStep(w, aid, key, SetDescription(MessageField(m)))
    case EditAddImageUpload(key) =>
      (match m
       case TextMessage(_) => w
       case PhotoMessage(f) => EditStep(w, aid, key, SetImage(f)))
    case EditSetRequestInfo(key) =>
      if Find(w.menu, key).None? then Close(w, aid)
      else Goto(w.(menu := EditFirst(w.menu, key, SetKind("request_info"))), aid, EditSetRequestInfoPrompt(key))
    case EditSetRequestInfoPrompt(key) => EditStep(w, aid, key, SetInfoRequest(MessageField(m)))
    case _ => w
  }

  /** `handle_admin_session_input(message, admin_sessions[aid])`; `sender` is
      `message.from_user.full_name`. The image-URL step looks the button up
      before it reads the text. */
  function Step(w: World, aid: int, sender: string, m: Message, env: Env): World
    requires aid in w.sessions
  {
    var s := w.sessions[aid];
    if !ReadsText(s) then MessageStep(w, aid, s, m)
    else if s.EditAddImageUrl? && Find(w.menu, s.mainId).None? then Close(w, aid)
    else
      match m
      case PhotoMessage(_) => Close(w, aid)
      case TextMessage(t) => TextStep(w, aid, sender, s, Strip(t), env)
  }

  /** Consecutive messages from one admin, each taken by the session while it
      is open. */
  function Run(w: World, aid: int, sender: string, msgs: seq<Message>, env: Env): World
    decreases |msgs|, 1
  {
    if msgs == [] || aid !in w.sessions then w else Advance(w, aid, sender, msgs, env)
  }

  /** The first message taken, then the rest. */
  function Advance(w: World, aid: int, sender: string, msgs: seq<Message>, env: Env): World
    requires msgs != [] && aid in w.sessions
    decreases |msgs|, 0
  {
    Run(Step(w, aid, sender, msgs[0], env), aid, sender, msgs[1..], env)
  }

  lemma RunCons(w: World, aid: int, sender: string, m: Message, rest: seq<Message>, env: Env)
    requires aid in w.sessions
    ensures Run(w, aid, sender, [m] + rest, env) == Run(Step(w, aid, sender, m, env), aid, sender, rest, env)
  {
    assert ([m] + rest)[1..] == rest;
  }

  /** Nobody's user record, no order and no other admin's session changes. */
  predicate OthersKept(w: World, w': World, aid: int) {
    w'.users == w.users && w'.orders == w.orders && w'.sessions - {aid} == w.sessions - {aid}
  }

  lemma CloseKeepsOthers(w: World, w': World, aid: int)
    requires w'.users == w.users && w'.orders == w.orders && w'.sessions == w.sessions
    ensures OthersKept(w, Close(w', aid), aid)
  {
    assert Close(w', aid).sessions - {aid} == w.sessions - {aid};
  }

  lemma GotoKeepsOthers(w: World, aid: int, s: Session)
    ensures OthersKept(w, Goto(w, aid, s), aid)
  {
    assert Goto(w, aid, s).sessions - {aid} == w.sessions - {aid};
  }

  lemma ChooseKindKeepsOthers(w: World, aid: int, text: string, id: string, kind: string)
    ensures var w' := ChooseKind(w, aid, text, id, kind);
      OthersKept(w, w', aid) && w'.config == w.config && w'.admins == w.admins
  {
    CloseKeepsOthers(w, w, aid);
    GotoKeepsOthers(w, aid, AddButtonSubmenu(text, id, []));
    GotoKeepsOthers(w, aid, AddButtonFinishRequest(text, id));
    GotoKeepsOthers(w, aid, AddButtonFinishContent(text, id));
    CloseKeepsOthers(w, w.(menu := w.menu + [ContactNode(id, text)]), aid);
  }

  lemma SubmenuLineKeepsOthers(w: World, aid: int, text: string, id: string, items: seq<Node>, line: string)
    ensures var w' := SubmenuLine(w, aid, text, id, items, line);
      OthersKept(w, w', aid) && w'.config == w.config && w'.admins == w.admins
  {
    CloseKeepsOthers(w, w.(menu := w.menu + [SubmenuNode(id, text, items)]), aid);
    var parts := Split(line, '|');
    if |parts| >= 3 {
      GotoKeepsOthers(w, aid, AddButtonSubmenuPrompt(text, id, items, SubItem(parts)));
      GotoKeepsOthers(w, aid, AddButtonSubmenu(text, id, items + [SubItem(parts)]));
    }
  }

  lemma WizardLineKeepsOthers(w: World, aid: int, s: Session, line: string)
    ensures var w' := WizardLine(w, aid, s, line);
      OthersKept(w, w', aid) && w'.config == w.config && w'.admins == w.admins
  {
    CloseKeepsOthers(w, w, aid);
    match s
    case AddButtonStep1 => GotoKeepsOthers(w, aid, AddButtonStep2(line));
    case AddButtonStep2(text) => GotoKeepsOthers(w, aid, AddButtonStep3(text, line));
    case AddButtonStep3(text, id) => ChooseKindKeepsOthers(w, aid, text, id, line);
    case AddButtonSubmenu(text, id, items) => SubmenuLineKeepsOthers(w, aid, text, id, items, line);
    case AddButtonFinishContentImg(text, id, content) =>
      CloseKeepsOthers(w, w.(menu := w.menu + [ContentNode(id, text, content, ImageChoice(line))]), aid);
    case _ =>
  }

  lemma SettingsLineKeepsOthers(w: World, aid: int, sender: string, s: Session, line: string, env: Env)
    ensures var w' := SettingsLine(w, aid, sender, s, line, env);
      && OthersKept(w, w', aid)
      && (w'.config != w.config ==> s.SetRateStep1? || s.SetLayoutColumns?)
      && (w'.admins != w.admins ==> s.AddAdminStep1? && |w'.admins| == |w.admins| + 1 && w'.admins[..|w.admins|] == w.admins)
  {
    CloseKeepsOthers(w, w, aid);
    match s
    case DelButtonStep1 => CloseKeepsOthers(w, w.(menu := DeleteTopLevel(w.menu, line)), aid);
    case SetRateStep1 =>
      if env.parseFloat(line).Some? {
        CloseKeepsOthers(w, w.(config := w.config.(rate := env.parseFloat(line))), aid);
      }
    case SetLayoutColumns =>
      if env.parseInt(line).Some? {
        CloseKeepsOthers(w, w.(config := w.config.(layout := w.config.layout.(gridColumns := env.parseInt(line).value))), aid);
      }
    case AddAdminStep1 =>
      if env.parseInt(line).Some? {
        CloseKeepsOthers(w, w.(admins := w.admins + [AdminEntry(env.parseInt(line).value, sender, ["all"])]), aid);
      }
    case EditAddImageUrl(key) => CloseKeepsOthers(w, w.(menu := EditFirst(w.menu, key, SetImage(line))), aid);
    case _ =>
  }

  lemma MessageStepKeepsOthers(w: World, aid: int, s: Session, m: Message)
    ensures var w' := MessageStep(w, aid, s, m);
      OthersKept(w, w', aid) && w'.config == w.config && w'.admins == w.admins
  {
    CloseKeepsOthers(w, w, aid);
    match s
    case AddButtonSubmenuPrompt(text, id, items, pending) =>
      GotoKeepsOthers(w, aid, AddButtonSubmenu(text, id, items + [pending.(infoRequest := MessageField(m))]));
    case AddButtonFinishRequest(text, id) =>
      CloseKeepsOthers(w, w.(menu := w.menu + [RequestNode(id, text, MessageField(m))]), aid);
    case AddButtonFinishContent(text, id) =>
      GotoKeepsOthers(w, aid, AddButtonFinishContentImg(text, id, MessageField(m)));
    case EditAddText(key) => CloseKeepsOthers(w, w.(menu := EditFirst(w.menu, key, SetDescription(MessageField(m)))), aid);
    case EditAddImageUpload(key) =>
      if m.PhotoMessage? {
        CloseKeepsOthers(w, w.(menu := EditFirst(w.menu, key, SetImage(m.fileId))), aid);
      }
    case EditSetRequestInfo(key) =>
      GotoKeepsOthers(w.(menu := EditFirst(w.menu, key, SetKind("request_info"))), aid, EditSetRequestInfoPrompt(key));
    case EditSetRequestInfoPrompt(key) =>
      CloseKeepsOthers(w, w.(menu := EditFirst(w.menu, key, SetInfoRequest(MessageField(m)))), aid);
    case _ =>
  }

  /** A step changes nobody's user record, no order and no other admin's
      session; only the rate and column steps change the config, and only the
      add-admin step changes the admin list, by appending one entry. */
  lemma StepFrame(w: World, aid: int, sender: string, m: Message, env: Env)
    requires aid in w.sessions
    ensures var w' := Step(w, aid, sender, m, env);
      && OthersKept(w, w', aid)
      && (w'.config != w.config ==> w.sessions[aid].SetRateStep1? || w.sessions[aid].SetLayoutColumns?)
      && (w'.admins != w.admins ==> w.sessions[aid].AddAdminStep1? && |w'.admins| == |w.admins| + 1 && w'.admins[..|w.admins|] == w.admins)
  {
    var s := w.sessions[aid];
    CloseKeepsOthers(w, w, aid);
    if !ReadsText(s) {
      MessageStepKeepsOthers(w, aid, s, m);
    } else if m.TextMessage? && !(s.EditAddImageUrl? && Find(w.menu, s.mainId).None?) {
      if WizardReadsText(s) {
        WizardLineKeepsOthers(w, aid, s, Strip(m.text));
      } else {
        SettingsLineKeepsOthers(w, aid, sender, s, Strip(m.text), env);
      }
    }
  }

  /** Of the settings steps, only the columns step writes the layout, and it
      writes only the column count. */
  lemma SettingsLineLayout(w: World, aid: int, sender: string, s: Session, line: string, env: Env)
    ensures var w' := SettingsLine(w, aid, sender, s, line, env);
      && w'.config.layout.kind == w.config.layout.kind
      && (!s.SetLayoutColumns? ==> w'.config.layout == w.config.layout)
  {
  }

  /** No step writes the layout type; only the columns step writes the count. */
  lemma StepLayout(w: World, aid: int, sender: string, m: Message, env: Env)
    requires aid in w.sessions
    ensures var w' := Step(w, aid, sender, m, env);
      && w'.config.layout.kind == w.config.layout.kind
      && (!w.sessions[aid].SetLayoutColumns? ==> w'.config.layout == w.config.layout)
  {
    var s := w.sessions[aid];
    StepFrame(w, aid, sender, m, env);
    if ReadsText(s) && !WizardReadsText(s) && m.TextMessage? && !(s.EditAddImageUrl? && Find(w.menu, s.mainId).None?) {
      SettingsLineLayout(w, aid, sender, s, Strip(m.text), env);
    }
  }

  /** The arrows of the session state machine: the state a step may move an
      open session to, when it neither keeps nor ends it. Every flow is a
      chain; the submenu loop is the only cycle. */
  predicate Successor(s: Session, s': Session) {
    match s
    case AddButtonStep1 => s'.AddButtonStep2?
    case AddButtonStep2(text) => s'.AddButtonStep3? && s'.text == text
    case AddButtonStep3(text, id) =>
      s' == AddButtonSubmenu(text, id, []) || s' == AddButtonFinishRequest(text, id) || s' == AddButtonFinishContent(text, id)
    case AddButtonSubmenu(text, id, items) =>
      (s'.AddButtonSubmenu? && s'.text == text && s'.id == id && |s'.items| == |items| + 1 && s'.items[..|items|] == items)
      || (s'.AddButtonSubmenuPrompt? && s'.text == text && s'.id == id && s'.items == items)
    case AddButtonSubmenuPrompt(text, id, items, pending) =>
      s'.AddButtonSubmenu? && s'.text == text && s'.id == id && |s'.items| == |items| + 1 && s'.items[..|items|] == items
    case AddButtonFinishContent(text, id) => s'.AddButtonFinishContentImg? && s'.text == text && s'.id == id
    case EditSetRequestInfo(key) => s' == EditSetRequestInfoPrompt(key)
    case _ => false
  }

  /** What a step leaves of the admin's own session. */
  predicate Moves(w: World, w': World, aid: int)
    requires aid in w.sessions
  {
    aid in w'.sessions ==> w'.sessions[aid] == w.sessions[aid] || Successor(w.sessions[aid], w'.sessions[aid])
  }

  lemma WizardLineMoves(w: World, aid: int, s: Session, line: string)
    requires aid in w.sessions && w.sessions[aid] == s
    ensures Moves(w, WizardLine(w, aid, s, line), aid)
  {
    match s
    case AddButtonSubmenu(text, id, items) =>
      var parts := Split(line, '|');
      if !LowerEquals(line, "done") && |parts| >= 3 && SubItem(parts).kind != "request_info" {
        assert (items + [SubItem(parts)])[..|items|] == items;
      }
    case _ =>
  }

  lemma SettingsLineMoves(w: World, aid: int, sender: string, s: Session, line: string, env: Env)
    requires aid in w.sessions && w.sessions[aid] == s
    ensures Moves(w, SettingsLine(w, aid, sender, s, line, env), aid)
  {
  }

  lemma MessageStepMoves(w: World, aid: int, s: Session, m: Message)
    requires aid in w.sessions && w.sessions[aid] == s
    ensures Moves(w, MessageStep(w, aid, s, m), aid)
  {
    match s
    case AddButtonSubmenuPrompt(text, id, items, pending) =>
      assert (items + [pending.(infoRequest := MessageField(m))])[..|items|] == items;
    case _ =>
  }

  /** A step keeps the admin's session, ends it, or follows one arrow of the
      state machine. */
  lemma StepMoves(w: World, aid: int, sender: string, m: Message, env: Env)
    requires aid in w.sessions
    ensures Moves(w, Step(w, aid, sender, m, env), aid)
  {
    var s := w.sessions[aid];
    if !ReadsText(s) {
      MessageStepMoves(w, aid, s, m);
    } else if m.TextMessage? && !(s.EditAddImageUrl? && Find(w.menu, s.mainId).None?) {
      if WizardReadsText(s) {
        WizardLineMoves(w, aid, s, Strip(m.text));
      } else {
        SettingsLineMoves(w, aid, sender, s, Strip(m.text), env);
      }
    }
  }

  /** A photo sent to a step that strips the text ends the session and changes
      nothing else. */
  lemma PhotoAbortsTextStep(w: World, aid: int, sender: string, f: string, env: Env)
    requires aid in w.sessions && ReadsText(w.sessions[aid])
    ensures Step(w, aid, sender, PhotoMessage(f), env) == Close(w, aid)
  {
  }

  /** The add-button wizard only ever grows the menu by one node at its end, and
      when it does the session is over. */
  lemma WizardAppendsAtEnd(w: World, aid: int, sender: string, m: Message, env: Env)
    requires aid in w.sessions
    requires w.sessions[aid].AddButtonStep1? || w.sessions[aid].AddButtonStep2? || w.sessions[aid].AddButtonStep3?
          || w.sessions[aid].AddButtonSubmenu? || w.sessions[aid].AddButtonSubmenuPrompt?
          || w.sessions[aid].AddButtonFinishRequest? || w.sessions[aid].AddButtonFinishContent?
          || w.sessions[aid].AddButtonFinishContentImg?
    ensures AppendsOrKeeps(w, Step(w, aid, sender, m, env), aid)
  {
    var s := w.sessions[aid];
    if !ReadsText(s) {
      MessageStepAppends(w, aid, s, m);
    } else if m.TextMessage? {
      WizardLineAppends(w, aid, s, Strip(m.text));
    }
  }

  /** The menu is as it was, or it has one more node at its end and the
      admin's session is over. */
  predicate AppendsOrKeeps(w: World, w': World, aid: int) {
    w'.menu == w.menu || (|w'.menu| == |w.menu| + 1 && w'.menu[..|w.menu|] == w.menu && aid !in w'.sessions)
  }

  lemma CommitAppends(w: World, aid: int, n: Node)
    ensures AppendsOrKeeps(w, Commit(w, aid, n), aid)
  {
    assert (w.menu + [n])[..|w.menu|] == w.menu;
  }

  lemma WizardLineAppends(w: World, aid: int, s: Session, line: string)
    ensures AppendsOrKeeps(w, WizardLine(w, aid, s, line), aid)
  {
    match s
    case AddButtonStep3(text, id) => CommitAppends(w, aid, ContactNode(id, text));
    case AddButtonSubmenu(text, id, items) => CommitAppends(w, aid, SubmenuNode(id, text, items));
    case AddButtonFinishContentImg(text, id, content) => CommitAppends(w, aid, ContentNode(id, text, content, ImageChoice(line)));
    case _ =>
  }

  lemma MessageStepAppends(w: World, aid: int, s: Session, m: Message)
    requires s.AddButtonSubmenuPrompt? || s.AddButtonFinishRequest? || s.AddButtonFinishContent?
    ensures AppendsOrKeeps(w, MessageStep(w, aid, s, m), aid)
  {
    if s.AddButtonFinishRequest? {
      CommitAppends(w, aid, RequestNode(s.id, s.text, MessageField(m)));
    }
  }

  lemma RunStep(w: World, w1: World, aid: int, sender: string, m: Message, rest: seq<Message>, env: Env)
    requires aid in w.sessions && Step(w, aid, sender, m, env) == w1
    ensures Run(w, aid, sender, [m] + rest, env) == Run(w1, aid, sender, rest, env)
  {
    RunCons(w, aid, sender, m, rest, env);
  }

  /** The single wizard steps. */
  lemma NameStep(w: World, aid: int, sender: string, a: string, env: Env)
    requires aid in w.sessions && w.sessions[aid] == AddButtonStep1
    ensures Step(w, aid, sender, TextMessage(a), env) == Goto(w, aid, AddButtonStep2(Strip(a)))
  {
  }

  lemma IdStep(w: World, aid: int, sender: string, text: string, b: string, env: Env)
    requires aid in w.sessions && w.sessions[aid] == AddButtonStep2(text)
    ensures Step(w, aid, sender, TextMessage(b), env) == Goto(w, aid, AddButtonStep3(text, Strip(b)))
  {
  }

  lemma KindStep(w: World, aid: int, sender: string, text: string, id: string, c: string, env: Env)
    requires aid in w.sessions && w.sessions[aid] == AddButtonStep3(text, id)
    ensures Step(w, aid, sender, TextMessage(c), env) == ChooseKind(w, aid, text, id, Strip(c))
  {
  }

  /** The first three wizard answers: text and id are stored stripped. */
  lemma ThreeAnswers(w: World, aid: int, sender: string, a: string, b: string, c: string, rest: seq<Message>, env: Env)
    requires aid in w.sessions && w.sessions[aid] == AddButtonStep1
    ensures var w2 := Goto(w, aid, AddButtonStep3(Strip(a), Strip(b)));
      Run(w, aid, sender, [TextMessage(a), TextMessage(b), TextMessage(c)] + rest, env)
      == Run(ChooseKind(w2, aid, Strip(a), Strip(b), Strip(c)), aid, sender, rest, env)
  {
    var w1 := Goto(w, aid, AddButtonStep2(Strip(a)));
    var w2 := Goto(w, aid, AddButtonStep3(Strip(a), Strip(b)));
    NameStep(w, aid, sender, a, env);
    IdStep(w1, aid, sender, Strip(a), b, env);
    GotoTwice(w, aid, AddButtonStep2(Strip(a)), AddButtonStep3(Strip(a), Strip(b)));
    KindStep(w2, aid, sender, Strip(a), Strip(b), c, env);
    assert [TextMessage(a), TextMessage(b), TextMessage(c)] + rest == [TextMessage(a)] + ([TextMessage(b)] + ([TextMessage(c)] + rest));
    RunStep(w, w1, aid, sender, TextMessage(a), [TextMessage(b)] + ([TextMessage(c)] + rest), env);
    RunStep(w1, w2, aid, sender, TextMessage(b), [TextMessage(c)] + rest, env);
    RunStep(w2, ChooseKind(w2, aid, Strip(a), Strip(b), Strip(c)), aid, sender, TextMessage(c), rest, env);
  }

  /** Committing after any number of session moves: the node is appended and
      the session is gone. */
  lemma CommitAfterGoto(w: World, aid: int, s: Session, n: Node)
    ensures Commit(Goto(w, aid, s), aid, n) == w.(menu := w.menu + [n], sessions := w.sessions - {aid})
  {
    assert Goto(w, aid, s).sessions - {aid} == w.sessions - {aid};
  }

  /** Text, id, "contact_admin": a contact button is added at once. */
  lemma ContactWizard(w: World, aid: int, sender: string, a: string, b: string, c: string, env: Env)
    requires aid in w.sessions && w.sessions[aid] == AddButtonStep1
    requires Strip(c) == "contact_admin"
    ensures Run(w, aid, sender, [TextMessage(a), TextMessage(b), TextMessage(c)], env)
         == w.(menu := w.menu + [ContactNode(Strip(b), Strip(a))], sessions := w.sessions - {aid})
  {
    ThreeAnswers(w, aid, sender, a, b, c, [], env);
    assert [TextMessage(a), TextMessage(b), TextMessage(c)] + [] == [TextMessage(a), TextMessage(b), TextMessage(c)];
    CommitAfterGoto(w, aid, AddButtonStep3(Strip(a), Strip(b)), ContactNode(Strip(b), Strip(a)));
  }

  /** Text, id, "request_info", prompt: the prompt is stored as sent (null for
      a photo). */
  lemma RequestInfoWizard(w: World, aid: int, sender: string, a: string, b: string, c: string, p: Message, env: Env)
    requires aid in w.sessions && w.sessions[aid] == AddButtonStep1
    requires Strip(c) == "request_info"
    ensures Run(w, aid, sender, [TextMessage(a), TextMessage(b), TextMessage(c), p], env)
         == w.(menu := w.menu + [RequestNode(Strip(b), Strip(a), MessageField(p))], sessions := w.sessions - {aid})
  {
    ThreeAnswers(w, aid, sender, a, b, c, [p], env);
    assert [TextMessage(a), TextMessage(b), TextMessage(c)] + [p] == [TextMessage(a), TextMessage(b), TextMessage(c), p];
    var w3 := Goto(w, aid, AddButtonFinishRequest(Strip(a), Strip(b)));
    GotoTwice(w, aid, AddButtonStep3(Strip(a), Strip(b)), AddButtonFinishRequest(Strip(a), Strip(b)));
    assert ChooseKind(Goto(w, aid, AddButtonStep3(Strip(a), Strip(b))), aid, Strip(a), Strip(b), Strip(c)) == w3;
    var n := RequestNode(Strip(b), Strip(a), MessageField(p));
    assert Step(w3, aid, sender, p, env) == Commit(w3, aid, n);
    RunStep(w3, Commit(w3, aid, n), aid, sender, p, [], env);
    assert [p] + [] == [p];
    CommitAfterGoto(w, aid, AddButtonFinishRequest(Strip(a), Strip(b)), n);
  }

  /** Text, id, "content", content, image: "no" in any letter case leaves the
      image empty. */
  lemma ContentWizard(w: World, aid: int, sender: string, a: string, b: string, c: string, body: Message, img: string, env: Env)
    requires aid in w.sessions && w.sessions[aid] == AddButtonStep1
    requires Strip(c) == "content"
    ensures Run(w, aid, sender, [TextMessage(a), TextMessage(b), TextMessage(c), body, TextMessage(img)], env)
         == w.(menu := w.menu + [ContentNode(Strip(b), Strip(a), MessageField(body), if LowerEquals(Strip(img), "no") then "" else Strip(img))],
               sessions := w.sessions - {aid})
  {
    ThreeAnswers(w, aid, sender, a, b, c, [body, TextMessage(img)], env);
    assert [TextMessage(a), TextMessage(b), TextMessage(c)] + [body, TextMessage(img)]
        == [TextMessage(a), TextMessage(b), TextMessage(c), body, TextMessage(img)];
    var s3 := AddButtonFinishContent(Strip(a), Strip(b));
    var w3 := Goto(w, aid, s3);
    GotoTwice(w, aid, AddButtonStep3(Strip(a), Strip(b)), s3);
    assert ChooseKind(Goto(w, aid, AddButtonStep3(Strip(a), Strip(b))), aid, Strip(a), Strip(b), Strip(c)) == w3;
    ContentAnswers(w3, aid, sender, Strip(a), Strip(b), body, img, env);
    var s4 := AddButtonFinishContentImg(Strip(a), Strip(b), MessageField(body));
    GotoTwice(w, aid, s3, s4);
    CommitAfterGoto(w, aid, s4, ContentNode(Strip(b), Strip(a), MessageField(body), ImageChoice(Strip(img))));
  }

  /** The content and image answers of the content wizard. */
  lemma ContentAnswers(w: World, aid: int, sender: string, text: string, id: string, body: Message, img: string, env: Env)
    requires aid in w.sessions && w.sessions[aid] == AddButtonFinishContent(text, id)
    ensures Run(w, aid, sender, [body, TextMessage(img)], env)
         == Commit(Goto(w, aid, AddButtonFinishContentImg(text, id, MessageField(body))), aid,
                   ContentNode(id, text, MessageField(body), ImageChoice(Strip(img))))
  {
    var w4 := Goto(w, aid, AddButtonFinishContentImg(text, id, MessageField(body)));
    var n := ContentNode(id, text, MessageField(body), ImageChoice(Strip(img)));
    ContentBodyStep(w, aid, sender, text, id, body, env);
    ImageStep(w4, aid, sender, text, id, MessageField(body), img, env);
    assert [body, TextMessage(img)] == [body] + [TextMessage(img)];
    RunStep(w, w4, aid, sender, body, [TextMessage(img)], env);
    assert [TextMessage(img)] == [TextMessage(img)] + [];
    RunStep(w4, Commit(w4, aid, n), aid, sender, TextMessage(img), [], env);
  }

  lemma ContentBodyStep(w: World, aid: int, sender: string, text: string, id: string, body: Message, env: Env)
    requires aid in w.sessions && w.sessions[aid] == AddButtonFinishContent(text, id)
    ensures Step(w, aid, sender, body, env) == Goto(w, aid, AddButtonFinishContentImg(text, id, MessageField(body)))
  {
  }

  lemma ImageStep(w: World, aid: int, sender: string, text: string, id: string, content: Field, img: string, env: Env)
    requires aid in w.sessions && w.sessions[aid] == AddButtonFinishContentImg(text, id, content)
    ensures Step(w, aid, sender, TextMessage(img), env) == Commit(w, aid, ContentNode(id, text, content, ImageChoice(Strip(img))))
  {
  }

  /** A type the wizard does not know ends it with the menu unchanged. */
  lemma UnknownKindCancels(w: World, aid: int, sender: string, text: string, id: string, c: string, env: Env)
    requires aid in w.sessions && w.sessions[aid] == AddButtonStep3(text, id)
    requires Strip(c) !in {"submenu", "request_info", "content", "contact_admin"}
    ensures Step(w, aid, sender, TextMessage(c), env) == Close(w, aid)
  {
  }

  /** A message of the submenu loop that adds an item at once: text that is
      not "done" and splits into at least three parts, the third not
      "request_info". */
  predicate PlainItem(m: Message) {
    m.TextMessage? &&
    var line := Strip(m.text);
    !LowerEquals(line, "done") && |Split(line, '|')| >= 3 && SubItem(Split(line, '|')).kind != "request_info"
  }

  predicate AllPlain(msgs: seq<Message>) {
    msgs == [] || (PlainItem(msgs[0]) && AllPlain(msgs[1..]))
  }

  /** The items those messages describe, in order. */
  function ItemsOf(msgs: seq<Message>): (items: seq<Node>)
    requires AllPlain(msgs)
    ensures |items| == |msgs|
  {
    if msgs == [] then [] else [SubItem(Split(Strip(msgs[0].text), '|'))] + ItemsOf(msgs[1..])
  }

  /** One plain item line. */
  lemma PlainItemStep(w: World, aid: int, sender: string, text: string, id: string, items: seq<Node>, m: Message, env: Env)
    requires aid in w.sessions && w.sessions[aid] == AddButtonSubmenu(text, id, items)
    requires PlainItem(m)
    ensures Step(w, aid, sender, m, env)
         == Goto(w, aid, AddButtonSubmenu(text, id, items + [SubItem(Split(Strip(m.text), '|'))]))
  {
  }

  /** Items that are not request_info join the submenu at once, in the order
      they were sent. */
  lemma {:induction false} SubmenuLoopKeepsOrder(w: World, aid: int, sender: string, text: string, id: string,
                                                 items: seq<Node>, msgs: seq<Message>, env: Env)
    requires aid in w.sessions && w.sessions[aid] == AddButtonSubmenu(text, id, items)
    requires AllPlain(msgs)
    ensures Run(w, aid, sender, msgs, env) == Goto(w, aid, AddButtonSubmenu(text, id, items + ItemsOf(msgs)))
    decreases |msgs|
  {
    if msgs == [] {
      assert items + [] == items;
      assert w.sessions[aid := w.sessions[aid]] == w.sessions;
    } else {
      assert PlainItem(msgs[0]) && AllPlain(msgs[1..]);
      var item := SubItem(Split(Strip(msgs[0].text), '|'));
      SubmenuLoopKeepsOrder(Goto(w, aid, AddButtonSubmenu(text, id, items + [item])), aid, sender, text, id,
                            items + [item], msgs[1..], env);
      SubmenuLoopStep(w, aid, sender, text, id, items, msgs, env);
    }
  }

  /** The first line of the loop, given what the rest of the lines do. */
  lemma SubmenuLoopStep(w: World, aid: int, sender: string, text: string, id: string,
                        items: seq<Node>, msgs: seq<Message>, env: Env)
    requires aid in w.sessions && w.sessions[aid] == AddButtonSubmenu(text, id, items)
    requires msgs != [] && AllPlain(msgs)
    requires var item := SubItem(Split(Strip(msgs[0].text), '|'));
      var w1 := Goto(w, aid, AddButtonSubmenu(text, id, items + [item]));
      Run(w1, aid, sender, msgs[1..], env) == Goto(w1, aid, AddButtonSubmenu(text, id, items + [item] + ItemsOf(msgs[1..])))
    ensures Run(w, aid, sender, msgs, env) == Goto(w, aid, AddButtonSubmenu(text, id, items + ItemsOf(msgs)))
  {
    var m := msgs[0];
    ItemsOfCons(items, msgs);
    MessagesCons(msgs);
    PlainItemStep(w, aid, sender, text, id, items, m, env);
    GotoThenRun(w, aid, sender, m, msgs[1..], env, AddButtonSubmenu(text, id, items + [SubItem(Split(Strip(m.text), '|'))]),
                AddButtonSubmenu(text, id, items + ItemsOf(msgs)));
  }

  lemma ItemsOfCons(items: seq<Node>, msgs: seq<Message>)
    requires msgs != [] && AllPlain(msgs)
    ensures items + [SubItem(Split(Strip(msgs[0].text), '|'))] + ItemsOf(msgs[1..]) == items + ItemsOf(msgs)
  {
    var x := SubItem(Split(Strip(msgs[0].text), '|'));
    assert ItemsOf(msgs) == [x] + ItemsOf(msgs[1..]);
    AppendAssoc(items, x, ItemsOf(msgs[1..]), ItemsOf(msgs));
  }

  lemma MessagesCons(msgs: seq<Message>)
    requires msgs != []
    ensures [msgs[0]] + msgs[1..] == msgs
  {
  }

  lemma AppendAssoc(items: seq<Node>, item: Node, later: seq<Node>, all: seq<Node>)
    requires all == [item] + later
    ensures items + [item] + later == items + all
  {
  }

  /** One move of the session followed by the rest of a run that ends in a
      move: only the last move stays visible. */
  lemma GotoThenRun(w: World, aid: int, sender: string, m: Message, rest: seq<Message>, env: Env, s1: Session, s2: Session)
    requires aid in w.sessions && Step(w, aid, sender, m, env) == Goto(w, aid, s1)
    requires Run(Goto(w, aid, s1), aid, sender, rest, env) == Goto(Goto(w, aid, s1), aid, s2)
    ensures Run(w, aid, sender, [m] + rest, env) == Goto(w, aid, s2)
  {
    RunCons(w, aid, sender, m, rest, env);
    GotoTwice(w, aid, s1, s2);
  }

  /** "done", in any letter case, adds the submenu button and ends the loop. */
  lemma SubmenuDone(w: World, aid: int, sender: string, text: string, id: string, items: seq<Node>, t: string, env: Env)
    requires aid in w.sessions && w.sessions[aid] == AddButtonSubmenu(text, id, items)
    requires LowerEquals(Strip(t), "done")
    ensures Step(w, aid, sender, TextMessage(t), env) == Commit(w, aid, SubmenuNode(id, text, items))
  {
  }

  /** A line with fewer than three parts is answered with a hint and changes
      nothing. */
  lemma SubmenuBadLine(w: World, aid: int, sender: string, text: string, id: string, items: seq<Node>, t: string, env: Env)
    requires aid in w.sessions && w.sessions[aid] == AddButtonSubmenu(text, id, items)
    requires !LowerEquals(Strip(t), "done") && |Split(Strip(t), '|')| < 3
    ensures Step(w, aid, sender, TextMessage(t), env) == w
  {
  }

  /** A request_info item waits for the next message, which becomes its
      `info_request`, and then joins the submenu. */
  lemma SubmenuRequestItem(w: World, aid: int, sender: string, text: string, id: string, items: seq<Node>,
                           t: string, p: Message, env: Env)
    requires aid in w.sessions && w.sessions[aid] == AddButtonSubmenu(text, id, items)
    requires !LowerEquals(Strip(t), "done") && |Split(Strip(t), '|')| >= 3
    requires SubItem(Split(Strip(t), '|')).kind == "request_info"
    ensures Run(w, aid, sender, [TextMessage(t), p], env)
         == w.(sessions := w.sessions[aid := AddButtonSubmenu(text, id,
                 items + [SubItem(Split(Strip(t), '|')).(infoRequest := MessageField(p))])])
  {
    var item := SubItem(Split(Strip(t), '|'));
    var w1 := Goto(w, aid, AddButtonSubmenuPrompt(text, id, items, item));
    RequestItemStep(w, aid, sender, text, id, items, t, env);
    var s2 := AddButtonSubmenu(text, id, items + [item.(infoRequest := MessageField(p))]);
    PromptStep(w1, aid, sender, text, id, items, item, p, env);
    RunTwo(w, w1, Goto(w1, aid, s2), aid, sender, TextMessage(t), p, env);
    GotoTwice(w, aid, AddButtonSubmenuPrompt(text, id, items, item), s2);
  }

  lemma GotoTwice(w: World, aid: int, s1: Session, s2: Session)
    ensures Goto(Goto(w, aid, s1), aid, s2) == Goto(w, aid, s2)
  {
    assert w.sessions[aid := s1][aid := s2] == w.sessions[aid := s2];
  }

  /** Two messages whose steps are known, one after the other. */
  lemma RunTwo(w: World, w1: World, w2: World, aid: int, sender: string, m1: Message, m2: Message, env: Env)
    requires aid in w.sessions && Step(w, aid, sender, m1, env) == w1
    requires aid in w1.sessions && Step(w1, aid, sender, m2, env) == w2
    ensures Run(w, aid, sender, [m1, m2], env) == w2
  {
    assert [m1, m2] == [m1] + [m2];
    RunCons(w, aid, sender, m1, [m2], env);
    assert [m2] == [m2] + [];
    RunCons(w1, aid, sender, m2, [], env);
  }

  lemma RequestItemStep(w: World, aid: int, sender: string, text: string, id: string, items: seq<Node>, t: string, env: Env)
    requires aid in w.sessions && w.sessions[aid] == AddButtonSubmenu(text, id, items)
    requires !LowerEquals(Strip(t), "done") && |Split(Strip(t), '|')| >= 3
    requires SubItem(Split(Strip(t), '|')).kind == "request_info"
    ensures Step(w, aid, sender, TextMessage(t), env)
         == Goto(w, aid, AddButtonSubmenuPrompt(text, id, items, SubItem(Split(Strip(t), '|'))))
  {
  }

  /** The pending request_info item takes the next message as its prompt. */
  lemma PromptStep(w: World, aid: int, sender: string, text: string, id: string, items: seq<Node>, pending: Node, m: Message, env: Env)
    requires aid in w.sessions && w.sessions[aid] == AddButtonSubmenuPrompt(text, id, items, pending)
    ensures Step(w, aid, sender, m, env)
         == Goto(w, aid, AddButtonSubmenu(text, id, items + [pending.(infoRequest := MessageField(m))]))
  {
  }

  /** No branch handles the broadcast and delete-admin sessions: whatever that
      admin sends from then on, nothing changes and the session stays. */
  lemma {:induction false} StuckSessionsStay(w: World, aid: int, sender: string, msgs: seq<Message>, env: Env)
    requires aid in w.sessions && (w.sessions[aid].BroadcastStep1? || w.sessions[aid].DelAdminStep1?)
    ensures Run(w, aid, sender, msgs, env) == w
    decreases |msgs|
  {
    if msgs != [] {
      assert Step(w, aid, sender, msgs[0], env) == w;
      StuckSessionsStay(w, aid, sender, msgs[1..], env);
    }
  }

  predicate AllText(msgs: seq<Message>) {
    forall k :: 0 <= k < |msgs| ==> msgs[k].TextMessage?
  }

  /** The image-upload step answers text with a hint and keeps waiting; a photo
      goes into the button's image. */
  lemma {:induction false} UploadWaitsForPhoto(w: World, aid: int, sender: string, key: string, msgs: seq<Message>, env: Env)
    requires aid in w.sessions && w.sessions[aid] == EditAddImageUpload(key)
    requires AllText(msgs)
    ensures Run(w, aid, sender, msgs, env) == w
    decreases |msgs|
  {
    if msgs != [] {
      assert msgs[0].TextMessage?;
      assert Step(w, aid, sender, msgs[0], env) == w;
      assert AllText(msgs[1..]) by {
        assert forall k :: 0 <= k < |msgs[1..]| ==> msgs[1..][k] == msgs[k + 1];
      }
      UploadWaitsForPhoto(w, aid, sender, key, msgs[1..], env);
    }
  }

  lemma UploadTakesPhoto(w: World, aid: int, sender: string, key: string, f: string, env: Env)
    requires aid in w.sessions && w.sessions[aid] == EditAddImageUpload(key)
    requires Find(w.menu, key).Some?
    ensures var w' := Step(w, aid, sender, PhotoMessage(f), env);
      && aid !in w'.sessions
      && Find(w'.menu, key) == Some(Find(w.menu, key).value.(image := Str(f)))
  {
    EditReachesFound(w.menu, key, SetImage(f));
  }

  /** Turning a button into a request_info button takes two messages: the
      first only changes its type, whatever it says, and the second becomes its
      `info_request`. The lookup then returns the same button with both set. */
  lemma RequestInfoTakesTwoMessages(w: World, aid: int, sender: string, key: string, m1: Message, m1': Message, m2: Message, env: Env)
    requires aid in w.sessions && w.sessions[aid] == EditSetRequestInfo(key)
    requires Find(w.menu, key).Some?
    ensures var w' := Run(w, aid, sender, [m1, m2], env);
      && w' == Run(w, aid, sender, [m1', m2], env)
      && aid !in w'.sessions && w'.config == w.config
      && w'.menu == EditFirst(EditFirst(w.menu, key, SetKind("request_info")), key, SetInfoRequest(MessageField(m2)))
      && Find(w'.menu, key) == Some(Find(w.menu, key).value.(kind := "request_info", infoRequest := MessageField(m2)))
  {
    var menu1 := EditFirst(w.menu, key, SetKind("request_info"));
    var w1 := Goto(w.(menu := menu1), aid, EditSetRequestInfoPrompt(key));
    SetKindStep(w, aid, sender, key, m1, env);
    SetKindStep(w, aid, sender, key, m1', env);
    EditReachesFound(w.menu, key, SetKind("request_info"));
    var w2 := Close(w1.(menu := EditFirst(menu1, key, SetInfoRequest(MessageField(m2)))), aid);
    InfoRequestStep(w1, aid, sender, key, m2, env);
    EditReachesFound(menu1, key, SetInfoRequest(MessageField(m2)));
    RunStep(w, w1, aid, sender, m1, [m2], env);
    RunStep(w, w1, aid, sender, m1', [m2], env);
    RunStep(w1, w2, aid, sender, m2, [], env);
    assert [m1] + [m2] == [m1, m2] && [m1'] + [m2] == [m1', m2] && [m2] + [] == [m2];
  }

  /** The first message only changes the type, in memory. */
  lemma SetKindStep(w: World, aid: int, sender: string, key: string, m: Message, env: Env)
    requires aid in w.sessions && w.sessions[aid] == EditSetRequestInfo(key)
    requires Find(w.menu, key).Some?
    ensures Step(w, aid, sender, m, env)
         == Goto(w.(menu := EditFirst(w.menu, key, SetKind("request_info"))), aid, EditSetRequestInfoPrompt(key))
  {
  }

  /** The second message becomes the prompt, and the session ends. */
  lemma InfoRequestStep(w: World, aid: int, sender: string, key: string, m: Message, env: Env)
    requires aid in w.sessions && w.sessions[aid] == EditSetRequestInfoPrompt(key)
    requires Find(w.menu, key).Some?
    ensures Step(w, aid, sender, m, env)
         == Close(w.(menu := EditFirst(w.menu, key, SetInfoRequest(MessageField(m)))), aid)
  {
  }

  /** The delete step removes the first top-level match of the stripped text,
      if any, and ends the session either way. */
  lemma DeleteStep(w: World, aid: int, sender: string, t: string, env: Env)
    requires aid in w.sessions && w.sessions[aid] == DelButtonStep1
    ensures Step(w, aid, sender, TextMessage(t), env) == Close(w.(menu := DeleteTopLevel(w.menu, Strip(t))), aid)
  {
  }

  /** The rate, column and add-admin steps end the session on any input.
      Input that does not parse leaves config and admins unchanged, and so
      does a column count below one; only the rate step and the column step
      write the config, and only the field they set. */
  lemma NumericStepsRejectBadInput(w: World, aid: int, sender: string, t: string, env: Env)
    requires aid in w.sessions
    requires w.sessions[aid].SetRateStep1? || w.sessions[aid].SetLayoutColumns? || w.sessions[aid].AddAdminStep1?
    ensures var w' := Step(w, aid, sender, TextMessage(t), env);
      && aid !in w'.sessions && w'.menu == w.menu
      && (w.sessions[aid].SetRateStep1? ==>
            w'.config == (if env.parseFloat(Strip(t)).Some? then w.config.(rate := env.parseFloat(Strip(t))) else w.config))
      && (w.sessions[aid].SetLayoutColumns? ==>
            w'.config == (if env.parseInt(Strip(t)).Some? && env.parseInt(Strip(t)).value >= 1
                          then w.config.(layout := w.config.layout.(gridColumns := env.parseInt(Strip(t)).value))
                          else w.config))
      && (w.sessions[aid].SetRateStep1? || w.sessions[aid].SetLayoutColumns? ==> w'.admins == w.admins)
      && (w.sessions[aid].AddAdminStep1? ==>
            w'.config == w.config && (env.parseInt(Strip(t)).None? ==> w'.admins == w.admins))
  {
    NumericTextStep(w, aid, sender, t, env);
  }

  /** The numeric steps hand the stripped text to the settings step. */
  lemma NumericTextStep(w: World, aid: int, sender: string, t: string, env: Env)
    requires aid in w.sessions
    requires w.sessions[aid].SetRateStep1? || w.sessions[aid].SetLayoutColumns? || w.sessions[aid].AddAdminStep1?
    ensures Step(w, aid, sender, TextMessage(t), env) == SettingsLine(w, aid, sender, w.sessions[aid], Strip(t), env)
  {
  }

  /** A valid id is appended as a new admin with every permission, even when
      that id is already an admin; the recorded name is the sender's own. */
  lemma AddAdminAppends(w: World, aid: int, sender: string, t: string, env: Env)
    requires aid in w.sessions && w.sessions[aid] == AddAdminStep1
    requires env.parseInt(Strip(t)).Some?
    ensures var w' := Step(w, aid, sender, TextMessage(t), env);
      && w'.admins == w.admins + [AdminEntry(env.parseInt(Strip(t)).value, sender, ["all"])]
      && |w'.admins| == |w.admins| + 1
      && IsAdmin(w', env.parseInt(Strip(t)).value)
  {
    var w' := Step(w, aid, sender, TextMessage(t), env);
    assert w'.admins[|w.admins|].id == env.parseInt(Strip(t)).value;
  }
}
