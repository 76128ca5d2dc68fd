/** The button tree the bot shows (`BUTTONS["main_menu"]`): the preorder search
    that every handler uses to look a button up, the in-place edits the admin
    screens make to the node that search returns, and the top-level delete. */
module Menu {
  import opened Wrappers

  /** An optional node attribute: a key that is missing, a key holding `null`
      (what storing the `.text` of a photo message leaves), or a string. */
  datatype Field = Absent | Null | Str(value: string)

  /** `b.get(key, "")` followed by a truth test: only a non-empty string counts. */
  predicate Truthy(f: Field) {
    f.Str? && f.value != ""
  }

  /** One button. `kind` is the `type` key ("submenu", "content", "request_info",
      "contact_admin", or whatever an admin typed); `submenu` is `[]` when the key
      is missing, which is what `b.get("submenu", [])` reads. */
  datatype Node = Node(
    id: string,
    text: string,
    kind: string,
    image: Field,
    description: Field,
    content: Field,
    infoRequest: Field,
    submenu: seq<Node>)

  /** The test `find_button_by_id` and the delete scan apply to a node. */
  predicate Matches(n: Node, key: string) {
    n.id == key || n.text == key
  }

  /** `find_button_by_id`: depth first, a node before its children, and only the
      children of a node whose type is "submenu". */
  function Find(nodes: seq<Node>, key: string): Option<Node>
    decreases nodes
  {
    if nodes == [] then None
    else if Matches(nodes[0], key) then Some(nodes[0])
    else if nodes[0].kind == "submenu" && Find(nodes[0].submenu, key).Some? then Find(nodes[0].submenu, key)
    else Find(nodes[1..], key)
  }

  /** The nodes the search can reach, in the order it visits them. */
  function Preorder(nodes: seq<Node>): seq<Node>
    decreases nodes
  {
    if nodes == [] then []
    else [nodes[0]] + (if nodes[0].kind == "submenu" then Preorder(nodes[0].submenu) else []) + Preorder(nodes[1..])
  }

  /** Index of the first node of `s` that matches `key`. */
  function FirstMatchIndex(s: seq<Node>, key: string): (r: Option<nat>)
    ensures r.Some? ==> r.value < |s| && Matches(s[r.value], key)
  {
    if s == [] then None
    else if Matches(s[0], key) then Some(0)
    else match FirstMatchIndex(s[1..], key)
      case None => None
      case Some(i) => Some(i + 1)
  }

  /** The position found holds the first match, and there is none exactly
      when no position matches. */
  lemma {:induction false} FirstMatchIndexIsFirst(s: seq<Node>, key: string)
    ensures FirstMatchIndex(s, key).Some? ==> forall j :: 0 <= j < FirstMatchIndex(s, key).value ==> !Matches(s[j], key)
    ensures FirstMatchIndex(s, key).None? <==> forall j :: 0 <= j < |s| ==> !Matches(s[j], key)
  {
    if s != [] && !Matches(s[0], key) {
      FirstMatchIndexIsFirst(s[1..], key);
      assert forall j :: 1 <= j < |s| ==> s[j] == s[1..][j - 1];
    }
  }

  /** The first node of a flat list that matches `key`. */
  function FirstMatch(s: seq<Node>, key: string): Option<Node> {
    match FirstMatchIndex(s, key)
    case None => None
    case Some(i) => Some(s[i])
  }

  lemma FirstMatchCons(n: Node, s: seq<Node>, key: string)
    requires !Matches(n, key)
    ensures FirstMatch([n] + s, key) == FirstMatch(s, key)
  {
    assert ([n] + s)[1..] == s;
  }

  lemma {:induction false} FirstMatchConcat(a: seq<Node>, b: seq<Node>, key: string)
    ensures FirstMatch(a + b, key) == if FirstMatch(a, key).Some? then FirstMatch(a, key) else FirstMatch(b, key)
  {
    if a == [] {
      assert a + b == b;
    } else if Matches(a[0], key) {
    } else {
      FirstMatchConcat(a[1..], b, key);
      assert a + b == [a[0]] + (a[1..] + b);
      assert a == [a[0]] + a[1..];
      FirstMatchCons(a[0], a[1..] + b, key);
      FirstMatchCons(a[0], a[1..], key);
    }
  }

  /** One level of the search order: a node, the nodes it lets the search
      reach below it, then its later siblings' subtrees. */
  lemma PreorderCons(nodes: seq<Node>)
    requires nodes != []
    ensures Preorder(nodes) == [nodes[0]] + (Below(nodes[0]) + Preorder(nodes[1..]))
  {
  }

  /** The reachable nodes strictly below `n`. */
  function Below(n: Node): seq<Node> {
    if n.kind == "submenu" then Preorder(n.submenu) else []
  }

  /** `find_button_by_id` returns the first reachable node, in preorder, whose id
      or text is the key. */
  lemma {:induction false} FindIsFirstInPreorder(nodes: seq<Node>, key: string)
    ensures Find(nodes, key) == FirstMatch(Preorder(nodes), key)
    decreases nodes
  {
    if nodes != [] {
      var n := nodes[0];
      PreorderCons(nodes);
      if !Matches(n, key) {
        FirstMatchCons(n, Below(n) + Preorder(nodes[1..]), key);
        FirstMatchConcat(Below(n), Preorder(nodes[1..]), key);
        FindIsFirstInPreorder(nodes[1..], key);
        if n.kind == "submenu" {
          FindIsFirstInPreorder(n.submenu, key);
        }
      }
    }
  }

  /** The search finds nothing exactly when no reachable node has the key, and
      what it finds is reachable and has the key. */
  lemma FindNoneIffUnreachable(nodes: seq<Node>, key: string)
    ensures Find(nodes, key).None? <==> forall j :: 0 <= j < |Preorder(nodes)| ==> !Matches(Preorder(nodes)[j], key)
    ensures Find(nodes, key).Some? ==> Find(nodes, key).value in Preorder(nodes) && Matches(Find(nodes, key).value, key)
  {
    FindIsFirstInPreorder(nodes, key);
  }

  /** A node whose type is not "submenu" hides its children from the search. */
  lemma OnlySubmenusAreSearched(n: Node, rest: seq<Node>, key: string)
    requires n.kind != "submenu" && !Matches(n, key)
    ensures Find([n] + rest, key) == Find(rest, key)
  {
    assert ([n] + rest)[1..] == rest;
  }

  /** The in-place writes the admin edit steps make to the node they looked up. */
  datatype Edit =
    | SetDescription(description: Field)
    | SetImage(image: string)
    | SetKind(kind: string)
    | SetInfoRequest(infoRequest: Field)

  /** The write an edit makes: the one attribute it names takes the edit's
      value, and every other attribute keeps its own. */
  function Apply(n: Node, e: Edit): (r: Node)
    ensures r.id == n.id && r.text == n.text && r.content == n.content && r.submenu == n.submenu
    ensures e.SetDescription? ==> r.description == e.description && r.image == n.image && r.kind == n.kind && r.infoRequest == n.infoRequest
    ensures e.SetImage? ==> r.image == Str(e.image) && r.description == n.description && r.kind == n.kind && r.infoRequest == n.infoRequest
    ensures e.SetKind? ==> r.kind == e.kind && r.description == n.description && r.image == n.image && r.infoRequest == n.infoRequest
    ensures e.SetInfoRequest? ==> r.infoRequest == e.infoRequest && r.description == n.description && r.image == n.image && r.kind == n.kind
    ensures !e.SetKind? ==> r.kind == n.kind
  {
    match e
    case SetDescription(d) => n.(description := d)
    case SetImage(i) => n.(image := Str(i))
    case SetKind(k) => n.(kind := k)
    case SetInfoRequest(p) => n.(infoRequest := p)
  }

  /** The tree after `e` is written into the node `Find(nodes, key)` returns. */
  function EditFirst(nodes: seq<Node>, key: string, e: Edit): seq<Node>
    decreases nodes
  {
    if nodes == [] then []
    else
      var n := nodes[0];
      if Matches(n, key) then [Apply(n, e)] + nodes[1..]
      else if n.kind == "submenu" && Find(n.submenu, key).Some? then [n.(submenu := EditFirst(n.submenu, key, e))] + nodes[1..]
      else [n] + EditFirst(nodes[1..], key, e)
  }

  /** When the lookup fails the tree is left as it was. */
  lemma {:induction false} EditMissingKey(nodes: seq<Node>, key: string, e: Edit)
    requires Find(nodes, key).None?
    ensures EditFirst(nodes, key, e) == nodes
    decreases nodes
  {
    if nodes != [] {
      EditMissingKey(nodes[1..], key, e);
    }
  }

  /** After the edit the same lookup returns the edited node, at any depth. */
  lemma {:induction false} EditReachesFound(nodes: seq<Node>, key: string, e: Edit)
    requires Find(nodes, key).Some?
    ensures Find(EditFirst(nodes, key, e), key) == Some(Apply(Find(nodes, key).value, e))
    decreases nodes
  {
    var n := nodes[0];
    var edited := EditFirst(nodes, key, e);
    if Matches(n, key) {
    } else if n.kind == "submenu" && Find(n.submenu, key).Some? {
      EditReachesFound(n.submenu, key, e);
      assert edited[0] == n.(submenu := EditFirst(n.submenu, key, e));
    } else {
      EditReachesFound(nodes[1..], key, e);
      assert edited[1..] == EditFirst(nodes[1..], key, e);
    }
  }

  /** The node at `path`: list indices read down through the `submenu` keys,
      whatever the nodes' types. */
  function At(nodes: seq<Node>, path: seq<nat>): Option<Node>
    decreases |path|
  {
    if path == [] || path[0] >= |nodes| then None
    else if |path| == 1 then Some(nodes[path[0]])
    else At(nodes[path[0]].submenu, path[1..])
  }

  /** The attributes of the node at `path`, without its children. */
  function HeaderAt(nodes: seq<Node>, path: seq<nat>): Option<Node> {
    match At(nodes, path)
    case None => None
    case Some(n) => Some(Header(n))
  }

  /** Every edit, the type edit included, writes into exactly one node of the
      tree: the node the search finds, at a path where it sits, takes its
      edited attributes; at every other path the same attributes stand, and
      every path that leads to a node still does. */
  lemma EditChangesOneNode(nodes: seq<Node>, key: string, e: Edit)
    requires Find(nodes, key).Some?
    ensures exists p :: (At(nodes, p) == Find(nodes, key)
      && forall q :: HeaderAt(EditFirst(nodes, key, e), q)
                     == (if q == p then Some(Header(Apply(Find(nodes, key).value, e))) else HeaderAt(nodes, q)))
  {
    var p := EditPath(nodes, key, e);
  }

  /** The path of the edited node, found along the search. */
  lemma {:induction false} EditPath(nodes: seq<Node>, key: string, e: Edit) returns (p: seq<nat>)
    requires Find(nodes, key).Some?
    ensures At(nodes, p) == Find(nodes, key)
    ensures forall q :: HeaderAt(EditFirst(nodes, key, e), q)
                        == (if q == p then Some(Header(Apply(Find(nodes, key).value, e))) else HeaderAt(nodes, q))
    decreases nodes
  {
    var n := nodes[0];
    if Matches(n, key) {
      p := [0];
      RootFrame(nodes, key, e);
    } else if n.kind == "submenu" && Find(n.submenu, key).Some? {
      var p' := EditPath(n.submenu, key, e);
      p := [0] + p';
      ChildFrame(nodes, key, e, p');
    } else {
      var p' := EditPath(nodes[1..], key, e);
      p := [p'[0] + 1] + p'[1..];
      SiblingFrame(nodes, key, e, p');
    }
  }

  /** Two lists with the same node at the head of `q` agree at `q`. */
  lemma SameAt(a: seq<Node>, b: seq<Node>, q: seq<nat>)
    requires |a| == |b| && (q != [] && q[0] < |a| ==> a[q[0]] == b[q[0]])
    ensures At(a, q) == At(b, q)
  {
  }

  /** Below the first node of a list. */
  lemma AtFirst(nodes: seq<Node>, q: seq<nat>)
    requires nodes != [] && |q| > 1 && q[0] == 0
    ensures At(nodes, q) == At(nodes[0].submenu, q[1..])
  {
  }

  /** Past the first node of a list. */
  lemma AtRest(nodes: seq<Node>, q: seq<nat>)
    requires nodes != [] && q != [] && q[0] > 0
    ensures At(nodes, q) == At(nodes[1..], [q[0] - 1] + q[1..])
  {
    assert ([q[0] - 1] + q[1..])[1..] == q[1..];
  }

  lemma RootFrame(nodes: seq<Node>, key: string, e: Edit)
    requires nodes != [] && Matches(nodes[0], key)
    ensures forall q :: HeaderAt(EditFirst(nodes, key, e), q)
                        == (if q == [0] then Some(Header(Apply(nodes[0], e))) else HeaderAt(nodes, q))
  {
    var edited := EditFirst(nodes, key, e);
    assert edited == [Apply(nodes[0], e)] + nodes[1..];
    forall q ensures HeaderAt(edited, q) == (if q == [0] then Some(Header(Apply(nodes[0], e))) else HeaderAt(nodes, q)) {
      if q != [] && q[0] == 0 && |q| > 1 {
        AtFirst(edited, q);
        AtFirst(nodes, q);
      } else if q != [] && q[0] == 0 {
        assert q == [0];
      } else {
        SameAt(edited, nodes, q);
      }
    }
  }

  lemma ChildFrame(nodes: seq<Node>, key: string, e: Edit, p': seq<nat>)
    requires nodes != [] && !Matches(nodes[0], key)
    requires nodes[0].kind == "submenu" && Find(nodes[0].submenu, key).Some?
    requires At(nodes[0].submenu, p') == Find(nodes[0].submenu, key)
    requires forall r :: HeaderAt(EditFirst(nodes[0].submenu, key, e), r)
                        == (if r == p' then Some(Header(Apply(Find(nodes[0].submenu, key).value, e))) else HeaderAt(nodes[0].submenu, r))
    ensures At(nodes, [0] + p') == Find(nodes, key)
    ensures forall q :: HeaderAt(EditFirst(nodes, key, e), q)
                        == (if q == [0] + p' then Some(Header(Apply(Find(nodes, key).value, e))) else HeaderAt(nodes, q))
  {
    var n := nodes[0];
    var sub := EditFirst(n.submenu, key, e);
    var edited := EditFirst(nodes, key, e);
    assert edited == [n.(submenu := sub)] + nodes[1..];
    assert p' != [];
    AtFirst(nodes, [0] + p');
    assert ([0] + p')[1..] == p';
    forall q ensures HeaderAt(edited, q) == (if q == [0] + p' then Some(Header(Apply(Find(nodes, key).value, e))) else HeaderAt(nodes, q)) {
      if q != [] && q[0] == 0 && |q| > 1 {
        AtFirst(edited, q);
        AtFirst(nodes, q);
        assert q == [0] + q[1..];
        assert HeaderAt(edited, q) == HeaderAt(sub, q[1..]) && HeaderAt(nodes, q) == HeaderAt(n.submenu, q[1..]);
      } else if q != [] && q[0] == 0 {
        assert Header(edited[0]) == Header(n);
      } else {
        SameAt(edited, nodes, q);
      }
    }
  }

  lemma SiblingFrame(nodes: seq<Node>, key: string, e: Edit, p': seq<nat>)
    requires nodes != [] && !Matches(nodes[0], key)
    requires !(nodes[0].kind == "submenu" && Find(nodes[0].submenu, key).Some?)
    requires Find(nodes[1..], key).Some? && At(nodes[1..], p') == Find(nodes[1..], key)
    requires forall r :: HeaderAt(EditFirst(nodes[1..], key, e), r)
                        == (if r == p' then Some(Header(Apply(Find(nodes[1..], key).value, e))) else HeaderAt(nodes[1..], r))
    ensures p' != [] && At(nodes, [p'[0] + 1] + p'[1..]) == Find(nodes, key)
    ensures forall q :: HeaderAt(EditFirst(nodes, key, e), q)
                        == (if q == [p'[0] + 1] + p'[1..] then Some(Header(Apply(Find(nodes, key).value, e))) else HeaderAt(nodes, q))
  {
    var p := [p'[0] + 1] + p'[1..];
    assert p' != [];
    AtRest(nodes, p);
    assert [p[0] - 1] + p[1..] == p';
    var x := Some(Header(Apply(Find(nodes, key).value, e)));
    forall q ensures HeaderAt(EditFirst(nodes, key, e), q) == (if q == p then x else HeaderAt(nodes, q)) {
      SiblingPath(nodes, key, e, p', q);
    }
  }

  lemma SiblingPath(nodes: seq<Node>, key: string, e: Edit, p': seq<nat>, q: seq<nat>)
    requires nodes != [] && !Matches(nodes[0], key) && p' != []
    requires !(nodes[0].kind == "submenu" && Find(nodes[0].submenu, key).Some?)
    requires Find(nodes[1..], key).Some?
    requires q != [] && q[0] > 0 ==>
               HeaderAt(EditFirst(nodes[1..], key, e), [q[0] - 1] + q[1..])
               == (if [q[0] - 1] + q[1..] == p' then Some(Header(Apply(Find(nodes[1..], key).value, e)))
                   else HeaderAt(nodes[1..], [q[0] - 1] + q[1..]))
    ensures HeaderAt(EditFirst(nodes, key, e), q)
            == (if q == [p'[0] + 1] + p'[1..] then Some(Header(Apply(Find(nodes, key).value, e))) else HeaderAt(nodes, q))
  {
    var edited := EditFirst(nodes, key, e);
    assert edited == [nodes[0]] + EditFirst(nodes[1..], key, e);
    if q != [] && q[0] > 0 {
      AtRest(edited, q);
      AtRest(nodes, q);
      assert edited[1..] == EditFirst(nodes[1..], key, e);
      ShiftedPath(q, p');
    } else {
      EditKeepsLength(nodes[1..], key, e);
      SameAt(edited, nodes, q);
    }
  }

  lemma {:induction false} EditKeepsLength(nodes: seq<Node>, key: string, e: Edit)
    ensures |EditFirst(nodes, key, e)| == |nodes|
    decreases nodes
  {
    if nodes != [] { EditKeepsLength(nodes[1..], key, e); }
  }

  /** A path past the first node is the edited path exactly when, shifted
      back by one, it is the path in the rest of the list. */
  lemma ShiftedPath(q: seq<nat>, p': seq<nat>)
    requires q != [] && q[0] > 0 && p' != []
    ensures q == [p'[0] + 1] + p'[1..] <==> [q[0] - 1] + q[1..] == p'
  {
    if [q[0] - 1] + q[1..] == p' {
      assert q == [q[0]] + q[1..];
    }
  }

  /** A node without its children: what an edit may change about one node. */
  function Header(n: Node): Node {
    n.(submenu := [])
  }

  function Headers(s: seq<Node>): (r: seq<Node>)
    ensures |r| == |s|
  {
    if s == [] then [] else [Header(s[0])] + Headers(s[1..])
  }

  lemma {:induction false} HeadersConcat(a: seq<Node>, b: seq<Node>)
    ensures Headers(a + b) == Headers(a) + Headers(b)
  {
    if a == [] {
      assert a + b == b;
    } else {
      assert (a + b)[0] == a[0];
      assert (a + b)[1..] == a[1..] + b;
      HeadersConcat(a[1..], b);
    }
  }

  /** Edits that keep the type, so the set of reachable nodes stays the same. */
  predicate KeepsKind(e: Edit) {
    !e.SetKind?
  }

  lemma {:induction false} MatchIndexConcat(a: seq<Node>, b: seq<Node>, key: string)
    requires FirstMatchIndex(a, key).None?
    requires FirstMatchIndex(b, key).Some?
    ensures FirstMatchIndex(a + b, key) == Some(|a| + FirstMatchIndex(b, key).value)
  {
    if a == [] {
      assert a + b == b;
    } else {
      NoMatchTail(a, key);
      ConcatTail(a, b);
      MatchIndexConcat(a[1..], b, key);
      MatchIndexShift(a + b, key);
    }
  }

  lemma MatchIndexShift(s: seq<Node>, key: string)
    requires s != [] && !Matches(s[0], key) && FirstMatchIndex(s[1..], key).Some?
    ensures FirstMatchIndex(s, key) == Some(1 + FirstMatchIndex(s[1..], key).value)
  {
  }

  lemma NoMatchTail(a: seq<Node>, key: string)
    requires a != [] && FirstMatchIndex(a, key).None?
    ensures !Matches(a[0], key) && FirstMatchIndex(a[1..], key).None?
  {
  }

  lemma ConcatTail(a: seq<Node>, b: seq<Node>)
    requires a != []
    ensures (a + b)[0] == a[0] && (a + b)[1..] == a[1..] + b
  {
  }

  lemma {:induction false} MatchIndexPrefix(a: seq<Node>, b: seq<Node>, key: string)
    requires FirstMatchIndex(a, key).Some?
    ensures FirstMatchIndex(a + b, key) == FirstMatchIndex(a, key)
  {
    if !Matches(a[0], key) {
      assert (a + b)[1..] == a[1..] + b;
      MatchIndexPrefix(a[1..], b, key);
    }
  }

  lemma FindSomeIndex(nodes: seq<Node>, key: string)
    ensures Find(nodes, key).Some? <==> FirstMatchIndex(Preorder(nodes), key).Some?
    ensures Find(nodes, key).Some? ==> Find(nodes, key).value == Preorder(nodes)[FirstMatchIndex(Preorder(nodes), key).value]
  {
    FindIsFirstInPreorder(nodes, key);
  }

  lemma UpdateConcat(a: seq<Node>, b: seq<Node>, i: nat, v: Node)
    requires i < |a| + |b|
    ensures (a + b)[i := v] == if i < |a| then a[i := v] + b else a + b[i - |a| := v]
  {
  }

  lemma SpliceWithin(h: Node, hb: seq<Node>, hr: seq<Node>, hb': seq<Node>, j: nat, v: Node)
    requires j < |hb| && hb' == hb[j := v]
    ensures ([h] + (hb + hr))[1 + j := v] == [h] + (hb' + hr)
  {
    UpdateConcat([h], hb + hr, 1 + j, v);
    UpdateConcat(hb, hr, j, v);
  }

  lemma SpliceAfter(h: Node, hb: seq<Node>, hr: seq<Node>, hr': seq<Node>, j: nat, v: Node)
    requires j < |hr| && hr' == hr[j := v]
    ensures ([h] + (hb + hr))[1 + |hb| + j := v] == [h] + (hb + hr')
  {
    UpdateConcat([h], hb + hr, 1 + |hb| + j, v);
    UpdateConcat(hb, hr, |hb| + j, v);
  }

  lemma GlueWithin(p: seq<Node>, p': seq<Node>, i: nat, e: Edit, h: Node, hb: seq<Node>, hr: seq<Node>, hb': seq<Node>, j: nat, w: Node)
    requires Headers(p) == [h] + (hb + hr) && Headers(p') == [h] + (hb' + hr)
    requires j < |hb| && hb' == hb[j := Header(Apply(w, e))]
    requires i == 1 + j && i < |p| && p[i] == w
    ensures ChangesOnly(p, p', i, e)
  {
    SpliceWithin(h, hb, hr, hb', j, Header(Apply(w, e)));
  }

  lemma GlueAfter(p: seq<Node>, p': seq<Node>, i: nat, e: Edit, h: Node, hb: seq<Node>, hr: seq<Node>, hr': seq<Node>, j: nat, w: Node)
    requires Headers(p) == [h] + (hb + hr) && Headers(p') == [h] + (hb + hr')
    requires j < |hr| && hr' == hr[j := Header(Apply(w, e))]
    requires i == 1 + |hb| + j && i < |p| && p[i] == w
    ensures ChangesOnly(p, p', i, e)
  {
    SpliceAfter(h, hb, hr, hr', j, Header(Apply(w, e)));
  }

  /** The headers of the search order, one level unfolded. */
  lemma HeadersCons(nodes: seq<Node>)
    requires nodes != []
    ensures Headers(Preorder(nodes)) == [Header(nodes[0])] + (Headers(Below(nodes[0])) + Headers(Preorder(nodes[1..])))
  {
    PreorderCons(nodes);
    HeadersConcat([nodes[0]], Below(nodes[0]) + Preorder(nodes[1..]));
    HeadersConcat(Below(nodes[0]), Preorder(nodes[1..]));
  }

  /** What a kind-keeping edit does to one search order, written with the index
      and the edited header spelt out. */
  predicate ChangesOnly(before: seq<Node>, after: seq<Node>, i: nat, e: Edit) {
    i < |before| && Headers(after) == Headers(before)[i := Header(Apply(before[i], e))]
  }

  /** A kind-keeping edit changes exactly one entry of the search order: the
      first match, which becomes its edited version; every other node keeps its
      own attributes and its place. */
  lemma {:induction false} EditChangesOnlyTheMatch(nodes: seq<Node>, key: string, e: Edit)
    requires KeepsKind(e)
    requires FirstMatchIndex(Preorder(nodes), key).Some?
    ensures ChangesOnly(Preorder(nodes), Preorder(EditFirst(nodes, key, e)), FirstMatchIndex(Preorder(nodes), key).value, e)
    decreases nodes
  {
    var n := nodes[0];
    if Matches(n, key) {
      EditAtRoot(nodes, key, e);
    } else if n.kind == "submenu" && Find(n.submenu, key).Some? {
      ChildMatchIndex(nodes, key);
      EditChangesOnlyTheMatch(n.submenu, key, e);
      EditInChildren(nodes, key, e);
    } else {
      SiblingMatchIndex(nodes, key);
      EditChangesOnlyTheMatch(nodes[1..], key, e);
      EditInSiblings(nodes, key, e);
    }
  }

  /** Where the first match sits when it lies among the first node's children. */
  lemma ChildMatchIndex(nodes: seq<Node>, key: string)
    requires nodes != [] && !Matches(nodes[0], key)
    requires nodes[0].kind == "submenu" && Find(nodes[0].submenu, key).Some?
    ensures FirstMatchIndex(Preorder(nodes[0].submenu), key).Some?
    ensures FirstMatchIndex(Preorder(nodes), key).Some?
    ensures FirstMatchIndex(Preorder(nodes), key).value == 1 + FirstMatchIndex(Preorder(nodes[0].submenu), key).value
  {
    PreorderCons(nodes);
    FindSomeIndex(nodes[0].submenu, key);
    InSecondPart(nodes[0], Below(nodes[0]), Preorder(nodes[1..]), key);
  }

  /** A match in `below` is the first match of `[n] + (below + tail)` when `n`
      does not match, shifted by one. */
  lemma InSecondPart(n: Node, below: seq<Node>, tail: seq<Node>, key: string)
    requires !Matches(n, key) && FirstMatchIndex(below, key).Some?
    ensures FirstMatchIndex([n] + (below + tail), key) == Some(1 + FirstMatchIndex(below, key).value)
  {
    assert FirstMatchIndex([n], key).None?;
    MatchIndexPrefix(below, tail, key);
    MatchIndexConcat([n], below + tail, key);
  }

  /** Where the first match sits when it lies among the later siblings. */
  lemma SiblingMatchIndex(nodes: seq<Node>, key: string)
    requires nodes != [] && !Matches(nodes[0], key)
    requires !(nodes[0].kind == "submenu" && Find(nodes[0].submenu, key).Some?)
    requires FirstMatchIndex(Preorder(nodes), key).Some?
    ensures FirstMatchIndex(Preorder(nodes[1..]), key).Some?
    ensures FirstMatchIndex(Preorder(nodes), key).value == 1 + |Below(nodes[0])| + FirstMatchIndex(Preorder(nodes[1..]), key).value
  {
    PreorderCons(nodes);
    BelowHasNoMatch(nodes[0], key);
    AfterTwoParts(nodes[0], Below(nodes[0]), Preorder(nodes[1..]), key);
  }

  /** A match found in `[n] + (below + tail)` past a non-matching `n` and a
      match-free `below` is a match in `tail`, shifted. */
  lemma AfterTwoParts(n: Node, below: seq<Node>, tail: seq<Node>, key: string)
    requires !Matches(n, key) && FirstMatchIndex(below, key).None?
    requires FirstMatchIndex([n] + (below + tail), key).Some?
    ensures FirstMatchIndex(tail, key).Some?
    ensures FirstMatchIndex([n] + (below + tail), key).value == 1 + |below| + FirstMatchIndex(tail, key).value
  {
    assert FirstMatchIndex([n], key).None?;
    assert FirstMatchIndex(tail, key).Some? by {
      if FirstMatchIndex(tail, key).None? {
        NoMatchConcat(below, tail, key);
        NoMatchConcat([n], below + tail, key);
      }
    }
    MatchIndexConcat(below, tail, key);
    MatchIndexConcat([n], below + tail, key);
  }

  lemma BelowHasNoMatch(n: Node, key: string)
    requires !(n.kind == "submenu" && Find(n.submenu, key).Some?)
    ensures FirstMatchIndex(Below(n), key).None?
  {
    if n.kind == "submenu" { FindSomeIndex(n.submenu, key); }
  }

  lemma NoMatchConcat(a: seq<Node>, b: seq<Node>, key: string)
    requires FirstMatchIndex(a, key).None? && FirstMatchIndex(b, key).None?
    ensures FirstMatchIndex(a + b, key).None?
  {
    FirstMatchIndexIsFirst(a, key);
    FirstMatchIndexIsFirst(b, key);
    FirstMatchIndexIsFirst(a + b, key);
    forall j | 0 <= j < |a + b| ensures !Matches((a + b)[j], key) {
      if j < |a| { assert (a + b)[j] == a[j]; } else { assert (a + b)[j] == b[j - |a|]; }
    }
  }

  lemma EditAtRoot(nodes: seq<Node>, key: string, e: Edit)
    requires KeepsKind(e)
    requires nodes != [] && Matches(nodes[0], key)
    ensures ChangesOnly(Preorder(nodes), Preorder(EditFirst(nodes, key, e)), 0, e)
  {
    var n := nodes[0];
    var m := Apply(n, e);
    var edited := EditFirst(nodes, key, e);
    assert edited == [m] + nodes[1..];
    assert edited[0] == m && edited[1..] == nodes[1..];
    HeadersCons(nodes);
    HeadersCons(edited);
    assert Below(m) == Below(n);
    UpdateHead(Header(n), Header(m), Headers(Below(n)) + Headers(Preorder(nodes[1..])));
  }

  lemma UpdateHead(x: Node, y: Node, rest: seq<Node>)
    ensures ([x] + rest)[0 := y] == [y] + rest
  {
  }

  /** The search order after an edit inside the first node's children. */
  lemma HeadersAfterChildEdit(nodes: seq<Node>, key: string, e: Edit)
    requires nodes != [] && !Matches(nodes[0], key)
    requires nodes[0].kind == "submenu" && Find(nodes[0].submenu, key).Some?
    ensures Headers(Preorder(EditFirst(nodes, key, e)))
         == [Header(nodes[0])] + (Headers(Preorder(EditFirst(nodes[0].submenu, key, e))) + Headers(Preorder(nodes[1..])))
  {
    var m := nodes[0].(submenu := EditFirst(nodes[0].submenu, key, e));
    var edited := EditFirst(nodes, key, e);
    assert edited == [m] + nodes[1..];
    assert edited[0] == m && edited[1..] == nodes[1..];
    HeadersCons(edited);
  }

  /** The search order after an edit among the later siblings. */
  lemma HeadersAfterSiblingEdit(nodes: seq<Node>, key: string, e: Edit)
    requires nodes != [] && !Matches(nodes[0], key)
    requires !(nodes[0].kind == "submenu" && Find(nodes[0].submenu, key).Some?)
    ensures Headers(Preorder(EditFirst(nodes, key, e)))
         == [Header(nodes[0])] + (Headers(Below(nodes[0])) + Headers(Preorder(EditFirst(nodes[1..], key, e))))
  {
    var edited := EditFirst(nodes, key, e);
    assert edited == [nodes[0]] + EditFirst(nodes[1..], key, e);
    assert edited[0] == nodes[0] && edited[1..] == EditFirst(nodes[1..], key, e);
    HeadersCons(edited);
  }

  lemma EditInChildren(nodes: seq<Node>, key: string, e: Edit)
    requires KeepsKind(e)
    requires nodes != [] && !Matches(nodes[0], key)
    requires nodes[0].kind == "submenu" && FirstMatchIndex(Preorder(nodes[0].submenu), key).Some?
    requires FirstMatchIndex(Preorder(nodes), key).Some?
    requires FirstMatchIndex(Preorder(nodes), key).value == 1 + FirstMatchIndex(Preorder(nodes[0].submenu), key).value
    requires Find(nodes[0].submenu, key).Some?
    requires ChangesOnly(Preorder(nodes[0].submenu), Preorder(EditFirst(nodes[0].submenu, key, e)),
                         FirstMatchIndex(Preorder(nodes[0].submenu), key).value, e)
    ensures ChangesOnly(Preorder(nodes), Preorder(EditFirst(nodes, key, e)), FirstMatchIndex(Preorder(nodes), key).value, e)
  {
    var n := nodes[0];
    var j := FirstMatchIndex(Below(n), key).value;
    var i := FirstMatchIndex(Preorder(nodes), key).value;
    var hb := Headers(Below(n));
    var hr := Headers(Preorder(nodes[1..]));
    var v := Header(Apply(Below(n)[j], e));
    HeadersCons(nodes);
    HeadersAfterChildEdit(nodes, key, e);
    assert Preorder(nodes)[i] == Below(n)[j] by {
      PreorderCons(nodes);
    }
    GlueWithin(Preorder(nodes), Preorder(EditFirst(nodes, key, e)), i, e, Header(n), hb, hr,
               Headers(Preorder(EditFirst(n.submenu, key, e))), j, Below(n)[j]);
  }

  lemma EditInSiblings(nodes: seq<Node>, key: string, e: Edit)
    requires KeepsKind(e)
    requires nodes != [] && !Matches(nodes[0], key)
    requires !(nodes[0].kind == "submenu" && Find(nodes[0].submenu, key).Some?)
    requires FirstMatchIndex(Preorder(nodes[1..]), key).Some?
    requires FirstMatchIndex(Preorder(nodes), key).Some?
    requires FirstMatchIndex(Preorder(nodes), key).value == 1 + |Below(nodes[0])| + FirstMatchIndex(Preorder(nodes[1..]), key).value
    requires ChangesOnly(Preorder(nodes[1..]), Preorder(EditFirst(nodes[1..], key, e)),
                         FirstMatchIndex(Preorder(nodes[1..]), key).value, e)
    ensures ChangesOnly(Preorder(nodes), Preorder(EditFirst(nodes, key, e)), FirstMatchIndex(Preorder(nodes), key).value, e)
  {
    var n := nodes[0];
    var j := FirstMatchIndex(Preorder(nodes[1..]), key).value;
    var i := FirstMatchIndex(Preorder(nodes), key).value;
    var hb := Headers(Below(n));
    var hr := Headers(Preorder(nodes[1..]));
    var v := Header(Apply(Preorder(nodes[1..])[j], e));
    HeadersCons(nodes);
    HeadersAfterSiblingEdit(nodes, key, e);
    assert Preorder(nodes)[i] == Preorder(nodes[1..])[j] by {
      PreorderCons(nodes);
    }
    GlueAfter(Preorder(nodes), Preorder(EditFirst(nodes, key, e)), i, e, Header(n), hb, hr,
              Headers(Preorder(EditFirst(nodes[1..], key, e))), j, Preorder(nodes[1..])[j]);
  }

  /** The delete step: drop the first top-level node whose id or text is the
      key; nested nodes are not looked at. */
  function DeleteTopLevel(menu: seq<Node>, key: string): seq<Node> {
    match FirstMatchIndex(menu, key)
    case None => menu
    case Some(i) => menu[..i] + menu[i + 1..]
  }

  /** At most one node goes, and only when a top-level node matches; the ones
      that stay keep their order. */
  lemma DeleteRemovesFirstTopLevelMatch(menu: seq<Node>, key: string)
    ensures (forall j :: 0 <= j < |menu| ==> !Matches(menu[j], key)) ==> DeleteTopLevel(menu, key) == menu
    ensures (exists j :: 0 <= j < |menu| && Matches(menu[j], key)) ==>
      exists i :: 0 <= i < |menu| && Matches(menu[i], key)
        && (forall j :: 0 <= j < i ==> !Matches(menu[j], key))
        && DeleteTopLevel(menu, key) == menu[..i] + menu[i + 1..]
  {
    FirstMatchIndexIsFirst(menu, key);
    if FirstMatchIndex(menu, key).Some? {
      var i := FirstMatchIndex(menu, key).value;
      assert Matches(menu[i], key);
    }
  }

  /** The menu `ensure_file` writes on first start. */
  const DefaultMenu: seq<Node> := [
    Node("services", "🎮 خدمات الألعاب", "submenu", Str(""), Str(""), Absent, Absent, [
      Node("pubg", "شحن شدات PUBG (1$)", "request_info", Absent, Absent, Absent, Str("أرسل ID اللعبة + الباقة المطلوبة"), []),
      Node("ff", "شحن Free Fire (2.5$)", "request_info", Absent, Absent, Absent, Str("أرسل ID اللعبة + الباقة المطلوبة"), [])
    ]),
    Node("contact", "📩 تواصل مع الأدمن", "contact_admin", Str(""), Str(""), Absent, Absent, [])
  ]

  /** In the default menu the search reaches the nested "pubg" button, but the
      delete step cannot remove it. */
  lemma NestedButtonFoundButNotDeleted()
    ensures Find(DefaultMenu, "pubg") == Some(DefaultMenu[0].submenu[0])
    ensures DeleteTopLevel(DefaultMenu, "pubg") == DefaultMenu
  {
    assert DefaultMenu[1..] == [DefaultMenu[1]];
    assert DefaultMenu[0].submenu[1..] == [DefaultMenu[0].submenu[1]];
  }
}
