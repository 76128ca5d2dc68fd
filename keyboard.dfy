/** The inline keyboard `build_keyboard_from_buttons` builds for one list of
    buttons, reduced to its rows of callback strings (the labels are left out). */
module Keyboard {

  /** `BUTTON_LAYOUT`: a layout type and the stored `grid_columns`. */
  datatype Layout = Layout(kind: string, gridColumns: int)

  /** `int(grid_columns or 2)`, as used by `count % cols == 0`: a stored 0 means
      2, and since `count` is positive the test only depends on the size of a
      negative value. */
  function Columns(gridColumns: int): (c: nat)
    ensures c >= 1
    ensures gridColumns > 0 ==> c == gridColumns
    ensures gridColumns == 0 ==> c == 2
    ensures gridColumns < 0 ==> c == -gridColumns
  {
    if gridColumns == 0 then 2 else if gridColumns < 0 then -gridColumns else gridColumns
  }

  function Callback(id: string): string {
    "BTN|" + id
  }

  function Callbacks(ids: seq<string>): (cbs: seq<string>)
    ensures |cbs| == |ids|
    ensures forall k :: 0 <= k < |ids| ==> cbs[k] == Callback(ids[k])
  {
    if ids == [] then [] else [Callback(ids[0])] + Callbacks(ids[1..])
  }

  /** The grid: consecutive rows of `c` buttons, the last possibly shorter. */
  function Chunks(s: seq<string>, c: nat): seq<seq<string>>
    requires c >= 1
    decreases |s|
  {
    if s == [] then []
    else if |s| <= c then [s]
    else [s[..c]] + Chunks(s[c..], c)
  }

  /** One row per button. */
  function Singletons(s: seq<string>): (rows: seq<seq<string>>)
    ensures |rows| == |s|
    ensures forall k :: 0 <= k < |s| ==> rows[k] == [s[k]]
  {
    if s == [] then [] else [[s[0]]] + Singletons(s[1..])
  }

  /** The rows built from the buttons, before the two fixed rows. */
  function NodeRows(cbs: seq<string>, layout: Layout): seq<seq<string>> {
    if layout.kind == "vertical" then Singletons(cbs)
    else if layout.kind == "horizontal" then (if cbs == [] then [] else [cbs])
    else if layout.kind == "grid" then Chunks(cbs, Columns(layout.gridColumns))
    else []
  }

  /** The currency toggle and the home button, always last. */
  const NavRows: seq<seq<string>> := [["NAV|toggle_currency"], ["NAV|home"]]

  function KeyboardRows(ids: seq<string>, layout: Layout): seq<seq<string>> {
    NodeRows(Callbacks(ids), layout) + NavRows
  }

  function Flatten(rows: seq<seq<string>>): seq<string> {
    if rows == [] then [] else rows[0] + Flatten(rows[1..])
  }

  lemma {:induction false} FlattenConcat(a: seq<seq<string>>, b: seq<seq<string>>)
    ensures Flatten(a + b) == Flatten(a) + Flatten(b)
  {
    if a == [] {
      assert a + b == b;
    } else {
      assert (a + b)[1..] == a[1..] + b;
      FlattenConcat(a[1..], b);
    }
  }

  /** `n` is a whole number of grid rows of `c` buttons. */
  predicate Whole(n: nat, c: nat)
    requires c >= 1
    decreases n
  {
    n == 0 || (n >= c && Whole(n - c, c))
  }

  lemma {:induction false} WholeAddRow(n: nat, c: nat)
    requires c >= 1 && Whole(n, c)
    ensures Whole(n + c, c)
    decreases n
  {
    if n > 0 {
      WholeAddRow(n - c, c);
    }
  }

  /** The counter test of the grid loop, one button further. */
  lemma ModNext(count: nat, c: nat)
    requires c >= 1
    ensures (count + 1) % c == if count % c + 1 == c then 0 else count % c + 1
  {
    var q, r := count / c, count % c;
    if r + 1 < c {
      ModOfRepresentation(count + 1, c, q, r + 1);
    } else {
      assert count + 1 == (q + 1) * c;
      ModOfRepresentation(count + 1, c, q + 1, 0);
    }
  }

  lemma ModOfRepresentation(n: nat, c: nat, q: int, r: int)
    requires c >= 1 && 0 <= r < c && n == q * c + r
    ensures n % c == r
  {
    var q', r' := n / c, n % c;
    assert (q - q') * c == r' - r;
    if q > q' {
      assert (q - q') * c >= c by { MulAtLeast(q - q', c); }
    } else if q < q' {
      assert (q' - q) * c >= c by { MulAtLeast(q' - q, c); }
    }
  }

  lemma MulAtLeast(k: int, c: nat)
    requires k >= 1
    ensures k * c >= c
  {
  }

  /** Splitting after whole rows splits the grid rows the same way. */
  lemma {:induction false} ChunksConcat(a: seq<string>, b: seq<string>, c: nat)
    requires c >= 1 && Whole(|a|, c)
    ensures Chunks(a + b, c) == Chunks(a, c) + Chunks(b, c)
    decreases |a|
  {
    if a == [] {
      assert a + b == b;
    } else if |a| == c {
      if b == [] {
        assert a + b == a;
      } else {
        assert (a + b)[..c] == a && (a + b)[c..] == b;
      }
    } else {
      assert (a + b)[..c] == a[..c] && (a + b)[c..] == a[c..] + b;
      ChunksConcat(a[c..], b, c);
    }
  }

  /** `kb.row(*row)` for a row that filled up: the grid so far gains it. */
  lemma ChunksFullRow(done: seq<string>, row: seq<string>, c: nat)
    requires c >= 1 && Whole(|done|, c) && |row| == c
    ensures Chunks(done + row, c) == Chunks(done, c) + [row]
  {
    ChunksConcat(done, row, c);
  }

  /** The grid rows: none empty, every one but the last exactly `c` long, the
      last between 1 and `c`, and read one after another they are the buttons in
      their order. */
  lemma {:induction false} ChunksShape(s: seq<string>, c: nat)
    requires c >= 1
    ensures Flatten(Chunks(s, c)) == s
    ensures forall k :: 0 <= k < |Chunks(s, c)| - 1 ==> |Chunks(s, c)[k]| == c
    ensures Chunks(s, c) != [] ==> 1 <= |Chunks(s, c)[|Chunks(s, c)| - 1]| <= c
    decreases |s|
  {
    if s != [] && |s| > c {
      ChunksShape(s[c..], c);
      var rest := Chunks(s[c..], c);
      var rows := Chunks(s, c);
      assert rows == [s[..c]] + rest;
      FlattenConcat([s[..c]], rest);
      assert Flatten([s[..c]]) == s[..c] + Flatten([]);
      assert s[..c] + s[c..] == s;
      forall k | 1 <= k < |rows|
        ensures rows[k] == rest[k - 1]
      {
      }
    }
  }

  /** vertical: one row per button, in order. */
  lemma VerticalOneRowPerButton(ids: seq<string>, gridColumns: int)
    ensures |KeyboardRows(ids, Layout("vertical", gridColumns))| == |ids| + 2
    ensures forall k :: 0 <= k < |ids| ==> KeyboardRows(ids, Layout("vertical", gridColumns))[k] == [Callback(ids[k])]
  {
  }

  /** horizontal: a single row holding every button, and no row when there is
      no button. */
  lemma HorizontalOneRowIffButtons(ids: seq<string>, gridColumns: int)
    ensures |NodeRows(Callbacks(ids), Layout("horizontal", gridColumns))| == (if ids == [] then 0 else 1)
    ensures ids != [] ==> NodeRows(Callbacks(ids), Layout("horizontal", gridColumns)) == [Callbacks(ids)]
  {
  }

  /** Any other layout type lists no button at all. */
  lemma UnknownLayoutOnlyNav(ids: seq<string>, layout: Layout)
    requires layout.kind !in {"vertical", "horizontal", "grid"}
    ensures KeyboardRows(ids, layout) == NavRows
  {
  }

  lemma {:induction false} FlattenSingletons(s: seq<string>)
    ensures Flatten(Singletons(s)) == s
  {
    if s != [] {
      FlattenSingletons(s[1..]);
      assert Singletons(s)[1..] == Singletons(s[1..]);
    }
  }

  /** For the three known layouts the rows, read in order, are the buttons in
      menu order, each as `"BTN|" + id`, followed by the two fixed rows. */
  lemma KeepsButtonOrder(ids: seq<string>, layout: Layout)
    requires layout.kind in {"vertical", "horizontal", "grid"}
    ensures Flatten(KeyboardRows(ids, layout)) == Callbacks(ids) + ["NAV|toggle_currency", "NAV|home"]
  {
    var cbs := Callbacks(ids);
    FlattenConcat(NodeRows(cbs, layout), NavRows);
    assert Flatten(NavRows) == ["NAV|toggle_currency", "NAV|home"] by {
      assert NavRows[1..][1..] == [];
    }
    if layout.kind == "vertical" {
      FlattenSingletons(cbs);
    } else if layout.kind == "grid" {
      ChunksShape(cbs, Columns(layout.gridColumns));
    } else if cbs != [] {
      assert Flatten([cbs]) == cbs + Flatten([]);
    }
  }

  /** `build_keyboard_from_buttons`, row by row as the source adds them, then
      the two fixed rows. */
  method BuildKeyboard(ids: seq<string>, layout: Layout) returns (rows: seq<seq<string>>)
    ensures rows == KeyboardRows(ids, layout)
  {
    var cbs := Callbacks(ids);
    rows := [];
    if layout.kind == "vertical" {
      rows := VerticalRows(cbs);
    } else if layout.kind == "horizontal" {
      if cbs != [] {
        rows := rows + [cbs];
      }
    } else if layout.kind == "grid" {
      rows := GridRows(cbs, Columns(layout.gridColumns));
    }
    rows := rows + [["NAV|toggle_currency"]];
    rows := rows + [["NAV|home"]];
  }

  /** The vertical layout: one `kb.add` per button. */
  method VerticalRows(cbs: seq<string>) returns (rows: seq<seq<string>>)
    ensures rows == Singletons(cbs)
  {
    rows := [];
    var k := 0;
    while k < |cbs|
      invariant 0 <= k <= |cbs|
      invariant rows == Singletons(cbs[..k])
    {
      assert cbs[..k + 1] == cbs[..k] + [cbs[k]];
      SingletonsSnoc(cbs[..k], cbs[k]);
      rows := rows + [[cbs[k]]];
      k := k + 1;
    }
    assert cbs[..k] == cbs;
  }

  /** The grid layout: a counter that closes a row whenever it reaches a
      multiple of the column count, then the last partial row if any. */
  method GridRows(cbs: seq<string>, cols: nat) returns (rows: seq<seq<string>>)
    requires cols >= 1
    ensures rows == Chunks(cbs, cols)
  {
    rows := [];
    var row: seq<string> := [];
    var count := 0;
    while count < |cbs|
      invariant 0 <= count <= |cbs|
      invariant |row| == count % cols
      invariant count - |row| >= 0 && Whole(count - |row|, cols)
      invariant row == cbs[count - |row|..count]
      invariant rows == Chunks(cbs[..count - |row|], cols)
    {
      ModNext(count, cols);
      row := row + [cbs[count]];
      count := count + 1;
      if count % cols == 0 {
        ChunksFullRow(cbs[..count - cols], row, cols);
        assert cbs[..count - cols] + row == cbs[..count];
        WholeAddRow(count - cols, cols);
        rows := rows + [row];
        row := [];
      }
    }
    var done := cbs[..count - |row|];
    assert done + row == cbs;
    ChunksConcat(done, row, cols);
    if row != [] {
      rows := rows + [row];
    }
  }

  lemma SingletonsSnoc(s: seq<string>, x: string)
    ensures Singletons(s + [x]) == Singletons(s) + [[x]]
  {
    var l := Singletons(s + [x]);
    assert forall k :: 0 <= k < |s| ==> (s + [x])[k] == s[k];
  }
}
