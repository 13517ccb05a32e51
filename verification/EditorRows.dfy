/** The rows of the editor: filled once from the values, then kept up to date
    by rewriting only the edited row and the rows above it. */
module EditorRows {
  import opened Options
  import opened ValueNodes

  function Lookup<K, V>(m: map<K, V>, k: K): Option<V> {
    if k in m then Some(m[k]) else None
  }

  datatype Row = Row(keyword: string, value: string)

  /** The position of a row: the child numbers from the top, written "i:j:k" by GTK. */
  type Path = seq<nat>

  const WIDTH := 128

  // ---------------------------------------------------------------------------
  // What a rebuild shows
  // ---------------------------------------------------------------------------

  /** The text of a row: strings in full, lists cut after WIDTH characters and marked so. */
  function Display(v: Value): string {
    if v.Str? || |Full(v)| <= WIDTH then Full(v) else Full(v)[..WIDTH] + "..."
  }

  function RowOf(v: Value): Row {
    Row(v.key, Display(v))
  }

  function ValueAt(v: Value, q: Path): Option<Value> {
    if q == [] then Some(v)
    else if v.Arr? && q[0] < |v.items| then ValueAt(v.items[q[0]], q[1..])
    else None
  }

  /** The row a rebuild puts at p, given all sections as the items of one list:
      section titles at the top level, values below. */
  function RebuiltRow(all: Value, p: Path): Option<Row> {
    match ValueAt(all, p)
    case None => None
    case Some(v) => if p == [] then None else if |p| == 1 then Some(Row(v.key, "")) else Some(RowOf(v))
  }

  ghost predicate IsRebuild(rows: map<Path, Row>, all: Value) {
    forall p: Path :: Lookup(rows, p) == RebuiltRow(all, p)
  }

  /** A rebuild is determined by the values. */
  lemma RebuildIsUnique(r: map<Path, Row>, s: map<Path, Row>, all: Value)
    requires IsRebuild(r, all) && IsRebuild(s, all)
    ensures r == s
  {
    forall p: Path
      ensures p in r <==> p in s
      ensures p in r ==> r[p] == s[p]
    {
      assert Lookup(r, p) == Lookup(s, p);
    }
  }

  /** What stands in the rows below the titles: the keyword, and a string in full, or the print of a list if that
      is no longer than 128 characters, or else so many of it and three dots. */
  lemma RowsShow(rows: map<Path, Row>, all: Value, p: Path, v: Value)
    requires IsRebuild(rows, all) && |p| >= 2 && ValueAt(all, p) == Some(v)
    ensures p in rows && rows[p].keyword == v.key
    ensures v.Str? ==> rows[p].value == v.text
    ensures v.Arr? && |Full(v)| <= 128 ==> rows[p].value == Full(v)
    ensures v.Arr? && |Full(v)| > 128 ==>
              |rows[p].value| == 131 && rows[p].value[..128] <= Full(v) && rows[p].value[128..] == "..."
  {
    assert Lookup(rows, p) == RebuiltRow(all, p);
  }

  /** The title rows have the name of their section and no value. */
  lemma TitlesShow(rows: map<Path, Row>, all: Value, p: Path, v: Value)
    requires IsRebuild(rows, all) && |p| == 1 && ValueAt(all, p) == Some(v)
    ensures p in rows && rows[p].keyword == v.key && rows[p].value == ""
  {
    assert Lookup(rows, p) == RebuiltRow(all, p);
  }

  /** The row at p is not the one of a rebuild. */
  predicate Outdated(rows: map<Path, Row>, all: Value, p: Path) {
    Lookup(rows, p) != RebuiltRow(all, p)
  }

  predicate SameKeyword(r: Option<Row>, s: Option<Row>) {
    r.Some? == s.Some? && (r.Some? ==> r.value.keyword == s.value.keyword)
  }

  /** The rows are at the positions of a rebuild and have its keywords; their texts may be others. */
  ghost predicate SameShape(rows: map<Path, Row>, all: Value) {
    forall p: Path :: SameKeyword(Lookup(rows, p), RebuiltRow(all, p))
  }

  // ---------------------------------------------------------------------------
  // Editing one string
  // ---------------------------------------------------------------------------

  /** v with the string at q replaced; lists and missing positions are left alone. */
  function WithText(v: Value, q: Path, text: string): Value {
    if q == [] then (if v.Str? then v.(text := text) else v)
    else if v.Arr? && q[0] < |v.items| then
      v.(items := v.items[q[0] := WithText(v.items[q[0]], q[1..], text)])
    else v
  }

  /** An edit changes the edited value and the values that contain it, and nothing else. */
  lemma {:induction false} EditChangesAncestorsOnly(v: Value, q: Path, text: string, p: Path)
    requires !(p <= q)
    ensures ValueAt(WithText(v, q, text), p) == ValueAt(v, p)
  {
    if q != [] && v.Arr? && q[0] < |v.items| && p[0] == q[0] {
      assert p == [p[0]] + p[1..] && q == [q[0]] + q[1..];
      EditChangesAncestorsOnly(v.items[q[0]], q[1..], text, p[1..]);
    }
  }

  lemma {:induction false} EditAt(v: Value, q: Path, text: string)
    requires ValueAt(v, q).Some?
    ensures ValueAt(WithText(v, q, text), q) == Some(WithText(ValueAt(v, q).value, [], text))
    ensures WithText(v, q, text).key == v.key
    ensures ValueAt(v, q).value.Arr? ==> WithText(v, q, text) == v
  {
    if q != [] {
      EditAt(v.items[q[0]], q[1..], text);
    }
  }

  /** An edit leaves the same rows, with the same keywords. */
  lemma {:induction false} EditKeepsShape(v: Value, q: Path, text: string, p: Path)
    ensures ValueAt(WithText(v, q, text), p).Some? == ValueAt(v, p).Some?
    ensures ValueAt(v, p).Some? ==> ValueAt(WithText(v, q, text), p).value.key == ValueAt(v, p).value.key
  {
    if p != [] && q != [] && v.Arr? && q[0] < |v.items| && p[0] == q[0] {
      EditKeepsShape(v.items[q[0]], q[1..], text, p[1..]);
    }
  }

  // ---------------------------------------------------------------------------
  // Nodes and positions
  // ---------------------------------------------------------------------------

  ghost function NodeAt(n: Node, q: Path): (r: Node?)
    requires n.Valid()
    ensures r != null ==> r.Valid() && r.repr <= n.repr
    decreases n.height
  {
    if q == [] then n
    else if q[0] < |n.children| then NodeAt(n.children[q[0]], q[1..])
    else null
  }

  lemma {:induction false} NodeAtView(n: Node, q: Path)
    requires n.Valid()
    ensures ValueAt(n.View(), q) == if NodeAt(n, q) == null then None else Some(NodeAt(n, q).View())
    decreases n.height
  {
    if q != [] && q[0] < |n.children| {
      NodeAtView(n.children[q[0]], q[1..]);
    }
  }

  /** The strings among these nodes hold what they held before. */
  twostate predicate Unedited(nodes: set<Node>)
    reads nodes
  {
    forall n <- nodes :: n.isList || n.contents == old(n.contents)
  }

  /** Changing the contents of the node at q changes the value as WithText does. */
  twostate lemma {:induction false} ViewAfterEdit(n: Node, new q: Path, new edited: Node, new text: string)
    requires n.Valid()
    requires NodeAt(n, q) == edited
    requires edited.isList || edited.contents == text
    requires Unedited(n.repr - {edited})
    ensures n.View() == WithText(old(n.View()), q, text)
    decreases n.height
  {
    if q == [] {
      if n.isList {
        assert Unedited(n.repr);
        SameView(n);
      }
    } else {
      ViewAfterEdit(n.children[q[0]], q[1..], edited, text);
      OtherChildren(n, q[0]);
      assert n.Views(0) == old(n.Views(0))[q[0] := n.children[q[0]].View()];
    }
  }

  twostate lemma OtherChildren(n: Node, new k: nat)
    requires n.Valid() && k < |n.children|
    requires Unedited(n.repr - n.children[k].repr)
    ensures forall i :: 0 <= i < |n.children| && i != k ==> n.children[i].View() == old(n.children[i].View())
  {
    forall i | 0 <= i < |n.children| && i != k
      ensures n.children[i].View() == old(n.children[i].View())
    {
      assert n.children[i].repr !! n.children[k].repr;
      SameView(n.children[i]);
    }
  }

  twostate lemma {:induction false} SameView(n: Node)
    requires n.Valid()
    requires Unedited(n.repr)
    ensures n.View() == old(n.View())
    decreases n.height
  {
    if n.isList {
      forall i | 0 <= i < |n.children|
        ensures n.children[i].View() == old(n.children[i].View())
      {
        SameView(n.children[i]);
      }
      assert n.Views(0) == old(n.Views(0));
    }
  }

  /** A node is reached at one position only, and lies under exactly the nodes above it. */
  lemma {:induction false} ReachedAbove(n: Node, p: Path, q: Path)
    requires n.Valid() && NodeAt(n, q) != null && p <= q
    ensures NodeAt(n, p) != null
    ensures ValueNodesAreLists(n, p, q)
    decreases n.height
  {
    if p != [] {
      assert p[0] == q[0] && p[1..] <= q[1..];
      ReachedAbove(n.children[q[0]], p[1..], q[1..]);
    }
  }

  ghost predicate ValueNodesAreLists(n: Node, p: Path, q: Path)
    requires n.Valid() && NodeAt(n, p) != null
  {
    p < q ==> NodeAt(n, p).isList
  }

  /** Rebuilding after an edit differs from before only on the way up from the edited row. */
  lemma RebuiltElsewhere(all: Value, path: Path, text: string, p: Path)
    requires ValueAt(all, path).Some?
    ensures !OnTheWay(p, path) ==>
              RebuiltRow(WithText(all, path, text), p) == RebuiltRow(all, p)
    ensures SameKeyword(RebuiltRow(WithText(all, path, text), p), RebuiltRow(all, p))
  {
    EditKeepsShape(all, path, text, p);
    if !(p <= path) {
      EditChangesAncestorsOnly(all, path, text, p);
    }
  }

  // ---------------------------------------------------------------------------
  // The editor
  // ---------------------------------------------------------------------------

  /** The row of a value shown at base, if p is the row of a value inside it. */
  ghost function RowUnder(base: Path, v: Value, p: Path): Option<Row> {
    if base <= p then
      match ValueAt(v, p[|base|..])
      case None => None
      case Some(w) => Some(RowOf(w))
    else None
  }

  ghost function NodeUnder(base: Path, n: Node, p: Path): Option<Node>
    requires n.Valid()
  {
    if base <= p && NodeAt(n, p[|base|..]) != null then Some(NodeAt(n, p[|base|..])) else None
  }

  function OrElse<T>(a: Option<T>, b: Option<T>): Option<T> {
    if a.Some? then a else b
  }

  /** Whether p is the row at base or lies under one of its first i children. */
  predicate Before(base: Path, i: nat, p: Path) {
    base <= p && (p == base || p[|base|] < i)
  }

  lemma UnderBase(base: Path, n: Node)
    requires n.Valid()
    ensures RowUnder(base, n.View(), base) == Some(RowOf(n.View()))
    ensures NodeUnder(base, n, base) == Some(n)
    ensures forall p: Path :: Before(base, 0, p) ==> p == base
    ensures forall p: Path :: !Before(base, |n.children|, p) ==>
              RowUnder(base, n.View(), p) == None && NodeUnder(base, n, p) == None
  {
    assert base[|base|..] == [];
  }

  lemma UnderChild(base: Path, n: Node, i: nat, p: Path)
    requires n.Valid() && i < |n.children|
    ensures base + [i] <= p <==> Before(base, i + 1, p) && !Before(base, i, p)
    ensures base + [i] <= p ==>
              && RowUnder(base + [i], n.children[i].View(), p) == RowUnder(base, n.View(), p)
              && NodeUnder(base + [i], n.children[i], p) == NodeUnder(base, n, p)
  {
    if base + [i] <= p {
      assert p[|base|] == (base + [i])[|base|];
      assert p[|base|..][1..] == p[|base| + 1..];
      assert base == (base + [i])[..|base|] <= p;
    }
  }

  /** The row at base and those under its first i children are filled; others are as in rows0. */
  ghost predicate Filled(rows: map<Path, Row>, rows0: map<Path, Row>, base: Path, v: Value, i: nat)
  {
    forall p: Path :: Lookup(rows, p) ==
      if Before(base, i, p) then OrElse(RowUnder(base, v, p), Lookup(rows0, p)) else Lookup(rows0, p)
  }

  ghost predicate Linked(edited: map<Path, Node>, edited0: map<Path, Node>, base: Path, n: Node, i: nat)
    requires n.Valid()
  {
    forall p: Path :: Lookup(edited, p) ==
      if Before(base, i, p) then OrElse(NodeUnder(base, n, p), Lookup(edited0, p)) else Lookup(edited0, p)
  }

  /** Rows and positions after a value was shown at base. */
  ghost predicate Added(rows: map<Path, Row>, rows0: map<Path, Row>,
                        edited: map<Path, Node>, edited0: map<Path, Node>, base: Path, n: Node)
    requires n.Valid()
    reads n.repr
  {
    && (forall p: Path :: Lookup(rows, p) == OrElse(RowUnder(base, n.View(), p), Lookup(rows0, p)))
    && (forall p: Path :: Lookup(edited, p) == OrElse(NodeUnder(base, n, p), Lookup(edited0, p)))
  }

  lemma FilledStart(rows: map<Path, Row>, edited: map<Path, Node>, base: Path, n: Node, row: Row)
    requires n.Valid() && row == RowOf(n.View())
    ensures Filled(rows[base := row], rows, base, n.View(), 0)
    ensures Linked(edited[base := n], edited, base, n, 0)
  {
    UnderBase(base, n);
  }

  lemma FilledEnd(rows: map<Path, Row>, rows0: map<Path, Row>,
                  edited: map<Path, Node>, edited0: map<Path, Node>, base: Path, n: Node)
    requires n.Valid()
    requires Filled(rows, rows0, base, n.View(), |n.children|) && Linked(edited, edited0, base, n, |n.children|)
    ensures Added(rows, rows0, edited, edited0, base, n)
  {
    UnderBase(base, n);
  }

  lemma FilledChild(rows1: map<Path, Row>, rows: map<Path, Row>, rows0: map<Path, Row>,
                    edited1: map<Path, Node>, edited: map<Path, Node>, edited0: map<Path, Node>,
                    base: Path, n: Node, child: Node, i: nat)
    requires n.Valid() && i < |n.children| && child == n.children[i] && child.Valid()
    requires Filled(rows1, rows0, base, n.View(), i) && Linked(edited1, edited0, base, n, i)
    requires Added(rows, rows1, edited, edited1, base + [i], child)
    ensures Filled(rows, rows0, base, n.View(), i + 1) && Linked(edited, edited0, base, n, i + 1)
  {
    forall p: Path {
      UnderChild(base, n, i, p);
    }
  }

  /** Every position below the titles leads to the node shown there. */
  ghost predicate LeadsTo(values: Node, editedValues: map<Path, Node>)
    requires values.Valid()
  {
    forall p: Path :: Lookup(editedValues, p) == if |p| < 2 then None else NodeUnder([], values, p)
  }

  lemma Leads(values: Node, editedValues: map<Path, Node>, cur: Path, path: Path)
    requires values.Valid() && LeadsTo(values, editedValues)
    requires NodeAt(values, path) != null && cur <= path && |cur| >= 2
    ensures cur in editedValues
  {
    ReachedAbove(values, cur, path);
    assert cur[0..] == cur && Lookup(editedValues, cur) == NodeUnder([], values, cur);
  }

  predicate Reached(i: nat, j: nat, p: Path) {
    p != [] && (p[0] < i || (p[0] == i && j > 0 && (|p| == 1 || p[1] + 1 < j)))
  }

  /** The sections before i are shown, and of section i the title and the first j - 1 values. */
  ghost predicate Shows(rows: map<Path, Row>, editedValues: map<Path, Node>, n: Node, all: Value, i: nat, j: nat)
    requires n.Valid()
  {
    forall p: Path ::
      && Lookup(rows, p) == (if Reached(i, j, p) then RebuiltRow(all, p) else None)
      && Lookup(editedValues, p) == (if Reached(i, j, p) && |p| >= 2 then NodeUnder([], n, p) else None)
  }

  lemma ShowsTitle(rows: map<Path, Row>, editedValues: map<Path, Node>, n: Node, i: nat)
    requires n.Valid() && i < |n.children|
    requires Shows(rows, editedValues, n, n.View(), i, 0)
    ensures Shows(rows[[i] := Row(n.children[i].key, "")], editedValues, n, n.View(), i, 1)
  {
    assert n.View().items[i].key == n.children[i].key && [i][1..] == [];
    assert ValueAt(n.View(), [i]) == ValueAt(n.View().items[i], []);
    forall p: Path
      ensures Reached(i, 1, p) <==> Reached(i, 0, p) || p == [i]
    {
    }
  }

  lemma ShowsItem(rows0: map<Path, Row>, edited0: map<Path, Node>, rows: map<Path, Row>, editedValues: map<Path, Node>,
                  n: Node, section: Node, item: Node, i: nat, j: nat)
    requires n.Valid() && i < |n.children| && section == n.children[i]
    requires section.Valid() && j < |section.children| && item == section.children[j]
    requires item.Valid()
    requires Shows(rows0, edited0, n, n.View(), i, j + 1)
    requires Added(rows, rows0, editedValues, edited0, [i, j], item)
    ensures Shows(rows, editedValues, n, n.View(), i, j + 2)
  {
    forall p: Path {
      UnderSection(n, section, item, i, j, p);
    }
  }

  lemma ShowsSection(rows: map<Path, Row>, editedValues: map<Path, Node>, n: Node, i: nat)
    requires n.Valid() && i < |n.children|
    requires Shows(rows, editedValues, n, n.View(), i, |n.children[i].children| + 1)
    ensures Shows(rows, editedValues, n, n.View(), i + 1, 0)
  {
    forall p: Path
      ensures Reached(i + 1, 0, p) && !Reached(i, |n.children[i].children| + 1, p) ==>
                RebuiltRow(n.View(), p) == None && NodeUnder([], n, p) == None
      ensures Reached(i, |n.children[i].children| + 1, p) ==> Reached(i + 1, 0, p)
    {
      if Reached(i + 1, 0, p) && !Reached(i, |n.children[i].children| + 1, p) {
        assert p[0] == i && |p| >= 2 && p[1..][0] >= |n.children[i].children| && p[0..] == p;
        assert NodeAt(n, p) == NodeAt(n.children[i], p[1..]) == null;
        NodeAtView(n, p);
      }
    }
  }

  lemma ShowsAll(rows: map<Path, Row>, editedValues: map<Path, Node>, n: Node)
    requires n.Valid()
    requires Shows(rows, editedValues, n, n.View(), |n.children|, 0)
    ensures IsRebuild(rows, n.View())
    ensures LeadsTo(n, editedValues)
  {
    forall p: Path
      ensures p != [] && !Reached(|n.children|, 0, p) ==> RebuiltRow(n.View(), p) == None && NodeUnder([], n, p) == None
    {
      assert p[0..] == p;
      NodeAtView(n, p);
    }
  }

  lemma UnderSection(n: Node, section: Node, item: Node, i: nat, j: nat, p: Path)
    requires n.Valid() && i < |n.children| && section == n.children[i]
    requires section.Valid() && j < |section.children| && item == section.children[j]
    requires item.Valid()
    ensures [i, j] <= p <==> Reached(i, j + 2, p) && !Reached(i, j + 1, p)
    ensures [i, j] <= p ==>
              && RowUnder([i, j], item.View(), p) == RebuiltRow(n.View(), p)
              && NodeUnder([i, j], item, p) == NodeUnder([], n, p)
  {
    if [i, j] <= p {
      assert p[0] == [i, j][0] && p[1] == [i, j][1];
      assert p[1..][0] == j && p[1..][1..] == p[2..] && p[0..] == p;
      assert ValueAt(n.View(), p) == ValueAt(section.View(), p[1..]);
      assert NodeAt(n, p) == NodeAt(section, p[1..]);
    }
  }

  /** The rows below the titles on the way from cur to the top, cur included. */
  predicate OnTheWay(p: Path, cur: Path) {
    2 <= |p| && p <= cur
  }

  lemma OneUp(cur: Path)
    requires |cur| >= 2
    ensures forall p: Path :: OnTheWay(p, cur) <==> p == cur || OnTheWay(p, cur[..|cur| - 1])
  {
    forall p: Path
      ensures OnTheWay(p, cur) <==> p == cur || OnTheWay(p, cur[..|cur| - 1])
    {
      if p <= cur && |p| < |cur| {
        assert p == cur[..|cur| - 1][..|p|];
      }
    }
  }

  /** The row at p when the rows that an edit at path touches are done below cur. */
  function RowMidway(r0: map<Path, Row>, edited: Value, cur: Path, path: Path, newText: string, p: Path): Option<Row>
    requires path in r0
  {
    if p == path then Some(r0[path].(value := newText))
    else if OnTheWay(p, path) && !OnTheWay(p, cur) then RebuiltRow(edited, p)
    else Lookup(r0, p)
  }

  /** Halfway through an update the edited row shows what was typed, the rows above it but below cur
      are those of a rebuild, and all others are as they were. */
  ghost predicate PartlyUpdated(rows: map<Path, Row>, r0: map<Path, Row>, edited: Value,
                                cur: Path, path: Path, newText: string)
    requires path in r0
  {
    forall p: Path :: Lookup(rows, p) == RowMidway(r0, edited, cur, path, newText, p)
  }

  lemma UpdateLeaf(r0: map<Path, Row>, edited: Value, path: Path, newText: string)
    requires path in r0 && |path| >= 2
    ensures PartlyUpdated(r0[path := r0[path].(value := newText)], r0, edited, path[..|path| - 1], path, newText)
  {
    OneUp(path);
  }

  lemma UpdateAbove(rows: map<Path, Row>, r0: map<Path, Row>, all: Value,
                    cur: Path, path: Path, newText: string, text: string)
    requires SameShape(r0, all) && path in r0 && 2 <= |cur| && cur < path
    requires PartlyUpdated(rows, r0, WithText(all, path, newText), cur, path, newText)
    requires RebuiltRow(WithText(all, path, newText), cur).Some?
    requires text == RebuiltRow(WithText(all, path, newText), cur).value.value
    ensures cur in rows
    ensures PartlyUpdated(rows[cur := rows[cur].(value := text)], r0, WithText(all, path, newText),
                          cur[..|cur| - 1], path, newText)
  {
    var edited, above := WithText(all, path, newText), cur[..|cur| - 1];
    assert Lookup(rows, cur) == RowMidway(r0, edited, cur, path, newText, cur) == Lookup(r0, cur);
    assert SameKeyword(Lookup(r0, cur), RebuiltRow(all, cur)) && SameKeyword(Lookup(r0, path), RebuiltRow(all, path));
    RebuiltElsewhere(all, path, newText, cur);
    var row := rows[cur].(value := text);
    assert Some(row) == RebuiltRow(edited, cur);
    OneUp(cur);
    forall p: Path
      ensures Lookup(rows[cur := row], p) == RowMidway(r0, edited, above, path, newText, p)
    {
      assert Lookup(rows, p) == RowMidway(r0, edited, cur, path, newText, p);
      assert OnTheWay(p, cur) <==> p == cur || OnTheWay(p, above);
    }
  }

  /** Text typed into the cell of a list that is not what a rebuild shows there. */
  predicate Mistyped(all: Value, path: Path, newText: string) {
    match ValueAt(all, path)
    case None => false
    case Some(v) => v.Arr? && newText != Display(v)
  }

  /** Such text stays in the cell: an empty list is still shown as "[]" by a rebuild. */
  lemma TypedIntoEmptyList()
    ensures Mistyped(Arr("", false, [Arr("section", false, [Arr("list", false, [])])]), [0, 0], "x")
  {
    var list := Arr("list", false, []);
    var section := Arr("section", false, [list]);
    var all := Arr("", false, [section]);
    assert [0, 0][1..] == [0] && [0][1..] == [];
    assert ValueAt(all, [0, 0]) == ValueAt(section, [0]) == ValueAt(list, []) == Some(list);
    assert Full(list) == "[" + FullFrom(list, 0) == "[]";
  }

  /** The edited row shows what a rebuild shows, unless it belongs to a list. */
  lemma TypedRow(all: Value, path: Path, newText: string, row: Row)
    requires |path| >= 2 && SameKeyword(Some(row), RebuiltRow(all, path))
    ensures RebuiltRow(WithText(all, path, newText), path) != Some(row.(value := newText)) <==>
            Mistyped(all, path, newText)
  {
    EditAt(all, path, newText);
  }

  lemma RowAfterUpdate(rows: map<Path, Row>, r0: map<Path, Row>, all: Value, cur: Path, path: Path, newText: string,
                       p: Path)
    requires SameShape(r0, all) && path in r0 && |path| >= 2 && |cur| < 2
    requires PartlyUpdated(rows, r0, WithText(all, path, newText), cur, path, newText)
    ensures SameKeyword(Lookup(rows, p), RebuiltRow(WithText(all, path, newText), p))
    ensures Outdated(rows, WithText(all, path, newText), p) <==>
            if p == path then Mistyped(all, path, newText) else Outdated(r0, all, p) && !OnTheWay(p, path)
    ensures !OnTheWay(p, path) ==> Lookup(rows, p) == Lookup(r0, p)
    ensures p == path ==> Lookup(rows, p) == Some(r0[path].(value := newText))
  {
    assert Lookup(rows, p) == RowMidway(r0, WithText(all, path, newText), cur, path, newText, p);
    assert SameKeyword(Lookup(r0, path), RebuiltRow(all, path)) && SameKeyword(Lookup(r0, p), RebuiltRow(all, p));
    RebuiltElsewhere(all, path, newText, p);
    if p == path {
      TypedRow(all, path, newText, r0[path]);
    }
  }

  /** Once the titles are reached, a row is outdated exactly if it is the edited one and belongs to a list
      with another text, or was outdated before and is not above the edited one. */
  lemma UpdateDone(rows: map<Path, Row>, r0: map<Path, Row>, all: Value, cur: Path, path: Path, newText: string)
    requires SameShape(r0, all) && path in r0 && |path| >= 2 && |cur| < 2
    requires PartlyUpdated(rows, r0, WithText(all, path, newText), cur, path, newText)
    ensures SameShape(rows, WithText(all, path, newText))
    ensures forall p: Path :: Outdated(rows, WithText(all, path, newText), p) <==>
              if p == path then Mistyped(all, path, newText) else Outdated(r0, all, p) && !OnTheWay(p, path)
    ensures forall p: Path :: !OnTheWay(p, path) ==> Lookup(rows, p) == Lookup(r0, p)
    ensures Lookup(rows, path) == Some(r0[path].(value := newText))
  {
    RowAfterUpdate(rows, r0, all, cur, path, newText, path);
    forall p: Path
      ensures SameKeyword(Lookup(rows, p), RebuiltRow(WithText(all, path, newText), p))
      ensures !OnTheWay(p, path) ==> Lookup(rows, p) == Lookup(r0, p)
      ensures Outdated(rows, WithText(all, path, newText), p) <==>
              if p == path then Mistyped(all, path, newText) else Outdated(r0, all, p) && !OnTheWay(p, path)
    {
      RowAfterUpdate(rows, r0, all, cur, path, newText, p);
    }
  }

  class Editor {
    /** editor_intfc::theCurrentValues: the sections of the display, as one list. */
    var values: Node
    /** The GTK tree store. */
    var rows: map<Path, Row>
    /** editor_intfc::theEditedValues: the node shown at each position below the titles. */
    var editedValues: map<Path, Node>

    ghost predicate Wired()
      reads this
    {
      values.Valid() && LeadsTo(values, editedValues)
    }

    ghost predicate Valid()
      reads this, values.repr
    {
      Wired() && SameShape(rows, values.View())
    }

    /** Copy the official values and show the copies: a title for each section,
        the values of the section below it. */
    constructor PrepareToShow(everything: Node)
      requires everything.Valid() && everything.isList
      ensures Valid() && fresh(values.repr) && values.View() == everything.View()
      ensures IsRebuild(rows, values.View())
    {
      var copy := everything.Copy();
      values, rows, editedValues := copy, map[], map[];
      new;
      assert values.View() == everything.View();
      FillWithActivityData();
    }

    method FillWithActivityData()
      requires values.Valid() && rows == map[] && editedValues == map[]
      modifies this`rows, this`editedValues
      ensures Valid() && values.View() == old(values.View()) && IsRebuild(rows, values.View())
    {
      for i := 0 to |values.children|
        invariant Shows(rows, editedValues, values, values.View(), i, 0)
      {
        FillSection(i);
        ShowsSection(rows, editedValues, values, i);
      }
      ShowsAll(rows, editedValues, values);
      assert forall p: Path :: Lookup(rows, p) == RebuiltRow(values.View(), p);
    }

    /** A title row, then the values of the section. */
    method FillSection(i: nat)
      requires values.Valid() && i < |values.children|
      requires Shows(rows, editedValues, values, values.View(), i, 0)
      modifies this`rows, this`editedValues
      ensures Shows(rows, editedValues, values, values.View(), i, |values.children[i].children| + 1)
    {
      var section := values.children[i];
      ShowsTitle(rows, editedValues, values, i);
      rows := rows[[i] := Row(section.key, "")];
      for j := 0 to |section.children|
        invariant Shows(rows, editedValues, values, values.View(), i, j + 1)
      {
        ghost var rows0, edited0 := rows, editedValues;
        FillTreeModel([i, j], section.children[j]);
        ShowsItem(rows0, edited0, rows, editedValues, values, section, section.children[j], i, j);
      }
    }

    /** Show a value and everything below it, starting at a row just appended at base. */
    method FillTreeModel(base: Path, n: Node)
      requires n.Valid()
      modifies this`rows, this`editedValues
      ensures Added(rows, old(rows), editedValues, old(editedValues), base, n)
      decreases n.height
    {
      var text := Shown(n, if n.isList then Some(WIDTH) else None);
      FilledStart(rows, editedValues, base, n, Row(n.key, text));
      rows := rows[base := Row(n.key, text)];
      editedValues := editedValues[base := n];
      if n.isList {
        for i := 0 to |n.children|
          invariant Filled(rows, old(rows), base, n.View(), i)
          invariant Linked(editedValues, old(editedValues), base, n, i)
        {
          ghost var rows1, edited1 := rows, editedValues;
          FillTreeModel(base + [i], n.children[i]);
          FilledChild(rows1, rows, old(rows), edited1, editedValues, old(editedValues), base, n, n.children[i], i);
        }
      }
      FilledEnd(rows, old(rows), editedValues, old(editedValues), base, n);
    }

    /** The edited node takes the new text, and every value that contains it changes with it. */
    method EditText(path: Path, newText: string, n: Node)
      requires values.Valid() && NodeAt(values, path) == n
      modifies values.repr`contents
      ensures values.View() == WithText(old(values.View()), path, newText)
    {
      n.SetStringTo(newText);
      ViewAfterEdit(values, path, n, newText);
    }

    /** Some of the rows that an edit at path touches are done, those below cur. */
    ghost predicate Midway(r0: map<Path, Row>, all: Value, cur: Path, path: Path, newText: string)
      requires path in r0
      reads this, values.repr
    {
      && Wired() && values.View() == WithText(all, path, newText)
      && PartlyUpdated(rows, r0, WithText(all, path, newText), cur, path, newText)
    }

    /** The first turn of the loop: the edited node and its row. */
    method UpdateEdited(path: Path, newText: string, ghost r0: map<Path, Row>, ghost all: Value)
      requires Wired() && values.View() == all && rows == r0 && path in r0 && |path| >= 2 && path in editedValues
      modifies this`rows, values.repr`contents
      ensures Midway(r0, all, path[..|path| - 1], path, newText)
    {
      var n := editedValues[path];
      assert path[0..] == path && Lookup(editedValues, path) == NodeUnder([], values, path);
      EditText(path, newText, n);
      UpdateLeaf(r0, WithText(all, path, newText), path, newText);
      rows := rows[path := rows[path].(value := newText)];
    }

    /** Any other turn: a list above the edited node is printed again. */
    method RefreshRow(cur: Path, ghost r0: map<Path, Row>, ghost all: Value, ghost path: Path, ghost newText: string)
      requires SameShape(r0, all) && path in r0 && 2 <= |cur| && cur < path && cur in editedValues
      requires Midway(r0, all, cur, path, newText) && NodeAt(values, path) != null
      modifies this`rows
      ensures Midway(r0, all, cur[..|cur| - 1], path, newText)
    {
      var n := editedValues[cur];
      assert cur[0..] == cur && Lookup(editedValues, cur) == NodeUnder([], values, cur);
      ReachedAbove(values, cur, path);
      NodeAtView(values, cur);
      UpdateAbove(rows, r0, all, cur, path, newText, Display(n.View()));
      var text := Shown(n, Some(WIDTH));
      rows := rows[cur := rows[cur].(value := text)];
    }

    /** The new text goes into the edited node and its row; the rows above it are printed again. Rows may be
        outdated before, where text was typed into lists; of these the ones above are put right. */
    method UpdateTreeModel(path: Path, newText: string)
      requires Valid() && path in rows
      modifies this`rows, values.repr`contents
      ensures Valid() && path in rows
      ensures values.View() == if |path| < 2 then old(values.View()) else WithText(old(values.View()), path, newText)
      ensures |path| >= 2 ==> rows[path] == old(rows[path]).(value := newText)
      ensures forall p: Path :: !OnTheWay(p, path) ==> Lookup(rows, p) == old(Lookup(rows, p))
      ensures forall p: Path :: Outdated(rows, values.View(), p) <==>
                if p == path && |path| >= 2 then Mistyped(old(values.View()), path, newText)
                else old(Outdated(rows, values.View(), p)) && !OnTheWay(p, path)
    {
      ghost var all, r0 := values.View(), rows;
      assert SameKeyword(Lookup(rows, path), RebuiltRow(all, path));
      NodeAtView(values, path);
      var cur, weHaveALeaf := path, true;
      while |cur| >= 2
        invariant cur <= path && NodeAt(values, path) != null && LeadsTo(values, editedValues)
        invariant weHaveALeaf <==> cur == path
        invariant weHaveALeaf ==> rows == r0 && values.View() == all
        invariant !weHaveALeaf ==> |path| >= 2 && Midway(r0, all, cur, path, newText)
      {
        Leads(values, editedValues, cur, path);
        ghost var above := cur[..|cur| - 1];
        if cur in editedValues {
          if weHaveALeaf {
            weHaveALeaf := false;
            UpdateEdited(path, newText, r0, all);
          } else {
            RefreshRow(cur, r0, all, path, newText);
          }
          assert Midway(r0, all, above, path, newText);
        }
        cur := cur[..|cur| - 1];
      }
      if |path| >= 2 {
        UpdateDone(rows, r0, all, cur, path, newText);
      }
    }
  }

  /** Print a node into an empty buffer, marking a print that was cut. */
  method Shown(n: Node, limit: Option<nat>) returns (text: string)
    requires n.Valid()
    ensures text == if limit.None? || |Full(n.View())| <= limit.value then Full(n.View())
                    else Full(n.View())[..limit.value] + "..."
  {
    var out := new Buffer();
    var maxLength;
    if limit.None? {
      maxLength := new CompactInt.Infinite();
    } else {
      maxLength := new CompactInt.Finite(limit.value);
    }
    var truncated := n.TransferToStream(out, maxLength);
    if truncated {
      out.Concatenate("...");
    }
    text := out.text;
  }
}
