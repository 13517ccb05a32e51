/** The window in which resources are selected for an XML timeline: a tree of rows with a
    check mark each, toggled with everything below, and the collection of the checked leaves. */
module SelectionTree {
  import Quoting

  /** A row, its check mark and the rows below it. */
  datatype Tree = Tree(name: string, checked: bool, kids: seq<Tree>)

  type Path = seq<nat>

  // ---------------------------------------------------------------------------
  // Leaves
  // ---------------------------------------------------------------------------

  function At(t: Tree, p: Path): (r: seq<Tree>)
    ensures |r| <= 1
  {
    if p == [] then [t]
    else if p[0] < |t.kids| then At(t.kids[p[0]], p[1..])
    else []
  }

  predicate IsLeaf(t: Tree, p: Path) {
    At(t, p) != [] && At(t, p)[0].kids == []
  }

  predicate CheckedAt(t: Tree, p: Path) {
    At(t, p) != [] && At(t, p)[0].checked
  }

  /** The labels below t on the way to p, one after the other. */
  function Labels(t: Tree, p: Path): string {
    if p == [] || p[0] >= |t.kids| then ""
    else t.kids[p[0]].name + Labels(t.kids[p[0]], p[1..])
  }

  /** A leaf with the way to it, the labels on that way, and its check mark. */
  datatype Leaf = Leaf(path: Path, labels: string, checked: bool)

  /** The leaves below a row in the order of the tree, given the way and the labels down to the row. */
  function Leaves(t: Tree, path: Path, labels: string): seq<Leaf>
    decreases t, 1, 0
  {
    if t.kids == [] then [Leaf(path, labels, t.checked)] else LeavesUpTo(t, path, labels, |t.kids|)
  }

  /** The leaves below the first n children. */
  function LeavesUpTo(t: Tree, path: Path, labels: string, n: nat): seq<Leaf>
    requires n <= |t.kids|
    decreases t, 0, n
  {
    if n == 0 then []
    else LeavesUpTo(t, path, labels, n - 1) + Leaves(t.kids[n - 1], path + [n - 1], labels + t.kids[n - 1].name)
  }

  /** A leaf of t as it is listed. */
  function LeafAt(t: Tree, path: Path, labels: string, p: Path): Leaf {
    Leaf(path + p, labels + Labels(t, p), CheckedAt(t, p))
  }

  /** Every leaf is listed, with its labels and its check mark. */
  lemma {:induction false} EveryLeafIsListed(t: Tree, path: Path, labels: string, p: Path)
    requires IsLeaf(t, p)
    ensures LeafAt(t, path, labels, p) in Leaves(t, path, labels)
    decreases t
  {
    if p == [] {
      assert path + [] == path && labels + "" == labels;
    } else {
      var k, kid := p[0], t.kids[p[0]];
      EveryLeafIsListed(kid, path + [k], labels + kid.name, p[1..]);
      LeafBelow(t, path, labels, p);
      ListedUpTo(t, path, labels, k, |t.kids|, LeafAt(t, path, labels, p));
    }
  }

  lemma LeafBelow(t: Tree, path: Path, labels: string, p: Path)
    requires p != [] && p[0] < |t.kids|
    ensures LeafAt(t, path, labels, p)
         == LeafAt(t.kids[p[0]], path + [p[0]], labels + t.kids[p[0]].name, p[1..])
  {
    assert path + [p[0]] + p[1..] == path + p;
    assert labels + t.kids[p[0]].name + Labels(t.kids[p[0]], p[1..]) == labels + Labels(t, p);
  }

  lemma {:induction false} ListedUpTo(t: Tree, path: Path, labels: string, k: nat, n: nat, l: Leaf)
    requires k < n <= |t.kids|
    requires l in Leaves(t.kids[k], path + [k], labels + t.kids[k].name)
    ensures l in LeavesUpTo(t, path, labels, n)
  {
    if k < n - 1 {
      ListedUpTo(t, path, labels, k, n - 1, l);
    }
  }

  /** Nothing but leaves is listed. */
  lemma {:induction false} OnlyLeavesAreListed(t: Tree, path: Path, labels: string, l: Leaf) returns (p: Path)
    requires l in Leaves(t, path, labels)
    ensures IsLeaf(t, p) && l == LeafAt(t, path, labels, p)
    decreases t, 1, 0
  {
    if t.kids == [] {
      p := [];
      assert path + [] == path && labels + "" == labels;
    } else {
      p := OnlyLeavesUpTo(t, path, labels, |t.kids|, l);
    }
  }

  lemma {:induction false} OnlyLeavesUpTo(t: Tree, path: Path, labels: string, n: nat, l: Leaf) returns (p: Path)
    requires n <= |t.kids| && l in LeavesUpTo(t, path, labels, n)
    ensures IsLeaf(t, p) && l == LeafAt(t, path, labels, p)
    ensures t.kids != [] ==> p != [] && p[0] < n
    decreases t, 0, n
  {
    if l in LeavesUpTo(t, path, labels, n - 1) {
      p := OnlyLeavesUpTo(t, path, labels, n - 1, l);
    } else {
      var q := OnlyLeavesAreListed(t.kids[n - 1], path + [n - 1], labels + t.kids[n - 1].name, l);
      p := [n - 1] + q;
      assert p[1..] == q;
      LeafBelow(t, path, labels, p);
    }
  }

  /** The order of the rows in the window. */
  predicate Precedes(p: Path, q: Path) {
    q != [] && (p == [] || p[0] < q[0] || (p[0] == q[0] && Precedes(p[1..], q[1..])))
  }

  lemma {:induction false} PrecedesBelow(path: Path, p: Path, q: Path)
    requires Precedes(p, q)
    ensures Precedes(path + p, path + q)
  {
    if path == [] {
      assert path + p == p && path + q == q;
    } else {
      PrecedesBelow(path[1..], p, q);
      assert (path + p)[1..] == path[1..] + p && (path + q)[1..] == path[1..] + q;
    }
  }

  predicate InOrder(leaves: seq<Leaf>) {
    forall i, j :: 0 <= i < j < |leaves| ==> Precedes(leaves[i].path, leaves[j].path)
  }

  /** The leaves are listed in the order of the rows, none of them twice. */
  lemma {:induction false} LeavesAreInOrder(t: Tree, path: Path, labels: string)
    ensures InOrder(Leaves(t, path, labels))
    decreases t, 1, 0
  {
    if t.kids != [] {
      InOrderUpTo(t, path, labels, |t.kids|);
    }
  }

  lemma {:induction false} InOrderUpTo(t: Tree, path: Path, labels: string, n: nat)
    requires n <= |t.kids|
    ensures InOrder(LeavesUpTo(t, path, labels, n))
    decreases t, 0, n
  {
    if n > 0 {
      var front := LeavesUpTo(t, path, labels, n - 1);
      var below := Leaves(t.kids[n - 1], path + [n - 1], labels + t.kids[n - 1].name);
      InOrderUpTo(t, path, labels, n - 1);
      LeavesAreInOrder(t.kids[n - 1], path + [n - 1], labels + t.kids[n - 1].name);
      forall a, b | a in front && b in below
        ensures Precedes(a.path, b.path)
      {
        FrontPrecedesBelow(t, path, labels, n, a, b);
      }
      InOrderConcat(front, below);
    }
  }

  lemma FrontPrecedesBelow(t: Tree, path: Path, labels: string, n: nat, a: Leaf, b: Leaf)
    requires 0 < n <= |t.kids| && a in LeavesUpTo(t, path, labels, n - 1)
    requires b in Leaves(t.kids[n - 1], path + [n - 1], labels + t.kids[n - 1].name)
    ensures Precedes(a.path, b.path)
  {
    var p := OnlyLeavesUpTo(t, path, labels, n - 1, a);
    var q := OnlyLeavesAreListed(t.kids[n - 1], path + [n - 1], labels + t.kids[n - 1].name, b);
    PrecedesBelow(path, p, [n - 1] + q);
    assert path + ([n - 1] + q) == path + [n - 1] + q;
  }

  lemma InOrderConcat(a: seq<Leaf>, b: seq<Leaf>)
    requires InOrder(a) && InOrder(b) && forall x, y :: x in a && y in b ==> Precedes(x.path, y.path)
    ensures InOrder(a + b)
  {
  }

  // ---------------------------------------------------------------------------
  // Collection
  // ---------------------------------------------------------------------------

  /** The strings as add_quotes_to returns them. */
  function Quotes(s: seq<string>): (r: seq<string>)
    ensures |r| == |s| && forall i :: 0 <= i < |s| ==> r[i] == Quoting.UpToNul(Quoting.Quoted(s[i]))
  {
    seq(|s|, i requires 0 <= i < |s| => Quoting.UpToNul(Quoting.Quoted(s[i])))
  }

  /** What collect_indices_recursively adds for a row, given the labels down to it, before quoting. */
  function Collected(t: Tree, labels: string): seq<string>
    decreases t, 1, 0
  {
    if t.kids == [] then (if t.checked then [labels] else [])
    else CollectedUpTo(t, labels, |t.kids|)
  }

  function CollectedUpTo(t: Tree, labels: string, n: nat): seq<string>
    requires n <= |t.kids|
    decreases t, 0, n
  {
    if n == 0 then []
    else CollectedUpTo(t, labels, n - 1) + Collected(t.kids[n - 1], labels + t.kids[n - 1].name)
  }

  /** The labels of the checked leaves. */
  function Checked(leaves: seq<Leaf>): seq<string> {
    if leaves == [] then []
    else Checked(leaves[..|leaves| - 1])
         + if leaves[|leaves| - 1].checked then [leaves[|leaves| - 1].labels] else []
  }

  lemma CheckedMore(leaves: seq<Leaf>, l: Leaf)
    ensures Checked(leaves + [l]) == Checked(leaves) + if l.checked then [l.labels] else []
  {
    assert (leaves + [l])[..|leaves|] == leaves;
  }

  lemma {:induction false} CheckedConcat(a: seq<Leaf>, b: seq<Leaf>)
    ensures Checked(a + b) == Checked(a) + Checked(b)
  {
    if b == [] {
      assert a + b == a;
    } else {
      var front, last := b[..|b| - 1], b[|b| - 1];
      assert a + b == (a + front) + [last] && b == front + [last];
      CheckedConcat(a, front);
      CheckedMore(a + front, last);
      CheckedMore(front, last);
    }
  }

  /** Collection returns exactly the labels of the checked leaves, in the order of the tree. */
  lemma {:induction false} CollectsCheckedLeaves(t: Tree, path: Path, labels: string)
    ensures Collected(t, labels) == Checked(Leaves(t, path, labels))
    decreases t, 1, 0
  {
    if t.kids != [] {
      CollectsUpTo(t, path, labels, |t.kids|);
    }
  }

  lemma {:induction false} CollectsUpTo(t: Tree, path: Path, labels: string, n: nat)
    requires n <= |t.kids|
    ensures CollectedUpTo(t, labels, n) == Checked(LeavesUpTo(t, path, labels, n))
    decreases t, 0, n
  {
    if n > 0 {
      var kid := t.kids[n - 1];
      CollectsUpTo(t, path, labels, n - 1);
      CollectsCheckedLeaves(kid, path + [n - 1], labels + kid.name);
      CheckedConcat(LeavesUpTo(t, path, labels, n - 1), Leaves(kid, path + [n - 1], labels + kid.name));
    }
  }

  /** What notify_apgen collects below the first n subsystems: their rows are the resources. */
  function ResourcesUpTo(t: Tree, n: nat): seq<string>
    requires n <= |t.kids|
  {
    if n == 0 then []
    else ResourcesUpTo(t, n - 1) + CollectedUpTo(t.kids[n - 1], "", |t.kids[n - 1].kids|)
  }

  /** The leaves at or below the resource rows, labels from the resource on. */
  function ResourceLeaves(t: Tree, n: nat): seq<Leaf>
    requires n <= |t.kids|
  {
    if n == 0 then []
    else ResourceLeaves(t, n - 1) + LeavesUpTo(t.kids[n - 1], [n - 1], "", |t.kids[n - 1].kids|)
  }

  /** The window passes on the labels of exactly the checked leaves at or below resource rows. */
  lemma {:induction false} ResourcesAreCheckedLeaves(t: Tree, n: nat)
    requires n <= |t.kids|
    ensures ResourcesUpTo(t, n) == Checked(ResourceLeaves(t, n))
  {
    if n > 0 {
      var sub := t.kids[n - 1];
      ResourcesAreCheckedLeaves(t, n - 1);
      CollectsUpTo(sub, [n - 1], "", |sub.kids|);
      CheckedConcat(ResourceLeaves(t, n - 1), LeavesUpTo(sub, [n - 1], "", |sub.kids|));
    }
  }

  // ---------------------------------------------------------------------------
  // Toggling
  // ---------------------------------------------------------------------------

  function SetAll(t: Tree, v: bool): Tree
    decreases t, 1, 0
  {
    Tree(t.name, v, SetKids(t, v, |t.kids|))
  }

  function SetKids(t: Tree, v: bool, n: nat): (r: seq<Tree>)
    requires n <= |t.kids|
    ensures |r| == n && forall k :: 0 <= k < n ==> r[k] == SetAll(t.kids[k], v)
    decreases t, 0, n
  {
    if n == 0 then [] else SetKids(t, v, n - 1) + [SetAll(t.kids[n - 1], v)]
  }

  /** The row at q and everything below it take the value. */
  function SetAt(t: Tree, q: Path, v: bool): Tree {
    if q == [] then SetAll(t, v)
    else if q[0] < |t.kids| then t.(kids := t.kids[q[0] := SetAt(t.kids[q[0]], q[1..], v)])
    else t
  }

  lemma {:induction false} AfterSetAll(t: Tree, v: bool, p: Path)
    ensures IsLeaf(SetAll(t, v), p) <==> IsLeaf(t, p)
    ensures Labels(SetAll(t, v), p) == Labels(t, p)
    ensures At(t, p) != [] ==> (CheckedAt(SetAll(t, v), p) <==> v)
    ensures At(SetAll(t, v), p) == [] <==> At(t, p) == []
  {
    if p != [] && p[0] < |t.kids| {
      AfterSetAll(t.kids[p[0]], v, p[1..]);
    }
  }

  /** After a toggle the leaves under the row have the new value, all others have kept theirs, and
      rows and labels are the same. */
  lemma {:induction false} AfterToggle(t: Tree, q: Path, v: bool, p: Path)
    requires At(t, q) != []
    ensures IsLeaf(SetAt(t, q, v), p) <==> IsLeaf(t, p)
    ensures Labels(SetAt(t, q, v), p) == Labels(t, p)
    ensures At(t, p) != [] ==> (CheckedAt(SetAt(t, q, v), p) <==> if q <= p then v else CheckedAt(t, p))
  {
    if q == [] {
      AfterSetAll(t, v, p);
    } else if p != [] && p[0] == q[0] {
      assert p == [p[0]] + p[1..] && q == [q[0]] + q[1..];
      AfterToggle(t.kids[q[0]], q[1..], v, p[1..]);
    }
  }

  // ---------------------------------------------------------------------------
  // The window
  // ---------------------------------------------------------------------------

  /** A list of strings that is extended in place. */
  class Strings {
    var items: seq<string>

    constructor ()
      ensures items == []
    {
      items := [];
    }

    method PushBack(s: string)
      modifies this
      ensures items == old(items) + [s]
    {
      items := items + [s];
    }

    method PopBack()
      requires items != []
      modifies this
      ensures items == old(items)[..|old(items)| - 1]
    {
      items := items[..|items| - 1];
    }
  }

  function Concat(s: seq<string>): string {
    if s == [] then "" else Concat(s[..|s| - 1]) + s[|s| - 1]
  }

  /** A row of the tree model. */
  class Row {
    const name: string
    const children: seq<Row>
    var checked: bool

    ghost const height: nat
    ghost const repr: set<Row>

    constructor (name: string, checked: bool, children: seq<Row>)
      requires forall c <- children :: c.Valid()
      requires forall i, j :: 0 <= i < j < |children| ==> children[i].repr !! children[j].repr
      ensures Valid() && this.name == name && this.checked == checked && this.children == children
      ensures fresh(this) && repr == {this} + ReprOf(children)
    {
      this.name, this.checked, this.children := name, checked, children;
      height := 1 + MaxHeight(children);
      repr := {this} + ReprOf(children);
      new;
    }

    ghost predicate Valid()
      decreases height
    {
      && this in repr
      && (forall i :: 0 <= i < |children| ==>
            && children[i].height < height
            && children[i].repr <= repr
            && this !in children[i].repr
            && children[i].Valid())
      && (forall i, j :: 0 <= i < j < |children| ==> children[i].repr !! children[j].repr)
    }

    ghost function View(): Tree
      requires Valid()
      reads repr
      decreases height, 0
    {
      Tree(name, checked, Kids(|children|))
    }

    ghost function Kids(n: nat): (r: seq<Tree>)
      requires Valid() && n <= |children|
      reads repr
      ensures |r| == n && forall i :: 0 <= i < n ==> r[i] == children[i].View()
      decreases height, 0, n
    {
      if n == 0 then [] else Kids(n - 1) + [children[n - 1].View()]
    }

    /** propagate_new_value */
    method PropagateNewValue(v: bool)
      requires Valid()
      modifies repr`checked
      ensures View() == SetAll(old(View()), v)
      decreases height
    {
      checked := v;
      for k := 0 to |children|
        invariant checked == v
        invariant forall i :: 0 <= i < k ==> children[i].View() == SetAll(old(children[i].View()), v)
        invariant forall i :: k <= i < |children| ==> children[i].View() == old(children[i].View())
      {
        children[k].PropagateNewValue(v);
      }
      assert Kids(|children|) == SetKids(old(View()), v, |children|);
    }
  }

  ghost function ReprOf(rows: seq<Row>): (r: set<Row>)
    ensures forall i :: 0 <= i < |rows| ==> rows[i].repr <= r
  {
    set i, n | 0 <= i < |rows| && n in rows[i].repr :: n
  }

  ghost function MaxHeight(rows: seq<Row>): (m: nat)
    ensures forall i :: 0 <= i < |rows| ==> rows[i].height <= m
  {
    if rows == [] then 0
    else var m := MaxHeight(rows[1..]); if rows[0].height > m then rows[0].height else m
  }

  /** collect_indices_recursively: pieces holds the labels down to the row, and does so again afterwards. */
  method CollectIndices(row: Row, pieces: Strings, results: Strings, ghost t: Tree)
    requires row.Valid() && pieces != results && t == row.View()
    modifies pieces, results
    ensures pieces.items == old(pieces.items)
    ensures results.items == old(results.items) + Quotes(Collected(t, Concat(old(pieces.items))))
    decreases row.height, 1
  {
    if row.children == [] {
      if row.checked {
        AddPieces(pieces, results);
      }
    } else {
      CollectBelow(row, pieces, results, t);
    }
  }

  /** The loop over the rows below. */
  method CollectBelow(row: Row, pieces: Strings, results: Strings, ghost t: Tree)
    requires row.Valid() && pieces != results && t == row.View()
    modifies pieces, results
    ensures pieces.items == old(pieces.items)
    ensures results.items == old(results.items) + Quotes(CollectedUpTo(t, Concat(old(pieces.items)), |t.kids|))
    decreases row.height, 0
  {
    ghost var before, labels := pieces.items, Concat(pieces.items);
    for k := 0 to |row.children|
      invariant pieces.items == before && row.View() == t
      invariant results.items == old(results.items) + Quotes(CollectedUpTo(t, labels, k))
    {
      CollectChild(row.children[k], pieces, results, t.kids[k]);
      CollectedMore(t, labels, k, old(results.items));
    }
  }

  /** All pieces in one quoted string. */
  method AddPieces(pieces: Strings, results: Strings)
    requires pieces != results
    modifies results
    ensures results.items == old(results.items) + Quotes([Concat(pieces.items)])
  {
    var os := Concatenate(pieces.items);
    var piece := Quoting.AddQuotes(os);
    results.PushBack(piece);
  }

  /** One turn of that loop. */
  method CollectChild(child: Row, pieces: Strings, results: Strings, ghost t: Tree)
    requires child.Valid() && pieces != results && t == child.View()
    modifies pieces, results
    ensures pieces.items == old(pieces.items)
    ensures results.items == old(results.items) + Quotes(Collected(t, Concat(old(pieces.items)) + t.name))
    decreases child.height, 2
  {
    ConcatMore(pieces.items, child.name);
    pieces.PushBack(child.name);
    CollectIndices(child, pieces, results, t);
    pieces.PopBack();
  }

  lemma CollectedMore(t: Tree, labels: string, k: nat, before: seq<string>)
    requires k < |t.kids|
    ensures before + Quotes(CollectedUpTo(t, labels, k + 1))
         == before + Quotes(CollectedUpTo(t, labels, k)) + Quotes(Collected(t.kids[k], labels + t.kids[k].name))
  {
    QuotesTogether(CollectedUpTo(t, labels, k), Collected(t.kids[k], labels + t.kids[k].name), before);
  }

  lemma QuotesTogether(a: seq<string>, b: seq<string>, before: seq<string>)
    ensures before + Quotes(a + b) == before + Quotes(a) + Quotes(b)
  {
  }

  lemma ConcatMore(s: seq<string>, x: string)
    ensures Concat(s + [x]) == Concat(s) + x
  {
    assert (s + [x])[..|s|] == s;
  }

  /** The loop that writes all pieces to one stream. */
  method Concatenate(s: seq<string>) returns (r: string)
    ensures r == Concat(s)
  {
    r := "";
    for i := 0 to |s|
      invariant r == Concat(s[..i])
    {
      assert s[..i + 1][..i] == s[..i];
      r := r + s[i];
    }
    assert s[..|s|] == s;
  }

  /** notify_apgen: with the partial switch off nothing is selected. */
  method NotifyApgen(top: Row, partial: bool, results: Strings, ghost t: Tree)
    requires top.Valid() && t == top.View()
    modifies results
    ensures results.items == if partial then Quotes(ResourcesUpTo(t, |t.kids|)) else []
  {
    results.items := [];
    if partial {
      CollectAll(top, results, t);
    }
  }

  method CollectAll(top: Row, results: Strings, ghost t: Tree)
    requires top.Valid() && t == top.View()
    modifies results
    ensures results.items == old(results.items) + Quotes(ResourcesUpTo(t, |t.kids|))
  {
    for i := 0 to |top.children|
      invariant top.View() == t
      invariant results.items == old(results.items) + Quotes(ResourcesUpTo(t, i))
    {
      CollectSubsystem(top.children[i], results, t.kids[i]);
      ResourcesMore(t, i, old(results.items));
    }
  }

  lemma ResourcesMore(t: Tree, i: nat, before: seq<string>)
    requires i < |t.kids|
    ensures before + Quotes(ResourcesUpTo(t, i + 1))
         == before + Quotes(ResourcesUpTo(t, i)) + Quotes(CollectedUpTo(t.kids[i], "", |t.kids[i].kids|))
  {
    QuotesTogether(ResourcesUpTo(t, i), CollectedUpTo(t.kids[i], "", |t.kids[i].kids|), before);
  }

  method CollectSubsystem(subsystem: Row, results: Strings, ghost t: Tree)
    requires subsystem.Valid() && t == subsystem.View()
    modifies results
    ensures results.items == old(results.items) + Quotes(CollectedUpTo(t, "", |t.kids|))
  {
    for j := 0 to |subsystem.children|
      invariant subsystem.View() == t
      invariant results.items == old(results.items) + Quotes(CollectedUpTo(t, "", j))
    {
      CollectResource(subsystem.children[j], results, t.kids[j]);
      CollectedMore(t, "", j, old(results.items));
    }
  }

  method CollectResource(resource: Row, results: Strings, ghost t: Tree)
    requires resource.Valid() && t == resource.View()
    modifies results
    ensures results.items == old(results.items) + Quotes(Collected(t, "" + t.name))
  {
    var pieces := new Strings();
    ConcatMore([], resource.name);
    pieces.PushBack(resource.name);
    CollectIndices(resource, pieces, results, t);
  }

  // ---------------------------------------------------------------------------
  // A toggle, seen from the top
  // ---------------------------------------------------------------------------

  ghost function RowAt(n: Row, q: Path): (r: Row?)
    requires n.Valid()
    ensures r != null ==> r.Valid() && r.repr <= n.repr
    decreases n.height
  {
    if q == [] then n
    else if q[0] < |n.children| then RowAt(n.children[q[0]], q[1..])
    else null
  }

  twostate predicate Unchanged(rows: set<Row>)
    reads rows
  {
    forall n <- rows :: n.checked == old(n.checked)
  }

  twostate lemma {:induction false} SameView(n: Row)
    requires n.Valid() && Unchanged(n.repr)
    ensures n.View() == old(n.View())
    decreases n.height
  {
    forall i | 0 <= i < |n.children|
      ensures n.children[i].View() == old(n.children[i].View())
    {
      SameView(n.children[i]);
    }
    assert n.Kids(|n.children|) == old(n.Kids(|n.children|));
  }

  twostate lemma OtherChildren(n: Row, new k: nat)
    requires n.Valid() && k < |n.children|
    requires Unchanged(n.repr - n.children[k].repr)
    ensures forall i :: 0 <= i < |n.children| && i != k ==> n.children[i].View() == old(n.children[i].View())
  {
    forall i | 0 <= i < |n.children| && i != k
      ensures n.children[i].View() == old(n.children[i].View())
    {
      assert n.children[i].repr !! n.children[k].repr;
      SameView(n.children[i]);
    }
  }

  twostate lemma {:induction false} ViewAfterToggle(n: Row, new q: Path, new row: Row, new v: bool)
    requires n.Valid() && RowAt(n, q) == row
    requires old(allocated(row)) && row.View() == SetAll(old(row.View()), v)
    requires Unchanged(n.repr - row.repr)
    ensures n.View() == SetAt(old(n.View()), q, v)
    decreases n.height
  {
    if q != [] {
      var k := q[0];
      ViewAfterToggle(n.children[k], q[1..], row, v);
      OtherChildren(n, k);
      assert n.Kids(|n.children|) == old(n.Kids(|n.children|))[k := n.children[k].View()];
    }
  }

  /** on_cell_toggled: the row at q and everything below it take the opposite of its value. */
  method OnCellToggled(top: Row, q: Path, row: Row)
    requires top.Valid() && RowAt(top, q) == row
    modifies row.repr`checked
    ensures top.View() == SetAt(old(top.View()), q, !old(row.checked))
  {
    var v := !row.checked;
    row.PropagateNewValue(v);
    ViewAfterToggle(top, q, row, v);
  }
}
