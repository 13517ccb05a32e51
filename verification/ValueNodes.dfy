/** The tree of displayed values (gS::indexed_string_or_list and its two
    subclasses) and its printing under a character budget. */
module ValueNodes {
  import Quoting

  /** The value a node stands for: a string, or a list whose items may carry labels. */
  datatype Value =
    | Str(key: string, text: string)
    | Arr(key: string, labels: bool, items: seq<Value>)

  // ---------------------------------------------------------------------------
  // The unlimited print
  // ---------------------------------------------------------------------------

  function Prefix(labels: bool, key: string): string {
    if labels then Quoting.UpToNul(Quoting.Quoted(key)) + " = " else ""
  }

  function Full(v: Value): string
    decreases v, 1
  {
    match v
    case Str(_, text) => text
    case Arr(_, labels, items) => "[" + FullFrom(v, 0)
  }

  /** What remains to be printed of a list from item k on, closing bracket included. */
  function FullFrom(v: Value, k: nat): (r: string)
    requires v.Arr? && k <= |v.items|
    ensures r != ""
    decreases v, 0, |v.items| - k
  {
    if k == |v.items| then "]"
    else Item(v, k) + FullFrom(v, k + 1)
  }

  function Item(v: Value, k: nat): string
    requires v.Arr? && k < |v.items|
    decreases v, 0, 0
  {
    Prefix(v.labels, v.items[k].key) + Full(v.items[k]) + Separator(v, k)
  }

  function Separator(v: Value, k: nat): string
    requires v.Arr? && k < |v.items|
  {
    if k + 1 < |v.items| then ", " else ""
  }

  // ---------------------------------------------------------------------------
  // Output buffer and budget
  // ---------------------------------------------------------------------------

  /** buf_struct: concatenate appends, initialize_buf_struct empties. */
  class Buffer {
    var text: string

    constructor ()
      ensures text == ""
    {
      text := "";
    }

    method Concatenate(addendum: string)
      modifies this
      ensures text == old(text) + addendum
    {
      text := text + addendum;
    }
  }

  /** gS::compact_int: an integer, or infinity, that is decremented in place. */
  class CompactInt {
    var i: int
    var isInfinite: bool

    constructor Finite(j: int)
      ensures i == j && !isInfinite
    {
      i, isInfinite := j, false;
    }

    constructor Infinite()
      ensures isInfinite
    {
      i, isInfinite := 0, true;
    }

    predicate LessThan(k: int)
      reads this
    {
      !isInfinite && i < k
    }

    method Subtract(k: int)
      modifies this
      ensures isInfinite == old(isInfinite)
      ensures i == if isInfinite then old(i) else old(i) - k
    {
      if !isInfinite {
        i := i - k;
      }
    }

    ghost predicate Usable()
      reads this
    {
      isInfinite || i >= 0
    }

    ghost function Limit(): Budget
      reads this
      requires Usable()
    {
      if isInfinite then Unlimited else AtMost(i)
    }
  }

  /** What a CompactInt allows: so many more characters, or any number. */
  datatype Budget = Unlimited | AtMost(n: nat) {
    predicate Admits(s: string) {
      Unlimited? || |s| <= n
    }

    function Cut(s: string): string {
      if Admits(s) then s else s[..n]
    }

    function Minus(s: string): Budget
      requires Admits(s)
    {
      if Unlimited? then Unlimited else AtMost(n - |s|)
    }
  }

  /** The buffer and the budget after printing s, from a buffer that held base and a budget m. */
  ghost predicate Printed(b: Buffer, maxLength: CompactInt, base: string, m: Budget, s: string)
    reads b, maxLength
  {
    && maxLength.Usable()
    && b.text == base + m.Cut(s)
    && (m.Admits(s) ==> maxLength.Limit() == m.Minus(s))
  }

  /** A print that no longer fits is cut at the same place however long it gets. */
  lemma CutIsFinal(m: Budget, s: string, t: string)
    requires !m.Admits(s) && s <= t
    ensures !m.Admits(t) && m.Cut(s) == m.Cut(t)
  {
  }

  /** Append a piece if the budget allows it, otherwise as much of it as fits
      (the copy made with strncpy), and say which. */
  method ConcatenateWithin(b: Buffer, maxLength: CompactInt, piece: string,
                           ghost base: string, ghost m: Budget, ghost s: string)
    returns (truncated: bool)
    requires Printed(b, maxLength, base, m, s) && m.Admits(s)
    modifies b, maxLength
    ensures Printed(b, maxLength, base, m, s + piece)
    ensures truncated == !m.Admits(s + piece)
  {
    var l := |piece|;
    if maxLength.LessThan(l) {
      assert (s + piece)[..m.n] == s + piece[..m.n - |s|];
      b.Concatenate(piece[..maxLength.i]);
      return true;
    }
    b.Concatenate(piece);
    maxLength.Subtract(l);
    return false;
  }

  /** The label of an item and the equal sign after it, if the list has labels. */
  method TransferPrefix(key: string, hasLabels: bool, b: Buffer, maxLength: CompactInt,
                        ghost base: string, ghost m: Budget, ghost s: string)
    returns (truncated: bool, ghost e: string)
    requires Printed(b, maxLength, base, m, s) && m.Admits(s)
    modifies b, maxLength
    ensures Printed(b, maxLength, base, m, e) && truncated == !m.Admits(e)
    ensures e <= s + Prefix(hasLabels, key) && (!truncated ==> e == s + Prefix(hasLabels, key))
  {
    e := s;
    if !hasLabels {
      return false, e;
    }
    var quoted := Quoting.AddQuotes(key);
    assert s + Prefix(hasLabels, key) == (s + quoted) + " = ";
    truncated := ConcatenateWithin(b, maxLength, quoted, base, m, s);
    e := s + quoted;
    if !truncated {
      truncated := ConcatenateWithin(b, maxLength, " = ", base, m, e);
      e := e + " = ";
    }
  }

  /** A print that is part of p is part of p and what follows it. */
  lemma Extends(e: string, p: string, rest: string)
    requires e <= p
    ensures e <= p + rest
  {
  }

  lemma FirstOf(e: string, rest: string)
    requires rest != ""
    ensures e + rest[..1] <= e + rest
  {
    assert e + rest == e + rest[..1] + rest[1..];
  }

  /** With nothing left of the budget the print has been cut, whatever comes next. */
  lemma BudgetUsedUp(b: Buffer, maxLength: CompactInt, base: string, m: Budget, s: string, t: string)
    requires Printed(b, maxLength, base, m, s) && m.Admits(s) && maxLength.LessThan(1) && t != ""
    ensures Printed(b, maxLength, base, m, s + t) && !m.Admits(s + t)
  {
    assert m.n == |s| && (s + t)[..m.n] == s;
  }

  /** The end of a list: a loop stopped by an empty budget, or the closing bracket, where rest is
      what was still to be printed. */
  method CloseList(b: Buffer, maxLength: CompactInt, ghost base: string, ghost m: Budget, ghost s: string,
                   ghost rest: string)
    returns (truncated: bool, ghost e: string)
    requires Printed(b, maxLength, base, m, s) && m.Admits(s)
    requires rest != "" && (rest == "]" || maxLength.LessThan(1))
    modifies b, maxLength
    ensures Printed(b, maxLength, base, m, e) && truncated == !m.Admits(e)
    ensures e <= s + rest && (!truncated ==> e == s + rest)
  {
    if maxLength.LessThan(1) {
      BudgetUsedUp(b, maxLength, base, m, s, rest[..1]);
      FirstOf(s, rest);
      return true, s + rest[..1];
    }
    truncated := ConcatenateWithin(b, maxLength, "]", base, m, s);
    e := s + "]";
  }

  // ---------------------------------------------------------------------------
  // Nodes
  // ---------------------------------------------------------------------------

  /** de_facto_string and de_facto_array. The shape of a tree never changes while
      it is displayed; only the contents of its strings do. */
  class Node {
    const key: string
    const isList: bool
    const hasLabels: bool
    const children: seq<Node>
    var contents: string

    ghost const height: nat
    ghost const repr: set<Node>

    constructor String(key: string, contents: string)
      ensures Valid() && fresh(repr) && !isList
      ensures View() == Str(key, contents)
    {
      this.key, this.contents := key, contents;
      isList, hasLabels, children := false, false, [];
      height, repr := 0, {this};
    }

    constructor List(key: string, hasLabels: bool, children: seq<Node>)
      requires forall c <- children :: c.Valid()
      requires Disjoint(children)
      ensures Valid() && this.key == key && isList && this.hasLabels == hasLabels && this.children == children
      ensures fresh(this) && repr == {this} + ReprOf(children)
    {
      this.key, this.hasLabels, this.children := key, hasLabels, children;
      isList, contents := true, "";
      height := 1 + MaxHeight(children);
      repr := {this} + ReprOf(children);
      new;
    }

    ghost predicate Valid()
      decreases height
    {
      && this in repr
      && (!isList ==> children == [] && repr == {this})
      && (forall i :: 0 <= i < |children| ==>
            && children[i].height < height
            && children[i].repr <= repr
            && this !in children[i].repr
            && children[i].Valid())
      && Disjoint(children)
    }

    /** The value held by the tree under this node. */
    ghost function View(): Value
      requires Valid()
      reads repr
      decreases height, 0
    {
      if isList then Arr(key, hasLabels, Views(0)) else Str(key, contents)
    }

    ghost function Views(k: nat): (r: seq<Value>)
      requires Valid() && k <= |children|
      reads repr
      ensures |r| == |children| - k
      ensures forall i :: 0 <= i < |r| ==> r[i] == children[k + i].View()
      decreases height, 0, |children| - k
    {
      if k == |children| then [] else [children[k].View()] + Views(k + 1)
    }

    /** A copy that shares no node with the original. */
    method Copy() returns (c: Node)
      requires Valid()
      ensures c.Valid() && fresh(c.repr)
      ensures c.View() == View() && c.key == key && c.isList == isList && |c.children| == |children|
      decreases height
    {
      if !isList {
        c := new Node.String(key, contents);
        return;
      }
      var copies: seq<Node> := [];
      ghost var made: set<Node> := {};
      for k := 0 to |children|
        invariant |copies| == k && fresh(made)
        invariant forall i :: 0 <= i < k ==>
                    copies[i].Valid() && copies[i].repr <= made && copies[i].View() == children[i].View()
        invariant Disjoint(copies)
      {
        var element := children[k].Copy();
        copies := copies + [element];
        made := made + element.repr;
      }
      assert ReprOf(copies) <= made;
      c := new Node.List(key, hasLabels, copies);
      SameViews(c, this);
    }

    /** Strings take the new text; lists ignore it. */
    method SetStringTo(text: string)
      modifies this`contents
      ensures contents == if isList then old(contents) else text
    {
      if !isList {
        contents := text;
      }
    }

    /** Print the value; returns true exactly when the print is cut by the budget. */
    method TransferToStream(b: Buffer, maxLength: CompactInt) returns (truncated: bool)
      requires Valid() && maxLength.Usable()
      modifies b, maxLength
      ensures truncated == !old(maxLength.Limit()).Admits(Full(View()))
      ensures b.text == old(b.text) + old(maxLength.Limit()).Cut(Full(View()))
      ensures !truncated ==> maxLength.Usable() && maxLength.Limit() == old(maxLength.Limit()).Minus(Full(View()))
    {
      ghost var m, full := maxLength.Limit(), Full(View());
      ghost var e;
      truncated, e := TransferOnto(View(), b, maxLength, b.text, m, "");
      assert "" + full == full;
      if truncated {
        CutIsFinal(m, e, full);
      }
    }

    /** The same, as the continuation of a print that has produced s so far. */
    method TransferOnto(ghost v: Value, b: Buffer, maxLength: CompactInt,
                        ghost base: string, ghost m: Budget, ghost s: string)
      returns (truncated: bool, ghost e: string)
      requires Valid() && v == View() && Printed(b, maxLength, base, m, s) && m.Admits(s)
      modifies b, maxLength
      ensures Printed(b, maxLength, base, m, e) && truncated == !m.Admits(e)
      ensures e <= s + Full(v) && (!truncated ==> e == s + Full(v))
      decreases height, 1
    {
      if !isList {
        truncated := ConcatenateWithin(b, maxLength, contents, base, m, s);
        e := s + contents;
        return;
      }
      truncated := ConcatenateWithin(b, maxLength, "[", base, m, s);
      if truncated {
        return true, s + "[";
      }
      truncated, e := TransferItems(v, b, maxLength, base, m, s + "[");
      assert s + Full(v) == s + "[" + FullFrom(v, 0);
    }

    /** The items of a list and its closing bracket. */
    method TransferItems(ghost v: Value, b: Buffer, maxLength: CompactInt,
                         ghost base: string, ghost m: Budget, ghost s: string)
      returns (truncated: bool, ghost e: string)
      requires Valid() && v == View() && isList && Printed(b, maxLength, base, m, s) && m.Admits(s)
      modifies b, maxLength
      ensures Printed(b, maxLength, base, m, e) && truncated == !m.Admits(e)
      ensures e <= s + FullFrom(v, 0) && (!truncated ==> e == s + FullFrom(v, 0))
      decreases height, 0, 1
    {
      ghost var all := s + FullFrom(v, 0);
      var k := 0;
      e := s;
      while k < |children| && !maxLength.LessThan(1)
        invariant 0 <= k <= |children| && View() == v
        invariant all == e + FullFrom(v, k)
        invariant Printed(b, maxLength, base, m, e) && m.Admits(e)
      {
        OneItem(v, k, e, Item(v, k), FullFrom(v, k + 1));
        ghost var printed := e + Item(v, k);
        truncated, e := TransferItem(v, k, b, maxLength, base, m, e);
        if truncated {
          Extends(e, printed, FullFrom(v, k + 1));
          return;
        }
        k := k + 1;
      }
      truncated, e := CloseList(b, maxLength, base, m, e, FullFrom(v, k));
    }

    /** The body of the loop over the items: label, value and separator. */
    method TransferItem(ghost v: Value, k: nat, b: Buffer, maxLength: CompactInt,
                        ghost base: string, ghost m: Budget, ghost s: string)
      returns (truncated: bool, ghost e: string)
      requires Valid() && v == View() && isList && k < |children|
      requires Printed(b, maxLength, base, m, s) && m.Admits(s)
      modifies b, maxLength
      ensures Printed(b, maxLength, base, m, e) && truncated == !m.Admits(e)
      ensures e <= s + Item(v, k) && (!truncated ==> e == s + Item(v, k))
      decreases height, 0, 0
    {
      ghost var prefix, full, separator := Prefix(hasLabels, children[k].key), Full(v.items[k]), Separator(v, k);
      ItemParts(v, k, s, prefix, full, separator);
      assert children[k].View() == v.items[k];
      truncated, e := TransferPrefix(children[k].key, hasLabels, b, maxLength, base, m, s);
      if truncated {
        Extends(e, s + prefix, full + separator);
        return;
      }
      truncated, e := children[k].TransferOnto(v.items[k], b, maxLength, base, m, e);
      if truncated {
        Extends(e, s + prefix + full, separator);
        return;
      }
      if k + 1 < |children| {
        truncated := ConcatenateWithin(b, maxLength, ", ", base, m, e);
        e := e + separator;
      }
    }
  }

  lemma OneItem(v: Value, k: nat, s: string, item: string, rest: string)
    requires v.Arr? && k < |v.items| && item == Item(v, k) && rest == FullFrom(v, k + 1)
    ensures s + FullFrom(v, k) == (s + item) + rest
  {
  }

  lemma ItemParts(v: Value, k: nat, s: string, prefix: string, full: string, separator: string)
    requires v.Arr? && k < |v.items|
    requires prefix == Prefix(v.labels, v.items[k].key) && full == Full(v.items[k]) && separator == Separator(v, k)
    ensures s + Item(v, k) == s + prefix + full + separator == s + prefix + (full + separator)
  {
  }

  lemma SameViews(c: Node, n: Node)
    requires c.Valid() && n.Valid() && c.isList && n.isList && |c.children| == |n.children|
    requires c.key == n.key && c.hasLabels == n.hasLabels
    requires forall i :: 0 <= i < |n.children| ==> c.children[i].View() == n.children[i].View()
    ensures c.View() == n.View()
  {
    assert c.Views(0) == n.Views(0);
  }

  ghost predicate Disjoint(nodes: seq<Node>) {
    forall i, j :: 0 <= i < j < |nodes| ==> nodes[i].repr !! nodes[j].repr
  }

  ghost function ReprOf(nodes: seq<Node>): (r: set<Node>)
    ensures forall i :: 0 <= i < |nodes| ==> nodes[i].repr <= r
  {
    set i, n | 0 <= i < |nodes| && n in nodes[i].repr :: n
  }

  ghost function MaxHeight(nodes: seq<Node>): (m: nat)
    ensures forall i :: 0 <= i < |nodes| ==> nodes[i].height <= m
  {
    if nodes == [] then 0
    else var m := MaxHeight(nodes[1..]); if nodes[0].height > m then nodes[0].height else m
  }
}
