/** What the print of a displayed value tells of the value. */
module Prints {
  import opened EditorRows
  import opened Options
  import opened ValueNodes
  import Quoting

  // ---------------------------------------------------------------------------
  // The parts of a list
  // ---------------------------------------------------------------------------

  /** The parts with a comma and a blank between them. */
  function Join(parts: seq<string>): string {
    if parts == [] then ""
    else if |parts| == 1 then parts[0]
    else parts[0] + ", " + Join(parts[1..])
  }

  /** The pieces of a text between commas that are followed by a blank. */
  function Split(s: string): (r: seq<string>)
    ensures r != []
  {
    if |s| < 2 then [s]
    else if s[0] == ',' && s[1] == ' ' then [""] + Split(s[2..])
    else
      var r := Split(s[1..]);
      [[s[0]] + r[0]] + r[1..]
  }

  lemma {:induction false} SplitFirst(a: string, rest: string)
    requires ',' !in a
    ensures Split(a + ", " + rest) == [a] + Split(rest)
    decreases |a|
  {
    var s := a + ", " + rest;
    if a == "" {
      assert s[2..] == rest;
    } else {
      SplitFirst(a[1..], rest);
      assert s[1..] == a[1..] + ", " + rest && s[0] == a[0];
      assert [a[0]] + a[1..] == a;
    }
  }

  lemma {:induction false} SplitWhole(a: string)
    requires ',' !in a
    ensures Split(a) == [a]
  {
    if |a| >= 2 {
      SplitWhole(a[1..]);
      assert [a[0]] + a[1..] == a;
    }
  }

  /** Parts without commas can be read back. */
  lemma {:induction false} SplitOfJoin(parts: seq<string>)
    requires parts != [] && forall p <- parts :: ',' !in p
    ensures Split(Join(parts)) == parts
  {
    if |parts| == 1 {
      SplitWhole(parts[0]);
    } else {
      SplitFirst(parts[0], Join(parts[1..]));
      SplitOfJoin(parts[1..]);
    }
  }

  /** An item with its quoted label, if the list has labels. */
  function Part(labels: bool, item: Value): string {
    if labels then Quoting.UpToNul(Quoting.Quoted(item.key)) + " = " + Full(item) else Full(item)
  }

  function Parts(v: Value, k: nat): (r: seq<string>)
    requires v.Arr? && k <= |v.items|
    ensures |r| == |v.items| - k
    ensures forall i :: 0 <= i < |r| ==> r[i] == Part(v.labels, v.items[k + i])
  {
    seq(|v.items| - k, i requires 0 <= i < |v.items| - k => Part(v.labels, v.items[k + i]))
  }

  lemma Regrouped(a: string, b: string, c: string)
    ensures (a + b) + c == a + (b + c)
  {
  }

  lemma PartsFrom(v: Value, k: nat)
    requires v.Arr? && k < |v.items|
    ensures Parts(v, k)[1..] == Parts(v, k + 1) && Parts(v, k)[0] == Part(v.labels, v.items[k])
    ensures Item(v, k) == Part(v.labels, v.items[k]) + Separator(v, k)
  {
    assert !v.labels ==> "" + Full(v.items[k]) == Full(v.items[k]);
  }

  lemma JoinFirst(parts: seq<string>)
    requires parts != []
    ensures Join(parts) == (parts[0] + if |parts| > 1 then ", " else "") + Join(parts[1..])
  {
    if |parts| == 1 {
      assert parts[0] + "" == parts[0] && parts[0] + "" + "" == parts[0];
    }
  }

  lemma {:induction false} RestIsJoined(v: Value, k: nat)
    requires v.Arr? && k <= |v.items|
    ensures FullFrom(v, k) == Join(Parts(v, k)) + "]"
    decreases |v.items| - k
  {
    if k < |v.items| {
      RestIsJoined(v, k + 1);
      PartsFrom(v, k);
      JoinFirst(Parts(v, k));
      Regrouped(Item(v, k), Join(Parts(v, k + 1)), "]");
    }
  }

  /** The print of a list: its parts between brackets. */
  lemma PrintIsJoined(v: Value)
    requires v.Arr?
    ensures Full(v) == "[" + Join(Parts(v, 0)) + "]"
  {
    RestIsJoined(v, 0);
  }

  /** Without commas in its parts, a list can be read back part by part. */
  lemma PrintReadsBack(v: Value, inner: string)
    requires v.Arr? && v.items != [] && forall i :: 0 <= i < |v.items| ==> ',' !in Part(v.labels, v.items[i])
    requires Full(v) == "[" + inner + "]"
    ensures Split(inner) == Parts(v, 0)
  {
    PrintIsJoined(v);
    assert inner == Full(v)[1..|Full(v)| - 1] == Join(Parts(v, 0));
    SplitOfJoin(Parts(v, 0));
  }

  // ---------------------------------------------------------------------------
  // Prints that are alike
  // ---------------------------------------------------------------------------

  /** No text in the value can be taken for part of a list: none is empty, holds a comma or a closing bracket,
      or starts like a list or a label; and no label is cut at a NUL. */
  predicate Clean(v: Value)
    decreases v
  {
    match v
    case Str(_, text) => text != "" && ',' !in text && ']' !in text && text[0] != '[' && text[0] != '\"'
    case Arr(_, labels, items) =>
      forall i :: 0 <= i < |items| ==> Clean(items[i]) && (labels ==> '\0' !in items[i].key)
  }

  /** The same texts and labels in the same lists. */
  predicate Same(v: Value, w: Value)
    decreases v
  {
    match v
    case Str(_, text) => w.Str? && w.text == text
    case Arr(_, labels, items) =>
      && w.Arr? && |w.items| == |items| && (items != [] ==> w.labels == labels)
      && forall i :: 0 <= i < |items| ==> Same(items[i], w.items[i]) && (labels ==> w.items[i].key == items[i].key)
  }

  /** What may follow a value. */
  predicate Ends(rest: string) {
    rest == "" || rest[0] == ',' || rest[0] == ']'
  }

  lemma TextReaches(a: string, b: string, r: string, r': string)
    requires ',' !in b && ']' !in b && Ends(r) && a + r == b + r'
    ensures |b| <= |a|
  {
    assert r != "" ==> (a + r)[|a|] == r[0];
    assert forall i :: 0 <= i < |b| ==> (b + r')[i] == b[i];
  }

  lemma TextsApart(a: string, b: string, r: string, r': string)
    requires ',' !in a && ']' !in a && ',' !in b && ']' !in b && Ends(r) && Ends(r') && a + r == b + r'
    ensures a == b && r == r'
  {
    TextReaches(a, b, r, r');
    TextReaches(b, a, r', r);
    assert a == (a + r)[..|a|] && r == (a + r)[|a|..];
    assert b == (b + r')[..|b|] && r' == (b + r')[|b|..];
  }

  lemma FirstChar(v: Value)
    requires Clean(v)
    ensures Full(v) != "" && Full(v)[0] != ',' && Full(v)[0] != ']' && Full(v)[0] != '\"'
    ensures v.Arr? <==> Full(v)[0] == '['
  {
  }

  /** A quoted label ends at its second bare quotation mark. */
  lemma QuotedIsNoPrefix(a: string, b: string, p: string, q: string)
    requires p == Quoting.Quoted(a) && q == Quoting.Quoted(b) && |p| <= |q| && p == q[..|p|]
    ensures p == q
  {
    var i := |p| - 1;
    Quoting.BareQuotesAreTheEnds(a, i);
    assert p[..i] == q[..i] && p[i] == q[i];
    Quoting.BareQuotesAreTheEnds(b, i);
  }

  lemma QuotedApart(a: string, b: string, p: string, q: string, r: string, r': string)
    requires p == Quoting.Quoted(a) && q == Quoting.Quoted(b) && p + r == q + r'
    ensures |q| <= |p|
  {
    if |p| <= |q| {
      assert p == (p + r)[..|p|] == (q + r')[..|p|] == q[..|p|];
      QuotedIsNoPrefix(a, b, p, q);
    }
  }

  lemma UnquotedQuoted(s: string)
    ensures Quoting.Unquoted(Quoting.Quoted(s)) == s
  {
    Quoting.UnquotedBody(s);
    Quoting.ReadOne(Quoting.Body(s), '\"');
    assert s + [] == s;
  }

  lemma SameLength(p: string, q: string, r: string, r': string)
    requires p + r == q + r' && |p| == |q|
    ensures p == q && r == r'
  {
    assert p == (p + r)[..|p|] && r == (p + r)[|p|..];
    assert q == (q + r')[..|q|] && r' == (q + r')[|q|..];
  }

  lemma LabelsApart(a: string, b: string, r: string, r': string)
    requires '\0' !in a && '\0' !in b && Prefix(true, a) + r == Prefix(true, b) + r'
    ensures a == b && r == r'
  {
    Quoting.QuotedWhole(a);
    Quoting.QuotedWhole(b);
    var p, q, equals := Quoting.Quoted(a), Quoting.Quoted(b), " = ";
    Regrouped(p, equals, r);
    Regrouped(q, equals, r');
    QuotedApart(a, b, p, q, equals + r, equals + r');
    QuotedApart(b, a, q, p, equals + r', equals + r);
    SameLength(p, q, equals + r, equals + r');
    SameLength(equals, equals, r, r');
    UnquotedQuoted(a);
    UnquotedQuoted(b);
  }

  /** What follows an item of a list. */
  function AfterItem(v: Value, k: nat): (r: string)
    requires v.Arr? && k < |v.items|
    ensures r != "" && r[0] == if k + 1 < |v.items| then ',' else ']'
  {
    Separator(v, k) + FullFrom(v, k + 1)
  }

  lemma AllRegrouped(prefix: string, full: string, separator: string, more: string, r: string)
    ensures ((prefix + full + separator) + more) + r == prefix + (full + ((separator + more) + r))
    ensures (separator + more) + r == separator + (more + r)
  {
    Regrouped(prefix + full + separator, more, r);
    Regrouped(prefix + full, separator, more + r);
    Regrouped(prefix, full, separator + (more + r));
    Regrouped(separator, more, r);
  }

  lemma ItemAndRest(v: Value, k: nat, r: string, rest: string)
    requires v.Arr? && k < |v.items| && rest == AfterItem(v, k) + r
    ensures FullFrom(v, k) + r == Prefix(v.labels, v.items[k].key) + (Full(v.items[k]) + rest)
    ensures Ends(rest) && (rest[0] == ',' <==> k + 1 < |v.items|)
    ensures rest == Separator(v, k) + (FullFrom(v, k + 1) + r)
  {
    AllRegrouped(Prefix(v.labels, v.items[k].key), Full(v.items[k]), Separator(v, k), FullFrom(v, k + 1), r);
  }

  /** How the rest of a list starts: with a bracket only if nothing is left. */
  lemma FirstOfRest(v: Value, k: nat, r: string)
    requires v.Arr? && Clean(v) && k <= |v.items|
    ensures (FullFrom(v, k) + r)[0] == ']' <==> k == |v.items|
    ensures k < |v.items| ==> (v.labels <==> (FullFrom(v, k) + r)[0] == '\"')
  {
    if k < |v.items| {
      FirstChar(v.items[k]);
      ItemAndRest(v, k, r, AfterItem(v, k) + r);
      if v.labels {
        Quoting.QuotedWhole(v.items[k].key);
        Quoting.StartsWithQuote(v.items[k].key);
      }
    }
  }

  /** Lists that print alike from an item on are the same from there on. */
  lemma {:induction false} ItemsApart(v: Value, w: Value, k: nat, r: string, r': string)
    requires v.Arr? && w.Arr? && Clean(v) && Clean(w) && k <= |v.items| && k <= |w.items|
    requires FullFrom(v, k) + r == FullFrom(w, k) + r' && Ends(r) && Ends(r')
    ensures |v.items| == |w.items| && r == r' && (k < |v.items| ==> v.labels == w.labels)
    ensures forall i :: k <= i < |v.items| ==>
              Same(v.items[i], w.items[i]) && (v.labels ==> v.items[i].key == w.items[i].key)
    decreases v, 0, |v.items| - k
  {
    FirstOfRest(v, k, r);
    FirstOfRest(w, k, r');
    if k == |v.items| {
      assert r == ("]" + r)[1..] == ("]" + r')[1..] == r';
    } else {
      var rest, rest' := AfterItem(v, k) + r, AfterItem(w, k) + r';
      ItemAndRest(v, k, r, rest);
      ItemAndRest(w, k, r', rest');
      SameItem(v, w, k, rest, rest');
      var more, more' := FullFrom(v, k + 1) + r, FullFrom(w, k + 1) + r';
      assert more == rest[|Separator(v, k)|..] && more' == rest'[|Separator(w, k)|..];
      ItemsApart(v, w, k + 1, r, r');
    }
  }

  lemma {:induction false} SameItem(v: Value, w: Value, k: nat, rest: string, rest': string)
    requires v.Arr? && w.Arr? && Clean(v) && Clean(w) && k < |v.items| && k < |w.items| && v.labels == w.labels
    requires Prefix(v.labels, v.items[k].key) + (Full(v.items[k]) + rest)
          == Prefix(w.labels, w.items[k].key) + (Full(w.items[k]) + rest')
    requires Ends(rest) && Ends(rest')
    ensures Same(v.items[k], w.items[k]) && rest == rest' && (v.labels ==> v.items[k].key == w.items[k].key)
    decreases v, 0, 0
  {
    var p, q := Full(v.items[k]) + rest, Full(w.items[k]) + rest';
    if v.labels {
      LabelsApart(v.items[k].key, w.items[k].key, p, q);
    } else {
      assert "" + p == p && "" + q == q;
    }
    ValuesApart(v.items[k], w.items[k], rest, rest');
  }

  lemma {:induction false} ValuesApart(v: Value, w: Value, r: string, r': string)
    requires Clean(v) && Clean(w) && Ends(r) && Ends(r') && Full(v) + r == Full(w) + r'
    ensures Same(v, w) && r == r'
    decreases v, 1, 0
  {
    FirstChar(v);
    FirstChar(w);
    assert (Full(v) + r)[0] == Full(v)[0] && (Full(w) + r')[0] == Full(w)[0];
    if v.Str? {
      TextsApart(v.text, w.text, r, r');
    } else {
      var p, q := FullFrom(v, 0) + r, FullFrom(w, 0) + r';
      assert p == (Full(v) + r)[1..] && q == (Full(w) + r')[1..];
      ItemsApart(v, w, 0, r, r');
    }
  }

  lemma {:induction false} SamePrint(v: Value, w: Value)
    requires Same(v, w)
    ensures Full(v) == Full(w)
    decreases v, 1, 0
  {
    if v.Arr? {
      SameRest(v, w, 0);
    }
  }

  lemma {:induction false} SameRest(v: Value, w: Value, k: nat)
    requires v.Arr? && Same(v, w) && k <= |v.items|
    ensures FullFrom(v, k) == FullFrom(w, k)
    decreases v, 0, |v.items| - k
  {
    if k < |v.items| {
      SamePrint(v.items[k], w.items[k]);
      SameRest(v, w, k + 1);
    }
  }

  /** Values with clean texts print alike exactly if they hold the same texts and labels in the same lists. */
  lemma PrintsAlikeExactlyWhen(v: Value, w: Value)
    requires Clean(v) && Clean(w)
    ensures Full(v) == Full(w) <==> Same(v, w)
  {
    if Full(v) == Full(w) {
      assert Full(v) + "" == Full(v) && Full(w) + "" == Full(w);
      ValuesApart(v, w, "", "");
    } else if Same(v, w) {
      SamePrint(v, w);
    }
  }

  /** So two rows of lists that are not cut show the same exactly if the lists are the same. */
  lemma RowsAlikeExactlyWhen(rows: map<Path, Row>, all: Value, p: Path, q: Path, v: Value, w: Value)
    requires IsRebuild(rows, all) && |p| >= 2 && |q| >= 2
    requires ValueAt(all, p) == Some(v) && ValueAt(all, q) == Some(w) && Clean(v) && Clean(w)
    requires v.Arr? && w.Arr? && |Full(v)| <= 128 && |Full(w)| <= 128
    ensures p in rows && q in rows && (rows[p].value == rows[q].value <==> Same(v, w))
  {
    RowsShow(rows, all, p, v);
    RowsShow(rows, all, q, w);
    PrintsAlikeExactlyWhen(v, w);
  }

  /** An empty text is not clean: the list of it prints like the empty list. */
  lemma EmptyTextIsLost(key: string, other: string)
    ensures Full(Arr(key, false, [Str(other, "")])) == Full(Arr(key, false, [])) == "[]"
  {
    var one, none := Arr(key, false, [Str(other, "")]), Arr(key, false, []);
    PrintIsJoined(one);
    PrintIsJoined(none);
    assert Parts(one, 0) == [""];
  }
}
