/** The report files of the file subsystem: a table of 100 slots with the names of the
    open files and their streams, and the functions that open, write and close one. */
module ReportFiles {
  import opened ArgumentStack
  import opened Options
  import Quoting

  const SLOTS := 100

  // ---------------------------------------------------------------------------
  // Arguments
  // ---------------------------------------------------------------------------

  /** An argument: a string, or another value and the way it is written. */
  datatype Arg = TextArg(s: string) | OtherArg(printed: string)

  /** The characters that addQuotes writes for one character. */
  function Escape(c: char): string {
    if c == '\"' then ['\\', '\"']
    else if c == '\\' then ['\\', '\\']
    else if c == '\n' then ['\\', 'n']
    else [c]
  }

  function Body(s: string): string {
    if s == "" then "\"" else Body(s[..|s| - 1]) + Escape(s[|s| - 1])
  }

  /** to_string of an argument. */
  function ToString(a: Arg): string {
    match a
    case TextArg(s) => Body(s) + "\""
    case OtherArg(printed) => printed
  }

  /** What is written for an argument: strings lose the quotes again. */
  function Piece(a: Arg): string {
    if a.TextArg? then Quoting.Unquoted(ToString(a)) else ToString(a)
  }

  lemma ReadEscape(s: string, c: char)
    requires !Quoting.Escaping(s)
    ensures !Quoting.Escaping(s + Escape(c)) && Quoting.Unquoted(s + Escape(c)) == Quoting.Unquoted(s) + [c]
  {
    if c == '\"' || c == '\\' {
      Quoting.ReadPair(s, c);
    } else if c == '\n' {
      Quoting.ReadPair(s, 'n');
    } else {
      Quoting.ReadOne(s, c);
    }
  }

  lemma {:induction false} UnquotedBody(s: string)
    ensures !Quoting.Escaping(Body(s)) && Quoting.Unquoted(Body(s)) == s
  {
    if s == "" {
      Quoting.ReadOne("", '\"');
      assert "" + ['\"'] == Body("");
    } else {
      var front, c := s[..|s| - 1], s[|s| - 1];
      assert front + [c] == s;
      UnquotedBody(front);
      ReadEscape(Body(front), c);
    }
  }

  /** A string argument is written as it is, any other as it is printed. */
  lemma PieceIsText(a: Arg)
    ensures Piece(a) == match a case TextArg(s) => s case OtherArg(printed) => printed
  {
    if a.TextArg? {
      UnquotedBody(a.s);
      Quoting.ReadOne(Body(a.s), '\"');
      assert Body(a.s) + "\"" == Body(a.s) + ['\"'];
      assert Quoting.Decode(false, '\"') == "";
    }
  }

  predicate AreFragments(fragments: seq<string>, args: seq<Arg>) {
    |fragments| == |args| && forall i :: 0 <= i < |args| ==> fragments[i] == Piece(args[i])
  }

  lemma OneMoreFragment(fragments: seq<string>, all: seq<Arg>, k: nat)
    requires k < |all| && AreFragments(fragments, all[..k])
    ensures AreFragments(fragments + [Piece(all[k])], all[..k + 1])
  {
    assert all[..k + 1] == all[..k] + [all[k]];
  }

  /** The pieces of the arguments in order. */
  function Pieces(args: seq<Arg>): string {
    if args == [] then "" else Pieces(args[..|args| - 1]) + Piece(args[|args| - 1])
  }

  function Reversed<T>(s: seq<T>): (r: seq<T>)
    ensures |r| == |s|
    ensures forall i :: 0 <= i < |s| ==> r[i] == s[|s| - 1 - i]
  {
    if s == [] then [] else Reversed(s[1..]) + [s[0]]
  }

  // ---------------------------------------------------------------------------
  // The table
  // ---------------------------------------------------------------------------

  function Taken(names: seq<string>): set<string> {
    set i | 0 <= i < |names| && names[i] != "" :: names[i]
  }

  /** No open name stands in two slots. */
  predicate OneSlotEach(names: seq<string>) {
    forall i, j :: 0 <= i < j < |names| && names[i] != "" ==> names[i] != names[j]
  }

  function Free(names: seq<string>): nat {
    if names == [] then 0 else Free(names[..|names| - 1]) + if names[|names| - 1] == "" then 1 else 0
  }

  /** Names and free slots add up. */
  lemma {:induction false} TakenAndFree(names: seq<string>)
    requires OneSlotEach(names)
    ensures |Taken(names)| + Free(names) == |names|
    ensures Free(names) == 0 <==> forall i :: 0 <= i < |names| ==> names[i] != ""
  {
    if names != [] {
      var front, last := names[..|names| - 1], names[|names| - 1];
      assert names == front + [last];
      TakenAndFree(front);
      if last == "" {
        assert Taken(names) == Taken(front);
      } else {
        assert Taken(names) == Taken(front) + {last};
        assert last !in Taken(front);
      }
    }
  }

  /** The slot of a name, or the number of slots if it has none. */
  function SlotOf(names: seq<string>, n: string): (i: nat)
    ensures i <= |names|
    ensures i < |names| ==> names[i] == n
    ensures i == |names| ==> n !in names
  {
    if names == [] || names[0] == n then 0 else 1 + SlotOf(names[1..], n)
  }

  /** Every open name has a stream. */
  predicate IsTable(names: seq<string>, texts: seq<Option<string>>) {
    && |names| == |texts| == SLOTS
    && OneSlotEach(names)
    && forall i :: 0 <= i < SLOTS && names[i] != "" ==> texts[i].Some?
  }

  /** The open files and what has been written to them. */
  function OpenFiles(names: seq<string>, texts: seq<Option<string>>): map<string, string>
    requires IsTable(names, texts)
  {
    map n | n in Taken(names) :: texts[SlotOf(names, n)].value
  }

  lemma {:induction false} FirstSlot(names: seq<string>, n: string, i: nat)
    requires i < |names| && names[i] == n && n !in names[..i]
    ensures SlotOf(names, n) == i
  {
    if i > 0 {
      assert names[..i] == [names[0]] + names[1..][..i - 1];
      FirstSlot(names[1..], n, i - 1);
    }
  }

  lemma SlotIs(names: seq<string>, i: nat)
    requires OneSlotEach(names) && i < |names| && names[i] != ""
    ensures SlotOf(names, names[i]) == i
  {
    assert names[i] in names;
  }

  lemma StaysTable(names: seq<string>, texts: seq<Option<string>>, i: nat, n: string, text: Option<string>)
    requires IsTable(names, texts) && i < SLOTS
    requires n != "" ==> text.Some? && (n == names[i] || n !in names)
    ensures IsTable(names[i := n], texts[i := text])
  {
  }

  /** Where a name stands after one slot was given the name n. */
  lemma SlotAfterChange(names: seq<string>, i: nat, n: string, m: string)
    requires OneSlotEach(names) && i < |names| && OneSlotEach(names[i := n]) && m != ""
    ensures m in Taken(names[i := n]) <==> m == n || (m in Taken(names) && m != names[i])
    ensures m == n ==> SlotOf(names[i := n], m) == i
    ensures m != n && m in Taken(names) && m != names[i] ==>
              SlotOf(names[i := n], m) == SlotOf(names, m) && SlotOf(names, m) != i
  {
    var names' := names[i := n];
    assert names'[i] == n && forall k :: 0 <= k < |names| && k != i ==> names'[k] == names[k];
    if m == n {
      SlotIs(names', i);
    } else if m in Taken(names) && m != names[i] {
      SlotIs(names, SlotOf(names, m));
      SlotIs(names', SlotOf(names, m));
    }
  }

  /** The open files after one slot was given the name n. */
  function AfterChange(open0: map<string, string>, old': string, n: string, text: Option<string>): map<string, string>
    requires n != "" ==> text.Some?
  {
    if n == "" then open0 - {old'} else (open0 - {old'})[n := text.value]
  }

  predicate SameEntry(a: map<string, string>, b: map<string, string>, m: string) {
    (m in a <==> m in b) && (m in a ==> a[m] == b[m])
  }

  lemma SameEntries(a: map<string, string>, b: map<string, string>)
    requires forall m: string :: SameEntry(a, b, m)
    ensures a == b
  {
    forall m | m in a || m in b
      ensures m in a && m in b && a[m] == b[m]
    {
      assert SameEntry(a, b, m);
    }
  }

  lemma EntryAfterChange(names: seq<string>, texts: seq<Option<string>>, i: nat, n: string, text: Option<string>,
                         m: string)
    requires IsTable(names, texts) && i < SLOTS && (n != "" ==> text.Some?)
    requires IsTable(names[i := n], texts[i := text])
    ensures SameEntry(OpenFiles(names[i := n], texts[i := text]),
                      AfterChange(OpenFiles(names, texts), names[i], n, text), m)
  {
    if m != "" {
      SlotAfterChange(names, i, n, m);
    }
  }

  /** A change of one slot. */
  lemma OneSlotChanged(names: seq<string>, texts: seq<Option<string>>, i: nat, n: string, text: Option<string>)
    requires IsTable(names, texts) && i < SLOTS
    requires n != "" ==> text.Some? && (n == names[i] || n !in names)
    ensures IsTable(names[i := n], texts[i := text])
    ensures OpenFiles(names[i := n], texts[i := text]) == AfterChange(OpenFiles(names, texts), names[i], n, text)
  {
    StaysTable(names, texts, i, n, text);
    var after := OpenFiles(names[i := n], texts[i := text]);
    var expected := AfterChange(OpenFiles(names, texts), names[i], n, text);
    forall m: string
      ensures SameEntry(after, expected, m)
    {
      EntryAfterChange(names, texts, i, n, text, m);
    }
    SameEntries(after, expected);
  }

  /** The open files of a table with a free slot are fewer than the slots. */
  lemma RoomExactlyWhen(names: seq<string>, texts: seq<Option<string>>)
    requires IsTable(names, texts)
    ensures |OpenFiles(names, texts)| <= 100
    ensures |OpenFiles(names, texts)| < 100 <==> exists i :: 0 <= i < 100 && names[i] == ""
  {
    TakenAndFree(names);
    assert OpenFiles(names, texts).Keys == Taken(names);
    assert |OpenFiles(names, texts)| == |OpenFiles(names, texts).Keys|;
  }

  /** More text in one slot is more text in the file of that name, if it has one. */
  lemma MoreInSlot(names: seq<string>, before: seq<Option<string>>, j: nat, was: string, more: string,
                   after: seq<Option<string>>)
    requires IsTable(names, before) && j < SLOTS && before[j] == Some(was) && after == before[j := Some(was + more)]
    ensures IsTable(names, after)
    ensures names[j] == "" ==> OpenFiles(names, after) == OpenFiles(names, before)
    ensures names[j] != "" ==>
              && names[j] in OpenFiles(names, before) && OpenFiles(names, before)[names[j]] == was
              && OpenFiles(names, after) == OpenFiles(names, before)[names[j] := was + more]
  {
    if names[j] != "" {
      SlotIs(names, j);
    }
    assert names[j := names[j]] == names;
    OneSlotChanged(names, before, j, names[j], Some(was + more));
  }

  class Reports {
    /** ReportFileName and ReportFile; a stream is given by what was written to it. */
    const names: array<string>
    const texts: array<Option<string>>

    constructor ()
      ensures Valid() && View() == map[]
      ensures fresh(names) && fresh(texts)
    {
      names := new string[SLOTS](i => "");
      texts := new Option<string>[SLOTS](i => None);
      new;
      assert forall i :: 0 <= i < SLOTS ==> names[i] == "";
      assert Taken(names[..]) == {};
    }

    predicate Valid()
      reads names, texts
    {
      IsTable(names[..], texts[..])
    }

    ghost function View(): map<string, string>
      requires Valid()
      reads names, texts
    {
      OpenFiles(names[..], texts[..])
    }

    /** open_ReportFile: fails if the file is open already, or 100 files are. The empty name always
        fails, for free slots have that name. */
    method OpenReportFile(n: string) returns (ok: bool)
      requires Valid()
      modifies names, texts
      ensures Valid()
      ensures ok <==> n != "" && n !in old(View()) && |old(View())| < 100
      ensures View() == if ok then old(View())[n := ""] else old(View())
    {
      RoomExactlyWhen(names[..], texts[..]);
      for i := 0 to SLOTS
        invariant n !in names[..i]
      {
        if names[i] == n {
          if n != "" {
            SlotIs(names[..], i);
          }
          return false;
        }
      }
      assert names[..SLOTS] == names[..];
      ok := TakeFreeSlot(n);
    }

    /** The second half of open_ReportFile. */
    method TakeFreeSlot(n: string) returns (ok: bool)
      requires Valid() && n !in names[..]
      modifies names, texts
      ensures Valid()
      ensures ok <==> exists i :: 0 <= i < SLOTS && old(names[i]) == ""
      ensures View() == if ok then old(View())[n := ""] else old(View())
    {
      for i := 0 to SLOTS
        invariant forall k :: 0 <= k < i ==> names[k] != ""
        invariant names[..] == old(names[..]) && texts[..] == old(texts[..])
      {
        if names[i] == "" {
          assert "" in names[..];
          OneSlotChanged(names[..], texts[..], i, n, Some(""));
          names[i] := n;
          texts[i] := Some("");
          return true;
        }
      }
      return false;
    }

    /** close_ReportFile: a name that is not open is no failure. The empty name finds the first free slot and
        closes its stream once more; if no file was ever open there, there is no stream to close. */
    method CloseReportFile(n: string) returns (ok: bool)
      requires Valid()
      modifies names
      ensures Valid() && View() == old(View()) - {n}
      ensures ok <==> n != "" || old(SlotOf(names[..], "")) == SLOTS || texts[old(SlotOf(names[..], ""))].Some?
    {
      for i := 0 to SLOTS
        invariant n !in names[..i]
      {
        if names[i] == n {
          FirstSlot(names[..], n, i);
          if texts[i].None? {
            return false;
          }
          OneSlotChanged(names[..], texts[..], i, "", texts[i]);
          assert texts[..][i := texts[i]] == texts[..];
          names[i] := "";
          return true;
        }
      }
      assert names[..SLOTS] == names[..];
      ok := true;
    }

    /** The slot of the file to write to: the last one with its name. */
    method FindSlot(n: string) returns (j: int)
      requires Valid()
      ensures j == -1 ==> n !in names[..]
      ensures j != -1 ==> 0 <= j < SLOTS && names[j] == n
      ensures n != "" ==> (j != -1 <==> n in View())
    {
      j := -1;
      for i := 0 to SLOTS
        invariant j == -1 ==> n !in names[..i]
        invariant j != -1 ==> 0 <= j < i && names[j] == n
      {
        if names[i] == n {
          j := i;
        }
      }
      assert names[..SLOTS] == names[..];
    }

    /** Pop all arguments that are left and turn them into text. */
    method Fragments(args: Slst<Arg>) returns (fragments: seq<string>)
      requires args.Valid()
      modifies args
      ensures args.Valid() && args.Contents() == []
      ensures AreFragments(fragments, old(args.Contents()))
    {
      ghost var all := args.Contents();
      ghost var k := 0;
      fragments := [];
      var n := args.Size();
      while n > 0
        invariant args.Valid() && n == |args.Contents()| && k + n == |all|
        invariant args.Contents() == all[k..] && AreFragments(fragments, all[..k])
      {
        var _, s := args.PopFront();
        Popped(all, k, s, args.Contents());
        OneMoreFragment(fragments, all, k);
        fragments := fragments + [Piece(s[0])];
        k := k + 1;
        n := args.Size();
      }
      assert all[..k] == all;
    }

    /** Append the fragments to the file in slot j, the last one first. */
    method Append(j: nat, fragments: seq<string>, ghost args: seq<Arg>)
      requires Valid() && j < SLOTS && texts[j].Some?
      requires AreFragments(fragments, args)
      modifies texts
      ensures Valid()
      ensures names[j] == "" ==> View() == old(View())
      ensures names[j] != "" ==>
                && names[j] in old(View())
                && View() == old(View())[names[j] := old(View())[names[j]] + Pieces(Reversed(args))]
    {
      ghost var before, was := texts[..], texts[j].value;
      Stream(j, fragments, args);
      MoreInSlot(names[..], before, j, was, Pieces(Reversed(args)), texts[..]);
    }

    /** The loop over the fragments, from the last one to the first. */
    method Stream(j: nat, fragments: seq<string>, ghost args: seq<Arg>)
      requires j < texts.Length && texts[j].Some?
      requires AreFragments(fragments, args)
      modifies texts
      ensures texts[..] == old(texts[..])[j := Some(old(texts[j]).value + Pieces(Reversed(args)))]
    {
      ghost var was := texts[j].value;
      assert args[|args|..] == [] && was + "" == was;
      for i := |fragments| downto 0
        invariant texts[j] == Some(was + Pieces(Reversed(args[i..])))
        invariant forall k :: 0 <= k < texts.Length && k != j ==> texts[k] == old(texts[k])
      {
        OneMorePiece(args, i, was);
        texts[j] := Some(texts[j].value + fragments[i]);
      }
      assert args[0..] == args;
    }

    /** write_to_ReportFile: the front argument names the file, the others are written from the back
        of the stack to its front. The empty name finds a free slot, and writes to the closed file
        that was open there last, if any was: that succeeds and changes no open file. */
    method WriteToReportFile(args: Slst<Arg>) returns (ok: bool)
      requires Valid() && args.Valid()
      modifies args, texts
      ensures Valid() && args.Valid()
      ensures ok ==> |old(args.Contents())| >= 2 && old(args.Contents())[0].TextArg? && args.Contents() == []
      ensures |old(args.Contents())| >= 2 && old(args.Contents())[0].TextArg? && old(args.Contents())[0].s != "" ==>
                (ok <==> old(args.Contents())[0].s in old(View()))
      ensures !ok || old(args.Contents())[0].s == "" ==> View() == old(View())
      ensures ok && old(args.Contents())[0].s != "" ==>
                     var n, rest := old(args.Contents())[0].s, old(args.Contents())[1..];
                     View() == old(View())[n := old(View())[n] + Pieces(Reversed(rest))]
    {
      var size := args.Size();
      if size < 2 {
        return false;
      }
      var _, front := args.PopFront();
      assert front[0] == old(args.Contents())[0] && args.Contents() == old(args.Contents())[1..];
      if !front[0].TextArg? {
        return false;
      }
      var j := FindSlot(front[0].s);
      if j == -1 || texts[j].None? {
        return false;
      }
      ghost var rest := args.Contents();
      var fragments := Fragments(args);
      Append(j, fragments, rest);
      ok := true;
    }

    /** A call of write_to_ReportFile: the actual arguments are pushed in order, the name of the
        file last, and what is written comes out in the same order. */
    method CallWriteToReportFile(actual: seq<Arg>) returns (ok: bool)
      requires Valid()
      modifies texts
      ensures Valid()
      ensures |actual| < 2 || !actual[|actual| - 1].TextArg? ==> !ok
      ensures |actual| >= 2 && actual[|actual| - 1].TextArg? && actual[|actual| - 1].s != "" ==>
                (ok <==> actual[|actual| - 1].s in old(View()))
      ensures !ok || actual[|actual| - 1].s == "" ==> View() == old(View())
      ensures ok && actual[|actual| - 1].s != "" ==>
                     var n := actual[|actual| - 1].s;
                     View() == old(View())[n := old(View())[n] + Pieces(actual[..|actual| - 1])]
    {
      var args := new Slst<Arg>();
      for k := 0 to |actual|
        invariant args.Valid() && fresh(args)
        invariant args.Contents() == Reversed(actual[..k])
        invariant names[..] == old(names[..]) && texts[..] == old(texts[..])
      {
        PushedOnto(actual[..k], actual[k]);
        assert actual[..k + 1] == actual[..k] + [actual[k]];
        args.PushFront(actual[k]);
      }
      assert actual[..|actual|] == actual;
      if |actual| > 0 {
        ghost var front := actual[..|actual| - 1];
        PushedOnto(front, actual[|actual| - 1]);
        assert actual == front + [actual[|actual| - 1]];
        assert Reversed(actual)[1..] == Reversed(front);
        ReversedTwice(front);
      }
      ok := WriteToReportFile(args);
    }
  }

  lemma Popped<T>(all: seq<T>, k: nat, s: seq<T>, rest: seq<T>)
    requires k < |all| && all[k..] == s + rest && |s| == 1
    ensures s[0] == all[k] && rest == all[k + 1..]
  {
    assert s[0] == (s + rest)[0] && rest == (s + rest)[1..];
  }

  lemma PiecesOfMore(args: seq<Arg>, a: Arg)
    ensures Pieces(args + [a]) == Pieces(args) + Piece(a)
  {
    assert (args + [a])[..|args|] == args;
  }

  /** What two calls write is what one call with all arguments writes; one argument gives its text. */
  lemma {:induction false} PiecesTogether(a: seq<Arg>, b: seq<Arg>, c: Arg)
    ensures Pieces(a + b) == Pieces(a) + Pieces(b)
    ensures Pieces([c]) == match c case TextArg(s) => s case OtherArg(printed) => printed
    decreases |b|
  {
    PieceIsText(c);
    assert [c][..0] == [] && "" + Piece(c) == Piece(c);
    if b == [] {
      assert a + b == a;
    } else {
      assert (a + b)[..|a + b| - 1] == a + b[..|b| - 1];
      PiecesTogether(a, b[..|b| - 1], c);
      Together(Pieces(a), Pieces(b[..|b| - 1]), Piece(b[|b| - 1]));
    }
  }

  lemma OneMorePiece(args: seq<Arg>, i: nat, was: string)
    requires i < |args|
    ensures was + Pieces(Reversed(args[i..])) == was + Pieces(Reversed(args[i + 1..])) + Piece(args[i])
  {
    var later := Reversed(args[i + 1..]);
    assert args[i..][1..] == args[i + 1..];
    PiecesOfMore(later, args[i]);
    Together(was, Pieces(later), Piece(args[i]));
  }

  lemma Together(a: string, b: string, c: string)
    ensures a + (b + c) == a + b + c
  {
  }

  lemma PushedOnto<T>(s: seq<T>, x: T)
    ensures Reversed(s + [x]) == [x] + Reversed(s)
  {
  }

  lemma ReversedTwice<T>(s: seq<T>)
    ensures Reversed(Reversed(s)) == s
  {
  }
}
