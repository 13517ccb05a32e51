/** Quoting of labels and strings in the editor: gS::add_quotes_to and
    gS::remove_quotes_from, both of which fill a malloc'd character array and
    then read it back as a C string. */
module Quoting {

  /** What a C string keeps of a character buffer: everything before the first NUL. */
  function UpToNul(s: string): (r: string)
    ensures r <= s && '\0' !in r
    ensures r == s || s[|r|] == '\0'
  {
    if s == [] || s[0] == '\0' then [] else [s[0]] + UpToNul(s[1..])
  }

  /** The characters written for one input character. */
  function Escape(c: char): (r: string)
    ensures 1 <= |r| <= 4
  {
    if c == '\"' then ['\\', '\"']
    else if c == '\\' then ['\\', '\\']
    else if c == '\n' then ['\\', 'n', '\\', '\n']
    else [c]
  }

  /** The opening quotation mark and the escaped characters of s. */
  function Body(s: string): (r: string)
    ensures |r| >= 1
  {
    if s == [] then ['\"'] else Body(s[..|s| - 1]) + Escape(s[|s| - 1])
  }

  /** The whole quoted string, before it is cut at a NUL. */
  function Quoted(s: string): string {
    Body(s) + ['\"']
  }

  lemma UpToNulFree(s: string)
    requires '\0' !in s
    ensures UpToNul(s) == s
  {
    if s != [] {
      UpToNulFree(s[1..]);
    }
  }

  /** The first loop: how many extra characters the array needs. */
  method CountQuotes(s: string) returns (quoteCount: nat)
    ensures |Body(s)| == 1 + |s| + quoteCount
  {
    quoteCount := 0;
    for i := 0 to |s|
      invariant |Body(s[..i])| == 1 + i + quoteCount
    {
      assert s[..i + 1][..i] == s[..i];
      if s[i] == '\"' {
        quoteCount := quoteCount + 1;
      } else if s[i] == '\\' {
        quoteCount := quoteCount + 1;
      } else if s[i] == '\n' {
        quoteCount := quoteCount + 3;
      }
    }
    assert s[..|s|] == s;
  }

  /** The array is allocated for |s| + quoteCount + 3 characters, and the writes fill it exactly. */
  method AddQuotes(s: string) returns (r: string)
    ensures r == UpToNul(Quoted(s))
  {
    var quoteCount := CountQuotes(s);
    var t := new char[|s| + quoteCount + 3];
    t[0] := '\"';
    var j := 0;
    var i := 0;
    while i < |s|
      invariant 0 <= i <= |s|
      invariant j + 1 == |Body(s[..i])|
      invariant j + 1 <= t.Length && t[..j + 1] == Body(s[..i])
    {
      assert s[..i + 1][..i] == s[..i];
      BodyGrows(s, i);
      j := PutEscape(t, j, s[i]);
      i := i + 1;
    }
    assert s[..i] == s;
    t[j + 1] := '\"';
    t[j + 2] := '\0';
    assert t.Length == j + 3 && t[..] == Quoted(s) + ['\0'] + [];
    CutAtNul(Quoted(s), []);
    r := UpToNul(t[..]);
  }

  /** The branches of the second loop: j is the last index written. */
  method PutEscape(t: array<char>, j0: int, c: char) returns (j: int)
    requires -1 <= j0 && j0 + 1 + |Escape(c)| <= t.Length
    modifies t
    ensures j == j0 + |Escape(c)|
    ensures t[..j + 1] == old(t[..j0 + 1]) + Escape(c)
  {
    j := j0;
    if c == '\"' {
      t[j + 1] := '\\';
      t[j + 2] := '\"';
      j := j + 2;
    } else if c == '\\' {
      t[j + 1] := '\\';
      t[j + 2] := '\\';
      j := j + 2;
    } else if c == '\n' {
      t[j + 1] := '\\';
      t[j + 2] := 'n';
      t[j + 3] := '\\';
      t[j + 4] := '\n';
      j := j + 4;
    } else {
      t[j + 1] := c;
      j := j + 1;
    }
  }

  // ---------------------------------------------------------------------------
  // Removing quotes
  // ---------------------------------------------------------------------------

  /** Whether the two-state scanner stands after an unpaired backslash once it has read s. */
  predicate Escaping(s: string) {
    s != [] && !Escaping(s[..|s| - 1]) && s[|s| - 1] == '\\'
  }

  /** What remove_quotes_from writes for character c in the given state. */
  function Decode(escaping: bool, c: char): string {
    if !escaping then (if c == '\"' || c == '\\' then [] else [c])
    else if c == 'n' then ['\n']
    else if c == 't' then ['\t']
    else if c == '\n' then []
    else [c]
  }

  function Unquoted(s: string): (r: string)
    ensures |r| <= |s|
  {
    if s == [] then []
    else Unquoted(s[..|s| - 1]) + Decode(Escaping(s[..|s| - 1]), s[|s| - 1])
  }

  /** The branches of the loop: j is the next index to write. */
  method PutDecoded(t: array<char>, j0: nat, state0: nat, c: char) returns (j: nat, state: nat)
    requires j0 < t.Length
    modifies t
    ensures j == j0 + |Decode(state0 != 0, c)| <= t.Length
    ensures t[..j] == old(t[..j0]) + Decode(state0 != 0, c)
    ensures state == if state0 == 0 && c == '\\' then 1 else 0
  {
    j, state := j0, 0;
    if state0 == 0 {
      if c == '\"' {
      } else if c == '\\' {
        state := 1;
      } else {
        t[j] := c;
        j := j + 1;
      }
    } else {
      if c == '\"' {
        t[j] := '\"';
        j := j + 1;
      } else if c == 'n' {
        t[j] := '\n';
        j := j + 1;
      } else if c == 't' {
        t[j] := '\t';
        j := j + 1;
      } else if c == '\n' {
      } else {
        t[j] := c;
        j := j + 1;
      }
    }
  }

  method RemoveQuotes(s: string) returns (r: string)
    ensures r == UpToNul(Unquoted(s))
  {
    var l := |s|;
    var t := new char[l + 1];
    var j := 0;
    var state := 0;
    var i := 0;
    while i < l
      invariant 0 <= i <= l
      invariant j == |Unquoted(s[..i])|
      invariant state == if Escaping(s[..i]) then 1 else 0
      invariant t[..j] == Unquoted(s[..i])
    {
      assert s[..i + 1][..i] == s[..i];
      j, state := PutDecoded(t, j, state, s[i]);
      i := i + 1;
    }
    t[j] := '\0';
    assert s[..l] == s;
    EndsAtNul(t[..], j, Unquoted(s));
    r := UpToNul(t[..]);
  }

  lemma EndsAtNul(t: string, j: nat, s: string)
    requires j < |t| && t[j] == '\0' && t[..j] == s
    ensures UpToNul(t) == UpToNul(s)
  {
    assert t == s + ['\0'] + t[j + 1..];
    CutAtNul(s, t[j + 1..]);
  }

  lemma CutAtNul(s: string, t: string)
    ensures UpToNul(s + ['\0'] + t) == UpToNul(s)
  {
    if s != [] && s[0] != '\0' {
      CutAtNul(s[1..], t);
      assert (s + ['\0'] + t)[1..] == s[1..] + ['\0'] + t;
    }
  }

  // ---------------------------------------------------------------------------
  // Round trip
  // ---------------------------------------------------------------------------

  /** One more character of input. */
  lemma ReadOne(s: string, c: char)
    ensures Escaping(s + [c]) == (!Escaping(s) && c == '\\')
    ensures Unquoted(s + [c]) == Unquoted(s) + Decode(Escaping(s), c)
  {
    assert (s + [c])[..|s|] == s;
  }

  /** A backslash and the character it protects. */
  lemma ReadPair(s: string, c: char)
    requires !Escaping(s)
    ensures !Escaping(s + ['\\', c])
    ensures Unquoted(s + ['\\', c]) == Unquoted(s) + Decode(true, c)
  {
    ReadOne(s, '\\');
    ReadOne(s + ['\\'], c);
    assert s + ['\\', c] == s + ['\\'] + [c];
  }

  /** The scanner reads back each escaped character and is outside an escape afterwards. */
  lemma ReadEscape(s: string, c: char)
    requires !Escaping(s)
    ensures !Escaping(s + Escape(c))
    ensures Unquoted(s + Escape(c)) == Unquoted(s) + [c]
  {
    if c == '\n' {
      ReadPair(s, 'n');
      ReadPair(s + ['\\', 'n'], '\n');
      assert s + Escape(c) == s + ['\\', 'n'] + ['\\', '\n'];
    } else if c == '\"' || c == '\\' {
      ReadPair(s, c);
    } else {
      ReadOne(s, c);
    }
  }

  /** What the scanner makes of a backslash and the character behind it. */
  lemma PairsAreRead(s: string, c: char)
    requires !Escaping(s)
    ensures c == 'n' ==> Unquoted(s + ['\\', c]) == Unquoted(s) + ['\n']
    ensures c == 't' ==> Unquoted(s + ['\\', c]) == Unquoted(s) + ['\t']
    ensures c == '\n' ==> Unquoted(s + ['\\', c]) == Unquoted(s)
    ensures c != 'n' && c != 't' && c != '\n' ==> Unquoted(s + ['\\', c]) == Unquoted(s) + [c]
  {
    ReadPair(s, c);
    assert Unquoted(s) + [] == Unquoted(s);
  }

  lemma UnquotedOpening()
    ensures !Escaping(Body("")) && Unquoted(Body("")) == ""
  {
    ReadOne("", '\"');
    assert "" + ['\"'] == Body("");
  }

  lemma UnquotedBodyStep(front: string, c: char)
    requires !Escaping(Body(front)) && Unquoted(Body(front)) == front
    ensures !Escaping(Body(front + [c])) && Unquoted(Body(front + [c])) == front + [c]
  {
    ReadEscape(Body(front), c);
    assert (front + [c])[..|front|] == front;
    assert Body(front + [c]) == Body(front) + Escape(c);
  }

  /** Reading back the body of a quoted string gives the string. */
  lemma {:induction false} UnquotedBody(s: string)
    ensures !Escaping(Body(s)) && Unquoted(Body(s)) == s
  {
    if s == [] {
      UnquotedOpening();
    } else {
      var front, c := s[..|s| - 1], s[|s| - 1];
      assert front + [c] == s;
      UnquotedBody(front);
      UnquotedBodyStep(front, c);
    }
  }

  lemma {:induction false} BodyGrows(s: string, i: nat)
    requires i < |s|
    ensures Body(s[..i]) + Escape(s[i]) <= Body(s)
  {
    if i == |s| - 1 {
    } else {
      var front := s[..|s| - 1];
      BodyGrows(front, i);
      assert front[..i] == s[..i];
    }
  }

  lemma {:induction false} BodyNulFree(s: string)
    requires '\0' !in s
    ensures '\0' !in Body(s)
  {
    if s != [] {
      BodyNulFree(s[..|s| - 1]);
      assert '\0' !in Escape(s[|s| - 1]);
    }
  }

  lemma StopsAtNul(s: string, t: string)
    requires '\0' !in s && s + ['\0'] <= t
    ensures UpToNul(t) == s
  {
    assert t[|s|] == (s + ['\0'])[|s|] && t[..|s|] == (s + ['\0'])[..|s|] == s;
    assert t == s + ['\0'] + t[|s| + 1..];
    CutAtNul(s, t[|s| + 1..]);
    UpToNulFree(s);
  }

  /** Escaping leaves NULs where they are: the quoted C string stops where the input did. */
  lemma QuotedStops(s: string, u: string)
    requires '\0' in s && u == UpToNul(s)
    ensures UpToNul(Quoted(s)) == Body(u)
  {
    BodyGrows(s, |u|);
    BodyNulFree(u);
    assert s[..|u|] == u;
    assert Body(u) + ['\0'] <= Body(s);
    StopsAtNul(Body(u), Body(s) + ['\"']);
  }

  lemma QuotedWhole(s: string)
    requires '\0' !in s
    ensures UpToNul(Quoted(s)) == Quoted(s)
  {
    BodyNulFree(s);
    UpToNulFree(Quoted(s));
  }

  /** remove_quotes_from undoes add_quotes_to up to the first NUL of any string,
      and so returns the string itself exactly when it holds no NUL. */
  lemma QuotingRoundTrip(s: string)
    ensures UpToNul(Unquoted(UpToNul(Quoted(s)))) == UpToNul(s)
    ensures UpToNul(Unquoted(UpToNul(Quoted(s)))) == s <==> '\0' !in s
  {
    var u := UpToNul(s);
    UnquotedBody(u);
    UpToNulFree(u);
    if '\0' in s {
      QuotedStops(s, u);
    } else {
      UpToNulFree(s);
      QuotedWhole(s);
      ReadOne(Body(s), '\"');
      assert s + [] == s;
    }
  }

  /** Every line break of a quoted string follows a backslash, which follows a backslash and an n. */
  predicate IsMarked(s: string, i: nat) {
    i < |s| && (s[i] == '\n' ==> i >= 3 && s[i - 3] == '\\' && s[i - 2] == 'n' && s[i - 1] == '\\')
  }

  lemma MarkedInPiece(front: string, piece: string, i: nat)
    requires i < |front| ==> IsMarked(front, i)
    requires |front| <= i < |front| + |piece| ==> IsMarked(piece, i - |front|)
    requires i < |front| + |piece|
    ensures IsMarked(front + piece, i)
  {
  }

  lemma BreaksInPiece(front: string, c: char)
    ensures multiset(front + Escape(c))['\n'] == multiset(front)['\n'] + if c == '\n' then 1 else 0
  {
    assert multiset(front + Escape(c)) == multiset(front) + multiset(Escape(c));
  }

  lemma MarkedInBoth(front: string, piece: string)
    requires forall i :: 0 <= i < |front| ==> IsMarked(front, i)
    requires forall i :: 0 <= i < |piece| ==> IsMarked(piece, i)
    ensures forall i :: 0 <= i < |front + piece| ==> IsMarked(front + piece, i)
  {
    forall i | 0 <= i < |front + piece|
      ensures IsMarked(front + piece, i)
    {
      MarkedInPiece(front, piece, i);
    }
  }

  lemma {:induction false} BreaksAreMarked(s: string)
    ensures forall i :: 0 <= i < |Body(s)| ==> IsMarked(Body(s), i)
  {
    if s != [] {
      var front, c := s[..|s| - 1], s[|s| - 1];
      BreaksAreMarked(front);
      MarkedInBoth(Body(front), Escape(c));
    }
  }

  /** Quoting keeps the line breaks of a string, each marked by its escape. */
  lemma {:induction false} LinesAreKept(s: string)
    ensures multiset(Body(s))['\n'] == multiset(s)['\n']
    ensures forall i :: 0 <= i < |Body(s)| ==> IsMarked(Body(s), i)
  {
    BreaksAreMarked(s);
    if s != [] {
      var front, c := s[..|s| - 1], s[|s| - 1];
      assert s == front + [c];
      LinesAreKept(front);
      BreaksInPiece(Body(front), c);
    }
  }

  /** A quotation mark that ends or starts a string, rather than one that follows a backslash. */
  predicate BareQuoteAt(s: string, i: nat) {
    i < |s| && s[i] == '\"' && !Escaping(s[..i])
  }

  lemma EscapedQuote(s: string, i: nat)
    requires !Escaping(s) && i == |s| + 1
    ensures !BareQuoteAt(s + Escape('\"'), i)
  {
    ReadOne(s, '\\');
    assert (s + Escape('\"'))[..i] == s + ['\\'];
  }

  lemma NoBareQuoteInPiece(s: string, c: char, i: nat)
    requires !Escaping(s) && |s| <= i < |s| + |Escape(c)|
    ensures !BareQuoteAt(s + Escape(c), i)
  {
    assert (s + Escape(c))[i] == Escape(c)[i - |s|];
    if c == '\"' && i == |s| + 1 {
      EscapedQuote(s, i);
    }
  }

  lemma {:induction false} NoBareQuoteInside(s: string, i: nat)
    requires 0 < i < |Body(s)|
    ensures !BareQuoteAt(Body(s), i)
  {
    var front, c := s[..|s| - 1], s[|s| - 1];
    if i < |Body(front)| {
      NoBareQuoteInside(front, i);
      assert Body(s)[..i] == Body(front)[..i];
    } else {
      UnquotedBody(front);
      NoBareQuoteInPiece(Body(front), c, i);
    }
  }

  /** The only bare quotation marks of a quoted string are its first and last characters. */
  lemma BareQuotesAreTheEnds(s: string, i: nat)
    requires i < |Quoted(s)|
    ensures BareQuoteAt(Quoted(s), i) <==> i == 0 || i == |Quoted(s)| - 1
  {
    assert Quoted(s)[..|Body(s)|] == Body(s);
    if i == |Body(s)| {
      UnquotedBody(s);
    } else if 0 < i {
      NoBareQuoteInside(s, i);
      assert Quoted(s)[..i] == Body(s)[..i];
    } else {
      StartsWithQuote(s);
    }
  }

  lemma StartsWithQuote(s: string)
    ensures Body(s)[0] == '\"'
  {
  }
}
