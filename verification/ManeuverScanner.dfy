/** The reader of maneuver and burn files: one pass over the characters, splitting at
    commas and newlines and trimming blanks on the way. */
module ManeuverScanner {

  // ---------------------------------------------------------------------------
  // The scanner as a state machine
  // ---------------------------------------------------------------------------

  /** linevec, the field being read, the blanks behind it, and the rows read so far. */
  datatype Scan = Scan(rows: seq<seq<string>>, fields: seq<string>, s: string, blanks: string, omit: bool, done: bool)

  const START := Scan([], [], "", "", true, false)

  function Next(st: Scan, c: char): Scan {
    if st.done then st
    else if c == ' ' then
      if st.omit then st else st.(blanks := st.blanks + [' '])
    else if c == '\n' then
      if st.fields == [] then st.(done := true)
      else Scan(st.rows + [st.fields + [st.s]], [], "", "", st.omit, false)
    else if c == ',' then
      st.(fields := st.fields + [st.s], s := "", blanks := "", omit := true)
    else
      st.(s := st.s + (if st.omit then "" else st.blanks) + [c],
          blanks := if st.omit then st.blanks else "",
          omit := false)
  }

  function Run(st: Scan, text: string): Scan
    decreases |text|
  {
    if text == "" then st else Run(Next(st, text[0]), text[1..])
  }

  lemma {:induction false} RunConcat(st: Scan, a: string, b: string)
    ensures Run(st, a + b) == Run(Run(st, a), b)
    decreases |a|
  {
    if a == "" {
      assert a + b == b;
    } else {
      assert (a + b)[1..] == a[1..] + b;
      RunConcat(Next(st, a[0]), a[1..], b);
    }
  }

  lemma RunThen(st: Scan, a: string, mid: Scan, b: string, end: Scan, text: string)
    requires Run(st, a) == mid && Run(mid, b) == end && text == a + b
    ensures Run(st, text) == end
  {
    RunConcat(st, a, b);
  }

  lemma RunOne(st: Scan, text: string, c: char)
    ensures Run(st, text + [c]) == Next(Run(st, text), c)
  {
    RunConcat(st, text, [c]);
    assert Run(Next(Run(st, text), c), [c][1..]) == Next(Run(st, text), c);
  }

  // ---------------------------------------------------------------------------
  // Split and trim
  // ---------------------------------------------------------------------------

  function TrimEnd(f: string): string {
    if f != "" && f[|f| - 1] == ' ' then TrimEnd(f[..|f| - 1]) else f
  }

  function TrimStart(f: string): string {
    if f != "" && f[0] == ' ' then TrimStart(f[1..]) else f
  }

  function Trim(f: string): string {
    TrimEnd(TrimStart(f))
  }

  predicate AllBlank(f: string) {
    TrimStart(f) == ""
  }

  /** A field as it stands between separators. */
  predicate Raw(f: string) {
    ',' !in f && '\n' !in f
  }

  function Join(fields: seq<string>): string
    requires fields != []
  {
    if |fields| == 1 then fields[0] else fields[0] + "," + Join(fields[1..])
  }

  function Text(table: seq<seq<string>>): string
    requires forall i :: 0 <= i < |table| ==> table[i] != []
  {
    if table == [] then "" else Join(table[0]) + "\n" + Text(table[1..])
  }

  /** A table whose every line holds a comma. */
  predicate IsTable(table: seq<seq<string>>) {
    forall i :: 0 <= i < |table| ==> |table[i]| >= 2 && forall f <- table[i] :: Raw(f)
  }

  /** What follows the last line that is read: an unfinished line, or one without a comma. */
  predicate Ends(rest: string) {
    '\n' !in rest || exists i :: 0 <= i < |rest| && rest[i] == '\n' && ',' !in rest[..i]
  }

  function TrimAll(fields: seq<string>): (r: seq<string>)
    ensures |r| == |fields|
  {
    if fields == [] then [] else [Trim(fields[0])] + TrimAll(fields[1..])
  }

  /** The fields of one line; blanks at its start are dropped only if omit says so. */
  function Cleaned(row: seq<string>, omit: bool): seq<string>
    requires row != []
  {
    [if omit then Trim(row[0]) else TrimEnd(row[0])] + TrimAll(row[1..])
  }

  /** All lines: blanks at the start of a line are dropped in the first line, and behind a line
      whose last field is blank. */
  function CleanedTable(table: seq<seq<string>>, omit: bool): seq<seq<string>>
    requires IsTable(table)
  {
    if table == [] then []
    else [Cleaned(table[0], omit)] + CleanedTable(table[1..], AllBlank(table[0][|table[0]| - 1]))
  }

  // ---------------------------------------------------------------------------
  // One field
  // ---------------------------------------------------------------------------

  lemma {:induction false} TrimStartOfMore(f: string, c: char)
    ensures TrimStart(f + [c]) == if AllBlank(f) then TrimStart([c]) else TrimStart(f) + [c]
  {
    if f == "" {
      assert f + [c] == [c];
    } else if f[0] == ' ' {
      assert (f + [c])[1..] == f[1..] + [c];
      TrimStartOfMore(f[1..], c);
    }
  }

  lemma TrimEndOfMore(f: string, c: char)
    ensures TrimEnd(f + [c]) == if c == ' ' then TrimEnd(f) else f + [c]
  {
    assert (f + [c])[..|f|] == f;
  }

  /** The state after a field f was read by a scanner that stood before a field. */
  predicate FieldRead(st: Scan, omit: bool, f: string, r: Scan) {
    && r.rows == st.rows && r.fields == st.fields && !r.done
    && r.omit == (omit && AllBlank(f))
    && r.s == (if omit then Trim(f) else TrimEnd(f))
    && r.s + r.blanks == (if omit then TrimStart(f) else f)
  }

  lemma {:induction false} ReadField(st: Scan, f: string)
    requires Raw(f) && st.s == "" && st.blanks == "" && !st.done
    ensures FieldRead(st, st.omit, f, Run(st, f))
  {
    if f != "" {
      var front, c := f[..|f| - 1], f[|f| - 1];
      assert f == front + [c];
      ReadField(st, front);
      RunOne(st, front, c);
      TrimStartOfMore(front, c);
      TrimEndOfMore(front, c);
      TrimEndOfMore(TrimStart(front), c);
      if c == ' ' {
        OneMoreBlank(st, front, Run(st, front));
      } else {
        OneMoreLetter(st, front, c, Run(st, front));
      }
    }
  }

  lemma OneMoreBlank(st: Scan, front: string, r: Scan)
    requires FieldRead(st, st.omit, front, r)
    requires TrimStart(front + [' ']) == if AllBlank(front) then TrimStart([' ']) else TrimStart(front) + [' ']
    requires TrimEnd(front + [' ']) == TrimEnd(front)
    requires TrimEnd(TrimStart(front) + [' ']) == TrimEnd(TrimStart(front))
    ensures FieldRead(st, st.omit, front + [' '], Next(r, ' '))
  {
    assert [' '][1..] == "" && TrimStart([' ']) == "";
    assert AllBlank(front + [' ']) <==> AllBlank(front);
    if !r.omit {
      assert r.s + (r.blanks + [' ']) == (r.s + r.blanks) + [' '];
    }
  }

  lemma OneMoreLetter(st: Scan, front: string, c: char, r: Scan)
    requires FieldRead(st, st.omit, front, r) && c != ',' && c != '\n' && c != ' '
    requires TrimStart(front + [c]) == if AllBlank(front) then TrimStart([c]) else TrimStart(front) + [c]
    requires TrimEnd(front + [c]) == front + [c]
    requires TrimEnd(TrimStart(front) + [c]) == TrimStart(front) + [c]
    ensures FieldRead(st, st.omit, front + [c], Next(r, c))
  {
    assert r.s + r.blanks + [c] + "" == (r.s + r.blanks) + [c];
  }

  // ---------------------------------------------------------------------------
  // One line
  // ---------------------------------------------------------------------------

  /** The state before a field. */
  predicate Fresh(st: Scan) {
    st.s == "" && st.blanks == "" && !st.done
  }

  /** A field and the comma behind it. */
  lemma ReadComma(st: Scan, f: string)
    requires Raw(f) && Fresh(st)
    ensures Run(st, f + ",")
         == Scan(st.rows, st.fields + [if st.omit then Trim(f) else TrimEnd(f)], "", "", true, false)
  {
    ReadField(st, f);
    RunOne(st, f, ',');
  }

  /** The last field of a line and the newline behind it. */
  lemma ReadNewline(st: Scan, f: string)
    requires Raw(f) && Fresh(st) && st.fields != []
    ensures Run(st, f + "\n")
         == Scan(st.rows + [st.fields + [if st.omit then Trim(f) else TrimEnd(f)]], [], "", "",
                 st.omit && AllBlank(f), false)
  {
    ReadField(st, f);
    RunOne(st, f, '\n');
  }

  lemma JoinMore(fields: seq<string>, f: string, tail: seq<string>)
    requires fields == [f] + tail && tail != []
    ensures Join(fields) + "\n" == (f + ",") + (Join(tail) + "\n")
    ensures fields[|fields| - 1] == tail[|tail| - 1]
  {
    assert fields[1..] == tail;
  }

  /** The fields of a line behind its first comma. */
  lemma {:induction false} ReadRest(st: Scan, fields: seq<string>)
    requires fields != [] && (forall f <- fields :: Raw(f)) && Fresh(st) && st.fields != [] && st.omit
    ensures Run(st, Join(fields) + "\n")
         == Scan(st.rows + [st.fields + TrimAll(fields)], [], "", "", AllBlank(fields[|fields| - 1]), false)
    decreases |fields|
  {
    var f, tail := fields[0], fields[1..];
    if |fields| == 1 {
      ReadNewline(st, f);
      assert TrimAll(fields) == [Trim(f)];
    } else {
      var after := Scan(st.rows, st.fields + [Trim(f)], "", "", true, false);
      var end := Scan(st.rows + [after.fields + TrimAll(tail)], [], "", "", AllBlank(tail[|tail| - 1]), false);
      ReadComma(st, f);
      ReadRest(after, tail);
      JoinMore(fields, f, tail);
      RunThen(st, f + ",", after, Join(tail) + "\n", end, Join(fields) + "\n");
      assert st.fields + TrimAll(fields) == after.fields + TrimAll(tail);
    }
  }

  lemma ReadFirst(st: Scan, f: string, tail: seq<string>, first: string)
    requires Raw(f) && tail != [] && (forall g <- tail :: Raw(g)) && Fresh(st) && st.fields == []
    requires first == if st.omit then Trim(f) else TrimEnd(f)
    ensures Run(st, (f + ",") + (Join(tail) + "\n"))
         == Scan(st.rows + [[first] + TrimAll(tail)], [], "", "", AllBlank(tail[|tail| - 1]), false)
  {
    var after := Scan(st.rows, [first], "", "", true, false);
    assert Run(st, f + ",") == after by {
      ReadComma(st, f);
      assert st.fields + [first] == [first];
    }
    ReadRest(after, tail);
    RunThen(st, f + ",", after, Join(tail) + "\n", Run(after, Join(tail) + "\n"), (f + ",") + (Join(tail) + "\n"));
  }

  lemma ReadLine(st: Scan, row: seq<string>)
    requires |row| >= 2 && (forall f <- row :: Raw(f)) && Fresh(st) && st.fields == []
    ensures Run(st, Join(row) + "\n")
         == Scan(st.rows + [Cleaned(row, st.omit)], [], "", "", AllBlank(row[|row| - 1]), false)
  {
    JoinMore(row, row[0], row[1..]);
    ReadFirst(st, row[0], row[1..], if st.omit then Trim(row[0]) else TrimEnd(row[0]));
  }

  lemma Together<T>(a: seq<T>, b: T, c: seq<T>)
    ensures a + ([b] + c) == a + [b] + c
  {
  }

  lemma {:induction false} ReadTable(st: Scan, table: seq<seq<string>>)
    requires IsTable(table) && Fresh(st) && st.fields == []
    ensures var r := Run(st, Text(table));
            Fresh(r) && r.fields == [] && r.rows == st.rows + CleanedTable(table, st.omit)
    decreases |table|
  {
    if table != [] {
      var row := table[0];
      var after := Scan(st.rows + [Cleaned(row, st.omit)], [], "", "", AllBlank(row[|row| - 1]), false);
      ReadLine(st, row);
      ReadTable(after, table[1..]);
      RunThen(st, Join(row) + "\n", after, Text(table[1..]), Run(after, Text(table[1..])), Text(table));
      Together(st.rows, Cleaned(row, st.omit), CleanedTable(table[1..], after.omit));
    }
  }

  // ---------------------------------------------------------------------------
  // The end
  // ---------------------------------------------------------------------------

  lemma {:induction false} ReadNothing(st: Scan, text: string)
    requires st.done || '\n' !in text
    ensures Run(st, text).rows == st.rows && (st.done ==> Run(st, text) == st)
    decreases |text|
  {
    if text != "" {
      ReadNothing(Next(st, text[0]), text[1..]);
    }
  }

  lemma {:induction false} NoComma(st: Scan, text: string)
    requires ',' !in text && '\n' !in text && !st.done
    ensures Run(st, text).fields == st.fields && !Run(st, text).done
    decreases |text|
  {
    if text != "" {
      NoComma(Next(st, text[0]), text[1..]);
    }
  }

  lemma {:induction false} FirstNewline(text: string) returns (i: nat)
    requires '\n' in text
    ensures i < |text| && text[i] == '\n' && '\n' !in text[..i]
  {
    if text[0] == '\n' {
      i := 0;
    } else {
      var j := FirstNewline(text[1..]);
      i := j + 1;
      assert text[..i] == [text[0]] + text[1..][..j];
    }
  }

  /** Nothing is read from an unfinished line, or from a line without a comma on. */
  lemma ReadEnd(st: Scan, rest: string)
    requires Fresh(st) && st.fields == [] && Ends(rest)
    ensures Run(st, rest).rows == st.rows
  {
    if '\n' !in rest {
      ReadNothing(st, rest);
    } else {
      var i := FirstNewline(rest);
      var k :| 0 <= k < |rest| && rest[k] == '\n' && ',' !in rest[..k];
      assert i <= k && forall c <- rest[..i] :: c in rest[..k];
      var line := rest[..i];
      ReadNothing(st, line);
      NoComma(st, line);
      RunOne(st, line, '\n');
      assert rest == (line + ['\n']) + rest[i + 1..];
      RunConcat(st, line + ['\n'], rest[i + 1..]);
      ReadNothing(Next(Run(st, line), '\n'), rest[i + 1..]);
    }
  }

  /** What the scanner reads of a text, whatever follows the last line with a comma. */
  lemma ScannerReads(table: seq<seq<string>>, rest: string)
    requires IsTable(table) && Ends(rest)
    ensures Run(START, Text(table) + rest).rows == CleanedTable(table, true)
  {
    ReadTable(START, table);
    RunConcat(START, Text(table), rest);
    ReadEnd(Run(START, Text(table)), rest);
  }

  lemma {:induction false} SplitFields(line: string) returns (fields: seq<string>)
    requires '\n' !in line
    ensures fields != [] && Join(fields) == line && forall f <- fields :: Raw(f)
    ensures |fields| >= 2 <==> ',' in line
    decreases |line|
  {
    if ',' !in line {
      fields := [line];
    } else {
      var i := FirstComma(line);
      var rest := SplitFields(line[i + 1..]);
      fields := [line[..i]] + rest;
      assert line == line[..i] + "," + line[i + 1..] && fields[1..] == rest;
    }
  }

  lemma {:induction false} FirstComma(text: string) returns (i: nat)
    requires ',' in text
    ensures i < |text| && text[i] == ',' && ',' !in text[..i]
  {
    if text[0] == ',' {
      i := 0;
    } else {
      var j := FirstComma(text[1..]);
      i := j + 1;
      assert text[..i] == [text[0]] + text[1..][..j];
    }
  }

  lemma TextMore(row: seq<string>, more: seq<seq<string>>)
    requires row != [] && forall i :: 0 <= i < |more| ==> more[i] != []
    ensures Text([row] + more) == Join(row) + "\n" + Text(more)
  {
    assert ([row] + more)[1..] == more;
  }

  lemma IsTableMore(row: seq<string>, more: seq<seq<string>>)
    requires |row| >= 2 && (forall f <- row :: Raw(f)) && IsTable(more)
    ensures IsTable([row] + more)
  {
  }

  lemma CutAtNewline(text: string, i: nat, table: string, rest: string)
    requires i < |text| && text[i] == '\n' && text[i + 1..] == table + rest
    ensures text == text[..i] + "\n" + table + rest
  {
    assert text == text[..i] + "\n" + text[i + 1..];
  }

  /** Every text is a table with something behind it, so that ScannerReads covers all texts. */
  lemma {:induction false} EveryText(text: string) returns (table: seq<seq<string>>, rest: string)
    ensures IsTable(table) && Ends(rest) && text == Text(table) + rest
    decreases |text|
  {
    if Ends(text) {
      table, rest := [], text;
    } else {
      var i := FirstNewline(text);
      var fields := SplitFields(text[..i]);
      assert ',' in text[..i];
      var more, end := EveryText(text[i + 1..]);
      table, rest := [fields] + more, end;
      IsTableMore(fields, more);
      TextMore(fields, more);
      CutAtNewline(text, i, Text(more), end);
    }
  }

  // ---------------------------------------------------------------------------
  // When it is splitting and trimming
  // ---------------------------------------------------------------------------

  function Trimmed(table: seq<seq<string>>): (r: seq<seq<string>>)
    ensures |r| == |table|
  {
    if table == [] then [] else [TrimAll(table[0])] + Trimmed(table[1..])
  }

  predicate StartsBlank(f: string) {
    !AllBlank(f) && f[0] == ' '
  }

  /** Whether some line starts with a blank and something behind it, although the last field of the
      line before it was not blank. */
  predicate KeepsABlank(table: seq<seq<string>>, omit: bool)
    requires IsTable(table)
  {
    table != [] &&
    ((!omit && StartsBlank(table[0][0])) || KeepsABlank(table[1..], AllBlank(table[0][|table[0]| - 1])))
  }

  lemma {:induction false} TrimEndKeepsStart(f: string)
    requires f != "" && f[0] != ' '
    ensures TrimEnd(f) != "" && TrimEnd(f)[0] == f[0]
  {
    if f[|f| - 1] == ' ' {
      TrimEndKeepsStart(f[..|f| - 1]);
    }
  }

  lemma {:induction false} BlankTrims(f: string)
    ensures AllBlank(f) ==> TrimEnd(f) == ""
    ensures !AllBlank(f) ==> TrimStart(f) != "" && TrimStart(f)[0] != ' '
    ensures !AllBlank(f) ==> TrimEnd(f) != "" && TrimEnd(f)[0] == f[0]
  {
    if f != "" {
      var front, c := f[..|f| - 1], f[|f| - 1];
      assert f == front + [c];
      BlankTrims(front);
      TrimStartOfMore(front, c);
      TrimEndOfMore(front, c);
    }
  }

  lemma TrimIsTrimEnd(f: string)
    ensures TrimEnd(f) == Trim(f) <==> !StartsBlank(f)
  {
    BlankTrims(f);
    if !AllBlank(f) {
      TrimEndKeepsStart(TrimStart(f));
    }
  }

  lemma CleanedIsTrimmed(row: seq<string>, omit: bool)
    requires row != []
    ensures Cleaned(row, omit) == TrimAll(row) <==> omit || !StartsBlank(row[0])
  {
    TrimIsTrimEnd(row[0]);
    var c, t := Cleaned(row, omit), TrimAll(row);
    if c[0] == t[0] {
      assert c == [t[0]] + TrimAll(row[1..]);
    }
  }

  /** The scanner yields the split and trimmed fields exactly if no line makes it keep a blank. */
  lemma {:induction false} ScannerTrimsExactlyWhen(table: seq<seq<string>>, omit: bool)
    requires IsTable(table)
    ensures CleanedTable(table, omit) == Trimmed(table) <==> !KeepsABlank(table, omit)
    decreases |table|
  {
    if table != [] {
      var row := table[0];
      var next := AllBlank(row[|row| - 1]);
      CleanedIsTrimmed(row, omit);
      ScannerTrimsExactlyWhen(table[1..], next);
      var c, t := CleanedTable(table, omit), Trimmed(table);
      assert c == [Cleaned(row, omit)] + CleanedTable(table[1..], next);
      assert c[0] == Cleaned(row, omit) && c[1..] == CleanedTable(table[1..], next);
      assert t[0] == TrimAll(row) && t[1..] == Trimmed(table[1..]);
      assert c == t <==> c[0] == t[0] && c[1..] == t[1..] by {
        assert c == [c[0]] + c[1..] && t == [t[0]] + t[1..];
      }
    }
  }

  /** In particular if no line but the first starts with a blank. */
  lemma {:induction false} NoBlankStarts(table: seq<seq<string>>, omit: bool)
    requires IsTable(table)
    requires forall i :: 0 <= i < |table| ==> (i == 0 && omit) || table[i][0] == "" || table[i][0][0] != ' '
    ensures !KeepsABlank(table, omit)
    decreases |table|
  {
    if table != [] {
      NoBlankStarts(table[1..], AllBlank(table[0][|table[0]| - 1]));
    }
  }

  // ---------------------------------------------------------------------------
  // The maneuvers
  // ---------------------------------------------------------------------------

  /** A maneuver_node: its time, its name, and whether it is one end of a burn. */
  datatype Maneuver = Maneuver(time: int, name: string, extended: bool)

  datatype Kind = ManeuverFile | JoiFile | OtherFile

  /** OutOfRange stands for a line with too few fields, on which the source indexes past the end. */
  datatype Result = Nodes(nodes: seq<Maneuver>) | NotManeuvers | OutOfRange

  function KindOf(header: seq<string>): Kind
    requires |header| >= 3
  {
    if header[2] == "Maneuver Name" then ManeuverFile
    else if header[0] == "Burn Name" then JoiFile
    else OtherFile
  }

  /** Insertion into a list sorted by time, behind nodes of the same time. */
  function Inserted(nodes: seq<Maneuver>, n: Maneuver): seq<Maneuver> {
    if nodes == [] || n.time < nodes[0].time then [n] + nodes
    else [nodes[0]] + Inserted(nodes[1..], n)
  }

  function NodesOf(kind: Kind, row: seq<string>, time: string -> int): seq<Maneuver>
    requires |row| >= 3
  {
    match kind
    case ManeuverFile => [Maneuver(time(row[1]), row[2], false)]
    case JoiFile => [Maneuver(time(row[1]), row[0], true), Maneuver(time(row[2]), row[0], true)]
    case OtherFile => []
  }

  function InsertedAll(nodes: seq<Maneuver>, more: seq<Maneuver>): seq<Maneuver>
    decreases |more|
  {
    if more == [] then nodes else InsertedAll(Inserted(nodes, more[0]), more[1..])
  }

  /** The list after the first n lines, the header included. */
  function Interpreted(nodes0: seq<Maneuver>, rows: seq<seq<string>>, n: nat, time: string -> int): Result
    requires n <= |rows|
  {
    if n == 0 then Nodes(nodes0)
    else
      var before, row := Interpreted(nodes0, rows, n - 1, time), rows[n - 1];
      if !before.Nodes? then before
      else if |row| < 3 then OutOfRange
      else if n == 1 then (if KindOf(row).OtherFile? then NotManeuvers else before)
      else if |rows[0]| < 3 then OutOfRange
      else Nodes(InsertedAll(before.nodes, NodesOf(KindOf(rows[0]), row, time)))
  }

  predicate SortedByTime(nodes: seq<Maneuver>) {
    forall i, j :: 0 <= i < j < |nodes| ==> nodes[i].time <= nodes[j].time
  }

  lemma {:induction false} InsertedHolds(nodes: seq<Maneuver>, n: Maneuver)
    ensures multiset(Inserted(nodes, n)) == multiset(nodes) + multiset{n}
  {
    if nodes != [] {
      assert nodes == [nodes[0]] + nodes[1..];
      InsertedHolds(nodes[1..], n);
    }
  }

  predicate NotBefore(t: int, nodes: seq<Maneuver>) {
    forall i :: 0 <= i < |nodes| ==> t <= nodes[i].time
  }

  lemma {:induction false} InsertedIsSorted(nodes: seq<Maneuver>, n: Maneuver)
    requires SortedByTime(nodes)
    ensures SortedByTime(Inserted(nodes, n))
    ensures forall t :: t <= n.time && NotBefore(t, nodes) ==> NotBefore(t, Inserted(nodes, n))
  {
    if nodes != [] && n.time >= nodes[0].time {
      InsertedIsSorted(nodes[1..], n);
      assert NotBefore(nodes[0].time, nodes[1..]);
      assert NotBefore(nodes[0].time, Inserted(nodes[1..], n));
      forall t | t <= n.time && NotBefore(t, nodes)
        ensures NotBefore(t, Inserted(nodes, n))
      {
        assert NotBefore(t, nodes[1..]);
      }
    }
  }

  lemma {:induction false} InsertedAllIsSorted(nodes: seq<Maneuver>, more: seq<Maneuver>)
    requires SortedByTime(nodes)
    ensures SortedByTime(InsertedAll(nodes, more))
    ensures multiset(InsertedAll(nodes, more)) == multiset(nodes) + multiset(more)
    decreases |more|
  {
    if more != [] {
      assert more == [more[0]] + more[1..];
      InsertedIsSorted(nodes, more[0]);
      InsertedHolds(nodes, more[0]);
      InsertedAllIsSorted(Inserted(nodes, more[0]), more[1..]);
    }
  }

  /** The nodes of the lines behind the header. */
  function NodesOfRows(kind: Kind, rows: seq<seq<string>>, n: nat, time: string -> int): seq<Maneuver>
    requires n <= |rows| && forall i :: 0 <= i < n ==> |rows[i]| >= 3
  {
    if n <= 1 then [] else NodesOfRows(kind, rows, n - 1, time) + NodesOf(kind, rows[n - 1], time)
  }

  predicate IsManeuverHeader(header: seq<string>) {
    |header| >= 3 && header[2] == "Maneuver Name"
  }

  predicate IsBurnHeader(header: seq<string>) {
    |header| >= 3 && header[2] != "Maneuver Name" && header[0] == "Burn Name"
  }

  /** The nodes of each line, in the order of the lines: a maneuver file has one for each, with time and name in
      the second and third field; a file of burns two, with the times in these fields and the name before. */
  lemma {:induction false} NodesOfLines(rows: seq<seq<string>>, n: nat, time: string -> int, i: nat)
    requires 1 <= i < n <= |rows| && forall j :: 0 <= j < n ==> |rows[j]| >= 3
    ensures var r := NodesOfRows(KindOf(rows[0]), rows, n, time);
            && (IsManeuverHeader(rows[0]) ==>
                  |r| == n - 1 && r[i - 1] == Maneuver(time(rows[i][1]), rows[i][2], false))
            && (IsBurnHeader(rows[0]) ==>
                  && |r| == 2 * (n - 1)
                  && r[2 * i - 2] == Maneuver(time(rows[i][1]), rows[i][0], true)
                  && r[2 * i - 1] == Maneuver(time(rows[i][2]), rows[i][0], true))
  {
    if n > 2 {
      NodesOfLines(rows, n - 1, time, if i < n - 1 then i else n - 2);
    }
  }

  /** A maneuver of a line: its time and name stand in the second and third field of a maneuver file,
      and the two times of a burn in the second and third, behind its name. */
  predicate IsFrom(m: Maneuver, kind: Kind, row: seq<string>, time: string -> int)
    requires |row| >= 3
  {
    match kind
    case ManeuverFile => m.time == time(row[1]) && m.name == row[2] && !m.extended
    case JoiFile => (m.time == time(row[1]) || m.time == time(row[2])) && m.name == row[0] && m.extended
    case OtherFile => false
  }

  /** The lines behind the header are where the maneuvers come from, each of them and no other. */
  lemma {:induction false} ManeuversComeFromRows(kind: Kind, rows: seq<seq<string>>, n: nat, time: string -> int,
                                                 m: Maneuver)
    requires n <= |rows| && forall i :: 0 <= i < n ==> |rows[i]| >= 3
    ensures m in NodesOfRows(kind, rows, n, time) <==> exists i :: 1 <= i < n && IsFrom(m, kind, rows[i], time)
  {
    if n > 1 {
      ManeuversComeFromRows(kind, rows, n - 1, time, m);
      assert m in NodesOf(kind, rows[n - 1], time) <==> IsFrom(m, kind, rows[n - 1], time);
    }
  }

  lemma {:induction false} RowsAreLong(nodes0: seq<Maneuver>, rows: seq<seq<string>>, n: nat, time: string -> int)
    requires n <= |rows| && Interpreted(nodes0, rows, n, time).Nodes?
    ensures forall i :: 0 <= i < n ==> |rows[i]| >= 3
    ensures n > 0 ==> !KindOf(rows[0]).OtherFile?
  {
    if n > 0 {
      RowsAreLong(nodes0, rows, n - 1, time);
    }
  }

  /** Reading ends without maneuvers exactly if the first line has three fields but is no known header. */
  lemma {:induction false} NotManeuversExactlyWhen(nodes0: seq<Maneuver>, rows: seq<seq<string>>, n: nat,
                                                   time: string -> int)
    requires 0 < n <= |rows|
    ensures Interpreted(nodes0, rows, n, time) == NotManeuvers <==>
            |rows[0]| >= 3 && !IsManeuverHeader(rows[0]) && !IsBurnHeader(rows[0])
  {
    if n > 1 {
      NotManeuversExactlyWhen(nodes0, rows, n - 1, time);
    }
  }

  function OneAt(m: Maneuver, t: int): seq<Maneuver> {
    if m.time == t then [m] else []
  }

  /** The nodes of one time, in the order in which they are listed. */
  function AtTime(nodes: seq<Maneuver>, t: int): seq<Maneuver> {
    if nodes == [] then [] else OneAt(nodes[0], t) + AtTime(nodes[1..], t)
  }

  lemma Regrouped<T>(a: seq<T>, b: seq<T>, c: seq<T>)
    ensures (a + b) + c == a + (b + c)
  {
  }

  lemma AtTimeOfMore(m: Maneuver, nodes: seq<Maneuver>, t: int)
    ensures AtTime([m] + nodes, t) == OneAt(m, t) + AtTime(nodes, t)
  {
    assert ([m] + nodes)[1..] == nodes;
  }

  lemma {:induction false} AtTimeOfBoth(a: seq<Maneuver>, b: seq<Maneuver>, t: int)
    ensures AtTime(a + b, t) == AtTime(a, t) + AtTime(b, t)
  {
    if a == [] {
      assert a + b == b;
    } else {
      assert [a[0]] + (a[1..] + b) == a + b;
      AtTimeOfMore(a[0], a[1..] + b, t);
      AtTimeOfBoth(a[1..], b, t);
      Regrouped(OneAt(a[0], t), AtTime(a[1..], t), AtTime(b, t));
    }
  }

  lemma {:induction false} NoneBefore(nodes: seq<Maneuver>, t: int)
    requires forall m <- nodes :: m.time > t
    ensures AtTime(nodes, t) == []
  {
    if nodes != [] {
      NoneBefore(nodes[1..], t);
    }
  }

  /** A node goes behind all nodes of its time. */
  lemma {:induction false} InsertedBehind(nodes: seq<Maneuver>, n: Maneuver, t: int)
    requires SortedByTime(nodes)
    ensures AtTime(Inserted(nodes, n), t) == AtTime(nodes, t) + OneAt(n, t)
  {
    if nodes == [] || n.time < nodes[0].time {
      AtTimeOfMore(n, nodes, t);
      if n.time == t {
        NoneBefore(nodes, t);
      }
    } else {
      InsertedBehind(nodes[1..], n, t);
      AtTimeOfMore(nodes[0], Inserted(nodes[1..], n), t);
      Regrouped(OneAt(nodes[0], t), AtTime(nodes[1..], t), OneAt(n, t));
    }
  }

  lemma {:induction false} AllInsertedBehind(nodes: seq<Maneuver>, more: seq<Maneuver>, t: int)
    requires SortedByTime(nodes)
    ensures AtTime(InsertedAll(nodes, more), t) == AtTime(nodes, t) + AtTime(more, t)
    decreases |more|
  {
    if more != [] {
      InsertedIsSorted(nodes, more[0]);
      InsertedBehind(nodes, more[0], t);
      AllInsertedBehind(Inserted(nodes, more[0]), more[1..], t);
      Regrouped(AtTime(nodes, t), OneAt(more[0], t), AtTime(more[1..], t));
    }
  }

  /** Nodes of one time stay in the order in which they were there or are read. */
  lemma {:induction false} FileKeepsOrder(nodes0: seq<Maneuver>, rows: seq<seq<string>>, n: nat, time: string -> int,
                                          nodes: seq<Maneuver>, t: int)
    requires SortedByTime(nodes0) && 0 < n <= |rows| && Interpreted(nodes0, rows, n, time) == Nodes(nodes)
    ensures forall i :: 0 <= i < n ==> |rows[i]| >= 3
    ensures AtTime(nodes, t) == AtTime(nodes0, t) + AtTime(NodesOfRows(KindOf(rows[0]), rows, n, time), t)
  {
    RowsAreLong(nodes0, rows, n, time);
    if n > 1 {
      var before := Interpreted(nodes0, rows, n - 1, time).nodes;
      var kind := KindOf(rows[0]);
      var done, more := NodesOfRows(kind, rows, n - 1, time), NodesOf(kind, rows[n - 1], time);
      FileKeepsOrder(nodes0, rows, n - 1, time, before, t);
      FileIsRead(nodes0, rows, n - 1, time, before);
      AllInsertedBehind(before, more, t);
      AtTimeOfBoth(done, more, t);
      Regrouped(AtTime(nodes0, t), AtTime(done, t), AtTime(more, t));
    }
  }

  lemma MoreNodes(before: seq<Maneuver>, start: multiset<Maneuver>, done: seq<Maneuver>, more: seq<Maneuver>)
    requires SortedByTime(before) && multiset(before) == start + multiset(done)
    ensures SortedByTime(InsertedAll(before, more))
    ensures multiset(InsertedAll(before, more)) == start + multiset(done + more)
  {
    InsertedAllIsSorted(before, more);
  }

  /** A file that is read adds the nodes of all its lines, in the order of their times. */
  lemma {:induction false} FileIsRead(nodes0: seq<Maneuver>, rows: seq<seq<string>>, n: nat, time: string -> int,
                                      nodes: seq<Maneuver>)
    requires SortedByTime(nodes0) && 0 < n <= |rows| && Interpreted(nodes0, rows, n, time) == Nodes(nodes)
    ensures forall i :: 0 <= i < n ==> |rows[i]| >= 3
    ensures SortedByTime(nodes)
    ensures multiset(nodes) == multiset(nodes0) + multiset(NodesOfRows(KindOf(rows[0]), rows, n, time))
  {
    RowsAreLong(nodes0, rows, n, time);
    if n > 1 {
      var before := Interpreted(nodes0, rows, n - 1, time).nodes;
      var kind := KindOf(rows[0]);
      FileIsRead(nodes0, rows, n - 1, time, before);
      MoreNodes(before, multiset(nodes0), NodesOfRows(kind, rows, n - 1, time), NodesOf(kind, rows[n - 1], time));
    }
  }

  // ---------------------------------------------------------------------------
  // What a kept blank does to the maneuvers
  // ---------------------------------------------------------------------------

  predicate LeadingBlank(f: string) {
    f != "" && f[0] == ' '
  }

  /** A row as it is read and the same row trimmed. */
  predicate SameButBlank(row: seq<string>, trimmed: seq<string>) {
    && |row| == |trimmed| >= 2 && row[1..] == trimmed[1..] && !LeadingBlank(trimmed[0])
    && (row[0] != trimmed[0] ==> LeadingBlank(row[0]))
  }

  lemma CleanedSameButBlank(row: seq<string>, omit: bool)
    requires |row| >= 2
    ensures SameButBlank(Cleaned(row, omit), TrimAll(row))
    ensures omit ==> Cleaned(row, omit) == TrimAll(row)
  {
    var f := row[0];
    TrimIsTrimEnd(f);
    BlankTrims(f);
    if !AllBlank(f) {
      TrimEndKeepsStart(TrimStart(f));
    }
    assert Cleaned(row, omit)[1..] == TrimAll(row[1..]) == TrimAll(row)[1..];
    CleanedIsTrimmed(row, omit);
  }

  lemma {:induction false} TablesSameButBlanks(table: seq<seq<string>>, omit: bool)
    requires IsTable(table)
    ensures |CleanedTable(table, omit)| == |Trimmed(table)|
    ensures forall i :: 0 <= i < |table| ==> SameButBlank(CleanedTable(table, omit)[i], Trimmed(table)[i])
    ensures table != [] && omit ==> CleanedTable(table, omit)[0] == Trimmed(table)[0]
    decreases |table|
  {
    if table != [] {
      var next := AllBlank(table[0][|table[0]| - 1]);
      CleanedSameButBlank(table[0], omit);
      TablesSameButBlanks(table[1..], next);
      assert CleanedTable(table, omit) == [Cleaned(table[0], omit)] + CleanedTable(table[1..], next);
      assert Trimmed(table) == [TrimAll(table[0])] + Trimmed(table[1..]);
    }
  }

  /** Two readings of a file that differ in blanks before the first fields fail alike. */
  lemma {:induction false} ResultsAlike(nodes0: seq<Maneuver>, rows: seq<seq<string>>, trimmed: seq<seq<string>>,
                                        n: nat, time: string -> int)
    requires |rows| == |trimmed| && 0 < n <= |rows| && rows[0] == trimmed[0]
    requires forall i :: 0 <= i < |rows| ==> SameButBlank(rows[i], trimmed[i])
    ensures var r, t := Interpreted(nodes0, rows, n, time), Interpreted(nodes0, trimmed, n, time);
            && r.Nodes? == t.Nodes? && (!r.Nodes? ==> r == t)
            && (|rows[0]| >= 3 && KindOf(rows[0]).ManeuverFile? ==> r == t)
  {
    assert SameButBlank(rows[n - 1], trimmed[n - 1]);
    if n > 1 {
      ResultsAlike(nodes0, rows, trimmed, n - 1, time);
      if |rows[n - 1]| >= 3 {
        assert rows[n - 1][1..][0] == trimmed[n - 1][1..][0] && rows[n - 1][1..][1] == trimmed[n - 1][1..][1];
      }
    }
  }

  lemma NotFromTrimmed(rows: seq<seq<string>>, trimmed: seq<seq<string>>, n: nat, time: string -> int, m: Maneuver)
    requires n <= |trimmed| == |rows| && forall j :: 0 <= j < |rows| ==> SameButBlank(rows[j], trimmed[j])
    requires (forall j :: 0 <= j < n ==> |trimmed[j]| >= 3) && LeadingBlank(m.name)
    ensures m !in NodesOfRows(JoiFile, trimmed, n, time)
  {
    ManeuversComeFromRows(JoiFile, trimmed, n, time, m);
    forall j | 1 <= j < n
      ensures !IsFrom(m, JoiFile, trimmed[j], time)
    {
      assert SameButBlank(rows[j], trimmed[j]);
    }
  }

  lemma FirstFieldDiffers(row: seq<string>, trimmed: seq<string>)
    requires SameButBlank(row, trimmed) && row != trimmed
    ensures LeadingBlank(row[0])
  {
    assert row == [row[0]] + row[1..] && trimmed == [trimmed[0]] + trimmed[1..];
  }

  lemma OnlyInOne<T>(x: T, common: multiset<T>, a: seq<T>, b: seq<T>)
    requires x in a && x !in b
    ensures common + multiset(a) != common + multiset(b)
  {
    assert multiset(a)[x] > 0 && multiset(b)[x] == 0;
    assert (common + multiset(a))[x] != (common + multiset(b))[x];
  }

  /** The name of a burn keeps its blank in the list of maneuvers. */
  lemma BlankNameIsKept(nodes0: seq<Maneuver>, rows: seq<seq<string>>, trimmed: seq<seq<string>>, time: string -> int,
                        r: seq<Maneuver>, t: seq<Maneuver>, i: nat)
    requires SortedByTime(nodes0) && |rows| == |trimmed| && 0 < i < |rows| && rows[0] == trimmed[0]
    requires forall j :: 0 <= j < |rows| ==> SameButBlank(rows[j], trimmed[j])
    requires Interpreted(nodes0, rows, |rows|, time) == Nodes(r)
    requires Interpreted(nodes0, trimmed, |rows|, time) == Nodes(t)
    requires |rows[0]| >= 3 && KindOf(rows[0]).JoiFile? && rows[i] != trimmed[i]
    ensures r != t
  {
    var n := |rows|;
    FileIsRead(nodes0, rows, n, time, r);
    FileIsRead(nodes0, trimmed, n, time, t);
    var m := Maneuver(time(rows[i][1]), rows[i][0], true);
    FirstFieldDiffers(rows[i], trimmed[i]);
    assert m in NodesOfRows(JoiFile, rows, n, time) by {
      assert IsFrom(m, JoiFile, rows[i], time);
      ManeuversComeFromRows(JoiFile, rows, n, time, m);
    }
    NotFromTrimmed(rows, trimmed, n, time, m);
    OnlyInOne(m, multiset(nodes0), NodesOfRows(JoiFile, rows, n, time), NodesOfRows(JoiFile, trimmed, n, time));
  }

  /** Every line has three fields, and the header is known. */
  predicate IsReadable(rows: seq<seq<string>>) {
    && (forall i :: 0 <= i < |rows| ==> |rows[i]| >= 3)
    && (rows != [] ==> IsManeuverHeader(rows[0]) || IsBurnHeader(rows[0]))
  }

  predicate IsBurnTable(rows: seq<seq<string>>) {
    rows != [] && IsReadable(rows) && IsBurnHeader(rows[0])
  }

  lemma {:induction false} ReadsExactlyWhen(nodes0: seq<Maneuver>, rows: seq<seq<string>>, n: nat, time: string -> int)
    requires n <= |rows|
    ensures Interpreted(nodes0, rows, n, time).Nodes? <==> IsReadable(rows[..n])
  {
    if n > 0 {
      ReadsExactlyWhen(nodes0, rows, n - 1, time);
      var front, all := rows[..n - 1], rows[..n];
      assert all == front + [rows[n - 1]];
      assert IsReadable(all) <==>
             IsReadable(front) && |rows[n - 1]| >= 3 && (n == 1 ==> !KindOf(rows[0]).OtherFile?) by {
        assert n > 1 ==> front[0] == all[0];
      }
    }
  }

  lemma ResultsDifferExactlyWhen(nodes0: seq<Maneuver>, rows: seq<seq<string>>, trimmed: seq<seq<string>>,
                                 time: string -> int)
    requires SortedByTime(nodes0) && |rows| == |trimmed| && (rows != [] ==> rows[0] == trimmed[0])
    requires forall j :: 0 <= j < |rows| ==> SameButBlank(rows[j], trimmed[j])
    ensures Interpreted(nodes0, rows, |rows|, time) == Interpreted(nodes0, trimmed, |rows|, time) <==>
            !(IsBurnTable(trimmed) && rows != trimmed)
  {
    var n := |rows|;
    if n > 0 {
      ResultsAlike(nodes0, rows, trimmed, n, time);
      ReadsExactlyWhen(nodes0, trimmed, n, time);
      assert trimmed[..n] == trimmed;
      if IsBurnTable(trimmed) && rows != trimmed {
        var i := FirstDifference(rows, trimmed);
        BlankNameIsKept(nodes0, rows, trimmed, time, Interpreted(nodes0, rows, n, time).nodes,
                        Interpreted(nodes0, trimmed, n, time).nodes, i);
      }
    }
  }

  lemma FirstDifference<T>(a: seq<T>, b: seq<T>) returns (i: nat)
    requires |a| == |b| && a != b
    ensures i < |a| && a[i] != b[i]
  {
    i :| 0 <= i < |a| && a[i] != b[i];
  }

  /** The maneuvers of a text are those of its split and trimmed fields unless these are a burn table, with a
      known header and three fields in each line, and some line keeps a blank; then they are not. */
  lemma ManeuversOfTrimmedExactlyWhen(nodes0: seq<Maneuver>, table: seq<seq<string>>, rest: string, time: string -> int)
    requires SortedByTime(nodes0) && IsTable(table) && Ends(rest)
    ensures var rows := Run(START, Text(table) + rest).rows;
            Interpreted(nodes0, rows, |rows|, time) == Interpreted(nodes0, Trimmed(table), |table|, time) <==>
            !(IsBurnTable(Trimmed(table)) && KeepsABlank(table, true))
  {
    ScannerReads(table, rest);
    ScannerTrimsExactlyWhen(table, true);
    TablesSameButBlanks(table, true);
    ResultsDifferExactlyWhen(nodes0, CleanedTable(table, true), Trimmed(table), time);
  }

  lemma TrimsToItself(f: string)
    requires f != "" && f[0] != ' ' && f[|f| - 1] != ' '
    ensures Trim(f) == f
  {
  }

  lemma BurnHeader(header: seq<string>)
    requires header == ["Burn Name", "Start", "End"]
    ensures Cleaned(header, true) == header && !AllBlank(header[2])
  {
    TrimsToItself("Burn Name");
    TrimsToItself("Start");
    TrimsToItself("End");
    assert header[1..] == ["Start", "End"] && ["Start", "End"][1..] == ["End"] && ["End"][1..] == [];
    assert TrimAll(["End"]) == ["End"] && TrimAll(["Start", "End"]) == ["Start", "End"];
  }

  lemma BurnLine(row: seq<string>, t: string, u: string)
    requires row == [" JOI", t, u]
    ensures Cleaned(row, false) == [" JOI", Trim(t), Trim(u)]
  {
    assert TrimEnd(" JOI") == " JOI";
    assert row[1..] == [t, u] && [t, u][1..] == [u] && [u][1..] == [];
    assert TrimAll([u]) == [Trim(u)] && TrimAll([t, u]) == [Trim(t), Trim(u)];
  }

  lemma BurnIsRead(rows: seq<seq<string>>, name: string, t: string, u: string, time: string -> int)
    requires rows == [["Burn Name", "Start", "End"], [name, t, u]]
    ensures Interpreted([], rows, 2, time)
         == Nodes(Inserted([Maneuver(time(t), name, true)], Maneuver(time(u), name, true)))
  {
    var start, end := Maneuver(time(t), name, true), Maneuver(time(u), name, true);
    assert "End" != "Maneuver Name" by {
      assert |"End"| != |"Maneuver Name"|;
    }
    assert KindOf(rows[0]) == JoiFile;
    assert Interpreted([], rows, 1, time) == Nodes([]);
    assert Inserted([], start) == [start] && [start, end][1..] == [end];
    assert InsertedAll([], [start, end]) == InsertedAll([start], [end]) == Inserted([start], end);
  }

  lemma BurnTable(header: seq<string>, row: seq<string>, t: string, u: string)
    requires header == ["Burn Name", "Start", "End"] && row == [" JOI", t, u] && IsTable([header, row])
    ensures CleanedTable([header, row], true) == [header, [" JOI", Trim(t), Trim(u)]]
  {
    BurnHeader(header);
    BurnLine(row, t, u);
    assert [header, row][1..] == [row] && [row][1..] == [];
    assert CleanedTable([row], false) == [Cleaned(row, false)];
  }

  /** The burn of a file with the header "Burn Name,Start,End" and the line " JOI,t,u" is named " JOI". */
  lemma KeptBlank(table: seq<seq<string>>, t: string, u: string, time: string -> int)
    requires table == [["Burn Name", "Start", "End"], [" JOI", t, u]] && Raw(t) && Raw(u)
    ensures var rows := Run(START, Text(table)).rows;
            var start, end := Maneuver(time(Trim(t)), " JOI", true), Maneuver(time(Trim(u)), " JOI", true);
            Interpreted([], rows, |rows|, time) == Nodes(Inserted([start], end))
  {
    assert IsTable(table);
    BurnTable(table[0], table[1], t, u);
    assert table == [table[0], table[1]];
    ScannerReads(table, "");
    assert Text(table) + "" == Text(table);
    BurnIsRead([table[0], [" JOI", Trim(t), Trim(u)]], " JOI", Trim(t), Trim(u), time);
  }

  /** The rows that the scanner has read do not change any more. */
  lemma {:induction false} RowsGrow(st: Scan, text: string)
    ensures st.rows <= Run(st, text).rows
    decreases |text|
  {
    if text != "" {
      RowsGrow(Next(st, text[0]), text[1..]);
    }
  }

  lemma {:induction false} FailureStays(nodes0: seq<Maneuver>, rows: seq<seq<string>>, all: seq<seq<string>>,
                                        time: string -> int)
    requires rows <= all && !Interpreted(nodes0, rows, |rows|, time).Nodes?
    ensures Interpreted(nodes0, all, |all|, time) == Interpreted(nodes0, rows, |rows|, time)
    decreases |all|
  {
    if |rows| == |all| {
      assert rows == all;
    } else {
      var front := all[..|all| - 1];
      FailureStays(nodes0, rows, front, time);
      SamePrefix(nodes0, front, all, |front|, time);
    }
  }

  lemma {:induction false} SamePrefix(nodes0: seq<Maneuver>, rows: seq<seq<string>>, all: seq<seq<string>>, n: nat,
                                      time: string -> int)
    requires rows <= all && n <= |rows|
    ensures Interpreted(nodes0, rows, n, time) == Interpreted(nodes0, all, n, time)
  {
    if n > 0 {
      SamePrefix(nodes0, rows, all, n - 1, time);
    }
  }

  /** A line of the file: the header, or one maneuver. */
  method HandleLine(nodes0: seq<Maneuver>, ghost rows: seq<seq<string>>, line: nat, header: seq<string>,
                    row: seq<string>,
                    time: string -> int, ghost start: seq<Maneuver>)
    returns (r: Result)
    requires Interpreted(start, rows, |rows|, time) == Nodes(nodes0)
    requires line == |rows| && (line > 0 ==> header == rows[0] && |header| >= 3) && (line == 0 ==> header == row)
    ensures r == Interpreted(start, rows + [row], |rows| + 1, time)
  {
    SamePrefix(start, rows, rows + [row], |rows|, time);
    if |row| < 3 {
      return OutOfRange;
    }
    if line == 0 {
      return if KindOf(row).OtherFile? then NotManeuvers else Nodes(nodes0);
    }
    r := Nodes(InsertedAll(nodes0, NodesOf(KindOf(header), row, time)));
  }

  /** Where the scanner stops reading, it has all rows of the text. */
  lemma RowsComplete(text: string, i: nat)
    requires i < |text| && Run(START, text[..i + 1]).done
    ensures Run(START, text).rows == Run(START, text[..i + 1]).rows
  {
    assert text == text[..i + 1] + text[i + 1..];
    RunConcat(START, text[..i + 1], text[i + 1..]);
    ReadNothing(Run(START, text[..i + 1]), text[i + 1..]);
  }

  lemma RowsBegin(text: string, i: nat)
    requires i < |text|
    ensures Run(START, text[..i + 1]).rows <= Run(START, text).rows
  {
    assert text == text[..i + 1] + text[i + 1..];
    RunConcat(START, text[..i + 1], text[i + 1..]);
    RowsGrow(Run(START, text[..i + 1]), text[i + 1..]);
  }

  lemma RunNext(text: string, i: nat, st: Scan)
    requires i < |text| && st == Run(START, text[..i])
    ensures Run(START, text[..i + 1]) == Next(st, text[i])
  {
    assert text[..i + 1] == text[..i] + [text[i]];
    RunOne(START, text[..i], text[i]);
  }

  /** A failure at some line is the failure of the whole text. */
  lemma FailsForGood(nodes0: seq<Maneuver>, text: string, i: nat, rows: seq<seq<string>>, time: string -> int)
    requires i < |text| && rows == Run(START, text[..i + 1]).rows
    requires !Interpreted(nodes0, rows, |rows|, time).Nodes?
    ensures var all := Run(START, text).rows;
            Interpreted(nodes0, all, |all|, time) == Interpreted(nodes0, rows, |rows|, time)
  {
    RowsBegin(text, i);
    FailureStays(nodes0, rows, Run(START, text).rows, time);
  }

  /** get_maneuver_times: the maneuvers of a file are added to a list. */
  method GetManeuverTimes(nodes0: seq<Maneuver>, text: string, time: string -> int) returns (r: Result)
    ensures var rows := Run(START, text).rows;
            r == Interpreted(nodes0, rows, |rows|, time)
  {
    var fields: seq<string>, header: seq<string> := [], [];
    var s, blanks, omitBlanks, line := "", "", true, 0;
    ghost var rows: seq<seq<string>> := [];
    ghost var st := START;
    var nodes := nodes0;
    for i := 0 to |text|
      invariant st == Run(START, text[..i])
      invariant st == Scan(rows, fields, s, blanks, omitBlanks, false)
      invariant line == |rows| && (line > 0 ==> header == rows[0] && |header| >= 3)
      invariant Interpreted(nodes0, rows, |rows|, time) == Nodes(nodes)
    {
      var c := text[i];
      RunNext(text, i, st);
      st := Next(st, c);
      if c == ' ' {
        if !omitBlanks {
          blanks := blanks + " ";
        }
      } else if c == '\n' {
        if fields == [] {
          RowsComplete(text, i);
          return Nodes(nodes);
        }
        blanks := "";
        fields := fields + [s];
        s := "";
        if line == 0 {
          header := fields;
        }
        r := HandleLine(nodes, rows, line, header, fields, time, nodes0);
        rows := rows + [fields];
        if !r.Nodes? {
          FailsForGood(nodes0, text, i, rows, time);
          return;
        }
        nodes := r.nodes;
        fields := [];
        line := line + 1;
      } else if c == ',' {
        fields := fields + [s];
        s := "";
        blanks := "";
        omitBlanks := true;
      } else {
        if !omitBlanks {
          s := s + blanks;
          blanks := "";
        }
        s := s + [c];
        omitBlanks := false;
      }
    }
    assert text[..|text|] == text;
    r := Nodes(nodes);
  }
}
