/**
 * The loop `while read REGION ZONE HOST DEVICE_NAME WEIGHT NODE` of swift-ring-tool as a parser of devices.txt:
 * the parser half of the format that DeviceList prints.
 */
module ReadLoop {
  import opened Text
  import opened DeviceList

  /** A character of an input line; a backslash quotes the character after it. */
  datatype Cell = Cell(ch: char, quoted: bool)

  /** One line of input without its newline, and the rest of the input. */
  datatype Line = Line(cells: seq<Cell>, rest: string)

  /**
   * `read` without -r: a backslash quotes the next character and joins lines before a newline; input that
   * ends before a newline makes `read` fail, so the loop body does not run for it.
   */
  function ScanLine(t: string): (r: Option<Line>)
    ensures r.Some? ==> |r.value.rest| < |t|
  {
    if t == "" then None
    else if t[0] == '\n' then Some(Line([], t[1..]))
    else if t[0] == '\\' then
      if |t| == 1 then None
      else if t[1] == '\n' then ScanLine(t[2..])
      else Prepend(Cell(t[1], true), ScanLine(t[2..]))
    else Prepend(Cell(t[0], false), ScanLine(t[1..]))
  }

  function Prepend(c: Cell, l: Option<Line>): Option<Line> {
    if l.None? then None else Some(l.value.(cells := [c] + l.value.cells))
  }

  predicate Blank(c: Cell) { !c.quoted && (c.ch == ' ' || c.ch == '\t') }

  function SkipBlanks(cs: seq<Cell>): (r: seq<Cell>)
    ensures |r| <= |cs|
  {
    if cs != [] && Blank(cs[0]) then SkipBlanks(cs[1..]) else cs
  }

  function TrimBlanks(cs: seq<Cell>): seq<Cell> {
    if cs != [] && Blank(cs[|cs|-1]) then TrimBlanks(cs[..|cs|-1]) else cs
  }

  function WordLength(cs: seq<Cell>): (n: nat)
    ensures n <= |cs|
  {
    if cs == [] || Blank(cs[0]) then 0 else 1 + WordLength(cs[1..])
  }

  function Chars(cs: seq<Cell>): string {
    if cs == [] then "" else [cs[0].ch] + Chars(cs[1..])
  }

  /** Field splitting into n variables; the last one takes the rest of the line. */
  function Fields(cs: seq<Cell>, n: nat): (r: seq<string>)
    ensures |r| == n
    decreases n
  {
    var t := SkipBlanks(cs);
    if n == 0 then []
    else if n == 1 then [Chars(TrimBlanks(t))]
    else [Chars(t[..WordLength(t)])] + Fields(t[WordLength(t)..], n - 1)
  }

  function ToRecord(f: seq<string>): Record
    requires |f| == 6
  {
    Record(f[0], f[1], f[2], f[3], f[4], f[5])
  }

  /** The records the loop body sees, in order. */
  function ReadAll(t: string): seq<Record>
    decreases |t|
  {
    match ScanLine(t)
    case None => []
    case Some(l) => [ToRecord(Fields(l.cells, 6))] + ReadAll(l.rest)
  }

  // ----- what is printed is what is read -----

  const SPECIAL: set<char> := {' ', '\t', '\n', '\\'}

  predicate CleanWord(w: string) { w != "" && Free(w, SPECIAL) }

  /** What the last variable can take: inner blanks are kept, outer ones are trimmed. */
  predicate LastWord(w: string) {
    Free(w, {'\n', '\\'}) && (w != "" ==> w[0] !in {' ', '\t'} && w[|w|-1] !in {' ', '\t'})
  }

  /** The six variables of the loop. */
  function Vars(r: Record): (f: seq<string>)
    ensures |f| == 6
  {
    [r.region, r.zone, r.host, r.device, r.weight, r.node]
  }

  /** The non-empty words come first. */
  predicate Leading(f: seq<string>) { forall i, j | 0 <= i < j < |f| :: f[i] == "" ==> f[j] == "" }

  /** The records that the loop reads back as they were printed. */
  predicate Exact(r: Record) {
    Leading(Vars(r)) && LastWord(r.node) && forall i | 0 <= i < 5 :: Free(Vars(r)[i], SPECIAL)
  }

  function Plain(w: string): seq<Cell> {
    if w == "" then [] else [Cell(w[0], false)] + Plain(w[1..])
  }

  /** The cells of words separated by single blanks. */
  function Row(ws: seq<string>): seq<Cell> {
    if ws == [] then [] else if |ws| == 1 then Plain(ws[0]) else Plain(ws[0]) + [Cell(' ', false)] + Row(ws[1..])
  }

  lemma {:induction false} ScanWord(w: string, t: string)
    requires Free(w, {'\n', '\\'})
    ensures ScanLine(w + t) ==
      match ScanLine(t) case None => None case Some(l) => Some(Line(Plain(w) + l.cells, l.rest))
  {
    if w == "" {
      assert w + t == t;
      assert ScanLine(t).Some? ==> Plain(w) + ScanLine(t).value.cells == ScanLine(t).value.cells;
    } else {
      assert (w + t)[0] == w[0] && (w + t)[1..] == w[1..] + t;
      assert w[0] in w && Free(w[1..], {'\n', '\\'});
      ScanWord(w[1..], t);
      if ScanLine(t).Some? {
        assert Plain(w) + ScanLine(t).value.cells == [Cell(w[0], false)] + (Plain(w[1..]) + ScanLine(t).value.cells);
      }
    }
  }

  lemma ScanLastWord(w: string, t: string)
    requires Free(w, {'\n', '\\'})
    ensures ScanLine(w + ("\n" + t)) == Some(Line(Plain(w), t))
  {
    assert ("\n" + t)[0] == '\n' && ("\n" + t)[1..] == t;
    ScanWord(w, "\n" + t);
    assert Plain(w) + [] == Plain(w);
  }

  lemma ScanFirstWord(w: string, tail: string, l: Line)
    requires Free(w, {'\n', '\\'}) && ScanLine(tail) == Some(l)
    ensures ScanLine(w + (" " + tail)) == Some(Line(Plain(w) + ([Cell(' ', false)] + l.cells), l.rest))
  {
    assert (" " + tail)[0] == ' ' && (" " + tail)[1..] == tail;
    ScanWord(w, " " + tail);
  }

  lemma {:induction false} ScanRow(ws: seq<string>, t: string)
    requires ws != [] && forall w | w in ws :: Free(w, {'\n', '\\'})
    ensures ScanLine(Join(ws) + t) == Some(Line(Row(ws), t))
  {
    assert ws[0] in ws;
    if |ws| == 1 {
      ScanLastWord(ws[0], t);
      assert Join(ws) + t == ws[0] + ("\n" + t);
    } else {
      assert forall w | w in ws[1..] :: w in ws;
      ScanRow(ws[1..], t);
      ScanFirstWord(ws[0], Join(ws[1..]) + t, Line(Row(ws[1..]), t));
      JoinTail(ws, t);
      RowTail(ws);
    }
  }

  lemma JoinTail(ws: seq<string>, t: string)
    requires |ws| > 1
    ensures Join(ws) + t == ws[0] + (" " + (Join(ws[1..]) + t))
  {
  }

  lemma RowTail(ws: seq<string>)
    requires |ws| > 1
    ensures Row(ws) == Plain(ws[0]) + ([Cell(' ', false)] + Row(ws[1..]))
  {
  }

  lemma {:induction false} PlainChars(w: string)
    ensures Chars(Plain(w)) == w && |Plain(w)| == |w|
    ensures forall i | 0 <= i < |w| :: Plain(w)[i] == Cell(w[i], false)
  {
    if w != "" {
      PlainChars(w[1..]);
      assert Plain(w)[1..] == Plain(w[1..]);
    }
  }

  lemma WordLengthCons(c: Cell, cs: seq<Cell>)
    requires !Blank(c)
    ensures WordLength([c] + cs) == 1 + WordLength(cs)
  {
    assert ([c] + cs)[1..] == cs;
  }

  lemma {:induction false} WordEnds(w: string, more: seq<Cell>)
    requires Free(w, SPECIAL) && (more == [] || Blank(more[0]))
    ensures WordLength(Plain(w) + more) == |w|
  {
    if w == "" {
      assert Plain(w) + more == more;
    } else {
      assert w[0] in w && Free(w[1..], SPECIAL);
      WordEnds(w[1..], more);
      WordLengthCons(Cell(w[0], false), Plain(w[1..]) + more);
      assert Plain(w) + more == [Cell(w[0], false)] + (Plain(w[1..]) + more);
    }
  }

  /** One variable takes one clean word and leaves what follows it. */
  lemma OneField(w: string, more: seq<Cell>, n: nat)
    requires CleanWord(w) && n > 1 && (more == [] || Blank(more[0]))
    ensures Fields(Plain(w) + more, n) == [w] + Fields(more, n - 1)
  {
    var cs := Plain(w) + more;
    PlainChars(w);
    assert w[0] in w && cs[0] == Cell(w[0], false);
    assert SkipBlanks(cs) == cs;
    WordEnds(w, more);
    assert cs[..|w|] == Plain(w) && cs[|w|..] == more;
  }

  lemma BlankBefore(cs: seq<Cell>, n: nat)
    ensures Fields([Cell(' ', false)] + cs, n) == Fields(cs, n)
  {
    assert ([Cell(' ', false)] + cs)[1..] == cs;
  }

  lemma LastField(w: string)
    requires LastWord(w)
    ensures Fields(Plain(w), 1) == [w]
  {
    PlainChars(w);
    if w != "" {
      assert SkipBlanks(Plain(w)) == Plain(w) && TrimBlanks(Plain(w)) == Plain(w);
    }
  }

  function Padded(ws: seq<string>, n: nat): seq<string> {
    if n == |ws| then ws else ws + [""]
  }

  lemma PaddedTail(ws: seq<string>, n: nat)
    requires ws != [] && n > 0
    ensures Padded(ws, n) == [ws[0]] + Padded(ws[1..], n - 1)
  {
    assert ws == [ws[0]] + ws[1..];
  }

  /** Words that n variables can take: the last variable is lenient. */
  predicate Takes(ws: seq<string>, n: nat) {
    |ws| <= n <= |ws| + 1 && Leading(ws) &&
    forall i | 0 <= i < |ws| :: if i == n - 1 then LastWord(ws[i]) else Free(ws[i], SPECIAL)
  }

  lemma TakesTail(ws: seq<string>, n: nat)
    requires |ws| > 1 && Takes(ws, n)
    ensures Takes(ws[1..], n - 1)
  {
  }

  lemma {:induction false} BlankRow(ws: seq<string>)
    requires forall w | w in ws :: w == ""
    ensures forall c | c in Row(ws) :: Blank(c)
  {
    if ws != [] {
      assert ws[0] in ws && Plain(ws[0]) == [];
      assert forall w | w in ws[1..] :: w in ws;
      BlankRow(ws[1..]);
    }
  }

  lemma {:induction false} SkipAll(cs: seq<Cell>)
    requires forall c | c in cs :: Blank(c)
    ensures SkipBlanks(cs) == []
  {
    if cs != [] {
      SkipAll(cs[1..]);
    }
  }

  lemma {:induction false} NoFields(cs: seq<Cell>, n: nat)
    requires forall c | c in cs :: Blank(c)
    ensures forall w | w in Fields(cs, n) :: w == ""
    decreases n
  {
    SkipAll(cs);
    if n > 1 {
      NoFields([], n - 1);
    }
  }

  lemma EmptyWords(ws: seq<string>, n: nat)
    requires ws != [] && ws[0] == "" && Takes(ws, n)
    ensures Fields(Row(ws), n) == Padded(ws, n)
  {
    forall w | w in ws ensures w == "" {
      var i :| 0 <= i < |ws| && ws[i] == w;
    }
    BlankRow(ws);
    NoFields(Row(ws), n);
    var f, p := Fields(Row(ws), n), Padded(ws, n);
    forall i | 0 <= i < n ensures f[i] == p[i] {
      assert f[i] in f;
    }
  }

  /** n variables take n words, or n - 1 words and then nothing. */
  lemma {:induction false} FieldsOfRow(ws: seq<string>, n: nat)
    requires ws != [] && Takes(ws, n)
    ensures Fields(Row(ws), n) == Padded(ws, n)
  {
    if ws[0] == "" {
      EmptyWords(ws, n);
    } else if |ws| == 1 {
      SingleField(ws, n);
    } else {
      FirstOfRow(ws, n);
      TakesTail(ws, n);
      FieldsOfRow(ws[1..], n - 1);
      PaddedTail(ws, n);
    }
  }

  lemma SingleField(ws: seq<string>, n: nat)
    requires |ws| == 1 && ws[0] != "" && Takes(ws, n)
    ensures Fields(Row(ws), n) == Padded(ws, n)
  {
    var w := ws[0];
    assert ws == [w];
    if n == 1 {
      LastField(w);
    } else {
      assert Plain(w) + [] == Plain(w);
      OneField(w, [], 2);
      LastField("");
    }
  }

  lemma FirstOfRow(ws: seq<string>, n: nat)
    requires |ws| > 1 && n > 1 && CleanWord(ws[0])
    ensures Fields(Row(ws), n) == [ws[0]] + Fields(Row(ws[1..]), n - 1)
  {
    var more := [Cell(' ', false)] + Row(ws[1..]);
    RowTail(ws);
    OneField(ws[0], more, n);
    BlankBefore(Row(ws[1..]), n - 1);
  }

  lemma WordsTaken(r: Record)
    requires Exact(r)
    ensures Takes(Words(r), 6) && Padded(Words(r), 6) == Vars(r)
    ensures forall w | w in Words(r) :: Free(w, {'\n', '\\'})
  {
    var ws, f := Words(r), Vars(r);
    assert ws == f[..|ws|];
    forall i | 0 <= i < |ws| ensures Free(ws[i], {'\n', '\\'}) {
      assert ws[i] == f[i];
    }
  }

  /** An exact record is read back as itself. */
  lemma ReadRendered(r: Record, t: string)
    requires Exact(r)
    ensures ReadAll(Render(r) + t) == [r] + ReadAll(t)
  {
    WordsTaken(r);
    ScanRow(Words(r), t);
    FieldsOfRow(Words(r), 6);
    FromVars(r);
  }

  lemma FromVars(r: Record)
    ensures ToRecord(Vars(r)) == r
  {
  }

  lemma FlattenCons(x: string, lines: seq<string>)
    ensures Flatten([x] + lines) == x + Flatten(lines)
  {
    assert ([x] + lines)[1..] == lines;
  }

  lemma LinesText(rs: seq<Record>)
    requires rs != []
    ensures Flatten(Lines(rs)) == Render(rs[0]) + Flatten(Lines(rs[1..]))
  {
    FlattenCons(Render(rs[0]), Lines(rs[1..]));
  }

  lemma ReadFirst(r: Record, t: string, rs: seq<Record>)
    requires Exact(r) && ReadAll(t) == rs
    ensures ReadAll(Render(r) + t) == [r] + rs
  {
    ReadRendered(r, t);
  }

  lemma {:induction false} ReadLines(rs: seq<Record>, t: string)
    requires t == Flatten(Lines(rs)) && forall i | 0 <= i < |rs| :: Exact(rs[i])
    ensures ReadAll(t) == rs
  {
    if rs == [] {
      assert t == "";
    } else {
      var rest := Flatten(Lines(rs[1..]));
      ReadLines(rs[1..], rest);
      ReadFirst(rs[0], rest, rs[1..]);
      LinesText(rs);
      assert t == Render(rs[0]) + rest && rs == [rs[0]] + rs[1..];
    }
  }

  lemma {:induction false} LineOf(rs: seq<Record>, x: string) returns (r: Record)
    requires x in Lines(rs)
    ensures r in rs && x == Render(r)
  {
    if x == Render(rs[0]) {
      r := rs[0];
    } else {
      assert x in Lines(rs)[1..];
      r := LineOf(rs[1..], x);
    }
  }

  lemma LinesOfCons(r: Record, rs: seq<Record>)
    ensures Lines([r] + rs) == [Render(r)] + Lines(rs)
  {
    assert ([r] + rs)[1..] == rs;
  }

  lemma FindLine(lines: seq<string>, rs: seq<Record>) returns (r: Record, rest: seq<Record>)
    requires lines != [] && multiset(lines) == multiset(Lines(rs))
    ensures lines[0] == Render(r) && multiset(rs) == multiset(rest) + multiset{r}
    ensures multiset(lines[1..]) == multiset(Lines(rest))
  {
    Uncons(lines);
    assert lines[0] in multiset(Lines(rs));
    r := LineOf(rs, lines[0]);
    rest := TakeRecord(rs, r);
  }

  lemma TakeRecord(rs: seq<Record>, r: Record) returns (rest: seq<Record>)
    requires r in rs
    ensures multiset(rs) == multiset(rest) + multiset{r}
    ensures multiset(Lines(rs)) == multiset(Lines(rest)) + multiset{Render(r)}
  {
    var a, b := Split(rs, r);
    LinesMiddle(a, r, b);
    rest := a + b;
  }

  /** Reordered lines are the lines of reordered records. */
  lemma {:induction false} Unsort(lines: seq<string>, rs: seq<Record>) returns (s: seq<Record>)
    requires multiset(lines) == multiset(Lines(rs))
    ensures multiset(s) == multiset(rs) && Lines(s) == lines
    decreases |lines|
  {
    if lines == [] {
      LinesLength(rs);
      assert |rs| == |multiset(Lines(rs))| == |multiset(lines)|;
      s := [];
    } else {
      var r, rest := FindLine(lines, rs);
      var tail := Unsort(lines[1..], rest);
      s := [r] + tail;
      LinesOfCons(r, tail);
      Uncons(lines);
    }
  }

  lemma {:induction false} LinesLength(rs: seq<Record>)
    ensures |Lines(rs)| == |rs|
  {
    if rs != [] {
      LinesLength(rs[1..]);
    }
  }

  /** A last line without a newline is not read, and a backslash before a newline joins two lines. */
  lemma {:induction false} UnterminatedIsLost(t: string)
    requires '\n' !in t
    ensures ReadAll(t) == []
  {
    NoLine(t);
  }

  lemma {:induction false} NoLine(t: string)
    requires '\n' !in t
    ensures ScanLine(t).None?
    decreases |t|
  {
    if t != "" && t[0] == '\\' {
      if |t| > 1 {
        assert t[1] in t;
        NoLine(t[2..]);
      }
    } else if t != "" {
      assert t[0] in t;
      NoLine(t[1..]);
    }
  }

  lemma BackslashJoins(t: string)
    ensures ScanLine("\\\n" + t) == ScanLine(t)
  {
    assert ("\\\n" + t)[2..] == t;
  }
}
