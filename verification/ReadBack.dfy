/** Exactly which records survive the way through devices.txt: the converse of ReadLoop. */
module ReadBack {
  import opened Text
  import opened DeviceList
  import opened ReadLoop

  // ----- backslashes: every one that is read has used up two -----

  function Slashes(s: string): nat { multiset(s)['\\'] }

  lemma SlashesConcat(a: string, b: string)
    ensures Slashes(a + b) == Slashes(a) + Slashes(b)
  {
  }

  lemma SlashesCons(s: string)
    requires s != ""
    ensures Slashes(s) == (if s[0] == '\\' then 1 else 0) + Slashes(s[1..])
  {
    assert s == [s[0]] + s[1..];
    SlashesConcat([s[0]], s[1..]);
  }

  lemma {:induction false} CharsConcat(a: seq<Cell>, b: seq<Cell>)
    ensures Chars(a + b) == Chars(a) + Chars(b)
  {
    if a == [] {
      assert a + b == b;
    } else {
      assert (a + b)[1..] == a[1..] + b;
      CharsConcat(a[1..], b);
    }
  }

  lemma PartSlashes(a: seq<Cell>, b: seq<Cell>)
    ensures Slashes(Chars(a + b)) == Slashes(Chars(a)) + Slashes(Chars(b))
  {
    CharsConcat(a, b);
    SlashesConcat(Chars(a), Chars(b));
  }

  /** The cells of a line hold no newline; without backslashes none is quoted. */
  predicate Neat(cs: seq<Cell>, quoting: bool) {
    forall c | c in cs :: c.ch != '\n' && (!quoting ==> !c.quoted && c.ch != '\\')
  }

  lemma {:induction false} ScanHalves(t: string)
    requires ScanLine(t).Some?
    ensures var l := ScanLine(t).value;
      2 * Slashes(Chars(l.cells)) + Slashes(l.rest) <= Slashes(t) && Neat(l.cells, Slashes(t) > 0)
    decreases |t|
  {
    SlashesCons(t);
    if t[0] == '\\' {
      SlashesCons(t[1..]);
      assert t[1..][1..] == t[2..];
      ScanHalves(t[2..]);
      if t[1] != '\n' {
        PrependSlashes(Cell(t[1], true), ScanLine(t[2..]).value.cells);
      }
    } else if t[0] != '\n' {
      ScanHalves(t[1..]);
      PrependSlashes(Cell(t[0], false), ScanLine(t[1..]).value.cells);
    }
  }

  lemma PrependSlashes(c: Cell, cs: seq<Cell>)
    ensures Slashes(Chars([c] + cs)) == (if c.ch == '\\' then 1 else 0) + Slashes(Chars(cs))
  {
    assert Chars([c]) == [c.ch];
    PartSlashes([c], cs);
  }

  lemma {:induction false} SkipIsSuffix(cs: seq<Cell>) returns (front: seq<Cell>)
    ensures cs == front + SkipBlanks(cs)
    ensures SkipBlanks(cs) != [] ==> !Blank(SkipBlanks(cs)[0])
  {
    if cs != [] && Blank(cs[0]) {
      front := SkipIsSuffix(cs[1..]);
      front := [cs[0]] + front;
    } else {
      front := [];
    }
  }

  lemma {:induction false} TrimIsPrefix(cs: seq<Cell>) returns (back: seq<Cell>)
    ensures cs == TrimBlanks(cs) + back
    ensures TrimBlanks(cs) != [] ==> !Blank(TrimBlanks(cs)[|TrimBlanks(cs)|-1])
  {
    if cs != [] && Blank(cs[|cs|-1]) {
      back := TrimIsPrefix(cs[..|cs|-1]);
      back := back + [cs[|cs|-1]];
    } else {
      back := [];
    }
  }

  lemma {:induction false} WordHasNoBlank(cs: seq<Cell>)
    ensures forall i | 0 <= i < WordLength(cs) :: !Blank(cs[i])
    ensures cs != [] && !Blank(cs[0]) ==> WordLength(cs) > 0
  {
    if cs != [] && !Blank(cs[0]) {
      WordHasNoBlank(cs[1..]);
    }
  }

  /** The word that the first of several variables takes, and the cells it leaves. */
  function First(cs: seq<Cell>): seq<Cell> { SkipBlanks(cs)[..WordLength(SkipBlanks(cs))] }

  function Rest(cs: seq<Cell>): seq<Cell> { SkipBlanks(cs)[WordLength(SkipBlanks(cs))..] }

  lemma FieldsCons(cs: seq<Cell>, n: nat)
    requires n > 1
    ensures Fields(cs, n) == [Chars(First(cs))] + Fields(Rest(cs), n - 1)
  {
  }

  lemma FirstAndRest(cs: seq<Cell>)
    ensures Slashes(Chars(First(cs))) + Slashes(Chars(Rest(cs))) <= Slashes(Chars(cs))
    ensures forall c | c in First(cs) :: !Blank(c) && c in cs
    ensures forall c | c in Rest(cs) :: c in cs
    ensures First(cs) == [] ==> Rest(cs) == []
  {
    var t := SkipBlanks(cs);
    var front := SkipIsSuffix(cs);
    WordHasNoBlank(t);
    assert t == First(cs) + Rest(cs);
    PartSlashes(front, t);
    PartSlashes(First(cs), Rest(cs));
  }

  /** The last variable gets the rest of the line without its outer blanks. */
  lemma LastCells(cs: seq<Cell>) returns (front: seq<Cell>, w: seq<Cell>, back: seq<Cell>)
    ensures cs == front + (w + back) && Fields(cs, 1) == [Chars(w)]
    ensures w != [] ==> !Blank(w[0]) && !Blank(w[|w|-1])
  {
    w := TrimBlanks(SkipBlanks(cs));
    front := SkipIsSuffix(cs);
    back := TrimIsPrefix(SkipBlanks(cs));
    assert w != [] ==> w[0] == SkipBlanks(cs)[0];
  }

  lemma LastHalves(cs: seq<Cell>)
    ensures Slashes(Flatten(Fields(cs, 1))) <= Slashes(Chars(cs))
  {
    var front, w, back := LastCells(cs);
    PartSlashes(front, w + back);
    PartSlashes(w, back);
    FlattenCons(Chars(w), []);
    assert Chars(w) + "" == Chars(w);
  }

  lemma {:induction false} FieldsHalve(cs: seq<Cell>, n: nat)
    requires n > 0
    ensures Slashes(Flatten(Fields(cs, n))) <= Slashes(Chars(cs))
    decreases n
  {
    if n == 1 {
      LastHalves(cs);
    } else {
      FieldsCons(cs, n);
      FirstAndRest(cs);
      FieldsHalve(Rest(cs), n - 1);
      FlattenCons(Chars(First(cs)), Fields(Rest(cs), n - 1));
      SlashesConcat(Chars(First(cs)), Flatten(Fields(Rest(cs), n - 1)));
    }
  }

  function RecordSlashes(rs: seq<Record>): nat {
    if rs == [] then 0 else Slashes(Flatten(Vars(rs[0]))) + RecordSlashes(rs[1..])
  }

  lemma VarsOf(f: seq<string>)
    requires |f| == 6
    ensures Vars(ToRecord(f)) == f
  {
  }

  /** A text has at least twice the backslashes of the records that are read from it. */
  lemma {:induction false} ReadHalves(t: string)
    ensures 2 * RecordSlashes(ReadAll(t)) <= Slashes(t)
    decreases |t|
  {
    if ScanLine(t).Some? {
      var l := ScanLine(t).value;
      ScanHalves(t);
      FieldsHalve(l.cells, 6);
      VarsOf(Fields(l.cells, 6));
      ReadHalves(l.rest);
      assert ReadAll(t)[1..] == ReadAll(l.rest);
    }
  }

  // ----- without backslashes, what is read is exact -----

  lemma {:induction false} CharsAt(cs: seq<Cell>)
    ensures |Chars(cs)| == |cs| && forall i | 0 <= i < |cs| :: Chars(cs)[i] == cs[i].ch
  {
    if cs != [] {
      CharsAt(cs[1..]);
    }
  }

  lemma LastIsExact(cs: seq<Cell>)
    requires Neat(cs, false)
    ensures Takes(Fields(cs, 1), 1)
  {
    var front, w, back := LastCells(cs);
    CharsAt(w);
    assert forall i | 0 <= i < |w| :: w[i] == cs[|front| + i] && w[i] in cs;
  }

  lemma NeatPart(part: seq<Cell>, cs: seq<Cell>)
    requires Neat(cs, false) && forall c | c in part :: c in cs
    ensures Neat(part, false)
  {
  }

  lemma CleanChars(cs: seq<Cell>)
    requires Neat(cs, false) && forall c | c in cs :: !Blank(c)
    ensures Free(Chars(cs), SPECIAL) && |Chars(cs)| == |cs|
  {
    CharsAt(cs);
    forall i | 0 <= i < |cs| ensures Chars(cs)[i] !in SPECIAL {
      assert cs[i] in cs;
    }
  }

  lemma FirstIsClean(cs: seq<Cell>)
    requires Neat(cs, false)
    ensures Free(Chars(First(cs)), SPECIAL) && Neat(Rest(cs), false)
    ensures Chars(First(cs)) == "" ==> Rest(cs) == []
  {
    FirstAndRest(cs);
    var first, rest := First(cs), Rest(cs);
    NeatPart(first, cs);
    NeatPart(rest, cs);
    CleanChars(first);
  }

  lemma BlankRest(w: string, rest: seq<Cell>, f: seq<string>)
    requires w == "" ==> rest == []
    requires f == Fields(rest, |f|)
    ensures w == "" ==> forall x | x in f :: x == ""
  {
    if w == "" {
      NoFields(rest, |f|);
    }
  }

  /** The values that n variables get from unquoted cells. */
  lemma {:induction false} FieldsAreExact(cs: seq<Cell>, n: nat) returns (g: seq<string>)
    requires n > 0 && Neat(cs, false)
    ensures g == Fields(cs, n) && Takes(g, n)
    decreases n
  {
    if n == 1 {
      LastIsExact(cs);
      g := Fields(cs, n);
    } else {
      FirstIsClean(cs);
      var f := FieldsAreExact(Rest(cs), n - 1);
      BlankRest(Chars(First(cs)), Rest(cs), f);
      LeadingCons(Chars(First(cs)), f, n);
      FieldsCons(cs, n);
      g := [Chars(First(cs))] + f;
    }
  }

  lemma LeadingCons(w: string, f: seq<string>, n: nat)
    requires n > 1 && |f| == n - 1 && Takes(f, n - 1) && Free(w, SPECIAL)
    requires w == "" ==> forall x | x in f :: x == ""
    ensures Takes([w] + f, n)
  {
    var g := [w] + f;
    assert forall i | 0 <= i < |f| :: g[i + 1] == f[i] && f[i] in f;
    forall i, j | 0 <= i < j < |g| && g[i] == "" ensures g[j] == "" {
      assert g[j] == f[j - 1];
      if i > 0 {
        assert g[i] == f[i - 1];
      }
    }
    forall i | 0 <= i < |g| ensures if i == n - 1 then LastWord(g[i]) else Free(g[i], SPECIAL) {
      if i > 0 {
        assert g[i] == f[i - 1];
      }
    }
  }

  lemma TakesIsExact(f: seq<string>)
    requires |f| == 6 && Takes(f, 6)
    ensures Exact(ToRecord(f))
  {
    VarsOf(f);
  }

  lemma {:induction false} ReadIsExact(t: string)
    requires Slashes(t) == 0
    ensures forall r | r in ReadAll(t) :: Exact(r)
    decreases |t|
  {
    if ScanLine(t).Some? {
      var l := ScanLine(t).value;
      ScanHalves(t);
      var f := FieldsAreExact(l.cells, 6);
      TakesIsExact(f);
      ReadIsExact(l.rest);
    }
  }

  // ----- the round trip, exactly -----

  lemma {:induction false} JoinSlashes(ws: seq<string>)
    ensures Slashes(Join(ws)) == Slashes(Flatten(ws))
  {
    if |ws| == 1 {
      FlattenCons(ws[0], []);
      assert ws == [ws[0]] + [] && ws[0] + "" == ws[0];
      SlashesConcat(ws[0], "\n");
    } else if ws != [] {
      JoinSlashes(ws[1..]);
      assert ws == [ws[0]] + ws[1..];
      SlashesConcat(ws[0], " " + Join(ws[1..]));
      SlashesConcat(" ", Join(ws[1..]));
      assert Join(ws) == ws[0] + (" " + Join(ws[1..]));
      SlashesConcat(ws[0], Flatten(ws[1..]));
    }
  }

  lemma {:induction false} FlattenSnoc(ws: seq<string>, w: string)
    ensures Flatten(ws + [w]) == Flatten(ws) + w
  {
    if ws == [] {
      assert [] + [w] == [w] && [w][1..] == [];
    } else {
      assert (ws + [w])[1..] == ws[1..] + [w];
      FlattenSnoc(ws[1..], w);
    }
  }

  lemma RenderSlashes(r: Record)
    ensures Slashes(Render(r)) == Slashes(Flatten(Vars(r)))
  {
    JoinSlashes(Words(r));
    if r.node == "" {
      assert Vars(r) == Words(r) + [""];
      FlattenSnoc(Words(r), "");
      assert Flatten(Words(r)) + "" == Flatten(Words(r));
    } else {
      assert Vars(r) == Words(r);
    }
  }

  lemma {:induction false} LinesSlashes(rs: seq<Record>)
    ensures Slashes(Flatten(Lines(rs))) == RecordSlashes(rs)
  {
    if rs != [] {
      LinesSlashes(rs[1..]);
      RenderSlashes(rs[0]);
      SlashesConcat(Render(rs[0]), Flatten(Lines(rs[1..])));
      FlattenCons(Render(rs[0]), Lines(rs[1..]));
    }
  }

  lemma {:induction false} RecordSlashesMiddle(a: seq<Record>, x: Record, b: seq<Record>)
    ensures RecordSlashes(a + [x] + b) == Slashes(Flatten(Vars(x))) + RecordSlashes(a + b)
  {
    if a == [] {
      assert a + [x] + b == [x] + b && a + b == b && ([x] + b)[1..] == b;
    } else {
      assert (a + [x] + b)[1..] == a[1..] + [x] + b && (a + b)[1..] == a[1..] + b;
      RecordSlashesMiddle(a[1..], x, b);
    }
  }

  lemma {:induction false} RecordSlashesPermutation(r: seq<Record>, s: seq<Record>)
    requires multiset(r) == multiset(s)
    ensures RecordSlashes(r) == RecordSlashes(s)
  {
    assert |r| == |multiset(r)| == |multiset(s)| == |s|;
    if r != [] {
      Uncons(r);
      var a, b := Split(s, r[0]);
      RecordSlashesPermutation(r[1..], a + b);
      RecordSlashesMiddle(a, r[0], b);
    }
  }

  /** Lines that are read back as a permutation of their records contain only exact records. */
  lemma OnlyExactSurvives(rs: seq<Record>)
    requires multiset(ReadAll(Flatten(Lines(rs)))) == multiset(rs)
    ensures forall r | r in rs :: Exact(r)
  {
    var t := Flatten(Lines(rs));
    ReadHalves(t);
    LinesSlashes(rs);
    RecordSlashesPermutation(ReadAll(t), rs);
    ReadIsExact(t);
    forall r | r in rs ensures Exact(r) {
      assert r in multiset(ReadAll(t));
    }
  }

  /** One record is read back as itself if and only if it is exact. */
  lemma RecordRoundTrip(r: Record)
    ensures ReadAll(Render(r)) == [r] <==> Exact(r)
  {
    assert Lines([r]) == [Render(r)];
    FlattenCons(Render(r), []);
    assert Render(r) + "" == Render(r);
    if Exact(r) {
      ReadRendered(r, "");
    }
    if ReadAll(Render(r)) == [r] {
      OnlyExactSurvives([r]);
      assert r in [r];
    }
  }

  /** devices.txt is read back as exactly the records that were printed into it if and only if all of them are exact. */
  lemma RoundTrip(rs: multiset<Record>)
    ensures multiset(ReadAll(DeviceText(rs))) == rs <==> forall r | r in rs :: Exact(r)
  {
    var e := Elements(rs);
    var s := Unsort(Sort(Lines(e)), e);
    assert forall r :: r in s <==> r in multiset(s);
    assert DeviceText(rs) == Flatten(Lines(s));
    if forall r | r in rs :: Exact(r) {
      ReadLines(s, Flatten(Lines(s)));
    }
    if multiset(ReadAll(DeviceText(rs))) == rs {
      OnlyExactSurvives(s);
    }
  }

  /** What goes wrong: the words of a host name with a blank shift into the later variables. */
  lemma BlankShiftsWords(r: Record, a: string, b: string)
    requires r.host == a + " " + b && r.weight != "" && r.node == ""
    requires Exact(Record(r.region, r.zone, a, b, r.device, r.weight))
    ensures ReadAll(Render(r)) == [Record(r.region, r.zone, a, b, r.device, r.weight)]
  {
    var q := Record(r.region, r.zone, a, b, r.device, r.weight);
    JoinFive(r.region, r.zone, r.host, r.device, r.weight);
    JoinFive(r.zone, a, b, r.device, r.weight);
    assert Words(q)[1..] == [r.zone, a, b, r.device, r.weight];
    assert Words(r) == [r.region, r.zone, r.host, r.device, r.weight];
    assert Render(q) == r.region + " " + Join(Words(q)[1..]) == Render(r);
    RecordRoundTrip(q);
  }
}
