/**
 * The xattr-restore init container (templates/swiftstorage/bin/xattr-restore.sh): extended attributes lost by a backup
 * are restored from a dump before the services start, with crashes and restarts at any point.
 */
module XattrRestore {
  import opened ReadBack
  import opened ReadLoop
  import opened Text

  type Path = string

  /** One attribute of one file. */
  datatype Key = Key(path: Path, name: string)

  type Attrs = map<Key, string>

  const METADATA := "user.swift.metadata"
  const OBJECTS := "/srv/node/pv/objects/"

  datatype Volume = Volume(
    files: set<Path>, attrs: Attrs,
    dump: Option<Attrs>,          // .swift-xattrs.dump
    applied: Option<Attrs>,       // .swift-xattrs.dump.applied
    missing: Option<seq<Path>>)   // the lines of .swift-xattrs.missing

  /** `find objects/ -name "*.data"`. */
  predicate IsData(f: Path) { OBJECTS <= f && |f| >= 5 && f[|f|-5..] == ".data" }

  /** The data files without metadata. */
  function Lacking(v: Volume): set<Path> { set f | f in v.files && IsData(f) && Key(f, METADATA) !in v.attrs }

  // ----- `find | while read f` -----

  /** What find prints for the files it finds, in its order. */
  function Printed(found: seq<Path>): string {
    if found == [] then "" else found[0] + "\n" + Printed(found[1..])
  }

  /** What `read f` makes of it: one variable for each line. */
  function Heard(t: string): seq<Path>
    decreases |t|
  {
    match ScanLine(t)
    case None => []
    case Some(l) => [Fields(l.cells, 1)[0]] + Heard(l.rest)
  }

  /** The names for which getfattr fails: they lack the metadata, or no such file exists. */
  function Report(names: seq<Path>, attrs: Attrs): seq<Path> {
    if names == [] then [] else
      var last := names[|names|-1];
      Report(names[..|names|-1], attrs) + if Key(last, METADATA) in attrs then [] else [last]
  }

  /** setfattr --restore fails unless every listed file exists. */
  predicate Restorable(files: set<Path>, dump: Attrs) { forall k | k in dump :: k.path in files }

  /** The attributes after setfattr has set those in `reached`; it sets none of a file that does not exist. */
  function Merge(attrs: Attrs, dump: Attrs, files: set<Path>, reached: set<Key>): Attrs {
    map k | k in attrs.Keys + dump.Keys && (k in attrs || (k in reached && k.path in files)) ::
      if k in dump && k in reached && k.path in files then dump[k] else attrs[k]
  }

  /** The last stretch of the script before the kill; after Exiting the dump has been renamed. */
  datatype Point = Restoring | Reporting | Renaming | Exiting | Nowhere

  /** What one run of the script meets: where it is killed, which attributes had been set by then, the files that find
      finds, in its order, and how many of them the loop had handled. */
  datatype Stop = Stop(at: Point, reached: set<Key>, found: seq<Path>, handled: nat)

  function Upto(names: seq<Path>, n: nat): seq<Path> { if n < |names| then names[..n] else names }

  /** One run of the script and whether it exits with success. */
  function Attempt(v: Volume, k: Stop): (Volume, bool) {
    if v.dump.None? then (v, k.at == Nowhere)
    else
      var dump := v.dump.value;
      if k.at == Restoring || !Restorable(v.files, dump) then
        (v.(attrs := Merge(v.attrs, dump, v.files, k.reached)), false)
      else
        var t := v.(attrs := Merge(v.attrs, dump, v.files, dump.Keys));
        var names := Heard(Printed(k.found));
        if k.at == Reporting then (t.(missing := Some(Report(Upto(names, k.handled), t.attrs))), false)
        else
          var lines := Report(names, t.attrs);
          var u := t.(missing := if lines == [] then None else Some(lines));
          if k.at == Renaming then (u, false) else (u.(dump := None, applied := v.dump), k.at == Nowhere)
  }

  // ----- the script -----

  class Node {
    var files: set<Path>
    var attrs: Attrs
    var dump: Option<Attrs>
    var applied: Option<Attrs>
    var missing: Option<seq<Path>>

    function View(): Volume
      reads this
    {
      Volume(files, attrs, dump, applied, missing)
    }

    method SetfattrRestore(k: Stop) returns (ok: bool)
      requires dump.Some?
      modifies this`attrs
      ensures ok <==> k.at != Restoring && Restorable(files, dump.value)
      ensures attrs == Merge(old(attrs), dump.value, files, if ok then dump.value.Keys else k.reached)
    {
      ok := k.at != Restoring && forall e | e in dump.value :: e.path in files;
      attrs := Merge(attrs, dump.value, files, if ok then dump.value.Keys else k.reached);
    }

    /** The loop that writes the report. */
    method WriteReport(k: Stop)
      modifies this`missing
      ensures var names := Heard(Printed(k.found));
        missing == Some(Report(if k.at == Reporting then Upto(names, k.handled) else names, attrs))
    {
      ghost var all := Heard(Printed(k.found));
      ghost var seen: seq<Path> := [];
      var n := 0;
      var lines: seq<Path> := [];
      var input := Printed(k.found);
      var line := ScanLine(input);
      while line.Some? && (k.at == Reporting ==> n < k.handled)
        invariant line == ScanLine(input) && n == |seen|
        invariant seen + Heard(input) == all
        invariant lines == Report(seen, attrs)
        invariant k.at == Reporting ==> n <= k.handled
        decreases |input|
      {
        var f := Fields(line.value.cells, 1)[0];
        if Key(f, METADATA) !in attrs {
          lines := lines + [f];
        }
        ReportSnoc(seen, f, attrs);
        Reassociate(seen, f, Heard(line.value.rest));
        seen := seen + [f];
        n := n + 1;
        input := line.value.rest;
        line := ScanLine(input);
      }
      if line.Some? {
        assert seen == all[..n] && n == k.handled < |all|;
      } else {
        assert seen == all;
      }
      missing := Some(lines);
    }

    method Run(k: Stop) returns (ok: bool)
      modifies this
      ensures (View(), ok) == Attempt(old(View()), k)
    {
      if dump.Some? {
        ok := SetfattrRestore(k);
        if !ok {
          return;
        }
        WriteReport(k);
        if k.at == Reporting {
          return false;
        }
        if |missing.value| == 0 {
          missing := None;
        }
        if k.at == Renaming {
          return false;
        }
        applied := dump;
        dump := None;
        ok := k.at != Exiting;
      } else {
        ok := k.at == Nowhere;
      }
    }
  }

  lemma ReportSnoc(names: seq<Path>, f: Path, attrs: Attrs)
    ensures Report(names + [f], attrs) == Report(names, attrs) + if Key(f, METADATA) in attrs then [] else [f]
  {
    assert (names + [f])[..|names|] == names;
  }

  lemma Reassociate(a: seq<Path>, f: Path, b: seq<Path>)
    ensures a + ([f] + b) == (a + [f]) + b
  {
  }

  // ----- the report -----

  lemma {:induction false} PrintedSlashes(found: seq<Path>)
    ensures Slashes(Printed(found)) == Slashes(Flatten(found))
  {
    if found != [] {
      PrintedSlashes(found[1..]);
      var tail := "\n" + Printed(found[1..]);
      SlashesConcat(found[0], tail);
      SlashesConcat("\n", Printed(found[1..]));
      assert Printed(found) == found[0] + tail;
      SlashesConcat(found[0], Flatten(found[1..]));
    }
  }

  lemma {:induction false} HeardHalves(t: string)
    ensures 2 * Slashes(Flatten(Heard(t))) <= Slashes(t)
    ensures Slashes(t) == 0 ==> forall f | f in Heard(t) :: LastWord(f)
    decreases |t|
  {
    if ScanLine(t).Some? {
      var l := ScanLine(t).value;
      ScanHalves(t);
      LastHalves(l.cells);
      HeardHalves(l.rest);
      HeardCons(t, l);
      if Slashes(t) == 0 {
        LastIsExact(l.cells);
      }
    }
  }

  lemma HeardCons(t: string, l: Line)
    requires ScanLine(t) == Some(l)
    ensures Heard(t) == [Fields(l.cells, 1)[0]] + Heard(l.rest)
    ensures Slashes(Flatten(Heard(t))) == Slashes(Flatten(Fields(l.cells, 1))) + Slashes(Flatten(Heard(l.rest)))
  {
    var f := Fields(l.cells, 1)[0];
    assert Fields(l.cells, 1) == [f];
    FlattenCons(f, []);
    assert f + "" == f;
    FlattenCons(f, Heard(l.rest));
    SlashesConcat(f, Flatten(Heard(l.rest)));
  }

  lemma LineHeard(f: Path, t: string)
    requires LastWord(f)
    ensures Heard(f + ("\n" + t)) == [f] + Heard(t)
  {
    ScanLastWord(f, t);
    LastField(f);
    HeardCons(f + ("\n" + t), Line(Plain(f), t));
  }

  lemma PrintedCons(found: seq<Path>)
    requires found != []
    ensures Printed(found) == found[0] + ("\n" + Printed(found[1..]))
  {
  }

  lemma {:induction false} PlainIsHeard(found: seq<Path>)
    requires forall f | f in found :: LastWord(f)
    ensures Heard(Printed(found)) == found
  {
    if found != [] {
      assert found[0] in found && forall f | f in found[1..] :: f in found;
      PlainIsHeard(found[1..]);
      LineHeard(found[0], Printed(found[1..]));
      PrintedCons(found);
    }
  }

  /** The loop sees the paths that find found if and only if no path has a newline, a backslash or outer blanks. */
  lemma HeardExactly(found: seq<Path>)
    ensures Heard(Printed(found)) == found <==> forall f | f in found :: LastWord(f)
  {
    PrintedSlashes(found);
    HeardHalves(Printed(found));
    if forall f | f in found :: LastWord(f) {
      PlainIsHeard(found);
    }
  }

  predicate Distinct(names: seq<Path>) { forall i, j | 0 <= i < j < |names| :: names[i] != names[j] }

  /** find found every data file, once. */
  predicate Finds(v: Volume, found: seq<Path>) {
    Distinct(found) && (forall f | f in found :: f in v.files && IsData(f)) &&
    (forall f | f in v.files && IsData(f) :: f in found)
  }

  lemma {:induction false} ReportMeans(names: seq<Path>, attrs: Attrs)
    ensures forall f :: f in Report(names, attrs) <==> f in names && Key(f, METADATA) !in attrs
    ensures Distinct(names) ==> Distinct(Report(names, attrs))
  {
    if names != [] {
      var front, last := names[..|names|-1], names[|names|-1];
      assert names == front + [last];
      ReportMeans(front, attrs);
    }
  }

  /** The report lists exactly the data files without metadata, each once; it is absent when there are none. */
  ghost predicate ExactReport(v: Volume) {
    match v.missing
    case None => Lacking(v) == {}
    case Some(lines) => lines != [] && Distinct(lines) && forall f :: f in lines <==> f in Lacking(v)
  }

  lemma ReportIsExact(v: Volume, found: seq<Path>)
    requires Finds(v, found) && forall f | f in found :: LastWord(f)
    requires var lines := Report(Heard(Printed(found)), v.attrs);
             v.missing == if lines == [] then None else Some(lines)
    ensures ExactReport(v)
  {
    HeardExactly(found);
    ReportMeans(found, v.attrs);
    var lines := Report(found, v.attrs);
    if lines == [] {
      forall f ensures f !in Lacking(v) {
        assert f !in lines;
      }
    }
  }

  // ----- any number of restarts -----

  /** Any attempts, killed or not; the services do not run, so nothing else changes the volume. */
  function Attempts(v: Volume, ks: seq<Stop>): Volume {
    if ks == [] then v else Attempt(Attempts(v, ks[..|ks|-1]), ks[|ks|-1]).0
  }

  /** This attempt gets as far as the rename. */
  predicate Renames(v: Volume, k: Stop) {
    v.dump.Some? && Restorable(v.files, v.dump.value) && k.at in {Exiting, Nowhere}
  }

  /** The attempt that renamed the dump, if one did. */
  function Renamer(v: Volume, ks: seq<Stop>): Option<Stop> {
    if ks == [] then None else
      var front, k := ks[..|ks|-1], ks[|ks|-1];
      if Renamer(v, front).Some? then Renamer(v, front)
      else if Renames(Attempts(v, front), k) then Some(k) else None
  }

  /** One run that nobody disturbs. */
  function Undisturbed(found: seq<Path>): Stop { Stop(Nowhere, {}, found, 0) }

  /** The work left to do is the same: the dump still has the last word on the attributes it lists. */
  predicate SameWork(t: Volume, v: Volume) {
    t.files == v.files && t.dump == v.dump && t.applied == v.applied &&
    match v.dump
    case None => t == v
    case Some(d) => Merge(t.attrs, d, v.files, d.Keys) == Merge(v.attrs, d, v.files, d.Keys)
  }

  lemma AttemptProgresses(v: Volume, k: Stop)
    ensures if Renames(v, k) then Attempt(v, k).0 == Attempt(v, Undisturbed(k.found)).0
            else SameWork(Attempt(v, k).0, v)
  {
  }

  lemma SameWorkSameEnd(t: Volume, v: Volume, found: seq<Path>)
    requires SameWork(t, v) && (v.dump.Some? ==> Restorable(v.files, v.dump.value))
    ensures Attempt(t, Undisturbed(found)) == Attempt(v, Undisturbed(found))
  {
  }

  /** Attempts leave the same work, or the work of one undisturbed run is done. */
  lemma {:induction false} AttemptsProgress(v: Volume, ks: seq<Stop>)
    ensures var t := Attempts(v, ks);
      match Renamer(v, ks)
      case None => SameWork(t, v)
      case Some(r) =>
        v.dump.Some? && Restorable(v.files, v.dump.value) && t == Attempt(v, Undisturbed(r.found)).0
  {
    if ks != [] {
      var front, k := ks[..|ks|-1], ks[|ks|-1];
      AttemptsProgress(v, front);
      var t := Attempts(v, front);
      AttemptProgresses(t, k);
      if Renamer(v, front).None? && Renames(t, k) {
        SameWorkSameEnd(t, v, k.found);
      }
    }
  }

  /** However often the container is killed, even between the rename and its exit: a success ends where one undisturbed
      run ends, one for which find printed what it printed for the run that renamed the dump. */
  lemma RestartIsInvisible(v: Volume, ks: seq<Stop>, k: Stop)
    requires Attempt(Attempts(v, ks), k).1
    ensures v.dump.Some? ==> Renamer(v, ks + [k]).Some?
    ensures var found := if v.dump.Some? then Renamer(v, ks + [k]).value.found else [];
      Attempt(Attempts(v, ks), k) == Attempt(v, Undisturbed(found))
  {
    assert (ks + [k])[..|ks|] == ks;
    AttemptsProgress(v, ks);
    AttemptsProgress(v, ks + [k]);
  }

  /** The container succeeds, now or after any restarts, if and only if every dumped file exists. */
  lemma SucceedsIffRestorable(v: Volume, ks: seq<Stop>, k: Stop)
    requires k.at == Nowhere
    ensures Attempt(Attempts(v, ks), k).1 <==> (v.dump.Some? ==> Restorable(v.files, v.dump.value))
  {
    AttemptsProgress(v, ks);
  }

  /** find did its work, and the paths of the data files are plain. */
  predicate Findable(v: Volume, k: Stop) { Finds(v, k.found) && forall f | f in k.found :: LastWord(f) }

  /** An attempt that succeeds, or that is killed when it has left no dump: dumped attributes are in place, others are
      as before, and the report is exactly the data files without metadata. */
  lemma NoDumpIsRestored(v: Volume, k: Stop)
    requires Attempt(v, k).1 || Attempt(v, k).0.dump.None?
    ensures var t := Attempt(v, k).0;
      t.dump == None && t.files == v.files && (v.dump.None? ==> t == v) &&
      (v.dump.Some? ==>
        t.applied == v.dump && t.attrs.Keys == v.attrs.Keys + v.dump.value.Keys &&
        (forall e | e in t.attrs :: t.attrs[e] == if e in v.dump.value then v.dump.value[e] else v.attrs[e]) &&
        (Findable(v, k) ==> ExactReport(t)))
  {
    var t := Attempt(v, k).0;
    if v.dump.Some? && Findable(v, k) {
      ReportIsExact(t, k.found);
    }
  }

  // ----- the pod: services start only after the init container has succeeded -----

  datatype Phase = Initialising | Initialised | Serving

  /** `consumed` is history: the dump consumed since the services ran last, and whether find then did its work. */
  datatype Pod = Pod(v: Volume, phase: Phase, consumed: Option<(Attrs, bool)>)

  datatype Event =
    | Run(k: Stop)
    | StartServices
    | Kill
    | Serve(v: Volume)       // anything the services, a backup hook or an administrator do to the volume
    | Provision(v: Volume)   // the volume is restored from a backup, or replaced, while no service runs

  function Next(p: Pod, e: Event): Pod {
    match e
    case Run(k) =>
      if p.phase != Initialising then p else
        var (v, ok) := Attempt(p.v, k);
        Pod(v, if ok then Initialised else Initialising,
            if p.v.dump.Some? && v.dump.None? then Some((p.v.dump.value, Findable(p.v, k))) else p.consumed)
    case StartServices => if p.phase == Initialised then Pod(p.v, Serving, None) else p
    case Kill => p.(phase := Initialising)
    case Serve(v) => if p.phase == Serving then p.(v := v) else p
    case Provision(v) => if p.phase == Serving then p else Pod(v, Initialising, None)
  }

  function Trace(p: Pod, es: seq<Event>): Pod {
    if es == [] then p else Next(Trace(p, es[..|es|-1]), es[|es|-1])
  }

  /** Every dumped attribute is in place, on a file that exists, and the report is exact if find did its work. */
  ghost predicate Restored(v: Volume, dump: Attrs, findable: bool) {
    v.dump.None? && (forall e | e in dump :: e.path in v.files && e in v.attrs && v.attrs[e] == dump[e]) &&
    (findable ==> ExactReport(v))
  }

  /** Services start only in states without an unapplied dump; if one was consumed, by this run of the container or by
      an earlier one that was killed before or after its exit, the volume is restored. */
  lemma {:induction false} ServicesSeeRestoredFiles(v: Volume, es: seq<Event>)
    ensures var p := Trace(Pod(v, Initialising, None), es);
      (p.phase == Initialised ==> p.v.dump.None?) && (p.phase == Serving ==> p.consumed.None?) &&
      (p.consumed.Some? ==> Restored(p.v, p.consumed.value.0, p.consumed.value.1))
  {
    if es != [] {
      ServicesSeeRestoredFiles(v, es[..|es|-1]);
      var p, e := Trace(Pod(v, Initialising, None), es[..|es|-1]), es[|es|-1];
      if e.Run? && Attempt(p.v, e.k).0.dump.None? {
        NoDumpIsRestored(p.v, e.k);
      }
    }
  }

  // ----- the backup hook (docs/backup-restore-xattrs.md) -----

  predicate Swift(e: Key) { "user.swift" <= e.name }

  /** `getfattr -R -d -m user.swift` of the volume. */
  function Backup(v: Volume): Volume { v.(dump := Some(map e | e in v.attrs && Swift(e) :: v.attrs[e])) }

  /** A restored copy that lost every attribute gets back exactly those of Swift, if its files were not lost. */
  lemma BackupRoundTrip(v: Volume, files: set<Path>, ks: seq<Stop>, k: Stop)
    requires k.at == Nowhere
    ensures var w := Backup(v).(files := files, attrs := map[]);
      if forall e | e in v.attrs && Swift(e) :: e.path in files
      then Attempt(Attempts(w, ks), k).0.attrs == Backup(v).dump.value
      else !Attempt(Attempts(w, ks), k).1
  {
    var w := Backup(v).(files := files, attrs := map[]);
    SucceedsIffRestorable(w, ks, k);
    if Restorable(files, w.dump.value) {
      RestartIsInvisible(w, ks, k);
      var u := Undisturbed(Renamer(w, ks + [k]).value.found);
      NoDumpIsRestored(w, u);
      assert Attempt(w, u).0.attrs.Keys == w.dump.value.Keys;
    }
  }

  /** The hook leaves its dump on the live volume: whatever the services do next, the pod can start again if and only
      if every file with Swift attributes at the time of the backup still exists. */
  lemma BackupLingers(v: Volume, files: set<Path>, attrs: Attrs, ks: seq<Stop>, k: Stop)
    requires k.at == Nowhere
    ensures Attempt(Attempts(Backup(v).(files := files, attrs := attrs), ks), k).1 <==>
            forall e | e in v.attrs && Swift(e) :: e.path in files
  {
    var w := Backup(v).(files := files, attrs := attrs);
    SucceedsIffRestorable(w, ks, k);
    assert forall e :: e in w.dump.value <==> e in v.attrs && Swift(e);
  }

  // ----- the words of the script -----

  lemma DataFileMeans(f: Path)
    ensures IsData(f) <==> exists x: string :: f == OBJECTS + x + ".data"
  {
    if IsData(f) {
      var y := f[|OBJECTS|..];
      assert f == OBJECTS + y;
      LongEnough(y);
      var x := y[..|y|-5];
      assert y == x + ".data";
      assert f == OBJECTS + x + ".data";
    }
    if x: string :| f == OBJECTS + x + ".data" {
      assert f[|f|-5..] == ".data";
    }
  }

  lemma ShortTailHasSlash(y: string)
    requires |y| < 5
    ensures (OBJECTS + y)[|OBJECTS + y|-5..] != ".data"
  {
    var tail := (OBJECTS + y)[|OBJECTS + y|-5..];
    assert tail[4 - |y|] == OBJECTS[|OBJECTS|-1] == '/';
    assert ".data"[4 - |y|] != '/';
  }

  lemma LongEnough(y: string)
    requires (OBJECTS + y)[|OBJECTS + y|-5..] == ".data"
    ensures |y| >= 5 && y[|y|-5..] == ".data"
  {
    if |y| < 5 {
      ShortTailHasSlash(y);
    } else {
      assert (OBJECTS + y)[|OBJECTS + y|-5..] == y[|y|-5..];
    }
  }

  /** The files that the report is about. */
  lemma LackingMeans(v: Volume, f: Path)
    ensures f in Lacking(v) <==>
            f in v.files && (exists x: string :: f == "/srv/node/pv/objects/" + x + ".data") &&
            Key(f, "user.swift.metadata") !in v.attrs
  {
    DataFileMeans(f);
  }

  /** A kill during the restore leaves the attributes that were reached set, and the others as they were. */
  lemma KilledInRestore(v: Volume, k: Stop, e: Key)
    requires v.dump.Some? && k.at == Restoring
    ensures var t := Attempt(v, k).0;
      t == v.(attrs := t.attrs) &&
      if e in v.dump.value && e in k.reached && e.path in v.files then e in t.attrs && t.attrs[e] == v.dump.value[e]
      else (e in t.attrs <==> e in v.attrs) && (e in v.attrs ==> t.attrs[e] == v.attrs[e])
  {
  }
}
