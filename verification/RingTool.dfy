/** One run of `swift-ring-tool all`: get, init, update, rebalance and push on an empty working directory. */
module RingTool {
  import opened Text
  import opened DeviceList
  import opened ReadLoop
  import opened RingBuilder

  // ----- the ring ConfigMap -----

  /** A .ring.gz file, possibly of size zero, as `write_ring` produces it from a builder. */
  datatype RingFile = Empty | Ring(devs: seq<Option<Dev>>, parts: seq<nat>)

  datatype Tar = Tar(builders: map<string, Builder>, rings: map<string, RingFile>)

  /** The binaryData of the ConfigMap; a user may have created it without the tar. */
  datatype Data = Data(tar: Option<Tar>, accountRing: RingFile, containerRing: RingFile, objectRing: RingFile)

  datatype ConfigMap = ConfigMap(version: nat, data: Data)

  /** The API server's view: the object and the next, globally fresh resourceVersion. */
  datatype Server = Server(cm: Option<ConfigMap>, next: nat)

  /** The working directory; `base` is the resourceVersion in ${CM_NAME}.json, None when that file is absent. */
  datatype Dir = Dir(builders: map<string, Builder>, rings: map<string, RingFile>, base: Option<nat>)

  const EMPTY_DIR := Dir(map[], map[], None)

  /** The three rings, with their ports. */
  const RINGS: seq<string> := ["account", "container", "object"]

  function Port(f: string): nat {
    if f == "account" then 6202 else if f == "container" then 6201 else 6200
  }

  // ----- the phases as functions -----

  /** get: 200 unpacks the tar and then the three ring keys; 404 leaves the directory empty. */
  function Fetch(cm: Option<ConfigMap>): Dir {
    match cm
    case None => EMPTY_DIR
    case Some(c) =>
      var t := if c.data.tar.Some? then c.data.tar.value else Tar(map[], map[]);
      Dir(t.builders,
        t.rings["account" := c.data.accountRing]["container" := c.data.containerRing]["object" := c.data.objectRing],
        Some(c.version))
  }

  /** A ring file that has no builder: init stops the run. */
  predicate Orphan(d: Dir, f: string) {
    f !in d.builders && f in d.rings && d.rings[f].Ring?
  }

  predicate HasOrphan(d: Dir) { exists f | f in RINGS :: Orphan(d, f) }

  function InitRing(d: Dir, f: string, s: Settings): Dir {
    if f in d.builders then d else d.(builders := d.builders[f := Create(s)])
  }

  function Init(d: Dir, s: Settings): Dir {
    InitRing(InitRing(InitRing(d, "account", s), "container", s), "object", s)
  }

  predicate Initialised(d: Dir) { forall f | f in RINGS :: f in d.builders }

  function UpdateRing(d: Dir, f: string, rs: seq<Record>): Dir
    requires f in d.builders
  {
    var b := d.builders[f];
    d.(builders := d.builders[f := b.(devs := AddAll(b.devs, rs, Port(f)))])
  }

  function Update(d: Dir, rs: seq<Record>): Dir
    requires Initialised(d)
  {
    UpdateRing(UpdateRing(UpdateRing(d, "account", rs), "container", rs), "object", rs)
  }

  /** What `swift-ring-builder rebalance` may do with a file and its device table: a new assignment, or none when it
      declines. */
  type Plan = map<(string, seq<Option<Dev>>), seq<nat>>

  function Rebalanced(b: Builder, f: string, plan: Plan): Builder {
    if (f, b.devs) in plan then b.(parts := plan[(f, b.devs)]) else b
  }

  /** Swap, rebalance, swap back. */
  function RebalanceBuilder(b: Builder, f: string, plan: Plan): Builder {
    var swapped := b.(devs := SwapDevs(b.devs));
    var done := Rebalanced(swapped, f, plan);
    done.(devs := SwapDevs(done.devs))
  }

  function RingOf(b: Builder): RingFile { Ring(b.devs, b.parts) }

  /** What rebalancing makes of every builder file. */
  function Balanced(bs: map<string, Builder>, plan: Plan): map<string, Builder> {
    map f | f in bs :: RebalanceBuilder(bs[f], f, plan)
  }

  /** Save one builder file and write its ring. */
  function Save(d: Dir, f: string, b: Builder): Dir {
    d.(builders := d.builders[f := b], rings := d.rings[f := RingOf(b)])
  }

  /** The directory after the files `fs` were replaced by `bs` and their rings written. */
  function SaveAll(d: Dir, bs: map<string, Builder>, fs: set<string>): Dir
    requires fs <= bs.Keys
  {
    d.(builders := map f | f in d.builders.Keys + fs :: if f in fs then bs[f] else d.builders[f],
       rings := map f | f in d.rings.Keys + fs :: if f in fs then RingOf(bs[f]) else d.rings[f])
  }

  function Rebalance(d: Dir, plan: Plan): Dir {
    SaveAll(d, Balanced(d.builders, plan), d.builders.Keys)
  }

  lemma SaveNone(d: Dir, bs: map<string, Builder>)
    ensures SaveAll(d, bs, {}) == d
  {
    assert SaveAll(d, bs, {}).builders == d.builders && SaveAll(d, bs, {}).rings == d.rings;
  }

  lemma SaveMore(d: Dir, bs: map<string, Builder>, fs: set<string>, f: string)
    requires fs <= bs.Keys == d.builders.Keys && f in bs && f !in fs
    ensures SaveAll(d, bs, fs).builders.Keys == d.builders.Keys && SaveAll(d, bs, fs).builders[f] == d.builders[f]
    ensures Save(SaveAll(d, bs, fs), f, bs[f]) == SaveAll(d, bs, fs + {f})
  {
    var one, all := Save(SaveAll(d, bs, fs), f, bs[f]), SaveAll(d, bs, fs + {f});
    assert one.builders == all.builders;
    assert one.rings == all.rings;
  }

  /** One pass of the loop. */
  function RebalanceFile(d: Dir, f: string, plan: Plan): Dir {
    if f in d.builders then Save(d, f, RebalanceBuilder(d.builders[f], f, plan)) else d
  }

  function RebalanceFiles(d: Dir, files: seq<string>, plan: Plan): Dir {
    if files == [] then d else RebalanceFile(RebalanceFiles(d, files[..|files|-1], plan), files[|files|-1], plan)
  }

  predicate Distinct(files: seq<string>) {
    forall i, j | 0 <= i < j < |files| :: files[i] != files[j]
  }

  function Names(files: seq<string>): set<string> { set f | f in files }

  lemma NamesSnoc(files: seq<string>, f: string)
    ensures Names(files + [f]) == Names(files) + {f}
  {
    assert forall g :: g in files + [f] <==> g in files || g == f;
  }

  lemma {:induction false} RebalanceFilesSome(d: Dir, files: seq<string>, plan: Plan)
    requires Distinct(files) && forall f | f in files :: f in d.builders
    ensures RebalanceFiles(d, files, plan) == SaveAll(d, Balanced(d.builders, plan), Names(files))
  {
    var bs := Balanced(d.builders, plan);
    if files == [] {
      SaveNone(d, bs);
      assert Names(files) == {};
    } else {
      var front, f := files[..|files|-1], files[|files|-1];
      assert files == front + [f];
      RebalanceFilesSome(d, front, plan);
      NamesSnoc(front, f);
      assert f !in Names(front) && f in bs && bs[f] == RebalanceBuilder(d.builders[f], f, plan);
      SaveMore(d, bs, Names(front), f);
    }
  }

  /** Every builder file is rebalanced once, whatever the order of the glob. */
  lemma RebalanceFilesIsAll(d: Dir, files: seq<string>, plan: Plan)
    requires Distinct(files) && Names(files) == d.builders.Keys
    ensures RebalanceFiles(d, files, plan) == Rebalance(d, plan)
  {
    assert forall f | f in files :: f in Names(files);
    RebalanceFilesSome(d, files, plan);
  }

  /** *.builder: the names of the files, each once. */
  method Glob(names: set<string>) returns (files: seq<string>)
    ensures Distinct(files) && Names(files) == names
  {
    files := [];
    var todo := names;
    while todo != {}
      invariant Distinct(files) && Names(files) == names - todo && todo <= names
      decreases |todo|
    {
      var f :| f in todo;
      assert forall g | g in files :: g in Names(files);
      NamesSnoc(files, f);
      files := files + [f];
      todo := todo - {f};
    }
  }

  /** base64 of a ring file; a missing file gives an empty value. */
  function FileOf(d: Dir, f: string): RingFile {
    if f in d.rings then d.rings[f] else Empty
  }

  function Publish(d: Dir): Data {
    Data(Some(Tar(d.builders, d.rings)), FileOf(d, "account"), FileOf(d, "container"), FileOf(d, "object"))
  }

  /** What the job's environment and the unseen tools contribute to one run. */
  datatype Inputs = Inputs(settings: Settings, devices: string, plan: Plan, swapFails: set<string>)

  /** From get to push: None when the run ends without pushing. */
  function Prepare(d: Dir, i: Inputs): Option<Dir> {
    if HasOrphan(d) then None else
      var d1 := Init(d, i.settings);
      var d2 := Update(d1, ReadAll(i.devices));
      if d2.builders.Keys !! i.swapFails then Some(Rebalance(d2, i.plan)) else None
  }

  /** PUT replaces only the version it names, POST creates only what is absent; a refused push changes nothing. */
  function Submit(s: Server, d: Dir): Server {
    if (if s.cm.Some? then d.base == Some(s.cm.value.version) else d.base == None)
    then Server(Some(ConfigMap(s.next, Publish(d))), s.next + 1)
    else s
  }

  /** One ring's search and add for one line. */
  function AddTo(d: Dir, f: string, r: Record): Dir
    requires f in d.builders
  {
    var b := d.builders[f];
    d.(builders := d.builders[f := b.(devs := AddIfMissing(b.devs, r, Port(f)))])
  }

  lemma UpdateNothing(d: Dir)
    requires Initialised(d)
    ensures Update(d, []) == d
  {
    forall f | f in RINGS ensures UpdateRing(d, f, []) == d {
      assert d.builders[f := d.builders[f]] == d.builders;
    }
    assert "account" == RINGS[0] && "container" == RINGS[1] && "object" == RINGS[2];
  }

  lemma AddSameRing(d: Dir, f: string, rs: seq<Record>, r: Record)
    requires f in d.builders
    ensures AddTo(UpdateRing(d, f, rs), f, r) == UpdateRing(d, f, rs + [r])
  {
    assert (rs + [r])[..|rs|] == rs;
    var b := d.builders[f];
    var x := b.(devs := AddAll(b.devs, rs, Port(f)));
    var y := b.(devs := AddAll(b.devs, rs + [r], Port(f)));
    assert d.builders[f := x][f := y] == d.builders[f := y];
  }

  lemma AddOtherRing(d: Dir, f: string, g: string, rs: seq<Record>, r: Record)
    requires f in d.builders && g in d.builders && f != g
    ensures AddTo(UpdateRing(d, g, rs), f, r) == UpdateRing(AddTo(d, f, r), g, rs)
  {
    var bs := d.builders;
    var x, y := UpdateRing(d, g, rs).builders[g], AddTo(d, f, r).builders[f];
    assert bs[g := x][f := y] == bs[f := y][g := x];
  }

  /** The three updates may be done line by line. */
  lemma UpdateSnoc(d: Dir, rs: seq<Record>, r: Record)
    requires Initialised(d)
    ensures Initialised(Update(d, rs))
    ensures Update(d, rs + [r]) == AddTo(AddTo(AddTo(Update(d, rs), "account", r), "container", r), "object", r)
  {
    assert "account" == RINGS[0] && "container" == RINGS[1] && "object" == RINGS[2];
    UpdatesSnoc(d, "account", "container", "object", rs, r);
  }

  lemma UpdatesSnoc(d: Dir, a: string, c: string, o: string, rs: seq<Record>, r: Record)
    requires a in d.builders && c in d.builders && o in d.builders && a != c && a != o && c != o
    ensures UpdateRing(UpdateRing(UpdateRing(d, a, rs + [r]), c, rs + [r]), o, rs + [r]) ==
            AddTo(AddTo(AddTo(UpdateRing(UpdateRing(UpdateRing(d, a, rs), c, rs), o, rs), a, r), c, r), o, r)
  {
    var d1 := UpdateRing(d, a, rs);
    var d2 := UpdateRing(d1, c, rs);
    AddOtherRing(d2, a, o, rs, r);
    AddOtherRing(d1, a, c, rs, r);
    AddSameRing(d, a, rs, r);
    var e1 := UpdateRing(d, a, rs + [r]);
    var e2 := UpdateRing(e1, c, rs);
    AddOtherRing(e2, c, o, rs, r);
    AddSameRing(e1, c, rs, r);
    AddSameRing(UpdateRing(e1, c, rs + [r]), o, rs, r);
  }

  // ----- the script -----

  class Api {
    var cm: Option<ConfigMap>
    var next: nat

    function View(): Server
      reads this
    {
      Server(cm, next)
    }

    constructor (s: Server)
      ensures View() == s
    {
      cm, next := s.cm, s.next;
    }

    /** POST on the collection: refused when the object exists. */
    method Post(data: Data) returns (ok: bool)
      modifies this
      ensures ok <==> old(cm).None?
      ensures View() == if ok then Server(Some(ConfigMap(old(next), data)), old(next) + 1) else old(View())
    {
      ok := cm.None?;
      if ok {
        cm := Some(ConfigMap(next, data));
        next := next + 1;
      }
    }

    /** PUT naming a resourceVersion: refused unless it is the current one. */
    method Put(version: nat, data: Data) returns (ok: bool)
      modifies this
      ensures ok <==> old(cm).Some? && old(cm).value.version == version
      ensures View() == if ok then Server(Some(ConfigMap(old(next), data)), old(next) + 1) else old(View())
    {
      ok := cm.Some? && cm.value.version == version;
      if ok {
        cm := Some(ConfigMap(next, data));
        next := next + 1;
      }
    }
  }

  class Run {
    var builders: map<string, Builder>
    var rings: map<string, RingFile>
    var base: Option<nat>

    function View(): Dir
      reads this
    {
      Dir(builders, rings, base)
    }

    constructor ()
      ensures View() == EMPTY_DIR
    {
      builders, rings, base := map[], map[], None;
    }

    /** get; false is `exit 1`, for an answer that is neither 200 nor 404. */
    method Get(api: Api, reachable: bool) returns (ok: bool)
      requires View() == EMPTY_DIR
      modifies this
      ensures ok <==> reachable
      ensures View() == if ok then Fetch(api.cm) else old(View())
    {
      if !reachable {
        return false;
      }
      if api.cm.Some? {
        base := Some(api.cm.value.version);
        var data := api.cm.value.data;
        if data.tar.Some? {
          builders := data.tar.value.builders;
          rings := data.tar.value.rings;
        }
        rings := rings["account" := data.accountRing];
        rings := rings["container" := data.containerRing];
        rings := rings["object" := data.objectRing];
      }
      return true;
    }

    /** init; false is the `exit 0` for a ring file without its builder. */
    method Initialise(s: Settings) returns (ok: bool)
      modifies this`builders
      ensures ok <==> !HasOrphan(old(View()))
      ensures ok ==> View() == Init(old(View()), s) && Initialised(View())
    {
      ghost var before := View();
      var i := 0;
      while i < |RINGS|
        invariant i <= |RINGS|
        invariant View() == if i == 0 then before else if i == 1 then InitRing(before, "account", s)
          else if i == 2 then InitRing(InitRing(before, "account", s), "container", s) else Init(before, s)
        invariant forall k | 0 <= k < i :: !Orphan(before, RINGS[k]) && RINGS[k] in builders
      {
        var f := RINGS[i];
        assert Orphan(View(), f) == Orphan(before, f);
        if f !in builders && f in rings && rings[f].Ring? {
          return false;
        }
        if f !in builders {
          builders := builders[f := Create(s)];
        }
        i := i + 1;
      }
      return true;
    }

    /** One ring's search and add for one line. */
    method AddDevice(f: string, r: Record)
      requires f in builders
      modifies this`builders
      ensures View() == AddTo(old(View()), f, r)
    {
      var b := builders[f];
      var found := Search(b.devs, r.host, r.device);
      if !found {
        builders := builders[f := b.(devs := b.devs + [Some(NewDev(r, Port(f)))])];
      } else {
        assert builders[f := b] == builders;
      }
    }

    /** update: the read loop over devices.txt. */
    method ReadDevices(devices: string)
      requires Initialised(View())
      modifies this`builders
      ensures View() == Update(old(View()), ReadAll(devices))
    {
      ghost var before := View();
      ghost var seen: seq<Record> := [];
      var input := devices;
      var line := ScanLine(input);
      UpdateNothing(before);
      while line.Some?
        invariant line == ScanLine(input)
        invariant seen + ReadAll(input) == ReadAll(devices)
        invariant View() == Update(before, seen)
        decreases |input|
      {
        var r := ToRecord(Fields(line.value.cells, 6));
        UpdateSnoc(before, seen, r);
        AddDevice("account", r);
        AddDevice("container", r);
        AddDevice("object", r);
        Reassociate(seen, r, ReadAll(line.value.rest));
        seen := seen + [r];
        input := line.value.rest;
        line := ScanLine(input);
      }
      assert seen == ReadAll(devices);
    }

    /** The loop body of rebalance when both swaps succeed. */
    method RebalanceOne(f: string, plan: Plan)
      requires f in builders
      modifies this`builders, this`rings
      ensures View() == RebalanceFile(old(View()), f, plan)
    {
      var b := MetaSwap(builders[f]);
      b := Rebalanced(b, f, plan);
      b := MetaSwap(b);
      builders := builders[f := b];
      rings := rings[f := RingOf(b)];
    }

    /** rebalance over *.builder; false is the exit after a failed metaswap. */
    method RebalanceAll(plan: Plan, swapFails: set<string>) returns (ok: bool)
      modifies this`builders, this`rings
      ensures ok <==> old(builders).Keys !! swapFails
      ensures ok ==> View() == Rebalance(old(View()), plan)
    {
      ghost var before := View();
      var files := Glob(builders.Keys);
      for i := 0 to |files|
        invariant forall k | 0 <= k < i :: files[k] !in swapFails
        invariant forall f | f in files :: f in builders
        invariant View() == RebalanceFiles(before, files[..i], plan)
      {
        if files[i] in swapFails {
          return false;
        }
        assert files[..i+1][..i] == files[..i];
        RebalanceOne(files[i], plan);
      }
      assert files[..|files|] == files;
      RebalanceFilesIsAll(before, files, plan);
      return true;
    }

    /** push: the answer of the server is printed and otherwise ignored. */
    method Push(api: Api)
      modifies api
      ensures api.View() == Submit(old(api.View()), View())
    {
      var data := Publish(View());
      if base.None? {
        var _ := api.Post(data);
      } else {
        var _ := api.Put(base.value, data);
      }
    }

    /** The whole sequence when nobody else touches the ConfigMap meanwhile. */
    method All(api: Api, reachable: bool, i: Inputs)
      requires View() == EMPTY_DIR
      modifies this, api
      ensures api.View() == if reachable then AllOnce(old(api.View()), i) else old(api.View())
    {
      var ok := Get(api, reachable);
      if !ok {
        return;
      }
      ok := Initialise(i.settings);
      if !ok {
        return;
      }
      ReadDevices(i.devices);
      ok := RebalanceAll(i.plan, i.swapFails);
      if !ok {
        return;
      }
      Push(api);
    }
  }

  lemma Reassociate(a: seq<Record>, r: Record, b: seq<Record>)
    ensures a + ([r] + b) == (a + [r]) + b
  {
  }

  /** One undisturbed run as a step of the server. */
  function AllOnce(s: Server, i: Inputs): Server {
    var d := Prepare(Fetch(s.cm), i);
    if d.Some? then Submit(s, d.value) else s
  }
}
