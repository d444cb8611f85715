/**
 * Any number of `all` runs racing on one ring ConfigMap, with metadata updates, deletions and foreign
 * edits between their get and their push.
 */
module RingProtocol {
  import opened Text
  import opened DeviceList
  import opened ReadLoop
  import opened RingBuilder
  import opened RingTool

  /** The server and the working directory of every run that has done its get. */
  datatype Sys = Sys(server: Server, runs: map<nat, Dir>)

  datatype Step =
    | Get(run: nat)
    | Push(run: nat, inputs: Inputs, arrives: bool)  // everything after get; the request may never arrive
    | Crash(run: nat)
    | Touch          // an update of labels or owners: a new version, the same data
    | Delete
    | Edit(data: Data)

  function Next(s: Sys, e: Step): Sys {
    match e
    case Get(r) => if r in s.runs then s else s.(runs := s.runs[r := Fetch(s.server.cm)])
    case Push(r, i, arrives) =>
      if r !in s.runs then s else
        var d := Prepare(s.runs[r], i);
        Sys(if d.Some? && arrives then Submit(s.server, d.value) else s.server, s.runs - {r})
    case Crash(r) => s.(runs := s.runs - {r})
    case Touch =>
      if s.server.cm.None? then s
      else s.(server := Server(Some(ConfigMap(s.server.next, s.server.cm.value.data)), s.server.next + 1))
    case Delete => s.(server := s.server.(cm := None))
    case Edit(data) => s.(server := Server(Some(ConfigMap(s.server.next, data)), s.server.next + 1))
  }

  function Trace(s: Sys, steps: seq<Step>): Sys {
    if steps == [] then s else Next(Trace(s, steps[..|steps|-1]), steps[|steps|-1])
  }

  /** Versions are never reused, so a run that holds the current version holds the current content. */
  ghost predicate Inv(s: Sys) {
    (s.server.cm.Some? ==> s.server.cm.value.version < s.server.next) &&
    forall r | r in s.runs :: DirInv(s.server, s.runs[r])
  }

  predicate DirInv(v: Server, d: Dir) {
    match d.base
    case None => d == EMPTY_DIR
    case Some(version) => version < v.next && (v.cm.Some? && v.cm.value.version == version ==> d == Fetch(v.cm))
  }

  predicate Initial(s: Sys) {
    s.runs == map[] && (s.server.cm.Some? ==> s.server.cm.value.version < s.server.next)
  }

  lemma PrepareKeepsBase(d: Dir, i: Inputs)
    ensures Prepare(d, i).Some? ==> Prepare(d, i).value.base == d.base
  {
  }

  lemma InvStep(s: Sys, e: Step)
    requires Inv(s)
    ensures Inv(Next(s, e))
  {
    var t := Next(s, e);
    forall r | r in t.runs ensures DirInv(t.server, t.runs[r]) {
      if r in s.runs {
        assert DirInv(s.server, s.runs[r]);
      }
    }
  }

  lemma {:induction false} InvTrace(s: Sys, steps: seq<Step>)
    requires Inv(s)
    ensures Inv(Trace(s, steps))
  {
    if steps != [] {
      InvTrace(s, steps[..|steps|-1]);
      InvStep(Trace(s, steps[..|steps|-1]), steps[|steps|-1]);
    }
  }

  /**
   * A push that takes effect was computed from exactly the content it replaces, so the race behaves like
   * undisturbed runs one after the other.
   */
  lemma PushIsAtomic(init: Sys, steps: seq<Step>, r: nat, i: Inputs, arrives: bool)
    requires Initial(init)
    ensures var s := Trace(init, steps);
      var t := Next(s, Push(r, i, arrives));
      t.server != s.server ==>
        r in s.runs && s.runs[r] == Fetch(s.server.cm) && t.server == AllOnce(s.server, i)
  {
    InvTrace(init, steps);
    var s := Trace(init, steps);
    if Next(s, Push(r, i, arrives)).server != s.server {
      assert DirInv(s.server, s.runs[r]);
      PrepareKeepsBase(s.runs[r], i);
    }
  }

  /** A run whose content is outdated changes nothing, whatever it computed. */
  lemma StalePushIsRefused(s: Sys, r: nat, i: Inputs, arrives: bool)
    requires Inv(s) && r in s.runs && s.runs[r] != Fetch(s.server.cm)
    ensures Next(s, Push(r, i, arrives)).server == s.server
  {
    assert DirInv(s.server, s.runs[r]);
    PrepareKeepsBase(s.runs[r], i);
  }

  // ----- what one effective run does to the published builders -----

  function BuildersOf(cm: Option<ConfigMap>): map<string, Builder> {
    if cm.Some? && cm.value.data.tar.Some? then cm.value.data.tar.value.builders else map[]
  }

  /** The devices of a published builder, none for a builder that does not exist yet. */
  function DevsOf(cm: Option<ConfigMap>, f: string): seq<Option<Dev>> {
    if f in BuildersOf(cm) then BuildersOf(cm)[f].devs else []
  }

  predicate WellFormed(cm: Option<ConfigMap>) {
    forall f | f in BuildersOf(cm) :: UniqueKeys(BuildersOf(cm)[f].devs) && Swappable(BuildersOf(cm)[f].devs)
  }

  /** Nothing published is lost: ids, fields and settings stay, devices are only appended. */
  predicate Grows(old_: Option<ConfigMap>, new_: Option<ConfigMap>) {
    forall f | f in BuildersOf(old_) ::
      f in BuildersOf(new_) && BuildersOf(new_)[f].settings == BuildersOf(old_)[f].settings &&
      BuildersOf(old_)[f].devs <= BuildersOf(new_)[f].devs
  }

  predicate NamesHosts(i: Inputs) {
    forall r | r in ReadAll(i.devices) :: r.host != ""
  }

  /** init and update, file by file. */
  function Grown(d: Dir, f: string, i: Inputs): Builder
    requires f in d.builders || f in RINGS
  {
    var b := if f in d.builders then d.builders[f] else Create(i.settings);
    if f in RINGS then b.(devs := AddAll(b.devs, ReadAll(i.devices), Port(f))) else b
  }

  lemma RingNames(f: string)
    ensures f in RINGS <==> f == "account" || f == "container" || f == "object"
  {
    assert RINGS[0] == "account" && RINGS[1] == "container" && RINGS[2] == "object";
  }

  /** The directory between update and rebalance. */
  function Updated(d: Dir, i: Inputs): Dir {
    RingNames("account"); RingNames("container"); RingNames("object");
    Update(Init(d, i.settings), ReadAll(i.devices))
  }

  lemma UpdatedBuilder(d: Dir, i: Inputs, f: string)
    ensures f in Updated(d, i).builders <==> f in d.builders || f in RINGS
    ensures f in Updated(d, i).builders ==> Updated(d, i).builders[f] == Grown(d, f, i)
  {
    RingNames(f);
  }

  /** The swap is undone: rebalancing leaves the device table as it was, so the next search finds host names. */
  lemma RebalanceKeepsDevices(b: Builder, f: string, plan: Plan)
    requires Swappable(b.devs)
    ensures RebalanceBuilder(b, f, plan).devs == b.devs && RebalanceBuilder(b, f, plan).settings == b.settings
  {
    SwapInvolution(b.devs);
  }

  lemma GrownKeeps(d: Dir, f: string, i: Inputs)
    requires f in d.builders || f in RINGS
    requires NamesHosts(i)
    requires f in d.builders ==> UniqueKeys(d.builders[f].devs) && Swappable(d.builders[f].devs)
    ensures UniqueKeys(Grown(d, f, i).devs) && Swappable(Grown(d, f, i).devs)
    ensures f in d.builders ==>
      d.builders[f].devs <= Grown(d, f, i).devs && Grown(d, f, i).settings == d.builders[f].settings
    ensures f in RINGS ==>
      Keys(Grown(d, f, i).devs) ==
      Keys(if f in d.builders then d.builders[f].devs else []) + ListKeys(ReadAll(i.devices))
    ensures f !in RINGS ==> Grown(d, f, i) == d.builders[f]
  {
    var devs := if f in d.builders then d.builders[f].devs else [];
    AddAllGrows(devs, ReadAll(i.devices), Port(f));
    AddAllSwappable(devs, ReadAll(i.devices), Port(f));
  }

  /** A builder file that a run would push. */
  lemma PreparedBuilder(d: Dir, i: Inputs, f: string)
    requires Prepare(d, i).Some? && NamesHosts(i)
    requires f in d.builders ==> UniqueKeys(d.builders[f].devs) && Swappable(d.builders[f].devs)
    ensures f in Prepare(d, i).value.builders <==> f in d.builders || f in RINGS
    ensures f in Prepare(d, i).value.builders ==>
      var p := Prepare(d, i).value;
      p.builders[f].devs == Grown(d, f, i).devs && p.builders[f].settings == Grown(d, f, i).settings &&
      f in p.rings && p.rings[f] == RingOf(p.builders[f])
  {
    UpdatedBuilder(d, i, f);
    var u := Updated(d, i);
    assert Prepare(d, i).value == Rebalance(u, i.plan);
    if f in u.builders {
      GrownKeeps(d, f, i);
      RebalanceKeepsDevices(u.builders[f], f, i.plan);
    }
  }

  /** Undisturbed, a run takes effect unless it finds an orphaned ring file or a swap fails. */
  lemma UndisturbedRunTakesEffect(s: Server, i: Inputs)
    ensures AllOnce(s, i) != s <==>
      !(exists f | f in RINGS :: f !in BuildersOf(s.cm) && f in Fetch(s.cm).rings && Fetch(s.cm).rings[f].Ring?) &&
      !(exists f | f in i.swapFails :: f in BuildersOf(s.cm) || f in RINGS)
  {
    StopsBeforePush(Fetch(s.cm), i);
    assert Fetch(s.cm).builders == BuildersOf(s.cm);
    if Prepare(Fetch(s.cm), i).Some? {
      PrepareKeepsBase(Fetch(s.cm), i);
      assert AllOnce(s, i).next == s.next + 1;
    }
  }

  lemma FetchedBuilders(cm: Option<ConfigMap>)
    ensures Fetch(cm).builders == BuildersOf(cm)
  {
  }

  lemma SubmitPublishes(s: Server, d: Dir)
    ensures Submit(s, d) != s ==>
              Submit(s, d).cm == Some(ConfigMap(s.next, Publish(d))) && BuildersOf(Submit(s, d).cm) == d.builders
  {
  }

  /** The published builders of an effective run are those it prepared from what was published before. */
  lemma EffectiveRunPublishes(s: Server, i: Inputs)
    requires AllOnce(s, i) != s
    ensures Prepare(Fetch(s.cm), i).Some? && Fetch(s.cm).builders == BuildersOf(s.cm)
    ensures AllOnce(s, i).cm == Some(ConfigMap(s.next, Publish(Prepare(Fetch(s.cm), i).value)))
    ensures BuildersOf(AllOnce(s, i).cm) == Prepare(Fetch(s.cm), i).value.builders
  {
    FetchedBuilders(s.cm);
    var p := Prepare(Fetch(s.cm), i);
    if p.Some? {
      SubmitPublishes(s, p.value);
    }
  }

  lemma EffectiveBuilder(s: Server, i: Inputs, f: string)
    requires WellFormed(s.cm) && NamesHosts(i) && AllOnce(s, i) != s && (f in BuildersOf(s.cm) || f in RINGS)
    ensures f in BuildersOf(AllOnce(s, i).cm)
    ensures BuildersOf(AllOnce(s, i).cm)[f].devs == Grown(Fetch(s.cm), f, i).devs
    ensures BuildersOf(AllOnce(s, i).cm)[f].settings == Grown(Fetch(s.cm), f, i).settings
  {
    EffectiveRunPublishes(s, i);
    PreparedBuilder(Fetch(s.cm), i, f);
  }

  /** The three rings get exactly the listed keys added; other builders keep their devices. */
  lemma EffectiveRunKeys(s: Server, i: Inputs, f: string)
    requires WellFormed(s.cm) && NamesHosts(i) && AllOnce(s, i) != s && (f in BuildersOf(s.cm) || f in RINGS)
    ensures f in RINGS ==>
      Keys(DevsOf(AllOnce(s, i).cm, f)) == Keys(DevsOf(s.cm, f)) + ListKeys(ReadAll(i.devices))
    ensures f !in RINGS ==> DevsOf(AllOnce(s, i).cm, f) == DevsOf(s.cm, f)
  {
    EffectiveRunPublishes(s, i);
    EffectiveBuilder(s, i, f);
    GrownKeeps(Fetch(s.cm), f, i);
  }

  /** Every published ring, in the tarball and in the three ring keys, is written from the published builder, so it
      carries host names. */
  lemma EffectiveRunRings(s: Server, i: Inputs, f: string)
    requires WellFormed(s.cm) && NamesHosts(i) && AllOnce(s, i) != s && f in BuildersOf(AllOnce(s, i).cm)
    ensures var tar := AllOnce(s, i).cm.value.data.tar.value;
      f in tar.rings && tar.rings[f] == Ring(tar.builders[f].devs, tar.builders[f].parts)
    ensures f in RINGS ==>
              RingKey(AllOnce(s, i).cm.value.data, f) == RingOf(BuildersOf(AllOnce(s, i).cm)[f])
  {
    EffectiveRunPublishes(s, i);
    PreparedBuilder(Fetch(s.cm), i, f);
    RingNames(f);
  }

  /** The key of the ConfigMap that services mount as the ring f. */
  function RingKey(data: Data, f: string): RingFile {
    if f == "account" then data.accountRing else if f == "container" then data.containerRing else data.objectRing
  }

  /** One effective run loses nothing and keeps the published builders well formed. */
  lemma EffectiveRun(s: Server, i: Inputs)
    requires WellFormed(s.cm) && NamesHosts(i) && AllOnce(s, i) != s
    ensures Grows(s.cm, AllOnce(s, i).cm) && WellFormed(AllOnce(s, i).cm)
  {
    var d, t := Fetch(s.cm), AllOnce(s, i);
    EffectiveRunPublishes(s, i);
    forall f | f in BuildersOf(t.cm)
      ensures UniqueKeys(BuildersOf(t.cm)[f].devs) && Swappable(BuildersOf(t.cm)[f].devs)
    {
      PreparedBuilder(d, i, f);
      EffectiveBuilder(s, i, f);
      GrownKeeps(d, f, i);
    }
    forall f | f in BuildersOf(s.cm)
      ensures f in BuildersOf(t.cm) && BuildersOf(s.cm)[f].devs <= BuildersOf(t.cm)[f].devs
      ensures BuildersOf(t.cm)[f].settings == BuildersOf(s.cm)[f].settings
    {
      EffectiveBuilder(s, i, f);
      GrownKeeps(d, f, i);
    }
  }

  /** A run stops before push exactly for an orphaned ring file or a failed swap. */
  lemma StopsBeforePush(d: Dir, i: Inputs)
    ensures Prepare(d, i).None? <==>
      (exists f | f in RINGS :: f !in d.builders && f in d.rings && d.rings[f].Ring?) ||
      (exists f | f in i.swapFails :: f in d.builders || f in RINGS)
  {
    forall f ensures f in Updated(d, i).builders <==> f in d.builders || f in RINGS {
      UpdatedBuilder(d, i, f);
    }
    assert HasOrphan(d) <==> exists f | f in RINGS :: Orphan(d, f);
    assert Updated(d, i).builders.Keys !! i.swapFails <==> forall f | f in i.swapFails :: f !in Updated(d, i).builders;
  }

  // ----- whole races -----

  /** The race neither deletes the ConfigMap nor lets anyone else rewrite its data. */
  predicate Peaceful(steps: seq<Step>) {
    forall e | e in steps :: !e.Delete? && !e.Edit? && (e.Push? ==> NamesHosts(e.inputs))
  }

  lemma GrowsTransitive(a: Option<ConfigMap>, b: Option<ConfigMap>, c: Option<ConfigMap>)
    requires Grows(a, b) && Grows(b, c)
    ensures Grows(a, c)
  {
  }

  lemma PeacefulStep(s: Sys, e: Step)
    requires Inv(s) && WellFormed(s.server.cm) && Peaceful([e])
    ensures Grows(s.server.cm, Next(s, e).server.cm) && WellFormed(Next(s, e).server.cm)
  {
    assert e in [e];
    if e.Push? && Next(s, e).server != s.server {
      assert DirInv(s.server, s.runs[e.run]);
      PrepareKeepsBase(s.runs[e.run], e.inputs);
      EffectiveRun(s.server, e.inputs);
    }
  }

  /** However the runs interleave: devices and settings once published are never lost or changed. */
  lemma {:induction false} RacesOnlyGrow(s: Sys, steps: seq<Step>)
    requires Inv(s) && WellFormed(s.server.cm) && Peaceful(steps)
    ensures Grows(s.server.cm, Trace(s, steps).server.cm) && WellFormed(Trace(s, steps).server.cm)
  {
    if steps != [] {
      var front, e := steps[..|steps|-1], steps[|steps|-1];
      assert e in steps && forall x | x in front :: x in steps;
      RacesOnlyGrow(s, front);
      InvTrace(s, front);
      PeacefulStep(Trace(s, front), e);
      GrowsTransitive(s.server.cm, Trace(s, front).server.cm, Trace(s, steps).server.cm);
    }
  }

  lemma PrefixKeys(a: seq<Option<Dev>>, b: seq<Option<Dev>>)
    requires a <= b
    ensures Keys(a) <= Keys(b)
  {
    forall k | k in Keys(a) ensures k in Keys(b) {
      var i :| 0 <= i < |a| && a[i].Some? && KeyOf(a[i].value) == k;
      assert b[i] == a[i];
    }
  }

  /** The devices of a run whose push took effect are in all three rings ever after. */
  lemma NoDeviceIsLost(s: Sys, r: nat, i: Inputs, arrives: bool, later: seq<Step>, f: string)
    requires Inv(s) && WellFormed(s.server.cm) && NamesHosts(i) && Peaceful(later) && f in RINGS
    ensures var t := Next(s, Push(r, i, arrives));
      t.server != s.server ==> ListKeys(ReadAll(i.devices)) <= Keys(DevsOf(Trace(t, later).server.cm, f))
  {
    var t := Next(s, Push(r, i, arrives));
    if t.server != s.server {
      assert DirInv(s.server, s.runs[r]);
      PrepareKeepsBase(s.runs[r], i);
      EffectiveRun(s.server, i);
      EffectiveBuilder(s.server, i, f);
      EffectiveRunKeys(s.server, i, f);
      InvStep(s, Push(r, i, arrives));
      RacesOnlyGrow(t, later);
      PrefixKeys(DevsOf(t.server.cm, f), DevsOf(Trace(t, later).server.cm, f));
    }
  }

  // ----- node names for rebalance, host names for everyone else -----

  /** The device table that `swift-ring-builder rebalance` works on, between the two swaps of a run. */
  function RebalanceTable(d: Dir, i: Inputs, f: string): seq<Option<Dev>>
    requires f in Updated(d, i).builders
  {
    SwapDevs(Updated(d, i).builders[f].devs)
  }

  /** A device of the directory keeps its place; rebalance knows it by its node, and it is pushed under its host. */
  lemma DeviceInRun(d: Dir, i: Inputs, f: string, k: nat)
    requires f in d.builders && k < |d.builders[f].devs| && d.builders[f].devs[k].Some?
    requires NamesHosts(i) && UniqueKeys(d.builders[f].devs) && Swappable(d.builders[f].devs)
    ensures f in Updated(d, i).builders && k < |RebalanceTable(d, i, f)|
    ensures RebalanceTable(d, i, f)[k] == Some(SwapDev(d.builders[f].devs[k].value))
    ensures Prepare(d, i).Some? ==>
              var p := Prepare(d, i).value.builders;
              f in p && k < |p[f].devs| && p[f].devs[k] == d.builders[f].devs[k]
  {
    UpdatedBuilder(d, i, f);
    GrownKeeps(d, f, i);
    SwapDevsAt(Updated(d, i).builders[f].devs);
    if Prepare(d, i).Some? {
      PreparedBuilder(d, i, f);
    }
  }

  lemma PublishedStays(s: Sys, later: seq<Step>, f: string, k: nat)
    requires Inv(s) && WellFormed(s.server.cm) && Peaceful(later)
    requires k < |DevsOf(s.server.cm, f)|
    ensures WellFormed(Trace(s, later).server.cm) && f in BuildersOf(Trace(s, later).server.cm)
    ensures k < |DevsOf(Trace(s, later).server.cm, f)|
    ensures DevsOf(Trace(s, later).server.cm, f)[k] == DevsOf(s.server.cm, f)[k]
  {
    RacesOnlyGrow(s, later);
  }

  /** Whatever runs come between: every run rebalances a published volume by its node and pushes it by its host. */
  lemma NodesForRebalance(s: Sys, later: seq<Step>, i: Inputs, f: string, k: nat, d: Dev)
    requires Inv(s) && WellFormed(s.server.cm) && Peaceful(later) && NamesHosts(i)
    requires k < |DevsOf(s.server.cm, f)| && DevsOf(s.server.cm, f)[k] == Some(d)
    ensures var w := Fetch(Trace(s, later).server.cm);
      f in Updated(w, i).builders && k < |RebalanceTable(w, i, f)| && RebalanceTable(w, i, f)[k].Some? &&
      (var e := RebalanceTable(w, i, f)[k].value;
       e == (if d.device == "pv" && d.meta != "" then d.(ip := d.meta, meta := d.ip) else d)) &&
      (Prepare(w, i).Some? ==>
         var p := Prepare(w, i).value.builders;
         f in p && k < |p[f].devs| && p[f].devs[k] == Some(d))
  {
    PublishedStays(s, later, f, k);
    DeviceInRun(Fetch(Trace(s, later).server.cm), i, f, k);
  }

  /** The published assignment is the one that rebalance made of the table with the node names; without one, the old
      assignment stays, and a new builder has none. */
  lemma EffectiveRunParts(s: Server, i: Inputs, f: string)
    requires WellFormed(s.cm) && NamesHosts(i) && (f in BuildersOf(s.cm) || f in RINGS)
    ensures var w, t := Fetch(s.cm), AllOnce(s, i);
      t != s ==>
        f in BuildersOf(t.cm) && f in Updated(w, i).builders &&
        var table := RebalanceTable(w, i, f);
        BuildersOf(t.cm)[f].parts ==
          if (f, table) in i.plan then i.plan[(f, table)]
          else if f in BuildersOf(s.cm) then BuildersOf(s.cm)[f].parts else []
  {
    if AllOnce(s, i) != s {
      EffectiveRunPublishes(s, i);
      EffectiveBuilder(s, i, f);
      UpdatedBuilder(Fetch(s.cm), i, f);
    }
  }

  /** A builder that a run creates has the settings of the environment of that run, in their places. */
  lemma EffectiveRunSettings(s: Server, i: Inputs, f: string)
    requires WellFormed(s.cm) && NamesHosts(i) && f in RINGS && f !in BuildersOf(s.cm)
    ensures var t := AllOnce(s, i);
      t != s ==> f in BuildersOf(t.cm) && BuildersOf(t.cm)[f].settings == i.settings
  {
    if AllOnce(s, i) != s {
      EffectiveRunPublishes(s, i);
      EffectiveBuilder(s, i, f);
    }
  }

  /** What a run pushes, the next run gets: builders, rings and version. */
  lemma FetchWhatWasPublished(d: Dir, version: nat)
    requires forall f | f in RINGS :: f in d.rings
    ensures Fetch(Some(ConfigMap(version, Publish(d)))) == Dir(d.builders, d.rings, Some(version))
  {
    assert "account" == RINGS[0] && "container" == RINGS[1] && "object" == RINGS[2];
    var r := d.rings;
    assert r["account" := r["account"]]["container" := r["container"]]["object" := r["object"]] == r;
  }

  /** A ConfigMap without a tarball has no builders; its three ring keys become the ring files. */
  lemma FetchWithoutTar(version: nat, a: RingFile, c: RingFile, o: RingFile)
    ensures var d := Fetch(Some(ConfigMap(version, Data(None, a, c, o))));
      d.builders == map[] && d.base == Some(version) &&
      d.rings == map["account" := a, "container" := c, "object" := o]
  {
  }

  /** Devices are added with the ports of the account, container and object servers. */
  lemma AddedPorts(s: Server, i: Inputs, f: string, k: nat)
    requires WellFormed(s.cm) && NamesHosts(i) && f in RINGS
    ensures var t := AllOnce(s, i);
      t != s && |DevsOf(s.cm, f)| <= k < |DevsOf(t.cm, f)| ==>
        DevsOf(t.cm, f)[k].Some? &&
        (f == "account" ==> DevsOf(t.cm, f)[k].value.port == 6202) &&
        (f == "container" ==> DevsOf(t.cm, f)[k].value.port == 6201) &&
        (f == "object" ==> DevsOf(t.cm, f)[k].value.port == 6200)
  {
    var t := AllOnce(s, i);
    if t != s && |DevsOf(s.cm, f)| <= k < |DevsOf(t.cm, f)| {
      EffectiveBuilder(s, i, f);
      FetchedBuilders(s.cm);
      var x := AddedFrom(DevsOf(s.cm, f), ReadAll(i.devices), Port(f), k);
    }
  }
}
