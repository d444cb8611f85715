/**
 * A new device list reaches the published builders: the controller and swift-ring-tool together, in a quiet period
 * in which jobs succeed and nobody overtakes their pushes.
 */
module RingProgress {
  import opened Text
  import opened DeviceList
  import opened RingTool
  import opened RingBuilder
  import opened Pipeline
  import opened RingSystem
  import ReadLoop
  import RingController
  import RingProtocol

  /** Sync is a reconcile; Work lets the job advance: start, or run the tool to a successful end. */
  datatype Tick = Sync | Work(run: nat, inputs: Inputs)

  /** The pod of the job reads devices.txt and runs the tool from get to push. */
  function JobRun(s: Sys, run: nat, i: Inputs): Sys
    requires s.gate.devicesTxt.Some?
  {
    Next(Next(Next(s, PodReads(run)), Tool(RingProtocol.Get(run))),
      JobCompletes(run, i.(devices := s.gate.devicesTxt.value), true))
  }

  function TickOnce(s: Sys, k: RingController.Call, t: Tick): Sys {
    match t
    case Sync => Next(s, Reconcile(k))
    case Work(run, i) =>
      if s.gate.job.Some? && s.gate.job.value.phase == RingController.Pending then Next(s, JobStarts)
      else if s.gate.job.Some? && s.gate.job.value.phase == RingController.Active && s.gate.devicesTxt.Some?
      then JobRun(s, run, i) else s
  }

  function Ticks(s: Sys, k: RingController.Call, ts: seq<Tick>): Sys {
    if ts == [] then s else TickOnce(Ticks(s, k, ts[..|ts|-1]), k, ts[|ts|-1])
  }

  function Rounds(s: Sys, k: RingController.Call, rounds: seq<seq<Tick>>): Sys {
    if rounds == [] then s else Ticks(Rounds(s, k, rounds[..|rounds|-1]), k, rounds[|rounds|-1])
  }

  /** What the controller sees of a tick. */
  function GateTick(t: Tick): RingController.Tick { if t.Sync? then RingController.Sync else RingController.Work }

  function GateTicks(ts: seq<Tick>): seq<RingController.Tick> {
    if ts == [] then [] else GateTicks(ts[..|ts|-1]) + [GateTick(ts[|ts|-1])]
  }

  function GateRounds(rounds: seq<seq<Tick>>): (r: seq<seq<RingController.Tick>>)
    ensures |r| == |rounds|
  {
    if rounds == [] then [] else GateRounds(rounds[..|rounds|-1]) + [GateTicks(rounds[|rounds|-1])]
  }

  /** The tool runs under a name that no other run has, and can swap every builder. */
  predicate Smooth(s: Sys, ts: seq<Tick>) {
    forall t | t in ts && t.Work? :: t.run !in s.tool.runs && t.inputs.swapFails == {}
  }

  /** No published ring lacks its builder. */
  predicate Complete(cm: Option<ConfigMap>) { !HasOrphan(Fetch(cm)) }

  // ----- one run of the tool for the job -----

  lemma AnyOrphan(d: Dir)
    ensures HasOrphan(d) <==> exists f | f in RINGS :: f !in d.builders && f in d.rings && d.rings[f].Ring?
  {
    assert forall f | f in RINGS :: Orphan(d, f) <==> (f !in d.builders && f in d.rings && d.rings[f].Ring?);
  }

  /** A run that can swap takes effect exactly when no published ring lacks its builder, and keeps it so. */
  lemma EffectiveIffComplete(s: Server, i: Inputs)
    requires RingProtocol.WellFormed(s.cm) && RingProtocol.NamesHosts(i) && i.swapFails == {}
    ensures AllOnce(s, i) != s <==> Complete(s.cm)
    ensures Complete(AllOnce(s, i).cm) <==> Complete(s.cm)
  {
    RingProtocol.FetchedBuilders(s.cm);
    AnyOrphan(Fetch(s.cm));
    RingProtocol.UndisturbedRunTakesEffect(s, i);
    var t := AllOnce(s, i);
    if t != s {
      RingProtocol.FetchedBuilders(t.cm);
      forall f | f in RINGS ensures !Orphan(Fetch(t.cm), f) {
        RingProtocol.EffectiveBuilder(s, i, f);
      }
    }
  }

  /** Get and push with nothing in between are the undisturbed run. */
  lemma GetThenPush(s: RingProtocol.Sys, run: nat, i: Inputs)
    requires run !in s.runs
    ensures var t := RingProtocol.Next(RingProtocol.Next(s, RingProtocol.Get(run)), RingProtocol.Push(run, i, true));
      t.server == AllOnce(s.server, i) && t.runs == s.runs
  {
  }

  lemma SameOutcomes(s: Sys, run: nat)
    ensures Next(s, Tool(RingProtocol.Get(run))).outcomes == s.outcomes
  {
  }

  /** The inputs of the job's tool run. */
  function JobInputs(s: Sys, i: Inputs): Inputs
    requires s.gate.devicesTxt.Some?
  {
    i.(devices := s.gate.devicesTxt.value)
  }

  predicate CanRun(s: Sys, run: nat, i: Inputs) {
    s.gate.job.Some? && s.gate.job.value.phase == RingController.Active && s.gate.devicesTxt.Some? &&
    run !in s.tool.runs && i.swapFails == {}
  }

  /** The job ends successfully in any case; its push stands, and publishes what devices.txt says, exactly when no
      published ring lacked its builder. */
  lemma JobRunPublishes(s: Sys, run: nat, i: Inputs)
    requires Inv(s) && CanRun(s, run, i)
    ensures var t := JobRun(s, run, i);
      Inv(t) && t.gate == RingController.Next(s.gate, RingController.Ends(true)) && t.tool.runs == s.tool.runs &&
      t.tool.server == AllOnce(s.tool.server, JobInputs(s, i)) &&
      t.outcomes == s.outcomes[s.gate.job.value.created :=
                                 Outcome(s.gate.devicesTxt.value, Complete(s.tool.server.cm))]
  {
    var j := JobInputs(s, i);
    var s1 := Next(s, PodReads(run));
    var s2 := Next(s1, Tool(RingProtocol.Get(run)));
    InvStep(s, PodReads(run));
    InvStep(s1, Tool(RingProtocol.Get(run)));
    SameOutcomes(s1, run);
    assert MayComplete(s2, run, j);
    InvStep(s2, JobCompletes(run, j, true));
    GetThenPush(s.tool, run, j);
    EffectiveIffComplete(s.tool.server, j);
  }

  // ----- what a quiet period delivers -----

  ghost predicate Quiet(s: Sys, k: RingController.Call) {
    Inv(s) && NamesText(k.list) && k == RingController.Quiet(k.list, k.spec, k.recreate)
  }

  /** A job is running, or the controller is going to create one for the recorded list. */
  predicate WillRun(g: RingController.Sys, k: RingController.Call) {
    RingController.Running(g.job) ||
    (g.status.ringCreate != Some(k.spec) && (g.job.None? || (g.job.value.spec != k.spec && k.recreate)))
  }

  /** The keys that the job adds. */
  function Coming(s: Sys, k: RingController.Call): set<Key> {
    if WillRun(s.gate, k) && s.gate.devicesTxt.Some? then ListKeys(ReadLoop.ReadAll(s.gate.devicesTxt.value)) else {}
  }

  /** If the list is recorded already, its keys are published or come with devices.txt. */
  predicate Covered(s: Sys, k: RingController.Call) {
    s.gate.status.deviceList == Some(k.list) ==>
      forall f | f in RINGS ::
        ListKeys(ReadLoop.ReadAll(k.list)) <= Keys(RingProtocol.DevsOf(s.tool.server.cm, f)) + Coming(s, k)
  }

  /** A quiet period ends with the list published. */
  predicate WillPublish(s: Sys, k: RingController.Call) {
    if Complete(s.tool.server.cm) then Covered(s, k) else Published(k.list, s.tool.server.cm)
  }

  lemma GateSync(g: RingController.Sys, k: RingController.Call)
    requires k == RingController.Quiet(k.list, k.spec, k.recreate)
    ensures var t := RingController.Reconcile(g, k);
      if g.status.deviceList == Some(k.list) then
        t.status.deviceList == g.status.deviceList && t.devicesTxt == g.devicesTxt && (WillRun(t, k) <==> WillRun(g, k))
      else
        t.status.deviceList == Some(k.list) ==> t.devicesTxt == Some(k.list) && WillRun(t, k)
  {
  }

  lemma SyncKeeps(s: Sys, k: RingController.Call)
    requires Quiet(s, k)
    ensures var t := Next(s, Reconcile(k));
      Quiet(t, k) && t.tool == s.tool && (WillPublish(t, k) <==> WillPublish(s, k))
  {
    InvStep(s, Reconcile(k));
    GateSync(s.gate, k);
    var t := Next(s, Reconcile(k));
    if s.gate.status.deviceList == Some(k.list) {
      assert Coming(t, k) == Coming(s, k);
    } else {
      assert Covered(s, k);
      assert Covered(t, k);
    }
  }

  /** The run of a job adds the keys of devices.txt to every ring. */
  lemma JobRunKeys(s: Sys, run: nat, i: Inputs, f: string)
    requires Inv(s) && CanRun(s, run, i) && Complete(s.tool.server.cm) && f in RINGS
    ensures Keys(RingProtocol.DevsOf(JobRun(s, run, i).tool.server.cm, f)) ==
            Keys(RingProtocol.DevsOf(s.tool.server.cm, f)) + ListKeys(ReadLoop.ReadAll(s.gate.devicesTxt.value))
  {
    JobRunPublishes(s, run, i);
    EffectiveIffComplete(s.tool.server, JobInputs(s, i));
    RingProtocol.EffectiveRunKeys(s.tool.server, JobInputs(s, i), f);
  }

  lemma SameSums(s: Sys, t: Sys, k: RingController.Call)
    requires t.gate.status.deviceList == s.gate.status.deviceList
    requires forall f | f in RINGS ::
      Keys(RingProtocol.DevsOf(t.tool.server.cm, f)) + Coming(t, k) ==
      Keys(RingProtocol.DevsOf(s.tool.server.cm, f)) + Coming(s, k)
    ensures Covered(t, k) <==> Covered(s, k)
  {
  }

  /** What came has arrived. */
  lemma Arrives(before: set<Key>, brought: set<Key>, coming: set<Key>)
    requires coming == brought || coming == {}
    ensures before + brought + coming == before + brought
  {
  }

  lemma JobRunComing(s: Sys, k: RingController.Call, run: nat, i: Inputs)
    requires Inv(s) && CanRun(s, run, i)
    ensures var t, brought := JobRun(s, run, i), ListKeys(ReadLoop.ReadAll(s.gate.devicesTxt.value));
      t.gate.status.deviceList == s.gate.status.deviceList && Coming(s, k) == brought &&
      (Coming(t, k) == brought || Coming(t, k) == {})
  {
    JobRunPublishes(s, run, i);
  }

  lemma JobRunKeepsPromise(s: Sys, k: RingController.Call, run: nat, i: Inputs)
    requires Quiet(s, k) && CanRun(s, run, i)
    ensures var t := JobRun(s, run, i);
      (Complete(t.tool.server.cm) <==> Complete(s.tool.server.cm)) && (WillPublish(t, k) <==> WillPublish(s, k))
  {
    var t := JobRun(s, run, i);
    JobRunPublishes(s, run, i);
    EffectiveIffComplete(s.tool.server, JobInputs(s, i));
    if Complete(s.tool.server.cm) {
      JobRunComing(s, k, run, i);
      var brought := ListKeys(ReadLoop.ReadAll(s.gate.devicesTxt.value));
      forall f | f in RINGS
        ensures Keys(RingProtocol.DevsOf(t.tool.server.cm, f)) + Coming(t, k) ==
                Keys(RingProtocol.DevsOf(s.tool.server.cm, f)) + Coming(s, k)
      {
        JobRunKeys(s, run, i, f);
        Arrives(Keys(RingProtocol.DevsOf(s.tool.server.cm, f)), brought, Coming(t, k));
      }
      SameSums(s, t, k);
    }
  }

  /** What a tick leaves as it is. */
  predicate Same(s: Sys, t: Sys, k: RingController.Call) {
    t.tool.runs == s.tool.runs && (Complete(t.tool.server.cm) <==> Complete(s.tool.server.cm)) &&
    (WillPublish(t, k) <==> WillPublish(s, k))
  }

  lemma WorkKeeps(s: Sys, k: RingController.Call, run: nat, i: Inputs)
    requires Quiet(s, k) && run !in s.tool.runs && i.swapFails == {}
    ensures var t := TickOnce(s, k, Work(run, i));
      Quiet(t, k) && Same(s, t, k) && t.gate == RingController.TickOnce(s.gate, k, RingController.Work)
  {
    if s.gate.job.Some? && s.gate.job.value.phase == RingController.Pending {
      InvStep(s, JobStarts);
      assert Coming(Next(s, JobStarts), k) == Coming(s, k);
    } else if s.gate.job.Some? && s.gate.job.value.phase == RingController.Active {
      JobRunPublishes(s, run, i);
      JobRunKeepsPromise(s, k, run, i);
    }
  }

  lemma TickKeeps(s: Sys, k: RingController.Call, t: Tick)
    requires Quiet(s, k) && (t.Work? ==> t.run !in s.tool.runs && t.inputs.swapFails == {})
    ensures var u := TickOnce(s, k, t);
      Quiet(u, k) && Same(s, u, k) && u.gate == RingController.TickOnce(s.gate, k, GateTick(t))
  {
    match t
    case Sync => SyncKeeps(s, k);
    case Work(run, i) => WorkKeeps(s, k, run, i);
  }

  lemma GateTicksSnoc(g: RingController.Sys, k: RingController.Call, ts: seq<Tick>)
    requires ts != []
    ensures RingController.Ticks(g, k, GateTicks(ts)) ==
            RingController.TickOnce(RingController.Ticks(g, k, GateTicks(ts[..|ts|-1])), k, GateTick(ts[|ts|-1]))
  {
    assert GateTicks(ts)[..|GateTicks(ts)|-1] == GateTicks(ts[..|ts|-1]);
  }

  lemma {:induction false} TicksKeep(s: Sys, k: RingController.Call, ts: seq<Tick>)
    requires Quiet(s, k) && Smooth(s, ts)
    ensures var t := Ticks(s, k, ts);
      Quiet(t, k) && Same(s, t, k) && t.gate == RingController.Ticks(s.gate, k, GateTicks(ts))
  {
    if ts != [] {
      var front, x := ts[..|ts|-1], ts[|ts|-1];
      assert x in ts && forall t | t in front :: t in ts;
      TicksKeep(s, k, front);
      OneMoreTick(Ticks(s, k, front), s, k, ts);
    }
  }

  lemma OneMoreTick(t: Sys, s: Sys, k: RingController.Call, ts: seq<Tick>)
    requires ts != [] && Quiet(t, k) && Smooth(s, ts)
    ensures var u := Ticks(s, k, ts);
      t == Ticks(s, k, ts[..|ts|-1]) && Same(s, t, k) &&
      t.gate == RingController.Ticks(s.gate, k, GateTicks(ts[..|ts|-1])) ==>
        Quiet(u, k) && Same(s, u, k) && u.gate == RingController.Ticks(s.gate, k, GateTicks(ts))
  {
    var x := ts[|ts|-1];
    assert x in ts;
    if Same(s, t, k) {
      TickKeeps(t, k, x);
    }
    GateTicksSnoc(s.gate, k, ts);
  }

  lemma {:induction false} RoundsKeep(s: Sys, k: RingController.Call, rounds: seq<seq<Tick>>)
    requires Quiet(s, k) && forall ts | ts in rounds :: Smooth(s, ts)
    ensures var t := Rounds(s, k, rounds);
      Quiet(t, k) && Same(s, t, k) && t.gate == RingController.Rounds(s.gate, k, GateRounds(rounds))
  {
    if rounds != [] {
      var front, ts := rounds[..|rounds|-1], rounds[|rounds|-1];
      assert ts in rounds && forall x | x in front :: x in rounds;
      RoundsKeep(s, k, front);
      OneMoreRound(Rounds(s, k, front), s, k, rounds);
    }
  }

  lemma GateRoundsSnoc(g: RingController.Sys, k: RingController.Call, rounds: seq<seq<Tick>>)
    requires rounds != []
    ensures RingController.Rounds(g, k, GateRounds(rounds)) ==
            RingController.Ticks(RingController.Rounds(g, k, GateRounds(rounds[..|rounds|-1])), k,
                                 GateTicks(rounds[|rounds|-1]))
  {
    assert GateRounds(rounds)[..|rounds|-1] == GateRounds(rounds[..|rounds|-1]);
  }

  lemma OneMoreRound(t: Sys, s: Sys, k: RingController.Call, rounds: seq<seq<Tick>>)
    requires rounds != [] && Quiet(t, k) && Smooth(s, rounds[|rounds|-1])
    ensures var u := Rounds(s, k, rounds);
      t == Rounds(s, k, rounds[..|rounds|-1]) && Same(s, t, k) &&
      t.gate == RingController.Rounds(s.gate, k, GateRounds(rounds[..|rounds|-1])) ==>
        Quiet(u, k) && Same(s, u, k) && u.gate == RingController.Rounds(s.gate, k, GateRounds(rounds))
  {
    if Same(s, t, k) {
      TicksKeep(t, k, rounds[|rounds|-1]);
    }
    GateRoundsSnoc(s.gate, k, rounds);
  }

  predicate Fair(ts: seq<Tick>) { RingController.Fair(GateTicks(ts)) }

  lemma {:induction false} GateFair(rounds: seq<seq<Tick>>)
    requires forall ts | ts in rounds :: Fair(ts)
    ensures forall ts | ts in GateRounds(rounds) :: RingController.Fair(ts)
  {
    if rounds != [] {
      var front := rounds[..|rounds|-1];
      assert rounds[|rounds|-1] in rounds && forall x | x in front :: x in rounds;
      GateFair(front);
    }
  }

  lemma NothingComes(s: Sys, k: RingController.Call)
    requires !RingController.Running(s.gate.job) && (RingController.Ready(s.gate, k) || RingController.Stuck(s.gate, k))
    ensures WillPublish(s, k) <==> Published(k.list, s.tool.server.cm)
  {
    assert Coming(s, k) == {};
    assert forall f | f in RINGS :: Keys(RingProtocol.DevsOf(s.tool.server.cm, f)) + {} ==
                                    Keys(RingProtocol.DevsOf(s.tool.server.cm, f));
  }

  /**
   * Twelve fair rounds of a quiet period, from every state. The ring is ready at the end if and only if no kept failed
   * job is in the way. The keys of the list are in all three builders at the end if and only if they were already, or,
   * provided no published ring lacks its builder, the list was not recorded yet or a job was still to run that brings
   * what was missing.
   */
  lemma ReadyAndPublished(s: Sys, k: RingController.Call, rounds: seq<seq<Tick>>)
    requires Quiet(s, k) && |rounds| >= 12 && forall ts | ts in rounds :: Fair(ts) && Smooth(s, ts)
    ensures var t := Rounds(s, k, rounds);
      (RingController.Ready(t.gate, k) <==> !RingController.Stuck(s.gate, k)) &&
      (Published(k.list, t.tool.server.cm) <==> WillPublish(s, k))
  {
    RoundsKeep(s, k, rounds);
    GateFair(rounds);
    RingController.ReadyIsReached(s.gate, k, GateRounds(rounds));
    NothingComes(Rounds(s, k, rounds), k);
  }

  /** Every key of the cluster is in all three builders. */
  ghost predicate HasCluster(cm: Option<ConfigMap>, cluster: Cluster)
    requires Ready(cluster)
  {
    forall f | f in RINGS :: RecordKeys(Records(cluster)) <= Keys(RingProtocol.DevsOf(cm, f))
  }

  /**
   * From every reachable state: when the cluster gets a list that is not the recorded one, twelve fair rounds of a
   * quiet period end with the ring ready for it; and with every volume and disk of the cluster in all three builders,
   * if and only if no published ring lacks its builder or they were there before.
   */
  lemma NewListIsPublished(s0: Sys, es: seq<Event>, k: RingController.Call, rounds: seq<seq<Tick>>, cluster: Cluster)
    requires Initial(s0) && forall e | e in es :: Sane(e)
    requires var s := Trace(s0, es);
      s.gate.status.deviceList != Some(k.list) &&
      |rounds| >= 12 && forall ts | ts in rounds :: Fair(ts) && Smooth(s, ts)
    requires k == RingController.Quiet(k.list, k.spec, k.recreate)
    requires CleanCluster(cluster) && Ready(cluster) && k.list == DeviceText(Records(cluster))
    ensures var s := Trace(s0, es);
      var t := Rounds(s, k, rounds);
      RingController.Ready(t.gate, k) &&
      (HasCluster(t.tool.server.cm, cluster) <==> Complete(s.tool.server.cm) || HasCluster(s.tool.server.cm, cluster))
  {
    InvTrace(s0, es);
    ClusterNamesHosts(cluster);
    ReadyAndPublished(Trace(s0, es), k, rounds);
    ClusterRoundTrip(cluster);
    KeysOfList(ReadLoop.ReadAll(k.list));
    if Complete(Trace(s0, es).tool.server.cm) {
      assert Covered(Trace(s0, es), k);
    }
  }

  lemma ClusterNamesHosts(c: Cluster)
    requires CleanCluster(c) && Ready(c)
    ensures NamesText(DeviceText(Records(c)))
  {
    ClusterRoundTrip(c);
    RecordsAreExact(c);
    forall r | r in ReadLoop.ReadAll(DeviceText(Records(c))) ensures r.host != "" {
      assert r in multiset(ReadLoop.ReadAll(DeviceText(Records(c))));
    }
  }

  // ----- a ring that is ready and stays unpublished -----

  lemma Extend(s: Sys, es: seq<Event>, e: Event) returns (fs: seq<Event>, t: Sys)
    requires Sane(e) && forall x | x in es :: Sane(x)
    ensures fs == es + [e] && t == Trace(s, fs) == Next(Trace(s, es), e) && forall x | x in fs :: Sane(x)
  {
    fs := es + [e];
    assert fs[..|fs|-1] == es;
    t := Trace(s, fs);
  }

  const EMPTY := Sys(RingController.FRESH, RingProtocol.Sys(Server(None, 0), map[]), map[], {}, map[])

  /** A run with no devices creates the ConfigMap with empty builders. */
  lemma EmptyRun(i: Inputs)
    requires i.devices == "" && i.swapFails == {}
    ensures var t := AllOnce(Server(None, 0), i);
      t.cm.Some? && t.cm.value.version == 0 && Complete(t.cm) &&
      forall f | f in RINGS :: Keys(RingProtocol.DevsOf(t.cm, f)) == {}
  {
    var s := Server(None, 0);
    assert Complete(s.cm);
    EffectiveIffComplete(s, i);
    RingProtocol.EffectiveRunPublishes(s, i);
    forall f | f in RINGS ensures Keys(RingProtocol.DevsOf(AllOnce(s, i).cm, f)) == {} {
      RingProtocol.EffectiveRunKeys(s, i, f);
    }
  }

  /** The first job for the list is running; its pod has read devices.txt. */
  lemma FirstJob(k: RingController.Call) returns (es: seq<Event>)
    requires k == RingController.Quiet(k.list, k.spec, k.recreate) && NamesText(k.list)
    ensures forall e | e in es :: Sane(e)
    ensures var s := Trace(EMPTY, es);
      s.gate.status.deviceList == Some(k.list) && s.gate.status.ringCreate == None &&
      s.gate.job == Some(RingController.Job(k.spec, RingController.Pending, 0)) &&
      s.tool == EMPTY.tool && s.texts == map[0 := Read(0, k.list)]
  {
    var t: Sys;
    es := [];
    es, t := Extend(EMPTY, es, Reconcile(k));
    es, t := Extend(EMPTY, es, PodReads(0));
  }

  /** Both runs have done their get, and the foreign one pushes first. */
  lemma Overtaken(k: RingController.Call, foreign: Inputs) returns (es: seq<Event>)
    requires k == RingController.Quiet(k.list, k.spec, k.recreate) && NamesText(k.list)
    requires foreign.devices == "" && foreign.swapFails == {}
    ensures forall e | e in es :: Sane(e)
    ensures var s := Trace(EMPTY, es);
      s.gate.status.deviceList == Some(k.list) && s.gate.status.ringCreate == None &&
      s.gate.job == Some(RingController.Job(k.spec, RingController.Pending, 0)) &&
      s.tool == RingProtocol.Sys(AllOnce(Server(None, 0), foreign), map[0 := EMPTY_DIR]) &&
      s.texts == map[0 := Read(0, k.list)]
  {
    var t: Sys;
    es := FirstJob(k);
    es, t := Extend(EMPTY, es, Tool(RingProtocol.Get(0)));
    assert t.tool == RingProtocol.Sys(Server(None, 0), map[0 := EMPTY_DIR]);
    var u := t.tool;
    assert NamesText("");
    es, t := Extend(EMPTY, es, Tool(RingProtocol.Get(1)));
    es, t := Extend(EMPTY, es, Tool(RingProtocol.Push(1, foreign, true)));
    GetThenPush(u, 1, foreign);
  }

  /** A run that found no ConfigMap cannot replace one. */
  lemma PostIsRefused(u: RingProtocol.Sys, i: Inputs)
    requires 0 in u.runs && u.runs[0] == EMPTY_DIR && u.server.cm.Some?
    ensures RingProtocol.Next(u, RingProtocol.Push(0, i, true)).server == u.server
  {
    RingProtocol.PrepareKeepsBase(EMPTY_DIR, i);
  }

  lemma NothingWillRun(s: Sys, k: RingController.Call)
    requires s.gate.status.deviceList == Some(k.list) && s.gate.job.Some?
    requires s.gate.job.value.spec == k.spec && s.gate.job.value.phase == RingController.Complete
    requires Complete(s.tool.server.cm) && ListKeys(ReadLoop.ReadAll(k.list)) != {}
    requires Keys(RingProtocol.DevsOf(s.tool.server.cm, "account")) == {}
    ensures !WillPublish(s, k) && !RingController.Stuck(s.gate, k)
  {
    assert Coming(s, k) == {};
    assert "account" == RINGS[0];
  }

  lemma CompletedGate(s: Sys, i: Inputs)
    requires MayComplete(s, 0, i)
    ensures var t := Next(s, JobCompletes(0, i, true));
      t.gate.status == s.gate.status && t.gate.job == Some(s.gate.job.value.(phase := RingController.Complete)) &&
      t.tool == RingProtocol.Next(s.tool, RingProtocol.Push(0, i, true))
  {
  }

  /** It happens: the push of the job is refused, the job succeeds, and nothing will publish the list. */
  lemma RefusedPushIsReached(k: RingController.Call, i: Inputs, foreign: Inputs) returns (es: seq<Event>)
    requires k == RingController.Quiet(k.list, k.spec, k.recreate) && NamesText(k.list)
    requires ListKeys(ReadLoop.ReadAll(k.list)) != {} && i.devices == k.list
    requires foreign.devices == "" && foreign.swapFails == {}
    ensures Initial(EMPTY) && forall e | e in es :: Sane(e)
    ensures var s := Trace(EMPTY, es);
      Complete(s.tool.server.cm) && !RingController.Stuck(s.gate, k) && !WillPublish(s, k)
  {
    var t: Sys;
    es := Overtaken(k, foreign);
    var u := Trace(EMPTY, es);
    es, t := Extend(EMPTY, es, JobCompletes(0, i, true));
    EmptyRun(foreign);
    CompletedGate(u, i);
    PostIsRefused(u.tool, i);
    assert "account" == RINGS[0];
    NothingWillRun(t, k);
  }

  /** So the ring becomes ready, and the list stays unpublished however long the quiet period is. */
  lemma ReadyButUnpublished(k: RingController.Call, i: Inputs, foreign: Inputs) returns (es: seq<Event>)
    requires k == RingController.Quiet(k.list, k.spec, k.recreate) && NamesText(k.list)
    requires ListKeys(ReadLoop.ReadAll(k.list)) != {} && i.devices == k.list
    requires foreign.devices == "" && foreign.swapFails == {}
    ensures Initial(EMPTY) && forall e | e in es :: Sane(e)
    ensures forall rounds | |rounds| >= 12 && forall ts | ts in rounds :: Fair(ts) && Smooth(Trace(EMPTY, es), ts) ::
      var t := Rounds(Trace(EMPTY, es), k, rounds);
      RingController.Ready(t.gate, k) && !Published(k.list, t.tool.server.cm)
  {
    es := RefusedPushIsReached(k, i, foreign);
    InvTrace(EMPTY, es);
    forall rounds | |rounds| >= 12 && forall ts | ts in rounds :: Fair(ts) && Smooth(Trace(EMPTY, es), ts)
      ensures var t := Rounds(Trace(EMPTY, es), k, rounds);
        RingController.Ready(t.gate, k) && !Published(k.list, t.tool.server.cm)
    {
      ReadyAndPublished(Trace(EMPTY, es), k, rounds);
    }
  }

  /** A ConfigMap that a user created with a ring and without its builder. */
  const CUSTOM := EMPTY.(tool := RingProtocol.Sys(
    Server(Some(ConfigMap(0, Data(None, Ring([], []), Ring([], []), Ring([], [])))), 1), map[]))

  /** Custom rings, too: the ring becomes ready, and the list stays unpublished. */
  lemma CustomRingsStayUnpublished(k: RingController.Call, rounds: seq<seq<Tick>>)
    requires k == RingController.Quiet(k.list, k.spec, k.recreate) && NamesText(k.list)
    requires ListKeys(ReadLoop.ReadAll(k.list)) != {}
    requires |rounds| >= 12 && forall ts | ts in rounds :: Fair(ts) && Smooth(CUSTOM, ts)
    ensures Initial(CUSTOM)
    ensures var t := Rounds(CUSTOM, k, rounds);
      RingController.Ready(t.gate, k) && !Published(k.list, t.tool.server.cm)
  {
    assert Trace(CUSTOM, []) == CUSTOM;
    InvTrace(CUSTOM, []);
    assert "account" == RINGS[0] && Orphan(Fetch(CUSTOM.tool.server.cm), "account");
    assert Keys(RingProtocol.DevsOf(CUSTOM.tool.server.cm, "account")) == {};
    ReadyAndPublished(CUSTOM, k, rounds);
  }
}
