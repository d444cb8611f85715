/**
 * The SwiftRing controller and the runs of swift-ring-tool together: what a ring that is marked ready says about the
 * published builders.
 */
module RingSystem {
  import opened Text
  import opened DeviceList
  import opened ReadLoop
  import opened RingBuilder
  import opened RingTool
  import opened Pipeline
  import RingController
  import RingProtocol

  /** History of a completed job: the list its tool read, and whether its push took effect and still stands, that is,
      nobody has deleted the ConfigMap or rewritten its data since. */
  datatype Outcome = Outcome(devices: string, stands: bool)

  /** What a pod read from devices.txt, and the creation time of its job. */
  datatype Read = Read(job: nat, devices: string)

  /** Both machines; `texts` has what the pods read; `since` is history, the contents of devices.txt since the last
      advance of DeviceListHash, and `outcomes` is history, by creation time of the job. */
  datatype Sys = Sys(
    gate: RingController.Sys, tool: RingProtocol.Sys, texts: map<nat, Read>,
    since: set<string>, outcomes: map<nat, Outcome>)

  datatype Event =
    | Reconcile(call: RingController.Call)
    | JobStarts
    | JobFails
    | JobVanishes
    | PodReads(run: nat)                                     // a pod of the present job reads devices.txt
    | JobCompletes(run: nat, inputs: Inputs, arrives: bool)  // that pod pushes and exits with 0
    | Tool(step: RingProtocol.Step)                          // any other step of any pod, and of the ConfigMap

  function Contents(o: Option<string>): set<string> { if o.Some? then {o.value} else {} }

  function Reconciled(s: Sys, c: RingController.Call): Sys {
    var g := RingController.Reconcile(s.gate, c);
    s.(gate := g,
       since := (if g.status.deviceList != s.gate.status.deviceList then {} else s.since) + Contents(g.devicesTxt))
  }

  predicate MayComplete(s: Sys, run: nat, i: Inputs) {
    s.gate.job.Some? && s.gate.job.value.phase in {RingController.Pending, RingController.Active} &&
    run in s.tool.runs && run in s.texts && s.texts[run] == Read(s.gate.job.value.created, i.devices)
  }

  function Completed(s: Sys, run: nat, i: Inputs, arrives: bool): Sys
    requires MayComplete(s, run, i)
  {
    var t := RingProtocol.Next(s.tool, RingProtocol.Push(run, i, arrives));
    s.(gate := RingController.Next(s.gate, RingController.Ends(true)), tool := t,
       outcomes := s.outcomes[s.gate.job.value.created := Outcome(i.devices, t.server != s.tool.server)])
  }

  predicate Voids(e: RingProtocol.Step) { e.Delete? || e.Edit? }

  function Next(s: Sys, e: Event): Sys {
    match e
    case Reconcile(c) => Reconciled(s, c)
    case JobStarts => s.(gate := RingController.Next(s.gate, RingController.Starts))
    case JobFails => s.(gate := RingController.Next(s.gate, RingController.Ends(false)))
    case JobVanishes => s.(gate := RingController.Next(s.gate, RingController.Vanishes))
    case PodReads(r) =>
      if s.gate.job.Some? && s.gate.devicesTxt.Some?
      then s.(texts := s.texts[r := Read(s.gate.job.value.created, s.gate.devicesTxt.value)]) else s
    case JobCompletes(r, i, arrives) => if MayComplete(s, r, i) then Completed(s, r, i, arrives) else s
    case Tool(step) =>
      s.(tool := RingProtocol.Next(s.tool, step),
         outcomes := map t | t in s.outcomes ::
                       if Voids(step) then s.outcomes[t].(stands := false) else s.outcomes[t])
  }

  function Trace(s: Sys, es: seq<Event>): Sys {
    if es == [] then s else Next(Trace(s, es[..|es|-1]), es[|es|-1])
  }

  predicate NamesText(list: string) { forall r | r in ReadAll(list) :: r.host != "" }

  /** Device lists name their hosts, and what is written into the ConfigMap by hand is a sane set of builders. */
  predicate Sane(e: Event) {
    match e
    case Reconcile(c) => NamesText(c.list)
    case Tool(Push(_, i, _)) => RingProtocol.NamesHosts(i)
    case Tool(Edit(data)) => RingProtocol.WellFormed(Some(ConfigMap(0, data)))
    case _ => true
  }

  ghost predicate Initial(s: Sys) {
    s.gate == RingController.FRESH && RingProtocol.Initial(s.tool) && RingProtocol.WellFormed(s.tool.server.cm) &&
    s.texts == map[] && s.since == {} && s.outcomes == map[]
  }

  // ----- the invariant -----

  ghost predicate ToolInv(s: Sys) {
    RingProtocol.Inv(s.tool) && RingProtocol.WellFormed(s.tool.server.cm)
  }

  /** Every completed job has an outcome, and since the last advance it read one of the contents of devices.txt. */
  ghost predicate Accounted(s: Sys) {
    forall t | t in s.gate.h.completed ::
      t in s.outcomes && (t >= s.gate.h.advanced ==> s.outcomes[t].devices in s.since)
  }

  /** All keys of the list are in the three published builders. */
  predicate Published(devices: string, cm: Option<ConfigMap>) {
    forall f | f in RINGS :: ListKeys(ReadAll(devices)) <= Keys(RingProtocol.DevsOf(cm, f))
  }

  predicate Standing(s: Sys) {
    forall t | t in s.outcomes && s.outcomes[t].stands :: Published(s.outcomes[t].devices, s.tool.server.cm)
  }

  /** The pods of the present job have read what devices.txt has been since the last advance. */
  predicate Fresh(s: Sys) {
    Contents(s.gate.devicesTxt) <= s.since &&
    (s.gate.status.deviceList.Some? || s.gate.job.Some? ==> s.gate.devicesTxt.Some?) &&
    forall r | r in s.texts :: s.texts[r].job < s.gate.h.clock && NamesText(s.texts[r].devices) &&
      (s.gate.job.Some? && s.texts[r].job == s.gate.job.value.created ==> s.texts[r].devices in s.since)
  }

  predicate Named(s: Sys) { s.gate.devicesTxt.Some? ==> NamesText(s.gate.devicesTxt.value) }

  ghost predicate Inv(s: Sys) {
    RingController.Inv(s.gate) && ToolInv(s) && Accounted(s) && Standing(s) && Fresh(s) && Named(s)
  }

  lemma StaysPublished(devices: string, a: Option<ConfigMap>, b: Option<ConfigMap>)
    requires Published(devices, a) && RingProtocol.Grows(a, b)
    ensures Published(devices, b)
  {
    forall f | f in RINGS ensures ListKeys(ReadAll(devices)) <= Keys(RingProtocol.DevsOf(b, f)) {
      RingProtocol.PrefixKeys(RingProtocol.DevsOf(a, f), RingProtocol.DevsOf(b, f));
    }
  }

  lemma GrowsStanding(s: Sys, t: Sys)
    requires Standing(s) && t.outcomes == s.outcomes && RingProtocol.Grows(s.tool.server.cm, t.tool.server.cm)
    ensures Standing(t)
  {
    forall k | k in t.outcomes && t.outcomes[k].stands ensures Published(t.outcomes[k].devices, t.tool.server.cm) {
      StaysPublished(t.outcomes[k].devices, s.tool.server.cm, t.tool.server.cm);
    }
  }

  lemma ToolStep(s: Sys, step: RingProtocol.Step)
    requires Inv(s) && Sane(Tool(step))
    ensures Inv(Next(s, Tool(step)))
  {
    var t := Next(s, Tool(step));
    RingProtocol.InvStep(s.tool, step);
    if Voids(step) {
      if step.Edit? {
        assert RingProtocol.BuildersOf(t.tool.server.cm) == RingProtocol.BuildersOf(Some(ConfigMap(0, step.data)));
      }
    } else {
      assert t.outcomes == s.outcomes;
      RingProtocol.PeacefulStep(s.tool, step);
      GrowsStanding(s, t);
    }
  }

  /** A push that takes effect publishes its list. */
  lemma PushPublishes(s: RingProtocol.Sys, r: nat, i: Inputs, arrives: bool)
    requires RingProtocol.Inv(s) && RingProtocol.WellFormed(s.server.cm) && RingProtocol.NamesHosts(i)
    ensures var t := RingProtocol.Next(s, RingProtocol.Push(r, i, arrives));
      RingProtocol.Inv(t) && RingProtocol.WellFormed(t.server.cm) && RingProtocol.Grows(s.server.cm, t.server.cm) &&
      (t.server != s.server ==> Published(i.devices, t.server.cm))
  {
    var e := RingProtocol.Push(r, i, arrives);
    RingProtocol.InvStep(s, e);
    RingProtocol.PeacefulStep(s, e);
    forall f | f in RINGS
      ensures RingProtocol.Next(s, e).server != s.server ==>
                ListKeys(ReadAll(i.devices)) <= Keys(RingProtocol.DevsOf(RingProtocol.Next(s, e).server.cm, f))
    {
      RingProtocol.NoDeviceIsLost(s, r, i, arrives, [], f);
    }
  }

  lemma CompletedStep(s: Sys, r: nat, i: Inputs, arrives: bool)
    requires Inv(s) && MayComplete(s, r, i)
    ensures Inv(Completed(s, r, i, arrives))
  {
    var t := Completed(s, r, i, arrives);
    RingController.InvStep(s.gate, RingController.Ends(true));
    PushPublishes(s.tool, r, i, arrives);
    forall k | k in t.outcomes && t.outcomes[k].stands ensures Published(t.outcomes[k].devices, t.tool.server.cm) {
      if k != s.gate.job.value.created {
        StaysPublished(s.outcomes[k].devices, s.tool.server.cm, t.tool.server.cm);
      }
    }
  }

  /** What a reconcile does to the history, to devices.txt and to the job. */
  lemma ReconcileHistory(g: RingController.Sys, c: RingController.Call)
    ensures var t := RingController.Reconcile(g, c);
      t.h.completed == g.h.completed && t.h.clock >= g.h.clock &&
      t.h.advanced == (if t.status.deviceList != g.status.deviceList then g.h.clock else g.h.advanced) &&
      (t.devicesTxt == g.devicesTxt || t.devicesTxt == Some(c.list)) &&
      (t.status.deviceList != g.status.deviceList ==> g.job.None? && t.devicesTxt == Some(c.list)) &&
      (t.status.deviceList.Some? && g.devicesTxt.None? && g.status.deviceList.None? ==> t.devicesTxt.Some?) &&
      (t.job.Some? ==> t.job == g.job || (t.job.value.created == g.h.clock && t.h.clock == g.h.clock + 1))
  {
  }

  lemma JobHasList(g: RingController.Sys, c: RingController.Call)
    requires g.status.deviceList.Some? || g.job.Some? ==> g.devicesTxt.Some?
    ensures var t := RingController.Reconcile(g, c);
      t.status.deviceList.Some? || t.job.Some? ==> t.devicesTxt.Some?
  {
  }

  lemma ReconcileStep(s: Sys, c: RingController.Call)
    requires Inv(s) && NamesText(c.list)
    ensures Inv(Reconciled(s, c))
  {
    RingController.ReconcileKeepsInv(s.gate, c);
    ReconcileHistory(s.gate, c);
    JobHasList(s.gate, c);
    assert RingController.Timed(s.gate);
  }

  lemma InvStep(s: Sys, e: Event)
    requires Inv(s) && Sane(e)
    ensures Inv(Next(s, e))
  {
    match e
    case Reconcile(c) => ReconcileStep(s, c);
    case JobStarts => RingController.InvStep(s.gate, RingController.Starts);
    case JobFails => RingController.InvStep(s.gate, RingController.Ends(false));
    case JobVanishes => RingController.InvStep(s.gate, RingController.Vanishes);
    case PodReads(r) =>
    case JobCompletes(r, i, arrives) =>
      if MayComplete(s, r, i) {
        CompletedStep(s, r, i, arrives);
      }
    case Tool(step) => ToolStep(s, step);
  }

  lemma {:induction false} InvTrace(s: Sys, es: seq<Event>)
    requires Initial(s) && forall e | e in es :: Sane(e)
    ensures Inv(Trace(s, es))
  {
    if es != [] {
      var front, e := es[..|es|-1], es[|es|-1];
      assert e in es && forall x | x in front :: x in es;
      InvTrace(s, front);
      InvStep(Trace(s, front), e);
    }
  }

  // ----- what ready means -----

  /** A completed job ran the tool with this list after the last advance. */
  predicate Ran(s: Sys, job: nat, list: string) {
    job in s.gate.h.completed && job >= s.gate.h.advanced && job in s.outcomes && s.outcomes[job].devices == list
  }

  /**
   * When a reconcile marks the ring ready for a list, and devices.txt has been nothing else since the advance, a job
   * has completed that ran the tool with this list. If its push stands, all three builders have every key of the list.
   */
  lemma ReadyMeansRan(s0: Sys, es: seq<Event>, c: RingController.Call) returns (job: nat)
    requires Initial(s0) && forall e | e in es :: Sane(e)
    requires RingController.InMemory(Trace(s0, es).gate, c).status.ready && Trace(s0, es).since <= {c.list}
    ensures var s := Trace(s0, es);
      Ran(s, job, c.list) && (s.outcomes[job].stands ==> Published(c.list, s.tool.server.cm))
  {
    InvTrace(s0, es);
    var s := Trace(s0, es);
    ReadyHasCompleted(s.gate, c);
    job :| job in s.gate.h.completed && job >= s.gate.h.advanced;
  }

  lemma ReadyHasCompleted(g: RingController.Sys, c: RingController.Call)
    requires RingController.Inv(g) && RingController.InMemory(g, c).status.ready
    ensures exists t :: t in g.h.completed && t >= g.h.advanced
  {
    assert g.status.ringCreate.Some? || (g.job.Some? && g.job.value.phase == RingController.Complete);
    assert RingController.RebalancedSince(g.h);
  }

  /** From the cluster to the rings: if the list is that of a cluster, its volumes and disks are all published. */
  lemma ReadyClusterIsPublished(s0: Sys, es: seq<Event>, c: RingController.Call, cluster: Cluster) returns (job: nat)
    requires Initial(s0) && forall e | e in es :: Sane(e)
    requires RingController.InMemory(Trace(s0, es).gate, c).status.ready && Trace(s0, es).since <= {c.list}
    requires Ready(cluster) && CleanCluster(cluster) && c.list == DeviceText(Records(cluster))
    ensures var s := Trace(s0, es);
      Ran(s, job, c.list) &&
      (s.outcomes[job].stands ==>
         forall f | f in RINGS :: RecordKeys(Records(cluster)) <= Keys(RingProtocol.DevsOf(s.tool.server.cm, f)))
  {
    job := ReadyMeansRan(s0, es, c);
    ClusterRoundTrip(cluster);
    KeysOfList(ReadAll(c.list));
  }
}
