/**
 * SwiftRingReconciler.reconcileNormal (internal/controller/swiftring_controller.go): publishing the device
 * list and gating the rebalance job with two recorded hashes.
 */
module RingController {
  import opened Text

  /** The object hash is injective and non-empty, so a hash is modelled by what was hashed, "" by None. */
  type Hash = Option<string>

  datatype Phase = Pending | Active | Complete | Failed

  /** A job; `created` is the logical time of its creation, which no code reads. */
  datatype Job = Job(spec: string, phase: Phase, created: nat)

  datatype Status = Status(deviceList: Hash, ringCreate: Hash, ready: bool)

  /** History that no code reads: a clock, the creation times of the jobs that completed, and the time and
      devices.txt of the last persisted advance of DeviceListHash. */
  datatype History = History(clock: nat, completed: set<nat>, advanced: nat, advancedTxt: Option<string>)

  /** The persisted status, the devices.txt ConfigMap and the rebalance job. */
  datatype Sys = Sys(status: Status, devicesTxt: Option<string>, job: Option<Job>, h: History)

  /** Where one reconcile is stopped by an error of the API server. */
  datatype Fault = NoFault | ListFails | EnsureFails | GetJobFails | DeleteFails | JobFails | LabelFails

  /** One call: the list it computes, the job spec it renders, and what the API server does to it. */
  datatype Call = Call(list: string, spec: string, fault: Fault, recreate: bool, patchLost: bool)

  datatype JobResult = Done | Requeue | Error

  /**
   * DoJob of lib-common, as a contract. Nothing to do when the recorded hash is the hash of the spec. Otherwise a
   * missing job is created; an existing job is waited for, an error when it failed, done when it completed. A job
   * of another spec may be deleted instead.
   */
  function DoJob(s: Sys, c: Call, before: Hash): (Sys, JobResult) {
    if before == Some(c.spec) then (s, Done)
    else match s.job
      case None =>
        (s.(job := Some(Job(c.spec, Pending, s.h.clock)), h := s.h.(clock := s.h.clock + 1)), Requeue)
      case Some(j) =>
        if j.spec != c.spec && c.recreate then (s.(job := None), Requeue)
        else match j.phase
          case Complete => (s, Done)
          case Failed => (s, Error)
          case _ => (s, Requeue)
  }

  /** The mismatch branch: the state after it, and whether reconcile goes on to the job. */
  function Publish(s: Sys, c: Call): (Sys, bool) {
    if c.fault == EnsureFails then (s, false) else
      var t := s.(devicesTxt := Some(c.list));
      if c.fault == GetJobFails then (t, false)
      else if t.job.Some? then
        (if t.job.value.phase != Active && c.fault != DeleteFails then t.(job := None) else t, false)
      else (t.(status := t.status.(ringCreate := None, deviceList := Some(c.list))), true)
  }

  /** The job, the recorded hash and the conditions. */
  function Gate(t: Sys, c: Call): Sys {
    if c.fault == JobFails then t else
      var (u, r) := DoJob(t, c, t.status.ringCreate);
      if r != Done then u
      else if c.fault == LabelFails then u.(status := u.status.(ringCreate := Some(c.spec)))
      else u.(status := u.status.(ringCreate := Some(c.spec), ready := true))
  }

  /** The state with the status in memory when reconcileNormal returns. */
  function InMemory(s0: Sys, c: Call): Sys {
    var s := s0.(status := s0.status.(ready := false));
    if c.fault == ListFails then s
    else if s.status.deviceList == Some(c.list) then Gate(s, c)
    else
      var (t, onward) := Publish(s, c);
      if onward then Gate(t, c) else t
  }

  /** After the deferred status patch, which may be lost. */
  function Reconcile(s: Sys, c: Call): Sys {
    var t := InMemory(s, c);
    if c.patchLost then t.(status := s.status)
    else if t.status.deviceList != s.status.deviceList
    then t.(h := t.h.(advanced := s.h.clock, advancedTxt := t.devicesTxt))
    else t
  }

  // ----- the controller, statement by statement -----

  class Controller {
    var status: Status
    var devicesTxt: Option<string>
    var job: Option<Job>
    var h: History

    function View(): Sys
      reads this
    {
      Sys(status, devicesTxt, job, h)
    }

    method RunJob(c: Call, before: Hash) returns (r: JobResult)
      modifies this`job, this`h
      ensures (View(), r) == DoJob(old(View()), c, before)
    {
      if before == Some(c.spec) {
        return Done;
      }
      if job.None? {
        job := Some(Job(c.spec, Pending, h.clock));
        h := h.(clock := h.clock + 1);
        return Requeue;
      }
      if job.value.spec != c.spec && c.recreate {
        job := None;
        return Requeue;
      }
      match job.value.phase
      case Complete => return Done;
      case Failed => return Error;
      case _ => return Requeue;
    }

    /** reconcileNormal on `instance`, the status in memory. */
    method ReconcileNormal(c: Call) returns (instance: Status)
      modifies this`devicesTxt, this`job, this`h
      ensures View().(status := instance) == InMemory(old(View()), c)
    {
      instance := status.(ready := false);
      if c.fault == ListFails {
        return;
      }
      if instance.deviceList != Some(c.list) {
        if c.fault == EnsureFails {
          return;
        }
        devicesTxt := Some(c.list);
        if c.fault == GetJobFails {
          return;
        }
        if job.Some? {
          if job.value.phase != Active {
            if c.fault == DeleteFails {
              return;
            }
            job := None;
          }
          return;
        }
        instance := instance.(ringCreate := None);
        instance := instance.(deviceList := Some(c.list));
      }
      if c.fault == JobFails {
        return;
      }
      var hasChanged := instance.ringCreate != Some(c.spec);
      var r := RunJob(c, instance.ringCreate);
      if r != Done {
        return;
      }
      if hasChanged {
        instance := instance.(ringCreate := Some(c.spec));
      }
      if c.fault == LabelFails {
        return;
      }
      instance := instance.(ready := true);
    }

    method ReconcileOnce(c: Call)
      modifies this
      ensures View() == Reconcile(old(View()), c)
    {
      var now := h.clock;
      var instance := ReconcileNormal(c);
      if !c.patchLost {
        if instance.deviceList != status.deviceList {
          h := h.(advanced := now, advancedTxt := devicesTxt);
        }
        status := instance;
      }
    }
  }

  // ----- runs -----

  /** Reconciles interleaved with what happens to the job. */
  datatype Event = Reconciled(call: Call) | Starts | Ends(ok: bool) | Vanishes

  function Next(s: Sys, e: Event): Sys {
    match e
    case Reconciled(c) => Reconcile(s, c)
    case Starts =>
      if s.job.Some? && s.job.value.phase == Pending then s.(job := Some(s.job.value.(phase := Active))) else s
    case Ends(ok) =>
      if s.job.Some? && s.job.value.phase in {Pending, Active}
      then s.(job := Some(s.job.value.(phase := if ok then Complete else Failed)),
              h := if ok then s.h.(completed := s.h.completed + {s.job.value.created}) else s.h)
      else s
    case Vanishes => s.(job := None)
  }

  function Trace(s: Sys, es: seq<Event>): Sys {
    if es == [] then s else Next(Trace(s, es[..|es|-1]), es[|es|-1])
  }

  const FRESH := Sys(Status(None, None, false), None, None, History(0, {}, 0, None))

  /** Since the last persisted advance some job was created and has completed. */
  ghost predicate RebalancedSince(h: History) { exists t :: t in h.completed && t >= h.advanced }

  ghost predicate Inv(s: Sys) { Timed(s) && Gated(s) }

  lemma StillRebalanced(h: History, i: History)
    requires RebalancedSince(h) && h.completed <= i.completed && h.advanced == i.advanced
    ensures RebalancedSince(i)
  {
  }

  /** The clocks and the job. */
  ghost predicate Timed(s: Sys) {
    s.h.advanced <= s.h.clock && (forall t | t in s.h.completed :: t < s.h.clock) &&
    (s.job.Some? ==> s.h.advanced <= s.job.value.created < s.h.clock) &&
    (s.job.Some? && s.job.value.phase == Complete ==> s.job.value.created in s.h.completed) &&
    s.status.deviceList == s.h.advancedTxt
  }

  /** What the recorded hash and the condition promise. */
  ghost predicate Gated(s: Sys) {
    (s.status.ringCreate.Some? ==> RebalancedSince(s.h)) && (s.status.ready ==> s.status.ringCreate.Some?)
  }

  lemma ReconcileKeepsTimed(s: Sys, c: Call)
    requires Timed(s)
    ensures Timed(Reconcile(s, c)) && Reconcile(s, c).h.completed == s.h.completed
  {
  }

  lemma ReconcileKeepsGated(s: Sys, c: Call)
    requires Inv(s)
    ensures Gated(Reconcile(s, c))
  {
    var t := Reconcile(s, c);
    ReconcileKeepsTimed(s, c);
    if t.status.deviceList != s.status.deviceList {
      AdvanceClearsGate(s, c);
    } else if RebalancedSince(s.h) {
      StillRebalanced(s.h, t.h);
    }
  }

  lemma ReconcileKeepsInv(s: Sys, c: Call)
    requires Inv(s)
    ensures Inv(Reconcile(s, c))
  {
    ReconcileKeepsTimed(s, c);
    ReconcileKeepsGated(s, c);
  }

  lemma InvStep(s: Sys, e: Event)
    requires Inv(s)
    ensures Inv(Next(s, e))
  {
    if e.Reconciled? {
      ReconcileKeepsInv(s, e.call);
    } else if s.status.ringCreate.Some? {
      StillRebalanced(s.h, Next(s, e).h);
    }
  }

  lemma {:induction false} InvTrace(es: seq<Event>)
    ensures Inv(Trace(FRESH, es))
  {
    if es != [] {
      InvTrace(es[..|es|-1]);
      InvStep(Trace(FRESH, es[..|es|-1]), es[|es|-1]);
    }
  }

  /**
   * Whenever a reconcile marks the ring ready for its list, DeviceListHash had already been advanced to that list,
   * devices.txt was that list at that moment, and a job created no earlier has completed. Status patches may be lost.
   */
  lemma ReadyMeansRebalanced(es: seq<Event>, c: Call)
    requires InMemory(Trace(FRESH, es), c).status.ready
    ensures var s := Trace(FRESH, es);
      s.status.deviceList == Some(c.list) && s.h.advancedTxt == Some(c.list) &&
      exists t :: t in s.h.completed && t >= s.h.advanced
  {
    InvTrace(es);
    var s := Trace(FRESH, es);
    assert s.status.ringCreate.Some? || (s.job.Some? && s.job.value.phase == Complete);
    assert RebalancedSince(s.h);
  }

  /** DeviceListHash advances only while no job exists, and the same step clears RingCreateHash. */
  lemma AdvanceClearsGate(s: Sys, c: Call)
    requires Reconcile(s, c).status.deviceList != s.status.deviceList
    ensures s.job.None? && Reconcile(s, c).status.ringCreate == None && !Reconcile(s, c).status.ready
    ensures Reconcile(s, c).status.deviceList == Reconcile(s, c).devicesTxt == Some(c.list)
  {
  }

  // ----- what one reconcile does -----

  /** A running job survives a new list; DoJob alone may replace one whose spec changed, for the recorded list. */
  lemma RunningJobSurvives(s: Sys, c: Call)
    requires s.job.Some? && s.job.value.phase == Active
    requires s.job.value.spec == c.spec || !c.recreate || s.status.deviceList != Some(c.list)
    ensures Reconcile(s, c).job == s.job
  {
  }

  /** For a new list a job that is not active is deleted, unless a call fails; the list is not recorded before that. */
  lemma OldJobIsDeleted(s: Sys, c: Call)
    requires s.job.Some? && s.job.value.phase != Active && s.status.deviceList != Some(c.list)
    ensures Reconcile(s, c).job ==
            if c.fault in {ListFails, EnsureFails, GetJobFails, DeleteFails} then s.job else None
    ensures Reconcile(s, c).status.deviceList == s.status.deviceList
  {
  }

  /** Without a job one is created for a list that is new or not rebalanced yet. */
  lemma MissingJobIsCreated(s: Sys, c: Call)
    requires s.job.None? && c.fault !in {ListFails, JobFails}
    requires s.status.deviceList == Some(c.list) || c.fault !in {EnsureFails, GetJobFails}
    ensures s.status.deviceList != Some(c.list) || s.status.ringCreate != Some(c.spec) ==>
              Reconcile(s, c).job == Some(Job(c.spec, Pending, s.h.clock))
    ensures s.status.deviceList == Some(c.list) && s.status.ringCreate == Some(c.spec) ==> Reconcile(s, c).job == None
  {
  }

  /** devices.txt is written exactly for a list that is not the recorded one, whatever the job does. */
  lemma ListIsWritten(s: Sys, c: Call)
    ensures Reconcile(s, c).devicesTxt ==
            if s.status.deviceList != Some(c.list) && c.fault !in {ListFails, EnsureFails} then Some(c.list)
            else s.devicesTxt
  {
  }

  /** The job for this spec is done: its hash is recorded, or it completed and is not about to be replaced. */
  predicate JobDone(s: Sys, c: Call) {
    s.status.ringCreate == Some(c.spec) ||
    (s.job.Some? && s.job.value.phase == Complete && (s.job.value.spec == c.spec || !c.recreate))
  }

  /** Ready is marked exactly when the list is recorded, the job is done, and no call fails; the hash of the job is
      recorded before the labels of the ring ConfigMap. A failure takes Ready back. */
  lemma ReadyExactly(s: Sys, c: Call)
    ensures InMemory(s, c).status.ready <==>
              s.status.deviceList == Some(c.list) && JobDone(s, c) && c.fault !in {ListFails, JobFails, LabelFails}
    ensures s.status.deviceList == Some(c.list) && c.fault !in {ListFails, JobFails} ==>
              InMemory(s, c).status.ringCreate == if JobDone(s, c) then Some(c.spec) else s.status.ringCreate
    ensures s.status.deviceList == Some(c.list) && c.fault in {ListFails, JobFails} ==>
              InMemory(s, c).status.ringCreate == s.status.ringCreate
    ensures s.status.deviceList == Some(c.list) ==> InMemory(s, c).status.deviceList == s.status.deviceList
  {
  }

  /** A list is recorded exactly when no job exists and no call before it fails. */
  lemma AdvancesExactly(s: Sys, c: Call)
    ensures InMemory(s, c).status.deviceList ==
            if s.job.None? && c.fault !in {ListFails, EnsureFails, GetJobFails} then Some(c.list)
            else s.status.deviceList
  {
  }

  /** A lost patch loses the status alone. */
  lemma PatchIsPersisted(s: Sys, c: Call)
    ensures Reconcile(s, c).status == if c.patchLost then s.status else InMemory(s, c).status
    ensures Reconcile(s, c).job == InMemory(s, c).job && Reconcile(s, c).devicesTxt == InMemory(s, c).devicesTxt
  {
  }

  // ----- progress with a fixed list and a fixed spec -----

  /** The calls of a quiet period: no API error, no lost patch. */
  function Quiet(list: string, spec: string, recreate: bool): Call { Call(list, spec, NoFault, recreate, false) }

  datatype Tick = Sync | Work

  /** Sync is a reconcile; Work lets the job advance: start, or end successfully. */
  function TickOnce(s: Sys, k: Call, t: Tick): Sys {
    match t
    case Sync => Reconcile(s, k)
    case Work => if s.job.Some? && s.job.value.phase == Pending then Next(s, Starts) else Next(s, Ends(true))
  }

  function Ticks(s: Sys, k: Call, ts: seq<Tick>): Sys {
    if ts == [] then s else TickOnce(Ticks(s, k, ts[..|ts|-1]), k, ts[|ts|-1])
  }

  /** A failed job that DoJob keeps, for a list that is already recorded: nothing triggers another rebalance. */
  predicate Stuck(s: Sys, k: Call) {
    s.status.deviceList == Some(k.list) && s.status.ringCreate != Some(k.spec) &&
    s.job.Some? && s.job.value.phase == Failed && !(s.job.value.spec != k.spec && k.recreate)
  }

  predicate Ready(s: Sys, k: Call) {
    s.status == Status(Some(k.list), Some(k.spec), true)
  }

  predicate Running(job: Option<Job>) { job.Some? && job.value.phase in {Pending, Active} }

  /** (hash mismatch, job of another spec, job phase) in lexicographic order, as a number. */
  function Rank(s: Sys, k: Call): nat {
    if s.status.deviceList != Some(k.list) then 9 + PhaseRank(s.job)
    else if s.status.ringCreate == Some(k.spec) then
      (if s.status.ready then 0 else 1) + (if Running(s.job) then PhaseRank(s.job) - 1 else 0)
    else match s.job
      case None => 5
      case Some(j) => if j.spec == k.spec then 1 + PhaseRank(s.job) else 5 + PhaseRank(s.job)
  }

  function PhaseRank(job: Option<Job>): nat {
    match job
    case None => 0
    case Some(j) => match j.phase case Pending => 3 case Active => 2 case _ => 1
  }

  /** Only the job can move. */
  predicate Waits(s: Sys) { Running(s.job) }

  /** No tick raises the rank, and the tick that is due lowers it. */
  lemma TickLowersRank(s: Sys, k: Call, t: Tick)
    requires k == Quiet(k.list, k.spec, k.recreate) && !Stuck(s, k)
    ensures Rank(TickOnce(s, k, t), k) <= Rank(s, k) && !Stuck(TickOnce(s, k, t), k)
    ensures Rank(s, k) > 0 && (t == Work <==> Waits(s)) ==> Rank(TickOnce(s, k, t), k) < Rank(s, k)
    ensures Rank(TickOnce(s, k, t), k) == Rank(s, k) ==> Rank(s, k) == 0 || (Waits(TickOnce(s, k, t)) == Waits(s))
  {
  }

  /** A stretch of time in which both a reconcile happened and the job got time to advance. */
  predicate Fair(ts: seq<Tick>) { Sync in ts && Work in ts }

  lemma {:induction false} TicksLowerRank(s: Sys, k: Call, ts: seq<Tick>)
    requires k == Quiet(k.list, k.spec, k.recreate) && !Stuck(s, k)
    ensures Rank(Ticks(s, k, ts), k) <= Rank(s, k) && !Stuck(Ticks(s, k, ts), k)
    ensures Rank(Ticks(s, k, ts), k) == Rank(s, k) > 0 ==>
      Waits(Ticks(s, k, ts)) == Waits(s) && (if Waits(s) then Work else Sync) !in ts
  {
    if ts != [] {
      var front := ts[..|ts|-1];
      TicksLowerRank(s, k, front);
      TickLowersRank(Ticks(s, k, front), k, ts[|ts|-1]);
    }
  }

  function Rounds(s: Sys, k: Call, rounds: seq<seq<Tick>>): Sys {
    if rounds == [] then s else Ticks(Rounds(s, k, rounds[..|rounds|-1]), k, rounds[|rounds|-1])
  }

  lemma {:induction false} RoundsLowerRank(s: Sys, k: Call, rounds: seq<seq<Tick>>)
    requires k == Quiet(k.list, k.spec, k.recreate) && !Stuck(s, k)
    requires forall ts | ts in rounds :: Fair(ts)
    ensures !Stuck(Rounds(s, k, rounds), k)
    ensures Rank(Rounds(s, k, rounds), k) == 0 || Rank(Rounds(s, k, rounds), k) + |rounds| <= Rank(s, k)
  {
    if rounds != [] {
      var front := rounds[..|rounds|-1];
      RoundsLowerRank(s, k, front);
      assert Fair(rounds[|rounds|-1]);
      TicksLowerRank(Rounds(s, k, front), k, rounds[|rounds|-1]);
    }
  }

  lemma {:induction false} StuckStays(s: Sys, k: Call, ts: seq<Tick>)
    requires k == Quiet(k.list, k.spec, k.recreate) && Stuck(s, k)
    ensures Stuck(Ticks(s, k, ts), k)
  {
    if ts != [] {
      StuckStays(s, k, ts[..|ts|-1]);
    }
  }

  lemma {:induction false} StuckForever(s: Sys, k: Call, rounds: seq<seq<Tick>>)
    requires k == Quiet(k.list, k.spec, k.recreate) && Stuck(s, k)
    ensures Stuck(Rounds(s, k, rounds), k)
  {
    if rounds != [] {
      StuckForever(s, k, rounds[..|rounds|-1]);
      StuckStays(Rounds(s, k, rounds[..|rounds|-1]), k, rounds[|rounds|-1]);
    }
  }

  /**
   * With a fixed list and jobs that end successfully, any twelve fair stretches of time lead to Ready, from every
   * state but one kind: a job that failed before, for the list that is recorded, is never replaced. No job is left
   * running.
   */
  lemma ReadyIsReached(s: Sys, k: Call, rounds: seq<seq<Tick>>)
    requires k == Quiet(k.list, k.spec, k.recreate)
    requires |rounds| >= 12 && forall ts | ts in rounds :: Fair(ts)
    ensures var t := Rounds(s, k, rounds);
      (Ready(t, k) <==> !Stuck(s, k)) && (Stuck(t, k) <==> Stuck(s, k)) && !Running(t.job)
  {
    if Stuck(s, k) {
      StuckForever(s, k, rounds);
    } else {
      RoundsLowerRank(s, k, rounds);
      assert Rank(s, k) <= 12;
    }
  }

  /** Such a state is reached: the first job for the first list fails. */
  lemma StuckIsReached(list: string, spec: string)
    ensures Stuck(Trace(FRESH, [Reconciled(Quiet(list, spec, true)), Ends(false)]), Quiet(list, spec, true))
  {
    var k := Quiet(list, spec, true);
    assert [Reconciled(k), Ends(false)][..1] == [Reconciled(k)] && [Reconciled(k)][..0] == [];
    assert Trace(FRESH, [Reconciled(k)]) == Next(FRESH, Reconciled(k));
  }
}
