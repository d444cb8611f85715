/**
 * Credential rotation of SwiftProxyReconciler (internal/controller/swiftproxy_controller.go): consumer finalizers on
 * the ApplicationCredential and transport-URL secrets are handed over while spec edits, rollouts and early returns
 * interleave.
 */
module ProxyRotation {
  import opened Text

  datatype Finalizer = AC | Transport

  /** The secrets of the namespace with the consumer finalizers they carry; no secret has an empty name. */
  type Secrets = map<string, set<Finalizer>>

  predicate Holds(m: Secrets, n: string, f: Finalizer) { n in m && f in m[n] }

  function Holders(m: Secrets, f: Finalizer): set<string> { set n | n in m && f in m[n] }

  // ----- the library calls, as contracts -----

  /** ManageSecretConsumerFinalizer adds; None is the error for a missing secret. */
  function Manage(m: Secrets, n: string, f: Finalizer): Option<Secrets> {
    if n == "" then Some(m) else if n in m then Some(m[n := m[n] + {f}]) else None
  }

  /** RemoveSecretConsumerFinalizer. */
  function Remove(m: Secrets, n: string, f: Finalizer): Secrets {
    if n != "" && n in m then m[n := m[n] - {f}] else m
  }

  /** FinalizeSecretRotation; without guard an empty old name may or may not be replaced. */
  function Rotate(m: Secrets, from: string, to: string, f: Finalizer, guard: bool, eager: bool): (Secrets, string) {
    if guard then (if from != to then Remove(m, from, f) else m, to)
    else (m, if from == "" && eager then to else from)
  }

  /** PruneSecretConsumerFinalizers: every secret but the kept ones loses the finalizer. */
  function Prune(m: Secrets, keep: set<string>, f: Finalizer): Secrets {
    map n | n in m :: if n in keep then m[n] else m[n] - {f}
  }

  // ----- the state -----

  datatype Spec = Spec(ac: string, ceilometer: bool)

  datatype Status = Status(ac: string, tu: string)

  /** The input of a pod template: the secrets rendered into it and everything else that is hashed. */
  datatype Input = Input(ac: string, tu: string, rest: string)

  datatype Point =
    | Begun | TransportRead | TransportHeld | AcHeld | Deployed | Checked | TransportDone | AcDone | Pruned

  /** A reconcile in progress: the instance it read, the transport secret it read, guardReady, and its next step. */
  datatype Run = Run(spec: Spec, status: Status, tu: Option<string>, guard: bool, at: Point)

  datatype Sys = Sys(
    secrets: Secrets, spec: Spec, status: Status,
    tuCR: Option<string>,      // the TransportURL and the secret name in its status
    template: Option<Input>,   // the Deployment's pod template
    pods: set<Input>,          // the inputs running pods were started with
    run: Option<Run>)

  /** The transport secret a reconcile wants, "" when there is no TransportURL. */
  function TuName(r: Run): string { if r.tu.Some? then r.tu.value else "" }

  /** What the API server and the cluster contribute to a step. */
  datatype Choice = Choice(rest: string, ready: bool, subConditions: bool, eager: bool, deleteFails: bool)

  /** Leaving Reconcile: the deferred patch persists the status in memory. */
  function Leave(s: Sys): Sys {
    if s.run.Some? then s.(status := s.run.value.status, run := None) else s
  }

  function GoTo(s: Sys, r: Run, p: Point): Sys { s.(run := Some(r.(at := p))) }

  /** The next step of Reconcile. */
  function Advance(s: Sys, r: Run, c: Choice): Sys {
    match r.at
    case Begun =>
      if !r.spec.ceilometer then GoTo(s, r, TransportHeld) else
        var name := if s.tuCR.Some? then s.tuCR.value else "";
        var t := s.(tuCR := Some(name));
        if name == "" then Leave(t) else GoTo(t, r.(tu := Some(name)), TransportRead)
    case TransportRead =>
      var m := Manage(s.secrets, TuName(r), Transport);
      if m.None? then Leave(s) else GoTo(s.(secrets := m.value), r, TransportHeld)
    case TransportHeld =>
      var m := Manage(s.secrets, r.spec.ac, AC);
      if m.None? then Leave(s) else GoTo(s.(secrets := m.value), r, AcHeld)
    case AcHeld =>
      GoTo(s.(template := Some(Input(r.spec.ac, TuName(r), c.rest))), r, Deployed)
    case Deployed =>
      // IsReadyForInput implies that every pod runs the current input
      var ready := c.ready && s.template.Some? && s.pods <= {s.template.value};
      GoTo(s, r.(guard := ready && c.subConditions), Checked)
    case Checked =>
      if r.tu.Some? then
        var (m, name) := Rotate(s.secrets, r.status.tu, r.tu.value, Transport, r.guard, c.eager);
        GoTo(s.(secrets := m), r.(status := r.status.(tu := name)), TransportDone)
      else if r.status.tu != "" && r.guard then
        var t := s.(secrets := Remove(s.secrets, r.status.tu, Transport));
        if c.deleteFails then Leave(t) else GoTo(t.(tuCR := None), r.(status := r.status.(tu := "")), TransportDone)
      else GoTo(s, r, TransportDone)
    case TransportDone =>
      var (m, name) := Rotate(s.secrets, r.status.ac, r.spec.ac, AC, r.guard, c.eager);
      GoTo(s.(secrets := m), r.(status := r.status.(ac := name)), AcDone)
    case AcDone =>
      GoTo(s.(secrets := Prune(s.secrets, {r.status.tu, TuName(r)}, Transport)), r, Pruned)
    case Pruned =>
      Leave(s.(secrets := Prune(s.secrets, {r.status.ac, r.spec.ac}, AC)))
  }

  datatype Event =
    | EditSpec(spec: Spec)
    | PublishTransport(name: string)  // the infra operator names the secret of the TransportURL
    | CreateSecret(name: string)
    | DropSecret(name: string)        // granted only to a secret without consumer finalizers
    | Roll(pods: set<Input>)          // pods end, and new ones start from the template
    | Begin
    | Step(c: Choice)
    | Return                          // any early return

  function Templates(s: Sys): set<Input> { if s.template.Some? then {s.template.value} else {} }

  function Next(s: Sys, e: Event): Sys {
    match e
    case EditSpec(spec) => s.(spec := spec)
    case PublishTransport(n) => if s.tuCR.Some? && n != "" then s.(tuCR := Some(n)) else s
    case CreateSecret(n) => if n != "" && n !in s.secrets then s.(secrets := s.secrets[n := {}]) else s
    case DropSecret(n) => if n in s.secrets && s.secrets[n] == {} then s.(secrets := s.secrets - {n}) else s
    case Roll(pods) => if pods <= s.pods + Templates(s) then s.(pods := pods) else s
    case Begin => if s.run.None? then s.(run := Some(Run(s.spec, s.status, None, false, Begun))) else s
    case Step(c) => if s.run.Some? then Advance(s, s.run.value, c) else s
    case Return => Leave(s)
  }

  function Trace(s: Sys, es: seq<Event>): Sys {
    if es == [] then s else Next(Trace(s, es[..|es|-1]), es[|es|-1])
  }

  predicate Initial(s: Sys) {
    "" !in s.secrets && s.status == Status("", "") && s.template.None? && s.pods == {} && s.run.None? && s.tuCR.None?
  }

  // ----- one reconcile, as the code runs it -----

  /** A reconcile returns early at the points in `stop`. */
  function Turn(s: Sys, c: Choice, stop: set<Point>): Event {
    if s.run.Some? && s.run.value.at in stop then Return else Step(c)
  }

  function Iterate<S>(f: S -> S, s: S, n: nat): S { if n == 0 then s else f(Iterate(f, s, n - 1)) }

  lemma {:induction false} IterateCompose<S>(f: S -> S, s: S, m: nat, n: nat)
    ensures Iterate(f, Iterate(f, s, m), n) == Iterate(f, s, m + n)
  {
    if n > 0 {
      IterateCompose(f, s, m, n - 1);
    }
  }

  /** The next n steps of a reconcile that no other event interleaves. */
  function Turns(s: Sys, c: Choice, stop: set<Point>, n: nat): Sys {
    Iterate(t => Next(t, Turn(t, c, stop)), s, n)
  }

  lemma TurnsCompose(s: Sys, c: Choice, stop: set<Point>, m: nat, n: nat)
    ensures Turns(Turns(s, c, stop, m), c, stop, n) == Turns(s, c, stop, m + n)
  {
    IterateCompose(t => Next(t, Turn(t, c, stop)), s, m, n);
  }

  lemma TurnsSnoc(s: Sys, c: Choice, stop: set<Point>, n: nat)
    ensures Turns(s, c, stop, 0) == s
    ensures var t := Turns(s, c, stop, n); Turns(s, c, stop, n + 1) == Next(t, Turn(t, c, stop))
  {
  }

  /** SwiftProxyReconciler.Reconcile; `run` is the instance in memory with the local variables. */
  class Reconciler {
    var secrets: Secrets
    var spec: Spec
    var status: Status
    var tuCR: Option<string>
    var template: Option<Input>
    var pods: set<Input>
    var run: Option<Run>

    function View(): Sys
      reads this
    {
      Sys(secrets, spec, status, tuCR, template, pods, run)
    }

    predicate At(p: Point)
      reads this
    {
      run.Some? ==> run.value.at == p
    }

    /** The deferred function. */
    method PatchInstance()
      modifies this`status, this`run
      ensures View() == Leave(old(View()))
    {
      if run.Some? {
        status, run := run.value.status, None;
      }
    }

    /** The API calls at one point, up to the next one. */
    method Do(p: Point, c: Choice, stop: set<Point>)
      requires At(p)
      modifies this
      ensures View() == Next(old(View()), Turn(old(View()), c, stop))
      ensures run.Some? ==> run.value.at in After(p)
    {
      if run.None? {
        return;
      }
      if p in stop {
        PatchInstance();
        return;
      }
      var r := run.value;
      match p
      case Begun =>
        if !r.spec.ceilometer {
          run := Some(r.(at := TransportHeld));
        } else {
          if tuCR.None? {
            tuCR := Some("");
          }
          if tuCR.value == "" {
            PatchInstance();
          } else {
            run := Some(r.(tu := tuCR, at := TransportRead));
          }
        }
      case TransportRead =>
        Hold(TuName(r), Transport, TransportHeld);
      case TransportHeld =>
        Hold(r.spec.ac, AC, AcHeld);
      case AcHeld =>
        template := Some(Input(r.spec.ac, TuName(r), c.rest));
        run := Some(r.(at := Deployed));
      case Deployed =>
        var ready := c.ready && template.Some? && pods <= {template.value};
        run := Some(r.(guard := ready && c.subConditions, at := Checked));
      case Checked =>
        FinalizeTransport(c);
      case TransportDone =>
        var (m, name) := Rotate(secrets, r.status.ac, r.spec.ac, AC, r.guard, c.eager);
        secrets := m;
        run := Some(r.(status := r.status.(ac := name), at := AcDone));
      case AcDone =>
        secrets := Prune(secrets, {r.status.tu, TuName(r)}, Transport);
        run := Some(r.(at := Pruned));
      case Pruned =>
        secrets := Prune(secrets, {r.status.ac, r.spec.ac}, AC);
        PatchInstance();
    }

    /** The finalizer is added, or the reconcile returns because the secret is missing. */
    method Hold(name: string, f: Finalizer, p: Point)
      requires run.Some?
      modifies this
      ensures var m := Manage(old(secrets), name, f);
        View() == if m.None? then Leave(old(View()))
                  else GoTo(old(View()).(secrets := m.value), old(run.value), p)
    {
      var m := Manage(secrets, name, f);
      if m.None? {
        PatchInstance();
      } else {
        secrets := m.value;
        run := Some(run.value.(at := p));
      }
    }

    method FinalizeTransport(c: Choice)
      requires run.Some? && At(Checked)
      modifies this
      ensures View() == Advance(old(View()), old(run.value), c)
    {
      var r := run.value;
      if r.tu.Some? {
        var (m, name) := Rotate(secrets, r.status.tu, r.tu.value, Transport, r.guard, c.eager);
        secrets := m;
        r := r.(status := r.status.(tu := name));
      } else if r.status.tu != "" && r.guard {
        secrets := Remove(secrets, r.status.tu, Transport);
        if c.deleteFails {
          PatchInstance();
          return;
        }
        tuCR := None;
        r := r.(status := r.status.(tu := ""));
      }
      run := Some(r.(at := TransportDone));
    }

    /** The statements of Reconcile in their order are at most nine steps of the machine; `ended` if the last ran. */
    method Reconcile(c: Choice, stop: set<Point>) returns (ended: bool, ghost n: nat)
      requires run.None?
      modifies this
      ensures run.None? && n <= 8 && View() == Turns(Next(old(View()), Begin), c, stop, n + 1)
      ensures ended ==> EndsAfter(Turns(Next(old(View()), Begin), c, stop, n), stop)
    {
      run := Some(Run(spec, status, None, false, Begun));
      ghost var s := View();
      n := HoldSecrets(c, stop);
      RollOut(c, stop);
      TurnsCompose(s, c, stop, n, 2);
      FinalizeRotation(c, stop);
      TurnsCompose(s, c, stop, n + 2, 2);
      ended := PruneSecrets(c, stop);
      TurnsCompose(s, c, stop, n + 4, 1);
      TurnsCompose(s, c, stop, n + 4, 2);
      n := n + 5;
    }

    /** The consumer finalizers are added before the Deployment. */
    method HoldSecrets(c: Choice, stop: set<Point>) returns (ghost n: nat)
      requires At(Begun)
      modifies this
      ensures View() == Turns(old(View()), c, stop, n) && n <= 3 && At(AcHeld)
    {
      ghost var s := View();
      Do(Begun, c, stop);
      n := 1;
      assert View() == Turns(s, c, stop, n);
      if !At(TransportHeld) {
        Do(TransportRead, c, stop);
        n := 2;
        assert View() == Turns(s, c, stop, n);
      }
      Do(TransportHeld, c, stop);
      n := n + 1;
    }

    method RollOut(c: Choice, stop: set<Point>)
      requires At(AcHeld)
      modifies this
      ensures View() == Turns(old(View()), c, stop, 2) && At(Checked)
    {
      ghost var s := View();
      Do(AcHeld, c, stop);
      TurnsSnoc(s, c, stop, 0);
      Do(Deployed, c, stop);
      TurnsSnoc(s, c, stop, 1);
    }

    method FinalizeRotation(c: Choice, stop: set<Point>)
      requires At(Checked)
      modifies this
      ensures View() == Turns(old(View()), c, stop, 2) && At(AcDone)
    {
      ghost var s := View();
      Do(Checked, c, stop);
      TurnsSnoc(s, c, stop, 0);
      Do(TransportDone, c, stop);
      TurnsSnoc(s, c, stop, 1);
    }

    /** The secrets superseded in the meantime are released. */
    method PruneSecrets(c: Choice, stop: set<Point>) returns (ended: bool)
      requires At(AcDone)
      modifies this
      ensures View() == Turns(old(View()), c, stop, 2) && run.None?
      ensures ended ==> EndsAfter(Turns(old(View()), c, stop, 1), stop)
    {
      ghost var s := View();
      Do(AcDone, c, stop);
      TurnsSnoc(s, c, stop, 0);
      ended := run.Some? && Pruned !in stop;
      Do(Pruned, c, stop);
      TurnsSnoc(s, c, stop, 1);
    }
  }

  /** The points that may follow a point. */
  function After(p: Point): set<Point> {
    match p
    case Begun => {TransportRead, TransportHeld}
    case TransportRead => {TransportHeld}
    case TransportHeld => {AcHeld}
    case AcHeld => {Deployed}
    case Deployed => {Checked}
    case Checked => {TransportDone}
    case TransportDone => {AcDone}
    case AcDone => {Pruned}
    case Pruned => {}
  }

  /** The next step is the last one of a reconcile. */
  predicate EndsAfter(s: Sys, stop: set<Point>) {
    s.run.Some? && s.run.value.at == Pruned && Pruned !in stop
  }
}
