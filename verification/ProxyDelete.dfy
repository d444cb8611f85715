/** SwiftProxyReconciler.reconcileDelete (internal/controller/swiftproxy_controller.go), stopped and rerun at will. */
module ProxyDelete {
  import opened Text
  import opened ProxyRotation

  /** The objects the cleanup touches; a Keystone object is absent, or carries the operator's finalizer or not. */
  datatype Cluster = Cluster(
    secrets: Secrets, endpoint: Option<bool>, service: Option<bool>, tuCR: Option<string>,
    topology: bool,   // the Topology still carries the finalizer of this SwiftProxy
    own: bool)        // the SwiftProxy still carries its own finalizer

  /** The names in the SwiftProxy being deleted. */
  datatype Names = Names(statusAc: string, specAc: string, statusTu: string)

  datatype Call = Endpoint | Service | Release(name: string, f: Finalizer) | PruneAll(f: Finalizer) | Topology | Own

  function Unfinalized(o: Option<bool>): Option<bool> { if o.Some? then Some(false) else None }

  function Apply(s: Cluster, c: Call): Cluster {
    match c
    case Endpoint => s.(endpoint := Unfinalized(s.endpoint))
    case Service => s.(service := Unfinalized(s.service))
    case Release(n, f) => s.(secrets := Remove(s.secrets, n, f))
    case PruneAll(f) => s.(secrets := Prune(s.secrets, {}, f))
    case Topology => s.(topology := false)
    case Own => s.(own := false)
  }

  function ApplyAll(s: Cluster, calls: seq<Call>): Cluster {
    if calls == [] then s else Apply(ApplyAll(s, calls[..|calls|-1]), calls[|calls|-1])
  }

  function Releases(names: seq<string>, f: Finalizer): seq<Call> {
    seq(|names|, i requires 0 <= i < |names| => Release(names[i], f))
  }

  function TransportNames(s: Cluster, x: Names): seq<string> {
    [x.statusTu] + if s.tuCR.Some? then [s.tuCR.value] else []
  }

  /** The API calls of a complete cleanup, in order. */
  function Plan(s: Cluster, x: Names): seq<Call> {
    [Endpoint, Service] + Releases([x.statusAc, x.specAc], AC) + Releases(TransportNames(s, x), Transport)
    + [PruneAll(Transport), PruneAll(AC), Topology, Own]
  }

  /** The call after `calls` calls fails, before or after it took effect; a prune stops at the secrets it reached. */
  datatype Stop = Stop(calls: nat, landed: bool, reached: set<string>)

  function PruneSome(m: Secrets, reached: set<string>, f: Finalizer): Secrets {
    map n | n in m :: if n in reached then m[n] - {f} else m[n]
  }

  function Fail(s: Cluster, c: Call, k: Stop): Cluster {
    if c.PruneAll? then s.(secrets := PruneSome(s.secrets, k.reached, c.f))
    else if k.landed then Apply(s, c) else s
  }

  function Attempt(s: Cluster, x: Names, k: Stop): Cluster {
    var plan := Plan(s, x);
    if k.calls >= |plan| then ApplyAll(s, plan)
    else Fail(ApplyAll(s, plan[..k.calls]), plan[k.calls], k)
  }

  // ----- the statements of reconcileDelete -----

  class Reconciler {
    const names: Names
    var secrets: Secrets
    var endpoint: Option<bool>
    var service: Option<bool>
    var tuCR: Option<string>
    var topology: bool
    var own: bool
    var calls: nat              // API calls that succeeded in this attempt
    ghost var trail: seq<Call>  // the same calls

    function View(): Cluster
      reads this
    {
      Cluster(secrets, endpoint, service, tuCR, topology, own)
    }

    constructor (x: Names, s: Cluster)
      ensures View() == s && names == x && trail == [] && calls == 0
    {
      names, secrets, endpoint, service := x, s.secrets, s.endpoint, s.service;
      tuCR, topology, own, trail, calls := s.tuCR, s.topology, s.own, [], 0;
    }

    /** The calls of this attempt, from state s, followed the plan up to `rest`. */
    ghost predicate Underway(s: Cluster, k: Stop, rest: seq<Call>)
      reads this
    {
      calls == |trail| <= k.calls && View() == ApplyAll(s, trail) && trail + rest == Plan(s, names)
    }

    /** A call failed, and with it the attempt. */
    ghost predicate Failed(s: Cluster, k: Stop)
      reads this
    {
      View() == Attempt(s, names, k)
    }

    /** One API call. */
    method Do(c: Call, k: Stop, ghost s: Cluster, ghost rest: seq<Call>) returns (failed: bool)
      requires Underway(s, k, [c] + rest)
      modifies this
      ensures if failed then Failed(s, k) else Underway(s, k, rest) && tuCR == old(tuCR)
    {
      failed := calls == k.calls;
      if !failed || k.landed || c.PruneAll? {
        match c
        case Endpoint =>
          if endpoint.Some? {
            endpoint := Some(false);
          }
        case Service =>
          if service.Some? {
            service := Some(false);
          }
        case Release(n, f) =>
          secrets := Remove(secrets, n, f);
        case PruneAll(f) =>
          secrets := if failed then PruneSome(secrets, k.reached, f) else Prune(secrets, {}, f);
        case Topology =>
          topology := false;
        case Own =>
          own := false;
      }
      if failed {
        assert Plan(s, names)[..k.calls] == trail && Plan(s, names)[k.calls] == c;
      } else {
        calls, trail := calls + 1, trail + [c];
        assert trail[..|trail|-1] == old(trail);
      }
    }

    /** The loop over secret names. */
    method ReleaseSecrets(list: seq<string>, f: Finalizer, k: Stop, ghost s: Cluster, ghost rest: seq<Call>)
      returns (failed: bool)
      requires Underway(s, k, Releases(list, f) + rest)
      modifies this
      ensures if failed then Failed(s, k) else Underway(s, k, rest) && tuCR == old(tuCR)
    {
      failed := false;
      ghost var all := Releases(list, f);
      assert all[0..] == all;
      for i := 0 to |list|
        invariant Underway(s, k, all[i..] + rest) && tuCR == old(tuCR)
      {
        assert all[i..] + rest == [Release(list[i], f)] + (all[i+1..] + rest);
        failed := Do(Release(list[i], f), k, s, all[i+1..] + rest);
        if failed {
          return;
        }
      }
      assert all[|list|..] + rest == rest;
    }

    method RemoveKeystoneFinalizers(k: Stop, ghost s: Cluster, ghost rest: seq<Call>) returns (failed: bool)
      requires Underway(s, k, [Endpoint] + ([Service] + rest))
      modifies this
      ensures if failed then Failed(s, k) else Underway(s, k, rest) && tuCR == old(tuCR)
    {
      failed := Do(Endpoint, k, s, [Service] + rest);
      if failed { return; }
      failed := Do(Service, k, s, rest);
    }

    method ReleaseConsumed(k: Stop, ghost s: Cluster, ghost rest: seq<Call>) returns (failed: bool)
      requires Underway(s, k, Releases([names.statusAc, names.specAc], AC) +
                              (Releases(TransportNames(View(), names), Transport) + rest))
      modifies this
      ensures if failed then Failed(s, k) else Underway(s, k, rest)
    {
      ghost var now := Releases(TransportNames(View(), names), Transport);
      failed := ReleaseSecrets([names.statusAc, names.specAc], AC, k, s, now + rest);
      if failed { return; }
      var transportSecrets := [names.statusTu];
      if tuCR.Some? {
        transportSecrets := transportSecrets + [tuCR.value];
      }
      assert Releases(transportSecrets, Transport) == now;
      failed := ReleaseSecrets(transportSecrets, Transport, k, s, rest);
    }

    method PruneAndFinish(k: Stop, ghost s: Cluster)
      requires Underway(s, k, [PruneAll(Transport)] + ([PruneAll(AC)] + ([Topology] + ([Own] + []))))
      modifies this
      ensures Failed(s, k) || Underway(s, k, [])
    {
      var failed := Do(PruneAll(Transport), k, s, [PruneAll(AC)] + ([Topology] + ([Own] + [])));
      if failed { return; }
      failed := Do(PruneAll(AC), k, s, [Topology] + ([Own] + []));
      if failed { return; }
      failed := Do(Topology, k, s, [Own] + []);
      if failed { return; }
      failed := Do(Own, k, s, []);
    }

    method ReconcileDelete(k: Stop)
      requires calls == 0 && trail == []
      modifies this
      ensures View() == Attempt(old(View()), names, k)
    {
      ghost var s := View();
      ghost var last := [PruneAll(Transport)] + ([PruneAll(AC)] + ([Topology] + ([Own] + [])));
      ghost var releases := Releases([names.statusAc, names.specAc], AC) +
                            (Releases(TransportNames(s, names), Transport) + last);
      assert trail + ([Endpoint] + ([Service] + releases)) == Plan(s, names);
      var failed := RemoveKeystoneFinalizers(k, s, releases);
      if failed { return; }
      failed := ReleaseConsumed(k, s, last);
      if failed { return; }
      PruneAndFinish(k, s);
      assert trail + [] == trail;
    }
  }

  // ----- any number of stopped attempts -----

  /** The state a cleanup is for. */
  function Clean(s: Cluster): Cluster {
    Cluster(map n | n in s.secrets :: {}, Unfinalized(s.endpoint), Unfinalized(s.service), s.tuCR, false, false)
  }

  /** What a successful call establishes, and no other call undoes. */
  predicate Effect(s: Cluster, c: Call) {
    match c
    case Endpoint => s.endpoint == Unfinalized(s.endpoint)
    case Service => s.service == Unfinalized(s.service)
    case Release(_, _) => true
    case PruneAll(f) => forall n | n in s.secrets :: f !in s.secrets[n]
    case Topology => !s.topology
    case Own => !s.own
  }

  lemma {:induction false} ApplyAllSettles(s: Cluster, calls: seq<Call>)
    ensures ApplyAll(s, calls).tuCR == s.tuCR && Clean(ApplyAll(s, calls)) == Clean(s)
    ensures forall c | c in calls || Effect(s, c) :: Effect(ApplyAll(s, calls), c)
    ensures Own !in calls ==> ApplyAll(s, calls).own == s.own
  {
    if calls != [] {
      var front := calls[..|calls|-1];
      ApplyAllSettles(s, front);
      ApplySettles(ApplyAll(s, front), calls[|calls|-1]);
      assert forall c | c in calls :: c in front || c == calls[|calls|-1];
    }
  }

  lemma ApplySettles(s: Cluster, c: Call)
    ensures Apply(s, c).tuCR == s.tuCR && Clean(Apply(s, c)) == Clean(s) && Effect(Apply(s, c), c)
    ensures forall d | Effect(s, d) :: Effect(Apply(s, c), d)
  {
  }

  lemma EffectsAreClean(s: Cluster)
    requires Effect(s, Endpoint) && Effect(s, Service) && Effect(s, PruneAll(AC)) && Effect(s, PruneAll(Transport))
    requires Effect(s, Topology) && Effect(s, Own)
    ensures s == Clean(s)
  {
    forall n | n in s.secrets ensures s.secrets[n] == {} {
      assert forall f | f in s.secrets[n] :: f == AC || f == Transport;
    }
  }

  /** A complete cleanup: no consumer finalizer is left, every other object stays without the operator's finalizer. */
  lemma PlanCleans(s: Cluster, x: Names)
    ensures ApplyAll(s, Plan(s, x)) == Clean(s)
    ensures var t := ApplyAll(s, Plan(s, x));
      t.secrets.Keys == s.secrets.Keys && (forall n | n in t.secrets :: t.secrets[n] == {}) &&
      t.endpoint == (if s.endpoint.None? then None else Some(false)) &&
      t.service == (if s.service.None? then None else Some(false)) &&
      t.tuCR == s.tuCR && !t.topology && !t.own
  {
    var plan := Plan(s, x);
    ApplyAllSettles(s, plan);
    assert Endpoint in plan && Service in plan && PruneAll(AC) in plan && PruneAll(Transport) in plan;
    assert Topology in plan && Own in plan;
    EffectsAreClean(ApplyAll(s, plan));
  }

  lemma FailSettles(s: Cluster, c: Call, k: Stop)
    ensures var t := Fail(s, c, k);
      t.tuCR == s.tuCR && Clean(t) == Clean(s) && (c != Own ==> t.own == s.own) &&
      (c == Own ==> t == s || t == Apply(s, Own))
  {
    ApplySettles(s, c);
  }

  lemma FailedAttemptSettles(s: Cluster, x: Names, k: Stop)
    requires s.own && k.calls < |Plan(s, x)|
    ensures var t := Attempt(s, x, k);
      t.tuCR == s.tuCR && Clean(t) == Clean(s) && (t.own || t == ApplyAll(s, Plan(s, x)))
  {
    var plan := Plan(s, x);
    var done, init := plan[..k.calls], plan[..|plan|-1];
    assert plan == init + [Own] && Own !in init;
    assert done == init[..k.calls];
    assert forall c | c in done :: c in init;
    ApplyAllSettles(s, done);
    FailSettles(ApplyAll(s, done), plan[k.calls], k);
    if k.calls < |plan| - 1 {
      assert plan[k.calls] == init[k.calls];
    }
  }

  /** An attempt, however it ends, leaves the goal alone, and gives up the own finalizer only at the goal. */
  lemma AttemptSettles(s: Cluster, x: Names, k: Stop)
    requires s.own
    ensures var t := Attempt(s, x, k);
      t.tuCR == s.tuCR && Clean(t) == Clean(s) && (!t.own <==> t == Clean(s)) &&
      (k.calls >= |Plan(s, x)| ==> !t.own)
  {
    PlanCleans(s, x);
    if k.calls < |Plan(s, x)| {
      FailedAttemptSettles(s, x, k);
    }
  }

  /** Attempts are made while the SwiftProxy exists. */
  function Attempts(s: Cluster, x: Names, ks: seq<Stop>): Cluster {
    if ks == [] then s else
      var t := Attempts(s, x, ks[..|ks|-1]);
      if t.own then Attempt(t, x, ks[|ks|-1]) else t
  }

  /**
   * Crash and restart at will: after any attempts the SwiftProxy is gone exactly when the whole cleanup is done, and
   * one complete attempt then ends where a single undisturbed attempt would have ended.
   */
  lemma {:induction false} CrashRestart(s: Cluster, x: Names, ks: seq<Stop>, k: Stop)
    requires s.own && k.calls >= |Plan(s, x)|
    ensures var t := Attempts(s, x, ks);
      (!t.own <==> t == Clean(s)) && Attempts(s, x, ks + [k]) == Attempt(s, x, k) == Clean(s)
  {
    AttemptsSettle(s, x, ks);
    var t := Attempts(s, x, ks);
    assert (ks + [k])[..|ks|] == ks;
    AttemptSettles(s, x, k);
    if t.own {
      AttemptSettles(t, x, k);
    }
  }

  lemma {:induction false} AttemptsSettle(s: Cluster, x: Names, ks: seq<Stop>)
    requires s.own
    ensures var t := Attempts(s, x, ks);
      t.tuCR == s.tuCR && Clean(t) == Clean(s) && (!t.own <==> t == Clean(s))
  {
    if ks != [] {
      AttemptsSettle(s, x, ks[..|ks|-1]);
      var t := Attempts(s, x, ks[..|ks|-1]);
      if t.own {
        AttemptSettles(t, x, ks[|ks|-1]);
      }
    }
  }

  // ----- before the prunes -----

  lemma {:induction false} ApplyConcat(s: Cluster, a: seq<Call>, b: seq<Call>)
    ensures ApplyAll(s, a + b) == ApplyAll(ApplyAll(s, a), b)
  {
    if b == [] {
      assert a + b == a;
    } else {
      assert (a + b)[..|a + b|-1] == a + b[..|b|-1] && (a + b)[|a + b|-1] == b[|b|-1];
      ApplyConcat(s, a, b[..|b|-1]);
    }
  }

  /** The loop releases the listed names, and nothing else. */
  lemma {:induction false} ReleasesExactly(s: Cluster, names: seq<string>, f: Finalizer)
    requires "" !in s.secrets
    ensures var t := ApplyAll(s, Releases(names, f));
      t == s.(secrets := t.secrets) && t.secrets.Keys == s.secrets.Keys &&
      forall n | n in s.secrets :: t.secrets[n] == if n in names then s.secrets[n] - {f} else s.secrets[n]
  {
    if names != [] {
      var front, last := names[..|names|-1], names[|names|-1];
      assert names == front + [last];
      assert Releases(names, f)[..|names|-1] == Releases(front, f);
      ReleasesExactly(s, front, f);
    }
  }

  /** After the two loops the names in status, spec and TransportURL are released, and no other secret is touched. */
  lemma NamesAreReleased(s: Cluster, x: Names)
    requires "" !in s.secrets
    ensures var t := ApplyAll(s, Plan(s, x)[..|Plan(s, x)| - 4]);
      t.secrets.Keys == s.secrets.Keys && t.own == s.own && t.topology == s.topology &&
      forall n | n in s.secrets ::
        t.secrets[n] == s.secrets[n] - (if n == x.statusAc || n == x.specAc then {AC} else {})
                                     - (if n == x.statusTu || s.tuCR == Some(n) then {Transport} else {})
  {
    var keystone: seq<Call> := [Endpoint, Service];
    var acs, tus := Releases([x.statusAc, x.specAc], AC), Releases(TransportNames(s, x), Transport);
    assert Plan(s, x)[..|Plan(s, x)| - 4] == (keystone + acs) + tus;
    ApplyConcat(s, keystone + acs, tus);
    ApplyConcat(s, keystone, acs);
    assert keystone[..1] == [Endpoint] && [Endpoint][..0] == [];
    assert ApplyAll(s, [Endpoint]) == Apply(s, Endpoint);
    var k := ApplyAll(s, keystone);
    assert k == Apply(Apply(s, Endpoint), Service);
    ReleasesExactly(k, [x.statusAc, x.specAc], AC);
    ReleasesExactly(ApplyAll(k, acs), TransportNames(s, x), Transport);
  }

  // ----- with the rest of the cluster moving between the attempts -----

  datatype Event =
    | Try(k: Stop)
    | EndpointGone                         // objects disappear once no finalizer holds them
    | ServiceGone
    | SecretGone(name: string)
    | SecretCreated(name: string)
    | TransportMoves(tuCR: Option<string>) // the TransportURL gets a secret, another one, or disappears

  function Next(s: Cluster, x: Names, e: Event): Cluster {
    match e
    case Try(k) => if s.own then Attempt(s, x, k) else s
    case EndpointGone => if s.endpoint == Some(false) then s.(endpoint := None) else s
    case ServiceGone => if s.service == Some(false) then s.(service := None) else s
    case SecretGone(n) => if n in s.secrets && s.secrets[n] == {} then s.(secrets := s.secrets - {n}) else s
    case SecretCreated(n) => if n !in s.secrets then s.(secrets := s.secrets[n := {}]) else s
    case TransportMoves(cr) => s.(tuCR := cr)
  }

  function Trace(s: Cluster, x: Names, es: seq<Event>): Cluster {
    if es == [] then s else Next(Trace(s, x, es[..|es|-1]), x, es[|es|-1])
  }

  /** The SwiftProxy is gone only when no secret holds a consumer finalizer and the other finalizers are removed. */
  lemma {:induction false} GoneMeansReleased(s: Cluster, x: Names, es: seq<Event>)
    requires s.own
    ensures var t := Trace(s, x, es);
      !t.own ==> Holders(t.secrets, AC) == {} && Holders(t.secrets, Transport) == {} &&
                 t.endpoint != Some(true) && t.service != Some(true) && !t.topology
  {
    if es != [] {
      GoneMeansReleased(s, x, es[..|es|-1]);
      var t, e := Trace(s, x, es[..|es|-1]), es[|es|-1];
      if e.Try? && t.own {
        AttemptSettles(t, x, e.k);
      } else if !t.own {
        assert forall n | n in t.secrets :: n !in Holders(t.secrets, AC) && n !in Holders(t.secrets, Transport);
      }
    }
  }
}
