/** What the rotation machine of SwiftProxy guarantees over every interleaving, for both kinds of secret. */
module ProxyHandover {
  import opened Text
  import opened ProxyRotation

  /** The recorded secret: in memory during a reconcile, persisted otherwise. */
  function Recorded(s: Sys, f: Finalizer): string {
    var st := if s.run.Some? then s.run.value.status else s.status;
    if f == AC then st.ac else st.tu
  }

  /** The secret the reconcile in progress wants. */
  function Wanted(r: Run, f: Finalizer): string { if f == AC then r.spec.ac else TuName(r) }

  /** The secret a reconcile that began now would want. */
  function Desired(s: Sys, f: Finalizer): string {
    if f == AC then s.spec.ac else if s.spec.ceilometer && s.tuCR.Some? then s.tuCR.value else ""
  }

  function Uses(p: Input, f: Finalizer): string { if f == AC then p.ac else p.tu }

  /** A pod runs p, or a new pod may start from it. */
  predicate Runs(s: Sys, p: Input) { p in s.pods || s.template == Some(p) }

  /** Position of a point in Reconcile. */
  function Ord(p: Point): nat {
    match p
    case Begun => 0 case TransportRead => 1 case TransportHeld => 2 case AcHeld => 3 case Deployed => 4
    case Checked => 5 case TransportDone => 6 case AcDone => 7 case Pruned => 8
  }

  /** The reconcile has added the finalizer to the secret it wants. */
  predicate Held(r: Run, f: Finalizer) { Ord(r.at) >= if f == AC then 3 else 2 }

  /** The reconcile has decided which secret is recorded. */
  predicate Rotated(r: Run, f: Finalizer) { Ord(r.at) >= if f == AC then 7 else 6 }

  predicate RecordedHeld(s: Sys, f: Finalizer) {
    Recorded(s, f) != "" ==> Holds(s.secrets, Recorded(s, f), f)
  }

  // ----- what every reachable state satisfies -----

  predicate WantedHeld(s: Sys, f: Finalizer) {
    s.run.Some? && Held(s.run.value, f) && Wanted(s.run.value, f) != ""
    ==> Holds(s.secrets, Wanted(s.run.value, f), f)
  }

  /** From the Deployment on the template uses the wanted secrets, and with guardReady every pod does. */
  predicate RolloutOf(s: Sys, r: Run) {
    (r.tu.Some? ==> r.tu.value != "" && r.at != Begun) && (r.at == TransportRead ==> r.tu.Some?) &&
    (Ord(r.at) >= 4 ==> s.template.Some? && s.template.value.ac == r.spec.ac && s.template.value.tu == TuName(r)) &&
    (r.guard ==> Ord(r.at) >= 5 && forall p | p in s.pods :: p.ac == r.spec.ac && p.tu == TuName(r))
  }

  predicate RecordedOf(r: Run, f: Finalizer) {
    r.guard && Rotated(r, f) ==> (if f == AC then r.status.ac else r.status.tu) == Wanted(r, f)
  }

  predicate PrunedOf(s: Sys, r: Run) {
    r.at == Pruned ==> forall n | n in s.secrets && Transport in s.secrets[n] :: n == r.status.tu || n == TuName(r)
  }

  predicate Inv(s: Sys) {
    "" !in s.secrets && WantedHeld(s, AC) && WantedHeld(s, Transport) &&
    (s.run.Some? ==>
      var r := s.run.value;
      RolloutOf(s, r) && PrunedOf(s, r) && RecordedOf(r, AC) && RecordedOf(r, Transport))
  }

  lemma WantedHeldStep(s: Sys, e: Event, f: Finalizer)
    requires Inv(s)
    ensures WantedHeld(Next(s, e), f)
  {
  }

  lemma RolloutAdvance(s: Sys, c: Choice)
    requires Inv(s) && s.run.Some? && Next(s, Step(c)).run.Some?
    ensures RolloutOf(Next(s, Step(c)), Next(s, Step(c)).run.value)
  {
    var t := Next(s, Step(c));
    if Ord(s.run.value.at) < 4 {
      assert !t.run.value.guard;
    } else {
      assert t.template == s.template && t.pods == s.pods;
    }
  }

  lemma RolloutStep(s: Sys, e: Event)
    requires Inv(s) && Next(s, e).run.Some?
    ensures RolloutOf(Next(s, e), Next(s, e).run.value)
  {
    if e.Step? && s.run.Some? {
      RolloutAdvance(s, e.c);
    }
  }

  lemma RecordedStep(s: Sys, e: Event, f: Finalizer)
    requires Inv(s) && Next(s, e).run.Some?
    ensures RecordedOf(Next(s, e).run.value, f)
  {
  }

  lemma PrunedStep(s: Sys, e: Event)
    requires Inv(s) && Next(s, e).run.Some?
    ensures PrunedOf(Next(s, e), Next(s, e).run.value)
  {
  }

  lemma InvStep(s: Sys, e: Event)
    requires Inv(s)
    ensures Inv(Next(s, e))
  {
    WantedHeldStep(s, e, AC);
    WantedHeldStep(s, e, Transport);
    if Next(s, e).run.Some? {
      RolloutStep(s, e);
      RecordedStep(s, e, AC);
      RecordedStep(s, e, Transport);
      PrunedStep(s, e);
    }
  }

  lemma {:induction false} InvTrace(s: Sys, es: seq<Event>)
    requires Inv(s)
    ensures Inv(Trace(s, es))
  {
    if es != [] {
      InvTrace(s, es[..|es|-1]);
      InvStep(Trace(s, es[..|es|-1]), es[|es|-1]);
    }
  }

  // ----- the recorded secret -----

  /** The TransportURL cannot be deleted after its secret has been released. */
  predicate LosesTransport(s: Sys, e: Event) {
    e.Step? && e.c.deleteFails && s.run.Some? &&
    s.run.value.at == Checked && s.run.value.tu.None? && s.run.value.status.tu != "" && s.run.value.guard
  }

  /** A step takes the finalizer from the recorded secret exactly when the delete of the TransportURL fails. */
  lemma RecordedHeldStep(s: Sys, e: Event, f: Finalizer)
    requires Inv(s) && RecordedHeld(s, f)
    ensures RecordedHeld(Next(s, e), f) <==> !(f == Transport && LosesTransport(s, e))
  {
  }

  /** The recorded secret is replaced only when no pod uses another secret than the new one. */
  lemma RecordedChanges(s: Sys, e: Event, f: Finalizer)
    requires Inv(s) && Recorded(s, f) != "" && Recorded(Next(s, e), f) != Recorded(s, f)
    ensures s.run.Some? && s.run.value.guard && Recorded(Next(s, e), f) == Wanted(s.run.value, f)
    ensures forall p | Runs(s, p) :: Uses(p, f) == Recorded(Next(s, e), f)
  {
  }

  predicate NoFailedDelete(es: seq<Event>) { forall e | e in es && e.Step? :: !e.c.deleteFails }

  lemma {:induction false} RecordedIsHeld(s: Sys, es: seq<Event>, f: Finalizer)
    requires Inv(s) && RecordedHeld(s, f) && (f == AC || NoFailedDelete(es))
    ensures RecordedHeld(Trace(s, es), f)
  {
    if es != [] {
      var front := es[..|es|-1];
      RecordedIsHeld(s, front, f);
      InvTrace(s, front);
      RecordedHeldStep(Trace(s, front), es[|es|-1], f);
    }
  }

  /** FinalizeSecretRotation, or its replacement, after a rollout that is ready. */
  predicate Handover(s: Sys, e: Event, f: Finalizer) {
    e.Step? && s.run.Some? && s.run.value.guard && s.run.value.at == if f == AC then TransportDone else Checked
  }

  predicate NoHandover(s: Sys, es: seq<Event>, f: Finalizer) {
    es == [] || (NoHandover(s, es[..|es|-1], f) && !Handover(Trace(s, es[..|es|-1]), es[|es|-1], f))
  }

  lemma KeptStep(s: Sys, e: Event, f: Finalizer)
    requires Inv(s) && RecordedHeld(s, f) && Recorded(s, f) != "" && !Handover(s, e, f)
    ensures Recorded(Next(s, e), f) == Recorded(s, f) && RecordedHeld(Next(s, e), f)
  {
    RecordedHeldStep(s, e, f);
    if Recorded(Next(s, e), f) != Recorded(s, f) {
      RecordedChanges(s, e, f);
    }
  }

  /** Whatever is edited, stopped or rolled in between, the recorded secret keeps its finalizer until a ready
      rollout. */
  lemma {:induction false} KeptUntilHandover(s: Sys, es: seq<Event>, f: Finalizer)
    requires Inv(s) && RecordedHeld(s, f) && Recorded(s, f) != ""
    requires NoHandover(s, es, f)
    ensures Recorded(Trace(s, es), f) == Recorded(s, f) && Holds(Trace(s, es).secrets, Recorded(s, f), f)
  {
    if es != [] {
      var front := es[..|es|-1];
      KeptUntilHandover(s, front, f);
      InvTrace(s, front);
      KeptStep(Trace(s, front), es[|es|-1], f);
    }
  }

  // ----- the end of a reconcile -----

  lemma ExactHolders(m: Secrets, f: Finalizer, a: string, b: string)
    requires "" !in m && forall n | n in m && f in m[n] :: n == a || n == b
    requires b != "" ==> Holds(m, b, f)
    ensures Holders(m, f) == {a, b} - {""} <==> (a != "" ==> Holds(m, a, f))
  {
    var h, x := Holders(m, f), {a, b} - {""};
    assert h <= x;
    if h == x && a != "" {
      assert a in h;
    }
  }

  /**
   * A reconcile that reaches its end leaves each finalizer on exactly the recorded and the wanted secret, however many
   * were superseded, and on exactly the wanted one when the rollout was ready. For the transport secret this holds if
   * and only if the recorded one had its finalizer.
   */
  lemma EndOfReconcile(s: Sys, c: Choice)
    requires Inv(s) && RecordedHeld(s, AC) && s.run.Some? && s.run.value.at == Pruned
    ensures var r, t := s.run.value, Next(s, Step(c));
      t.run.None? && t.status == r.status &&
      Holders(t.secrets, AC) == {t.status.ac, r.spec.ac} - {""} &&
      (Holders(t.secrets, Transport) == {t.status.tu, TuName(r)} - {""} <==> RecordedHeld(s, Transport)) &&
      (r.guard ==> t.status == Status(r.spec.ac, TuName(r)) && RecordedHeld(s, Transport))
  {
    var r, t := s.run.value, Next(s, Step(c));
    ExactHolders(t.secrets, AC, t.status.ac, r.spec.ac);
    ExactHolders(t.secrets, Transport, t.status.tu, TuName(r));
  }

  /** The same for every run from an empty namespace. */
  lemma EveryReconcileEndsExact(s0: Sys, es: seq<Event>, c: Choice)
    requires Initial(s0)
    requires Trace(s0, es).run.Some? && Trace(s0, es).run.value.at == Pruned
    ensures var r, t := Trace(s0, es).run.value, Next(Trace(s0, es), Step(c));
      Holders(t.secrets, AC) == (if r.guard then {r.spec.ac} else {t.status.ac, r.spec.ac}) - {""} &&
      (r.guard || NoFailedDelete(es) ==>
        Holders(t.secrets, Transport) == (if r.guard then {TuName(r)} else {t.status.tu, TuName(r)}) - {""})
  {
    InvTrace(s0, es);
    RecordedIsHeld(s0, es, AC);
    if NoFailedDelete(es) {
      RecordedIsHeld(s0, es, Transport);
    }
    EndOfReconcile(Trace(s0, es), c);
  }

  /** Whatever overtook the rollout: afterwards all pods are protected if and only if none uses a superseded secret. */
  lemma PodsAfterReconcile(s: Sys, c: Choice, f: Finalizer)
    requires Inv(s) && RecordedHeld(s, f) && s.run.Some? && s.run.value.at == Pruned
    ensures var t := Next(s, Step(c));
      Protected(t, f) <==> UsesOnly(t, f, Recorded(t, f), Wanted(s.run.value, f))
  {
    var t := Next(s, Step(c));
    assert forall n | Holds(t.secrets, n, f) :: n == Recorded(t, f) || n == Wanted(s.run.value, f);
    assert RecordedHeld(t, f) && WantedHeld(s, f);
  }

  ghost predicate UsesOnly(s: Sys, f: Finalizer, a: string, b: string) {
    forall p | Runs(s, p) :: Uses(p, f) == "" || Uses(p, f) == a || Uses(p, f) == b
  }

  ghost predicate Protected(s: Sys, f: Finalizer) {
    forall p | Runs(s, p) && Uses(p, f) != "" :: Holds(s.secrets, Uses(p, f), f)
  }

  // ----- one reconcile that nothing interleaves -----

  /** The reconcile wants what is desired. */
  predicate OfThisSpec(s: Sys) {
    s.run.Some? ==>
      var r := s.run.value;
      r.spec == s.spec && (r.at != Begun ==> Wanted(r, Transport) == Desired(s, Transport))
  }

  lemma TurnKeeps(s: Sys, c: Choice, stop: set<Point>)
    requires OfThisSpec(s) && Inv(s)
    ensures OfThisSpec(Next(s, Turn(s, c, stop))) && Next(s, Turn(s, c, stop)).spec == s.spec
  {
  }

  lemma {:induction false} TurnsKeep(s: Sys, c: Choice, stop: set<Point>, n: nat)
    requires Inv(s) && OfThisSpec(s) && RecordedHeld(s, AC)
    ensures var t := Turns(s, c, stop, n);
      Inv(t) && OfThisSpec(t) && t.spec == s.spec && RecordedHeld(t, AC) &&
      (RecordedHeld(s, Transport) && !c.deleteFails ==> RecordedHeld(t, Transport))
  {
    if n > 0 {
      TurnsKeep(s, c, stop, n - 1);
      var t := Turns(s, c, stop, n - 1);
      var e := Turn(t, c, stop);
      TurnKeeps(t, c, stop);
      InvStep(t, e);
      RecordedHeldStep(t, e, AC);
      if RecordedHeld(t, Transport) {
        RecordedHeldStep(t, e, Transport);
      }
    }
  }

  lemma BeginKeeps(s: Sys)
    requires Inv(s) && s.run.None? && RecordedHeld(s, AC)
    ensures var t := Next(s, Begin);
      Inv(t) && OfThisSpec(t) && t.spec == s.spec && RecordedHeld(t, AC) &&
      (RecordedHeld(s, Transport) ==> RecordedHeld(t, Transport))
  {
    InvStep(s, Begin);
  }

  /** Reconcile, stopped anywhere, keeps the invariant; at its end the finalizers are where they belong. */
  method ReconcileOnce(p: Reconciler, c: Choice, stop: set<Point>) returns (ended: bool)
    requires p.run.None? && Inv(p.View()) && RecordedHeld(p.View(), AC)
    modifies p
    ensures p.run.None? && Inv(p.View()) && RecordedHeld(p.View(), AC) && p.spec == old(p.spec)
    ensures ended ==> Holders(p.secrets, AC) == {p.status.ac, p.spec.ac} - {""}
    ensures ended && !c.deleteFails && old(RecordedHeld(p.View(), Transport)) ==>
              Holders(p.secrets, Transport) == {p.status.tu, Desired(p.View(), Transport)} - {""}
  {
    ghost var s := p.View();
    ghost var n: nat;
    ended, n := p.Reconcile(c, stop);
    BeginKeeps(s);
    TurnsKeep(Next(s, Begin), c, stop, n);
    TurnsKeep(Next(s, Begin), c, stop, n + 1);
    if ended {
      ghost var t := Turns(Next(s, Begin), c, stop, n);
      LastTurn(t, c, stop);
    }
  }

  lemma LastTurn(t: Sys, c: Choice, stop: set<Point>)
    requires Inv(t) && OfThisSpec(t) && RecordedHeld(t, AC) && EndsAfter(t, stop)
    ensures var u := Next(t, Turn(t, c, stop));
      Holders(u.secrets, AC) == {u.status.ac, u.spec.ac} - {""} &&
      (RecordedHeld(t, Transport) ==>
         Holders(u.secrets, Transport) == {u.status.tu, Desired(u, Transport)} - {""})
  {
    EndOfReconcile(t, c);
  }

  // ----- no rotation overtakes an unfinished rollout -----

  /** The last rotation is finished: the desired secret is recorded, and every pod uses it. */
  ghost predicate Settled(s: Sys, f: Finalizer) {
    Recorded(s, f) == Desired(s, f) && forall p | Runs(s, p) :: Uses(p, f) == Desired(s, f)
  }

  /** An edit that changes the desired secret waits for the last rotation. */
  ghost predicate Patient(s: Sys, e: Event, f: Finalizer) {
    e.EditSpec? || e.PublishTransport? ==> (Desired(Next(s, e), f) != Desired(s, f) ==> Settled(s, f))
  }

  /** The secret a reconcile wants is known: the credential at once, the transport secret once it is read. */
  predicate Chosen(r: Run, f: Finalizer) { f == AC || r.at != Begun }

  /** The secret that the reconcile wants, or would want if it read the TransportURL now. */
  function Reads(s: Sys, r: Run, f: Finalizer): string {
    if Chosen(r, f) then Wanted(r, f) else if r.spec.ceilometer && s.tuCR.Some? then s.tuCR.value else ""
  }

  /** Between its read of the instance and its read of the TransportURL, a reconcile is not left with a transport
      secret that is neither recorded nor desired. */
  predicate Unsurprised(s: Sys, e: Event, f: Finalizer) {
    (e.EditSpec? || e.PublishTransport?) && s.run.Some? && !Chosen(s.run.value, f) ==>
      var t := Next(s, e);
      Reads(t, s.run.value, f) == Recorded(t, f) || Reads(t, s.run.value, f) == Desired(t, f)
  }

  ghost predicate PatientRun(s: Sys, es: seq<Event>, f: Finalizer) {
    es == [] || (PatientRun(s, es[..|es|-1], f) && Patient(Trace(s, es[..|es|-1]), es[|es|-1], f))
  }

  ghost predicate CalmRun(s: Sys, es: seq<Event>, f: Finalizer) {
    es == [] ||
    var t, e := Trace(s, es[..|es|-1]), es[|es|-1];
    CalmRun(s, es[..|es|-1], f) && Patient(t, e, f) && Unsurprised(t, e, f)
  }

  ghost predicate Bounded(s: Sys, f: Finalizer) {
    match s.run
    case None => UsesOnly(s, f, Recorded(s, f), Desired(s, f))
    case Some(r) =>
      UsesOnly(s, f, Recorded(s, f), Reads(s, r, f)) &&
      (Reads(s, r, f) == Recorded(s, f) || Reads(s, r, f) == Desired(s, f))
  }

  /** A step starts nothing but what it wants, and keeps what the reconcile wants once it is chosen. */
  lemma AdvanceUses(s: Sys, c: Choice, f: Finalizer)
    requires Inv(s) && s.run.Some?
    ensures var t := Next(s, Step(c));
      t.spec == s.spec &&
      (forall p | Runs(t, p) :: Runs(s, p) || (Chosen(s.run.value, f) && Uses(p, f) == Wanted(s.run.value, f))) &&
      (Recorded(t, f) == Recorded(s, f) || (Chosen(s.run.value, f) && Recorded(t, f) == Wanted(s.run.value, f))) &&
      (s.run.value.guard && Recorded(t, f) != Recorded(s, f) ==>
        forall p | Runs(s, p) :: Uses(p, f) == Wanted(s.run.value, f)) &&
      (Recorded(t, f) != Recorded(s, f) && !s.run.value.guard ==> Recorded(s, f) == "")
  {
  }

  /** Only the start and the end of a TransportURL change what is desired. */
  lemma AdvanceDesires(s: Sys, c: Choice, f: Finalizer)
    requires Inv(s) && Bounded(s, f) && s.run.Some?
    ensures var r, t := s.run.value, Next(s, Step(c));
      Desired(t, f) == Desired(s, f) || (Chosen(r, f) && Wanted(r, f) == Recorded(t, f))
  {
  }

  lemma AdvanceWants(s: Sys, c: Choice, f: Finalizer)
    requires Inv(s) && Bounded(s, f) && s.run.Some? && Next(s, Step(c)).run.Some?
    ensures var r, q := s.run.value, Next(s, Step(c)).run.value;
      Chosen(q, f) && Wanted(q, f) == Reads(s, r, f)
  {
  }

  lemma BoundedAdvance(s: Sys, c: Choice, f: Finalizer)
    requires Inv(s) && Bounded(s, f) && s.run.Some?
    ensures Bounded(Next(s, Step(c)), f)
  {
    AdvanceUses(s, c, f);
    AdvanceDesires(s, c, f);
    if Next(s, Step(c)).run.Some? {
      AdvanceWants(s, c, f);
    }
  }

  lemma BoundedStep(s: Sys, e: Event, f: Finalizer)
    requires Inv(s) && Bounded(s, f) && Patient(s, e, f) && Unsurprised(s, e, f)
    ensures Bounded(Next(s, e), f)
  {
    if e.Step? && s.run.Some? {
      BoundedAdvance(s, e.c, f);
    }
  }

  /** A step releases no secret that it neither wants nor records, unless no pod uses it. */
  lemma AdvanceReleases(s: Sys, c: Choice, f: Finalizer, n: string)
    requires Inv(s) && s.run.Some? && Holds(s.secrets, n, f)
    requires n == Recorded(s, f) || (Chosen(s.run.value, f) && n == Wanted(s.run.value, f)) || Ord(s.run.value.at) < 7
    ensures var r := s.run.value;
      Holds(Next(s, Step(c)).secrets, n, f) || (r.guard && n == Recorded(s, f) != Wanted(r, f))
  {
    var r := s.run.value;
    if Ord(r.at) < 5 {
      assert Holds(Next(s, Step(c)).secrets, n, f);
    } else if Ord(r.at) < 7 {
    } else {
    }
  }

  lemma ProtectedAdvance(s: Sys, c: Choice, f: Finalizer)
    requires Inv(s) && Bounded(s, f) && Protected(s, f) && s.run.Some?
    ensures Protected(Next(s, Step(c)), f)
  {
    var r, t := s.run.value, Next(s, Step(c));
    forall p | Runs(t, p) && Uses(p, f) != "" ensures Holds(t.secrets, Uses(p, f), f) {
      if Runs(s, p) {
        AdvanceReleases(s, c, f, Uses(p, f));
      } else {
        assert r.at == AcHeld && Uses(p, f) == Wanted(r, f);
      }
    }
  }

  lemma ProtectedStep(s: Sys, e: Event, f: Finalizer)
    requires Inv(s) && Bounded(s, f) && Protected(s, f)
    ensures Protected(Next(s, e), f)
  {
    if e.Step? && s.run.Some? {
      ProtectedAdvance(s, e.c, f);
    } else {
      assert forall p | Runs(Next(s, e), p) :: Runs(s, p);
    }
  }

  /** If no rotation overtakes an unfinished rollout, and no reconcile is surprised, every secret that a pod uses
      carries its finalizer in every reachable state. */
  lemma {:induction false} PodsAreProtected(s0: Sys, es: seq<Event>, f: Finalizer)
    requires Initial(s0) && CalmRun(s0, es, f)
    ensures Bounded(Trace(s0, es), f) && Protected(Trace(s0, es), f)
  {
    if es != [] {
      var front := es[..|es|-1];
      PodsAreProtected(s0, front, f);
      InvTrace(s0, front);
      BoundedStep(Trace(s0, front), es[|es|-1], f);
      ProtectedStep(Trace(s0, front), es[|es|-1], f);
    }
  }

  // ----- runs that show the limits -----

  lemma Extend(s: Sys, es: seq<Event>, e: Event) returns (fs: seq<Event>, t: Sys)
    ensures fs == es + [e] && t == Trace(s, fs) == Next(Trace(s, es), e)
  {
    fs := es + [e];
    assert fs[..|fs|-1] == es;
    t := Trace(s, fs);
  }

  /** Fields of a state in the examples below: two secrets. */
  function Example(m: set<Finalizer>, on: bool, st: Status, cr: string, i: Input, r: Option<Run>): Sys {
    Sys(map["t" := m, "n" := {}], Spec("", on), st, Some(cr), Some(i), {}, r)
  }

  const GO := Step(Choice("", true, true, false, true))

  lemma PatientExtend(s: Sys, es: seq<Event>, e: Event) returns (fs: seq<Event>, t: Sys)
    requires PatientRun(s, es, Transport) && Patient(Trace(s, es), e, Transport)
    ensures t == Trace(s, fs) == Next(Trace(s, es), e) && PatientRun(s, fs, Transport)
  {
    fs, t := Extend(s, es, e);
    assert fs[..|fs|-1] == es;
  }

  /** An event that edits nothing, and the state it leads to. */
  lemma Then(s: Sys, es: seq<Event>, e: Event, t: Sys) returns (fs: seq<Event>)
    requires PatientRun(s, es, Transport) && !e.EditSpec? && !e.PublishTransport?
    requires Next(Trace(s, es), e) == t
    ensures Trace(s, fs) == t && PatientRun(s, fs, Transport)
  {
    var u: Sys;
    fs, u := PatientExtend(s, es, e);
  }

  const T := Input("", "t", "")
  const N := Input("", "n", "")
  const OFF := Spec("", false)
  const RECORDED := Status("", "t")

  /** The TransportURL has a secret, and a reconcile has read it. */
  lemma FirstRead() returns (s: Sys, es: seq<Event>)
    ensures Initial(s) && PatientRun(s, es, Transport)
    ensures Trace(s, es) == Sys(map["t" := {}, "n" := {}], Spec("", true), Status("", ""), Some("t"), None, {},
                                Some(Run(Spec("", true), Status("", ""), Some("t"), false, TransportRead)))
  {
    s := Sys(map["t" := {}, "n" := {}], Spec("", true), Status("", ""), None, None, {}, None);
    var t := s;
    es := [];
    var r := Run(s.spec, s.status, None, false, Begun);
    es := Then(s, es, Begin, s.(run := Some(r)));
    es := Then(s, es, GO, s.(tuCR := Some("")));
    es, t := PatientExtend(s, es, PublishTransport("t"));
    es := Then(s, es, Begin, s.(tuCR := Some("t"), run := Some(r)));
    es := Then(s, es, GO, s.(tuCR := Some("t"), run := Some(r.(tu := Some("t"), at := TransportRead))));
  }

  lemma FirstHeld() returns (s: Sys, es: seq<Event>)
    ensures Initial(s) && PatientRun(s, es, Transport)
    ensures Trace(s, es) == Example({Transport}, true, Status("", ""), "t", T, None).(template := None,
                              run := Some(Run(Spec("", true), Status("", ""), Some("t"), false, TransportHeld)))
  {
    s, es := FirstRead();
    var t := Trace(s, es);
    var none: set<Finalizer> := {};
    assert none + {Transport} == {Transport};
    var u := Example({Transport}, true, Status("", ""), "t", T, None);
    es := Then(s, es, GO, u.(template := None, run := Some(t.run.value.(at := TransportHeld))));
  }

  /** A first rollout with ceilometer records the transport secret. */
  lemma FirstRollout() returns (s: Sys, es: seq<Event>)
    ensures Initial(s) && PatientRun(s, es, Transport)
    ensures Trace(s, es) == Example({Transport}, true, RECORDED, "t", T, None)
  {
    s, es := FirstHeld();
    var t := Trace(s, es);
    var r := t.run.value;
    es := Then(s, es, GO, t.(run := Some(r.(at := AcHeld))));
    t := t.(template := Some(T));
    es := Then(s, es, GO, t.(run := Some(r.(at := Deployed))));
    es := Then(s, es, GO, t.(run := Some(r.(guard := true, at := Checked))));
    es := Then(s, es, GO, t.(run := Some(r.(guard := true, at := TransportDone, status := RECORDED))));
    es := Then(s, es, Return, Example({Transport}, true, RECORDED, "t", T, None));
  }

  /** It happens: after that rollout ceilometer is disabled, and the delete of the TransportURL fails. */
  lemma TransportIsLost() returns (s: Sys, es: seq<Event>)
    ensures Initial(s) && Recorded(Trace(s, es), Transport) == "t" && !Holds(Trace(s, es).secrets, "t", Transport)
  {
    s, es := FirstRollout();
    var t := Example({Transport}, false, RECORDED, "t", T, None);
    var r := Run(OFF, RECORDED, None, false, Begun);
    var u := Trace(s, es);
    es, u := PatientExtend(s, es, EditSpec(OFF));
    es := Then(s, es, Begin, t.(run := Some(r)));
    es := Then(s, es, GO, t.(run := Some(r.(at := TransportHeld))));
    es := Then(s, es, GO, t.(run := Some(r.(at := AcHeld))));
    t := t.(template := Some(Input("", "", "")));
    es := Then(s, es, GO, t.(run := Some(r.(at := Deployed))));
    es := Then(s, es, GO, t.(run := Some(r.(guard := true, at := Checked))));
    es, u := Extend(s, es, GO);
  }

  /** A reconcile is surprised: it has begun with ceilometer on, ceilometer is disabled, another secret is published. */
  lemma SurprisedRead() returns (s: Sys, es: seq<Event>)
    ensures Initial(s) && PatientRun(s, es, Transport)
    ensures Trace(s, es) == Example({Transport}, false, RECORDED, "n", T,
                                    Some(Run(Spec("", true), RECORDED, None, false, Begun)))
  {
    s, es := FirstRollout();
    var t := Example({Transport}, true, RECORDED, "t", T, Some(Run(Spec("", true), RECORDED, None, false, Begun)));
    es := Then(s, es, Begin, t);
    es, t := PatientExtend(s, es, EditSpec(OFF));
    es, t := PatientExtend(s, es, PublishTransport("n"));
  }

  function Both(i: Input, pods: set<Input>, r: Option<Run>): Sys {
    Sys(map["t" := {Transport}, "n" := {Transport}], OFF, RECORDED, Some("n"), Some(i), pods, r)
  }

  /** It rolls that secret out. */
  lemma SurprisedRollout() returns (s: Sys, es: seq<Event>)
    ensures Initial(s) && PatientRun(s, es, Transport) && Trace(s, es) == Both(N, {N}, None)
  {
    s, es := SurprisedRead();
    var t := Trace(s, es);
    var r := t.run.value.(tu := Some("n"));
    es := Then(s, es, GO, t.(run := Some(r.(at := TransportRead))));
    var none: set<Finalizer> := {};
    assert none + {Transport} == {Transport};
    es := Then(s, es, GO, Both(T, {}, Some(r.(at := TransportHeld))));
    es := Then(s, es, GO, Both(T, {}, Some(r.(at := AcHeld))));
    es := Then(s, es, GO, Both(N, {}, Some(r.(at := Deployed))));
    es := Then(s, es, Roll({N}), Both(N, {N}, Some(r.(at := Deployed))));
    es := Then(s, es, Return, Both(N, {N}, None));
  }

  /** The next reconcile rolls the secret out of the template, but not yet out of the pod. */
  lemma SurprisedAgain() returns (s: Sys, es: seq<Event>)
    ensures Initial(s) && PatientRun(s, es, Transport)
    ensures Trace(s, es) == Both(Input("", "", ""), {N}, Some(Run(OFF, RECORDED, None, false, Checked)))
  {
    s, es := SurprisedRollout();
    var r := Run(OFF, RECORDED, None, false, Begun);
    es := Then(s, es, Begin, Both(N, {N}, Some(r)));
    es := Then(s, es, GO, Both(N, {N}, Some(r.(at := TransportHeld))));
    es := Then(s, es, GO, Both(N, {N}, Some(r.(at := AcHeld))));
    es := Then(s, es, GO, Both(Input("", "", ""), {N}, Some(r.(at := Deployed))));
    es := Then(s, es, GO, Both(Input("", "", ""), {N}, Some(r.(at := Checked))));
  }

  /** So patience alone is not enough: the next reconcile takes the finalizer from the secret that the pod uses. */
  lemma SurpriseUnprotects() returns (s: Sys, es: seq<Event>)
    ensures Initial(s) && PatientRun(s, es, Transport) && !Protected(Trace(s, es), Transport)
  {
    s, es := SurprisedAgain();
    var none := Input("", "", "");
    var r := Run(OFF, RECORDED, None, false, Checked);
    es := Then(s, es, GO, Both(none, {N}, Some(r.(at := TransportDone))));
    es := Then(s, es, GO, Both(none, {N}, Some(r.(at := AcDone))));
    var t := Trace(s, es);
    es, t := PatientExtend(s, es, GO);
    assert Runs(t, N) && !Holds(t.secrets, "n", Transport);
  }
}
