/** What one reconcile of SwiftProxy that nothing interleaves makes of the cluster, from its inputs to its result. */
module ProxyOutcome {
  import opened Text
  import opened ProxyRotation
  import opened ProxyHandover

  /** The transport secret that the TransportURL names, if ceilometer asks for one. */
  function Transports(s: Sys): string {
    if s.spec.ceilometer && s.tuCR.Some? then s.tuCR.value else ""
  }

  /** The input of the Deployment: both secrets and everything else. */
  function Wants(s: Sys, c: Choice): Input { Input(s.spec.ac, Transports(s), c.rest) }

  /** The rollout is finished: the Deployment and all other conditions are ready, and every pod runs this input. */
  predicate Finished(s: Sys, c: Choice) { c.ready && c.subConditions && forall p | p in s.pods :: p == Wants(s, c) }

  predicate Exists(s: Sys, name: string) { name == "" || name in s.secrets }

  /** The reconcile can use both secrets. */
  predicate Usable(s: Sys) {
    (s.spec.ceilometer ==> Transports(s) != "") && Exists(s, Transports(s)) && Exists(s, s.spec.ac)
  }

  /** Ceilometer is off, and its transport secret is still recorded. */
  predicate Retires(s: Sys, c: Choice) { !s.spec.ceilometer && s.status.tu != "" && Finished(s, c) }

  /** The name recorded after a rotation; an empty one may be filled in early. */
  function NewName(old_: string, want: string, finished: bool, eager: bool): string {
    if finished || (old_ == "" && eager) then want else old_
  }

  function NewStatus(s: Sys, c: Choice): Status {
    Status(NewName(s.status.ac, s.spec.ac, Finished(s, c), c.eager),
      if s.spec.ceilometer then NewName(s.status.tu, Transports(s), Finished(s, c), c.eager)
      else if Retires(s, c) then "" else s.status.tu)
  }

  /** Something ended the reconcile early. */
  predicate Stopped(s: Sys, c: Choice, stop: set<Point>) {
    stop != {} || !Usable(s) || (Retires(s, c) && c.deleteFails)
  }

  /** The reconcile in progress, point by point. */
  predicate Underway(s: Sys, c: Choice, n: nat, t: Sys, r: Run) {
    t.status == s.status && r.spec == s.spec && Ord(r.at) == (if n == 0 || s.spec.ceilometer then n else n + 1) &&
    (if r.at == Begun then r.tu == None
     else r.tu == (if s.spec.ceilometer then Some(Transports(s)) else None) &&
          (s.spec.ceilometer ==> Transports(s) != "")) &&
    (Ord(r.at) >= 2 ==> Exists(s, Transports(s))) && (Ord(r.at) >= 3 ==> Exists(s, s.spec.ac)) &&
    t.template == (if Ord(r.at) >= 4 then Some(Wants(s, c)) else s.template) &&
    r.guard == (Ord(r.at) >= 5 && Finished(s, c)) &&
    r.status.tu == (if Ord(r.at) >= 6 then NewStatus(s, c).tu else s.status.tu) &&
    t.tuCR == (if Ord(r.at) >= 6 && Retires(s, c) then None else s.tuCR) &&
    r.status.ac == (if Ord(r.at) >= 7 then NewStatus(s, c).ac else s.status.ac)
  }

  /** The reconcile has ended: completely, or early with part of the result. */
  predicate Ended(s: Sys, c: Choice, stop: set<Point>, t: Sys) {
    (t.status.ac == s.status.ac || t.status.ac == NewStatus(s, c).ac) &&
    (t.status.tu == s.status.tu || t.status.tu == NewStatus(s, c).tu) &&
    (t.template == s.template || (t.template == Some(Wants(s, c)) && Usable(s))) &&
    (Stopped(s, c, stop) ||
     (t.status == NewStatus(s, c) && t.template == Some(Wants(s, c)) &&
      t.tuCR == if Retires(s, c) then None else s.tuCR))
  }

  /** The TransportURL stays, is asked for, or goes when its secret is retired. */
  predicate Keeps(s: Sys, c: Choice, t: Sys) {
    t.tuCR == s.tuCR || (s.tuCR.None? && t.tuCR == Some("")) || (t.tuCR.None? && Retires(s, c))
  }

  /** What the reconcile never touches, and how far it is. */
  predicate Track(s: Sys, c: Choice, stop: set<Point>, n: nat, t: Sys) {
    t.spec == s.spec && t.pods == s.pods && t.secrets.Keys == s.secrets.Keys && Keeps(s, c, t) &&
    match t.run
    case Some(r) => Underway(s, c, n, t, r)
    case None => Ended(s, c, stop, t)
  }

  lemma StepKeepsNames(t: Sys, c: Choice)
    requires t.run.Some?
    ensures Next(t, Step(c)).secrets.Keys == t.secrets.Keys
  {
    if Ord(t.run.value.at) < 5 {
    } else if Ord(t.run.value.at) < 7 {
    } else {
    }
  }

  /** One step, and that nothing but a reason ends the reconcile before its last step. */
  predicate OneStep(s: Sys, c: Choice, stop: set<Point>, n: nat, t: Sys, r: Run) {
    var u := Next(t, Step(c));
    Track(s, c, stop, n + 1, u) && (!Stopped(s, c, stop) && r.at != Pruned ==> u.run.Some?)
  }

  lemma TrackBefore(s: Sys, c: Choice, stop: set<Point>, n: nat, t: Sys, r: Run)
    requires Track(s, c, stop, n, t) && t.run == Some(r) && Ord(r.at) < 4
    ensures OneStep(s, c, stop, n, t, r)
  {
    StepKeepsNames(t, c);
  }

  lemma TrackRollout(s: Sys, c: Choice, stop: set<Point>, n: nat, t: Sys, r: Run)
    requires Track(s, c, stop, n, t) && t.run == Some(r) && r.at == Deployed
    ensures OneStep(s, c, stop, n, t, r)
  {
    assert t.pods <= {t.template.value} <==> forall p | p in s.pods :: p == Wants(s, c);
  }

  lemma TrackTransport(s: Sys, c: Choice, stop: set<Point>, n: nat, t: Sys, r: Run)
    requires Track(s, c, stop, n, t) && t.run == Some(r) && r.at == Checked
    ensures OneStep(s, c, stop, n, t, r)
  {
    StepKeepsNames(t, c);
  }

  lemma TrackAfter(s: Sys, c: Choice, stop: set<Point>, n: nat, t: Sys, r: Run)
    requires Track(s, c, stop, n, t) && t.run == Some(r) && Ord(r.at) >= 6
    ensures OneStep(s, c, stop, n, t, r)
  {
    StepKeepsNames(t, c);
  }

  lemma TrackStep(s: Sys, c: Choice, stop: set<Point>, n: nat, t: Sys, r: Run)
    requires Track(s, c, stop, n, t) && t.run == Some(r)
    ensures OneStep(s, c, stop, n, t, r)
  {
    if Ord(r.at) < 4 {
      TrackBefore(s, c, stop, n, t, r);
    } else if r.at == Deployed {
      TrackRollout(s, c, stop, n, t, r);
    } else if r.at == Checked {
      TrackTransport(s, c, stop, n, t, r);
    } else {
      TrackAfter(s, c, stop, n, t, r);
    }
  }

  lemma TrackReturn(s: Sys, c: Choice, stop: set<Point>, n: nat, t: Sys)
    requires Track(s, c, stop, n, t) && t.run.Some? && t.run.value.at in stop
    ensures Track(s, c, stop, n + 1, Next(t, Return))
  {
  }

  lemma TrackTurn(s: Sys, c: Choice, stop: set<Point>, n: nat, t: Sys)
    requires Track(s, c, stop, n, t)
    ensures Track(s, c, stop, n + 1, Next(t, Turn(t, c, stop)))
    ensures !Stopped(s, c, stop) && t.run.Some? && t.run.value.at != Pruned ==>
              Next(t, Turn(t, c, stop)).run.Some?
  {
    if t.run.Some? {
      if t.run.value.at in stop {
        TrackReturn(s, c, stop, n, t);
      } else {
        TrackStep(s, c, stop, n, t, t.run.value);
      }
    }
  }

  lemma TrackBegin(s: Sys, c: Choice, stop: set<Point>)
    requires s.run.None?
    ensures Track(s, c, stop, 0, Next(s, Begin)) && Next(s, Begin).run.Some?
  {
  }

  /** The reconcile follows the track, and without a reason to stop it has all its steps. */
  lemma {:induction false} Tracks(s: Sys, c: Choice, stop: set<Point>, n: nat)
    requires s.run.None?
    ensures var t := Turns(Next(s, Begin), c, stop, n);
      Track(s, c, stop, n, t) && (!Stopped(s, c, stop) && n < Length(s) ==> t.run.Some?)
  {
    var b := Next(s, Begin);
    if n == 0 {
      TurnsSnoc(b, c, stop, 0);
      TrackBegin(s, c, stop);
    } else {
      Tracks(s, c, stop, n - 1);
      TurnsSnoc(b, c, stop, n - 1);
      TrackTurn(s, c, stop, n - 1, Turns(b, c, stop, n - 1));
      NotYetPruned(s, c, stop, n - 1, Turns(b, c, stop, n - 1));
    }
  }

  lemma NotYetPruned(s: Sys, c: Choice, stop: set<Point>, n: nat, t: Sys)
    requires Track(s, c, stop, n, t)
    ensures n + 1 < Length(s) && t.run.Some? ==> t.run.value.at != Pruned
  {
  }

  /** The steps of a reconcile that reaches its end. */
  function Length(s: Sys): nat { if s.spec.ceilometer then 9 else 8 }

  // ----- who gets and who loses a finalizer -----

  /** The step gives the finalizer f to the secret n. */
  predicate Gives(r: Run, n: string, f: Finalizer) {
    (r.at == TransportRead && f == Transport && n == TuName(r)) || (r.at == TransportHeld && f == AC && n == r.spec.ac)
  }

  /** The step takes the finalizer f from the secret n: a finished rotation from the recorded secret that is not wanted,
      the prunes from all that are neither recorded nor wanted. */
  predicate Takes(r: Run, n: string, f: Finalizer) {
    match r.at
    case Checked => f == Transport && r.guard && n == r.status.tu && n != TuName(r)
    case TransportDone => f == AC && r.guard && n == r.status.ac && n != r.spec.ac
    case AcDone => f == Transport && n != r.status.tu && n != TuName(r)
    case Pruned => f == AC && n != r.status.ac && n != r.spec.ac
    case _ => false
  }

  lemma StepFinalizers(t: Sys, c: Choice, n: string, f: Finalizer)
    requires t.run.Some? && "" !in t.secrets && n in t.secrets
    ensures var r := t.run.value;
      Holds(Next(t, Step(c)).secrets, n, f) <==> (Holds(t.secrets, n, f) || Gives(r, n, f)) && !Takes(r, n, f)
  {
    var r := t.run.value;
    if Ord(r.at) < 5 {
    } else if Ord(r.at) < 7 {
    } else {
    }
  }

  // ----- the results -----

  /** Before the rollout is finished, and that includes every other condition, a recorded secret stays recorded. */
  lemma UnfinishedKeepsRecorded(s: Sys, c: Choice, stop: set<Point>, n: nat)
    requires s.run.None? && !(c.ready && c.subConditions && forall p | p in s.pods :: p == Wants(s, c))
    ensures var t := Turns(Next(s, Begin), c, stop, n);
      (s.status.ac != "" ==> Recorded(t, AC) == s.status.ac) &&
      (s.status.tu != "" ==> Recorded(t, Transport) == s.status.tu) &&
      (t.tuCR == s.tuCR || (s.tuCR.None? && t.tuCR == Some(""))) && (t.run.Some? ==> !t.run.value.guard)
  {
    Tracks(s, c, stop, n);
  }

  /** The Deployment changes only when both secrets exist, and then to exactly this input. */
  lemma DeploymentIsWanted(s: Sys, c: Choice, stop: set<Point>, n: nat)
    requires s.run.None?
    ensures var t := Turns(Next(s, Begin), c, stop, n);
      t.template != s.template ==>
        t.template == Some(Input(s.spec.ac, Transports(s), c.rest)) && Exists(s, s.spec.ac) && Exists(s, Transports(s))
  {
    Tracks(s, c, stop, n);
  }

  /**
   * A finished rollout hands over: the wanted names are recorded and alone carry the finalizers, and a transport secret
   * that is no longer wanted takes its TransportURL with it. A TransportURL that was never recorded stays.
   */
  lemma FinishedHandsOver(s: Sys, c: Choice)
    requires s.run.None? && Inv(s) && RecordedHeld(s, AC)
    requires c.ready && c.subConditions && !c.deleteFails && forall p | p in s.pods :: p == Wants(s, c)
    requires (s.spec.ceilometer ==> Transports(s) != "") && Exists(s, Transports(s)) && Exists(s, s.spec.ac)
    ensures var t := Turns(Next(s, Begin), c, {}, Length(s));
      t.run.None? && t.status == Status(s.spec.ac, Transports(s)) &&
      t.template == Some(Input(s.spec.ac, Transports(s), c.rest)) &&
      t.tuCR == (if !s.spec.ceilometer && s.status.tu != "" then None else s.tuCR) &&
      Holders(t.secrets, AC) == {s.spec.ac} - {""} && Holders(t.secrets, Transport) == {Transports(s)} - {""}
  {
    EndIsReached(s, c);
    var u := Turns(Next(s, Begin), c, {}, Length(s) - 1);
    EndOfReconcile(u, c);
  }

  /** An unfinished rollout with everything in place ends with the old names recorded, an empty one apart, and with the
      finalizers on the old and the wanted secret. */
  lemma UnfinishedHoldsBoth(s: Sys, c: Choice)
    requires s.run.None? && Inv(s) && RecordedHeld(s, AC) && RecordedHeld(s, Transport)
    requires Usable(s) && !Finished(s, c) && s.status.ac != "" && s.status.tu != ""
    ensures var t := Turns(Next(s, Begin), c, {}, Length(s));
      t.run.None? && t.status == s.status && t.tuCR == s.tuCR && t.template == Some(Wants(s, c)) &&
      Holders(t.secrets, AC) == {s.status.ac, s.spec.ac} - {""} &&
      Holders(t.secrets, Transport) == {s.status.tu, Transports(s)} - {""}
  {
    EndIsReached(s, c);
    var u := Turns(Next(s, Begin), c, {}, Length(s) - 1);
    EndOfReconcile(u, c);
  }

  lemma EndIsReached(s: Sys, c: Choice)
    requires s.run.None? && Inv(s) && RecordedHeld(s, AC) && !Stopped(s, c, {})
    ensures var u, t := Turns(Next(s, Begin), c, {}, Length(s) - 1), Turns(Next(s, Begin), c, {}, Length(s));
      Inv(u) && RecordedHeld(u, AC) && (RecordedHeld(s, Transport) ==> RecordedHeld(u, Transport)) &&
      u.run.Some? && u.run.value.at == Pruned && u.run.value.guard == Finished(s, c) && t == Next(u, Step(c)) &&
      u.run.value.spec == s.spec && TuName(u.run.value) == Transports(s) && t.run.None? &&
      t.status == NewStatus(s, c) && t.template == Some(Wants(s, c)) &&
      t.tuCR == if Retires(s, c) then None else s.tuCR
  {
    var b := Next(s, Begin);
    BeginKeeps(s);
    TurnsKeep(b, c, {}, Length(s) - 1);
    if RecordedHeld(s, Transport) {
      TransportStaysHeld(s, c, Length(s) - 1);
    }
    Tracks(s, c, {}, Length(s) - 1);
    Tracks(s, c, {}, Length(s));
    TurnsSnoc(b, c, {}, Length(s) - 1);
  }

  lemma {:induction false} TransportStaysHeld(s: Sys, c: Choice, n: nat)
    requires s.run.None? && Inv(s) && RecordedHeld(s, AC) && RecordedHeld(s, Transport) && !Stopped(s, c, {})
    ensures RecordedHeld(Turns(Next(s, Begin), c, {}, n), Transport)
  {
    var b := Next(s, Begin);
    BeginKeeps(s);
    if n == 0 {
      TurnsSnoc(b, c, {}, 0);
    } else {
      TransportStaysHeld(s, c, n - 1);
      Tracks(s, c, {}, n - 1);
      TurnsKeep(b, c, {}, n - 1);
      TurnsSnoc(b, c, {}, n - 1);
      StaysHeld(s, c, n - 1, Turns(b, c, {}, n - 1));
    }
  }

  lemma StaysHeld(s: Sys, c: Choice, n: nat, t: Sys)
    requires Track(s, c, {}, n, t) && !Stopped(s, c, {}) && Inv(t) && RecordedHeld(t, Transport)
    ensures RecordedHeld(Next(t, Turn(t, c, {})), Transport)
  {
    assert !LosesTransport(t, Step(c));
    RecordedHeldStep(t, Step(c), Transport);
  }

  /** Without a name from the TransportURL the reconcile asks for one and changes nothing else. */
  lemma AsksForTransport(s: Sys, c: Choice)
    requires s.run.None? && s.spec.ceilometer && (s.tuCR.Some? ==> s.tuCR.value == "")
    ensures Turns(Next(s, Begin), c, {}, 1) == s.(tuCR := Some(""))
  {
    TurnsSnoc(Next(s, Begin), c, {}, 0);
  }
}
