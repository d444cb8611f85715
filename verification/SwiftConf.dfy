/**
 * The life of the swift-conf Secret (internal/controller/swift_controller.go): its hash prefix and suffix cannot be
 * regenerated, so it is created once, finalized, and released only when Swift is deleted.
 */
module SwiftConf {
  import opened Text

  /** The two random strings; without them no stored object can be located. */
  datatype Hashes = Hashes(prefix: string, suffix: string)

  /** The Secret, with the finalizer of the operator, finalizers of others, and its deletion timestamp. */
  datatype Secret = Secret(hashes: Hashes, held: bool, others: bool, deleting: bool)

  datatype Swift = Alive | Deleting | Gone

  datatype Point = Reading | Ensuring | MetaReading | Labelling | Finalizing | DeleteReading | Releasing | Leaving

  /** A reconcile: the hashes its template would get, and its next API call. */
  datatype Run = Run(random: Hashes, at: Point)

  datatype Sys = Sys(secret: Option<Secret>, swift: Swift, run: Option<Run>)

  /** A Secret under deletion disappears with its last finalizer. */
  function Collect(x: Secret): Option<Secret> {
    if x.deleting && !x.held && !x.others then None else Some(x)
  }

  /** EnsureSecrets, as a contract: creates the Secret, or overwrites the data of one that exists. */
  function Ensure(o: Option<Secret>, h: Hashes): Secret {
    match o case None => Secret(h, false, false, false) case Some(x) => x.(hashes := h)
  }

  /** The API server admits no new finalizer on an object under deletion. */
  predicate MayFinalize(o: Option<Secret>) { o.Some? && (o.value.held || !o.value.deleting) }

  function End(s: Sys): Sys { s.(run := None) }

  function GoTo(s: Sys, r: Run, p: Point): Sys { s.(run := Some(r.(at := p))) }

  function Advance(s: Sys, r: Run): Sys {
    match r.at
    case Reading => GoTo(s, r, if s.secret.None? then Ensuring else MetaReading)
    case Ensuring => GoTo(s.(secret := Some(Ensure(s.secret, r.random))), r, MetaReading)
    case MetaReading => if s.secret.None? then End(s) else GoTo(s, r, Labelling)
    case Labelling => if s.secret.None? then End(s) else GoTo(s, r, Finalizing)
    case Finalizing => End(if MayFinalize(s.secret) then s.(secret := Some(s.secret.value.(held := true))) else s)
    case DeleteReading => GoTo(s, r, if s.secret.None? then Leaving else Releasing)
    case Releasing =>
      if s.secret.None? then End(s) else GoTo(s.(secret := Collect(s.secret.value.(held := false))), r, Leaving)
    case Leaving => End(s.(swift := Gone))
  }

  datatype Event =
    | Begin(random: Hashes)
    | Step
    | Return                   // an error, or the operator restarts
    | CreateSecret(h: Hashes)  // by a human operator, in advance
    | DeleteSecret
    | OtherFinalizer(on: bool)
    | DeleteSwift

  function Next(s: Sys, e: Event): Sys {
    match e
    case Begin(h) =>
      if s.run.Some? || s.swift == Gone then s
      else s.(run := Some(Run(h, if s.swift == Alive then Reading else DeleteReading)))
    case Step => if s.run.Some? then Advance(s, s.run.value) else s
    case Return => End(s)
    case CreateSecret(h) => if s.secret.None? then s.(secret := Some(Secret(h, false, false, false))) else s
    case DeleteSecret => if s.secret.Some? then s.(secret := Collect(s.secret.value.(deleting := true))) else s
    case OtherFinalizer(on) =>
      if s.secret.Some? && (on ==> !s.secret.value.deleting)
      then s.(secret := Collect(s.secret.value.(others := on))) else s
    case DeleteSwift => if s.swift == Alive then s.(swift := Deleting) else s
  }

  function Trace(s: Sys, es: seq<Event>): Sys {
    if es == [] then s else Next(Trace(s, es[..|es|-1]), es[|es|-1])
  }

  // ----- the statements of the controller -----

  /** The API call at a point in `stop` fails. */
  function Turn(s: Sys, stop: set<Point>): Event {
    if s.run.Some? && s.run.value.at in stop then Return else Step
  }

  /** Steps that nothing interleaves. */
  function Turns(s: Sys, stop: set<Point>, n: nat): Sys {
    if n == 0 then s else
      var t := Turns(s, stop, n - 1);
      Next(t, Turn(t, stop))
  }

  lemma {:induction false} TurnsCompose(s: Sys, stop: set<Point>, m: nat, n: nat)
    ensures Turns(Turns(s, stop, m), stop, n) == Turns(s, stop, m + n)
  {
    if n > 0 {
      TurnsCompose(s, stop, m, n - 1);
    }
  }

  /** A run that has ended stays ended. */
  lemma {:induction false} Ended(s: Sys, stop: set<Point>, n: nat)
    requires s.run.None?
    ensures Turns(s, stop, n) == s
  {
    if n > 0 {
      Ended(s, stop, n - 1);
    }
  }

  class Reconciler {
    var secret: Option<Secret>
    var swift: Swift

    function View(run: Option<Run>): Sys
      reads this
    {
      Sys(secret, swift, run)
    }

    /** GetSecret and, if it finds none, EnsureSecrets. */
    method CreateSecret(random: Hashes, stop: set<Point>) returns (ok: bool)
      modifies this`secret
      ensures var s := old(View(Some(Run(random, Reading))));
        View(if ok then Some(Run(random, MetaReading)) else None) == Turns(s, stop, if old(secret).None? then 2 else 1)
      ensures ok ==> secret == if old(secret).None? then Some(Secret(random, false, false, false)) else old(secret)
    {
      ghost var s := View(Some(Run(random, Reading)));
      assert Turns(s, stop, 0) == s && Turns(s, stop, 1) == Next(s, Turn(s, stop));
      if Reading in stop {
        return false;
      }
      if secret.None? {
        if Ensuring in stop {
          return false;
        }
        secret := Some(Ensure(secret, random));
      }
      return true;
    }

    method ReconcileSwiftConfMetaData(ghost random: Hashes, stop: set<Point>) returns (ok: bool)
      modifies this`secret
      ensures View(None) == Turns(old(View(Some(Run(random, MetaReading)))), stop, 3)
      ensures ok <==> MetaReading !in stop &&
                      (old(secret).None? || (Labelling !in stop && Finalizing !in stop && MayFinalize(old(secret))))
      ensures secret == if ok && old(secret).Some? then Some(old(secret).value.(held := true)) else old(secret)
    {
      ghost var s := View(Some(Run(random, MetaReading)));
      assert Turns(s, stop, 0) == s && Turns(s, stop, 1) == Next(s, Turn(s, stop));
      assert Turns(s, stop, 2) == Next(Turns(s, stop, 1), Turn(Turns(s, stop, 1), stop));
      if MetaReading in stop {
        return false;
      }
      if secret.None? {
        return true;
      }
      if Labelling in stop || Finalizing in stop {
        return false;
      }
      if secret.value.held {
        assert secret.value.(held := true) == secret.value;
        return true;
      }
      if secret.value.deleting {
        return false;
      }
      secret := Some(secret.value.(held := true));
      return true;
    }

    /** The swift-conf part of reconcileNormal. */
    method ReconcileNormal(random: Hashes, stop: set<Point>) returns (ok: bool)
      requires swift == Alive
      modifies this`secret
      ensures View(None) == Turns(Next(old(View(None)), Begin(random)), stop, 5)
      ensures ok && old(secret).None? ==> secret == Some(Secret(random, true, false, false))
      ensures ok && old(secret).Some? ==> secret == Some(old(secret).value.(held := true))
    {
      ghost var s := Next(View(None), Begin(random));
      ghost var n := if secret.None? then 2 else 1;
      ok := CreateSecret(random, stop);
      if !ok {
        Ended(Turns(s, stop, n), stop, 5 - n);
        TurnsCompose(s, stop, n, 5 - n);
        return;
      }
      ok := ReconcileSwiftConfMetaData(random, stop);
      TurnsCompose(s, stop, n, 3);
      Ended(Turns(s, stop, n + 3), stop, 2 - n);
      TurnsCompose(s, stop, n + 3, 2 - n);
    }

    method ReconcileDelete(stop: set<Point>) returns (ok: bool)
      requires swift == Deleting
      modifies this
      ensures View(None) == Turns(Next(old(View(None)), Begin(Hashes("", ""))), stop, 3)
      ensures ok <==> DeleteReading !in stop && Leaving !in stop && (old(secret).Some? ==> Releasing !in stop)
      ensures ok <==> swift == Gone
      ensures secret ==
              if old(secret).None? || DeleteReading in stop || Releasing in stop then old(secret)
              else if old(secret).value.deleting && !old(secret).value.others then None
              else Some(old(secret).value.(held := false))
      ensures ok && secret.Some? ==> !secret.value.held
    {
      ghost var s := Next(View(None), Begin(Hashes("", "")));
      assert Turns(s, stop, 0) == s && Turns(s, stop, 1) == Next(s, Turn(s, stop));
      assert Turns(s, stop, 2) == Next(Turns(s, stop, 1), Turn(Turns(s, stop, 1), stop));
      if DeleteReading in stop {
        return false;
      }
      if secret.Some? {
        if Releasing in stop {
          return false;
        }
        secret := Collect(secret.value.(held := false));
      }
      if Leaving in stop {
        return false;
      }
      swift := Gone;
      return true;
    }
  }

  // ----- over every run -----

  predicate Protected(s: Sys) { s.secret.Some? && s.secret.value.held }

  predicate At(s: Sys, p: Point) { s.run.Some? && s.run.value.at == p }

  /** Only a Secret that appeared after the read can be in the way of EnsureSecrets, and it is not finalized. */
  predicate Inv(s: Sys) {
    (At(s, Ensuring) ==> !Protected(s)) &&
    (s.run.Some? && s.run.value.at in {DeleteReading, Releasing, Leaving} ==> s.swift == Deleting) &&
    (At(s, Leaving) || s.swift == Gone ==> !Protected(s)) && (s.swift == Gone ==> s.run.None?)
  }

  lemma InvStep(s: Sys, e: Event)
    requires Inv(s)
    ensures Inv(Next(s, e))
  {
  }

  lemma {:induction false} InvTrace(s: Sys, es: seq<Event>)
    requires Inv(s)
    ensures Inv(Trace(s, es))
  {
    if es != [] {
      InvTrace(s, es[..|es|-1]);
      InvStep(Trace(s, es[..|es|-1]), es[|es|-1]);
    }
  }

  /** A swift-conf Secret that is finalized keeps its hashes in every state until Swift is deleted, whatever reconciles,
      restarts and deletion attempts there are. */
  lemma {:induction false} HashesNeverChange(s: Sys, es: seq<Event>)
    requires Inv(s) && Protected(s)
    ensures Trace(s, es).swift == Alive ==>
              Protected(Trace(s, es)) && Trace(s, es).secret.value.hashes == s.secret.value.hashes
  {
    if es != [] {
      HashesNeverChange(s, es[..|es|-1]);
      InvTrace(s, es[..|es|-1]);
    }
  }

  /** The call of reconcileSwiftConfMetaData that returns nil in this state. */
  predicate MetaSucceeds(s: Sys) {
    (At(s, MetaReading) && s.secret.None?) || (At(s, Finalizing) && MayFinalize(s.secret))
  }

  /** Its success protects the Secret if and only if it found one: a missing Secret is a success, too. */
  lemma SuccessProtects(s: Sys)
    requires MetaSucceeds(s)
    ensures Protected(Next(s, Step)) <==> s.secret.Some?
    ensures s.secret.Some? ==> Next(s, Step).secret.value.hashes == s.secret.value.hashes
  {
  }

  /** From any start without a finalized Secret: once reconcileSwiftConfMetaData has succeeded on a Secret, its hashes
      are the same in every later state in which Swift is not deleted; when Swift is gone, the Secret is released. */
  lemma OnceSucceeded(s: Sys, es: seq<Event>, fs: seq<Event>)
    requires s.swift == Alive && s.run.None? && !Protected(s)
    ensures Trace(s, es).swift == Gone ==> !Protected(Trace(s, es))
    ensures var m := Trace(s, es);
      var t := Trace(Next(m, Step), fs);
      MetaSucceeds(m) && m.secret.Some? && t.swift == Alive ==>
        t.secret.Some? && t.secret.value.hashes == m.secret.value.hashes
  {
    InvTrace(s, es);
    var m := Trace(s, es);
    if MetaSucceeds(m) && m.secret.Some? {
      SuccessProtects(m);
      InvStep(m, Step);
      HashesNeverChange(Next(m, Step), fs);
    }
  }

  /** A Secret under deletion gets no new finalizer. */
  lemma NoNewFinalizer(s: Sys)
    requires At(s, Finalizing) && s.secret.Some? && s.secret.value.deleting && !s.secret.value.held
    ensures Next(s, Step) == s.(run := None)
  {
  }

  predicate Undeleted(es: seq<Event>) { DeleteSecret !in es && DeleteSwift !in es }

  predicate Present(s: Sys) { s.secret.Some? && !s.secret.value.deleting }

  /** A Secret that exists, created in advance or not, is never overwritten, unless a reconcile has already found none
      and is about to create it: then it is. */
  lemma {:induction false} ExistingIsKept(s: Sys, es: seq<Event>)
    requires Present(s) && s.swift == Alive && Inv(s) && Undeleted(es)
    ensures !At(s, Ensuring) ==>
              var t := Trace(s, es);
              Present(t) && !At(t, Ensuring) && t.secret.value.hashes == s.secret.value.hashes && t.swift == Alive
    ensures At(s, Ensuring) ==> Next(s, Step).secret.value.hashes == s.run.value.random
  {
    if es != [] {
      assert Undeleted(es[..|es|-1]) && es[|es|-1] in es;
      ExistingIsKept(s, es[..|es|-1]);
      InvTrace(s, es[..|es|-1]);
    }
  }

  /** That happens: a human operator creates the Secret between the read and the create. */
  lemma OverwriteIsReached(random: Hashes, chosen: Hashes)
    ensures var s := Trace(Sys(None, Alive, None), [Begin(random), Step, CreateSecret(chosen)]);
      s.secret == Some(Secret(chosen, false, false, false)) && At(s, Ensuring) &&
      Next(s, Step).secret == Some(Secret(random, false, false, false))
  {
    var s := Sys(None, Alive, None);
    var es := [Begin(random), Step, CreateSecret(chosen)];
    assert es[..2] == [Begin(random), Step] && es[..2][..1] == [Begin(random)] && [Begin(random)][..0] == [];
    assert Trace(s, [Begin(random)]) == Next(s, Begin(random));
    assert Trace(s, es[..2]) == Next(Next(s, Begin(random)), Step);
  }

  /** And a success without a Secret is reached: the Secret is deleted between its creation and the next read. */
  lemma EmptySuccessIsReached(random: Hashes)
    ensures var s := Trace(Sys(None, Alive, None), [Begin(random), Step, Step, DeleteSecret]);
      MetaSucceeds(s) && s.secret.None? && Next(s, Step).run.None? && !Protected(Next(s, Step))
  {
    var s := Sys(None, Alive, None);
    var es := [Begin(random), Step, Step, DeleteSecret];
    assert es[..3] == [Begin(random), Step, Step] && es[..3][..2] == [Begin(random), Step];
    assert es[..3][..2][..1] == [Begin(random)] && [Begin(random)][..0] == [];
    assert Trace(s, [Begin(random)]) == Next(s, Begin(random));
    assert Trace(s, es[..3][..2]) == Next(Next(s, Begin(random)), Step);
    assert Trace(s, es[..3]) == Next(Next(Next(s, Begin(random)), Step), Step);
  }
}
