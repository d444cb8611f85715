/** Admission of Swift updates and ownership of the route timeout (api/v1beta1/swift_webhook.go). */
module Webhook {
  import opened Text
  import opened DeviceList
  import opened DeviceListProperties

  // ----- no scale-in -----

  /** Storage replicas in a spec; None is nil. */
  type Replicas = Option<nat>

  datatype FieldError = ScaleIn(value: nat) | Other(path: string)

  /** nil counts as 0. */
  function Count(r: Replicas): nat { if r.Some? then r.value else 0 }

  /** SwiftSpec.ValidateUpdate; `others` are the topology and override errors. */
  method ValidateUpdate(before: Replicas, after: Replicas, others: seq<FieldError>) returns (allErrs: seq<FieldError>)
    requires forall e | e in others :: e.Other?
    ensures allErrs == [] <==> Admitted(before, after) && others == []
    ensures forall e :: e in allErrs <==> e in others || (e == ScaleIn(Count(after)) && Count(after) < Count(before))
  {
    allErrs := [];
    var zeroVal := 0;
    var oldReplicas := before;
    var newReplicas := after;
    if oldReplicas.None? {
      oldReplicas := Some(zeroVal);
    }
    if newReplicas.None? {
      newReplicas := Some(zeroVal);
    }
    if newReplicas.value < oldReplicas.value {
      allErrs := allErrs + [ScaleIn(newReplicas.value)];
    }
    allErrs := allErrs + others;
  }

  /** What is admitted, in the words of the spec. */
  lemma AdmittedMeans(before: Replicas, after: Replicas)
    ensures before == None ==> Admitted(before, after)
    ensures before.Some? && after.Some? ==> (Admitted(before, after) <==> before.value <= after.value)
    ensures before.Some? && after == None ==> (Admitted(before, after) <==> before.value == 0)
  {
  }

  predicate Admitted(before: Replicas, after: Replicas) { Count(before) <= Count(after) }

  /** The stored replicas of Swift and, once it is created, of its SwiftStorage. */
  datatype Sys = Sys(swift: nat, storage: Option<nat>)

  datatype Event =
    | Update(after: Replicas, valid: bool)  // someone updates Swift; `valid` if nothing else is wrong with it
    | Sync                                  // Swift is reconciled: the replicas are copied

  /** The schemas of Swift and of SwiftStorage replace a missing value before admission. */
  function Defaulted(r: Replicas): nat { if r.Some? then r.value else 1 }

  function Next(s: Sys, e: Event): Sys {
    match e
    case Update(after, valid) =>
      if valid && Admitted(Some(s.swift), Some(Defaulted(after))) then s.(swift := Defaulted(after)) else s
    case Sync => s.(storage := Some(Defaulted(Some(s.swift))))
  }

  function Trace(s: Sys, es: seq<Event>): Sys {
    if es == [] then s else Next(Trace(s, es[..|es|-1]), es[|es|-1])
  }

  /** A missing value is 1, an update is stored or refused as a whole, and a reconcile copies what is stored. */
  lemma OneEvent(s: Sys, r: Replicas)
    ensures Next(s, Update(None, true)) == if s.swift <= 1 then s.(swift := 1) else s
    ensures r.Some? ==> Next(s, Update(r, true)) == if s.swift <= r.value then s.(swift := r.value) else s
    ensures Next(s, Update(r, false)) == s
    ensures Next(s, Sync) == s.(storage := Some(s.swift))
  {
  }

  /** The SwiftStorage has no more replicas than Swift: it was copied from an earlier value, if it exists at all. */
  predicate Copied(s: Sys) { s.storage.Some? ==> s.storage.value <= s.swift }

  /** Over any updates and reconciles neither the replicas of Swift nor those of its SwiftStorage ever fall. */
  lemma {:induction false} NeverScalesIn(s: Sys, es: seq<Event>)
    requires Copied(s)
    ensures var t := Trace(s, es);
      Copied(t) && s.swift <= t.swift &&
      (s.storage.Some? ==> t.storage.Some? && s.storage.value <= t.storage.value)
  {
    if es != [] {
      NeverScalesIn(s, es[..|es|-1]);
    }
  }

  // ----- and therefore the keys of the rings only grow -----

  /** The keys, host name and device, of the persistent volumes in a list. */
  ghost function VolumeKeys(c: Cluster): set<(string, string)>
    requires Ready(c)
  {
    set x | x in StorageRecords(c.w, c.storages.items) :: (x.host, x.device)
  }

  lemma {:induction false} PvRecordListed(w: World, s: Storage, n: nat, k: nat)
    requires ReadyUpTo(w, s, n) && k < n
    ensures ReplicaReady(w, s, k) && PvRecord(w, s, k) in PvRecords(w, s, n)
  {
    if k < n - 1 {
      PvRecordListed(w, s, n - 1, k);
    }
  }

  lemma {:induction false} VolumeListed(w: World, ss: seq<Storage>, s: Storage, k: nat)
    requires StoragesReady(w, ss) && s in ss && k < s.replicas
    ensures ReplicaReady(w, s, k) && PvRecord(w, s, k) in StorageRecords(w, ss)
  {
    var t := ss[|ss|-1];
    assert StorageReady(w, t) && StorageReady(w, s);
    PvRecordListed(w, s, s.replicas, k);
    if s != t {
      VolumeListed(w, ss[..|ss|-1], s, k);
    }
  }

  /** Every storage of ss is in ts with at least as many replicas. */
  predicate Extends(ss: seq<Storage>, ts: seq<Storage>) {
    forall s | s in ss :: exists t | t in ts :: t.name == s.name && s.replicas <= t.replicas
  }

  lemma VolumeKept(c: Cluster, d: Cluster, x: Record) returns (y: Record)
    requires Ready(c) && Ready(d) && c.w.ns == d.w.ns && Extends(c.storages.items, d.storages.items)
    requires x in StorageRecords(c.w, c.storages.items)
    ensures y in StorageRecords(d.w, d.storages.items) && y.host == x.host && y.device == x.device
  {
    StorageRecordOf(c.w, c.storages.items, x);
    var s :| s in c.storages.items && IsVolumeOf(c.w, s, x);
    var k: nat :| k < s.replicas && ReplicaReady(c.w, s, k) && x == PvRecord(c.w, s, k);
    var t :| t in d.storages.items && t.name == s.name && s.replicas <= t.replicas;
    VolumeListed(d.w, d.storages.items, t, k);
    y := PvRecord(d.w, t, k);
  }

  lemma MoreReplicasMoreKeys(c: Cluster, d: Cluster)
    requires Ready(c) && Ready(d) && c.w.ns == d.w.ns && Extends(c.storages.items, d.storages.items)
    ensures VolumeKeys(c) <= VolumeKeys(d)
  {
    forall key | key in VolumeKeys(c) ensures key in VolumeKeys(d) {
      var x :| x in StorageRecords(c.w, c.storages.items) && (x.host, x.device) == key;
      var y := VolumeKept(c, d, x);
    }
  }

  /** The cluster lists the SwiftStorage of this Swift. */
  predicate Lists(c: Cluster, s: Sys, name: string) {
    s.storage.Some? && c.storages == Listed([Storage(name, s.storage.value)])
  }

  /** From the creation of Swift on, over any updates and reconciles, a later list that succeeds has every volume key of
      an earlier one. */
  lemma ListedKeysOnlyGrow(s: Sys, es: seq<Event>, fs: seq<Event>, name: string, c: Cluster, d: Cluster)
    requires s.storage.None?
    requires Ready(c) && Ready(d) && c.w.ns == d.w.ns
    requires Lists(c, Trace(s, es), name) && Lists(d, Trace(Trace(s, es), fs), name)
    ensures VolumeKeys(c) <= VolumeKeys(d)
  {
    NeverScalesIn(s, es);
    NeverScalesIn(Trace(s, es), fs);
    assert d.storages.items[0] in d.storages.items;
    MoreReplicasMoreKeys(c, d);
  }

  // ----- the route timeout -----

  const HAPROXY := "haproxy.router.openshift.io/timeout"
  const FLAG := "api.swift.openstack.org/timeout"

  type Annotations = map<string, string>

  function Timeout(t: int): string { Int(t) + "s" }

  /** The annotation is the timeout in decimal and "s". */
  lemma TimeoutIsDecimal(t: nat)
    ensures var v := Timeout(t);
      |v| > 1 && v[|v|-1] == 's' && Value(v[..|v|-1]) == t && (t > 0 ==> v[0] != '0')
  {
    NatIsDecimal(t);
    assert Timeout(t)[..|Timeout(t)|-1] == Nat(t);
  }

  /** The user has set the timeout and the operator's flag is absent. */
  predicate UserOwned(a: Annotations) { FLAG !in a && HAPROXY in a }

  /** The operator has set the timeout t and flagged it. */
  predicate Managed(a: Annotations, t: int) {
    FLAG in a && HAPROXY in a && a[FLAG] == Timeout(t) && a[HAPROXY] == Timeout(t)
  }

  /** The user has set a timeout, whether the flag of an earlier one is still there or not. */
  predicate SetByUser(a: Annotations) { HAPROXY in a && (FLAG in a ==> a[FLAG] != a[HAPROXY]) }

  function SetDefault(a: Annotations, t: int): Annotations {
    if SetByUser(a) then a - {FLAG} else a[FLAG := Timeout(t)][HAPROXY := Timeout(t)]
  }

  /** The two annotations by name: the user's timeout alone stays; an edited one loses the flag; all else is set. */
  lemma AnnotationsByName(a: Annotations, t: int)
    ensures var user, flag := "haproxy.router.openshift.io/timeout", "api.swift.openstack.org/timeout";
      SetDefault(a, t) ==
        if user in a && flag !in a then a
        else if user in a && a[flag] != a[user] then a - {flag}
        else a[flag := Int(t) + "s"][user := Int(t) + "s"]
  {
    if HAPROXY in a && FLAG !in a {
      assert a - {FLAG} == a;
    }
  }

  class Route {
    var annotations: Annotations

    method SetDefaultRouteAnnotations(apiTimeout: int)
      modifies this
      ensures annotations == SetDefault(old(annotations), apiTimeout)
    {
      var okSwift := FLAG in annotations;
      var okHAProxy := HAPROXY in annotations;
      if !okSwift && okHAProxy {
        assert annotations - {FLAG} == annotations;
        return;
      }
      if okSwift && okHAProxy && annotations[FLAG] != annotations[HAPROXY] {
        annotations := annotations - {FLAG};
        return;
      }
      var timeout := Int(apiTimeout) + "s";
      annotations := annotations[FLAG := timeout];
      annotations := annotations[HAPROXY := timeout];
    }
  }

  /** A call ends user-owned, with the user's value, or managed; it decides by who set the value, it is idempotent, and
      it leaves every other annotation alone. */
  lemma CallSettles(a: Annotations, t: int)
    ensures var r := SetDefault(a, t);
      (if SetByUser(a) then UserOwned(r) && r[HAPROXY] == a[HAPROXY] else Managed(r, t)) &&
      SetDefault(r, t) == r && r - {FLAG, HAPROXY} == a - {FLAG, HAPROXY}
  {
    var r := SetDefault(a, t);
    assert FLAG[0] != HAPROXY[0];
    if SetByUser(a) {
      assert r - {FLAG} == r;
    } else {
      assert SetDefault(r, t) == r;
    }
    assert r - {FLAG, HAPROXY} == a - {FLAG, HAPROXY};
  }

  datatype Edit =
    | Call(t: int)
    | Annotate(key: string, value: string)
    | Unannotate(key: string)

  function Edited(a: Annotations, e: Edit): Annotations {
    match e
    case Call(t) => SetDefault(a, t)
    case Annotate(k, v) => a[k := v]
    case Unannotate(k) => a - {k}
  }

  function Edits(a: Annotations, es: seq<Edit>): Annotations {
    if es == [] then a else Edited(Edits(a, es[..|es|-1]), es[|es|-1])
  }

  /** The user leaves the timeout alone and does not set the operator's flag. */
  predicate Spares(es: seq<Edit>) {
    forall e | e in es ::
      (e.Annotate? ==> e.key != HAPROXY && e.key != FLAG) && (e.Unannotate? ==> e.key != HAPROXY)
  }

  /** A user-owned timeout survives any calls and any other edits. */
  lemma {:induction false} UserOwnedSurvives(a: Annotations, es: seq<Edit>)
    requires UserOwned(a) && Spares(es)
    ensures UserOwned(Edits(a, es)) && Edits(a, es)[HAPROXY] == a[HAPROXY]
  {
    if es != [] {
      var front, e := es[..|es|-1], es[|es|-1];
      assert e in es && forall x | x in front :: x in es;
      UserOwnedSurvives(a, front);
      if e.Call? {
        CallSettles(Edits(a, front), e.t);
      }
    }
  }

  predicate OnlyCalls(es: seq<Edit>) { forall e | e in es :: e.Call? }

  lemma {:induction false} ManagedFollows(a: Annotations, t: int, es: seq<Edit>)
    requires Managed(a, t) && OnlyCalls(es)
    ensures Managed(Edits(a, es), if es == [] then t else es[|es|-1].t)
  {
    if es != [] {
      var front, e := es[..|es|-1], es[|es|-1];
      assert e in es && forall x | x in front :: x in es;
      ManagedFollows(a, t, front);
      CallSettles(Edits(a, front), e.t);
    }
  }

  lemma TakenOver(a: Annotations, t: int, v: string)
    requires Managed(a, t)
    ensures if v == Timeout(t) then a[HAPROXY := v] == a
            else SetByUser(a[HAPROXY := v]) && a[HAPROXY := v][HAPROXY] == v
  {
    assert FLAG[0] != HAPROXY[0];
  }

  /** A user takes a managed timeout over by setting another value; setting the value it already has does not. */
  lemma TakeOver(a: Annotations, b: Annotations, t: int, v: string, es: seq<Edit>)
    requires Managed(a, t) && b == a[HAPROXY := v] && OnlyCalls(es) && es != []
    ensures v != Timeout(t) ==> UserOwned(Edits(b, es)) && Edits(b, es)[HAPROXY] == v
    ensures v == Timeout(t) ==> Managed(Edits(b, es), es[|es|-1].t)
  {
    TakenOver(a, t, v);
    if v == Timeout(t) {
      ManagedFollows(b, t, es);
    } else {
      SurvivesTakeOver(b, es);
    }
  }

  lemma {:induction false} SurvivesTakeOver(b: Annotations, es: seq<Edit>)
    requires SetByUser(b) && OnlyCalls(es) && es != []
    ensures UserOwned(Edits(b, es)) && Edits(b, es)[HAPROXY] == b[HAPROXY]
  {
    var front, e := es[..|es|-1], es[|es|-1];
    assert e in es && forall x | x in front :: x in es;
    if front != [] {
      SurvivesTakeOver(b, front);
    }
    CallSettles(Edits(b, front), e.t);
  }
}
