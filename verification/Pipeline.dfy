/** From the cluster to the published rings: DeviceList, the read loop and swift-ring-tool composed. */
module Pipeline {
  import opened Text
  import opened DeviceList
  import opened DeviceListProperties
  import opened ReadBack
  import opened ReadLoop
  import opened RingBuilder
  import opened RingTool
  import opened RingProtocol

  // ----- the fields of a sane cluster are single words -----

  /** No name in the cluster contains a blank, a newline or a backslash; inside node names a blank does no harm. */
  predicate CleanStorages(c: Cluster) {
    Free(c.w.ns, SPECIAL) &&
    (c.storages.Listed? ==> forall s | s in c.storages.items :: Free(s.name, SPECIAL)) &&
    forall n | n in c.w.pods && c.w.pods[n].Found? :: LastWord(c.w.pods[n].value)
  }

  predicate CleanDisks(v: DiskVar) { v.Disks? ==> forall d | d in v.disks :: Free(d.path, SPECIAL) }

  predicate CleanInventory(g: Inventory) {
    g.Group? ==> CleanDisks(g.disks) && forall h | h in g.hosts :: Free(h, SPECIAL) && CleanDisks(g.hosts[h])
  }

  predicate CleanCluster(c: Cluster) {
    CleanStorages(c) && (c.inventories.Listed? ==> forall g | g in c.inventories.items :: CleanInventory(g))
  }

  lemma CleanNat(n: nat)
    ensures CleanWord(Nat(n))
  {
    assert Free(DIGITS, SPECIAL);
  }

  lemma CleanInt(n: int)
    ensures CleanWord(Int(n))
  {
    CleanNat(if n < 0 then -n else n);
  }

  lemma {:induction false} CleanBase(path: string)
    requires Free(path, SPECIAL)
    ensures CleanWord(Base(path))
  {
    CleanStrip(path);
    var p := StripSlashes(path);
    if p != "" {
      CleanTail(p);
    }
  }

  lemma {:induction false} CleanStrip(p: string)
    requires Free(p, SPECIAL)
    ensures Free(StripSlashes(p), SPECIAL)
    ensures StripSlashes(p) == "" || StripSlashes(p)[|StripSlashes(p)|-1] != '/'
  {
    if p != "" && p[|p|-1] == '/' {
      CleanStrip(p[..|p|-1]);
    }
  }

  lemma {:induction false} CleanTail(p: string)
    requires Free(p, SPECIAL)
    ensures Free(AfterLastSlash(p), SPECIAL) && (p != "" && p[|p|-1] != '/' ==> AfterLastSlash(p) != "")
  {
    if p != "" && p[|p|-1] != '/' {
      CleanTail(p[..|p|-1]);
      assert p[|p|-1] in p;
    }
  }

  lemma CleanPvHost(ns: string, name: string, k: nat)
    requires Free(ns, SPECIAL) && Free(name, SPECIAL)
    ensures CleanWord(PvHost(ns, name, k))
  {
    CleanNat(k);
    assert Free("-", SPECIAL) && Free(".", SPECIAL) && Free(".svc", SPECIAL);
  }

  lemma FiveWords(x: Record)
    requires CleanWord(x.region) && CleanWord(x.zone) && CleanWord(x.host) && CleanWord(x.device) && CleanWord(x.weight)
    requires LastWord(x.node)
    ensures Exact(x)
  {
  }

  lemma VolumeIsExact(c: Cluster, s: Storage, x: Record)
    requires CleanStorages(c) && c.storages.Listed? && s in c.storages.items && IsVolumeOf(c.w, s, x)
    ensures Exact(x) && x.host != ""
  {
    var k: nat :| k < s.replicas && ReplicaReady(c.w, s, k) && x == PvRecord(c.w, s, k);
    CleanPvHost(c.w.ns, s.name, k);
    CleanInt(Quot(DeviceList.Get(c.w.claims, ClaimName(s, k)).value.capacity, GIGA));
    assert CleanWord("1") && CleanWord("pv");
    FiveWords(x);
  }

  lemma CleanDataplaneHost(node: string)
    requires Free(node, SPECIAL)
    ensures CleanWord(DataplaneHost(node))
  {
    assert Free(".", SPECIAL) && Free(DATAPLANE_DOMAIN, SPECIAL);
  }

  lemma DiskIsExact(g: Inventory, x: Record)
    requires CleanInventory(g) && IsDiskOf(g, x)
    ensures Exact(x) && x.host != ""
  {
    var h, d :| h in g.hosts && d in EffectiveDisks(g.disks, g.hosts[h]) && x == DiskRecord(h, d);
    CleanInt(d.region);
    CleanInt(d.zone);
    CleanInt(d.weight);
    CleanDataplaneHost(h);
    CleanBase(d.path);
    FiveWords(x);
  }

  lemma RecordsAreExact(c: Cluster)
    requires Ready(c) && CleanCluster(c)
    ensures forall x | x in Records(c) :: Exact(x) && x.host != ""
  {
    forall x | x in Records(c) ensures Exact(x) && x.host != "" {
      if x in StorageRecords(c.w, c.storages.items) {
        StorageRecordOf(c.w, c.storages.items, x);
        var s :| s in c.storages.items && IsVolumeOf(c.w, s, x);
        VolumeIsExact(c, s, x);
      } else {
        InventoryRecordOf(c.inventories.items, x);
        var g :| g in c.inventories.items && IsDiskOf(g, x);
        DiskIsExact(g, x);
      }
    }
  }

  /** The tool reads exactly the records of the cluster. */
  lemma ClusterRoundTrip(c: Cluster)
    requires Ready(c) && CleanCluster(c)
    ensures multiset(ReadAll(DeviceText(Records(c)))) == Records(c)
  {
    RecordsAreExact(c);
    RoundTrip(Records(c));
  }

  // ----- the published rings -----

  ghost function RecordKeys(rs: multiset<Record>): set<Key> { set x | x in rs :: (x.host, x.device) }

  lemma KeysOfList(rs: seq<Record>)
    ensures ListKeys(rs) == RecordKeys(multiset(rs))
  {
    forall k | k in RecordKeys(multiset(rs)) ensures k in ListKeys(rs) {
      var x :| x in multiset(rs) && (x.host, x.device) == k;
      var i :| 0 <= i < |rs| && rs[i] == x;
    }
    forall i | 0 <= i < |rs| ensures (rs[i].host, rs[i].device) in RecordKeys(multiset(rs)) {
      assert rs[i] in multiset(rs);
    }
  }

  /** This run was started with the list of the cluster. */
  ghost predicate RunsFor(c: Cluster, i: Inputs) { Ready(c) && i.devices == DeviceText(Records(c)) }

  /**
   * An effective run for the list of a cluster: in each of the three published builders the keys are those before and
   * those of the cluster's volumes and disks, each exactly once, and no earlier device has changed.
   */
  lemma ClusterReachesRings(c: Cluster, s: Server, i: Inputs, f: string)
    requires CleanCluster(c) && WellFormed(s.cm) && f in RINGS
    ensures var t := AllOnce(s, i);
      RunsFor(c, i) && t != s ==>
        Keys(DevsOf(t.cm, f)) == Keys(DevsOf(s.cm, f)) + RecordKeys(Records(c)) && UniqueKeys(DevsOf(t.cm, f)) &&
        DevsOf(s.cm, f) <= DevsOf(t.cm, f)
  {
    if RunsFor(c, i) && AllOnce(s, i) != s {
      ListNamesHosts(c, i);
      ClusterRoundTrip(c);
      KeysOfList(ReadAll(i.devices));
      EffectiveRunKeys(s, i, f);
      EffectiveRun(s, i);
      EffectiveBuilder(s, i, f);
    }
  }

  /** Position k of the published builder holds a device that this run added. */
  predicate Added(s: Server, i: Inputs, f: string, k: nat) {
    AllOnce(s, i) != s && |DevsOf(s.cm, f)| <= k < |DevsOf(AllOnce(s, i).cm, f)|
  }

  lemma PublishedTable(s: Server, i: Inputs, f: string)
    requires WellFormed(s.cm) && NamesHosts(i) && f in RINGS && AllOnce(s, i) != s
    ensures DevsOf(AllOnce(s, i).cm, f) == AddAll(DevsOf(s.cm, f), ReadAll(i.devices), Port(f))
  {
    EffectiveBuilder(s, i, f);
    FetchedBuilders(s.cm);
  }

  lemma AddedDeviceIsListed(s: Server, i: Inputs, f: string, k: nat) returns (x: Record)
    requires WellFormed(s.cm) && NamesHosts(i) && f in RINGS
    ensures Added(s, i, f, k) ==>
              x in ReadAll(i.devices) && DevsOf(AllOnce(s, i).cm, f)[k] == Some(NewDev(x, Port(f)))
  {
    x := Record("", "", "", "", "", "");
    if Added(s, i, f, k) {
      PublishedTable(s, i, f);
      x := AddedFrom(DevsOf(s.cm, f), ReadAll(i.devices), Port(f), k);
    }
  }

  /** A device that a run adds has the fields of a record of the cluster, the node name as its meta. */
  lemma AddedDeviceIsOfCluster(c: Cluster, s: Server, i: Inputs, f: string, k: nat) returns (x: Record)
    requires CleanCluster(c) && WellFormed(s.cm) && f in RINGS
    ensures RunsFor(c, i) && Added(s, i, f, k) ==>
              x in Records(c) && DevsOf(AllOnce(s, i).cm, f)[k] ==
              Some(Dev(x.region, x.zone, x.host, Port(f), x.device, x.weight, x.node))
  {
    x := Record("", "", "", "", "", "");
    if RunsFor(c, i) && Added(s, i, f, k) {
      ListNamesHosts(c, i);
      x := AddedDeviceIsListed(s, i, f, k);
      ClusterRoundTrip(c);
      assert x in multiset(ReadAll(i.devices));
    }
  }

  /** A push in a race that takes effect is the undisturbed run. */
  lemma PushedIsAllOnce(s: Sys, r: nat, i: Inputs, arrives: bool)
    requires Inv(s)
    ensures var t := Next(s, Push(r, i, arrives));
      Inv(t) && (t.server != s.server ==> t.server == AllOnce(s.server, i))
  {
    InvStep(s, Push(r, i, arrives));
    if Next(s, Push(r, i, arrives)).server != s.server {
      assert DirInv(s.server, s.runs[r]);
      PrepareKeepsBase(s.runs[r], i);
    }
  }

  /** In the directory w, before and after a run: how rebalance and the ring services know the record x. */
  predicate BalancedByNode(w: Dir, j: Inputs, f: string, k: nat, x: Record) {
    f in w.builders && k < |w.builders[f].devs| && w.builders[f].devs[k].Some? &&
    w.builders[f].devs[k].value.ip == x.host && w.builders[f].devs[k].value.device == x.device &&
    f in Updated(w, j).builders && k < |RebalanceTable(w, j, f)| && RebalanceTable(w, j, f)[k].Some? &&
    RebalanceTable(w, j, f)[k].value.ip == (if x.device == "pv" && x.node != "" then x.node else x.host) &&
    match Prepare(w, j)
    case None => true
    case Some(p) => f in p.builders && k < |p.builders[f].devs| && p.builders[f].devs[k] == w.builders[f].devs[k]
  }

  lemma PublishedIsBalanced(t: Sys, later: seq<Step>, j: Inputs, f: string, k: nat, x: Record)
    requires Inv(t) && WellFormed(t.server.cm) && Peaceful(later) && NamesHosts(j)
    requires k < |DevsOf(t.server.cm, f)|
    requires DevsOf(t.server.cm, f)[k] == Some(Dev(x.region, x.zone, x.host, Port(f), x.device, x.weight, x.node))
    ensures BalancedByNode(Fetch(Trace(t, later).server.cm), j, f, k, x)
  {
    PublishedStays(t, later, f, k);
    NodesForRebalance(t, later, j, f, k, DevsOf(t.server.cm, f)[k].value);
    FetchedBuilders(Trace(t, later).server.cm);
  }

  lemma AfterPush(c: Cluster, s: Server, t: Sys, i: Inputs, f: string, k: nat, later: seq<Step>, j: Inputs)
    returns (x: Record)
    requires CleanCluster(c) && WellFormed(s.cm) && f in RINGS && Peaceful(later) && NamesHosts(j) && Inv(t)
    ensures RunsFor(c, i) && Added(s, i, f, k) && t.server == AllOnce(s, i) ==>
              x in Records(c) && BalancedByNode(Fetch(Trace(t, later).server.cm), j, f, k, x)
  {
    x := AddedDeviceIsOfCluster(c, s, i, f, k);
    if RunsFor(c, i) && Added(s, i, f, k) && t.server == AllOnce(s, i) {
      ListNamesHosts(c, i);
      EffectiveRun(s, i);
      PublishedIsBalanced(t, later, j, f, k, x);
    }
  }

  /**
   * A volume that a run in a race adds: it is published under its host name, and every run after any peaceful
   * continuation rebalances it by the node of its pod and pushes it under its host name again.
   */
  lemma VolumeBalancedByNode(c: Cluster, s: Sys, r: nat, i: Inputs, arrives: bool, f: string, k: nat,
                             later: seq<Step>, j: Inputs)
    returns (x: Record)
    requires CleanCluster(c) && WellFormed(s.server.cm) && Inv(s) && f in RINGS && Peaceful(later) && NamesHosts(j)
    ensures var t := Next(s, Push(r, i, arrives));
      RunsFor(c, i) && t.server != s.server && |DevsOf(s.server.cm, f)| <= k < |DevsOf(t.server.cm, f)| ==>
        x in Records(c) && BalancedByNode(Fetch(Trace(t, later).server.cm), j, f, k, x)
  {
    var t := Next(s, Push(r, i, arrives));
    x := Record("", "", "", "", "", "");
    if RunsFor(c, i) && t.server != s.server && |DevsOf(s.server.cm, f)| <= k < |DevsOf(t.server.cm, f)| {
      PushedIsAllOnce(s, r, i, arrives);
      x := AfterPush(c, s.server, t, i, f, k, later, j);
    }
  }

  lemma ListNamesHosts(c: Cluster, i: Inputs)
    requires CleanCluster(c) && RunsFor(c, i)
    ensures NamesHosts(i)
  {
    ClusterRoundTrip(c);
    RecordsAreExact(c);
    forall r | r in ReadAll(i.devices) ensures r.host != "" {
      assert r in multiset(ReadAll(i.devices));
    }
  }

  /** Every volume of every storage is in every published builder. */
  lemma EveryVolumeIsPublished(c: Cluster, s: Server, i: Inputs, f: string, st: Storage, k: nat)
    requires CleanCluster(c) && WellFormed(s.cm) && f in RINGS && k < st.replicas
    requires c.storages.Listed? && DistinctNames(c.storages.items) && st in c.storages.items
    ensures RunsFor(c, i) && AllOnce(s, i) != s ==>
              (PvHost(c.w.ns, st.name, k), "pv") in Keys(DevsOf(AllOnce(s, i).cm, f))
  {
    ClusterReachesRings(c, s, i, f);
    if RunsFor(c, i) {
      VolumeHasOneLine(c, st, k);
      assert PvRecord(c.w, st, k) in Records(c);
    }
  }

  // ----- running again -----

  lemma {:induction false} AddKnown(devs: seq<Option<Dev>>, rs: seq<Record>, port: nat)
    requires ListKeys(rs) <= Keys(devs)
    ensures AddAll(devs, rs, port) == devs
  {
    if rs != [] {
      var front, r := rs[..|rs|-1], rs[|rs|-1];
      assert rs == front + [r];
      ListKeysSnoc(front, r);
      AddKnown(devs, front, port);
    }
  }

  /** A later run with the same list finds every device and leaves the device tables as they are. */
  lemma SecondRunAddsNothing(s: Server, i: Inputs, j: Inputs, f: string)
    requires WellFormed(s.cm) && NamesHosts(i) && i.devices == j.devices && f in RINGS
    ensures var t := AllOnce(s, i);
      t != s ==> DevsOf(AllOnce(t, j).cm, f) == DevsOf(t.cm, f)
  {
    var t := AllOnce(s, i);
    if t != s && AllOnce(t, j) != t {
      EffectiveRun(s, i);
      EffectiveRunKeys(s, i, f);
      EffectiveBuilder(s, i, f);
      EffectiveBuilder(t, j, f);
      AddKnown(DevsOf(t.cm, f), ReadAll(j.devices), Port(f));
      EffectiveRunPublishes(t, j);
    }
  }
}
