/** What the published list is for: it is canonical, complete, and its volume keys are distinct. */
module DeviceListProperties {
  import opened Text
  import opened DeviceList

  // ----- listing order -----

  ghost function Volumes(w: World, ss: seq<Storage>): multiset<Record>
    requires StoragesReady(w, ss)
  {
    multiset(StorageRecords(w, ss))
  }

  ghost function VolumesOf(w: World, s: Storage): multiset<Record>
    requires StorageReady(w, s)
  {
    multiset(PvRecords(w, s, s.replicas))
  }

  lemma VolumesSnoc(w: World, ss: seq<Storage>, s: Storage)
    requires StoragesReady(w, ss) && StorageReady(w, s)
    ensures StoragesReady(w, ss + [s]) && Volumes(w, ss + [s]) == Volumes(w, ss) + VolumesOf(w, s)
  {
    assert (ss + [s])[..|ss|] == ss;
  }

  lemma {:induction false} VolumesMiddle(w: World, a: seq<Storage>, x: Storage, b: seq<Storage>)
    requires StoragesReady(w, a) && StorageReady(w, x) && StoragesReady(w, b)
    ensures StoragesReady(w, a + [x] + b) && StoragesReady(w, a + b)
    ensures Volumes(w, a + [x] + b) == Volumes(w, a + b) + VolumesOf(w, x)
  {
    if b == [] {
      assert a + [x] + b == a + [x] && a + b == a;
      VolumesSnoc(w, a, x);
    } else {
      var front, y := b[..|b|-1], b[|b|-1];
      assert a + [x] + b == (a + [x] + front) + [y] && a + b == (a + front) + [y];
      VolumesMiddle(w, a, x, front);
      VolumesSnoc(w, a + [x] + front, y);
      VolumesSnoc(w, a + front, y);
    }
  }

  lemma {:induction false} VolumesOrder(w: World, r: seq<Storage>, s: seq<Storage>)
    requires multiset(r) == multiset(s) && StoragesReady(w, r) && StoragesReady(w, s)
    ensures Volumes(w, r) == Volumes(w, s)
    decreases |r|
  {
    assert |r| == |multiset(r)| == |multiset(s)| == |s|;
    if r != [] {
      var front, x := r[..|r|-1], r[|r|-1];
      assert r == front + [x];
      assert x in multiset(s);
      var a, b := Split(s, x);
      assert multiset(front) == multiset(r) - multiset{x};
      VolumesMiddle(w, a, x, b);
      VolumesOrder(w, front, a + b);
      VolumesSnoc(w, front, x);
    }
  }

  lemma InventoryRecordsSnoc(gs: seq<Inventory>, g: Inventory)
    ensures InventoryRecords(gs + [g]) == InventoryRecords(gs) + GroupRecords(g)
  {
    assert (gs + [g])[..|gs|] == gs;
  }

  lemma {:induction false} InventoryRecordsMiddle(a: seq<Inventory>, x: Inventory, b: seq<Inventory>)
    ensures InventoryRecords(a + [x] + b) == InventoryRecords(a + b) + GroupRecords(x)
  {
    if b == [] {
      assert a + [x] + b == a + [x] && a + b == a;
      InventoryRecordsSnoc(a, x);
    } else {
      var front, y := b[..|b|-1], b[|b|-1];
      assert a + [x] + b == (a + [x] + front) + [y] && a + b == (a + front) + [y];
      InventoryRecordsMiddle(a, x, front);
      InventoryRecordsSnoc(a + [x] + front, y);
      InventoryRecordsSnoc(a + front, y);
    }
  }

  lemma {:induction false} InventoryOrder(r: seq<Inventory>, s: seq<Inventory>)
    requires multiset(r) == multiset(s)
    ensures InventoryRecords(r) == InventoryRecords(s)
    decreases |r|
  {
    assert |r| == |multiset(r)| == |multiset(s)| == |s|;
    if r != [] {
      var front, x := r[..|r|-1], r[|r|-1];
      assert r == front + [x];
      assert x in multiset(s);
      var a, b := Split(s, x);
      assert multiset(front) == multiset(r) - multiset{x};
      InventoryOrder(front, a + b);
      InventoryRecordsMiddle(a, x, b);
      InventoryRecordsSnoc(front, x);
    }
  }

  /** Reordering what the API server lists changes neither success nor the text, hence not its hash. */
  lemma ListingOrderIrrelevant(c: Cluster, d: Cluster)
    requires c.w == d.w && c.storages.Listed? && d.storages.Listed? && c.inventories.Listed? && d.inventories.Listed?
    requires multiset(c.storages.items) == multiset(d.storages.items)
    requires multiset(c.inventories.items) == multiset(d.inventories.items)
    ensures Ready(c) <==> Ready(d)
    ensures Ready(c) ==> Records(c) == Records(d) && DeviceText(Records(c)) == DeviceText(Records(d))
  {
    assert forall s :: s in c.storages.items <==> s in multiset(d.storages.items);
    assert forall s :: s in d.storages.items <==> s in multiset(c.storages.items);
    assert forall g :: g in c.inventories.items <==> g in multiset(d.inventories.items);
    assert forall g :: g in d.inventories.items <==> g in multiset(c.inventories.items);
    if Ready(c) {
      VolumesOrder(c.w, c.storages.items, d.storages.items);
      InventoryOrder(c.inventories.items, d.inventories.items);
    }
  }

  // ----- volume keys -----

  lemma LongerNameClashes(ns: string, m: string, i: nat, n: string, j: nat)
    requires |m| < |n|
    ensures PvHost(ns, m, i) != PvHost(ns, n, j)
  {
    var a, b := PvHost(ns, m, i), PvHost(ns, n, j);
    if a == b {
      assert |Nat(i)| == 2 * (|n| - |m|) + |Nat(j)|;
      var p := |n| - |m| - 1;
      assert b[|n|] == '-';
      assert a[|n|] == Nat(i)[p] && Nat(i)[p] in Nat(i);
      NoDash();
    }
  }

  lemma NoDash()
    ensures '-' !in DIGITS
  {
  }

  /** Two volumes share a host name only if they are the same volume, whatever the storage names are. */
  lemma PvHostInjective(ns: string, m: string, i: nat, n: string, j: nat)
    requires PvHost(ns, m, i) == PvHost(ns, n, j)
    ensures m == n && i == j
  {
    if |m| < |n| {
      LongerNameClashes(ns, m, i, n, j);
    } else if |n| < |m| {
      LongerNameClashes(ns, n, j, m, i);
    }
    SameLength(ns, m, i, n, j);
    NatInjective(i, j);
  }

  lemma CancelLeft(a: string, x: string, b: string, y: string)
    requires a + x == b + y && |a| == |b|
    ensures a == b && x == y
  {
    assert a == (a + x)[..|a|] && b == (b + y)[..|b|];
    assert x == (a + x)[|a|..] && y == (b + y)[|b|..];
  }

  lemma PvHostParts(ns: string, m: string, i: nat)
    ensures PvHost(ns, m, i) == (m + "-") + (Nat(i) + ("." + m + "." + ns + ".svc"))
  {
  }

  lemma SameLength(ns: string, m: string, i: nat, n: string, j: nat)
    requires |m| == |n| && PvHost(ns, m, i) == PvHost(ns, n, j)
    ensures m == n && Nat(i) == Nat(j)
  {
    var x, y := "." + m + "." + ns + ".svc", "." + n + "." + ns + ".svc";
    PvHostParts(ns, m, i);
    PvHostParts(ns, n, j);
    CancelLeft(m + "-", Nat(i) + x, n + "-", Nat(j) + y);
    CancelLeft(m, "-", n, "-");
    CancelLeft(Nat(i), x, Nat(j), y);
  }

  lemma HostsDisjoint(ns: string, name: string, replica: nat, node: string)
    ensures PvHost(ns, name, replica) != DataplaneHost(node)
  {
    var a, b := PvHost(ns, name, replica), DataplaneHost(node);
    assert a[|a|-1] == 'c' && b[|b|-1] == 'm';
  }

  predicate DistinctNames(ss: seq<Storage>) {
    forall i, j | 0 <= i < j < |ss| :: ss[i].name != ss[j].name
  }

  lemma SameVolume(w: World, s: Storage, i: nat, name: string, k: nat, x: Record)
    requires ReplicaReady(w, s, i) && x.host == PvHost(w.ns, name, k)
    requires s.name == name ==> ReplicaReady(w, s, k) && x == PvRecord(w, s, k)
    ensures PvRecord(w, s, i) == x <==> s.name == name && i == k
  {
    if PvRecord(w, s, i) == x {
      PvHostInjective(w.ns, s.name, i, name, k);
    }
  }

  lemma OneMoreCounted(w: World, s: Storage, n: nat, x: Record)
    requires n > 0 && ReadyUpTo(w, s, n)
    ensures multiset(PvRecords(w, s, n))[x] ==
            multiset(PvRecords(w, s, n - 1))[x] + if PvRecord(w, s, n - 1) == x then 1 else 0
  {
    CountSnoc(PvRecords(w, s, n - 1), PvRecord(w, s, n - 1), x);
  }

  lemma {:induction false} CountInStorage(w: World, s: Storage, n: nat, name: string, replica: nat, x: Record)
    requires ReadyUpTo(w, s, n) && x.host == PvHost(w.ns, name, replica)
    requires s.name == name ==> ReplicaReady(w, s, replica) && x == PvRecord(w, s, replica)
    ensures multiset(PvRecords(w, s, n))[x] == if s.name == name && replica < n then 1 else 0
  {
    if n > 0 {
      CountInStorage(w, s, n - 1, name, replica, x);
      SameVolume(w, s, n - 1, name, replica, x);
      OneMoreCounted(w, s, n, x);
    }
  }

  lemma CountSnoc(rs: seq<Record>, r: Record, x: Record)
    ensures multiset(rs + [r])[x] == multiset(rs)[x] + if r == x then 1 else 0
  {
  }

  lemma {:induction false} CountInStorages(w: World, ss: seq<Storage>, s: Storage, replica: nat, x: Record)
    requires StoragesReady(w, ss) && DistinctNames(ss)
    requires StorageReady(w, s) && replica < s.replicas && x.host == PvHost(w.ns, s.name, replica)
    requires ReplicaReady(w, s, replica) && x == PvRecord(w, s, replica)
    requires forall t | t in ss && t.name == s.name :: t == s
    ensures multiset(StorageRecords(w, ss))[x] == if s in ss then 1 else 0
  {
    if ss != [] {
      var l, t := |ss| - 1, ss[|ss|-1];
      assert StorageReady(w, t) && ss == ss[..l] + [t];
      CountInStorages(w, ss[..l], s, replica, x);
      CountInStorage(w, t, t.replicas, s.name, replica, x);
    }
  }

  lemma {:induction false} DiskRecordOf(host: string, disks: seq<Disk>, x: Record)
    requires x in DiskRecords(host, disks)
    ensures exists d | d in disks :: x == DiskRecord(host, d)
  {
    var l := |disks| - 1;
    if x in DiskRecords(host, disks[..l]) {
      DiskRecordOf(host, disks[..l], x);
    }
  }

  /** x is the record of an effective disk of a host of a node set that deploys Swift. */
  ghost predicate IsDiskOf(g: Inventory, x: Record) {
    DeploysSwift(g) && exists h, d | h in g.hosts && d in EffectiveDisks(g.disks, g.hosts[h]) :: x == DiskRecord(h, d)
  }

  lemma {:induction false} HostRecordOf(global: DiskVar, hosts: map<string, DiskVar>, x: Record)
    requires x in HostRecords(global, hosts)
    ensures exists h, d | h in hosts && d in EffectiveDisks(global, hosts[h]) :: x == DiskRecord(h, d)
    decreases |hosts|
  {
    var k := PickHost(hosts);
    if x in DiskRecords(k, EffectiveDisks(global, hosts[k])) {
      DiskRecordOf(k, EffectiveDisks(global, hosts[k]), x);
    } else {
      HostRecordOf(global, hosts - {k}, x);
    }
  }

  lemma {:induction false} InventoryRecordOf(gs: seq<Inventory>, x: Record)
    requires x in InventoryRecords(gs)
    ensures exists g | g in gs :: IsDiskOf(g, x)
  {
    var l, g := |gs| - 1, gs[|gs|-1];
    if x in GroupRecords(g) {
      HostRecordOf(g.disks, g.hosts, x);
      assert IsDiskOf(g, x);
    } else {
      InventoryRecordOf(gs[..l], x);
    }
  }

  lemma {:induction false} PvRecordOf(w: World, s: Storage, n: nat, x: Record)
    requires ReadyUpTo(w, s, n) && x in PvRecords(w, s, n)
    ensures exists k: nat | k < n :: ReplicaReady(w, s, k) && x == PvRecord(w, s, k)
  {
    if x in PvRecords(w, s, n - 1) {
      PvRecordOf(w, s, n - 1, x);
    }
  }

  ghost predicate IsVolumeOf(w: World, s: Storage, x: Record) {
    exists k: nat | k < s.replicas :: ReplicaReady(w, s, k) && x == PvRecord(w, s, k)
  }

  lemma {:induction false} StorageRecordOf(w: World, ss: seq<Storage>, x: Record)
    requires StoragesReady(w, ss) && x in StorageRecords(w, ss)
    ensures exists s | s in ss :: IsVolumeOf(w, s, x)
  {
    var l, s := |ss| - 1, ss[|ss|-1];
    assert StorageReady(w, s);
    if x in PvRecords(w, s, s.replicas) {
      PvRecordOf(w, s, s.replicas, x);
    } else {
      StorageRecordOf(w, ss[..l], x);
    }
  }

  /** Every volume has exactly one line, and every line is a volume's or an effective dataplane disk's. */
  lemma ListIsComplete(c: Cluster)
    requires Ready(c) && DistinctNames(c.storages.items)
    ensures forall s, k: nat | s in c.storages.items && k < s.replicas ::
      ReplicaReady(c.w, s, k) && Records(c)[PvRecord(c.w, s, k)] == 1
    ensures forall x | x in Records(c) ::
      (exists s | s in c.storages.items :: IsVolumeOf(c.w, s, x)) ||
      (exists g | g in c.inventories.items :: IsDiskOf(g, x))
  {
    forall s, k: nat | s in c.storages.items && k < s.replicas
      ensures ReplicaReady(c.w, s, k) && Records(c)[PvRecord(c.w, s, k)] == 1
    {
      VolumeHasOneLine(c, s, k);
    }
    forall x | x in Records(c)
      ensures (exists s | s in c.storages.items :: IsVolumeOf(c.w, s, x)) ||
              (exists g | g in c.inventories.items :: IsDiskOf(g, x))
    {
      if x in StorageRecords(c.w, c.storages.items) {
        StorageRecordOf(c.w, c.storages.items, x);
      } else {
        InventoryRecordOf(c.inventories.items, x);
      }
    }
  }

  lemma VolumeHasOneLine(c: Cluster, s: Storage, k: nat)
    requires Ready(c) && DistinctNames(c.storages.items) && s in c.storages.items && k < s.replicas
    ensures ReplicaReady(c.w, s, k) && Records(c)[PvRecord(c.w, s, k)] == 1
  {
    ReadyUpToMeans(c.w, s, s.replicas);
    var x := PvRecord(c.w, s, k);
    CountInStorages(c.w, c.storages.items, s, k, x);
    forall h, d ensures x != DiskRecord(h, d) {
      HostsDisjoint(c.w.ns, s.name, k, h);
    }
    if x in InventoryRecords(c.inventories.items) {
      InventoryRecordOf(c.inventories.items, x);
    }
  }

  // ----- dataplane disks -----

  lemma DataplaneHostInjective(h: string, k: string)
    requires DataplaneHost(h) == DataplaneHost(k)
    ensures h == k
  {
    var a, b := DataplaneHost(h), DataplaneHost(k);
    assert |h| == |k|;
    assert h == a[..|h|] && k == b[..|k|];
  }

  lemma {:induction false} DisksNameTheirHost(host: string, disks: seq<Disk>, x: Record)
    requires x.host != DataplaneHost(host)
    ensures multiset(DiskRecords(host, disks))[x] == 0
  {
    if x in DiskRecords(host, disks) {
      DiskRecordOf(host, disks, x);
    }
  }

  /** In a node set, the lines of a host are one for each of its effective disks, whatever other hosts have. */
  lemma {:induction false} HostHasItsDisks(global: DiskVar, hosts: map<string, DiskVar>, h: string, x: Record)
    requires x.host == DataplaneHost(h)
    ensures HostRecords(global, hosts)[x] ==
            if h in hosts then multiset(DiskRecords(h, EffectiveDisks(global, hosts[h])))[x] else 0
    decreases |hosts|
  {
    if hosts != map[] {
      var k := PickHost(hosts);
      HostHasItsDisks(global, hosts - {k}, h, x);
      if k != h {
        if DataplaneHost(k) == DataplaneHost(h) {
          DataplaneHostInjective(k, h);
        }
        DisksNameTheirHost(k, EffectiveDisks(global, hosts[k]), x);
      }
    }
  }

  /** The disks of a host: its own list if it has one, even an empty one; otherwise the list of its node set. */
  lemma OwnDisksReplaceGlobal(global: DiskVar, hosts: map<string, DiskVar>, h: string, x: Record)
    requires x.host == DataplaneHost(h) && h in hosts
    ensures hosts[h].Disks? ==>
              HostRecords(global, hosts)[x] == multiset(DiskRecords(h, hosts[h].disks))[x]
    ensures hosts[h].Unset? && global.Disks? ==>
              HostRecords(global, hosts)[x] == multiset(DiskRecords(h, global.disks))[x]
    ensures hosts[h].Unset? && global.Unset? ==> HostRecords(global, hosts)[x] == 0
  {
    HostHasItsDisks(global, hosts, h, x);
  }

  /** Every disk of every host of a node set that deploys Swift is in the list. */
  lemma DiskIsListed(c: Cluster, g: Inventory, h: string, d: Disk)
    requires Ready(c) && g in c.inventories.items && g.Group? && "swift" in g.services && h in g.hosts
    requires match g.hosts[h]
             case Disks(own) => d in own
             case Unset => g.disks.Disks? && d in g.disks.disks
             case Malformed => false
    ensures DiskRecord(h, d) in Records(c)
  {
    DiskRecordListed(h, EffectiveDisks(g.disks, g.hosts[h]), d);
    HostHasItsDisks(g.disks, g.hosts, h, DiskRecord(h, d));
    GroupListed(c.inventories.items, g, DiskRecord(h, d));
  }

  lemma {:induction false} DiskRecordListed(host: string, disks: seq<Disk>, d: Disk)
    requires d in disks
    ensures DiskRecord(host, d) in multiset(DiskRecords(host, disks))
  {
    if d != disks[|disks|-1] {
      DiskRecordListed(host, disks[..|disks|-1], d);
    }
  }

  lemma {:induction false} GroupListed(gs: seq<Inventory>, g: Inventory, x: Record)
    requires g in gs && x in GroupRecords(g)
    ensures x in InventoryRecords(gs)
  {
    if g != gs[|gs|-1] {
      GroupListed(gs[..|gs|-1], g, x);
    }
  }

  // ----- names, lines and readiness in the words of the cluster -----

  /** The claim and the pod of a replica, and the DNS name of the pod. */
  lemma NamesOfReplica(ns: string, s: Storage, k: nat)
    ensures var p := PodName(s, k);
      p[..|s.name|] == s.name && p[|s.name|] == '-' && Value(p[|s.name|+1..]) == k &&
      ClaimName(s, k) == "swift-" + p && PvHost(ns, s.name, k) == p + "." + s.name + "." + ns + ".svc"
  {
    NatIsDecimal(k);
    assert PodName(s, k)[|s.name|+1..] == Nat(k);
  }

  lemma {:induction false} StripsSlashes(name: string, slashes: string)
    requires name != "" && name[|name|-1] != '/' && forall i | 0 <= i < |slashes| :: slashes[i] == '/'
    ensures StripSlashes(name + slashes) == name
  {
    var p := name + slashes;
    if slashes == "" {
      assert p == name;
    } else {
      assert p[|p|-1] == slashes[|slashes|-1] && p[..|p|-1] == name + slashes[..|slashes|-1];
      StripsSlashes(name, slashes[..|slashes|-1]);
    }
  }

  lemma {:induction false} TakesLast(dir: string, name: string)
    requires '/' !in name && (dir == "" || dir[|dir|-1] == '/')
    ensures AfterLastSlash(dir + name) == name
  {
    var p := dir + name;
    if name == "" {
      assert p == dir;
    } else {
      assert p[|p|-1] == name[|name|-1] && p[..|p|-1] == dir + name[..|name|-1];
      assert name[|name|-1] in name;
      TakesLast(dir, name[..|name|-1]);
      assert name == name[..|name|-1] + [name[|name|-1]];
    }
  }

  /** The device of a disk is the last element of its path. */
  lemma BaseIsLastElement(dir: string, name: string, slashes: string)
    requires name != "" && '/' !in name && (dir == "" || dir[|dir|-1] == '/')
    requires forall i | 0 <= i < |slashes| :: slashes[i] == '/'
    ensures Base(dir + name + slashes) == name
  {
    var n := dir + name;
    assert n[|n|-1] == name[|name|-1] && name[|name|-1] in name;
    StripsSlashes(n, slashes);
    TakesLast(dir, name);
  }

  lemma {:induction false} StripsAll(p: string)
    requires forall i | 0 <= i < |p| :: p[i] == '/'
    ensures StripSlashes(p) == ""
  {
    if p != "" {
      StripsAll(p[..|p|-1]);
    }
  }

  lemma BaseOfSlashes(p: string)
    requires forall i | 0 <= i < |p| :: p[i] == '/'
    ensures Base(p) == if p == "" then "." else "/"
  {
    StripsAll(p);
  }

  /** The line of a volume, character by character; a volume of 10 GB has weight 10. */
  lemma LineOfVolume(w: World, s: Storage, k: nat, capacity: int, node: string)
    requires Get(w.claims, ClaimName(s, k)) == Found(Claim(true, capacity))
    requires Get(w.pods, PodName(s, k)) == Found(node) && node != ""
    ensures ReplicaReady(w, s, k)
    ensures Render(PvRecord(w, s, k)) ==
            "1 1 " + PvHost(w.ns, s.name, k) + " pv " + Int(Quot(capacity, 1000000000)) + " " + node + "\n"
  {
    PvLine(PvHost(w.ns, s.name, k), Int(Quot(capacity, 1000000000)), node);
  }

  lemma DataplaneHostIs(node: string)
    ensures DataplaneHost(node) == node + ".storage.example.com"
  {
    assert "." + DATAPLANE_DOMAIN == ".storage.example.com";
    assert DataplaneHost(node) == node + ("." + DATAPLANE_DOMAIN);
  }

  lemma LineOfDisk(host: string, d: Disk)
    ensures Render(DiskRecord(host, d)) ==
            Int(d.region) + " " + Int(d.zone) + " " + DataplaneHost(host) + " " + Base(d.path) + " "
            + Int(d.weight) + "\n"
  {
    DiskLine(host, d);
  }

  /** A replica is in order if its claim is bound and its pod is on a node. */
  predicate InOrder(w: World, s: Storage, k: nat) {
    var claim, pod := "swift-" + s.name + "-" + Nat(k), s.name + "-" + Nat(k);
    claim in w.claims && w.claims[claim].Found? && w.claims[claim].value.bound &&
    pod in w.pods && w.pods[pod].Found? && w.pods[pod].value != ""
  }

  /** An inventory can be used: it parses, and if its node set deploys Swift, so do all its disk lists. */
  predicate Usable(g: Inventory) {
    match g
    case BadYaml => false
    case Group(services, disks, hosts) =>
      "swift" in services ==> disks != Malformed && forall h | h in hosts :: hosts[h] != Malformed
  }

  /** The list is computed exactly when everything is in order. */
  lemma ReadyExactly(c: Cluster)
    ensures Ready(c) <==>
            c.storages.Listed? && c.inventories.Listed? &&
            (forall s, k: nat | s in c.storages.items && k < s.replicas :: InOrder(c.w, s, k)) &&
            (forall g | g in c.inventories.items :: Usable(g))
  {
    if c.storages.Listed? {
      forall s | s in c.storages.items
        ensures StorageReady(c.w, s) <==> forall k: nat | k < s.replicas :: InOrder(c.w, s, k)
      {
        ReadyUpToMeans(c.w, s, s.replicas);
        assert forall k: nat :: ReplicaReady(c.w, s, k) <==> InOrder(c.w, s, k);
      }
    }
    assert forall g :: InventoryReady(g) <==> Usable(g);
  }

  /** A node set without Swift contributes nothing. */
  lemma OtherNodeSets(g: Inventory)
    requires g.Group? && "swift" !in g.services
    ensures GroupRecords(g) == multiset{}
  {
  }

  /** The text is the lines of the records in byte order. */
  lemma TextIsSorted(rs: seq<Record>) returns (lines: seq<string>)
    ensures DeviceText(multiset(rs)) == Flatten(lines) && multiset(lines) == multiset(Lines(rs))
    ensures forall i, j | 0 <= i < j < |lines| :: Leq(lines[i], lines[j])
  {
    TextOf(rs);
    lines := Sort(Lines(rs));
    SortedMeans(lines);
  }
}
