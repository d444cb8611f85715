/**
 * The device list of a ring (internal/swiftring/funcs.go): one line per bound persistent volume and
 * per disk of a Swift dataplane host, sorted into one text that does not depend on any listing order.
 */
module DeviceList {
  import opened Text

  // ----- what the API server answers -----

  datatype Answer<+T> = Found(value: T) | NotFound | Unavailable

  /** A list call; an API answer "not found" is an empty list. */
  datatype Listing<+T> = Listed(items: seq<T>) | ListFailed

  /** A PersistentVolumeClaim; `capacity` is 0 where AsInt64 cannot represent it. */
  datatype Claim = Claim(bound: bool, capacity: int)

  datatype Storage = Storage(name: string, replicas: nat)

  datatype Disk = Disk(region: int, zone: int, path: string, weight: int)

  /** The variable edpm_swift_disks of a node set or of one host. */
  datatype DiskVar = Unset | Malformed | Disks(disks: seq<Disk>)

  /** A dataplane inventory secret; the hosts of a group are a Go map. */
  datatype Inventory =
    | BadYaml
    | Group(services: seq<string>, disks: DiskVar, hosts: map<string, DiskVar>)

  /** What single lookups in the namespace answer; a pod maps to its node name, "" while unscheduled. */
  datatype World = World(ns: string, claims: map<string, Answer<Claim>>, pods: map<string, Answer<string>>)

  datatype Cluster = Cluster(w: World, storages: Listing<Storage>, inventories: Listing<Inventory>)

  datatype Error =
    | ListError
    | ClaimError(missing: bool)
    | PVCNotBound(claim: string)
    | PodNotFound(pod: string)
    | PodNodeNameNotSet(pod: string)
    | BadInventory

  function Get<T>(m: map<string, Answer<T>>, name: string): Answer<T> {
    if name in m then m[name] else NotFound
  }

  // ----- one record per device -----

  datatype Record = Record(region: string, zone: string, host: string, device: string, weight: string, node: string)

  const DATAPLANE_DOMAIN := "storage.example.com"
  const GIGA := 1000 * 1000 * 1000

  function ClaimName(s: Storage, replica: nat): string { "swift-" + s.name + "-" + Nat(replica) }

  function PodName(s: Storage, replica: nat): string { s.name + "-" + Nat(replica) }

  function PvHost(ns: string, name: string, replica: nat): string {
    name + "-" + Nat(replica) + "." + name + "." + ns + ".svc"
  }

  function DataplaneHost(node: string): string { node + "." + DATAPLANE_DOMAIN }

  /** Go's filepath.Base. */
  function Base(path: string): string {
    if path == "" then "." else
      var p := StripSlashes(path);
      if p == "" then "/" else AfterLastSlash(p)
  }

  function StripSlashes(p: string): string {
    if p != "" && p[|p|-1] == '/' then StripSlashes(p[..|p|-1]) else p
  }

  function AfterLastSlash(p: string): string {
    if p == "" || p[|p|-1] == '/' then "" else AfterLastSlash(p[..|p|-1]) + [p[|p|-1]]
  }

  function Words(r: Record): seq<string> {
    [r.region, r.zone, r.host, r.device, r.weight] + (if r.node == "" then [] else [r.node])
  }

  /** Words separated by single blanks, ended by a newline. */
  function Join(ws: seq<string>): string {
    if ws == [] then "\n" else if |ws| == 1 then ws[0] + "\n" else ws[0] + " " + Join(ws[1..])
  }

  /** The line of a record: six words for a persistent volume, five for a dataplane disk. */
  function Render(r: Record): string { Join(Words(r)) }

  function DiskRecord(host: string, d: Disk): Record {
    Record(Int(d.region), Int(d.zone), DataplaneHost(host), Base(d.path), Int(d.weight), "")
  }

  // ----- the specification -----

  /** Replica `replica` of `s` has a bound claim and a scheduled pod. */
  predicate ReplicaReady(w: World, s: Storage, replica: nat) {
    var claim := Get(w.claims, ClaimName(s, replica));
    var pod := Get(w.pods, PodName(s, replica));
    claim.Found? && claim.value.bound && pod.Found? && pod.value != ""
  }

  function PvRecord(w: World, s: Storage, replica: nat): Record
    requires ReplicaReady(w, s, replica)
  {
    Record("1", "1", PvHost(w.ns, s.name, replica), "pv",
      Int(Quot(Get(w.claims, ClaimName(s, replica)).value.capacity, GIGA)),
      Get(w.pods, PodName(s, replica)).value)
  }

  /** The first `n` replicas are ready. */
  predicate ReadyUpTo(w: World, s: Storage, n: nat) {
    n == 0 || (ReadyUpTo(w, s, n - 1) && ReplicaReady(w, s, n - 1))
  }

  predicate StorageReady(w: World, s: Storage) { ReadyUpTo(w, s, s.replicas) }

  lemma {:induction false} ReadyUpToMeans(w: World, s: Storage, n: nat)
    ensures ReadyUpTo(w, s, n) <==> forall k: nat | k < n :: ReplicaReady(w, s, k)
  {
    if n > 0 {
      ReadyUpToMeans(w, s, n - 1);
    }
  }

  predicate DeploysSwift(g: Inventory) { g.Group? && "swift" in g.services }

  predicate InventoryReady(g: Inventory) {
    g.Group? &&
    (DeploysSwift(g) ==> !g.disks.Malformed? && forall h | h in g.hosts :: !g.hosts[h].Malformed?)
  }

  predicate Ready(c: Cluster) {
    c.storages.Listed? && c.inventories.Listed? &&
    StoragesReady(c.w, c.storages.items) &&
    (forall g | g in c.inventories.items :: InventoryReady(g))
  }

  /** A host's own disks replace the disks of its node set, even by an empty list. */
  function EffectiveDisks(global: DiskVar, own: DiskVar): seq<Disk> {
    if own.Disks? then own.disks else if global.Disks? then global.disks else []
  }

  function PvRecords(w: World, s: Storage, n: nat): seq<Record>
    requires ReadyUpTo(w, s, n)
  {
    if n == 0 then [] else PvRecords(w, s, n - 1) + [PvRecord(w, s, n - 1)]
  }

  predicate StoragesReady(w: World, ss: seq<Storage>) {
    forall s | s in ss :: StorageReady(w, s)
  }

  function StorageRecords(w: World, ss: seq<Storage>): seq<Record>
    requires StoragesReady(w, ss)
  {
    if ss == [] then [] else
      var s := ss[|ss|-1];
      assert StorageReady(w, s);
      StorageRecords(w, ss[..|ss|-1]) + PvRecords(w, s, s.replicas)
  }

  function DiskRecords(host: string, disks: seq<Disk>): seq<Record> {
    if disks == [] then [] else DiskRecords(host, disks[..|disks|-1]) + [DiskRecord(host, disks[|disks|-1])]
  }

  ghost function PickHost(hosts: map<string, DiskVar>): (h: string)
    requires hosts != map[]
    ensures h in hosts
  {
    var h :| h in hosts; h
  }

  ghost function HostRecords(global: DiskVar, hosts: map<string, DiskVar>): multiset<Record>
    decreases |hosts|
  {
    if hosts == map[] then multiset{} else
      var h := PickHost(hosts);
      multiset(DiskRecords(h, EffectiveDisks(global, hosts[h]))) + HostRecords(global, hosts - {h})
  }

  ghost function GroupRecords(g: Inventory): multiset<Record> {
    if DeploysSwift(g) then HostRecords(g.disks, g.hosts) else multiset{}
  }

  ghost function InventoryRecords(gs: seq<Inventory>): multiset<Record> {
    if gs == [] then multiset{} else InventoryRecords(gs[..|gs|-1]) + GroupRecords(gs[|gs|-1])
  }

  /** Exactly one record per (storage, replica) and per (Swift host, effective disk). */
  ghost function Records(c: Cluster): multiset<Record>
    requires Ready(c)
  {
    multiset(StorageRecords(c.w, c.storages.items)) + InventoryRecords(c.inventories.items)
  }

  ghost function Elements(m: multiset<Record>): (s: seq<Record>)
    ensures multiset(s) == m
    decreases |m|
  {
    if m == multiset{} then [] else
      var x :| x in m;
      [x] + Elements(m - multiset{x})
  }

  function Lines(rs: seq<Record>): seq<string> {
    if rs == [] then [] else [Render(rs[0])] + Lines(rs[1..])
  }

  lemma {:induction false} LinesConcat(a: seq<Record>, b: seq<Record>)
    ensures Lines(a + b) == Lines(a) + Lines(b)
  {
    if a == [] {
      assert a + b == b;
    } else {
      assert (a + b)[1..] == a[1..] + b;
      LinesConcat(a[1..], b);
    }
  }

  lemma LinesMiddle(a: seq<Record>, x: Record, b: seq<Record>)
    ensures multiset(Lines(a + [x] + b)) == multiset(Lines(a + b)) + multiset{Render(x)}
  {
    LinesConcat(a + [x], b);
    LinesConcat(a, [x]);
    LinesConcat(a, b);
    assert Lines([x]) == [Render(x)];
  }

  lemma LinesCons(rs: seq<Record>)
    requires rs != []
    ensures multiset(Lines(rs)) == multiset(Lines(rs[1..])) + multiset{Render(rs[0])}
  {
  }

  /** Permuted records have permuted lines. */
  lemma {:induction false} LinesPermutation(r: seq<Record>, s: seq<Record>)
    requires multiset(r) == multiset(s)
    ensures multiset(Lines(r)) == multiset(Lines(s))
  {
    assert |r| == |multiset(r)| == |multiset(s)| == |s|;
    if r != [] {
      Uncons(r);
      var a, b := Split(s, r[0]);
      LinesPermutation(r[1..], a + b);
      LinesMiddle(a, r[0], b);
      LinesCons(r);
    }
  }

  /** The text of devices.txt, a function of the multiset of records alone. */
  ghost function DeviceText(rs: multiset<Record>): string {
    Flatten(Sort(Lines(Elements(rs))))
  }

  lemma TextOf(rs: seq<Record>)
    ensures Flatten(Sort(Lines(rs))) == DeviceText(multiset(rs))
  {
    LinesPermutation(rs, Elements(multiset(rs)));
    SortedPermutationsAreEqual(Sort(Lines(rs)), Sort(Lines(Elements(multiset(rs)))));
  }

  /** The error names the first thing that is wrong with this replica. */
  predicate ReplicaError(w: World, s: Storage, replica: nat, e: Error) {
    var claim := Get(w.claims, ClaimName(s, replica));
    var pod := Get(w.pods, PodName(s, replica));
    match e
    case ClaimError(missing) => claim == (if missing then NotFound else Unavailable)
    case PVCNotBound(name) => name == ClaimName(s, replica) && claim.Found? && !claim.value.bound
    case PodNotFound(name) => name == PodName(s, replica) && claim.Found? && claim.value.bound && !pod.Found?
    case PodNodeNameNotSet(name) =>
      name == PodName(s, replica) && claim.Found? && claim.value.bound && pod == Found("")
    case _ => false
  }

  /** The error names the first replica of this storage that is not ready. */
  ghost predicate StorageError(w: World, s: Storage, e: Error) {
    exists replica: nat | replica < s.replicas :: ReadyUpTo(w, s, replica) && ReplicaError(w, s, replica, e)
  }

  /** The error names the first storage that is not ready. */
  ghost predicate StoragesError(w: World, ss: seq<Storage>, e: Error) {
    exists i | 0 <= i < |ss| :: StoragesReady(w, ss[..i]) && StorageError(w, ss[i], e)
  }

  /** The error names the first thing that is wrong with the cluster: storages before dataplane inventories. */
  ghost predicate Explains(c: Cluster, e: Error) {
    if c.storages.ListFailed? then e == ListError
    else if !StoragesReady(c.w, c.storages.items) then StoragesError(c.w, c.storages.items, e)
    else if c.inventories.ListFailed? then e == ListError
    else e == BadInventory && exists g | g in c.inventories.items :: !InventoryReady(g)
  }

  // ----- the algorithm -----

  ghost function HostPart(global: DiskVar, hosts: map<string, DiskVar>, h: string): multiset<Record>
    requires h in hosts
  {
    multiset(DiskRecords(h, EffectiveDisks(global, hosts[h])))
  }

  lemma HostRecordsPick(global: DiskVar, hosts: map<string, DiskVar>, h: string)
    requires hosts != map[] && h == PickHost(hosts)
    ensures HostRecords(global, hosts) == HostPart(global, hosts, h) + HostRecords(global, hosts - {h})
  {
  }

  lemma Commute(x: multiset<Record>, y: multiset<Record>, all: multiset<Record>, lessH: multiset<Record>,
                lessK: multiset<Record>, rest: multiset<Record>)
    requires all == y + lessK && lessK == x + rest && lessH == y + rest
    ensures all == x + lessH
  {
  }

  lemma Without<K, V>(m: map<K, V>, h: K, k: K)
    requires h in m && k in m && h != k
    ensures (m - {k}) - {h} == (m - {h}) - {k} && h in m - {k} && (m - {k})[h] == m[h]
  {
  }

  /** Any host may be taken first: the order of a Go map does not matter. */
  lemma {:induction false} HostRecordsRemove(global: DiskVar, hosts: map<string, DiskVar>, h: string)
    requires h in hosts
    ensures HostRecords(global, hosts) == HostPart(global, hosts, h) + HostRecords(global, hosts - {h})
    decreases |hosts|
  {
    var k := PickHost(hosts);
    HostRecordsPick(global, hosts, k);
    if k != h {
      Without(hosts, h, k);
      Without(hosts, k, h);
      var rest := HostRecords(global, hosts - {k} - {h});
      HostRecordsRemove(global, hosts - {k}, h);
      HostRecordsRemove(global, hosts - {h}, k);
      Commute(HostPart(global, hosts, h), HostPart(global, hosts, k), HostRecords(global, hosts),
        HostRecords(global, hosts - {h}), HostRecords(global, hosts - {k}), rest);
    }
  }

  lemma OneMoreHost(global: DiskVar, todo: map<string, DiskVar>, h: string, rs: seq<Record>, all: multiset<Record>)
    requires h in todo && multiset(rs) + HostRecords(global, todo) == all
    ensures var ds := DiskRecords(h, EffectiveDisks(global, todo[h]));
      multiset(rs + ds) + HostRecords(global, todo - {h}) == all && Lines(rs + ds) == Lines(rs) + Lines(ds)
  {
    HostRecordsRemove(global, todo, h);
    LinesConcat(rs, DiskRecords(h, EffectiveDisks(global, todo[h])));
  }

  lemma JoinFive(a: string, b: string, c: string, d: string, e: string)
    ensures Join([a, b, c, d, e]) == a + " " + b + " " + c + " " + d + " " + e + "\n"
  {
    assert [a, b, c, d, e][1..] == [b, c, d, e] && [b, c, d, e][1..] == [c, d, e];
    assert [c, d, e][1..] == [d, e] && [d, e][1..] == [e];
    assert Join([d, e]) == d + " " + e + "\n";
    assert Join([c, d, e]) == c + " " + d + " " + e + "\n";
    assert Join([b, c, d, e]) == b + " " + c + " " + d + " " + e + "\n";
  }

  /** The two format strings print a record's words. */
  lemma PvLine(host: string, weight: string, node: string)
    requires node != ""
    ensures "1 1 " + host + " pv " + weight + " " + node + "\n" == Render(Record("1", "1", host, "pv", weight, node))
  {
    var ws := Words(Record("1", "1", host, "pv", weight, node));
    assert ws == ["1"] + ["1", host, "pv", weight, node];
    JoinFive("1", host, "pv", weight, node);
    assert "1" + " " + ("1" + " " + host + " " + "pv" + " " + weight + " " + node + "\n")
      == "1 1 " + host + " pv " + weight + " " + node + "\n";
  }

  lemma DiskLine(host: string, d: Disk)
    ensures Int(d.region) + " " + Int(d.zone) + " " + DataplaneHost(host) + " " + Base(d.path) + " "
        + Int(d.weight) + "\n"
      == Render(DiskRecord(host, d))
  {
    var r := DiskRecord(host, d);
    JoinFive(r.region, r.zone, r.host, r.device, r.weight);
    assert Words(r) == [r.region, r.zone, r.host, r.device, r.weight];
  }

  method ReplicaDevice(w: World, s: Storage, replica: nat) returns (r: Result<string, Error>)
    ensures r.Success? <==> ReplicaReady(w, s, replica)
    ensures r.Success? ==> r.value == Render(PvRecord(w, s, replica))
    ensures r.Failure? ==> ReplicaError(w, s, replica, r.error)
  {
    var claim := Get(w.claims, ClaimName(s, replica));
    if !claim.Found? {
      return Failure(ClaimError(claim.NotFound?));
    }
    if !claim.value.bound {
      return Failure(PVCNotBound(ClaimName(s, replica)));
    }
    var weight := Quot(claim.value.capacity, GIGA);
    var pod := Get(w.pods, PodName(s, replica));
    if !pod.Found? {
      return Failure(PodNotFound(PodName(s, replica)));
    }
    if pod.value == "" {
      return Failure(PodNodeNameNotSet(PodName(s, replica)));
    }
    PvLine(PvHost(w.ns, s.name, replica), Int(weight), pod.value);
    return Success("1 1 " + PvHost(w.ns, s.name, replica) + " pv " + Int(weight) + " " + pod.value + "\n");
  }

  lemma NotReadyUpTo(w: World, s: Storage, replica: nat)
    requires replica < s.replicas && !ReplicaReady(w, s, replica)
    ensures !StorageReady(w, s)
  {
    ReadyUpToMeans(w, s, s.replicas);
  }

  lemma OneMoreReplica(w: World, s: Storage, replica: nat)
    requires ReadyUpTo(w, s, replica) && ReplicaReady(w, s, replica)
    ensures ReadyUpTo(w, s, replica + 1)
    ensures Lines(PvRecords(w, s, replica + 1)) == Lines(PvRecords(w, s, replica)) + [Render(PvRecord(w, s, replica))]
  {
    LinesConcat(PvRecords(w, s, replica), [PvRecord(w, s, replica)]);
  }

  lemma OneMoreStorage(w: World, ss: seq<Storage>, i: nat)
    requires i < |ss| && StoragesReady(w, ss[..i]) && StorageReady(w, ss[i])
    ensures StoragesReady(w, ss[..i+1])
    ensures Lines(StorageRecords(w, ss[..i+1]))
      == Lines(StorageRecords(w, ss[..i])) + Lines(PvRecords(w, ss[i], ss[i].replicas))
  {
    assert ss[..i+1][..i] == ss[..i];
    LinesConcat(StorageRecords(w, ss[..i]), PvRecords(w, ss[i], ss[i].replicas));
  }

  /** The volumes of one storage instance. */
  method ReplicaDevices(w: World, s: Storage) returns (r: Result<seq<string>, Error>)
    ensures r.Success? <==> StorageReady(w, s)
    ensures r.Success? ==> r.value == Lines(PvRecords(w, s, s.replicas))
    ensures r.Failure? ==> StorageError(w, s, r.error)
  {
    var devices: seq<string> := [];
    for replica := 0 to s.replicas
      invariant ReadyUpTo(w, s, replica)
      invariant devices == Lines(PvRecords(w, s, replica))
    {
      var line := ReplicaDevice(w, s, replica);
      if line.Failure? {
        NotReadyUpTo(w, s, replica);
        return Failure(line.error);
      }
      OneMoreReplica(w, s, replica);
      devices := devices + [line.value];
    }
    return Success(devices);
  }

  method StorageDevices(w: World, ss: seq<Storage>) returns (r: Result<seq<string>, Error>)
    ensures r.Success? <==> StoragesReady(w, ss)
    ensures r.Success? ==> r.value == Lines(StorageRecords(w, ss))
    ensures r.Failure? ==> StoragesError(w, ss, r.error)
  {
    var devices: seq<string> := [];
    for i := 0 to |ss|
      invariant StoragesReady(w, ss[..i])
      invariant devices == Lines(StorageRecords(w, ss[..i]))
    {
      var more := ReplicaDevices(w, ss[i]);
      if more.Failure? {
        return Failure(more.error);
      }
      OneMoreStorage(w, ss, i);
      devices := devices + more.value;
    }
    assert ss[..|ss|] == ss;
    return Success(devices);
  }

  /** The disks of one host, printed in their order. */
  method HostDevices(nodeName: string, hostDisks: seq<Disk>) returns (devices: seq<string>)
    ensures devices == Lines(DiskRecords(nodeName, hostDisks))
  {
    devices := [];
    for j := 0 to |hostDisks|
      invariant devices == Lines(DiskRecords(nodeName, hostDisks[..j]))
    {
      var disk := hostDisks[j];
      assert hostDisks[..j+1][..j] == hostDisks[..j];
      LinesConcat(DiskRecords(nodeName, hostDisks[..j]), [DiskRecord(nodeName, disk)]);
      DiskLine(nodeName, disk);
      devices := devices + [Int(disk.region) + " " + Int(disk.zone) + " " + DataplaneHost(nodeName) + " "
        + Base(disk.path) + " " + Int(disk.weight) + "\n"];
    }
    assert hostDisks[..|hostDisks|] == hostDisks;
  }

  /** The hosts of one node set, visited in any order. */
  method GroupDevices(g: Inventory) returns (r: Result<seq<string>, Error>, ghost rs: seq<Record>)
    requires DeploysSwift(g)
    ensures r.Success? <==> InventoryReady(g)
    ensures r.Success? ==> r.value == Lines(rs) && multiset(rs) == HostRecords(g.disks, g.hosts)
    ensures r.Failure? ==> r.error == BadInventory
  {
    var devices: seq<string> := [];
    rs := [];
    if g.disks.Malformed? {
      return Failure(BadInventory), rs;
    }
    var globalDisks := if g.disks.Disks? then g.disks.disks else [];
    var todo := g.hosts;
    while todo != map[]
      invariant todo.Keys <= g.hosts.Keys && forall h | h in todo :: todo[h] == g.hosts[h]
      invariant forall h | h in g.hosts && h !in todo :: !g.hosts[h].Malformed?
      invariant devices == Lines(rs)
      invariant multiset(rs) + HostRecords(g.disks, todo) == HostRecords(g.disks, g.hosts)
      decreases |todo|
    {
      var nodeName :| nodeName in todo;
      var own := todo[nodeName];
      if own.Malformed? {
        return Failure(BadInventory), rs;
      }
      var hostDisks := globalDisks;
      if own.Disks? {
        hostDisks := own.disks;
      }
      var more := HostDevices(nodeName, hostDisks);
      OneMoreHost(g.disks, todo, nodeName, rs, HostRecords(g.disks, g.hosts));
      devices := devices + more;
      rs := rs + DiskRecords(nodeName, hostDisks);
      todo := todo - {nodeName};
    }
    return Success(devices), rs;
  }

  method InventoryDevices(gs: seq<Inventory>) returns (r: Result<seq<string>, Error>, ghost rs: seq<Record>)
    ensures r.Success? <==> forall g | g in gs :: InventoryReady(g)
    ensures r.Success? ==> r.value == Lines(rs) && multiset(rs) == InventoryRecords(gs)
    ensures r.Failure? ==> r.error == BadInventory
  {
    var devices: seq<string> := [];
    rs := [];
    for i := 0 to |gs|
      invariant forall g | g in gs[..i] :: InventoryReady(g)
      invariant devices == Lines(rs) && multiset(rs) == InventoryRecords(gs[..i])
    {
      var g := gs[i];
      assert gs[..i+1][..i] == gs[..i];
      if g.BadYaml? {
        assert !InventoryReady(g);
        return Failure(BadInventory), rs;
      }
      if "swift" in g.services {
        var more, moreRs := GroupDevices(g);
        if more.Failure? {
          return Failure(more.error), rs;
        }
        LinesConcat(rs, moreRs);
        devices := devices + more.value;
        rs := rs + moreRs;
      }
    }
    assert gs[..|gs|] == gs;
    return Success(devices), rs;
  }

  /**
   * DeviceList: all or nothing, and the text is the canonical text of the records however the API server
   * orders storages and inventories and however Go orders the hosts.
   */
  method DeviceListText(c: Cluster) returns (r: Result<string, Error>)
    ensures r.Success? <==> Ready(c)
    ensures r.Success? ==> r.value == DeviceText(Records(c))
    ensures r.Failure? ==> Explains(c, r.error)
  {
    if c.storages.ListFailed? {
      return Failure(ListError);
    }
    var pv := StorageDevices(c.w, c.storages.items);
    if pv.Failure? {
      return Failure(pv.error);
    }
    if c.inventories.ListFailed? {
      return Failure(ListError);
    }
    var dataplane, diskRecords := InventoryDevices(c.inventories.items);
    if dataplane.Failure? {
      return Failure(dataplane.error);
    }
    ghost var pvRecords := StorageRecords(c.w, c.storages.items);
    LinesConcat(pvRecords, diskRecords);
    TextOf(pvRecords + diskRecords);
    var devices := Sort(pv.value + dataplane.value);
    return Success(Flatten(devices));
  }
}
