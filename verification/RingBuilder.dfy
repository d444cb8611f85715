/** Ring builder files: the device table, `search`/`add`, and `metaswap` (templates/swiftring/bin/swift-ring-tool). */
module RingBuilder {
  import opened Text
  import opened DeviceList

  datatype Dev = Dev(region: string, zone: string, ip: string, port: nat, device: string, weight: string, meta: string)

  /** Settings fixed by `create`. */
  datatype Settings = Settings(partPower: string, replicas: string, minPartHours: string)

  /** A builder file; the index of a device is its id, a removed device leaves None, `parts` is the assignment. */
  datatype Builder = Builder(settings: Settings, devs: seq<Option<Dev>>, parts: seq<nat>)

  function Create(s: Settings): Builder { Builder(s, [], []) }

  // ----- keys -----

  type Key = (string, string)

  function KeyOf(d: Dev): Key { (d.ip, d.device) }

  function Keys(devs: seq<Option<Dev>>): set<Key> {
    set i | 0 <= i < |devs| && devs[i].Some? :: KeyOf(devs[i].value)
  }

  function ListKeys(rs: seq<Record>): set<Key> {
    set i | 0 <= i < |rs| :: (rs[i].host, rs[i].device)
  }

  /** At most one device per (ip, device). */
  predicate UniqueKeys(devs: seq<Option<Dev>>) {
    forall i, j | 0 <= i < j < |devs| && devs[i].Some? && devs[j].Some? :: KeyOf(devs[i].value) != KeyOf(devs[j].value)
  }

  /** `swift-ring-builder search --ip --device` finds something. */
  method Search(devs: seq<Option<Dev>>, ip: string, device: string) returns (found: bool)
    ensures found <==> (ip, device) in Keys(devs)
  {
    for i := 0 to |devs|
      invariant forall k | 0 <= k < i && devs[k].Some? :: KeyOf(devs[k].value) != (ip, device)
    {
      if devs[i].Some? && devs[i].value.ip == ip && devs[i].value.device == device {
        return true;
      }
    }
    return false;
  }

  // ----- adding the devices of a list -----

  function NewDev(r: Record, port: nat): Dev {
    Dev(r.region, r.zone, r.host, port, r.device, r.weight, r.node)
  }

  function AddIfMissing(devs: seq<Option<Dev>>, r: Record, port: nat): seq<Option<Dev>> {
    if (r.host, r.device) in Keys(devs) then devs else devs + [Some(NewDev(r, port))]
  }

  /** The table after the update loop has handled the records in order. */
  function AddAll(devs: seq<Option<Dev>>, rs: seq<Record>, port: nat): seq<Option<Dev>> {
    if rs == [] then devs else AddIfMissing(AddAll(devs, rs[..|rs|-1], port), rs[|rs|-1], port)
  }

  lemma KeysSnoc(devs: seq<Option<Dev>>, d: Dev)
    ensures Keys(devs + [Some(d)]) == Keys(devs) + {KeyOf(d)}
  {
    var more := devs + [Some(d)];
    forall k | k in Keys(devs) ensures k in Keys(more) {
      var i :| 0 <= i < |devs| && devs[i].Some? && KeyOf(devs[i].value) == k;
      assert more[i] == devs[i];
    }
    assert more[|devs|] == Some(d);
  }

  /** Known devices keep their id and every field; the keys become the old keys and the listed keys. */
  lemma {:induction false} AddAllGrows(devs: seq<Option<Dev>>, rs: seq<Record>, port: nat)
    ensures devs <= AddAll(devs, rs, port)
    ensures Keys(AddAll(devs, rs, port)) == Keys(devs) + ListKeys(rs)
    ensures UniqueKeys(devs) ==> UniqueKeys(AddAll(devs, rs, port))
  {
    if rs != [] {
      var front, r := rs[..|rs|-1], rs[|rs|-1];
      AddAllGrows(devs, front, port);
      var mid := AddAll(devs, front, port);
      ListKeysSnoc(front, r);
      assert rs == front + [r];
      KeysSnoc(mid, NewDev(r, port));
      if UniqueKeys(devs) && (r.host, r.device) !in Keys(mid) {
        NewKeyStaysUnique(mid, NewDev(r, port));
      }
    }
  }

  /** An added device was made from one of the records. */
  lemma {:induction false} AddedFrom(devs: seq<Option<Dev>>, rs: seq<Record>, port: nat, k: nat) returns (x: Record)
    requires |devs| <= k < |AddAll(devs, rs, port)|
    ensures x in rs && AddAll(devs, rs, port)[k] == Some(NewDev(x, port))
  {
    var front, r := rs[..|rs|-1], rs[|rs|-1];
    x := r;
    if k < |AddAll(devs, front, port)| {
      x := AddedFrom(devs, front, port, k);
    }
  }

  lemma ListKeysSnoc(front: seq<Record>, r: Record)
    ensures ListKeys(front + [r]) == ListKeys(front) + {(r.host, r.device)}
  {
    var rs := front + [r];
    forall k | k in ListKeys(front) ensures k in ListKeys(rs) {
      var i :| 0 <= i < |front| && (front[i].host, front[i].device) == k;
      assert rs[i] == front[i];
    }
    assert rs[|front|] == r;
  }

  lemma NewKeyStaysUnique(devs: seq<Option<Dev>>, d: Dev)
    requires UniqueKeys(devs) && KeyOf(d) !in Keys(devs)
    ensures UniqueKeys(devs + [Some(d)])
  {
    var more := devs + [Some(d)];
    forall i, j | 0 <= i < j < |more| && more[i].Some? && more[j].Some?
      ensures KeyOf(more[i].value) != KeyOf(more[j].value)
    {
      if j == |devs| {
        assert KeyOf(devs[i].value) in Keys(devs);
      }
    }
  }

  // ----- metaswap -----

  predicate Swaps(d: Dev) { d.meta != "" && d.device == "pv" }

  function SwapDev(d: Dev): Dev {
    if Swaps(d) then d.(meta := d.ip, ip := d.meta) else d
  }

  function SwapSlot(o: Option<Dev>): Option<Dev> {
    if o.Some? then Some(SwapDev(o.value)) else None
  }

  function SwapDevs(devs: seq<Option<Dev>>): seq<Option<Dev>> {
    if devs == [] then [] else SwapDevs(devs[..|devs|-1]) + [SwapSlot(devs[|devs|-1])]
  }

  lemma {:induction false} SwapDevsAt(devs: seq<Option<Dev>>)
    ensures |SwapDevs(devs)| == |devs|
    ensures forall i | 0 <= i < |devs| :: SwapDevs(devs)[i] == SwapSlot(devs[i])
  {
    if devs != [] {
      SwapDevsAt(devs[..|devs|-1]);
    }
  }

  /** Every volume with a node name has an ip. */
  predicate Swappable(devs: seq<Option<Dev>>) {
    forall i | 0 <= i < |devs| && devs[i].Some? && Swaps(devs[i].value) :: devs[i].value.ip != ""
  }

  /** Swapping twice restores the table exactly when every volume with a node name has an ip. */
  lemma SwapInvolution(devs: seq<Option<Dev>>)
    ensures SwapDevs(SwapDevs(devs)) == devs <==> Swappable(devs)
  {
    SwapDevsAt(devs);
    SwapDevsAt(SwapDevs(devs));
    if Swappable(devs) {
      assert SwapDevs(SwapDevs(devs)) == devs;
    } else {
      var i :| 0 <= i < |devs| && devs[i].Some? && Swaps(devs[i].value) && devs[i].value.ip == "";
      assert SwapDevs(SwapDevs(devs))[i] != devs[i];
    }
  }

  lemma AddAllSwappable(devs: seq<Option<Dev>>, rs: seq<Record>, port: nat)
    requires Swappable(devs) && forall r | r in rs :: r.host != ""
    ensures Swappable(AddAll(devs, rs, port))
  {
    AddAllGrows(devs, rs, port);
    var all := AddAll(devs, rs, port);
    forall i | 0 <= i < |all| && all[i].Some? && Swaps(all[i].value) ensures all[i].value.ip != "" {
      if i < |devs| {
        assert all[i] == devs[i];
      } else {
        var r := AddedFrom(devs, rs, port, i);
      }
    }
  }

  /** The Python loop over `builder.devs`, exchanging two fields of each volume in place. */
  method SwapInPlace(devs: array<Option<Dev>>)
    modifies devs
    ensures devs[..] == SwapDevs(old(devs[..]))
  {
    ghost var before := devs[..];
    for i := 0 to devs.Length
      invariant forall k | 0 <= k < i :: devs[k] == SwapSlot(before[k])
      invariant forall k | i <= k < devs.Length :: devs[k] == before[k]
    {
      if devs[i].Some? && devs[i].value.meta != "" && devs[i].value.device == "pv" {
        var dev := devs[i].value;
        devs[i] := Some(dev.(meta := dev.ip, ip := dev.meta));
      }
    }
    SwapDevsAt(before);
    assert devs[..] == SwapDevs(before);
  }

  /** metaswap: load a builder, swap, save. */
  method MetaSwap(b: Builder) returns (r: Builder)
    ensures r == b.(devs := SwapDevs(b.devs))
  {
    var devs := new Option<Dev>[|b.devs|](i requires 0 <= i < |b.devs| => b.devs[i]);
    assert devs[..] == b.devs;
    SwapInPlace(devs);
    r := b.(devs := devs[..]);
  }
}
