/** The singly linked device list of hld_dev.c on the heap (the local list of one CPU). */
module DeviceRegistry {
  import opened RegistryState

  /** struct hld_device: only `next` changes after dev_alloc. */
  class Device {
    var next: Device?
    const info: Info

    constructor (info: Info)
      ensures this.info == info && next == null
    {
      this.info := info;
      next := null;
    }
  }

  function Infos(s: seq<Device>): (r: seq<Info>)
    ensures |r| == |s|
    ensures forall i :: 0 <= i < |s| ==> r[i] == s[i].info
  {
    seq(|s|, i requires 0 <= i < |s| => s[i].info)
  }

  /** The k-th cell of the list, or null at its end. */
  function Cell(s: seq<Device>, k: nat): Device? {
    if k < |s| then s[k] else null
  }

  /** From `base`, the next fields lead through exactly the devices of s, in order, to null. */
  ghost predicate Linked(base: Device?, s: seq<Device>)
    reads s
  {
    && base == Cell(s, 0)
    && (forall i, j :: 0 <= i < j < |s| ==> s[i] != s[j])
    && (forall k :: 0 <= k < |s| ==> s[k].next == Cell(s, k + 1))
  }

  /** The heap determines the list: there is no second one, and so no cycle, behind a base. */
  lemma {:induction false} LinkedDetermines(base: Device?, s: seq<Device>, t: seq<Device>)
    requires Linked(base, s) && Linked(base, t)
    ensures s == t
  {
    if |s| <= |t| {
      SamePrefix(base, s, t, |s|);
    } else {
      SamePrefix(base, t, s, |t|);
    }
  }

  lemma {:induction false} SamePrefix(base: Device?, s: seq<Device>, t: seq<Device>, n: nat)
    requires Linked(base, s) && Linked(base, t) && n <= |s| && n <= |t|
    ensures s[..n] == t[..n] && Cell(s, n) == Cell(t, n)
    decreases n
  {
    if n == 0 {
    } else {
      SamePrefix(base, s, t, n - 1);
      assert s[n-1].next == Cell(s, n) && t[n-1].next == Cell(t, n);
      assert s[..n] == s[..n-1] + [s[n-1]] && t[..n] == t[..n-1] + [t[n-1]];
    }
  }

  class Registry {
    var base: Device?
    ghost var devices: seq<Device>

    ghost predicate Valid()
      reads this, devices
    {
      Linked(base, devices) && UniqueNames(Infos(devices))
    }

    constructor ()
      ensures Valid() && devices == []
    {
      base := null;
      devices := [];
    }

    /** dev_get_by_name */
    method GetByName(name: string) returns (dev: Device?)
      requires Valid()
      ensures dev == Cell(devices, FindName(Infos(devices), name))
    {
      dev := base;
      ghost var k := 0;
      while dev != null && dev.info.name != name
        invariant k <= |devices| && dev == Cell(devices, k)
        invariant forall j :: 0 <= j < k ==> Infos(devices)[j].name != name
        decreases |devices| - k
      {
        dev := dev.next;
        k := k + 1;
      }
    }

    /** dev_get_by_type, from the device at index `from` of the list, or from the start for null. */
    method GetByType(start: Device?, t: nat, ghost from: nat) returns (dev: Device?)
      requires Valid() && (if start == null then from == 0 else from < |devices| && start == devices[from])
      ensures dev == Cell(devices, FindType(Infos(devices), from, t))
    {
      hide TypeOf, UniqueNames;
      dev := if start == null then base else start;
      ghost var k := from;
      while dev != null && TypeOf(dev.info.kind) != t
        invariant k <= |devices| && dev == Cell(devices, k)
        invariant FindType(Infos(devices), k, t) == FindType(Infos(devices), from, t)
        decreases |devices| - k
      {
        dev := dev.next;
        k := k + 1;
      }
    }

    /** dev_get_by_id; type and id are disjoint bit fields, so `|` adds them. */
    method GetById(t: nat, id: nat) returns (dev: Device?)
      requires Valid() && IsType(t) && id < ID_RANGE
      ensures dev == Cell(devices, FindKind(Infos(devices), t + id))
    {
      dev := base;
      ghost var k := 0;
      while dev != null && dev.info.kind != t + id
        invariant k <= |devices| && dev == Cell(devices, k)
        invariant forall j :: 0 <= j < k ==> Infos(devices)[j].kind != t + id
        decreases |devices| - k
      {
        dev := dev.next;
        k := k + 1;
      }
    }

    /** dev_alloc; `memory` says whether the allocator has room. */
    method Alloc(name: string, t: nat, memory: bool) returns (dev: Device?)
      requires Valid() && IsType(t) && |name| < NAME_SIZE
      ensures dev != null <==> memory && FindName(Infos(devices), name) == |devices|
      ensures dev != null ==> fresh(dev) && dev.next == null && dev.info == Info(name, NewKind(Infos(devices), t))
    {
      hide TypeOf, UniqueNames, FindName, CountType, Infos;
      if !memory {
        return null;
      }
      var id := 0;
      var dp := base;
      ghost var k := 0;
      while dp != null
        invariant k <= |devices| && dp == Cell(devices, k)
        invariant forall j :: 0 <= j < k ==> Infos(devices)[j].name != name
        invariant id == CountType(Infos(devices)[..k], t) % ID_RANGE
        decreases |devices| - k
      {
        if dp.info.name == name {
          return null;
        }
        CountStep(Infos(devices), k, t);
        if TypeOf(dp.info.kind) == t {
          CountUp(CountType(Infos(devices)[..k], t));
          id := (id + 1) % ID_RANGE;
        }
        dp := dp.next;
        k := k + 1;
      }
      assert Infos(devices)[..k] == Infos(devices);
      dev := new Device(Info(name, t + id));
    }

    /** dev_register: hld_dev_add */
    method Register(dev: Device) returns (ok: bool)
      requires Valid()
      modifies this, dev, devices
      ensures Valid()
      ensures ok <==> FindName(Infos(old(devices)), dev.info.name) == |old(devices)|
      ensures devices == if ok then old(devices) + [dev] else old(devices)
      ensures base == if ok && old(devices) == [] then dev else old(base)
      ensures dev.next == if ok then null else old(dev.next)
      ensures ok && old(devices) != [] ==> old(devices[|devices| - 1]).next == dev
      ensures forall d :: d in old(devices) && (ok ==> d != old(devices[|devices| - 1])) ==> d.next == old(d.next)
      ensures Infos(devices) == Add(Infos(old(devices)), dev.info)
    {
      hide UniqueNames, FindName, Infos;
      AddKeepsUnique(Infos(devices), dev.info);
      InfosAppend(devices, dev);
      if base == null {
        First(dev);
        return true;
      }
      var same := GetByName(dev.info.name);
      if same != null {
        return false;
      }
      assert forall j :: 0 <= j < |devices| ==> Infos(devices)[j].name != dev.info.name;
      var dp := Last();
      Append(dp, dev);
      ok := true;
    }

    method First(dev: Device)
      requires devices == []
      modifies this, dev
      ensures devices == old(devices) + [dev] && Linked(base, devices)
      ensures base == dev && dev.next == null
    {
      base := dev;
      dev.next := null;
      devices := [dev];
    }

    method Append(dp: Device, dev: Device)
      requires Linked(base, devices) && devices != [] && dp == devices[|devices| - 1] && dev !in devices
      modifies this`devices, dp, dev
      ensures devices == old(devices) + [dev] && Linked(base, devices)
      ensures dp.next == dev && dev.next == null
      ensures forall d :: d in old(devices) && d != dp ==> d.next == old(d.next)
    {
      dp.next := dev;
      dev.next := null;
      devices := devices + [dev];
    }

    /** The loop that moves to the tail. */
    method Last() returns (dp: Device)
      requires Valid() && base != null
      ensures devices != [] && dp == devices[|devices| - 1]
    {
      dp := base;
      ghost var k := 0;
      while dp.next != null
        invariant k < |devices| && dp == devices[k]
        decreases |devices| - k
      {
        dp := dp.next;
        k := k + 1;
      }
    }

    /** Position of the first listed device with the name of dev. */
    ghost function Namesake(dev: Device): (i: nat)
      reads this
      ensures i <= |devices|
    {
      FindName(Infos(devices), dev.info.name)
    }

    /** dev leads through `tail` to null, and no name of it stands in front of the namesake of dev. */
    ghost predicate Rejoins(dev: Device, tail: seq<Device>)
      reads this, dev, tail
    {
      Linked(dev.next, tail) && UniqueNames(Infos(devices[..Namesake(dev)] + tail))
    }

    /** hld_dev_remove: the one link that leads to the namesake of dev is replaced by the link of dev; `tail`
        is where that leads, if it leads anywhere in order. */
    method Remove(dev: Device, ghost tail: seq<Device>)
      requires Valid()
      modifies this, devices
      ensures base == if old(0 == Namesake(dev) < |devices|) then old(dev.next) else old(base)
      ensures old(0 < Namesake(dev) < |devices|) ==> old(devices[Namesake(dev) - 1]).next == old(dev.next)
      ensures forall d :: d in old(devices) && (old(0 < Namesake(dev) < |devices|) ==> d != old(devices[Namesake(dev) - 1])) ==>
        d.next == old(d.next)
      ensures devices == if old(Namesake(dev) == |devices|) then old(devices) else old(devices[..Namesake(dev)]) + tail
      ensures Infos(devices) == RegistryState.Remove(Infos(old(devices)), dev.info.name, Infos(tail))
      ensures old(Namesake(dev) == |devices| || Rejoins(dev, tail)) ==> Valid()
    {
      hide UniqueNames, FindName, Infos, RegistryState.Remove;
      ghost var s, i := devices, Namesake(dev);
      if base != null {
        if base.info.name == dev.info.name {
          assert Infos(s)[0].name == dev.info.name;
          assert s[..i] + tail == tail;
          base := dev.next;
          devices := tail;
        } else {
          var dp := Before(dev.info.name);
          if dp.next != null {
            if Rejoins(dev, tail) { TailApart(s, i, tail); }
            Bypass(dp, dev, i, tail);
          }
        }
      }
      assert Infos(devices) == RegistryState.Remove(Infos(s), dev.info.name, Infos(tail)) by {
        InfosRemoved(s, dev.info.name, tail);
      }
    }

    method Bypass(dp: Device, dev: Device, ghost i: nat, ghost tail: seq<Device>)
      requires Linked(base, devices) && 0 < i < |devices| && dp == devices[i-1]
      modifies this`devices, dp
      ensures dp.next == old(dev.next) && devices == old(devices)[..i] + tail
      ensures old(Linked(dev.next, tail)) && (forall j, k :: 0 <= j < i && 0 <= k < |tail| ==> old(devices)[j] != tail[k])
              ==> Linked(base, devices)
    {
      ghost var s := devices;
      ghost var apart := Linked(dev.next, tail) && forall j, k :: 0 <= j < i && 0 <= k < |tail| ==> s[j] != tail[k];
      dp.next := dev.next;
      devices := s[..i] + tail;
      if apart { JoinLinked(base, s[..i], tail); }
    }

    /** The loop that looks one device ahead for the name. */
    method Before(name: string) returns (dp: Device)
      requires Valid() && base != null && base.info.name != name
      ensures 0 < FindName(Infos(devices), name) && dp == devices[FindName(Infos(devices), name) - 1]
    {
      ghost var i := FindName(Infos(devices), name);
      dp := base;
      ghost var k := 0;
      while dp.next != null && dp.next.info.name != name
        invariant k < |devices| && dp == devices[k] && k < i
        decreases |devices| - k
      {
        dp := dp.next;
        k := k + 1;
      }
    }
  }

  lemma {:induction false} TailApart(s: seq<Device>, i: nat, tail: seq<Device>)
    requires i <= |s| && UniqueNames(Infos(s[..i] + tail))
    ensures forall j, k :: 0 <= j < i && 0 <= k < |tail| ==> s[j] != tail[k]
  {
    var r := Infos(s[..i] + tail);
    forall j, k | 0 <= j < i && 0 <= k < |tail|
      ensures s[j] != tail[k]
    {
      assert r[j].name != r[i + k].name;
    }
  }

  lemma {:induction false} JoinLinked(base: Device?, a: seq<Device>, tail: seq<Device>)
    requires base == if a == [] then Cell(tail, 0) else a[0]
    requires forall i, j :: 0 <= i < j < |a| ==> a[i] != a[j]
    requires forall i, j :: 0 <= i < j < |tail| ==> tail[i] != tail[j]
    requires forall j, k :: 0 <= j < |a| && 0 <= k < |tail| ==> a[j] != tail[k]
    requires forall k :: 0 <= k < |a| ==> a[k].next == if k + 1 < |a| then a[k+1] else Cell(tail, 0)
    requires forall k :: 0 <= k < |tail| ==> tail[k].next == Cell(tail, k + 1)
    ensures Linked(base, a + tail)
  {
    var c := a + tail;
    forall k | 0 <= k < |c|
      ensures c[k].next == Cell(c, k + 1)
    {
      if k < |a| {
        assert a[k].next == if k + 1 < |a| then a[k+1] else Cell(tail, 0);
        assert c[k] == a[k] && (k + 1 < |c| ==> c[k+1] == if k + 1 < |a| then a[k+1] else tail[0]);
      } else {
        var j := k - |a|;
        assert tail[j].next == Cell(tail, j + 1);
        assert c[k] == tail[j] && (k + 1 < |c| ==> c[k+1] == tail[j+1]);
      }
    }
  }

  lemma {:induction false} SuffixLinked(base: Device?, s: seq<Device>, i: nat)
    requires Linked(base, s) && i < |s|
    ensures Linked(s[i].next, s[i+1..])
  {
    assert s[i].next == Cell(s, i + 1);
  }

  /** A listed device leads to the devices behind it. */
  lemma {:induction false} ListedRejoins(r: Registry, i: nat)
    requires r.Valid() && i < |r.devices|
    ensures r.Namesake(r.devices[i]) == i && r.Rejoins(r.devices[i], r.devices[i+1..])
  {
    hide FindName, UniqueNames, Linked, Infos;
    var s := r.devices;
    SuffixLinked(r.base, s, i);
    FindUnique(Infos(s), i);
    DropUnique(Infos(s), i);
    assert Infos(s[..i] + s[i+1..]) == Infos(s)[..i] + Infos(s)[i+1..];
  }

  lemma {:induction false} InfosAppend(s: seq<Device>, d: Device)
    ensures Infos(s + [d]) == Infos(s) + [d.info]
  {
  }

  lemma {:induction false} InfosRemoved(s: seq<Device>, name: string, tail: seq<Device>)
    ensures var i := FindName(Infos(s), name);
      Infos(if i == |s| then s else s[..i] + tail) == RegistryState.Remove(Infos(s), name, Infos(tail))
  {
    hide FindName;
  }

  lemma {:induction false} CountUp(n: nat)
    ensures (n % ID_RANGE + 1) % ID_RANGE == (n + 1) % ID_RANGE
  {
  }
}
