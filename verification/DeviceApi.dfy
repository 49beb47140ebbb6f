/** dev_alloc, dev_register and dev_free on the heap carry out the steps of DeviceGraph on all devices, listed or not. */
module DeviceApi {
  import opened DeviceGraph
  import opened RegistryState
  import opened DeviceRegistry

  function Target(objs: seq<Device>, l: Link): Device? {
    if l.To? && l.d < |objs| then objs[l.d] else null
  }

  predicate Within(objs: seq<Device>, l: Link) {
    l.To? ==> l.d < |objs|
  }

  function Chosen(objs: seq<Device>, s: seq<nat>): (r: seq<Device>)
    requires forall k :: 0 <= k < |s| ==> s[k] < |objs|
    ensures |r| == |s| && forall k :: 0 <= k < |s| ==> r[k] == objs[s[k]]
  {
    seq(|s|, k requires 0 <= k < |s| => objs[s[k]])
  }

  function Nexts(objs: seq<Device>): (r: seq<Device?>)
    reads objs
    ensures |r| == |objs| && forall k :: 0 <= k < |r| ==> r[k] == objs[k].next
  {
    seq(|objs|, k requires 0 <= k < |objs| reads objs => objs[k].next)
  }

  /** `objs` are all devices ever allocated; a base and next fields are those of the graph g, except in memory
      that was freed. */
  ghost predicate Represents(base: Device?, nexts: seq<Device?>, objs: seq<Device>, g: Graph) {
    && |objs| == |nexts| == |g.next| == |g.infos|
    && Within(objs, g.base) && base == Target(objs, g.base)
    && (forall k :: 0 <= k < |objs| ==> objs[k].info == g.infos[k])
    && (forall k :: 0 <= k < |objs| && k !in g.freed ==> Within(objs, g.next[k]) && nexts[k] == Target(objs, g.next[k]))
  }

  /** The devices of the list have the numbers s. */
  ghost predicate Numbered(r: Registry, objs: seq<Device>, s: seq<nat>)
    reads r, r.devices
  {
    && r.Valid() && (forall i, j :: 0 <= i < j < |objs| ==> objs[i] != objs[j])
    && (forall k :: 0 <= k < |s| ==> s[k] < |objs|) && r.devices == Chosen(objs, s)
  }

  /** The list of the heap is the list s of the graph. */
  ghost predicate Listed(r: Registry, objs: seq<Device>, g: Graph, s: seq<nat>)
    reads r, r.devices
  {
    ListIs(g, s) && Numbered(r, objs, s)
  }

  lemma {:induction false} SameNames(r: Registry, nexts: seq<Device?>, objs: seq<Device>, g: Graph, s: seq<nat>, d: nat)
    requires Listed(r, objs, g, s) && d < |objs| && Represents(r.base, nexts, objs, g)
    ensures r.Namesake(objs[d]) == Namesake(g, s, d)
  {
    hide FindName, UniqueNames, Chain;
    assert Infos(r.devices) == InfosOf(g, s);
  }

  lemma {:induction false} Relinked(base: Device?, nexts: seq<Device?>, objs: seq<Device>, g: Graph, s: seq<nat>, d: nat)
    requires Represents(base, nexts, objs, g) && Live(g, d) && forall k :: 0 <= k < |s| ==> s[k] < |objs|
    ensures var i := Namesake(g, s, d);
      Represents(if 0 == i < |s| then nexts[d] else base, if 0 < i < |s| then nexts[s[i-1] := nexts[d]] else nexts,
                 objs, Free(g, s, d))
  {
    hide FindName, InfosOf, InfoAt;
  }

  /** Where the links of the graph lead in order, so do those of the heap. */
  lemma {:induction false} HeapChain(objs: seq<Device>, g: Graph, l: Link, t: seq<nat>)
    requires Represents(null, Nexts(objs), objs, g.(base := Nil)) && Chain(g, l, t, Nil)
    requires forall i, j :: 0 <= i < j < |objs| ==> objs[i] != objs[j]
    requires forall i, j :: 0 <= i < j < |t| ==> t[i] != t[j]
    ensures forall k :: 0 <= k < |t| ==> t[k] < |objs|
    ensures Linked(Target(objs, l), Chosen(objs, t))
  {
    hide Chain;
    ChainInside(g, l, t, Nil);
    ChainSplit(g, l, t, Nil, 0);
    ChainEnds(g, l, t);
    forall k | 0 <= k < |t|
      ensures objs[t[k]].next == Cell(Chosen(objs, t), k + 1)
    {
      ChainSplit(g, l, t, Nil, k);
      ChainSplit(g, l, t, Nil, k + 1);
      assert Nexts(objs)[t[k]] == Target(objs, g.next[t[k]]);
    }
  }

  lemma {:induction false} ChainEnds(g: Graph, l: Link, t: seq<nat>)
    requires Chain(g, l, t, Nil)
    ensures LinkAt(g, l, t, |t|) == Nil
  {
    hide LinkAt;
    ChainSplit(g, l, t, Nil, |t|);
  }

  lemma {:induction false} HeapRejoins(r: Registry, objs: seq<Device>, g: Graph, s: seq<nat>, d: nat, t: seq<nat>)
    requires Represents(r.base, Nexts(objs), objs, g) && Listed(r, objs, g, s) && Live(g, d)
    requires Rejoins(g, s, d, t) && forall k :: 0 <= k < |t| ==> t[k] < |objs|
    ensures r.Rejoins(objs[d], Chosen(objs, t))
  {
    hide FindName, UniqueNames, Chain, Linked;
    SameNames(r, Nexts(objs), objs, g, s, d);
    var i := Namesake(g, s, d);
    forall j, k | 0 <= j < k < |t|
      ensures t[j] != t[k]
    {
      NamesApart(g, s[..i] + t, i + j, i + k);
    }
    HeapChain(objs, g, g.next[d], t);
    assert Infos(r.devices[..i] + Chosen(objs, t)) == InfosOf(g, s[..i] + t);
  }

  /** dev_free: of all devices, the list and the graph change alike. Where the list goes on with t, if it does,
      is up to the links that dev has. */
  method DevFree(r: Registry, dev: Device?, ghost objs: seq<Device>, ghost g: Graph, ghost s: seq<nat>, ghost d: nat,
                 ghost t: seq<nat>)
    requires Represents(r.base, Nexts(objs), objs, g) && Listed(r, objs, g, s)
    requires forall k :: 0 <= k < |t| ==> t[k] < |objs|
    requires dev != null ==> Live(g, d) && dev == objs[d]
    modifies r, r.devices
    ensures Represents(r.base, Nexts(objs), objs, if dev == null then g else Free(g, s, d))
    ensures dev == null ==> Listed(r, objs, g, s)
    ensures dev != null && Namesake(g, s, d) == |s| ==> Listed(r, objs, Free(g, s, d), s)
    ensures dev != null && Namesake(g, s, d) < |s| && Rejoins(g, s, d, t) ==>
      Listed(r, objs, Free(g, s, d), s[..Namesake(g, s, d)] + t)
  {
    hide FindName, UniqueNames, Chain, Linked, InfoAt, Infos, InfosOf, ListIs, Rejoins;
    if dev != null {
      ghost var i := Namesake(g, s, d);
      SameNames(r, Nexts(objs), objs, g, s, d);
      Relinked(r.base, Nexts(objs), objs, g, s, d);
      if i == |s| {
        FreeUnnamed(g, s, d);
      } else if Rejoins(g, s, d, t) {
        HeapRejoins(r, objs, g, s, d, t);
        RejoinedList(g, s, d, t);
      }
      RemoveLinks(r, dev, objs, s, d, t);
    }
  }

  method RemoveLinks(r: Registry, dev: Device, ghost objs: seq<Device>, ghost s: seq<nat>, ghost d: nat, ghost t: seq<nat>)
    requires Numbered(r, objs, s) && d < |objs| && dev == objs[d] && forall k :: 0 <= k < |t| ==> t[k] < |objs|
    modifies r, r.devices
    ensures var i, was := old(r.Namesake(dev)), old(Nexts(objs));
      && r.base == (if 0 == i < |s| then was[d] else old(r.base))
      && Nexts(objs) == if 0 < i < |s| then was[s[i-1] := was[d]] else was
    ensures old(r.Namesake(dev)) == |s| ==> Numbered(r, objs, s)
    ensures old(r.Namesake(dev)) < |s| && old(r.Rejoins(dev, Chosen(objs, t))) ==>
      Numbered(r, objs, s[..old(r.Namesake(dev))] + t)
  {
    hide FindName, UniqueNames, Infos, Linked;
    ghost var i := r.Namesake(dev);
    r.Remove(dev, Chosen(objs, t));
    if i < |s| {
      assert Chosen(objs, s[..i] + t) == Chosen(objs, s)[..i] + Chosen(objs, t);
    }
  }

  lemma {:induction false} Appended(base: Device?, nexts: seq<Device?>, objs: seq<Device>, g: Graph, s: seq<nat>, d: nat)
    requires Represents(base, nexts, objs, g) && Live(g, d) && Namesake(g, s, d) == |s|
    requires forall k :: 0 <= k < |s| ==> s[k] < |objs|
    ensures Represents(if s == [] then objs[d] else base,
                       (if s == [] then nexts else nexts[s[|s|-1] := objs[d]])[d := null], objs, Register(g, s, d))
  {
    hide FindName, InfosOf, InfoAt;
  }

  lemma {:induction false} RefusedIs(g: Graph, s: seq<nat>, d: nat)
    requires Live(g, d) && Namesake(g, s, d) < |s|
    ensures Register(g, s, d) == g
  {
    hide FindName, InfosOf, InfoAt;
  }

  /** dev_register: of all devices, the list and the graph change alike. */
  method DevRegister(r: Registry, dev: Device, ghost objs: seq<Device>, ghost g: Graph, ghost s: seq<nat>, ghost d: nat)
    returns (ok: bool)
    requires Represents(r.base, Nexts(objs), objs, g) && Listed(r, objs, g, s) && Live(g, d) && dev == objs[d]
    modifies r, dev, r.devices
    ensures Represents(r.base, Nexts(objs), objs, Register(g, s, d))
    ensures Listed(r, objs, Register(g, s, d), if ok then s + [d] else s)
    ensures ok <==> Namesake(g, s, d) == |s|
  {
    hide FindName, UniqueNames, Infos, InfosOf, InfoAt, ListIs, Linked, Register;
    SameNames(r, Nexts(objs), objs, g, s, d);
    RegisterIs(g, s, d);
    if Namesake(g, s, d) == |s| {
      Appended(r.base, Nexts(objs), objs, g, s, d);
    } else {
      RefusedIs(g, s, d);
    }
    ok := RegisterLinks(r, dev, objs, s, d);
    assert Chosen(objs, s + [d]) == Chosen(objs, s) + [dev];
  }

  method RegisterLinks(r: Registry, dev: Device, ghost objs: seq<Device>, ghost s: seq<nat>, ghost d: nat)
    returns (ok: bool)
    requires Numbered(r, objs, s) && d < |objs| && dev == objs[d]
    modifies r, dev, r.devices
    ensures r.Valid() && r.devices == if ok then old(r.devices) + [dev] else old(r.devices)
    ensures ok <==> old(r.Namesake(dev)) == |s|
    ensures r.base == if ok && s == [] then dev else old(r.base)
    ensures Nexts(objs) == if !ok then old(Nexts(objs))
      else (if s == [] then old(Nexts(objs)) else old(Nexts(objs))[s[|s|-1] := dev])[d := null]
  {
    hide FindName, UniqueNames, Infos, Linked;
    ok := r.Register(dev);
  }

  /** dev_alloc: a new device is one more that nothing leads to. */
  method DevAlloc(r: Registry, name: string, t: nat, memory: bool, ghost objs: seq<Device>, ghost g: Graph, ghost s: seq<nat>)
    returns (dev: Device?)
    requires Represents(r.base, Nexts(objs), objs, g) && Listed(r, objs, g, s)
    requires IsType(t) && |name| < NAME_SIZE
    ensures dev != null <==> memory && FindName(InfosOf(g, s), name) == |s|
    ensures dev != null ==> fresh(dev) && dev.info == Info(name, NewKind(InfosOf(g, s), t))
    ensures dev != null ==>
      && Represents(r.base, Nexts(objs + [dev]), objs + [dev], Allocate(g, s, dev.info))
      && Listed(r, objs + [dev], Allocate(g, s, dev.info), s)
  {
    hide FindName, UniqueNames, NewKind, IsType, Linked, Chain;
    assert Infos(r.devices) == InfosOf(g, s);
    dev := r.Alloc(name, t, memory);
    if dev != null {
      Extended(r.base, Nexts(objs), objs, g, s, dev);
      assert Nexts(objs + [dev]) == Nexts(objs) + [null];
      AllocateIs(g, s, dev.info);
      assert Chosen(objs + [dev], s) == Chosen(objs, s);
    }
  }

  lemma {:induction false} Extended(base: Device?, nexts: seq<Device?>, objs: seq<Device>, g: Graph, s: seq<nat>, dev: Device)
    requires Represents(base, nexts, objs, g) && FindName(InfosOf(g, s), dev.info.name) == |s|
    ensures Represents(base, nexts + [null], objs + [dev], Allocate(g, s, dev.info))
  {
    hide FindName, InfosOf;
  }
}
