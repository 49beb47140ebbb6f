/** All devices of hld_dev.c, listed or not, with their next fields: what registrations and frees do to the
    list when devices that fell off it keep their links. */
module DeviceGraph {
  import opened RegistryState

  datatype Link = Nil | To(d: nat)

  /** `next[d]` and `infos[d]` belong to device d; `base` is hld_device_base; `freed` are the devices whose
      memory dev_free has returned. Device numbers stand for allocations and are not used again. */
  datatype Graph = Graph(base: Link, next: seq<Link>, infos: seq<Info>, freed: set<nat>)

  predicate Live(g: Graph, d: nat) {
    d < |g.next| && d !in g.freed
  }

  /** From l, the next fields lead through exactly the live devices of s, in order, to `end`. */
  predicate Chain(g: Graph, l: Link, s: seq<nat>, end: Link)
    decreases |s|
  {
    if s == [] then l == end
    else l == To(s[0]) && Live(g, s[0]) && Chain(g, g.next[s[0]], s[1..], end)
  }

  function InfosOf(g: Graph, s: seq<nat>): (r: seq<Info>)
    ensures |r| == |s|
    ensures forall i :: 0 <= i < |s| ==> r[i] == InfoAt(g, s[i])
  {
    seq(|s|, i requires 0 <= i < |s| => InfoAt(g, s[i]))
  }

  function InfoAt(g: Graph, d: nat): Info {
    if d < |g.infos| then g.infos[d] else Info("", 0)
  }

  /** The list is s: live devices, acyclic, ending in NULL, with unique names. */
  predicate ListIs(g: Graph, s: seq<nat>) {
    && |g.next| == |g.infos| && (forall d :: d in g.freed ==> d < |g.next|)
    && Chain(g, g.base, s, Nil) && UniqueNames(InfosOf(g, s))
  }

  ghost predicate ListOk(g: Graph) {
    exists s :: ListIs(g, s)
  }

  // ----- chains -----

  lemma {:induction false} ChainDetermines(g: Graph, l: Link, s: seq<nat>, t: seq<nat>)
    requires Chain(g, l, s, Nil) && Chain(g, l, t, Nil)
    ensures s == t
    decreases |s|
  {
    if s != [] && t != [] {
      ChainDetermines(g, g.next[s[0]], s[1..], t[1..]);
      assert s == [s[0]] + s[1..] && t == [t[0]] + t[1..];
    }
  }

  lemma {:induction false} ChainJoin(g: Graph, l: Link, a: seq<nat>, mid: Link, b: seq<nat>, end: Link)
    requires Chain(g, l, a, mid) && Chain(g, mid, b, end)
    ensures Chain(g, l, a + b, end)
    decreases |a|
  {
    if a == [] {
      assert a + b == b;
    } else {
      assert (a + b)[1..] == a[1..] + b;
      ChainJoin(g, g.next[a[0]], a[1..], mid, b, end);
    }
  }

  /** Where a chain stands after i devices. */
  function LinkAt(g: Graph, l: Link, s: seq<nat>, i: nat): Link
    requires i <= |s|
  {
    if i == 0 then l else if s[i-1] < |g.next| then g.next[s[i-1]] else Nil
  }

  lemma {:induction false} ChainSplit(g: Graph, l: Link, s: seq<nat>, end: Link, i: nat)
    requires Chain(g, l, s, end) && i <= |s|
    ensures Chain(g, l, s[..i], LinkAt(g, l, s, i)) && Chain(g, LinkAt(g, l, s, i), s[i..], end)
    ensures i < |s| ==> LinkAt(g, l, s, i) == To(s[i]) && Live(g, s[i])
    decreases |s|
  {
    if i > 0 {
      ChainSplit(g, g.next[s[0]], s[1..], end, i - 1);
      assert s[..i][1..] == s[1..][..i-1] && s[i..] == s[1..][i-1..];
    }
  }

  lemma {:induction false} ChainFrame(g: Graph, h: Graph, l: Link, s: seq<nat>, end: Link)
    requires Chain(g, l, s, end) && |h.next| >= |g.next|
    requires forall i :: 0 <= i < |s| && Live(g, s[i]) ==> h.next[s[i]] == g.next[s[i]] && s[i] !in h.freed
    ensures Chain(h, l, s, end)
    decreases |s|
  {
    if s != [] {
      ChainFrame(g, h, g.next[s[0]], s[1..], end);
    }
  }

  /** A chain to NULL never comes back to where it started. */
  lemma {:induction false} NoReturn(g: Graph, d: nat, s: seq<nat>)
    requires d < |g.next| && Chain(g, g.next[d], s, Nil)
    ensures d !in s
  {
    if k :| 0 <= k < |s| && s[k] == d {
      ChainSplit(g, g.next[d], s, Nil, k);
      ChainSplit(g, g.next[d], s, Nil, k + 1);
      ChainDetermines(g, g.next[d], s, s[k+1..]);
    }
  }

  /** Unique names mean distinct devices. */
  lemma {:induction false} NamesApart(g: Graph, s: seq<nat>, i: nat, j: nat)
    requires UniqueNames(InfosOf(g, s)) && i < j < |s|
    ensures s[i] != s[j]
  {
    assert InfosOf(g, s)[i].name != InfosOf(g, s)[j].name;
  }

  // ----- operations -----

  /** dev_alloc: refused for a listed name; a new device leads nowhere. */
  function Allocate(g: Graph, s: seq<nat>, info: Info): Graph {
    if FindName(InfosOf(g, s), info.name) < |s| then g
    else g.(next := g.next + [Nil], infos := g.infos + [info])
  }

  /** hld_dev_add, where the list is s. */
  function Register(g: Graph, s: seq<nat>, d: nat): Graph
    requires d < |g.next|
  {
    if s == [] then g.(base := To(d), next := g.next[d := Nil])
    else if FindName(InfosOf(g, s), InfoAt(g, d).name) < |s| || s[|s|-1] >= |g.next| then g
    else g.(next := g.next[s[|s|-1] := To(d)][d := Nil])
  }

  /** Position of the first listed device with the name of d. */
  function Namesake(g: Graph, s: seq<nat>, d: nat): (i: nat)
    ensures i <= |s|
  {
    FindName(InfosOf(g, s), InfoAt(g, d).name)
  }

  /** hld_dev_remove, where the list is s: the link to the namesake is replaced by the link of d. */
  function Relink(g: Graph, s: seq<nat>, d: nat): Graph
    requires d < |g.next|
  {
    var i := Namesake(g, s, d);
    if i == |s| then g
    else if i == 0 then g.(base := g.next[d])
    else if s[i-1] < |g.next| then g.(next := g.next[s[i-1] := g.next[d]])
    else g
  }

  /** dev_free: removal from the list, then the memory of d is returned. */
  function Free(g: Graph, s: seq<nat>, d: nat): Graph
    requires d < |g.next|
  {
    Relink(g, s, d).(freed := g.freed + {d})
  }

  /** Behind the first i devices the list can go on with `tail`. */
  predicate Rejoins(g: Graph, s: seq<nat>, d: nat, tail: seq<nat>)
    requires d < |g.next|
  {
    Chain(g, g.next[d], tail, Nil) && UniqueNames(InfosOf(g, s[..Namesake(g, s, d)] + tail))
  }

  /** What a caller of dev_free could check: no listed device has the name of d, or the devices that d leads
      to are live, end in NULL and share no name among each other or with the list in front of the namesake. */
  ghost predicate FreeSafe(g: Graph, s: seq<nat>, d: nat)
    requires d < |g.next|
  {
    Namesake(g, s, d) == |s| || exists tail :: Rejoins(g, s, d, tail)
  }

  lemma {:induction false} SameInfos(g: Graph, h: Graph, s: seq<nat>)
    requires h.infos == g.infos
    ensures InfosOf(h, s) == InfosOf(g, s)
  {
  }

  /** A device in front of the namesake of d is not d. */
  lemma {:induction false} NotBefore(g: Graph, s: seq<nat>, d: nat)
    ensures forall k :: 0 <= k < Namesake(g, s, d) ==> s[k] != d
  {
    forall k | 0 <= k < Namesake(g, s, d)
      ensures s[k] != d
    {
      assert InfosOf(g, s)[k].name != InfoAt(g, d).name;
    }
  }

  /** The first i devices are still linked, and the last of them now leads where d leads. */
  lemma {:induction false} PrefixRelinked(g: Graph, s: seq<nat>, d: nat)
    requires ListIs(g, s) && d < |g.next| && Namesake(g, s, d) < |s|
    ensures var h, i := Free(g, s, d), Namesake(g, s, d);
      Chain(h, h.base, s[..i], g.next[d])
  {
    hide FindName, InfosOf;
    var h, i := Free(g, s, d), Namesake(g, s, d);
    NotBefore(g, s, d);
    if i > 0 {
      ChainSplit(g, g.base, s, Nil, i - 1);
      forall k | 0 <= k < i - 1
        ensures s[k] != s[i-1]
      {
        NamesApart(g, s, k, i - 1);
      }
      ChainFrame(g, h, g.base, s[..i-1], To(s[i-1]));
      assert Chain(h, To(s[i-1]), [s[i-1]], g.next[d]) by {
        assert [s[i-1]][1..] == [];
      }
      ChainJoin(h, h.base, s[..i-1], To(s[i-1]), [s[i-1]], g.next[d]);
      assert s[..i-1] + [s[i-1]] == s[..i];
    }
  }

  /** A rejoining tail follows the first i devices. */
  lemma {:induction false} RejoinedList(g: Graph, s: seq<nat>, d: nat, tail: seq<nat>)
    requires ListIs(g, s) && d < |g.next| && Namesake(g, s, d) < |s| && Rejoins(g, s, d, tail)
    ensures ListIs(Free(g, s, d), s[..Namesake(g, s, d)] + tail)
  {
    hide FindName, InfosOf, Chain, UniqueNames;
    var h, i := Free(g, s, d), Namesake(g, s, d);
    PrefixRelinked(g, s, d);
    NoReturn(g, d, tail);
    forall k | 0 <= k < |tail| && i > 0
      ensures tail[k] != s[i-1]
    {
      NamesApart(g, s[..i] + tail, i - 1, i + k);
    }
    ChainFrame(g, h, g.next[d], tail, Nil);
    ChainJoin(h, h.base, s[..i], g.next[d], tail, Nil);
    SameInfos(g, h, s[..i] + tail);
  }

  /** Two chains from one link, one of them to NULL: the shorter is a prefix of the longer. */
  lemma {:induction false} ChainPrefix(g: Graph, l: Link, a: seq<nat>, mid: Link, t: seq<nat>)
    requires Chain(g, l, a, mid) && Chain(g, l, t, Nil)
    ensures |a| <= |t| ==> t[..|a|] == a && Chain(g, mid, t[|a|..], Nil)
    ensures |a| > |t| ==> false
    decreases |a|
  {
    if a != [] {
      ChainPrefix(g, g.next[a[0]], a[1..], mid, t[1..]);
      assert t[..|a|] == [t[0]] + t[1..][..|a|-1] && a == [a[0]] + a[1..];
      assert t[|a|..] == t[1..][|a|-1..];
    }
  }

  /** Conversely, whatever proper list there is after a free, d led to its rest. */
  lemma {:induction false} RejoinedOnly(g: Graph, s: seq<nat>, d: nat, t: seq<nat>)
    requires ListIs(g, s) && d < |g.next| && Namesake(g, s, d) < |s| && ListIs(Free(g, s, d), t)
    ensures Namesake(g, s, d) <= |t| && t[..Namesake(g, s, d)] == s[..Namesake(g, s, d)]
    ensures Rejoins(g, s, d, t[Namesake(g, s, d)..])
  {
    hide FindName, InfosOf, Chain, UniqueNames;
    var h, i := Free(g, s, d), Namesake(g, s, d);
    PrefixRelinked(g, s, d);
    ChainPrefix(h, h.base, s[..i], g.next[d], t);
    var tail := t[i..];
    forall k | 0 <= k < |tail| && i > 0
      ensures tail[k] != s[i-1]
    {
      NamesApart(h, t, i - 1, i + k);
      assert t[i-1] == t[..i][i-1] && tail[k] == t[i + k];
    }
    ChainFrame(h, g, g.next[d], tail, Nil);
    assert t == s[..i] + tail;
    SameInfos(g, h, t);
  }

  /** A device whose name nobody on the list has is freed without touching the list. */
  lemma {:induction false} FreeUnnamed(g: Graph, s: seq<nat>, d: nat)
    requires ListIs(g, s) && d < |g.next| && Namesake(g, s, d) == |s|
    ensures d !in s && FreeSafe(g, s, d) && ListIs(Free(g, s, d), s)
  {
    hide FindName, InfosOf, Chain, UniqueNames;
    NotBefore(g, s, d);
    ChainFrame(g, Free(g, s, d), g.base, s, Nil);
    SameInfos(g, Free(g, s, d), s);
  }

  /** A free keeps the list live, acyclic, ending in NULL and with unique names exactly when it is safe. */
  lemma {:induction false} FreeOkIff(g: Graph, s: seq<nat>, d: nat)
    requires ListIs(g, s) && d < |g.next|
    ensures ListOk(Free(g, s, d)) <==> FreeSafe(g, s, d)
  {
    hide FindName, InfosOf, Chain, UniqueNames, Free, Rejoins;
    var i := Namesake(g, s, d);
    if i < |s| {
      if t :| ListIs(Free(g, s, d), t) {
        RejoinedOnly(g, s, d, t);
      }
      if tail :| Rejoins(g, s, d, tail) {
        RejoinedList(g, s, d, tail);
      }
    } else {
      FreeUnnamed(g, s, d);
    }
  }

  // ----- the cases a caller can see -----

  /** What the comment in the source promises. */
  function Promised(s: seq<nat>, d: nat): seq<nat> {
    if s == [] then [] else (if s[0] == d then [] else [s[0]]) + Promised(s[1..], d)
  }

  lemma {:induction false} PromisedListed(g: Graph, s: seq<nat>, i: nat)
    requires i < |s| && forall k :: 0 <= k < |s| && k != i ==> s[k] != s[i]
    ensures Promised(s, s[i]) == s[..i] + s[i+1..]
    decreases |s|
  {
    if i == 0 {
      PromisedUnlisted(s[1..], s[0]);
    } else {
      PromisedListed(g, s[1..], i - 1);
      assert s[..i] + s[i+1..] == [s[0]] + (s[1..][..i-1] + s[1..][i..]);
    }
  }

  lemma {:induction false} PromisedUnlisted(s: seq<nat>, d: nat)
    requires d !in s
    ensures Promised(s, d) == s
    decreases |s|
  {
    if s != [] { PromisedUnlisted(s[1..], d); }
  }

  lemma {:induction false} NamesakeOfListed(g: Graph, s: seq<nat>, i: nat)
    requires UniqueNames(InfosOf(g, s)) && i < |s|
    ensures Namesake(g, s, s[i]) == i
    ensures forall k :: 0 <= k < |s| && k != i ==> s[k] != s[i]
  {
    FindUnique(InfosOf(g, s), i);
    forall k | 0 <= k < |s| && k != i
      ensures s[k] != s[i]
    {
      NamesApart(g, s, if k < i then k else i, if k < i then i else k);
    }
  }

  /** Freeing a listed device takes exactly it off the list. */
  lemma {:induction false} FreeListed(g: Graph, s: seq<nat>, i: nat)
    requires ListIs(g, s) && i < |s|
    ensures s[i] < |g.next| && FreeSafe(g, s, s[i])
    ensures ListIs(Free(g, s, s[i]), s[..i] + s[i+1..])
  {
    ChainSplit(g, g.base, s, Nil, i);
    NamesakeOfListed(g, s, i);
    assert s[i..][1..] == s[i+1..];
    var r := s[..i] + s[i+1..];
    forall j, k | 0 <= j < k < |r|
      ensures InfosOf(g, r)[j].name != InfosOf(g, r)[k].name
    {
      var j', k' := if j < i then j else j + 1, if k < i then k else k + 1;
      assert InfosOf(g, s)[j'].name != InfosOf(g, s)[k'].name;
    }
    assert Rejoins(g, s, s[i], s[i+1..]);
    RejoinedList(g, s, s[i], s[i+1..]);
  }

  /** Freeing a device that leads nowhere, while another of its name is listed, drops that one and every
      device behind it. */
  lemma {:induction false} FreeRefusedTruncates(g: Graph, s: seq<nat>, d: nat)
    requires ListIs(g, s) && d < |g.next| && g.next[d] == Nil && d !in s && Namesake(g, s, d) < |s|
    ensures FreeSafe(g, s, d) && ListIs(Free(g, s, d), s[..Namesake(g, s, d)])
  {
    var i := Namesake(g, s, d);
    assert s[..i] + [] == s[..i];
    forall j, k | 0 <= j < k < i
      ensures InfosOf(g, s[..i])[j].name != InfosOf(g, s[..i])[k].name
    {
      assert InfosOf(g, s)[j].name != InfosOf(g, s)[k].name;
    }
    assert Rejoins(g, s, d, []);
    RejoinedList(g, s, d, []);
  }

  /** The free does what the comment promises exactly when the device is listed, or no listed device has
      its name, or it happens to lead to the one that has. */
  lemma {:induction false} AsPromisedIff(g: Graph, s: seq<nat>, d: nat)
    requires ListIs(g, s) && d < |g.next|
    ensures ListIs(Free(g, s, d), Promised(s, d))
            <==> d in s || Namesake(g, s, d) == |s| || g.next[d] == To(s[Namesake(g, s, d)])
  {
    hide Chain, FindName, InfosOf, UniqueNames, Free, Promised;
    if d in s {
      var k :| 0 <= k < |s| && s[k] == d;
      NamesakeOfListed(g, s, k);
      PromisedListed(g, s, k);
      FreeListed(g, s, k);
    } else if Namesake(g, s, d) == |s| {
      PromisedUnlisted(s, d);
      FreeUnnamed(g, s, d);
    } else {
      PromisedUnlisted(s, d);
      KeptWholeIff(g, s, d);
    }
  }

  lemma {:induction false} KeptWholeIff(g: Graph, s: seq<nat>, d: nat)
    requires ListIs(g, s) && d < |g.next| && Namesake(g, s, d) < |s|
    ensures ListIs(Free(g, s, d), s) <==> g.next[d] == To(s[Namesake(g, s, d)])
  {
    hide FindName, InfosOf, UniqueNames, Free;
    var i := Namesake(g, s, d);
    ChainSplit(g, g.base, s, Nil, i);
    assert s[..i] + s[i..] == s;
    if g.next[d] == To(s[i]) {
      RejoinedList(g, s, d, s[i..]);
    }
    if ListIs(Free(g, s, d), s) {
      RejoinedOnly(g, s, d, s);
      assert s[i..][0] == s[i];
    }
  }

  /** A registration appends the device exactly when its name is new. */
  lemma {:induction false} RegisterIs(g: Graph, s: seq<nat>, d: nat)
    requires ListIs(g, s) && Live(g, d)
    ensures ListIs(Register(g, s, d), if Namesake(g, s, d) == |s| then s + [d] else s)
    ensures InfosOf(g, s + [d]) == InfosOf(g, s) + [InfoAt(g, d)]
  {
    hide FindName, Chain;
    var h := Register(g, s, d);
    assert InfosOf(g, s + [d]) == InfosOf(g, s) + [InfoAt(g, d)];
    if s == [] {
      assert [d][1..] == [] && s + [d] == [d];
      OneChain(h, d);
    } else if Namesake(g, s, d) == |s| {
      AppendedChain(g, s, d);
      SameInfos(g, h, s + [d]);
      AddKeepsUnique(InfosOf(g, s), InfoAt(g, d));
    }
  }

  lemma {:induction false} OneChain(g: Graph, d: nat)
    requires Live(g, d) && g.next[d] == Nil
    ensures Chain(g, To(d), [d], Nil)
  {
    assert [d][1..] == [];
  }

  lemma {:induction false} AppendedChain(g: Graph, s: seq<nat>, d: nat)
    requires ListIs(g, s) && Live(g, d) && Namesake(g, s, d) == |s| > 0
    ensures Chain(Register(g, s, d), g.base, s + [d], Nil)
  {
    hide FindName, InfosOf, UniqueNames;
    var h := Register(g, s, d);
    var last := |s| - 1;
    ChainSplit(g, g.base, s, Nil, last);
    NotBefore(g, s, d);
    forall k | 0 <= k < last
      ensures s[k] != s[last]
    {
      NamesApart(g, s, k, last);
    }
    ChainFrame(g, h, g.base, s[..last], To(s[last]));
    var end := [s[last], d];
    assert s[last] != d;
    assert end[1..] == [d] && end[1..][1..] == [];
    assert Chain(h, To(d), [d], Nil);
    assert Chain(h, To(s[last]), end, Nil);
    ChainJoin(h, h.base, s[..last], To(s[last]), end, Nil);
    assert s[..last] + end == s + [d];
  }

  /** An allocation is refused exactly for a listed name. Otherwise there is one more device, with this name, that
      leads nowhere; no link changes, and the list is the same. */
  lemma {:induction false} AllocateIs(g: Graph, s: seq<nat>, info: Info)
    requires ListIs(g, s)
    ensures ListIs(Allocate(g, s, info), s)
    ensures var h, d := Allocate(g, s, info), |g.next|;
      if exists k :: 0 <= k < |s| && InfoAt(g, s[k]).name == info.name then h == g
      else h == g.(next := g.next + [Nil], infos := g.infos + [info]) && Live(h, d) && h.next[d] == Nil && InfoAt(h, d) == info
  {
    var h := Allocate(g, s, info);
    hide FindName, UniqueNames, Chain;
    ChainInside(g, g.base, s, Nil);
    ChainFrame(g, h, g.base, s, Nil);
    assert InfosOf(h, s) == InfosOf(g, s);
  }

  lemma {:induction false} ChainInside(g: Graph, l: Link, s: seq<nat>, end: Link)
    requires Chain(g, l, s, end)
    ensures forall i :: 0 <= i < |s| ==> s[i] < |g.next|
    decreases |s|
  {
    if s != [] {
      ChainInside(g, g.next[s[0]], s[1..], end);
      assert forall i :: 0 < i < |s| ==> s[i] == s[1..][i-1];
    }
  }
}
