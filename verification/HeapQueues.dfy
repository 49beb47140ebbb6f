/** The lists of dmx_adv.c on the heap: the free list and the queues of DmxState as rings over one cell per
    section node. The list loops of HeapList carry out the transitions of DmxState on all lists at once. */
module HeapQueues {
  import opened Bytes
  import opened Select
  import opened HeapList
  import opened DmxState
  import opened DmxInvariant

  ghost predicate InArena(q: seq<nat>, size: nat) {
    forall i :: 0 <= i < |q| ==> q[i] < size
  }

  /** Cell n is the list head inside BUF_NODE n. */
  ghost function Cells(cells: seq<ListHead>, q: seq<nat>): (r: seq<ListHead>)
    requires InArena(q, |cells|)
    ensures |r| == |q| && forall i :: 0 <= i < |q| ==> r[i] == cells[q[i]]
  {
    seq(|q|, i requires 0 <= i < |q| => cells[q[i]])
  }

  ghost predicate Once(q: seq<nat>) {
    forall i, j :: 0 <= i < j < |q| ==> q[i] != q[j]
  }

  ghost predicate NoneShared(p: seq<nat>, q: seq<nat>) {
    forall i, j :: 0 <= i < |p| && 0 <= j < |q| ==> p[i] != q[j]
  }

  /** Free list and queues hold nodes of the arena, no node twice. */
  ghost predicate Spread(s: Dmx) {
    && InArena(s.free, |s.nodes|) && Once(s.free)
    && (forall c :: 0 <= c < |s.channels| ==>
          var q := s.channels[c].secList;
          InArena(q, |s.nodes|) && Once(q) && NoneShared(q, s.free))
    && (forall c, d :: 0 <= c < d < |s.channels| ==> NoneShared(s.channels[c].secList, s.channels[d].secList))
  }

  lemma {:induction false} WfSpread(s: Dmx)
    requires Wf(s)
    ensures Spread(s)
  {
    forall i | 0 <= i < |s.free|
      ensures s.free[i] < |s.nodes|
    {
      assert Total(s, s.free[i]) > 0;
    }
    forall i, j | 0 <= i < j < |s.free|
      ensures s.free[i] != s.free[j]
    {
      if s.free[i] == s.free[j] { PlacesAgree(s, InFree(i), InFree(j), s.free[i]); }
    }
    forall c, i | 0 <= c < |s.channels| && 0 <= i < |s.channels[c].secList|
      ensures s.channels[c].secList[i] < |s.nodes|
    {
      assert ChannelOk(s.channels[c], c, s.nodes);
      assert s.channels[c].secList[i] in s.channels[c].secList;
    }
    forall c, i, d, j | 0 <= c < |s.channels| && 0 <= i < |s.channels[c].secList|
                        && 0 <= d < |s.channels| && 0 <= j < |s.channels[d].secList| && (c < d || (c == d && i < j))
      ensures s.channels[c].secList[i] != s.channels[d].secList[j]
    {
      if s.channels[c].secList[i] == s.channels[d].secList[j] {
        PlacesAgree(s, InQueue(c, i), InQueue(d, j), s.channels[c].secList[i]);
      }
    }
    forall c, i, j | 0 <= c < |s.channels| && 0 <= i < |s.channels[c].secList| && 0 <= j < |s.free|
      ensures s.channels[c].secList[i] != s.free[j]
    {
      if s.channels[c].secList[i] == s.free[j] {
        PlacesAgree(s, InQueue(c, i), InFree(j), s.free[j]);
      }
    }
  }

  /** The list heads and the cells of the nodes are different objects. */
  ghost predicate Separate(cells: seq<ListHead>, heads: seq<ListHead>, free: ListHead) {
    && Distinct(cells) && Distinct(heads) && free !in cells && free !in heads
    && forall i :: 0 <= i < |heads| ==> heads[i] !in cells
  }

  /** The heap holds the free list, the queues and the filter ids of s. */
  ghost predicate Represents(cells: seq<ListHead>, heads: seq<ListHead>, free: ListHead, s: Dmx)
    reads cells, heads, free
  {
    && Wf(s) && Spread(s) && Separate(cells, heads, free)
    && |cells| == |s.nodes| && |heads| == |s.channels|
    && Ring(free, Cells(cells, s.free))
    && (forall c :: 0 <= c < |heads| ==> Ring(heads[c], Cells(cells, s.channels[c].secList)))
    && (forall n :: 0 <= n < |cells| ==> cells[n].fltId == s.nodes[n].fltId)
  }

  /** The rings that an operation on channel ch works on. */
  ghost function Touched(cells: seq<ListHead>, heads: seq<ListHead>, free: ListHead, s: Dmx, ch: nat): seq<ListHead>
    requires ch < |heads| == |s.channels| && |cells| == |s.nodes| && Spread(s)
  {
    [heads[ch], free] + Cells(cells, s.channels[ch].secList) + Cells(cells, s.free)
  }

  /** Every other queue lies elsewhere. */
  lemma {:induction false} OthersElsewhere(cells: seq<ListHead>, heads: seq<ListHead>, free: ListHead, s: Dmx, ch: nat, c: nat)
    requires ch < |heads| == |s.channels| && |cells| == |s.nodes| && Spread(s) && Separate(cells, heads, free)
    requires c < |heads| && c != ch
    ensures var t := Touched(cells, heads, free, s, ch);
      heads[c] !in t && forall i :: 0 <= i < |s.channels[c].secList| ==> cells[s.channels[c].secList[i]] !in t
  {
    var q, p := s.channels[c].secList, s.channels[ch].secList;
    assert NoneShared(q, s.free);
    assert if c < ch then NoneShared(q, p) else NoneShared(p, q);
  }

  lemma {:induction false} TouchedApart(cells: seq<ListHead>, heads: seq<ListHead>, free: ListHead, s: Dmx, ch: nat)
    requires ch < |heads| == |s.channels| && |cells| == |s.nodes| && Spread(s) && Separate(cells, heads, free)
    ensures Apart(heads[ch], Cells(cells, s.channels[ch].secList), free, Cells(cells, s.free))
  {
    var q := s.channels[ch].secList;
    assert NoneShared(q, s.free);
  }

  lemma {:induction false} CellsJoin(cells: seq<ListHead>, p: seq<nat>, q: seq<nat>)
    requires InArena(p, |cells|) && InArena(q, |cells|)
    ensures InArena(p + q, |cells|) && Cells(cells, p + q) == Cells(cells, p) + Cells(cells, q)
  {
  }

  /** while(NULL != (node = node_get(list))) node_return(node, free) */
  method Flush(ch: nat, heads: seq<ListHead>, free: ListHead, ghost cells: seq<ListHead>, ghost s: Dmx)
    requires Represents(cells, heads, free, s) && ch < |heads|
    modifies cells`next, cells`prev, heads`next, heads`prev, free`next, free`prev
    ensures Represents(cells, heads, free, DmxState.Flush(s, ch))
  {
    hide Ring, Wf, Separate, Distinct, Apart, Once, NoneShared;
    ghost var q, s' := s.channels[ch].secList, DmxState.Flush(s, ch);
    FlushWf(s, ch);
    WfSpread(s');
    TouchedApart(cells, heads, free, s, ch);
    FlushAll(heads[ch], free, Cells(cells, q), Cells(cells, s.free));
    CellsJoin(cells, s.free, q);
    forall c | 0 <= c < |heads|
      ensures Ring(heads[c], Cells(cells, s'.channels[c].secList))
    {
      if c != ch {
        OthersElsewhere(cells, heads, free, s, ch, c);
        assert old(Ring(heads[c], Cells(cells, s.channels[c].secList)));
      }
    }
  }

  lemma {:induction false} CellsSelect(cells: seq<ListHead>, q: seq<nat>, keys: seq<nat>, flt: nat)
    requires InArena(q, |cells|) && |keys| == |q|
    ensures InArena(Picked(q, keys, flt), |cells|) && InArena(Skipped(q, keys, flt), |cells|)
    ensures Cells(cells, Picked(q, keys, flt)) == Picked(Cells(cells, q), keys, flt)
    ensures Cells(cells, Skipped(q, keys, flt)) == Skipped(Cells(cells, q), keys, flt)
    decreases |q|
  {
    hide Cells;
    if q != [] {
      var one, none := [q[0]], q[..0];
      CellsSelect(cells, q[1..], keys[1..], flt);
      assert Cells(cells, q)[1..] == Cells(cells, q[1..]) && Cells(cells, one) == [Cells(cells, q)[0]];
      CellsJoin(cells, if keys[0] == flt then one else none, Picked(q[1..], keys[1..], flt));
      CellsJoin(cells, if keys[0] == flt then none else one, Skipped(q[1..], keys[1..], flt));
    }
  }

  /** while(NULL != (node = node_get_one(list, flt))) node_return(node, free) */
  method FlushOneFilter(ch: nat, flt: nat, heads: seq<ListHead>, free: ListHead, ghost cells: seq<ListHead>, ghost s: Dmx)
    requires Represents(cells, heads, free, s) && ch < |heads|
    modifies cells`next, cells`prev, heads`next, heads`prev, free`next, free`prev
    ensures Represents(cells, heads, free, DmxState.FlushFilter(s, ch, flt))
  {
    hide Ring, Wf, Separate, Distinct, Apart, Once, NoneShared, Picked, Skipped;
    ghost var q, s' := s.channels[ch].secList, DmxState.FlushFilter(s, ch, flt);
    ghost var keys := Keys(q, s.nodes);
    FlushFilterWf(s, ch, flt);
    WfSpread(s');
    TouchedApart(cells, heads, free, s, ch);
    assert Ids(Cells(cells, q)) == keys;
    CellsSelect(cells, q, keys, flt);
    HeapList.FlushFilter(heads[ch], free, flt, Cells(cells, q), Cells(cells, s.free));
    CellsJoin(cells, s.free, Picked(q, keys, flt));
    forall c | 0 <= c < |heads|
      ensures Ring(heads[c], Cells(cells, s'.channels[c].secList))
    {
      if c != ch {
        OthersElsewhere(cells, heads, free, s, ch, c);
        assert old(Ring(heads[c], Cells(cells, s.channels[c].secList)));
      }
    }
  }

  lemma {:induction false} CellsWithout(cells: seq<ListHead>, q: seq<nat>, k: nat)
    requires InArena(q, |cells|) && k < |q|
    ensures InArena(Without(q, k), |cells|) && Cells(cells, Without(q, k)) == Without(Cells(cells, q), k)
  {
  }

  /** The peek of adv_dmx_get_sec; `live` is its test of the filter. */
  method Peek(ch: nat, flt: nat, specific: bool, live: bool, heads: seq<ListHead>,
              ghost free: ListHead, ghost cells: seq<ListHead>, ghost s: Dmx) returns (node: ListHead?)
    requires Represents(cells, heads, free, s) && Usable(s, ch) && live == FilterLive(s.channels[ch], flt)
    ensures node == match GetSec(s, ch, flt, specific) case None => null case Some(n) => cells[n]
  {
    hide Ring, Wf, Separate, Distinct, Once, NoneShared;
    ghost var q := s.channels[ch].secList;
    assert Ids(Cells(cells, q)) == Keys(q, s.nodes);
    node := null;
    if !specific {
      node := NodeTryGet(heads[ch], Cells(cells, q));
    } else if live {
      node := NodeTryGetOne(heads[ch], flt, Cells(cells, q));
    }
  }

  /** The moves of adv_dmx_rel_sec. */
  method Release(ch: nat, flt: nat, specific: bool, live: bool, heads: seq<ListHead>, free: ListHead,
                 ghost cells: seq<ListHead>, ghost s: Dmx) returns (ok: bool)
    requires Represents(cells, heads, free, s) && Usable(s, ch) && live == FilterLive(s.channels[ch], flt)
    modifies cells`next, cells`prev, heads`next, heads`prev, free`next, free`prev
    ensures ok == RelSec(s, ch, flt, specific).1
    ensures Represents(cells, heads, free, RelSec(s, ch, flt, specific).0)
  {
    hide Ring, Wf, Separate, Distinct, Apart, Once, NoneShared, FirstAt, Keys, Ids, Cells, Without;
    ghost var q, s' := s.channels[ch].secList, RelSec(s, ch, flt, specific).0;
    ghost var k := DmxState.Target(s, ch, flt, specific);
    RelSecWf(s, ch, flt, specific);
    WfSpread(s');
    TouchedApart(cells, heads, free, s, ch);
    assert Ids(Cells(cells, q)) == Keys(q, s.nodes);
    if k < |q| {
      CellsWithout(cells, q, k);
      CellsJoin(cells, s.free, [q[k]]);
      assert Cells(cells, [q[k]]) == [cells[q[k]]];
    }
    if !specific {
      ok := MoveFirst(heads[ch], free, Cells(cells, q), Cells(cells, s.free));
    } else if live {
      ok := MoveOne(heads[ch], free, flt, Cells(cells, q), Cells(cells, s.free));
    } else {
      ok := false;
    }
    forall c | 0 <= c < |heads|
      ensures Ring(heads[c], Cells(cells, s'.channels[c].secList))
    {
      if c != ch {
        OthersElsewhere(cells, heads, free, s, ch, c);
        assert old(Ring(heads[c], Cells(cells, s.channels[c].secList)));
      }
    }
  }

  /** The first free node gets the filter id and goes to the tail of the queue. */
  method Fill(list: ListHead, free: ListHead, flt: nat, ghost s: seq<ListHead>, ghost f: seq<ListHead>)
    returns (node: ListHead?)
    requires Ring(list, s) && Ring(free, f) && Apart(free, f, list, s)
    modifies list`next, list`prev, s`next, s`prev, free`next, free`prev, f`next, f`prev, f`fltId
    ensures f == [] ==> node == null && Ring(list, s) && Ring(free, f)
    ensures f != [] ==> node == f[0] && Ring(free, Without(f, 0)) && Ring(list, s + [f[0]]) && node.fltId == flt
    ensures forall x :: x in f && x != node ==> x.fltId == old(x.fltId)
  {
    node := NodeGet(free, f);
    if node != null {
      ApartAfterMove(free, f, list, s, 0);
      assert Without(f, 0) == f[1..];
      assert Ring(list, s) && Apart(free, f[1..], list, s + [node]);
      node.fltId := flt;
      assert node !in f[1..] && Ring(free, f[1..]) && Ring(list, s);
      NodeReturn(node, list, s);
      assert Ring(free, f[1..]);
    }
  }

  /** The moves of adv_dmx_sec_cb once its tests hold; what is copied into the buffer is `data`. */
  method Accept(i: nat, flt: nat, heads: seq<ListHead>, free: ListHead,
                ghost cells: seq<ListHead>, ghost s: Dmx, ghost data: seq<Byte>)
    requires Represents(cells, heads, free, s) && i < |heads| && Accepts(s, i, flt)
    modifies cells, heads`next, heads`prev, free`next, free`prev
    ensures Represents(cells, heads, free, SecCb(s, i, flt, data))
  {
    hide Ring, Wf, Separate, Distinct, Apart, Once, NoneShared, Accepts;
    ghost var q, s' := s.channels[i].secList, SecCb(s, i, flt, data);
    SecCbWf(s, i, flt, data);
    WfSpread(s');
    TouchedApart(cells, heads, free, s, i);
    if s.free != [] {
      CellsWithout(cells, s.free, 0);
      CellsJoin(cells, q, [s.free[0]]);
      assert Without(s.free, 0) == s.free[1..] && Cells(cells, [s.free[0]]) == [cells[s.free[0]]];
    }
    var _ := Fill(heads[i], free, flt, Cells(cells, q), Cells(cells, s.free));
    forall c | 0 <= c < |heads|
      ensures Ring(heads[c], Cells(cells, s'.channels[c].secList))
    {
      if c != i {
        OthersElsewhere(cells, heads, free, s, i, c);
        assert old(Ring(heads[c], Cells(cells, s.channels[c].secList)));
      }
    }
    forall n | 0 <= n < |cells|
      ensures cells[n].fltId == s'.nodes[n].fltId
    {
      DifferentCells(cells, heads, free, s, n);
    }
  }

  lemma {:induction false} DifferentCells(cells: seq<ListHead>, heads: seq<ListHead>, free: ListHead, s: Dmx, n: nat)
    requires Separate(cells, heads, free) && n < |cells|
    ensures forall m :: 0 <= m < |cells| && m != n ==> cells[m] != cells[n]
  {
  }

  lemma {:induction false} WorkElsewhere(s: Dmx, ch: nat)
    requires Wf(s) && ch < |s.channels| && s.channels[ch].wkBuf.Some?
    ensures var w := s.channels[ch].wkBuf.value;
      w < |s.nodes| && w !in s.free && forall c :: 0 <= c < |s.channels| ==> w !in s.channels[c].secList
  {
    var w := s.channels[ch].wkBuf.value;
    CountUpdate(s.channels, ch, s.channels[ch], w);
    assert Total(s, w) > 0;
    if k :| 0 <= k < |s.free| && s.free[k] == w { PlacesAgree(s, InWork(ch), InFree(k), w); }
    forall c | 0 <= c < |s.channels|
      ensures w !in s.channels[c].secList
    {
      if k :| 0 <= k < |s.channels[c].secList| && s.channels[c].secList[k] == w {
        PlacesAgree(s, InWork(ch), InQueue(c, k), w);
      }
    }
  }

  lemma {:induction false} CellsTail(cells: seq<ListHead>, q: seq<nat>)
    requires InArena(q, |cells|)
    ensures q != [] ==> InArena(q[1..], |cells|) && Cells(cells, q[1..]) == Cells(cells, q)[1..]
  {
  }

  /** The tests of adv_dmx_alloc_channel in front of its node_get. */
  predicate CanOpen(s: Dmx, dmxId: nat, cb: nat) {
    s.initOk && cb != 0 && FirstIdle(s.channels) < |s.channels| && dmxId < |s.devs| && s.devs[dmxId]
  }

  lemma {:induction false} AllocTakes(s: Dmx, dmxId: nat, crcEn: nat, cb: nat)
    ensures var s' := AllocChannel(s, dmxId, crcEn, cb).0;
      && s'.nodes == s.nodes && |s'.channels| == |s.channels|
      && (forall c :: 0 <= c < |s.channels| ==> s'.channels[c].secList == s.channels[c].secList)
      && s'.free == if CanOpen(s, dmxId, cb) && s.free != [] then s.free[1..] else s.free
  {
  }

  /** The list work of adv_dmx_alloc_channel: if its tests hold, the first free node, if there is one, leaves
      the free list and becomes wk_buf. */
  method TakeWork(ready: bool, dmxId: nat, crcEn: nat, cb: nat, heads: seq<ListHead>, free: ListHead,
                  ghost cells: seq<ListHead>, ghost s: Dmx) returns (node: ListHead?)
    requires Represents(cells, heads, free, s) && ready == CanOpen(s, dmxId, cb)
    modifies cells`next, cells`prev, heads`next, heads`prev, free`next, free`prev
    ensures node == if ready && s.free != [] then cells[s.free[0]] else null
    ensures Represents(cells, heads, free, AllocChannel(s, dmxId, crcEn, cb).0)
  {
    hide Ring, Wf, Separate, Distinct, Apart, Once, NoneShared, AllocChannel, CanOpen, Cells;
    ghost var s' := AllocChannel(s, dmxId, crcEn, cb).0;
    AllocChannelWf(s, dmxId, crcEn, cb);
    WfSpread(s');
    AllocTakes(s, dmxId, crcEn, cb);
    node := null;
    if ready {
      CellsTail(cells, s.free);
      node := NodeGet(free, Cells(cells, s.free));
    }
    forall c | 0 <= c < |heads|
      ensures Ring(heads[c], Cells(cells, s'.channels[c].secList))
    {
      FreeElsewhere(cells, heads, free, s, c);
      assert old(Ring(heads[c], Cells(cells, s.channels[c].secList)));
    }
  }

  lemma {:induction false} FreeElsewhere(cells: seq<ListHead>, heads: seq<ListHead>, free: ListHead, s: Dmx, c: nat)
    requires c < |heads| == |s.channels| && |cells| == |s.nodes| && Spread(s) && Separate(cells, heads, free)
    ensures var t := [free] + Cells(cells, s.free);
      heads[c] !in t && forall i :: 0 <= i < |s.channels[c].secList| ==> cells[s.channels[c].secList[i]] !in t
  {
    assert NoneShared(s.channels[c].secList, s.free);
  }

  /** The list work of adv_dmx_free_channel: if its test holds, the queue and then wk_buf go to the free list. */
  method ReturnWork(ready: bool, ch: nat, wkBuf: ListHead?, heads: seq<ListHead>, free: ListHead,
                    ghost cells: seq<ListHead>, ghost s: Dmx)
    requires Represents(cells, heads, free, s) && ready == (Usable(s, ch) && !s.channels[ch].isEnabled)
    requires ready ==> s.channels[ch].wkBuf.Some? && s.channels[ch].wkBuf.value < |cells|
    requires ready ==> wkBuf == cells[s.channels[ch].wkBuf.value]
    modifies cells`next, cells`prev, heads`next, heads`prev, free`next, free`prev
    ensures Represents(cells, heads, free, FreeChannel(s, ch).0)
  {
    hide Ring, Wf, Separate, Distinct, Apart, Once, NoneShared;
    if !ready {
      return;
    }
    ghost var w, s1, s' := s.channels[ch].wkBuf.value, DmxState.Flush(s, ch), FreeChannel(s, ch).0;
    FreeChannelWf(s, ch);
    WfSpread(s');
    Flush(ch, heads, free, cells, s);
    WorkElsewhere(s1, ch);
    WorkCell(cells, heads, free, s1, w);
    CellsJoin(cells, s1.free, [w]);
    assert Cells(cells, [w]) == [wkBuf];
    label flushed:
    NodeReturn(wkBuf, free, Cells(cells, s1.free));
    forall c | 0 <= c < |heads|
      ensures Ring(heads[c], Cells(cells, s'.channels[c].secList))
    {
      FreeElsewhere(cells, heads, free, s1, c);
      assert old@flushed(Ring(heads[c], Cells(cells, s1.channels[c].secList)));
    }
  }

  lemma {:induction false} WorkCell(cells: seq<ListHead>, heads: seq<ListHead>, free: ListHead, s: Dmx, w: nat)
    requires |heads| == |s.channels| && |cells| == |s.nodes| && Spread(s) && Separate(cells, heads, free)
    requires w < |cells| && w !in s.free && forall c :: 0 <= c < |s.channels| ==> w !in s.channels[c].secList
    ensures cells[w] != free && cells[w] !in heads && cells[w] !in Cells(cells, s.free)
    ensures forall c, i :: 0 <= c < |s.channels| && 0 <= i < |s.channels[c].secList| ==> cells[s.channels[c].secList[i]] != cells[w]
  {
  }

  /** adv_dmx_init: empty queues, and all nodes on the free list in address order. */
  method Carve(channels: nat, size: nat) returns (heads: seq<ListHead>, free: ListHead, cells: seq<ListHead>)
    ensures |heads| == channels && |cells| == size && Separate(cells, heads, free)
    ensures fresh(heads) && fresh(cells) && fresh(free)
    ensures Ring(free, cells) && forall c :: 0 <= c < channels ==> Ring(heads[c], [])
  {
    free := new ListHead();
    heads, cells := [], [];
    for c := 0 to channels
      invariant |heads| == c && Separate([], heads, free) && fresh(heads) && fresh(free) && Ring(free, [])
      invariant forall k :: 0 <= k < c ==> Ring(heads[k], [])
    {
      var h := new ListHead();
      heads := heads + [h];
    }
    for n := 0 to size
      invariant |heads| == channels && |cells| == n && Separate(cells, heads, free)
      invariant fresh(heads) && fresh(cells) && fresh(free) && Ring(free, cells)
      invariant forall k :: 0 <= k < channels ==> Ring(heads[k], [])
    {
      var cell := new ListHead();
      NodeReturn(cell, free, cells);
      cells := cells + [cell];
    }
  }

  lemma {:induction false} CarvedRepresents(cells: seq<ListHead>, heads: seq<ListHead>, free: ListHead, s: Dmx)
    requires Wf(s) && Separate(cells, heads, free) && |cells| == |s.nodes| && |heads| == |s.channels|
    requires Ring(free, cells) && forall c :: 0 <= c < |heads| ==> Ring(heads[c], []) && s.channels[c].secList == []
    requires s.free == seq(|s.nodes|, i => i) && forall n :: 0 <= n < |cells| ==> cells[n].fltId == s.nodes[n].fltId
    ensures Represents(cells, heads, free, s)
  {
    hide Ring, Wf;
    WfSpread(s);
    assert Cells(cells, s.free) == cells;
  }
}
