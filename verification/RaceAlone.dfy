/** The statements of FilterRace, run by one context alone, make up the functions of DmxState. */
module RaceAlone {
  import opened Bytes
  import opened Select
  import opened DmxState
  import opened DmxInvariant
  import opened FilterRace

  /** What FilterRace keeps of a channel. */
  function Sketch(c: Channel, nodes: seq<Section>): Chan {
    Chan(c.flts, c.maskEn, Keys(c.secList, nodes), c.wkBuf.Some?, c.isAllocated, c.isEnabled)
  }

  function SketchOf(d: Dmx, ch: nat): Chan
    requires ch < |d.channels|
  {
    Sketch(d.channels[ch], d.nodes)
  }

  /** n statements from pc on; None once an ASSERT was reached. */
  function Alone(c: Chan, pc: Pc, n: nat): (Chan, Option<Pc>)
    decreases n
  {
    if n == 0 then (c, Some(pc))
    else match Statement(c, pc) { case (c', None) => (c', None) case (c', Some(p)) => Alone(c', p, n - 1) }
  }

  lemma {:induction false} AloneThen(c: Chan, pc: Pc, m: nat, n: nat, c1: Chan, p1: Pc)
    requires Alone(c, pc, m) == (c1, Some(p1))
    ensures Alone(c, pc, m + n) == Alone(c1, p1, n)
    decreases m
  {
    hide Statement;
    if m > 0 {
      var (c', p) := Statement(c, pc);
      AloneThen(c', p.value, m - 1, n, c1, p1);
    }
  }

  lemma {:induction false} OneMore(c: Chan, pc: Pc, m: nat, c1: Chan, p1: Pc)
    requires Alone(c, pc, m) == (c1, Some(p1))
    ensures Alone(c, pc, m + 1) == Statement(c1, p1)
  {
    AloneThen(c, pc, m, 1, c1, p1);
    hide Statement;
    assert Alone(c1, p1, 1) == Statement(c1, p1) by { OneAlone(c1, p1); }
  }

  lemma {:induction false} OneAlone(c: Chan, pc: Pc)
    ensures Alone(c, pc, 1) == Statement(c, pc)
  {
    hide Statement;
    var (c', p) := Statement(c, pc);
    if p.Some? { assert Alone(c', p.value, 0) == (c', p); }
  }

  // ----- the flush loops -----

  /** The loop that takes out one filter's sections. */
  lemma {:induction false} FlushesOne(c: Chan, pc: Pc, f: nat) returns (n: nat)
    requires (pc.FreeFlushing? || pc.SetFlushing?) && pc.f == f
    ensures f !in Skipped(c.queue, c.queue, f)
    ensures Alone(c, pc, n) == (c.(queue := Skipped(c.queue, c.queue, f)), Some(pc))
    decreases |c.queue|
  {
    if f in c.queue {
      var k := FirstAt(c.queue, f);
      TakeFirst(c.queue, c.queue, f);
      var rest := c.(queue := Without(c.queue, k));
      var m := FlushesOne(rest, pc, f);
      OneAlone(c, pc);
      AloneThen(c, pc, 1, m, rest, pc);
      n := 1 + m;
    } else {
      NoneSelected(c.queue, c.queue, f);
      n := 0;
    }
  }

  /** The loop that empties the queue. */
  lemma {:induction false} FlushesAll(c: Chan, pc: Pc) returns (n: nat)
    requires pc.CloseFlushing?
    ensures Alone(c, pc, n) == (c.(queue := []), Some(pc))
    decreases |c.queue|
  {
    if c.queue == [] {
      n := 0;
    } else {
      var rest := c.(queue := c.queue[1..]);
      var m := FlushesAll(rest, pc);
      OneAlone(c, pc);
      AloneThen(c, pc, 1, m, rest, pc);
      n := 1 + m;
    }
  }

  lemma {:induction false} SkippedKeys(q: seq<nat>, nodes: seq<Section>, f: nat)
    ensures Keys(Skipped(q, Keys(q, nodes), f), nodes) == Skipped(Keys(q, nodes), Keys(q, nodes), f)
  {
    var keys := Keys(q, nodes);
    if q != [] {
      assert keys[1..] == Keys(q[1..], nodes);
      SkippedKeys(q[1..], nodes, f);
      var rest := Skipped(q[1..], keys[1..], f);
      assert keys[0] != f ==> Keys([q[0]] + rest, nodes) == [keys[0]] + Keys(rest, nodes);
    }
  }

  // ----- the functions -----

  /** The statements of free_filter for a filter that is allocated, */
  lemma {:induction false} FreesFilter(c: Chan, ch: nat, f: nat) returns (n: nat)
    requires c.isAlloc && f in c.msk
    ensures Alone(c, FreeEntered(ch, f), n)
            == (c.(msk := c.msk - {f}, en := c.en - {f}, queue := Skipped(c.queue, c.queue, f)), Some(Idle))
  {
    hide Skipped;
    var c1 := c.(msk := c.msk - {f});
    var c2 := c1.(en := c1.en - {f});
    var c3 := c2.(queue := Skipped(c2.queue, c2.queue, f));
    OneAlone(c, FreeEntered(ch, f));
    OneMore(c, FreeEntered(ch, f), 1, c, FreeInside(ch, f));
    OneMore(c, FreeEntered(ch, f), 2, c, FreeTested(ch, f));
    OneMore(c, FreeEntered(ch, f), 3, c1, FreeCleared(ch, f));
    hide Alone;
    var m := FlushesOne(c2, FreeFlushing(ch, f), f);
    AloneThen(c, FreeEntered(ch, f), 4, m, c2, FreeFlushing(ch, f));
    OneMore(c, FreeEntered(ch, f), 4 + m, c3, FreeFlushing(ch, f));
    n := 4 + m + 1;
  }

  /** and of set_filter. */
  lemma {:induction false} SetsFilter(c: Chan, ch: nat, f: nat) returns (n: nat)
    requires c.isAlloc && f in c.msk
    ensures Alone(c, SetEntered(ch, f), n) == (c.(en := c.en + {f}, queue := Skipped(c.queue, c.queue, f)), Some(Idle))
  {
    hide Skipped;
    var c1 := c.(en := c.en - {f});
    var c2 := c1.(queue := Skipped(c1.queue, c1.queue, f));
    OneAlone(c, SetEntered(ch, f));
    OneMore(c, SetEntered(ch, f), 1, c, SetInside(ch, f));
    OneMore(c, SetEntered(ch, f), 2, c, SetTested(ch, f));
    hide Alone;
    var m := FlushesOne(c1, SetFlushing(ch, f), f);
    AloneThen(c, SetEntered(ch, f), 3, m, c1, SetFlushing(ch, f));
    OneMore(c, SetEntered(ch, f), 3 + m, c2, SetFlushing(ch, f));
    assert c.en - {f} + {f} == c.en + {f};
    n := 3 + m + 1;
  }

  /** free_filter, from its entry to its end; its ASSERT is not reached. */
  lemma {:induction false} FreeFilterAlone(d: Dmx, ch: nat, f: nat) returns (n: nat)
    requires Wf(d) && d.initOk && ch < |d.channels| && f < MAX_MASK_NUM
    ensures var d' := FreeFilter(d, ch, f).0;
      |d'.channels| == |d.channels| && Alone(SketchOf(d, ch), FreeEntered(ch, f), n) == (SketchOf(d', ch), Some(Idle))
  {
    var c := SketchOf(d, ch);
    assert ChannelOk(d.channels[ch], ch, d.nodes);
    SkippedKeys(d.channels[ch].secList, d.nodes, f);
    hide Wf, Skipped, Picked, Keys;
    if c.isAlloc && f in c.msk {
      n := FreesFilter(c, ch, f);
      hide Alone;
    } else {
      OneAlone(c, FreeEntered(ch, f));
      n := 1;
      if c.isAlloc {
        OneMore(c, FreeEntered(ch, f), 1, c, FreeInside(ch, f));
        n := 2;
      }
    }
  }

  /** set_filter */
  lemma {:induction false} SetFilterAlone(d: Dmx, ch: nat, f: nat, mask: seq<Byte>, value: seq<Byte>, len: nat) returns (n: nat)
    requires Wf(d) && d.initOk && ch < |d.channels| && f < MAX_MASK_NUM && len <= MAX_MASK_LEN && len <= |mask| && len <= |value|
    ensures var d' := SetFilter(d, ch, f, mask, value, len).0;
      |d'.channels| == |d.channels| && Alone(SketchOf(d, ch), SetEntered(ch, f), n) == (SketchOf(d', ch), Some(Idle))
  {
    var c := SketchOf(d, ch);
    assert ChannelOk(d.channels[ch], ch, d.nodes);
    SkippedKeys(d.channels[ch].secList, d.nodes, f);
    hide Wf, Skipped, Picked, Keys, Padded;
    if c.isAlloc && f in c.msk {
      n := SetsFilter(c, ch, f);
      hide Alone;
    } else {
      OneAlone(c, SetEntered(ch, f));
      n := 1;
      if c.isAlloc {
        OneMore(c, SetEntered(ch, f), 1, c, SetInside(ch, f));
        n := 2;
      }
    }
  }

  /** free_channel */
  lemma {:induction false} FreeChannelAlone(d: Dmx, ch: nat) returns (n: nat)
    requires Wf(d) && d.initOk && ch < |d.channels|
    ensures var d' := FreeChannel(d, ch).0;
      |d'.channels| == |d.channels| && Alone(SketchOf(d, ch), CloseEntered(ch), n) == (SketchOf(d', ch), Some(Idle))
  {
    var c := SketchOf(d, ch);
    assert ChannelOk(d.channels[ch], ch, d.nodes);
    hide Wf, ZeroRows;
    OneAlone(c, CloseEntered(ch));
    if !c.isAlloc || c.isOn {
      n := 1;
    } else {
      var m := FlushesAll(c, CloseFlushing(ch));
      var c1 := c.(queue := []);
      AloneThen(c, CloseEntered(ch), 1, m, c, CloseFlushing(ch));
      OneMore(c, CloseEntered(ch), 1 + m, c1, CloseFlushing(ch));
      OneMore(c, CloseEntered(ch), 2 + m, c1, CloseReturned(ch));
      assert Keys([], d.nodes) == [];
      n := 3 + m;
    }
  }

  /** alloc_channel, once its scan and node_get have succeeded */
  lemma {:induction false} AllocChannelAlone(d: Dmx, dmxId: nat, crcEn: nat, cb: nat)
    requires Wf(d) && AllocChannel(d, dmxId, crcEn, cb).1 != NO_ID
    ensures var (d', ch) := AllocChannel(d, dmxId, crcEn, cb);
      && ch < |d.channels| == |d'.channels| && Entry([SketchOf(d, ch)], OpenFound(0))
      && Alone(SketchOf(d, ch), OpenFound(ch), 2) == (SketchOf(d', ch), Some(Idle))
  {
    var (d', ch) := AllocChannel(d, dmxId, crcEn, cb);
    assert ChannelOk(d.channels[ch], ch, d.nodes);
    var c := SketchOf(d, ch);
    OneAlone(c, OpenFound(ch));
    OneMore(c, OpenFound(ch), 1, c.(isAlloc := true), OpenAllocated(ch));
  }

  /** alloc_filter, once its scan has succeeded */
  lemma {:induction false} AllocFilterAlone(d: Dmx, ch: nat)
    requires Wf(d) && AllocFilter(d, ch).1 != NO_ID
    ensures var (d', f) := AllocFilter(d, ch);
      && ch < |d.channels| == |d'.channels| && Entry([SketchOf(d, ch)], AllocFound(0, f))
      && Alone(SketchOf(d, ch), AllocFound(ch, f), 1) == (SketchOf(d', ch), Some(Idle))
  {
    OneAlone(SketchOf(d, ch), AllocFound(ch, AllocFilter(d, ch).1));
  }

  /** en_channel and dis_channel, where the hardware agrees */
  lemma {:induction false} SwitchAlone(d: Dmx, ch: nat, on: bool)
    requires d.initOk && ch < |d.channels|
    ensures var d' := if on then EnChannel(d, ch, true).0 else DisChannel(d, ch, true).0;
      |d'.channels| == |d.channels| && Alone(SketchOf(d, ch), SwitchEntered(ch, on), 1) == (SketchOf(d', ch), Some(Idle))
  {
    OneAlone(SketchOf(d, ch), SwitchEntered(ch, on));
  }

  /** And a section is let in exactly when sec_cb accepts it, at the end of the queue. */
  lemma {:induction false} ArriveAlone(d: Dmx, ch: nat, f: nat, data: seq<Byte>, s: State, locks: seq<bool>)
    requires Wf(d) && d.initOk && ch < |d.channels| == |s.chans| && s.chans[ch] == SketchOf(d, ch) && |locks| == |s.pcs|
    ensures Enabled(s, locks, Arrive(ch, f)) <==> Accepts(d, ch, f)
    ensures Accepts(d, ch, f) && d.free != [] ==>
      var d' := SecCb(d, ch, f, data); |d'.channels| == |d.channels| && Apply(s, locks, Arrive(ch, f)).chans[ch] == SketchOf(d', ch)
  {
    assert ChannelOk(d.channels[ch], ch, d.nodes);
    if Accepts(d, ch, f) && d.free != [] {
      FreeNotQueued(d, ch, d.free[0]);
      var q, d' := d.channels[ch].secList, SecCb(d, ch, f, data);
      assert Keys(q + [d.free[0]], d'.nodes) == Keys(q, d.nodes) + [f];
    }
  }
}
