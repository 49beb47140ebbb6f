/** The steps of NodeFlow, taken by one context with nobody in between, make up the functions of DmxState. */
module FlowAlone {
  import opened Bytes
  import opened Select
  import opened DmxState
  import opened DmxInvariant
  import opened NodeFlow

  /** Nobody is inside a function, and the nodes are where the state of the section layer has them. */
  ghost predicate Mirrors(f: Flow, s: Dmx) {
    && Shaped(f) && |f.queues| == |s.channels| && f.free == s.free && |f.content| == |s.nodes|
    && f.owner.None? && !f.torn && f.lost == s.loose
    && (forall k :: 0 <= k < |f.pcs| ==> f.pcs[k].Out?)
    && (forall n :: 0 <= n < |f.content| ==> f.content[n].flt == s.nodes[n].fltId)
    && forall i :: 0 <= i < |s.channels| ==> ChannelMirrors(f, i, s.channels[i])
  }

  predicate ChannelMirrors(f: Flow, i: nat, c: Channel)
    requires Shaped(f) && i < |f.queues|
  {
    && f.queues[i] == c.secList && f.isAlloc[i] == c.isAllocated && f.isOn[i] == c.isEnabled
    && f.work[i] == if c.wkBuf.Some? then Live(c.wkBuf.value) else Empty
  }

  /** The steps sts lead from f to g. */
  ghost predicate Leads(f: Flow, modes: seq<Mode>, sts: seq<Step>, g: Flow)
    decreases |sts|
  {
    if sts == [] then g == f
    else Enabled(f, modes, sts[0]) && Leads(Apply(f, modes, sts[0]), modes, sts[1..], g)
  }

  lemma {:induction false} LeadsThen(f: Flow, modes: seq<Mode>, a: seq<Step>, m: Flow, b: seq<Step>, g: Flow)
    requires Leads(f, modes, a, m) && Leads(m, modes, b, g)
    ensures Leads(f, modes, a + b, g)
    decreases |a|
  {
    hide Enabled, Apply;
    if a == [] {
      assert a + b == b;
    } else {
      assert (a + b)[0] == a[0] && (a + b)[1..] == a[1..] + b;
      LeadsThen(Apply(f, modes, a[0]), modes, a[1..], m, b, g);
    }
  }

  lemma {:induction false} One(f: Flow, modes: seq<Mode>, st: Step)
    requires Enabled(f, modes, st)
    ensures Leads(f, modes, [st], Apply(f, modes, st))
  {
    hide Enabled, Apply;
    assert [st][1..] == [];
  }

  lemma {:induction false} Two(f: Flow, modes: seq<Mode>, a: Step, b: Step)
    requires Enabled(f, modes, a) && Enabled(Apply(f, modes, a), modes, b)
    ensures Leads(f, modes, [a, b], Apply(Apply(f, modes, a), modes, b))
  {
    hide Enabled, Apply;
    One(f, modes, a);
    One(Apply(f, modes, a), modes, b);
    LeadsThen(f, modes, [a], Apply(f, modes, a), [b], Apply(Apply(f, modes, a), modes, b));
    assert [a] + [b] == [a, b];
  }

  lemma {:induction false} KeysMirror(f: Flow, s: Dmx, ch: nat)
    requires Wf(s) && Mirrors(f, s) && ch < |s.channels|
    ensures FltKeys(f.queues[ch], f.content) == Keys(s.channels[ch].secList, s.nodes)
  {
    var q := s.channels[ch].secList;
    assert ChannelOk(s.channels[ch], ch, s.nodes);
    assert ChannelMirrors(f, ch, s.channels[ch]);
    forall i | 0 <= i < |q|
      ensures FltKeys(q, f.content)[i] == Keys(q, s.nodes)[i]
    {
      assert q[i] in q;
    }
  }

  /** The driver callback. */
  lemma {:induction false} ArriveMirrors(f: Flow, s: Dmx, modes: seq<Mode>, ch: nat, flt: nat, data: seq<Byte>)
    requires Wf(s) && Mirrors(f, s) && ch < |s.channels| && Accepts(s, ch, flt) && s.free != []
    ensures Enabled(f, modes, Arrive(ch, flt)) && Mirrors(Apply(f, modes, Arrive(ch, flt)), SecCb(s, ch, flt, data))
  {
    DmxInvariant.FreeNotQueued(s, ch, s.free[0]);
    var g, t := Apply(f, modes, Arrive(ch, flt)), SecCb(s, ch, flt, data);
    forall i | 0 <= i < |t.channels|
      ensures ChannelMirrors(g, i, t.channels[i])
    {
      assert ChannelMirrors(f, i, s.channels[i]);
    }
  }

  /** Taking the node at position i of a queue, and giving it back. */
  lemma {:induction false} Returned(f: Flow, s: Dmx, k: nat, ch: nat, i: nat, g: Flow)
    requires Mirrors(f, s) && k < |f.pcs| && ch < |s.channels| && i < |s.channels[ch].secList|
    requires g == f.(queues := f.queues[ch := Without(f.queues[ch], i)], free := f.free + [f.queues[ch][i]], pcs := g.pcs, adm := g.adm)
    requires |g.pcs| == |f.pcs| && forall j :: 0 <= j < |g.pcs| ==> g.pcs[j].Out?
    ensures Mirrors(g, ReturnAt(s, ch, i))
  {
    var t := ReturnAt(s, ch, i);
    assert ChannelMirrors(f, ch, s.channels[ch]);
    forall j | 0 <= j < |t.channels|
      ensures ChannelMirrors(g, j, t.channels[j])
    {
      assert ChannelMirrors(f, j, s.channels[j]);
    }
  }

  /** rel_sec: node_get or node_get_one, and node_return; the same two steps are one turn of a flush loop. */
  lemma {:induction false} ReleaseMirrors(f: Flow, s: Dmx, modes: seq<Mode>, k: nat, ch: nat, flt: nat, specific: bool) returns (g: Flow)
    requires Wf(s) && Mirrors(f, s) && k < |f.pcs| && (k == ADM ==> f.adm.Peeked?) && RelSec(s, ch, flt, specific).1
    ensures Leads(f, modes, [if specific then TakeOne(k, ch, flt) else TakeHead(k, ch), GiveBack(k)], g)
    ensures Mirrors(g, RelSec(s, ch, flt, specific).0)
  {
    KeysMirror(f, s, ch);
    assert ChannelMirrors(f, ch, s.channels[ch]);
    var take := if specific then TakeOne(k, ch, flt) else TakeHead(k, ch);
    var i := Target(s, ch, flt, specific);
    Two(f, modes, take, GiveBack(k));
    g := Apply(Apply(f, modes, take), modes, GiveBack(k));
    Returned(f, s, k, ch, i, g);
  }

  /** The ADM task peeks, its callback succeeds, it pops and returns. */
  lemma {:induction false} RoundMirrors(f: Flow, s: Dmx, modes: seq<Mode>, ch: nat) returns (g: Flow)
    requires Wf(s) && Mirrors(f, s) && f.adm.Scanning? && |f.pcs| > ADM && ch < |s.channels| && s.channels[ch].secList != []
    ensures Leads(f, modes, [Peek(ch), Pop, GiveBack(ADM)], g) && g.adm.Scanning? && Mirrors(g, ReturnAt(s, ch, 0))
  {
    assert ChannelMirrors(f, ch, s.channels[ch]) && ChannelOk(s.channels[ch], ch, s.nodes);
    assert s.channels[ch].secList[0] in s.channels[ch].secList;
    var m := Apply(f, modes, Peek(ch));
    One(f, modes, Peek(ch));
    assert Without(f.queues[ch], 0) == f.queues[ch][1..];
    Two(m, modes, Pop, GiveBack(ADM));
    g := Apply(Apply(m, modes, Pop), modes, GiveBack(ADM));
    LeadsThen(f, modes, [Peek(ch)], m, [Pop, GiveBack(ADM)], g);
    assert [Peek(ch)] + [Pop, GiveBack(ADM)] == [Peek(ch), Pop, GiveBack(ADM)];
    Returned(f, s, ADM, ch, 0, g);
  }

  /** en_channel and dis_channel, where the hardware agrees. */
  lemma {:induction false} SwitchMirrors(f: Flow, s: Dmx, modes: seq<Mode>, k: nat, ch: nat, on: bool)
    requires Mirrors(f, s) && s.initOk && Free(f, k) && CanLock(f, modes, k) && ch < |s.channels| && s.channels[ch].isAllocated
    ensures Enabled(f, modes, Switch(k, ch, on))
    ensures Mirrors(Apply(f, modes, Switch(k, ch, on)), if on then EnChannel(s, ch, true).0 else DisChannel(s, ch, true).0)
  {
    assert ChannelMirrors(f, ch, s.channels[ch]);
    var g, t := Apply(f, modes, Switch(k, ch, on)), if on then EnChannel(s, ch, true).0 else DisChannel(s, ch, true).0;
    forall i | 0 <= i < |t.channels|
      ensures ChannelMirrors(g, i, t.channels[i])
    {
      assert ChannelMirrors(f, i, s.channels[i]);
    }
  }

  /** alloc_channel: scan, node_get, and storing wk_buf. */
  lemma {:induction false} AllocMirrors(f: Flow, s: Dmx, modes: seq<Mode>, k: nat, dmxId: nat, crcEn: nat, cb: nat) returns (g: Flow)
    requires Wf(s) && Mirrors(f, s) && Free(f, k) && CanLock(f, modes, k) && AllocChannel(s, dmxId, crcEn, cb).1 != NO_ID
    ensures var (t, ch) := AllocChannel(s, dmxId, crcEn, cb);
      Leads(f, modes, [ChooseIdle(k, ch), GetWork(k), Install(k)], g) && Mirrors(g, t)
  {
    var (t, ch) := AllocChannel(s, dmxId, crcEn, cb);
    forall i | 0 <= i < |s.channels|
      ensures ChannelMirrors(f, i, s.channels[i]) && ChannelOk(s.channels[i], i, s.nodes)
    {
    }
    hide Wf;
    forall j | 0 <= j < ch
      ensures f.isAlloc[j]
    {
      assert ChannelMirrors(f, j, s.channels[j]);
    }
    assert ChannelMirrors(f, ch, s.channels[ch]);
    var m := Apply(f, modes, ChooseIdle(k, ch));
    One(f, modes, ChooseIdle(k, ch));
    Two(m, modes, GetWork(k), Install(k));
    g := Apply(Apply(m, modes, GetWork(k)), modes, Install(k));
    LeadsThen(f, modes, [ChooseIdle(k, ch)], m, [GetWork(k), Install(k)], g);
    assert [ChooseIdle(k, ch)] + [GetWork(k), Install(k)] == [ChooseIdle(k, ch), GetWork(k), Install(k)];
    hide Leads;
    forall i | 0 <= i < |t.channels|
      ensures ChannelMirrors(g, i, t.channels[i])
    {
    }
  }

  /** One turn of the flush loop of free_channel, */
  lemma {:induction false} FlushTurn(f: Flow, modes: seq<Mode>, k: nat, ch: nat) returns (m: Flow)
    requires Shaped(f) && k < |f.pcs| && ch < |f.queues| && f.pcs[k] == Freeing(ch) && f.queues[ch] != []
    ensures Leads(f, modes, [FlushOne(k), FlushBack(k)], m)
    ensures m == f.(queues := f.queues[ch := f.queues[ch][1..]], free := f.free + [f.queues[ch][0]])
  {
    var q := f.queues[ch];
    m := Apply(Apply(f, modes, FlushOne(k)), modes, FlushBack(k));
    Two(f, modes, FlushOne(k), FlushBack(k));
    assert Without(q, 0) == q[1..];
    hide Leads;
    assert m.queues == f.queues[ch := q[1..]] && m.pcs == f.pcs;
  }

  /** and the loop. */
  lemma {:induction false} FlushLoop(f: Flow, modes: seq<Mode>, k: nat, ch: nat) returns (sts: seq<Step>)
    requires Shaped(f) && k < |f.pcs| && ch < |f.queues| && f.pcs[k] == Freeing(ch)
    ensures Leads(f, modes, sts, f.(queues := f.queues[ch := []], free := f.free + f.queues[ch]))
    ensures forall i :: 0 <= i < |sts| ==> sts[i] == if i % 2 == 0 then FlushOne(k) else FlushBack(k)
    ensures |sts| == 2 * |f.queues[ch]|
    decreases |f.queues[ch]|
  {
    var q := f.queues[ch];
    if q == [] {
      sts := [];
      assert f.queues[ch := []] == f.queues && f.free + q == f.free;
    } else {
      var m := FlushTurn(f, modes, k, ch);
      hide Enabled, Apply, Leads;
      var rest := FlushLoop(m, modes, k, ch);
      sts := [FlushOne(k), FlushBack(k)] + rest;
      var g := f.(queues := f.queues[ch := []], free := f.free + q);
      assert f.free + [q[0]] + q[1..] == f.free + q;
      assert m.queues[ch := []] == g.queues;
      LeadsThen(f, modes, [FlushOne(k), FlushBack(k)], m, rest, g);
    }
  }

  /** free_channel: tests, flush loop, wk_buf returned, record reset. */
  lemma {:induction false} FreeMirrors(f: Flow, s: Dmx, modes: seq<Mode>, k: nat, ch: nat) returns (sts: seq<Step>, g: Flow)
    requires Wf(s) && Mirrors(f, s) && Free(f, k) && CanLock(f, modes, k) && FreeChannel(s, ch).1
    ensures Leads(f, modes, [EnterFree(k, ch)] + sts + [ReturnWork(k), Reset(k)], g) && Mirrors(g, FreeChannel(s, ch).0)
    ensures ch < |s.channels| && |sts| == 2 * |s.channels[ch].secList|
    ensures forall i :: 0 <= i < |sts| ==> sts[i] == if i % 2 == 0 then FlushOne(k) else FlushBack(k)
  {
    assert ChannelOk(s.channels[ch], ch, s.nodes);
    hide Wf;
    assert ChannelMirrors(f, ch, s.channels[ch]);
    var m := Apply(f, modes, EnterFree(k, ch));
    One(f, modes, EnterFree(k, ch));
    sts := FlushLoop(m, modes, k, ch);
    var m1 := m.(queues := m.queues[ch := []], free := m.free + m.queues[ch]);
    LeadsThen(f, modes, [EnterFree(k, ch)], m, sts, m1);
    Two(m1, modes, ReturnWork(k), Reset(k));
    g := Apply(Apply(m1, modes, ReturnWork(k)), modes, Reset(k));
    LeadsThen(f, modes, [EnterFree(k, ch)] + sts, m1, [ReturnWork(k), Reset(k)], g);
    hide Leads, Enabled;
    FreedMirrors(f, s, modes, k, ch, g);
  }

  lemma {:induction false} FreedMirrors(f: Flow, s: Dmx, modes: seq<Mode>, k: nat, ch: nat, g: Flow)
    requires Mirrors(f, s) && FreeChannel(s, ch).1 && s.channels[ch].wkBuf.Some? && k < |f.pcs| && |g.pcs| == |f.pcs|
    requires g == f.(free := f.free + f.queues[ch] + [s.channels[ch].wkBuf.value], queues := f.queues[ch := []],
                     work := f.work[ch := Empty], isAlloc := f.isAlloc[ch := false], isOn := f.isOn[ch := false],
                     pcs := g.pcs)
    requires forall j :: 0 <= j < |g.pcs| ==> g.pcs[j].Out?
    ensures Mirrors(g, FreeChannel(s, ch).0)
  {
    var t := FreeChannel(s, ch).0;
    forall i | 0 <= i < |t.channels|
      ensures ChannelMirrors(g, i, t.channels[i])
    {
      assert ChannelMirrors(f, i, s.channels[i]);
    }
  }

  /** The ADM task peeks, and its callback refuses the section: nothing has happened. */
  lemma {:induction false} RefusedMirrors(f: Flow, s: Dmx, modes: seq<Mode>, ch: nat)
    requires Wf(s) && Mirrors(f, s) && f.adm.Scanning? && |f.pcs| > ADM && ch < |s.channels| && s.channels[ch].secList != []
    ensures Leads(f, modes, [Peek(ch), Refuse], f)
  {
    assert ChannelMirrors(f, ch, s.channels[ch]) && ChannelOk(s.channels[ch], ch, s.nodes);
    assert s.channels[ch].secList[0] in s.channels[ch].secList;
    hide Wf;
    Two(f, modes, Peek(ch), Refuse);
  }

  /** A context that can enter a function finds the tests of DmxState: the scan of alloc_channel stops at the first
      idle channel, free_channel goes on for an allocated, disabled one. */
  lemma {:induction false} TestsMirror(f: Flow, s: Dmx, modes: seq<Mode>, k: nat, ch: nat)
    requires Mirrors(f, s) && Free(f, k) && CanLock(f, modes, k)
    ensures Enabled(f, modes, ChooseIdle(k, ch)) <==> ch < |s.channels| && ch == FirstIdle(s.channels)
    ensures Enabled(f, modes, EnterFree(k, ch)) <==> ch < |s.channels| && s.channels[ch].isAllocated && !s.channels[ch].isEnabled
    ensures Enabled(f, modes, Switch(k, ch, true)) <==> ch < |s.channels| && s.channels[ch].isAllocated
  {
    forall i | 0 <= i < |s.channels|
      ensures f.isAlloc[i] == s.channels[i].isAllocated && f.isOn[i] == s.channels[i].isEnabled
    {
      assert ChannelMirrors(f, i, s.channels[i]);
    }
  }
}
