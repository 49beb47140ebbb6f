/** What became of the sections that adv_dmx_sec_cb accepted for one channel, in arrival order. */
module History {
  import opened Select
  import opened DmxState
  import opened SlotState

  /** Fate of an accepted section. A delivered one remembers the slot table that slot_callback looked at
      and the calls it made. A lost one left the queue neither called back nor flushed. */
  datatype Fate = Waiting | Delivered(table: seq<Slot>, calls: seq<SlotCall>) | Flushed | Lost
  datatype Record = Record(sec: Section, fate: Fate)

  function Contents(q: seq<nat>, nodes: seq<Section>): seq<Section> {
    seq(|q|, i requires 0 <= i < |q| => NodeAt(nodes, q[i]))
  }

  function WaitingIn(h: seq<Record>): seq<Section> {
    if h == [] then [] else (if h[0].fate.Waiting? then [h[0].sec] else []) + WaitingIn(h[1..])
  }

  function CallsOf(f: Fate): seq<SlotCall> {
    if f.Delivered? then f.calls else []
  }

  function CallsIn(h: seq<Record>): seq<SlotCall> {
    if h == [] then [] else CallsOf(h[0].fate) + CallsIn(h[1..])
  }

  /** adv_dmx_slot_callback on each section of a list in turn */
  function CallBackAll(secs: seq<Section>, slots: seq<Slot>, ch: nat): seq<SlotCall> {
    if secs == [] then [] else SlotCallback(slots, ch, secs[0].fltId, secs[0].data) + CallBackAll(secs[1..], slots, ch)
  }

  /** The fate of a section that is called back now. */
  function CalledBack(sec: Section, slots: seq<Slot>, ch: nat): Fate {
    Delivered(slots, SlotCallback(slots, ch, sec.fltId, sec.data))
  }

  /** Index of the oldest waiting section, or the length. */
  function FirstWaiting(h: seq<Record>): (a: nat)
    ensures a <= |h| && forall b :: 0 <= b < a ==> !h[b].fate.Waiting?
    ensures a < |h| ==> h[a].fate.Waiting?
  {
    if h == [] || h[0].fate.Waiting? then 0 else 1 + FirstWaiting(h[1..])
  }

  /** The oldest waiting section meets its fate. */
  function Settle(h: seq<Record>, fate: Fate): (h': seq<Record>)
    ensures |h'| == |h|
  {
    var a := FirstWaiting(h);
    if a < |h| then h[a := h[a].(fate := fate)] else h
  }

  /** Every waiting section is called back. */
  function DeliverWaiting(h: seq<Record>, slots: seq<Slot>, ch: nat): seq<Record> {
    seq(|h|, i requires 0 <= i < |h| =>
      if h[i].fate.Waiting? then h[i].(fate := CalledBack(h[i].sec, slots, ch)) else h[i])
  }

  function FlushWaiting(h: seq<Record>, flt: nat): seq<Record> {
    seq(|h|, i requires 0 <= i < |h| => if h[i].fate.Waiting? && h[i].sec.fltId == flt then h[i].(fate := Flushed) else h[i])
  }

  /** The oldest waiting section of one filter is flushed. */
  function FlushOldest(h: seq<Record>, flt: nat): (h': seq<Record>)
    ensures |h'| == |h|
    ensures forall a :: 0 <= a < |h| ==>
      h'[a] == h[a] || (h[a].fate.Waiting? && h[a].sec.fltId == flt && h'[a] == h[a].(fate := Flushed))
  {
    if h == [] then []
    else if h[0].fate.Waiting? && h[0].sec.fltId == flt then [h[0].(fate := Flushed)] + h[1..]
    else [h[0]] + FlushOldest(h[1..], flt)
  }

  /** Nothing leaves the queue before an older section, except by a flush. */
  ghost predicate Fifo(h: seq<Record>) {
    forall a, b :: 0 <= a < b < |h| && h[a].fate.Waiting? ==> h[b].fate.Waiting? || h[b].fate.Flushed?
  }

  /** The sections of q are exactly the waiting ones, in arrival order. */
  ghost predicate HistoryOk(h: seq<Record>, q: seq<nat>, nodes: seq<Section>) {
    WaitingIn(h) == Contents(q, nodes) && Fifo(h)
  }

  /** The calls of a occur in b in this order, possibly with others in between. */
  ghost predicate Within(a: seq<SlotCall>, b: seq<SlotCall>)
    decreases |b|
  {
    a == [] || (b != [] && ((a[0] == b[0] && Within(a[1..], b[1..])) || Within(a, b[1..])))
  }

  lemma {:induction false} WithinMore(a: seq<SlotCall>, b: seq<SlotCall>, c: seq<SlotCall>)
    requires Within(a, b)
    ensures Within(a, b + c)
    decreases |b|
  {
    if a != [] {
      assert (b + c)[1..] == b[1..] + c;
      if Within(a, b[1..]) {
        WithinMore(a, b[1..], c);
      } else {
        WithinMore(a[1..], b[1..], c);
      }
    }
  }

  lemma {:induction false} WithinItself(c: seq<SlotCall>)
    ensures Within(c, c)
  {
    if c != [] { WithinItself(c[1..]); }
  }

  lemma {:induction false} WithinBehind(c: seq<SlotCall>, b: seq<SlotCall>)
    ensures Within(c, b + c)
    decreases |b|
  {
    if b == [] {
      WithinItself(c);
      assert b + c == c;
    } else {
      WithinBehind(c, b[1..]);
      assert (b + c)[1..] == b[1..] + c;
    }
  }

  lemma {:induction false} WithinBoth(a: seq<SlotCall>, b: seq<SlotCall>, c: seq<SlotCall>)
    requires Within(a, b)
    ensures Within(a + c, b + c)
    decreases |b|
  {
    if a == [] {
      WithinBehind(c, b);
      assert a + c == c;
    } else {
      assert (b + c)[1..] == b[1..] + c && (a + c)[1..] == a[1..] + c;
      if Within(a, b[1..]) {
        WithinBoth(a, b[1..], c);
      } else {
        WithinBoth(a[1..], b[1..], c);
      }
    }
  }

  /** Without any others in between, the two are the same. */
  lemma {:induction false} WithinLength(a: seq<SlotCall>, b: seq<SlotCall>)
    requires Within(a, b)
    ensures |a| <= |b| && (|a| == |b| ==> a == b)
    decreases |b|
  {
    if a != [] {
      if Within(a, b[1..]) {
        WithinLength(a, b[1..]);
      } else {
        WithinLength(a[1..], b[1..]);
      }
    }
  }

  lemma {:induction false} WaitingAppend(h: seq<Record>, r: Record)
    requires r.fate.Waiting?
    ensures WaitingIn(h + [r]) == WaitingIn(h) + [r.sec]
    ensures CallsIn(h + [r]) == CallsIn(h)
    ensures FirstWaiting(h + [r]) == FirstWaiting(h)
  {
    if h == [] {
      assert h + [r] == [r];
    } else {
      var rest := h[1..];
      assert (h + [r])[1..] == rest + [r];
      WaitingAppend(rest, r);
      var first := if h[0].fate.Waiting? then [h[0].sec] else [];
      assert first + (WaitingIn(rest) + [r.sec]) == first + WaitingIn(rest) + [r.sec];
    }
  }

  lemma {:induction false} NothingDelivered(h: seq<Record>)
    requires forall a :: 0 <= a < |h| ==> !h[a].fate.Delivered?
    ensures CallsIn(h) == []
  {
    if h != [] { NothingDelivered(h[1..]); }
  }

  lemma {:induction false} SomeWaiting(h: seq<Record>)
    ensures FirstWaiting(h) < |h| <==> WaitingIn(h) != []
    ensures WaitingIn(h) != [] ==> h[FirstWaiting(h)].sec == WaitingIn(h)[0]
  {
    if h != [] { SomeWaiting(h[1..]); }
  }

  lemma {:induction false} FifoTail(h: seq<Record>)
    requires Fifo(h) && h != []
    ensures Fifo(h[1..]) && (h[0].fate.Waiting? ==> CallsIn(h[1..]) == [])
  {
    if h[0].fate.Waiting? { NothingDelivered(h[1..]); }
  }

  lemma {:induction false} SettleFifo(h: seq<Record>, fate: Fate)
    requires Fifo(h)
    ensures Fifo(Settle(h, fate))
  {
  }

  /** Settling the oldest waiting section takes it from the front, and appends exactly its calls. */
  lemma {:induction false} SettleHistory(h: seq<Record>, fate: Fate)
    requires Fifo(h) && WaitingIn(h) != [] && !fate.Waiting?
    ensures var h' := Settle(h, fate);
      WaitingIn(h') == WaitingIn(h)[1..] && Fifo(h') && CallsIn(h') == CallsIn(h) + CallsOf(fate)
  {
    hide Fifo, CallsOf;
    var h', rest := Settle(h, fate), h[1..];
    FifoTail(h);
    SettleFifo(h, fate);
    SomeWaiting(h);
    if h[0].fate.Waiting? {
      assert h'[1..] == rest && h'[0].fate == fate;
      CallsFirst(h');
      CallsFirst(h);
    } else {
      assert h'[1..] == Settle(rest, fate);
      SettleHistory(rest, fate);
      var first := CallsOf(h[0].fate);
      assert first + (CallsIn(rest) + CallsOf(fate)) == first + CallsIn(rest) + CallsOf(fate);
    }
  }

  lemma {:induction false} CallsFirst(h: seq<Record>)
    requires h != [] && CallsIn(h[1..]) == []
    ensures CallsIn(h) == CallsOf(h[0].fate)
    ensures h[0].fate.Waiting? ==> CallsIn(h) == []
  {
  }

  lemma {:induction false} DeliverNone(h: seq<Record>, slots: seq<Slot>, ch: nat)
    requires WaitingIn(h) == []
    ensures DeliverWaiting(h, slots, ch) == h
  {
    SomeWaiting(h);
  }

  lemma {:induction false} DeliverOne(h: seq<Record>, slots: seq<Slot>, ch: nat)
    requires WaitingIn(h) != []
    ensures DeliverWaiting(Settle(h, CalledBack(WaitingIn(h)[0], slots, ch)), slots, ch) == DeliverWaiting(h, slots, ch)
  {
    hide SlotCallback, WaitingIn;
    SomeWaiting(h);
  }

  /** Delivering everything that waits appends exactly the calls for the waiting sections, in order. */
  lemma {:induction false} DeliverHistory(h: seq<Record>, slots: seq<Slot>, ch: nat)
    requires Fifo(h)
    ensures var h' := DeliverWaiting(h, slots, ch);
      WaitingIn(h') == [] && CallsIn(h') == CallsIn(h) + CallBackAll(WaitingIn(h), slots, ch)
    decreases |WaitingIn(h)|
  {
    hide SlotCallback, Fifo, CallsIn, WaitingIn, DeliverWaiting, Settle;
    var secs := WaitingIn(h);
    if secs == [] {
      DeliverNone(h, slots, ch);
      assert CallsIn(h) + [] == CallsIn(h);
    } else {
      var fate := CalledBack(secs[0], slots, ch);
      var h1, later := Settle(h, fate), CallBackAll(secs[1..], slots, ch);
      SettleHistory(h, fate);
      DeliverOne(h, slots, ch);
      DeliverHistory(h1, slots, ch);
      assert CallsIn(h) + CallsOf(fate) + later == CallsIn(h) + (CallsOf(fate) + later);
    }
  }

  /** A flush takes exactly the sections of its filter out, and makes no call. */
  lemma {:induction false} FlushHistory(h: seq<Record>, flt: nat, q: seq<nat>, nodes: seq<Section>)
    requires WaitingIn(h) == Contents(q, nodes)
    ensures WaitingIn(FlushWaiting(h, flt)) == Contents(Skipped(q, Keys(q, nodes), flt), nodes)
    ensures CallsIn(FlushWaiting(h, flt)) == CallsIn(h)
  {
    var h' := FlushWaiting(h, flt);
    if h != [] {
      assert h'[1..] == FlushWaiting(h[1..], flt);
      if h[0].fate.Waiting? {
        assert Contents(q, nodes)[0] == h[0].sec;
        ContentsTail(q, nodes, flt);
        assert WaitingIn(h)[1..] == WaitingIn(h[1..]) && Contents(q, nodes)[1..] == Contents(q[1..], nodes);
        FlushHistory(h[1..], flt, q[1..], nodes);
      } else {
        FlushHistory(h[1..], flt, q, nodes);
      }
    }
  }

  /** Flushing one section takes the first of its filter out of the queue, makes no call, and leaves the rest of
      the flush to do. */
  lemma {:induction false} FlushOldestHistory(h: seq<Record>, flt: nat, q: seq<nat>, nodes: seq<Section>)
    requires WaitingIn(h) == Contents(q, nodes) && FirstAt(Keys(q, nodes), flt) < |q|
    ensures WaitingIn(FlushOldest(h, flt)) == Contents(Without(q, FirstAt(Keys(q, nodes), flt)), nodes)
    ensures CallsIn(FlushOldest(h, flt)) == CallsIn(h)
  {
    var h', k, rest := FlushOldest(h, flt), FirstAt(Keys(q, nodes), flt), q[1..];
    assert Contents(q, nodes)[0] == NodeAt(nodes, q[0]) && Contents(q, nodes)[1..] == Contents(rest, nodes);
    if h[0].fate.Waiting? {
      assert WaitingIn(h)[0] == h[0].sec && WaitingIn(h)[1..] == WaitingIn(h[1..]);
      assert h[0].sec.fltId == Keys(q, nodes)[0];
      if k == 0 {
        assert h'[1..] == h[1..] && Without(q, 0) == rest;
      } else {
        ContentsBehind(q, nodes, flt);
        hide Contents, Keys, Without, FirstAt;
        assert h'[1..] == FlushOldest(h[1..], flt);
        FlushOldestHistory(h[1..], flt, rest, nodes);
      }
    } else {
      hide Contents, Keys, Without, FirstAt;
      assert h'[1..] == FlushOldest(h[1..], flt);
      FlushOldestHistory(h[1..], flt, q, nodes);
    }
  }

  lemma {:induction false} ContentsBehind(q: seq<nat>, nodes: seq<Section>, flt: nat)
    requires 0 < FirstAt(Keys(q, nodes), flt) < |q|
    ensures var k := FirstAt(Keys(q, nodes), flt);
      && FirstAt(Keys(q[1..], nodes), flt) == k - 1
      && Contents(Without(q, k), nodes) == [NodeAt(nodes, q[0])] + Contents(Without(q[1..], k - 1), nodes)
  {
    var keys, k := Keys(q, nodes), FirstAt(Keys(q, nodes), flt);
    KeysTail(q, nodes);
    assert k == 1 + FirstAt(keys[1..], flt);
    hide FirstAt, Keys;
    WithoutTail(q, k);
    ContentsFirst(Without(q, k), nodes);
  }

  lemma {:induction false} KeysTail(q: seq<nat>, nodes: seq<Section>)
    requires q != []
    ensures Keys(q, nodes)[1..] == Keys(q[1..], nodes)
  {
  }

  lemma {:induction false} ContentsFirst(q: seq<nat>, nodes: seq<Section>)
    requires q != []
    ensures Contents(q, nodes) == [NodeAt(nodes, q[0])] + Contents(q[1..], nodes)
  {
  }

  lemma {:induction false} FlushRest(h: seq<Record>, flt: nat)
    ensures FlushWaiting(FlushOldest(h, flt), flt) == FlushWaiting(h, flt)
  {
  }

  lemma {:induction false} ContentsTail(q: seq<nat>, nodes: seq<Section>, flt: nat)
    requires q != []
    ensures Contents(q, nodes) == [NodeAt(nodes, q[0])] + Contents(q[1..], nodes)
    ensures Contents(Skipped(q, Keys(q, nodes), flt), nodes)
            == (if NodeAt(nodes, q[0]).fltId == flt then [] else [NodeAt(nodes, q[0])])
               + Contents(Skipped(q[1..], Keys(q[1..], nodes), flt), nodes)
  {
    assert Keys(q, nodes)[1..] == Keys(q[1..], nodes);
    var rest := Skipped(q[1..], Keys(q[1..], nodes), flt);
    assert Contents([q[0]] + rest, nodes) == [NodeAt(nodes, q[0])] + Contents(rest, nodes);
    assert [] + rest == rest;
  }

  /** The head of a queue is the oldest waiting section. */
  lemma {:induction false} HeadIsOldest(h: seq<Record>, q: seq<nat>, nodes: seq<Section>)
    requires HistoryOk(h, q, nodes) && q != []
    ensures FirstWaiting(h) < |h| && h[FirstWaiting(h)].sec == NodeAt(nodes, q[0])
    ensures WaitingIn(h)[1..] == Contents(q[1..], nodes)
  {
    SomeWaiting(h);
    assert Contents(q, nodes)[0] == NodeAt(nodes, q[0]);
    assert Contents(q, nodes)[1..] == Contents(q[1..], nodes);
  }
}
