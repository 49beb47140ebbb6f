/** End to end: from the driver callback through the queues and the ADM task to the callbacks that are
    registered on slots, while slots come and go.

    The ADM task takes no mutex, so its loop is split wherever another thread can get in between: it tests
    a channel once, and then peeks at the head of the queue, calls back, takes the head out, compares it
    with what it peeked, and returns it, again and again until the queue is empty. The slot mutex keeps
    slot_alloc and slot_free apart from each other, but not from adv_dmx_slot_callback. So each of the two
    is split where the ADM task can see the difference: slot_alloc first runs up to adv_dmx_en_channel, and
    fills the slot in a second event (a callback counts only once callback[0], the last field, is written);
    slot_free first clears the callback position, then flushes node by node, and takes filter, channel and
    slot down in a last event; from its first event on the slot has no callback any more. */
module Delivery {
  import opened Select
  import opened Bytes
  import opened DmxState
  import opened DmxInvariant
  import opened DmxBehaviour
  import opened SlotState
  import opened SlotInvariant
  import opened SlotAllocation
  import opened SlotProtocol
  import opened SlotRelease
  import opened SlotRuns
  import opened History

  /** The slot call that is under way: none; filling position v; releasing slot i. */
  datatype Busy = Ready | Filling(v: nat, slot: Slot) | Releasing(i: nat)

  /** Where the ADM task stands in its loops, with its local wk_buf. `record` is the place of the peeked
      section in the history of the channel; `here` says that the section called back is still the head
      of the queue. */
  datatype Adm =
    | Testing(i: nat)
    | Looking(i: nat)
    | Peeked(i: nat, wkBuf: nat, record: nat)
    | Called(i: nat, wkBuf: nat, here: bool)
    | Taken(i: nat, wkBuf: nat)

  /** The system with, per channel, all sections ever accepted in arrival order, and all callback calls
      ever made for it in the order they were made. */
  datatype World = World(sys: Sys, hist: seq<seq<Record>>, calls: seq<seq<SlotCall>>, busy: Busy, adm: Adm)

  predicate Shape(w: World) {
    |w.hist| == |w.calls| == |w.sys.dmx.channels|
  }

  /** The system once the allocation under way has filled its slot. */
  function Whole(w: World): Sys {
    if w.busy.Filling? && w.busy.v < |w.sys.slots| then w.sys.(slots := w.sys.slots[w.busy.v := w.busy.slot]) else w.sys
  }

  // ----- the ADM task -----

  /** The node is the head of the queue. */
  predicate AtHead(d: Dmx, i: nat, n: nat) {
    i < |d.channels| && d.channels[i].secList != [] && d.channels[i].secList[0] == n
  }

  /** if(allocated && enabled) */
  function AdmTest(w: World, i: nat): World {
    var cs := w.sys.dmx.channels;
    w.(adm := if i >= |cs| then Testing(0) else if cs[i].isAllocated && cs[i].isEnabled then Looking(i) else Testing(i + 1))
  }

  /** node_try_get; an empty queue ends the inner loop. */
  function AdmPeek(w: World, i: nat): World
    requires Shape(w)
  {
    if i < |w.hist| && w.sys.dmx.channels[i].secList != []
    then w.(adm := Peeked(i, w.sys.dmx.channels[i].secList[0], FirstWaiting(w.hist[i])))
    else w.(adm := Testing(i + 1))
  }

  /** app_sec_cb is slot_callback; it gets what the node holds now. */
  function AdmCall(w: World, i: nat, n: nat): World
    requires Shape(w) && i < |w.hist|
  {
    var sec := NodeAt(w.sys.dmx.nodes, n);
    var made := SlotCallback(w.sys.slots, i, sec.fltId, sec.data);
    var here := AtHead(w.sys.dmx, i, n);
    w.(adm := Called(i, n, here), calls := w.calls[i := w.calls[i] + made],
       hist := if here then w.hist[i := Settle(w.hist[i], Delivered(w.sys.slots, made))] else w.hist)
  }

  /** node_get, and the comparison with wk_buf. */
  function AdmPop(w: World, i: nat, n: nat, here: bool): World
    requires Shape(w) && i < |w.hist|
  {
    if w.sys.dmx.channels[i].secList == [] then w.(adm := Looking(i))
    else w.(sys := w.sys.(dmx := PopHead(w.sys.dmx, i)),
            hist := if here then w.hist else w.hist[i := Settle(w.hist[i], Lost)],
            adm := if AtHead(w.sys.dmx, i, n) then Taken(i, n) else Looking(i))
  }

  /** node_return */
  function AdmReturn(w: World, i: nat): World {
    w.(sys := if w.sys.dmx.loose == [] then w.sys else w.sys.(dmx := ReturnLast(w.sys.dmx)), adm := Looking(i))
  }

  function AdmNext(w: World): (w': World)
    requires Shape(w)
    ensures Shape(w')
  {
    match w.adm
    case Testing(i) => AdmTest(w, i)
    case Looking(i) => AdmPeek(w, i)
    case Peeked(i, n, _) => if i < |w.hist| then AdmCall(w, i, n) else w
    case Called(i, n, here) => if i < |w.hist| then AdmPop(w, i, n, here) else w
    case Taken(i, _) => AdmReturn(w, i)
  }

  // ----- events -----

  /** `AdmStep` is the next step of the ADM task, wherever it stands. `AdmSkip` is a test that finds the
      channel disabled because a slot call has it closed for the moment. `FlushNode` is one turn of the flush
      loop in slot_free; `EndFree` does what is left of it, and the rest of the call. */
  datatype Event =
    | Arrive(i: nat, flt: nat, data: seq<Byte>)
    | AdmStep
    | AdmSkip
    | BeginAlloc(dmxId: nat, pid: nat, mask: seq<Byte>, value: seq<Byte>, len: nat, cb: nat, disOk: bool, enOk: bool)
    | EndAlloc
    | BeginFree(slotId: int, cb: nat)
    | FlushNode
    | EndFree(closeOk: bool)

  /** An event that the mutex lets happen and that keeps the slot protocol; the condition on allocation
      is the exact one. */
  predicate Possible(w: World, e: Event) {
    match e
    case Arrive(i, _, _) => i < |w.sys.dmx.channels|
    case AdmStep => true
    case AdmSkip => w.adm.Testing?
    case BeginAlloc(dmxId, pid, mask, value, len, cb, disOk, enOk) =>
      w.busy.Ready? && Allowed(w.sys, Allocate(dmxId, pid, mask, value, len, cb, disOk, enOk))
    case EndAlloc => w.busy.Filling?
    case BeginFree(_, _) => w.busy.Ready?
    case FlushNode => w.busy.Releasing? && w.busy.i < |w.sys.slots| &&
      Flushable(w.sys.dmx, w.sys.slots[w.busy.i].chId, w.sys.slots[w.busy.i].fltId)
    case EndFree(_) => w.busy.Releasing? && w.busy.i < |w.sys.slots|
  }

  /** A section of the filter is queued. */
  predicate Flushable(d: Dmx, ch: nat, flt: nat) {
    ch < |d.channels| && flt in Keys(d.channels[ch].secList, d.nodes)
  }

  /** The call of slot_free releases slot i. */
  predicate Releases(s: Sys, i: int, cb: nat) {
    0 <= i < |s.slots| && InUse(s.slots[i]) && cb in s.slots[i].cbs
    && AllNull(s.slots[i].cbs[FindCb(s.slots[i].cbs, cb) := 0])
  }

  /** Slot i without the callback. */
  function Unregister(s: Sys, i: nat, cb: nat): Sys
    requires i < |s.slots| && cb in s.slots[i].cbs
  {
    s.(slots := s.slots[i := s.slots[i].(cbs := s.slots[i].cbs[FindCb(s.slots[i].cbs, cb) := 0])])
  }

  /** A flush of filter flt of channel i under the ADM task takes the section called back away. */
  function AfterFlush(adm: Adm, i: nat, flt: nat, nodes: seq<Section>): Adm {
    if adm.Called? && adm.i == i && NodeAt(nodes, adm.wkBuf).fltId == flt then adm.(here := false) else adm
  }

  /** node_get_one and node_return */
  function FlushOne(w: World, ch: nat, flt: nat): World
    requires Shape(w) && Flushable(w.sys.dmx, ch, flt)
  {
    var d := w.sys.dmx;
    var adm := AfterFlush(w.adm, ch, flt, d.nodes);
    w.(sys := w.sys.(dmx := ReturnAt(d, ch, FirstAt(Keys(d.channels[ch].secList, d.nodes), flt))), adm := adm,
       hist := if adm == w.adm then w.hist[ch := FlushOldest(w.hist[ch], flt)] else w.hist)
  }

  function Next(w: World, e: Event): World
    requires Possible(w, e) && Shape(w)
  {
    match e
    case Arrive(i, flt, data) =>
      var d := w.sys.dmx;
      w.(sys := w.sys.(dmx := SecCb(d, i, flt, data)),
         hist := if Accepts(d, i, flt) && d.free != []
                 then w.hist[i := w.hist[i] + [Record(Section(flt, data), Waiting)]] else w.hist)
    case AdmStep => AdmNext(w)
    case AdmSkip => w.(adm := Testing(w.adm.i + 1))
    case BeginAlloc(dmxId, pid, mask, value, len, cb, disOk, enOk) =>
      var o := SlotAlloc(w.sys, dmxId, pid, mask, value, len, cb, disOk, enOk);
      if FindSame(w.sys.slots, dmxId, pid, mask, value, len) == |w.sys.slots| && 0 <= o.ret < |o.sys.slots|
      then w.(sys := o.sys.(slots := w.sys.slots), busy := Filling(o.ret, o.sys.slots[o.ret]))
      else w.(sys := o.sys)
    case EndAlloc => w.(sys := Whole(w), busy := Ready)
    case BeginFree(slotId, cb) =>
      if Releases(w.sys, slotId, cb) then w.(sys := Unregister(w.sys, slotId, cb), busy := Releasing(slotId))
      else w.(sys := SlotFree(w.sys, slotId, cb, true).0)
    case FlushNode => FlushOne(w, w.sys.slots[w.busy.i].chId, w.sys.slots[w.busy.i].fltId)
    case EndFree(closeOk) =>
      var t := w.sys.slots[w.busy.i];
      World(ReleaseSlot(w.sys, w.busy.i, closeOk),
            if t.chId < |w.hist| then w.hist[t.chId := FlushWaiting(w.hist[t.chId], t.fltId)] else w.hist, w.calls, Ready,
            AfterFlush(w.adm, t.chId, t.fltId, w.sys.dmx.nodes))
  }

  /** Without anything in between, the two halves make up the call. */
  lemma {:induction false} HalvesMakeFree(w: World, slotId: int, cb: nat, closeOk: bool)
    requires SlotsOk(w.sys) && w.busy.Ready? && Shape(w)
    ensures var m := Next(w, BeginFree(slotId, cb));
      SlotFree(w.sys, slotId, cb, closeOk).0
      == if m.busy.Releasing? && m.busy.i < |m.sys.slots| then ReleaseSlot(m.sys, m.busy.i, closeOk) else m.sys
  {
    hide SlotFree, DropFilter;
    if 0 <= slotId < |w.sys.slots| && InUse(w.sys.slots[slotId]) {
      FreeInUse(w.sys, slotId, cb, closeOk);
      FreeInUse(w.sys, slotId, cb, true);
      hide SlotsOk;
      if Releases(w.sys, slotId, cb) {
        var s' := Unregister(w.sys, slotId, cb);
        assert s'.slots[slotId := ResetSlot(NoCallbacks())] == w.sys.slots[slotId := ResetSlot(NoCallbacks())];
      }
    } else {
      FreeUnknown(w.sys, slotId, cb, closeOk);
      FreeUnknown(w.sys, slotId, cb, true);
    }
  }

  /** However many nodes are flushed one by one, the last event ends in the same state. */
  lemma {:induction false} FlushNodeIsPart(w: World, closeOk: bool)
    requires Shape(w) && Possible(w, FlushNode) && SlotsOk(w.sys) && InUse(w.sys.slots[w.busy.i])
    ensures Shape(Next(w, FlushNode)) && Possible(Next(w, FlushNode), EndFree(closeOk))
    ensures Next(Next(w, FlushNode), EndFree(closeOk)) == Next(w, EndFree(closeOk))
  {
    var d, t, w' := w.sys.dmx, w.sys.slots[w.busy.i], Next(w, FlushNode);
    assert SlotOk(t, w.busy.i, d);
    assert ChannelOk(d.channels[t.chId], t.chId, d.nodes);
    FlushNodeThenFree(d, t.chId, t.fltId);
    FlushRest(w.hist[t.chId], t.fltId);
    hide FlushWaiting, FlushOldest, FreeFilter, Keys, ReturnAt, SlotsOk;
  }

  /** free_filter after one turn of its own flush loop. */
  lemma {:induction false} FlushNodeThenFree(d: Dmx, ch: nat, flt: nat)
    requires Flushable(d, ch, flt)
    requires Usable(d, ch) && flt < MAX_MASK_NUM && flt in d.channels[ch].flts
    ensures var d' := ReturnAt(d, ch, FirstAt(Keys(d.channels[ch].secList, d.nodes), flt));
      d'.nodes == d.nodes && FreeFilter(d', ch, flt) == FreeFilter(d, ch, flt)
  {
    var q := d.channels[ch].secList;
    var keys, k := Keys(q, d.nodes), FirstAt(Keys(q, d.nodes), flt);
    TakeFirst(q, keys, flt);
    assert Keys(Without(q, k), d.nodes) == Without(keys, k);
    assert d.free + [q[k]] + Picked(Without(q, k), Without(keys, k), flt) == d.free + Picked(q, keys, flt);
    var c, d' := d.channels[ch].(secList := Skipped(q, keys, flt)), ReturnAt(d, ch, k);
    assert d'.channels[ch := c] == d.channels[ch := c];
    assert FlushFilter(d', ch, flt) == FlushFilter(d, ch, flt);
  }

  /** An allocation that returns a new slot fills exactly that one, which was empty. */
  lemma {:induction false} FillsOne(s: Sys, dmxId: nat, pid: nat, mask: seq<Byte>, value: seq<Byte>, len: nat, cb: nat,
                 disOk: bool, enOk: bool)
    requires SlotsOk(s) && len <= |mask| && len <= |value| && len <= MAX_MV_LEN
    requires FindSame(s.slots, dmxId, pid, mask, value, len) == |s.slots|
    ensures
      var o := SlotAlloc(s, dmxId, pid, mask, value, len, cb, disOk, enOk);
      o.Done? ==> && |o.sys.slots| == |s.slots|
                  && if 0 <= o.ret < |s.slots|
                     then && !InUse(s.slots[o.ret]) && InUse(o.sys.slots[o.ret])
                          && o.sys.slots == s.slots[o.ret := o.sys.slots[o.ret]]
                     else o.sys.slots == s.slots
  {
    ObtainedExactly(s, dmxId, pid, mask, value, len, cb, disOk, enOk);
    EmptyIsUnused(s);
    hide SlotAlloc, SlotsOk;
  }

  /** The first half of slot_alloc, against the whole call. */
  predicate Begun(w: World, m: World, o: Outcome) {
    o.Done? && Whole(m) == o.sys && m.hist == w.hist && m.calls == w.calls && m.adm == w.adm
    && (m.busy.Filling? ==> && m.busy.v < |m.sys.slots| && m.sys.slots == w.sys.slots
                            && !InUse(m.sys.slots[m.busy.v]) && InUse(m.busy.slot))
    && !m.busy.Releasing?
  }

  lemma {:induction false} HalvesMakeAlloc(w: World, e: Event)
    requires SlotsOk(w.sys) && e.BeginAlloc? && Possible(w, e) && Shape(w)
    ensures Begun(w, Next(w, e), SlotAlloc(w.sys, e.dmxId, e.pid, e.mask, e.value, e.len, e.cb, e.disOk, e.enOk))
  {
    if FindSame(w.sys.slots, e.dmxId, e.pid, e.mask, e.value, e.len) == |w.sys.slots| {
      FillsOne(w.sys, e.dmxId, e.pid, e.mask, e.value, e.len, e.cb, e.disOk, e.enOk);
    }
    hide SlotAlloc, SlotsOk;
  }

  // ----- the invariant -----

  /** What the mutex holder has prepared. */
  predicate BusyOk(w: World) {
    match w.busy
    case Ready => true
    case Filling(v, slot) => v < |w.sys.slots| && w.sys.slots[v] == ResetSlot(NoCallbacks()) && InUse(slot)
    case Releasing(i) => i < |w.sys.slots| && InUse(w.sys.slots[i]) && AllNull(w.sys.slots[i].cbs)
  }

  /** The queue of channel i without the section that the ADM task has called back. */
  function Backlog(d: Dmx, adm: Adm, i: nat): seq<nat>
    requires i < |d.channels|
  {
    var q := d.channels[i].secList;
    if adm.Called? && adm.here && adm.i == i && q != [] then q[1..] else q
  }

  ghost predicate HistoriesOk(hist: seq<seq<Record>>, calls: seq<seq<SlotCall>>, d: Dmx, adm: Adm) {
    && |hist| == |calls| == |d.channels|
    && forall i :: 0 <= i < |hist| ==> HistoryOk(hist[i], Backlog(d, adm, i), d.nodes) && Within(CallsIn(hist[i]), calls[i])
  }

  /** What the ADM task may rely on: the section it has peeked is the head of the queue and the oldest
      waiting one, unless it was flushed. */
  ghost predicate AdmOk(hist: seq<seq<Record>>, d: Dmx, adm: Adm) {
    match adm
    case Testing(_) => true
    case Looking(i) => i < |hist|
    case Peeked(i, n, a) =>
      && i < |hist| && a < |hist[i]| && (hist[i][a].fate.Waiting? || hist[i][a].fate.Flushed?)
      && (hist[i][a].fate.Waiting? ==> AtHead(d, i, n) && FirstWaiting(hist[i]) == a)
    case Called(i, n, here) => i < |hist| && (here ==> AtHead(d, i, n))
    case Taken(i, n) => i < |hist| && d.loose != [] && d.loose[|d.loose|-1] == n
  }

  ghost predicate WorldOk(w: World) {
    && SlotsOk(Whole(w)) && Guarded(Whole(w)) && BusyOk(w)
    && HistoriesOk(w.hist, w.calls, w.sys.dmx, w.adm) && AdmOk(w.hist, w.sys.dmx, w.adm)
  }

  // ----- events keep the invariant -----

  /** The slot protocol does not look at queues, as long as no channel without a slot gets one. */
  lemma {:induction false} QueuesDoNotMatter(s: Sys, d: Dmx)
    requires SlotsOk(s) && Guarded(s) && Wf(d) && d.initOk && |d.channels| == |s.dmx.channels|
    requires forall i :: 0 <= i < |d.channels| ==> d.channels[i] == s.dmx.channels[i].(secList := d.channels[i].secList)
    requires forall i :: 0 <= i < |d.channels| && Silent(s.dmx.channels[i]) ==> d.channels[i].secList == []
    ensures SlotsOk(s.(dmx := d)) && Guarded(s.(dmx := d))
  {
    forall j | 0 <= j < |s.slots|
      ensures SlotOk(s.slots[j], j, d)
    {
      assert SlotOk(s.slots[j], j, s.dmx);
    }
    forall k | 0 <= k < |d.channels|
      ensures Covered(s.slots, k, d.channels[k])
    {
      assert Covered(s.slots, k, s.dmx.channels[k]);
    }
  }

  /** The history of channel j when a section arrives for channel i. */
  lemma {:induction false} ArriveHistory(d: Dmx, adm: Adm, i: nat, flt: nat, data: seq<Byte>, j: nat, h: seq<Record>)
    requires Wf(d) && i < |d.channels| && j < |d.channels| && Accepts(d, i, flt) && d.free != []
    requires HistoryOk(h, Backlog(d, adm, j), d.nodes) && (adm.Called? && adm.here ==> AtHead(d, adm.i, adm.wkBuf))
    ensures var d' := SecCb(d, i, flt, data);
      HistoryOk(if j == i then h + [Record(Section(flt, data), Waiting)] else h, Backlog(d', adm, j), d'.nodes)
  {
    var d', n, q := SecCb(d, i, flt, data), d.free[0], Backlog(d, adm, j);
    FreeNotQueued(d, j, n);
    assert Contents(q, d'.nodes) == Contents(q, d.nodes);
    if j == i {
      assert Backlog(d', adm, j) == q + [n];
      assert Contents(q + [n], d'.nodes) == Contents(q, d'.nodes) + [Section(flt, data)];
      WaitingAppend(h, Record(Section(flt, data), Waiting));
    } else {
      assert Backlog(d', adm, j) == q;
    }
  }

  lemma {:induction false} ArriveHistories(w: World, i: nat, flt: nat, data: seq<Byte>)
    requires Wf(w.sys.dmx) && HistoriesOk(w.hist, w.calls, w.sys.dmx, w.adm) && i < |w.sys.dmx.channels|
    requires AdmOk(w.hist, w.sys.dmx, w.adm)
    ensures HistoriesOk(Next(w, Arrive(i, flt, data)).hist, w.calls, SecCb(w.sys.dmx, i, flt, data), w.adm)
  {
    var d := w.sys.dmx;
    if Accepts(d, i, flt) && d.free != [] {
      WaitingAppend(w.hist[i], Record(Section(flt, data), Waiting));
      forall j | 0 <= j < |w.hist|
        ensures var d' := SecCb(d, i, flt, data);
          HistoryOk(if j == i then w.hist[j] + [Record(Section(flt, data), Waiting)] else w.hist[j], Backlog(d', w.adm, j), d'.nodes)
      {
        ArriveHistory(d, w.adm, i, flt, data, j, w.hist[j]);
      }
      hide HistoryOk, Backlog;
    }
  }

  lemma {:induction false} ArriveAdm(w: World, i: nat, flt: nat, data: seq<Byte>)
    requires i < |w.sys.dmx.channels| && Shape(w) && AdmOk(w.hist, w.sys.dmx, w.adm)
    ensures AdmOk(Next(w, Arrive(i, flt, data)).hist, SecCb(w.sys.dmx, i, flt, data), w.adm)
  {
    WaitingAppend(w.hist[i], Record(Section(flt, data), Waiting));
  }

  lemma {:induction false} ArriveOk(w: World, i: nat, flt: nat, data: seq<Byte>)
    requires WorldOk(w) && i < |w.sys.dmx.channels|
    ensures WorldOk(Next(w, Arrive(i, flt, data)))
  {
    SecCbWf(w.sys.dmx, i, flt, data);
    QueuesDoNotMatter(Whole(w), SecCb(w.sys.dmx, i, flt, data));
    ArriveHistories(w, i, flt, data);
    ArriveAdm(w, i, flt, data);
    hide SlotsOk, HistoriesOk, Guarded, SecCb, Wf, AdmOk;
  }

  /** Peeking: the head is the oldest waiting section. */
  lemma {:induction false} PeekOk(w: World)
    requires WorldOk(w) && w.adm.Looking?
    ensures WorldOk(AdmPeek(w, w.adm.i))
  {
    hide SlotsOk, Guarded;
    var i, d := w.adm.i, w.sys.dmx;
    assert HistoryOk(w.hist[i], Backlog(d, w.adm, i), d.nodes);
    if d.channels[i].secList != [] {
      HeadIsOldest(w.hist[i], d.channels[i].secList, d.nodes);
    }
    var w' := AdmPeek(w, i);
    assert forall j :: 0 <= j < |w.hist| ==> Backlog(d, w'.adm, j) == Backlog(d, w.adm, j);
  }

  /** Calling back settles the head; a call for anything else leaves the history alone. */
  lemma {:induction false} CallOne(h: seq<Record>, calls: seq<SlotCall>, q: seq<nat>, nodes: seq<Section>, slots: seq<Slot>,
                                   made: seq<SlotCall>)
    requires HistoryOk(h, q, nodes) && Within(CallsIn(h), calls)
    ensures Within(CallsIn(h), calls + made)
    ensures q != [] ==>
      HistoryOk(Settle(h, Delivered(slots, made)), q[1..], nodes) && Within(CallsIn(Settle(h, Delivered(slots, made))), calls + made)
  {
    hide Settle, Within, CallsIn;
    WithinMore(CallsIn(h), calls, made);
    if q != [] {
      HeadIsOldest(h, q, nodes);
      SomeWaiting(h);
      SettleHistory(h, Delivered(slots, made));
      WithinBoth(CallsIn(h), calls, made);
    }
  }

  lemma {:induction false} CallHistory(w: World)
    requires HistoriesOk(w.hist, w.calls, w.sys.dmx, w.adm) && w.adm.Peeked? && w.adm.i < |w.hist|
    ensures var w' := AdmCall(w, w.adm.i, w.adm.wkBuf);
      HistoriesOk(w'.hist, w'.calls, w'.sys.dmx, w'.adm)
  {
    hide SlotCallback, Settle, HistoryOk, Within, CallsIn;
    var i, n, d := w.adm.i, w.adm.wkBuf, w.sys.dmx;
    var w' := AdmCall(w, i, n);
    var made := SlotCallback(w.sys.slots, i, NodeAt(d.nodes, n).fltId, NodeAt(d.nodes, n).data);
    CallOne(w.hist[i], w.calls[i], d.channels[i].secList, d.nodes, w.sys.slots, made);
    assert forall j :: 0 <= j < |w.hist| && j != i ==>
      w'.hist[j] == w.hist[j] && w'.calls[j] == w.calls[j] && Backlog(d, w'.adm, j) == Backlog(d, w.adm, j);
  }

  lemma {:induction false} CallOk(w: World)
    requires WorldOk(w) && w.adm.Peeked?
    ensures WorldOk(AdmCall(w, w.adm.i, w.adm.wkBuf))
  {
    CallHistory(w);
    hide SlotsOk, Guarded, HistoriesOk, SlotCallback, Settle;
  }

  /** Taking the head out; one that was not called back is lost. */
  lemma {:induction false} PopOne(d: Dmx, adm: Adm, h: seq<Record>)
    requires adm.Called? && adm.i < |d.channels| && d.channels[adm.i].secList != []
    requires HistoryOk(h, Backlog(d, adm, adm.i), d.nodes)
    ensures HistoryOk(if adm.here then h else Settle(h, Lost), d.channels[adm.i].secList[1..], d.nodes)
    ensures !adm.here ==> CallsIn(Settle(h, Lost)) == CallsIn(h)
  {
    hide Settle;
    if !adm.here {
      HeadIsOldest(h, d.channels[adm.i].secList, d.nodes);
      SomeWaiting(h);
      SettleHistory(h, Lost);
      assert CallsIn(h) + [] == CallsIn(h);
    }
  }

  lemma {:induction false} PopHistory(w: World)
    requires HistoriesOk(w.hist, w.calls, w.sys.dmx, w.adm) && w.adm.Called? && AdmOk(w.hist, w.sys.dmx, w.adm)
    ensures var w' := AdmPop(w, w.adm.i, w.adm.wkBuf, w.adm.here);
      HistoriesOk(w'.hist, w'.calls, w'.sys.dmx, w'.adm)
  {
    hide Settle, HistoryOk, Within, CallsIn;
    var i, d := w.adm.i, w.sys.dmx;
    var w' := AdmPop(w, i, w.adm.wkBuf, w.adm.here);
    if d.channels[i].secList != [] {
      PopOne(d, w.adm, w.hist[i]);
    }
    assert forall j :: 0 <= j < |w.hist| && j != i ==>
      w'.hist[j] == w.hist[j] && Backlog(w'.sys.dmx, w'.adm, j) == Backlog(d, w.adm, j);
  }

  lemma {:induction false} PopAdm(w: World)
    requires Shape(w) && w.adm.Called? && w.adm.i < |w.hist|
    ensures var w' := AdmPop(w, w.adm.i, w.adm.wkBuf, w.adm.here); AdmOk(w'.hist, w'.sys.dmx, w'.adm)
  {
    hide Settle, FirstWaiting;
  }

  lemma {:induction false} PopSlots(w: World)
    requires WorldOk(w) && w.adm.Called?
    ensures var w' := AdmPop(w, w.adm.i, w.adm.wkBuf, w.adm.here);
      SlotsOk(Whole(w')) && Guarded(Whole(w')) && BusyOk(w')
  {
    if w.sys.dmx.channels[w.adm.i].secList != [] {
      PopHeadWf(w.sys.dmx, w.adm.i);
      QueuesDoNotMatter(Whole(w), PopHead(w.sys.dmx, w.adm.i));
    }
    hide SlotsOk, Guarded, HistoriesOk, Settle, Wf;
  }

  lemma {:induction false} PopOk(w: World)
    requires WorldOk(w) && w.adm.Called?
    ensures WorldOk(AdmPop(w, w.adm.i, w.adm.wkBuf, w.adm.here))
  {
    HistoryLengths(w);
    PopHistory(w);
    PopAdm(w);
    PopSlots(w);
    hide SlotsOk, Guarded, HistoriesOk, AdmPop, BusyOk;
  }

  lemma {:induction false} ReturnOk(w: World)
    requires WorldOk(w) && w.adm.Taken?
    ensures WorldOk(AdmReturn(w, w.adm.i))
  {
    var d, w' := w.sys.dmx, AdmReturn(w, w.adm.i);
    ReturnLastWf(d);
    QueuesDoNotMatter(Whole(w), ReturnLast(d));
    hide SlotsOk, Guarded, HistoryOk, Within, Wf;
    assert forall j :: 0 <= j < |w.hist| ==> Backlog(w'.sys.dmx, w'.adm, j) == Backlog(d, w.adm, j);
  }

  lemma {:induction false} TestOk(w: World)
    requires WorldOk(w) && w.adm.Testing?
    ensures WorldOk(AdmTest(w, w.adm.i))
  {
    hide SlotsOk, Guarded, HistoryOk, Within;
    assert forall j :: 0 <= j < |w.hist| ==> Backlog(w.sys.dmx, AdmTest(w, w.adm.i).adm, j) == Backlog(w.sys.dmx, w.adm, j);
  }

  lemma {:induction false} SkipOk(w: World)
    requires WorldOk(w) && w.adm.Testing?
    ensures WorldOk(w.(adm := Testing(w.adm.i + 1)))
  {
    hide SlotsOk, Guarded, HistoryOk, Within;
    assert forall j :: 0 <= j < |w.hist| ==> Backlog(w.sys.dmx, Testing(w.adm.i + 1), j) == Backlog(w.sys.dmx, w.adm, j);
  }

  lemma {:induction false} AdmIsOk(w: World)
    requires WorldOk(w)
    ensures Shape(w) && AdmOk(w.hist, w.sys.dmx, w.adm)
  {
  }

  lemma {:induction false} AdmStepOk(w: World)
    requires WorldOk(w)
    ensures WorldOk(AdmNext(w))
  {
    hide WorldOk, AdmTest, AdmPeek, AdmCall, AdmPop, AdmReturn;
    assert AdmOk(w.hist, w.sys.dmx, w.adm) by { AdmIsOk(w); }
    match w.adm
    case Testing(_) => TestOk(w);
    case Looking(_) => PeekOk(w);
    case Peeked(_, _, _) => CallOk(w);
    case Called(_, _, _) => PopOk(w);
    case Taken(_, _) => ReturnOk(w);
  }

  ghost predicate QueuesKept(d: Dmx, d': Dmx) {
    d'.nodes == d.nodes && d'.loose == d.loose && |d'.channels| == |d.channels|
    && forall i :: 0 <= i < |d.channels| ==> d'.channels[i].secList == d.channels[i].secList
  }

  /** Allocation never touches a queue. */
  lemma {:induction false} AllocKeepsQueues(s: Sys, dmxId: nat, pid: nat, mask: seq<Byte>, value: seq<Byte>, len: nat, cb: nat,
                         disOk: bool, enOk: bool)
    requires SlotsOk(s) && len <= |mask| && len <= |value| && len <= MAX_MV_LEN
    ensures
      var o := SlotAlloc(s, dmxId, pid, mask, value, len, cb, disOk, enOk);
      o.Done? ==> QueuesKept(s.dmx, o.sys.dmx)
  {
    hide OpenSlot, JoinSlot, SlotsOk;
    var stream := FindStream(s.slots, dmxId, pid);
    if FindSame(s.slots, dmxId, pid, mask, value, len) < |s.slots| {
    } else if stream == |s.slots| {
      OpenKeepsQueues(s, dmxId, pid, mask, value, len, cb, enOk);
    } else {
      JoinKeepsQueues(s, stream, mask, value, len, cb, disOk, enOk);
    }
  }

  lemma {:induction false} OpenKeepsQueues(s: Sys, dmxId: nat, pid: nat, mask: seq<Byte>, value: seq<Byte>, len: nat, cb: nat, enOk: bool)
    requires SlotsOk(s) && len <= |mask| && len <= |value| && len <= MAX_MV_LEN
    ensures
      var o := OpenSlot(s, dmxId, pid, mask, value, len, cb, enOk);
      o.Done? ==> QueuesKept(s.dmx, o.sys.dmx)
  {
    OpenEffect(s.dmx, dmxId, s.crc, pid, mask, value, len, enOk);
    var (a, ch) := OpenStream(s.dmx, dmxId, s.crc, pid, mask, value, len, enOk);
    hide OpenStream, Finish;
    FinishOwners(s, a, dmxId, pid, ch, mask, value, len, cb);
  }

  lemma {:induction false} JoinKeepsQueues(s: Sys, i: nat, mask: seq<Byte>, value: seq<Byte>, len: nat, cb: nat, disOk: bool, enOk: bool)
    requires SlotsOk(s) && i < |s.slots| && len <= |mask| && len <= |value| && len <= MAX_MV_LEN
    ensures
      var o := JoinSlot(s, i, mask, value, len, cb, disOk, enOk);
      o.Done? ==> QueuesKept(s.dmx, o.sys.dmx)
  {
    if InUse(s.slots[i]) {
      var t := s.slots[i];
      JoinEffect(s, i, mask, value, len, disOk, enOk);
      hide JoinStream, Finish;
      FinishOwners(s, JoinStream(s.dmx, t.chId, mask, value, len, disOk, enOk), t.dmxId, t.pid, t.chId,
                   mask, value, len, cb);
    } else {
      NoStream(s, i, mask, value, len, cb, disOk, enOk);
    }
  }

  lemma {:induction false} BeginAllocOk(w: World, e: Event)
    requires WorldOk(w) && e.BeginAlloc? && Possible(w, e)
    ensures WorldOk(Next(w, e))
  {
    var BeginAlloc(dmxId, pid, mask, value, len, cb, disOk, enOk) := e;
    AllocKeepsProtocol(w.sys, dmxId, pid, mask, value, len, cb, disOk, enOk);
    AllocGuarded(w.sys, dmxId, pid, mask, value, len, cb, disOk, enOk);
    AllocKeepsQueues(w.sys, dmxId, pid, mask, value, len, cb, disOk, enOk);
    HalvesMakeAlloc(w, e);
    var m := Next(w, e);
    assert m.busy.Filling? ==> SlotOk(w.sys.slots[m.busy.v], m.busy.v, w.sys.dmx);
    hide SlotAlloc, SlotsOk, Guarded, HistoryOk, Within, Next;
    SameQueues(w, m);
  }

  lemma {:induction false} SameQueues(w: World, m: World)
    requires HistoriesOk(w.hist, w.calls, w.sys.dmx, w.adm) && AdmOk(w.hist, w.sys.dmx, w.adm)
    requires QueuesKept(w.sys.dmx, m.sys.dmx) && m.hist == w.hist && m.calls == w.calls && m.adm == w.adm
    ensures HistoriesOk(m.hist, m.calls, m.sys.dmx, m.adm) && AdmOk(m.hist, m.sys.dmx, m.adm)
  {
    hide HistoryOk, Within;
    assert forall j :: 0 <= j < |w.hist| ==> Backlog(m.sys.dmx, m.adm, j) == Backlog(w.sys.dmx, w.adm, j);
  }

  lemma {:induction false} EndAllocOk(w: World)
    requires WorldOk(w) && w.busy.Filling?
    ensures WorldOk(Next(w, EndAlloc))
  {
    hide SlotsOk, Guarded, HistoryOk;
  }

  /** Releasing a slot flushes its filter's sections and no others. */
  lemma {:induction false} ReleaseQueues(s: Sys, i: nat, closeOk: bool)
    requires SlotsOk(s) && i < |s.slots| && InUse(s.slots[i])
    ensures var t, s' := s.slots[i], ReleaseSlot(s, i, closeOk);
      && t.chId < |s.dmx.channels| == |s'.dmx.channels| && s'.dmx.nodes == s.dmx.nodes && s'.dmx.loose == s.dmx.loose
      && (forall j :: 0 <= j < |s.dmx.channels| && j != t.chId ==> s'.dmx.channels[j] == s.dmx.channels[j])
      && s'.dmx.channels[t.chId].secList
         == Skipped(s.dmx.channels[t.chId].secList, Keys(s.dmx.channels[t.chId].secList, s.dmx.nodes), t.fltId)
  {
    var t := s.slots[i];
    assert SlotOk(t, i, s.dmx);
    var d, ch := s.dmx, t.chId;
    DropEffect(d, ch, t.fltId, closeOk);
    FreeFilterExact(d, ch, t.fltId);
    FreeFilterWf(d, ch, t.fltId);
    var d1 := FreeFilter(d, ch, t.fltId).0;
    assert ChannelOk(d1.channels[ch], ch, d1.nodes);
    var q := d.channels[ch].secList;
    if d.channels[ch].flts == {t.fltId} {
      assert ChannelOk(d.channels[ch], ch, d.nodes);
      forall k | 0 <= k < |q|
        ensures Keys(q, d.nodes)[k] == t.fltId
      {
        assert q[k] in q;
      }
      AllSelected(q, Keys(q, d.nodes), t.fltId);
    }
  }

  /** The queue behind the head that the ADM task has called back is flushed like the whole. */
  lemma {:induction false} BehindHead(q: seq<nat>, keys: seq<nat>, flt: nat)
    requires |q| == |keys| > 0
    ensures keys[0] == flt ==> Skipped(q, keys, flt) == Skipped(q[1..], keys[1..], flt)
    ensures keys[0] != flt ==> Skipped(q, keys, flt) != [] && Skipped(q, keys, flt)[0] == q[0]
    ensures keys[0] != flt ==> Skipped(q, keys, flt)[1..] == Skipped(q[1..], keys[1..], flt)
  {
    assert [q[0]] + Skipped(q[1..], keys[1..], flt) == Skipped(q, keys, flt) || keys[0] == flt;
  }

  /** What a flush of filter flt on channel ch leaves of the queues. */
  predicate FlushedQueues(d: Dmx, d': Dmx, ch: nat, flt: nat) {
    && ch < |d.channels| == |d'.channels| && d'.nodes == d.nodes && d'.loose == d.loose
    && (forall j :: 0 <= j < |d.channels| && j != ch ==> d'.channels[j].secList == d.channels[j].secList)
    && d'.channels[ch].secList == Skipped(d.channels[ch].secList, Keys(d.channels[ch].secList, d.nodes), flt)
  }

  lemma {:induction false} FlushedBacklog(d: Dmx, d': Dmx, adm: Adm, ch: nat, flt: nat)
    requires FlushedQueues(d, d', ch, flt) && (adm.Called? && adm.here ==> AtHead(d, adm.i, adm.wkBuf))
    ensures Backlog(d', AfterFlush(adm, ch, flt, d.nodes), ch)
            == Skipped(Backlog(d, adm, ch), Keys(Backlog(d, adm, ch), d.nodes), flt)
  {
    hide Skipped;
    var q := d.channels[ch].secList;
    if q != [] {
      BehindHead(q, Keys(q, d.nodes), flt);
      assert Keys(q, d.nodes)[1..] == Keys(q[1..], d.nodes);
    }
  }

  lemma {:induction false} FlushedHistory(d: Dmx, d': Dmx, adm: Adm, ch: nat, flt: nat, c: nat, h: seq<Record>)
    requires FlushedQueues(d, d', ch, flt) && (adm.Called? && adm.here ==> AtHead(d, adm.i, adm.wkBuf))
    requires c < |d.channels| && HistoryOk(h, Backlog(d, adm, c), d.nodes)
    ensures HistoryOk(if c == ch then FlushWaiting(h, flt) else h, Backlog(d', AfterFlush(adm, ch, flt, d.nodes), c), d'.nodes)
  {
    if c == ch {
      FlushedBacklog(d, d', adm, ch, flt);
      FlushHistory(h, flt, Backlog(d, adm, ch), d.nodes);
      hide Backlog, Skipped, Keys;
    }
  }

  lemma {:induction false} HistoryLengths(w: World)
    requires HistoriesOk(w.hist, w.calls, w.sys.dmx, w.adm)
    ensures Shape(w)
  {
  }

  lemma {:induction false} ReleaseFlushes(w: World, closeOk: bool)
    requires WorldOk(w) && w.busy.Releasing?
    ensures w.busy.i < |w.sys.slots|
    ensures var t := w.sys.slots[w.busy.i];
      FlushedQueues(w.sys.dmx, ReleaseSlot(w.sys, w.busy.i, closeOk).dmx, t.chId, t.fltId)
  {
    hide ReleaseSlot;
    ReleaseQueues(w.sys, w.busy.i, closeOk);
  }

  lemma {:induction false} EndFreeHistories(w: World, closeOk: bool)
    requires WorldOk(w) && w.busy.Releasing?
    ensures w.busy.i < |w.sys.slots|
    ensures var w' := Next(w, EndFree(closeOk)); HistoriesOk(w'.hist, w'.calls, w'.sys.dmx, w'.adm)
  {
    hide ReleaseSlot, HistoryOk, SlotsOk, Guarded, Within, Backlog, FlushedQueues, FlushWaiting, CallsIn;
    ReleaseFlushes(w, closeOk);
    var t, d := w.sys.slots[w.busy.i], ReleaseSlot(w.sys, w.busy.i, closeOk).dmx;
    assert t.chId < |w.sys.dmx.channels| == |d.channels| by { FlushedLengths(w.sys.dmx, d, t.chId, t.fltId); }
    FlushCalls(w.hist[t.chId], t.fltId);
    forall c | 0 <= c < |w.hist|
      ensures HistoryOk(if c == t.chId then FlushWaiting(w.hist[c], t.fltId) else w.hist[c],
                        Backlog(d, AfterFlush(w.adm, t.chId, t.fltId, w.sys.dmx.nodes), c), d.nodes)
    {
      FlushedHistory(w.sys.dmx, d, w.adm, t.chId, t.fltId, c, w.hist[c]);
    }
  }

  lemma {:induction false} FlushedLengths(d: Dmx, d': Dmx, ch: nat, flt: nat)
    requires FlushedQueues(d, d', ch, flt)
    ensures ch < |d.channels| == |d'.channels|
  {
  }

  lemma {:induction false} FlushCalls(h: seq<Record>, flt: nat)
    ensures CallsIn(FlushWaiting(h, flt)) == CallsIn(h)
  {
    if h != [] {
      assert FlushWaiting(h, flt)[1..] == FlushWaiting(h[1..], flt);
      FlushCalls(h[1..], flt);
    }
  }

  lemma {:induction false} FlushFirst(h: seq<Record>, flt: nat)
    requires FirstWaiting(h) < |h| && h[FirstWaiting(h)].sec.fltId != flt
    ensures FirstWaiting(FlushWaiting(h, flt)) == FirstWaiting(h)
  {
    var a, h' := FirstWaiting(h), FlushWaiting(h, flt);
    assert h'[a].fate.Waiting? && forall b :: 0 <= b < a ==> !h'[b].fate.Waiting?;
  }

  /** A section that is not flushed stays the head. */
  lemma {:induction false} HeadStays(d: Dmx, i: nat, n: nat, flt: nat)
    requires AtHead(d, i, n) && NodeAt(d.nodes, n).fltId != flt
    ensures var q := d.channels[i].secList;
      Skipped(q, Keys(q, d.nodes), flt) != [] && Skipped(q, Keys(q, d.nodes), flt)[0] == n
  {
    var q := d.channels[i].secList;
    BehindHead(q, Keys(q, d.nodes), flt);
  }

  lemma {:induction false} FlushedAdm(hist: seq<seq<Record>>, d: Dmx, d': Dmx, adm: Adm, ch: nat, flt: nat)
    requires FlushedQueues(d, d', ch, flt) && AdmOk(hist, d, adm) && |hist| == |d.channels|
    requires adm.Peeked? && hist[adm.i][adm.record].fate.Waiting? ==> hist[adm.i][adm.record].sec == NodeAt(d.nodes, adm.wkBuf)
    ensures AdmOk(hist[ch := FlushWaiting(hist[ch], flt)], d', AfterFlush(adm, ch, flt, d.nodes))
  {
    hide Skipped, Keys, FirstWaiting;
    if adm.Peeked? && adm.i == ch && hist[ch][adm.record].fate.Waiting? && hist[ch][adm.record].sec.fltId != flt {
      FlushFirst(hist[ch], flt);
      HeadStays(d, ch, adm.wkBuf, flt);
    } else if adm.Called? && adm.here && adm.i == ch && NodeAt(d.nodes, adm.wkBuf).fltId != flt {
      HeadStays(d, ch, adm.wkBuf, flt);
    }
  }

  /** The record of a peeked section that still waits is that of the node. */
  lemma {:induction false} PeekedSection(w: World)
    requires WorldOk(w)
    ensures Shape(w) && (w.adm.Peeked? ==> w.adm.i < |w.hist| && w.adm.record < |w.hist[w.adm.i]|)
    ensures w.adm.Peeked? && w.hist[w.adm.i][w.adm.record].fate.Waiting? ==>
      w.hist[w.adm.i][w.adm.record].sec == NodeAt(w.sys.dmx.nodes, w.adm.wkBuf)
  {
    hide SlotsOk, Guarded;
    if w.adm.Peeked? && w.hist[w.adm.i][w.adm.record].fate.Waiting? {
      var i := w.adm.i;
      assert HistoryOk(w.hist[i], Backlog(w.sys.dmx, w.adm, i), w.sys.dmx.nodes);
      HeadIsOldest(w.hist[i], w.sys.dmx.channels[i].secList, w.sys.dmx.nodes);
    }
  }

  lemma {:induction false} EndFreeAdm(w: World, closeOk: bool)
    requires WorldOk(w) && w.busy.Releasing?
    ensures w.busy.i < |w.sys.slots|
    ensures var w' := Next(w, EndFree(closeOk)); AdmOk(w'.hist, w'.sys.dmx, w'.adm)
  {
    hide ReleaseSlot, SlotsOk, Guarded, HistoriesOk, FlushedQueues, AdmOk, FlushWaiting;
    ReleaseFlushes(w, closeOk);
    PeekedSection(w);
    var t, d := w.sys.slots[w.busy.i], ReleaseSlot(w.sys, w.busy.i, closeOk).dmx;
    FlushedLengths(w.sys.dmx, d, t.chId, t.fltId);
    FlushedAdm(w.hist, w.sys.dmx, d, w.adm, t.chId, t.fltId);
  }

  lemma {:induction false} EndFreeOk(w: World, closeOk: bool)
    requires WorldOk(w) && w.busy.Releasing?
    ensures w.busy.i < |w.sys.slots| && WorldOk(Next(w, EndFree(closeOk)))
  {
    hide ReleaseSlot, HistoriesOk, SlotsOk, Guarded, HistoryOk, FlushWaiting, AdmOk;
    assert Whole(w) == w.sys;
    EndFreeHistories(w, closeOk);
    EndFreeAdm(w, closeOk);
    HistoryLengths(w);
    ReleaseKeepsProtocol(w.sys, w.busy.i, closeOk);
    ReleaseGuarded(w.sys, w.busy.i, closeOk);
    assert Next(w, EndFree(closeOk)).sys == ReleaseSlot(w.sys, w.busy.i, closeOk);
  }

  /** Where the first section of a filter is, seen from behind the head. */
  lemma {:induction false} FirstBehind(q: seq<nat>, nodes: seq<Section>, flt: nat)
    requires flt in Keys(q, nodes)
    ensures var k := FirstAt(Keys(q, nodes), flt);
      if Keys(q, nodes)[0] == flt then k == 0 && Without(q, k) == q[1..]
      else k == 1 + FirstAt(Keys(q[1..], nodes), flt) && k < |q| && Without(q, k)[1..] == Without(q[1..], k - 1)
  {
    KeysTail(q, nodes);
    hide Keys;
    if Keys(q, nodes)[0] == flt {
      assert Without(q, 0) == q[1..];
    } else {
      WithoutTail(q, FirstAt(Keys(q, nodes), flt));
    }
  }

  lemma {:induction false} FlushOneBacklog(w: World, ch: nat, flt: nat)
    requires Shape(w) && Flushable(w.sys.dmx, ch, flt) && AdmOk(w.hist, w.sys.dmx, w.adm)
    ensures var d, w', b := w.sys.dmx, FlushOne(w, ch, flt), Backlog(w.sys.dmx, w.adm, ch);
      if w'.adm != w.adm then Backlog(w'.sys.dmx, w'.adm, ch) == b
      else FirstAt(Keys(b, d.nodes), flt) < |b| && Backlog(w'.sys.dmx, w'.adm, ch) == Without(b, FirstAt(Keys(b, d.nodes), flt))
  {
    var d, w' := w.sys.dmx, FlushOne(w, ch, flt);
    var q := d.channels[ch].secList;
    var k := FirstAt(Keys(q, d.nodes), flt);
    var here := w.adm.Called? && w.adm.here && w.adm.i == ch;
    assert here ==> Keys(q, d.nodes)[0] == NodeAt(d.nodes, w.adm.wkBuf).fltId;
    FirstBehind(q, d.nodes, flt);
    hide Keys, FirstAt, Without, FlushOldest, Flushable, AdmOk;
    assert w'.sys.dmx.channels[ch].secList == Without(q, k);
    assert w'.adm != w.adm <==> here && Keys(q, d.nodes)[0] == flt;
    hide FlushOne, AfterFlush;
  }

  lemma {:induction false} FlushOneChannel(w: World, ch: nat, flt: nat)
    requires Shape(w) && Flushable(w.sys.dmx, ch, flt) && AdmOk(w.hist, w.sys.dmx, w.adm)
    requires HistoryOk(w.hist[ch], Backlog(w.sys.dmx, w.adm, ch), w.sys.dmx.nodes)
    ensures var w' := FlushOne(w, ch, flt);
      HistoryOk(w'.hist[ch], Backlog(w'.sys.dmx, w'.adm, ch), w'.sys.dmx.nodes) && CallsIn(w'.hist[ch]) == CallsIn(w.hist[ch])
  {
    hide WaitingIn, Contents, FlushOldest, CallsIn, Keys, FirstAt, Without;
    FlushOneBacklog(w, ch, flt);
    if FlushOne(w, ch, flt).adm == w.adm {
      FlushOldestHistory(w.hist[ch], flt, Backlog(w.sys.dmx, w.adm, ch), w.sys.dmx.nodes);
    }
    hide Backlog, AfterFlush;
  }

  lemma {:induction false} FlushOneElsewhere(w: World, ch: nat, flt: nat, j: nat)
    requires Shape(w) && Flushable(w.sys.dmx, ch, flt) && j < |w.hist| && j != ch
    ensures var w' := FlushOne(w, ch, flt); w'.hist[j] == w.hist[j] && Backlog(w'.sys.dmx, w'.adm, j) == Backlog(w.sys.dmx, w.adm, j)
  {
    hide FlushOldest, FirstAt, Without, Keys;
  }

  lemma {:induction false} FlushOneKeeps(w: World, ch: nat, flt: nat)
    requires Shape(w) && Flushable(w.sys.dmx, ch, flt)
    ensures var w' := FlushOne(w, ch, flt);
      Shape(w') && |w'.hist| == |w.hist| && w'.calls == w.calls && w'.sys.dmx.nodes == w.sys.dmx.nodes
      && w'.busy == w.busy && w'.sys.slots == w.sys.slots
  {
  }

  lemma {:induction false} FlushOneHistories(w: World, ch: nat, flt: nat)
    requires HistoriesOk(w.hist, w.calls, w.sys.dmx, w.adm) && Flushable(w.sys.dmx, ch, flt) && AdmOk(w.hist, w.sys.dmx, w.adm)
    ensures Shape(w) && var w' := FlushOne(w, ch, flt); HistoriesOk(w'.hist, w'.calls, w'.sys.dmx, w'.adm)
  {
    hide HistoryOk, Within, CallsIn, Backlog, FlushOne, AdmOk;
    FlushOneKeeps(w, ch, flt);
    FlushOneChannel(w, ch, flt);
    forall j | 0 <= j < |w.hist| && j != ch
      ensures var w' := FlushOne(w, ch, flt); w'.hist[j] == w.hist[j] && Backlog(w'.sys.dmx, w'.adm, j) == Backlog(w.sys.dmx, w.adm, j)
    {
      FlushOneElsewhere(w, ch, flt, j);
    }
  }

  lemma {:induction false} FlushOneFirst(h: seq<Record>, flt: nat)
    requires FirstWaiting(h) < |h|
    ensures var a, h' := FirstWaiting(h), FlushOldest(h, flt);
      if h[a].sec.fltId == flt then h'[a].fate.Flushed? else h'[a] == h[a] && FirstWaiting(h') == a
  {
    if !h[0].fate.Waiting? {
      FlushOneFirst(h[1..], flt);
      assert FlushOldest(h, flt)[0] == h[0] && FlushOldest(h, flt)[1..] == FlushOldest(h[1..], flt);
      hide FlushOldest;
    }
  }

  lemma {:induction false} FlushOneAdm(w: World, ch: nat, flt: nat)
    requires Shape(w) && Flushable(w.sys.dmx, ch, flt) && AdmOk(w.hist, w.sys.dmx, w.adm)
    requires w.adm.Peeked? && w.hist[w.adm.i][w.adm.record].fate.Waiting? ==>
      w.hist[w.adm.i][w.adm.record].sec == NodeAt(w.sys.dmx.nodes, w.adm.wkBuf)
    ensures var w' := FlushOne(w, ch, flt); AdmOk(w'.hist, w'.sys.dmx, w'.adm)
  {
    hide FirstWaiting;
    if w.adm.Peeked? && w.adm.i == ch && w.hist[ch][w.adm.record].fate.Waiting? {
      FlushOneFirst(w.hist[ch], flt);
    }
    hide FlushOldest;
  }

  lemma {:induction false} FlushNodeOk(w: World)
    requires WorldOk(w) && Possible(w, FlushNode)
    ensures WorldOk(Next(w, FlushNode))
  {
    var t := w.sys.slots[w.busy.i];
    FlushOneHistories(w, t.chId, t.fltId);
    PeekedSection(w);
    FlushOneAdm(w, t.chId, t.fltId);
    FlushNodeSlots(w);
    hide SlotsOk, Guarded, HistoriesOk, AdmOk, FlushOne;
    FlushOneKeeps(w, t.chId, t.fltId);
  }

  lemma {:induction false} FlushNodeSlots(w: World)
    requires WorldOk(w) && Possible(w, FlushNode) && Shape(w)
    ensures var w' := Next(w, FlushNode); SlotsOk(Whole(w')) && Guarded(Whole(w'))
  {
    var d, t := w.sys.dmx, w.sys.slots[w.busy.i];
    var k := FirstAt(Keys(d.channels[t.chId].secList, d.nodes), t.fltId);
    ReturnAtWf(d, t.chId, k);
    QueuesDoNotMatter(w.sys, ReturnAt(d, t.chId, k));
    hide SlotsOk, Guarded, HistoriesOk, AdmOk, Wf, AfterFlush, FlushOldest;
  }

  /** Clearing a callback position touches no channel. */
  lemma {:induction false} UnregisterOk(s: Sys, i: nat, cb: nat)
    requires SlotsOk(s) && Guarded(s) && i < |s.slots| && InUse(s.slots[i]) && cb in s.slots[i].cbs
    ensures SlotsOk(Unregister(s, i, cb)) && Guarded(Unregister(s, i, cb))
  {
    assert SlotOk(s.slots[i], i, s.dmx);
    SlotReplaced(s, i, s.slots[i].cbs[FindCb(s.slots[i].cbs, cb) := 0]);
    forall ch | 0 <= ch < |s.dmx.channels|
      ensures SlotOwned(s.slots, ch) <==> SlotOwned(Unregister(s, i, cb).slots, ch)
    {
      SameOwners(s.slots, Unregister(s, i, cb).slots, ch);
    }
  }

  lemma {:induction false} BeginFreeOk(w: World, slotId: int, cb: nat)
    requires WorldOk(w) && w.busy.Ready?
    ensures WorldOk(Next(w, BeginFree(slotId, cb)))
  {
    if Releases(w.sys, slotId, cb) {
      UnregisterOk(w.sys, slotId, cb);
    } else if 0 <= slotId < |w.sys.slots| && InUse(w.sys.slots[slotId]) {
      FreeInUse(w.sys, slotId, cb, true);
      if cb in w.sys.slots[slotId].cbs { UnregisterOk(w.sys, slotId, cb); }
    } else {
      FreeUnknown(w.sys, slotId, cb, true);
    }
    hide SlotFree, ReleaseSlot, SlotsOk, Guarded, HistoriesOk, AdmOk;
  }

  lemma {:induction false} NextOk(w: World, e: Event)
    requires WorldOk(w) && Possible(w, e)
    ensures WorldOk(Next(w, e))
  {
    match e
    case Arrive(i, flt, data) => ArriveOk(w, i, flt, data);
    case AdmStep => AdmStepOk(w);
    case AdmSkip => SkipOk(w);
    case BeginAlloc(_, _, _, _, _, _, _, _) => BeginAllocOk(w, e);
    case EndAlloc => EndAllocOk(w);
    case BeginFree(slotId, cb) => BeginFreeOk(w, slotId, cb);
    case FlushNode => FlushNodeOk(w);
    case EndFree(closeOk) => EndFreeOk(w, closeOk);
  }

  /** A run: every world follows from the one before by a possible event. */
  ghost predicate IsRun(ws: seq<World>, es: seq<Event>) {
    |ws| == |es| + 1
    && forall k :: 0 <= k < |es| ==> Shape(ws[k]) && Possible(ws[k], es[k]) && ws[k+1] == Next(ws[k], es[k])
  }

  /** In every state of every run, each accepted section is waiting in its channel's queue, delivered,
      flushed or lost; waiting ones sit in the queue in arrival order, none is overtaken, and the calls of
      the delivered ones were made in arrival order. */
  lemma {:induction false} RunDelivers(ws: seq<World>, es: seq<Event>, k: nat)
    requires IsRun(ws, es) && WorldOk(ws[0]) && k < |ws|
    ensures WorldOk(ws[k])
  {
    if k > 0 {
      RunDelivers(ws, es, k - 1);
      NextOk(ws[k-1], es[k-1]);
    }
  }

  /** A system before its first section. */
  function Start(s: Sys): World {
    World(s, seq(|s.dmx.channels|, _ => []), seq(|s.dmx.channels|, _ => []), Ready, Testing(0))
  }

  /** A run may start from any state of the slot layer in which nothing is queued, */
  lemma {:induction false} StartOk(s: Sys)
    requires SlotsOk(s) && Guarded(s) && forall i :: 0 <= i < |s.dmx.channels| ==> s.dmx.channels[i].secList == []
    ensures WorldOk(Start(s))
  {
  }

  /** in particular from the initialised table over an initialised section layer. */
  lemma {:induction false} InitialStart(s: Sys)
    requires Wf(s.dmx) && s.dmx.initOk && s.inited && |s.slots| == MAX_SLOT_NUM
    requires forall i :: 0 <= i < |s.slots| ==> s.slots[i] == ResetSlot(NoCallbacks())
    requires forall ch :: 0 <= ch < |s.dmx.channels| ==> !s.dmx.channels[ch].isAllocated
    ensures WorldOk(Start(s))
  {
    InitialSlots(s);
    InitialGuarded(s);
    forall i | 0 <= i < |s.dmx.channels|
      ensures s.dmx.channels[i].secList == []
    {
      assert ChannelOk(s.dmx.channels[i], i, s.dmx.nodes);
    }
    StartOk(s);
  }
}
