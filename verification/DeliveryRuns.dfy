/** Three runs from an initialised system in which an accepted section is not handed to its slot, one for
    each of the three situations. */
module DeliveryRuns {
  import opened Select
  import opened Bytes
  import opened DmxState
  import opened DmxInvariant
  import opened DmxBehaviour
  import opened SlotState
  import opened SlotInvariant
  import opened SlotAllocation
  import opened SlotProtocol
  import opened SlotRelease
  import opened SlotRuns
  import opened History
  import opened Delivery
  import opened Handover

  /** Both layers initialised, nothing allocated, device 0 at hand. */
  ghost predicate Vacant(s: Sys) {
    && SlotsOk(s) && |s.dmx.devs| == TOT_DMX_NUM && s.dmx.devs[0] && s.dmx.channels != []
    && (forall i :: 0 <= i < |s.slots| ==> s.slots[i] == ResetSlot(NoCallbacks()))
    && (forall i :: 0 <= i < |s.dmx.channels| ==> !s.dmx.channels[i].isAllocated)
  }

  ghost predicate Reaches(s: Sys, es: seq<Event>, w: World) {
    exists ws :: Delivery.IsRun(ws, es) && ws[0] == Start(s) && ws[|es|] == w
  }

  lemma {:induction false} VacantStart(s: Sys)
    requires Vacant(s)
    ensures WorldOk(Start(s)) && Reaches(s, [], Start(s))
  {
    InitialStart(s);
    hide WorldOk;
    assert Delivery.IsRun([Start(s)], []);
  }

  lemma {:induction false} ExtendRun(ws: seq<World>, es: seq<Event>, e: Event, w: World)
    requires Delivery.IsRun(ws, es) && w == ws[|es|] && Shape(w) && Possible(w, e)
    ensures Delivery.IsRun(ws + [Next(w, e)], es + [e])
  {
    hide Next, Possible, Shape;
    var ws', es' := ws + [Next(w, e)], es + [e];
    forall k | 0 <= k < |es'|
      ensures Shape(ws'[k]) && Possible(ws'[k], es'[k]) && ws'[k+1] == Next(ws'[k], es'[k])
    {
      assert if k < |es| then ws'[k] == ws[k] && es'[k] == es[k] && ws'[k+1] == ws[k+1] else ws'[k] == w;
    }
  }

  lemma {:induction false} Then(s: Sys, es: seq<Event>, w: World, e: Event, es': seq<Event>, w': World)
    requires Reaches(s, es, w) && WorldOk(w) && Possible(w, e)
    requires es' == es + [e] && Shape(w) && w' == Next(w, e)
    ensures Reaches(s, es', w') && WorldOk(w')
  {
    hide WorldOk, Next, Possible, Shape;
    NextOk(w, e);
    var ws :| Delivery.IsRun(ws, es) && ws[0] == Start(s) && ws[|es|] == w;
    ExtendRun(ws, es, e, w);
    hide Delivery.IsRun;
    var ws' := ws + [w'];
    assert ws'[0] == Start(s) && ws'[|es'|] == w';
  }

  // ----- allocations -----

  const NOBODY := ResetSlot(NoCallbacks())

  /** Slot v after an allocation on stream (0, 0) that got channel 0. */
  function Filled(v: nat, flt: nat, mask: seq<Byte>, cb: nat): Slot
    requires |mask| <= MAX_MV_LEN
  {
    FillSlot(NOBODY, v, 0, 0, 0, flt, mask, mask, |mask|, cb)
  }

  function Allocation(mask: seq<Byte>, cb: nat): Event {
    BeginAlloc(0, 0, mask, mask, |mask|, cb, true, true)
  }

  /** Opening the first channel gives channel 0 and filter 0. */
  lemma {:induction false} FirstNumbers(d: Dmx, crc: nat, mask: seq<Byte>)
    requires Wf(d) && d.initOk && |d.devs| == TOT_DMX_NUM && d.devs[0] && d.channels != [] && !d.channels[0].isAllocated
    requires d.free != [] && |mask| <= MAX_MV_LEN
    ensures var (a, ch) := OpenStream(d, 0, crc, 0, mask, mask, |mask|, true);
      a.ok && ch == 0 && a.flt == 0 && a.dmx.free == d.free[1..]
  {
    AllocChannelFails(d, 0, crc, SLOT_CALLBACK);
    OpenEffect(d, 0, crc, 0, mask, mask, |mask|, true);
    AllocChannelWf(d, 0, crc, SLOT_CALLBACK);
    assert FirstIdle(d.channels) == 0;
    var (d1, ch) := AllocChannel(d, 0, crc, SLOT_CALLBACK);
    assert ChannelOk(d.channels[0], 0, d.nodes);
    assert SetPid(d1, 0, 0).0.channels[0].flts == {};
    assert LeastUnset({}, 0) == 0;
    hide Wf, SetFilter, EnChannel, RollBack;
  }

  /** Only channel 0 is allocated; it has filter 0 only. */
  predicate OneChannel(d: Dmx) {
    && |d.devs| == TOT_DMX_NUM && d.devs[0] && d.channels != [] && d.channels[0].flts == {0}
    && forall i :: 1 <= i < |d.channels| ==> !d.channels[i].isAllocated
  }

  /** The first slot_alloc on a vacant system, in its two events. */
  lemma {:induction false} AllocFirst(w: World, mask: seq<Byte>, cb: nat)
    requires WorldOk(w) && w.busy.Ready? && Vacant(w.sys) && w.sys.dmx.free != [] && |mask| <= MAX_MV_LEN
    ensures Shape(w) && Possible(w, Allocation(mask, cb))
    ensures var m := Next(w, Allocation(mask, cb));
      && m == w.(sys := w.sys.(dmx := m.sys.dmx), busy := Filling(0, Filled(0, 0, mask, cb)))
      && QueuesKept(w.sys.dmx, m.sys.dmx) && m.sys.dmx.free == w.sys.dmx.free[1..] && OneChannel(m.sys.dmx)
  {
    AdmIsOk(w);
    var s := w.sys;
    assert SlotEmpty(s.slots[0]) && s.slots[0] == NOBODY;
    assert FindEmpty(s.slots) == 0;
    assert FindStream(s.slots, 0, 0) == |s.slots| && FindSame(s.slots, 0, 0, mask, mask, |mask|) == |s.slots|;
    FirstNumbers(s.dmx, s.crc, mask);
    var (a, ch) := OpenStream(s.dmx, 0, s.crc, 0, mask, mask, |mask|, true);
    OpenEffect(s.dmx, 0, s.crc, 0, mask, mask, |mask|, true);
    FinishShape(s, a, 0, 0, 0, mask, mask, |mask|, cb);
    AllocKeepsQueues(s, 0, 0, mask, mask, |mask|, cb, true, true);
    assert Shaped(s.slots);
    hide OpenStream, SlotsOk, Guarded, HistoriesOk, AdmOk, FindEmpty, FindStream, FindSame, Vacant;
  }

  // ----- arrivals and the ADM task -----

  /** The channel of a slot lets sections of its filter in. */
  lemma {:induction false} Arrival(w: World, i: nat, data: seq<Byte>)
    requires WorldOk(w) && i < |Whole(w).slots| && InUse(Whole(w).slots[i]) && Whole(w).slots[i].chId == 0
    requires w.sys.dmx.free != []
    ensures Shape(w) && w.hist != [] && w.sys.dmx.channels[0].isAllocated && w.sys.dmx.channels[0].isEnabled
    ensures var flt, d, n := Whole(w).slots[i].fltId, w.sys.dmx, w.sys.dmx.free[0];
      var w' := Next(w, Arrive(0, flt, data));
      var d' := w'.sys.dmx;
      && w' == w.(sys := w.sys.(dmx := d'), hist := w.hist[0 := w.hist[0] + [Record(Section(flt, data), Waiting)]])
      && d' == d.(free := d.free[1..], nodes := d'.nodes,
                  channels := d.channels[0 := d.channels[0].(secList := d.channels[0].secList + [n])])
      && NodeAt(d'.nodes, n) == Section(flt, data) && n !in d.channels[0].secList
      && forall m :: m != n ==> NodeAt(d'.nodes, m) == NodeAt(d.nodes, m)
  {
    var s := Whole(w);
    assert SlotOk(s.slots[i], i, s.dmx);
    assert ChannelOk(s.dmx.channels[0], 0, s.dmx.nodes);
    assert Accepts(s.dmx, 0, s.slots[i].fltId);
    FreeNotQueued(s.dmx, 0, s.dmx.free[0]);
    hide SlotsOk, Guarded, HistoriesOk, AdmOk, SlotOk, Wf;
  }

  /** The task enters the loop of channel 0 and peeks. */
  lemma {:induction false} Peeks(w: World)
    requires Shape(w) && w.adm == Testing(0) && w.hist != [] && w.sys.dmx.channels[0].secList != []
    requires w.sys.dmx.channels[0].isAllocated && w.sys.dmx.channels[0].isEnabled
    ensures var w' := Next(w, AdmStep);
      Shape(w') && Next(w', AdmStep) == w.(adm := Peeked(0, w.sys.dmx.channels[0].secList[0], FirstWaiting(w.hist[0])))
  {
    hide FirstWaiting;
  }

  /** An empty table calls nobody. */
  lemma {:induction false} NobodyCalled(slots: seq<Slot>, flt: nat, data: seq<Byte>)
    requires forall i :: 0 <= i < |slots| ==> slots[i] == NOBODY
    ensures SlotCallback(slots, 0, flt, data) == []
  {
    CallbackOfNone(slots, 0, flt, data);
  }

  // ----- called too early -----

  /** slot_alloc has enabled its channel; a section arrives and is called back for. */
  lemma {:induction false} CalledEarly(w: World) returns (w1: World, w2: World, w3: World, w4: World)
    requires WorldOk(w) && w.busy == Filling(0, Filled(0, 0, [], 1)) && w.adm == Testing(0) && w.sys.dmx.free != []
    requires w.hist != [] && w.hist[0] == [] && w.calls[0] == [] && w.sys.dmx.channels[0].secList == []
    requires forall i :: 0 <= i < |w.sys.slots| ==> w.sys.slots[i] == NOBODY
    ensures Shape(w) && w1 == Next(w, Arrive(0, 0, [7]))
    ensures Shape(w1) && w2 == Next(w1, AdmStep)
    ensures Shape(w2) && w3 == Next(w2, AdmStep)
    ensures Shape(w3) && w4 == Next(w3, AdmStep) && CallsTooEarly(w3) && Shape(w4)
    ensures w4.adm == Called(0, w3.adm.wkBuf, true) && w4.sys.slots == w.sys.slots && w4.busy == w.busy
    ensures w4.hist[0] == [Record(Section(0, [7]), Delivered(w.sys.slots, []))] && w4.calls[0] == []
    ensures AtHead(w4.sys.dmx, 0, w3.adm.wkBuf)
  {
    Arrival(w, 0, [7]);
    w1 := Next(w, Arrive(0, 0, [7]));
    Peeks(w1);
    NobodyCalled(w.sys.slots, 0, [7]);
    assert w1.hist[0] == [Record(Section(0, [7]), Waiting)];
    assert FirstWaiting(w1.hist[0]) == 0;
    assert w1.sys.dmx.channels[0].secList == [w.sys.dmx.free[0]];
    hide WorldOk, SlotCallback, FirstWaiting, SecCb;
    w2 := Next(w1, AdmStep);
    w3 := Next(w2, AdmStep);
    w4 := Next(w3, AdmStep);
  }

  /** The task takes the head it has called back for, and returns it. */
  lemma {:induction false} PopsAndReturns(w: World)
    requires Shape(w) && w.adm.Called? && w.adm.here && AtHead(w.sys.dmx, w.adm.i, w.adm.wkBuf)
    ensures var w' := Next(w, AdmStep);
      Shape(w') && Next(w', AdmStep) == w.(sys := w.sys.(dmx := ReturnAt(w.sys.dmx, w.adm.i, 0)), adm := Looking(w.adm.i))
  {
    HalvesMakeReturn(w.sys.dmx, w.adm.i);
  }

  const EARLY := [Allocation([], 1), Arrive(0, 0, [7]), AdmStep, AdmStep, AdmStep, AdmStep, AdmStep, EndAlloc]

  /** A section of the new filter is popped before slot_alloc fills its slot. It was accepted and never
      flushed, but nobody was called, although the callback is registered in the end. */
  lemma {:induction false} EarlyCallHappens(s: Sys) returns (w: World)
    requires Vacant(s) && |s.dmx.free| >= 2
    ensures Reaches(s, EARLY, w) && !Complete(w)
    ensures w.hist != [] && w.hist[0] == [Record(Section(0, [7]), Delivered(s.slots, []))]
    ensures w.sys.slots != [] && w.sys.slots[0] == Filled(0, 0, [], 1)
  {
    hide WorldOk, Next, Reaches, Possible, FillSlot, CallsTooEarly, AtHead;
    var m := VacantAlloc(s, [], 1);
    hide Vacant;
    var w1, w2, w3, w4 := CalledEarly(m);
    AdmPossible(m);
    AdmPossible(w1);
    AdmPossible(w2);
    AdmPossible(w3);
    assert EARLY[..1] == [Allocation([], 1)];
    Then(s, EARLY[..1], m, EARLY[1], EARLY[..2], w1);
    Then(s, EARLY[..2], w1, AdmStep, EARLY[..3], w2);
    Then(s, EARLY[..3], w2, AdmStep, EARLY[..4], w3);
    Then(s, EARLY[..4], w3, AdmStep, EARLY[..5], w4);
    w := EarlyEnds(s, w4);
  }

  /** The first event of any run that begins with an allocation. */
  lemma {:induction false} VacantAlloc(s: Sys, mask: seq<Byte>, cb: nat) returns (m: World)
    requires Vacant(s) && |s.dmx.free| >= 2 && |mask| <= MAX_MV_LEN
    ensures Reaches(s, [Allocation(mask, cb)], m) && WorldOk(m)
    ensures m.sys.slots == s.slots != [] && (forall i :: 0 <= i < |s.slots| ==> s.slots[i] == NOBODY)
    ensures m.busy == Filling(0, Filled(0, 0, mask, cb)) && m.adm == Testing(0)
    ensures m.sys.dmx.free == s.dmx.free[1..] && OneChannel(m.sys.dmx) && m.sys.dmx.loose == s.dmx.loose
    ensures |m.hist| == |m.calls| == |m.sys.dmx.channels| > 0 && m.hist[0] == [] && m.calls[0] == []
    ensures m.sys.dmx.channels[0].secList == []
  {
    VacantStart(s);
    AllocFirst(Start(s), mask, cb);
    m := Next(Start(s), Allocation(mask, cb));
    assert s.dmx.channels[0].secList == [] by { assert ChannelOk(s.dmx.channels[0], 0, s.dmx.nodes); }
    assert [] + [Allocation(mask, cb)] == [Allocation(mask, cb)];
    hide WorldOk, Next, SlotsOk, Possible;
    Then(s, [], Start(s), Allocation(mask, cb), [Allocation(mask, cb)], m);
  }

  lemma {:induction false} AdmPossible(w: World)
    ensures Possible(w, AdmStep)
    ensures forall flt, data :: w.sys.dmx.channels != [] ==> Possible(w, Arrive(0, flt, data))
  {
  }

  lemma {:induction false} EarlyEnds(s: Sys, w4: World) returns (w: World)
    requires Reaches(s, EARLY[..5], w4) && WorldOk(w4) && w4.busy == Filling(0, Filled(0, 0, [], 1)) && w4.sys.slots == s.slots != []
    requires w4.adm.Called? && w4.adm.here && AtHead(w4.sys.dmx, w4.adm.i, w4.adm.wkBuf)
    requires w4.hist != [] && w4.hist[0] == [Record(Section(0, [7]), Delivered(s.slots, []))]
    requires forall i :: 0 <= i < |s.slots| ==> s.slots[i] == NOBODY
    ensures Reaches(s, EARLY, w) && !Complete(w)
    ensures w.hist == w4.hist && w.sys.slots == s.slots[0 := Filled(0, 0, [], 1)]
  {
    hide WorldOk, Reaches;
    AdmIsOk(w4);
    PopsAndReturns(w4);
    var w5 := Next(w4, AdmStep);
    var w6 := Next(w5, AdmStep);
    w := Next(w6, EndAlloc);
    Then(s, EARLY[..5], w4, AdmStep, EARLY[..6], w5);
    Then(s, EARLY[..6], w5, AdmStep, EARLY[..7], w6);
    Then(s, EARLY[..7], w6, EndAlloc, EARLY, w);
    NobodyHanded(s.slots, w.hist[0][0].sec);
    assert !RecordComplete(0, w.hist[0][0]);
  }

  lemma {:induction false} NobodyHanded(slots: seq<Slot>, sec: Section)
    requires forall i :: 0 <= i < |slots| ==> slots[i] == NOBODY
    ensures !Handed(slots, 0, sec, [])
  {
  }

  // ----- slot_free under the task -----

  /** One callback, cb, and no other. */
  function Only(cb: nat): seq<nat> {
    NoCallbacks()[0 := cb]
  }

  lemma {:induction false} DropKeeps(d: Dmx, ch: nat, flt: nat, closeOk: bool)
    ensures |DropFilter(d, ch, flt, closeOk).free| >= |d.free| && DropFilter(d, ch, flt, closeOk).devs == d.devs
  {
    hide Keys, Picked, Skipped;
  }

  /** slot_free with the last callback of a slot on channel 0, in its two events. */
  lemma {:induction false} Frees(w: World, i: nat, cb: nat) returns (m: World, w': World)
    requires WorldOk(w) && w.busy.Ready? && i < |w.sys.slots| && InUse(w.sys.slots[i]) && w.sys.slots[i].chId == 0
    requires cb != 0 && w.sys.slots[i].cbs == Only(cb)
    ensures Shape(w) && Possible(w, BeginFree(i, cb)) && m == Next(w, BeginFree(i, cb))
    ensures Shape(m) && Possible(m, EndFree(true)) && w' == Next(m, EndFree(true))
    ensures w'.busy.Ready? && w'.sys.slots == w.sys.slots[i := NOBODY] && w'.calls == w.calls
    ensures w.hist != [] && w'.hist == w.hist[0 := FlushWaiting(w.hist[0], w.sys.slots[i].fltId)]
    ensures w'.adm == AfterFlush(w.adm, 0, w.sys.slots[i].fltId, w.sys.dmx.nodes)
    ensures FlushedQueues(w.sys.dmx, w'.sys.dmx, 0, w.sys.slots[i].fltId)
    ensures |w'.sys.dmx.free| >= |w.sys.dmx.free| && w'.sys.dmx.devs == w.sys.dmx.devs
    ensures |w'.sys.dmx.channels| == |w.sys.dmx.channels|
    ensures forall j :: 1 <= j < |w.sys.dmx.channels| ==> w'.sys.dmx.channels[j] == w.sys.dmx.channels[j]
    ensures w.sys.dmx.channels[0].flts == {w.sys.slots[i].fltId} ==> !w'.sys.dmx.channels[0].isAllocated
  {
    hide WorldOk, Next, Releases, ReleaseSlot, FlushedQueues;
    m := FreeBegins(w, i, cb);
    w' := FreeEnds(m, i);
    assert m.sys.slots[i := NOBODY] == w.sys.slots[i := NOBODY];
  }

  lemma {:induction false} FreeBegins(w: World, i: nat, cb: nat) returns (m: World)
    requires WorldOk(w) && w.busy.Ready? && i < |w.sys.slots| && InUse(w.sys.slots[i]) && cb != 0 && w.sys.slots[i].cbs == Only(cb)
    ensures Shape(w) && Possible(w, BeginFree(i, cb)) && m == Next(w, BeginFree(i, cb)) && WorldOk(m) && Shape(m)
    ensures m == w.(sys := w.sys.(slots := w.sys.slots[i := w.sys.slots[i].(cbs := Only(0))]), busy := Releasing(i))
  {
    AdmIsOk(w);
    BeginFreeOk(w, i, cb);
    hide WorldOk;
    var t := w.sys.slots[i];
    assert t.cbs[0] == cb && FindCb(t.cbs, cb) == 0;
    assert t.cbs[0 := 0] == Only(0);
    m := Next(w, BeginFree(i, cb));
  }

  lemma {:induction false} FreeEnds(m: World, i: nat) returns (w': World)
    requires WorldOk(m) && m.busy == Releasing(i) && i < |m.sys.slots| && m.sys.slots[i].chId == 0
    ensures Shape(m) && Possible(m, EndFree(true)) && w' == Next(m, EndFree(true))
    ensures w'.busy.Ready? && w'.sys.slots == m.sys.slots[i := NOBODY] && w'.calls == m.calls
    ensures m.hist != [] && w'.hist == m.hist[0 := FlushWaiting(m.hist[0], m.sys.slots[i].fltId)]
    ensures w'.adm == AfterFlush(m.adm, 0, m.sys.slots[i].fltId, m.sys.dmx.nodes)
    ensures FlushedQueues(m.sys.dmx, w'.sys.dmx, 0, m.sys.slots[i].fltId)
    ensures |w'.sys.dmx.free| >= |m.sys.dmx.free| && w'.sys.dmx.devs == m.sys.dmx.devs
    ensures |w'.sys.dmx.channels| == |m.sys.dmx.channels|
    ensures forall j :: 1 <= j < |m.sys.dmx.channels| ==> w'.sys.dmx.channels[j] == m.sys.dmx.channels[j]
    ensures m.sys.dmx.channels[0].flts == {m.sys.slots[i].fltId} ==> !w'.sys.dmx.channels[0].isAllocated
  {
    hide WorldOk, FlushedQueues, FlushWaiting, DropFilter, AfterFlush;
    AdmIsOk(m);
    ReleaseFlushes(m, true);
    ReleaseChannel(m, i);
    w' := Next(m, EndFree(true));
  }

  lemma {:induction false} ReleaseChannel(w: World, i: nat)
    requires WorldOk(w) && w.busy == Releasing(i)
    ensures i < |w.sys.slots| && w.sys.slots[i].chId < |w.sys.dmx.channels| == |ReleaseSlot(w.sys, i, true).dmx.channels|
    ensures var t, d, d' := w.sys.slots[i], w.sys.dmx, ReleaseSlot(w.sys, i, true).dmx;
      && |d'.free| >= |d.free| && d'.devs == d.devs
      && (forall j :: 0 <= j < |d.channels| && j != t.chId ==> d'.channels[j] == d.channels[j])
      && (d.channels[t.chId].flts == {t.fltId} ==> !d'.channels[t.chId].isAllocated)
  {
    var t := w.sys.slots[i];
    assert SlotOk(t, i, w.sys.dmx);
    DropEffect(w.sys.dmx, t.chId, t.fltId, true);
    DropKeeps(w.sys.dmx, t.chId, t.fltId, true);
    hide DropFilter, SlotsOk, Guarded, HistoriesOk, AdmOk;
  }

  /** A slot with one callback calls it once. */
  lemma {:induction false} OnlyCalled(slots: seq<Slot>, i: nat, cb: nat, data: seq<Byte>)
    requires i < |slots| && cb != 0 && slots[i].cbs == Only(cb)
    requires forall j :: 0 <= j < i ==> !(slots[j].chId == slots[i].chId && slots[j].fltId == slots[i].fltId)
    ensures SlotCallback(slots, slots[i].chId, slots[i].fltId, data) == [SlotCall(cb, slots[i].slotId, data)]
  {
    CallbackOfSlot(slots, i, data);
    var rest := Only(cb)[1..];
    ZerosCalled(rest, slots[i].slotId, data);
  }

  lemma {:induction false} ZerosCalled(cbs: seq<nat>, slotId: int, data: seq<Byte>)
    requires AllNull(cbs)
    ensures CallEach(cbs, slotId, data) == []
  {
    if cbs != [] { ZerosCalled(cbs[1..], slotId, data); }
  }

  // ----- called too late -----

  const LATE := [Allocation([], 1), EndAlloc, Arrive(0, 0, [7]), AdmStep, AdmStep, BeginFree(0, 1), EndFree(true),
                 Allocation([1], 2), EndAlloc, AdmStep]

  const SEVEN := Section(0, [7])

  /** slot_alloc is through, and a section has arrived. */
  lemma {:induction false} OneSlotOneSection(s: Sys) returns (w: World)
    requires Vacant(s) && |s.dmx.free| >= 3
    ensures Reaches(s, LATE[..3], w) && WorldOk(w) && w.busy.Ready? && w.adm == Testing(0)
    ensures |s.slots| > 0 && w.sys.slots == s.slots[0 := Filled(0, 0, [], 1)]
    ensures OneChannel(w.sys.dmx) && w.sys.dmx.free != [] && |w.hist| == |w.calls| == |w.sys.dmx.channels|
    ensures w.sys.dmx.channels[0].isAllocated && w.sys.dmx.channels[0].isEnabled
    ensures w.hist[0] == [Record(SEVEN, Waiting)] && w.calls[0] == []
    ensures |w.sys.dmx.channels[0].secList| == 1 && NodeAt(w.sys.dmx.nodes, w.sys.dmx.channels[0].secList[0]) == SEVEN
  {
    hide WorldOk, Reaches, SecCb;
    var m := VacantAlloc(s, [], 1);
    var a := Next(m, EndAlloc);
    assert LATE[..1] == [Allocation([], 1)];
    Then(s, LATE[..1], m, EndAlloc, LATE[..2], a);
    Arrival(a, 0, [7]);
    w := Next(a, Arrive(0, 0, [7]));
    Then(s, LATE[..2], a, Arrive(0, 0, [7]), LATE[..3], w);
  }

  /** The task peeks, and the slot is freed under it. */
  lemma {:induction false} FlushedWhilePeeked(w: World) returns (w1: World, w2: World, w3: World, w4: World)
    requires WorldOk(w) && w.busy.Ready? && w.adm == Testing(0) && |w.sys.slots| > 0 && w.sys.slots[0] == Filled(0, 0, [], 1)
    requires OneChannel(w.sys.dmx) && w.sys.dmx.free != [] && |w.hist| == |w.calls| == |w.sys.dmx.channels|
    requires w.sys.dmx.channels[0].isAllocated && w.sys.dmx.channels[0].isEnabled
    requires w.hist[0] == [Record(SEVEN, Waiting)]
    requires |w.sys.dmx.channels[0].secList| == 1 && NodeAt(w.sys.dmx.nodes, w.sys.dmx.channels[0].secList[0]) == SEVEN
    ensures Shape(w) && w1 == Next(w, AdmStep)
    ensures Shape(w1) && w2 == Next(w1, AdmStep)
    ensures Shape(w2) && Possible(w2, BeginFree(0, 1)) && w3 == Next(w2, BeginFree(0, 1))
    ensures Shape(w3) && Possible(w3, EndFree(true)) && w4 == Next(w3, EndFree(true)) && WorldOk(w4)
    ensures w4.busy.Ready? && w4.sys.slots == w.sys.slots[0 := NOBODY] && w4.calls == w.calls && |w4.hist| == |w.hist|
    ensures Shape(w4)
    ensures w4.adm == Peeked(0, w.sys.dmx.channels[0].secList[0], 0) && w4.hist[0] == [Record(SEVEN, Flushed)]
    ensures w4.sys.dmx.nodes == w.sys.dmx.nodes && w4.sys.dmx.channels != [] && w4.sys.dmx.channels[0].secList == []
    ensures w4.sys.dmx.free != [] && w4.sys.dmx.devs == w.sys.dmx.devs
    ensures forall j :: 0 <= j < |w4.sys.dmx.channels| ==> !w4.sys.dmx.channels[j].isAllocated
  {
    hide WorldOk;
    var q := w.sys.dmx.channels[0].secList;
    Peeks(w);
    assert FirstWaiting(w.hist[0]) == 0;
    w1 := Next(w, AdmStep);
    w2 := Next(w1, AdmStep);
    AdmStepOk(w);
    AdmStepOk(w1);
    w3, w4 := Frees(w2, 0, 1);
    NextOk(w2, BeginFree(0, 1));
    NextOk(w3, EndFree(true));
    hide Next;
    assert w4.hist[0] == [Record(SEVEN, Flushed)];
    assert q == [q[0]] && Keys(q, w.sys.dmx.nodes) == [0];
    AllSelected(q, Keys(q, w.sys.dmx.nodes), 0);
  }

  /** The slot is filled again for another mask, with the same channel and filter, and then comes the call. */
  lemma {:induction false} CalledLate(w: World) returns (w1: World, w2: World, w3: World)
    requires WorldOk(w) && w.busy.Ready? && Vacant(w.sys) && w.sys.dmx.free != [] && |w.hist| == |w.calls| == |w.sys.dmx.channels|
    requires w.adm.Peeked? && w.adm.i == 0 && NodeAt(w.sys.dmx.nodes, w.adm.wkBuf) == SEVEN
    requires w.sys.dmx.channels[0].secList == [] && w.hist[0] == [Record(SEVEN, Flushed)] && w.calls[0] == []
    ensures Shape(w) && Possible(w, Allocation([1], 2)) && w1 == Next(w, Allocation([1], 2))
    ensures Shape(w1) && Possible(w1, EndAlloc) && w2 == Next(w1, EndAlloc)
    ensures Shape(w2) && CallsTooLate(w2) && w3 == Next(w2, AdmStep)
    ensures w3.hist == w.hist && w3.calls == w.calls[0 := [SlotCall(2, 0, [7])]]
    ensures w.sys.slots != [] && w3.sys.slots == w.sys.slots[0 := Filled(0, 0, [1], 2)]
  {
    AllocFirst(w, [1], 2);
    hide WorldOk, SlotCallback, SlotAlloc, Vacant;
    w1 := Next(w, Allocation([1], 2));
    w2 := Next(w1, EndAlloc);
    assert w2.sys.slots[0] == Filled(0, 0, [1], 2);
    OnlyCalled(w2.sys.slots, 0, 2, [7]);
    StrayCall(w2, [SlotCall(2, 0, [7])]);
    assert w2.calls[0] + [SlotCall(2, 0, [7])] == [SlotCall(2, 0, [7])];
    hide Next;
    w3 := Next(w2, AdmStep);
  }

  /** A call for a node that is not the head changes no history. */
  lemma {:induction false} StrayCall(w: World, made: seq<SlotCall>)
    requires Shape(w) && w.adm.Peeked? && w.adm.i < |w.hist| && !AtHead(w.sys.dmx, w.adm.i, w.adm.wkBuf)
    requires var sec := NodeAt(w.sys.dmx.nodes, w.adm.wkBuf); made == SlotCallback(w.sys.slots, w.adm.i, sec.fltId, sec.data)
    ensures Next(w, AdmStep) == w.(adm := Called(w.adm.i, w.adm.wkBuf, false), calls := w.calls[w.adm.i := w.calls[w.adm.i] + made])
    ensures CallsTooLate(w) <==> made != []
  {
    hide SlotCallback;
  }

  /** The section that the task has peeked is flushed by slot_free, and its filter goes to a new slot before
      the call: the callback of the new slot gets a section that its mask has not selected. */
  lemma {:induction false} LateCallHappens(s: Sys) returns (w: World)
    requires Vacant(s) && |s.dmx.free| >= 3
    ensures Reaches(s, LATE, w) && !Complete(w)
    ensures w.hist != [] && w.hist[0] == [Record(SEVEN, Flushed)]
    ensures w.calls != [] && w.calls[0] == [SlotCall(2, 0, [7])]
    ensures w.sys.slots != [] && w.sys.slots[0] == Filled(0, 0, [1], 2)
  {
    hide WorldOk, Next, Reaches, Possible, FillSlot;
    var w0 := OneSlotOneSection(s);
    var w1, w2, w3, w4 := FlushedWhilePeeked(w0);
    VacantAgain(s, w4);
    hide Vacant;
    AdmPossible(w0);
    AdmPossible(w1);
    Then(s, LATE[..3], w0, AdmStep, LATE[..4], w1);
    Then(s, LATE[..4], w1, AdmStep, LATE[..5], w2);
    Then(s, LATE[..5], w2, BeginFree(0, 1), LATE[..6], w3);
    Then(s, LATE[..6], w3, EndFree(true), LATE[..7], w4);
    w := LateEnds(s, w4);
  }

  /** Everything is free again. */
  lemma {:induction false} VacantAgain(s: Sys, w: World)
    requires Vacant(s) && WorldOk(w) && w.busy.Ready? && |s.slots| > 0
    requires w.sys.slots == s.slots[0 := Filled(0, 0, [], 1)][0 := NOBODY]
    requires |w.sys.dmx.devs| == TOT_DMX_NUM && w.sys.dmx.devs[0] && w.sys.dmx.channels != []
    requires forall j :: 0 <= j < |w.sys.dmx.channels| ==> !w.sys.dmx.channels[j].isAllocated
    ensures Vacant(w.sys)
  {
    hide SlotsOk, Guarded, HistoriesOk, AdmOk;
  }

  lemma {:induction false} LateEnds(s: Sys, w4: World) returns (w: World)
    requires Reaches(s, LATE[..7], w4) && WorldOk(w4) && w4.busy.Ready? && Vacant(w4.sys) && w4.sys.dmx.free != []
    requires |w4.hist| == |w4.calls| == |w4.sys.dmx.channels|
    requires w4.adm.Peeked? && w4.adm.i == 0 && NodeAt(w4.sys.dmx.nodes, w4.adm.wkBuf) == SEVEN
    requires w4.sys.dmx.channels[0].secList == [] && w4.hist[0] == [Record(SEVEN, Flushed)] && w4.calls[0] == []
    ensures Reaches(s, LATE, w) && !Complete(w)
    ensures w.hist == w4.hist && w.calls != [] && w.calls[0] == [SlotCall(2, 0, [7])]
    ensures w.sys.slots != [] && w.sys.slots[0] == Filled(0, 0, [1], 2)
  {
    hide WorldOk, Next, Reaches, Possible, FillSlot, Vacant, CallsTooLate;
    var w5, w6, w7 := CalledLate(w4);
    AdmPossible(w6);
    Then(s, LATE[..7], w4, Allocation([1], 2), LATE[..8], w5);
    Then(s, LATE[..8], w5, EndAlloc, LATE[..9], w6);
    Then(s, LATE[..9], w6, AdmStep, LATE, w7);
    w := w7;
    assert w.hist[0][1..] == [] && CallsIn(w.hist[0]) == [];
    assert !ChannelComplete(0, w.hist[0], w.calls[0]);
  }

  // ----- popped uncalled -----

  const UNCALLED := [Allocation([], 1), EndAlloc, Allocation([1], 2), EndAlloc, Arrive(0, 0, [7]), Arrive(0, 1, [8]),
                     AdmStep, AdmStep, AdmStep, BeginFree(0, 1), EndFree(true), AdmStep]

  const EIGHT := Section(1, [8])

  /** A second filter on the channel is filter 1. */
  lemma {:induction false} SecondNumber(s: Sys, mask: seq<Byte>)
    requires SlotsOk(s) && 0 < |s.slots| && s.slots[0].chId == 0 && InUse(s.slots[0]) && |mask| <= MAX_MV_LEN
    requires s.dmx.channels != [] && s.dmx.channels[0].flts == {0}
    ensures var a := JoinStream(s.dmx, 0, mask, mask, |mask|, true, true);
      a.ok && a.flt == 1 && a.dmx.free == s.dmx.free
  {
    JoinEffect(s, 0, mask, mask, |mask|, true, true);
    assert SlotOk(s.slots[0], 0, s.dmx);
    assert LeastUnset({0}, 0) == LeastUnset({0}, 1) == 1;
    hide Wf, SetFilter, EnChannel, RollBack;
  }

  /** slot_alloc for another mask of the stream. */
  lemma {:induction false} AllocSecond(w: World)
    requires WorldOk(w) && w.busy.Ready? && |w.sys.slots| > 1 && w.sys.slots[0] == Filled(0, 0, [], 1)
    requires forall i :: 1 <= i < |w.sys.slots| ==> w.sys.slots[i] == NOBODY
    requires w.sys.dmx.channels != [] && w.sys.dmx.channels[0].flts == {0}
    ensures Shape(w) && Possible(w, Allocation([1], 2))
    ensures var m := Next(w, Allocation([1], 2));
      && m == w.(sys := w.sys.(dmx := m.sys.dmx), busy := Filling(1, Filled(1, 1, [1], 2)))
      && QueuesKept(w.sys.dmx, m.sys.dmx) && m.sys.dmx.free == w.sys.dmx.free
  {
    AdmIsOk(w);
    var s, mask := w.sys, [1];
    assert SlotEmpty(s.slots[1]) && !SlotEmpty(s.slots[0]);
    assert FindEmpty(s.slots) == 1;
    assert SameStream(s.slots[0], 0, 0);
    assert FindStream(s.slots, 0, 0) == 0 && FindSame(s.slots, 0, 0, mask, mask, 1) == |s.slots|;
    SecondNumber(s, mask);
    var a := JoinStream(s.dmx, 0, mask, mask, 1, true, true);
    FinishShape(s, a, 0, 0, 0, mask, mask, 1, 2);
    AllocKeepsQueues(s, 0, 0, mask, mask, 1, 2, true, true);
    assert Shaped(s.slots);
    hide JoinStream, SlotsOk, Guarded, HistoriesOk, AdmOk, FindEmpty, FindStream, FindSame;
  }

  /** Two slots on one channel. */
  lemma {:induction false} TwoSlots(s: Sys) returns (w: World)
    requires Vacant(s) && |s.dmx.free| >= 3
    ensures Reaches(s, UNCALLED[..4], w) && WorldOk(w) && w.busy.Ready? && w.adm == Testing(0) && Shape(w)
    ensures |s.slots| > 1 && w.sys.slots == s.slots[0 := Filled(0, 0, [], 1)][1 := Filled(1, 1, [1], 2)]
    ensures w.sys.dmx.free == s.dmx.free[1..] && w.hist != [] && w.hist[0] == [] && w.calls[0] == []
    ensures w.sys.dmx.channels[0].secList == [] && w.sys.dmx.loose == s.dmx.loose
  {
    hide WorldOk, Reaches, SlotAlloc;
    var m := VacantAlloc(s, [], 1);
    assert |s.slots| == MAX_SLOT_NUM;
    var a := Next(m, EndAlloc);
    assert UNCALLED[..1] == [Allocation([], 1)];
    Then(s, UNCALLED[..1], m, EndAlloc, UNCALLED[..2], a);
    AllocSecond(a);
    var b := Next(a, Allocation([1], 2));
    Then(s, UNCALLED[..2], a, Allocation([1], 2), UNCALLED[..3], b);
    w := Next(b, EndAlloc);
    Then(s, UNCALLED[..3], b, EndAlloc, UNCALLED[..4], w);
  }

  /** Nothing but these two sections waits on channel 0, in two different nodes. */
  predicate TwoWaiting(w: World) {
    && Shape(w) && w.hist != [] && w.hist[0] == [Record(SEVEN, Waiting), Record(EIGHT, Waiting)]
    && var c := w.sys.dmx.channels[0];
      && c.isAllocated && c.isEnabled && |c.secList| == 2 && c.secList[0] != c.secList[1]
      && NodeAt(w.sys.dmx.nodes, c.secList[0]) == SEVEN && NodeAt(w.sys.dmx.nodes, c.secList[1]) == EIGHT
  }

  /** A section arrives for each. */
  lemma {:induction false} TwoSections(w: World) returns (w1: World, w2: World)
    requires WorldOk(w) && w.busy.Ready? && Shape(w) && |w.sys.slots| > 1 && |w.sys.dmx.free| >= 2
    requires w.sys.slots[0] == Filled(0, 0, [], 1) && w.sys.slots[1] == Filled(1, 1, [1], 2)
    requires w.hist != [] && w.hist[0] == [] && w.sys.dmx.channels[0].secList == []
    ensures w1 == Next(w, Arrive(0, 0, [7])) && WorldOk(w1) && w1.sys.dmx.channels != []
    ensures Shape(w1) && w2 == Next(w1, Arrive(0, 1, [8])) && WorldOk(w2) && TwoWaiting(w2)
    ensures w2.busy == w.busy && w2.adm == w.adm && w2.calls == w.calls && w2.sys.slots == w.sys.slots
    ensures w2.sys.dmx.loose == w.sys.dmx.loose
  {
    Arrival(w, 0, [7]);
    NextOk(w, Arrive(0, 0, [7]));
    hide WorldOk, Next;
    w1 := Next(w, Arrive(0, 0, [7]));
    Arrival(w1, 1, [8]);
    NextOk(w1, Arrive(0, 1, [8]));
    w2 := Next(w1, Arrive(0, 1, [8]));
    assert w2.hist[0] == [Record(SEVEN, Waiting), Record(EIGHT, Waiting)];
  }

  /** The first is called back for; then its slot is freed. */
  lemma {:induction false} FlushedWhileCalled(w: World) returns (w1: World, w2: World, w3: World)
    requires WorldOk(w) && w.busy.Ready? && Shape(w) && |w.sys.slots| > 1 && w.adm == Testing(0)
    requires w.sys.slots[0] == Filled(0, 0, [], 1) && w.sys.slots[1] == Filled(1, 1, [1], 2)
    requires TwoWaiting(w) && w.calls[0] == []
    ensures w1 == Next(w, AdmStep) && WorldOk(w1)
    ensures Shape(w1) && w2 == Next(w1, AdmStep) && WorldOk(w2)
    ensures Shape(w2) && w3 == Next(w2, AdmStep) && WorldOk(w3) && Shape(w3)
    ensures w3 == w.(adm := Called(0, w.sys.dmx.channels[0].secList[0], true), hist := w3.hist, calls := w3.calls)
    ensures w3.hist[0] == [Record(SEVEN, Delivered(w.sys.slots, [SlotCall(1, 0, [7])])), Record(EIGHT, Waiting)]
    ensures w3.calls[0] == [SlotCall(1, 0, [7])]
  {
    Peeks(w);
    assert FirstWaiting(w.hist[0]) == 0;
    hide WorldOk, Next, FirstWaiting;
    w1 := Next(w, AdmStep);
    w2 := Next(w1, AdmStep);
    w3 := Next(w2, AdmStep);
    CallsSeven(w);
    NextOk(w, AdmStep);
    NextOk(w1, AdmStep);
    NextOk(w2, AdmStep);
  }

  lemma {:induction false} CallsSeven(w: World)
    requires TwoWaiting(w) && w.calls[0] == [] && w.sys.slots != [] && w.sys.slots[0] == Filled(0, 0, [], 1)
    ensures var n := w.sys.dmx.channels[0].secList[0];
      var w' := Next(w.(adm := Peeked(0, n, 0)), AdmStep);
      && Shape(w') && w' == w.(adm := Called(0, n, true), hist := w'.hist, calls := w'.calls)
      && w'.hist[0] == [Record(SEVEN, Delivered(w.sys.slots, [SlotCall(1, 0, [7])])), Record(EIGHT, Waiting)]
      && w'.calls[0] == [SlotCall(1, 0, [7])]
  {
    OnlyCalled(w.sys.slots, 0, 1, [7]);
    assert FirstWaiting(w.hist[0]) == 0;
    hide SlotCallback, FirstWaiting;
    assert w.calls[0] + [SlotCall(1, 0, [7])] == [SlotCall(1, 0, [7])];
  }

  /** What the flush has left is popped, although nobody was called for it. */
  lemma {:induction false} PoppedUncalled(w: World) returns (m: World, w1: World, w2: World)
    requires WorldOk(w) && w.busy.Ready? && Shape(w) && |w.sys.slots| > 1
    requires w.sys.slots[0] == Filled(0, 0, [], 1) && w.sys.slots[1] == Filled(1, 1, [1], 2)
    requires w.hist != [] && |w.hist[0]| == 2 && w.hist[0][0].fate.Delivered? && w.hist[0][1] == Record(EIGHT, Waiting)
    requires |w.sys.dmx.channels[0].secList| == 2 && w.sys.dmx.channels[0].secList[0] != w.sys.dmx.channels[0].secList[1]
    requires NodeAt(w.sys.dmx.nodes, w.sys.dmx.channels[0].secList[0]) == SEVEN
    requires NodeAt(w.sys.dmx.nodes, w.sys.dmx.channels[0].secList[1]) == EIGHT
    requires w.adm == Called(0, w.sys.dmx.channels[0].secList[0], true)
    ensures Possible(w, BeginFree(0, 1)) && m == Next(w, BeginFree(0, 1))
    ensures Shape(m) && Possible(m, EndFree(true)) && w1 == Next(m, EndFree(true))
    ensures Shape(w1) && PopsUncalled(w1) && w2 == Next(w1, AdmStep)
    ensures w2.hist == w.hist[0 := [w.hist[0][0], Record(EIGHT, Lost)]] && w2.calls == w.calls
    ensures w2.sys.slots == w.sys.slots[0 := NOBODY] && w2.sys.dmx.loose == w.sys.dmx.loose + [w.sys.dmx.channels[0].secList[1]]
  {
    hide WorldOk;
    var q, nodes := w.sys.dmx.channels[0].secList, w.sys.dmx.nodes;
    m, w1 := Frees(w, 0, 1);
    SkipsFirst(q, Keys(q, nodes), 0);
    assert FlushWaiting(w.hist[0], 0) == w.hist[0];
    w2 := Next(w1, AdmStep);
    assert FirstWaiting(w.hist[0]) == 1;
    assert w.hist[0][1 := Record(EIGHT, Lost)] == [w.hist[0][0], Record(EIGHT, Lost)];
    hide Skipped, Keys, FirstWaiting, FlushWaiting;
  }

  lemma {:induction false} SkipsFirst(q: seq<nat>, keys: seq<nat>, flt: nat)
    requires |q| == |keys| == 2 && keys[0] == flt && keys[1] != flt
    ensures Skipped(q, keys, flt) == [q[1]]
  {
    assert q[1..] == [q[1]] && q[1..][1..] == [];
    assert Skipped(q[1..], keys[1..], flt) == [q[1]];
  }

  /** slot_free of one slot, while the callback of another slot's section is to come: the task takes the
      other section instead of the one it has called back for. It was accepted, never flushed and handed to
      nobody, its slot keeps its callback, and its node is in no list any more. */
  lemma {:induction false} UncalledPopHappens(s: Sys) returns (w: World, n: nat)
    requires Vacant(s) && |s.dmx.free| >= 3
    ensures Reaches(s, UNCALLED, w) && !Complete(w)
    ensures w.hist != [] && |w.hist[0]| == 2 && w.hist[0][0].sec == SEVEN && w.hist[0][1] == Record(EIGHT, Lost)
    ensures w.calls != [] && w.calls[0] == [SlotCall(1, 0, [7])]
    ensures |w.sys.slots| > 1 && w.sys.slots[1] == Filled(1, 1, [1], 2)
    ensures w.sys.dmx.loose == s.dmx.loose + [n]
  {
    hide WorldOk, Next, Reaches, Possible, FillSlot;
    var w0 := TwoSlots(s);
    var w1, w2 := TwoSections(w0);
    AdmPossible(w0);
    AdmPossible(w1);
    Then(s, UNCALLED[..4], w0, Arrive(0, 0, [7]), UNCALLED[..5], w1);
    Then(s, UNCALLED[..5], w1, Arrive(0, 1, [8]), UNCALLED[..6], w2);
    w, n := UncalledEnds(s, w2);
  }

  lemma {:induction false} UncalledEnds(s: Sys, w2: World) returns (w: World, n: nat)
    requires Reaches(s, UNCALLED[..6], w2) && WorldOk(w2) && w2.busy.Ready? && Shape(w2) && |w2.sys.slots| > 1 && w2.adm == Testing(0)
    requires w2.sys.slots[0] == Filled(0, 0, [], 1) && w2.sys.slots[1] == Filled(1, 1, [1], 2)
    requires TwoWaiting(w2) && w2.calls[0] == []
    ensures Reaches(s, UNCALLED, w) && !Complete(w)
    ensures w.hist != [] && |w.hist[0]| == 2 && w.hist[0][0].sec == SEVEN && w.hist[0][1] == Record(EIGHT, Lost)
    ensures w.calls != [] && w.calls[0] == [SlotCall(1, 0, [7])]
    ensures |w.sys.slots| > 1 && w.sys.slots[1] == Filled(1, 1, [1], 2)
    ensures w.sys.dmx.loose == w2.sys.dmx.loose + [n]
  {
    hide WorldOk, Next, Reaches, Possible, FillSlot, PopsUncalled;
    var w3, w4, w5 := FlushedWhileCalled(w2);
    n := w2.sys.dmx.channels[0].secList[1];
    var m, w7, w8 := PoppedUncalled(w5);
    AdmPossible(w2);
    AdmPossible(w3);
    AdmPossible(w4);
    AdmPossible(w7);
    Then(s, UNCALLED[..6], w2, AdmStep, UNCALLED[..7], w3);
    Then(s, UNCALLED[..7], w3, AdmStep, UNCALLED[..8], w4);
    Then(s, UNCALLED[..8], w4, AdmStep, UNCALLED[..9], w5);
    Then(s, UNCALLED[..9], w5, BeginFree(0, 1), UNCALLED[..10], m);
    Then(s, UNCALLED[..10], m, EndFree(true), UNCALLED[..11], w7);
    Then(s, UNCALLED[..11], w7, AdmStep, UNCALLED, w8);
    w := w8;
    assert !RecordComplete(0, w.hist[0][1]);
  }
}
