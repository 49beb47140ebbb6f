/** Is every accepted section handed to the callbacks of its slot, once, in order, and to nobody else?
    Exactly when no step of the ADM task meets one of three situations that other threads can leave. */
module Handover {
  import opened Bytes
  import opened DmxState
  import opened DmxInvariant
  import opened SlotState
  import opened SlotInvariant
  import opened SlotRelease
  import opened SlotRuns
  import opened History
  import opened Delivery

  // ----- who is called -----

  /** slot_callback reaches the first slot that has this channel and filter. */
  lemma {:induction false} CallbackOfSlot(slots: seq<Slot>, i: nat, data: seq<Byte>)
    requires i < |slots|
    requires forall j :: 0 <= j < i ==> !(slots[j].chId == slots[i].chId && slots[j].fltId == slots[i].fltId)
    ensures SlotCallback(slots, slots[i].chId, slots[i].fltId, data) == CallEach(slots[i].cbs, slots[i].slotId, data)
  {
    if i > 0 {
      CallbackOfSlot(slots[1..], i-1, data);
    }
  }

  /** Without such a slot it calls nobody. */
  lemma {:induction false} CallbackOfNone(slots: seq<Slot>, ch: nat, flt: nat, data: seq<Byte>)
    requires forall j :: 0 <= j < |slots| ==> !(slots[j].chId == ch && slots[j].fltId == flt)
    ensures SlotCallback(slots, ch, flt, data) == []
  {
    if slots != [] {
      CallbackOfNone(slots[1..], ch, flt, data);
    }
  }

  /** Each callback registered on the slot is called exactly once, in position order, and nobody else. */
  lemma {:induction false} CallEachOnce(cbs: seq<nat>, slotId: int, data: seq<Byte>)
    requires forall j, k :: 0 <= j < k < |cbs| && cbs[j] != 0 ==> cbs[j] != cbs[k]
    ensures CalledOnce(CallEach(cbs, slotId, data), cbs, slotId, data)
  {
    if cbs != [] {
      CallEachOnce(cbs[1..], slotId, data);
      var r, rest := CallEach(cbs, slotId, data), CallEach(cbs[1..], slotId, data);
      assert cbs == [cbs[0]] + cbs[1..];
      if cbs[0] != 0 {
        assert cbs[0] !in cbs[1..];
        assert r == [SlotCall(cbs[0], slotId, data)] + rest;
      } else {
        assert r == rest;
      }
    }
  }

  lemma {:induction false} CallOne(cb: nat, slotId: int, data: seq<Byte>)
    ensures CallEach([cb], slotId, data) == if cb == 0 then [] else [SlotCall(cb, slotId, data)]
  {
    assert [cb][1..] == [];
  }

  lemma {:induction false} CallFirst(cbs: seq<nat>, slotId: int, data: seq<Byte>)
    requires cbs != []
    ensures CallEach(cbs, slotId, data) == CallEach([cbs[0]], slotId, data) + CallEach(cbs[1..], slotId, data)
  {
    CallOne(cbs[0], slotId, data);
  }

  /** In position order: the calls of one part of the array come before those of the part behind it. */
  lemma {:induction false} CallEachInOrder(a: seq<nat>, b: seq<nat>, slotId: int, data: seq<Byte>)
    ensures CallEach(a + b, slotId, data) == CallEach(a, slotId, data) + CallEach(b, slotId, data)
    ensures |a| == 1 ==> CallEach(a, slotId, data) == if a[0] == 0 then [] else [SlotCall(a[0], slotId, data)]
  {
    if a == [] {
      assert a + b == b;
    } else {
      CallFirst(a, slotId, data);
      CallFirst(a + b, slotId, data);
      CallOne(a[0], slotId, data);
      hide CallEach;
      assert (a + b)[0] == a[0] && (a + b)[1..] == a[1..] + b;
      assert |a| == 1 ==> a == [a[0]];
      CallEachInOrder(a[1..], b, slotId, data);
    }
  }

  /** `calls` are one call of each callback in cbs, with this slot id and these bytes, and no others. */
  ghost predicate CalledOnce(calls: seq<SlotCall>, cbs: seq<nat>, slotId: int, data: seq<Byte>) {
    && (forall cb: nat :: multiset(calls)[SlotCall(cb, slotId, data)] == if cb != 0 && cb in cbs then 1 else 0)
    && (forall x :: x in calls ==> x.slotId == slotId && x.data == data)
  }

  /** Slot i is the one slot of the table with this channel and filter. */
  ghost predicate TheSlot(table: seq<Slot>, i: nat, ch: nat, flt: nat) {
    && i < |table| && Owns(table[i], ch) && table[i].fltId == flt
    && forall j :: 0 <= j < |table| && table[j].chId == ch && table[j].fltId == flt ==> j == i
  }

  /** The section was handed to exactly the distinct callbacks of the one slot with its channel and filter. */
  ghost predicate HandedBy(table: seq<Slot>, i: nat, ch: nat, sec: Section, calls: seq<SlotCall>) {
    TheSlot(table, i, ch, sec.fltId) && CalledOnce(calls, table[i].cbs, i, sec.data)
  }

  ghost predicate Handed(table: seq<Slot>, ch: nat, sec: Section, calls: seq<SlotCall>) {
    exists i: nat :: HandedBy(table, i, ch, sec, calls)
  }

  /** The allocation under way has enabled this filter but not filled the slot. */
  predicate Pending(w: World, ch: nat, flt: nat) {
    w.busy.Filling? && w.busy.slot.chId == ch && w.busy.slot.fltId == flt
  }

  /** A channel with a queue has a slot for every section in it. */
  lemma {:induction false} WaitingHasSlot(s: Sys, ch: nat, k: nat) returns (i: nat)
    requires SlotsOk(s) && Guarded(s) && ch < |s.dmx.channels| && k < |s.dmx.channels[ch].secList|
    ensures TheSlot(s.slots, i, ch, NodeAt(s.dmx.nodes, s.dmx.channels[ch].secList[k]).fltId)
    ensures SlotOk(s.slots[i], i, s.dmx)
  {
    var c := s.dmx.channels[ch];
    var flt := NodeAt(s.dmx.nodes, c.secList[k]).fltId;
    assert c.secList[k] in c.secList;
    assert ChannelOk(c, ch, s.dmx.nodes);
    assert SlotOwned(s.slots, ch);
    assert Covered(s.slots, ch, c) && flt in c.flts;
    i :| 0 <= i < |s.slots| && Owns(s.slots[i], ch) && s.slots[i].fltId == flt;
    forall j | 0 <= j < |s.slots| && s.slots[j].chId == ch && s.slots[j].fltId == flt
      ensures j == i
    {
      assert SlotOk(s.slots[j], j, s.dmx);
      ShareChannelIffStream(s, i, j);
    }
  }

  /** In every reachable state a waiting section belongs to exactly one slot of the table as it will be
      once an allocation under way is through. */
  lemma {:induction false} WaitingReachesItsSlot(w: World, ch: nat, k: nat) returns (i: nat)
    requires WorldOk(w) && ch < |w.hist| && ch < |w.sys.dmx.channels| && k < |w.sys.dmx.channels[ch].secList|
    ensures var sec := NodeAt(w.sys.dmx.nodes, w.sys.dmx.channels[ch].secList[k]);
      HandedBy(Whole(w).slots, i, ch, sec, SlotCallback(Whole(w).slots, ch, sec.fltId, sec.data))
  {
    i := WaitingHasSlot(Whole(w), ch, k);
    var t, sec := Whole(w).slots[i], NodeAt(w.sys.dmx.nodes, w.sys.dmx.channels[ch].secList[k]);
    CallbackOfSlot(Whole(w).slots, i, sec.data);
    CallEachOnce(t.cbs, i, sec.data);
  }

  /** If it is called back now, it is handed to the callbacks of its slot, unless that slot is the one
      that is pending: then it is handed to nobody. */
  lemma {:induction false} CalledBackNow(w: World, ch: nat, k: nat)
    requires WorldOk(w) && ch < |w.hist| && ch < |w.sys.dmx.channels| && k < |w.sys.dmx.channels[ch].secList|
    ensures var sec := NodeAt(w.sys.dmx.nodes, w.sys.dmx.channels[ch].secList[k]);
      var calls := SlotCallback(w.sys.slots, ch, sec.fltId, sec.data);
      if Pending(w, ch, sec.fltId) then calls == [] && !Handed(w.sys.slots, ch, sec, calls)
      else Handed(w.sys.slots, ch, sec, calls)
  {
    hide SlotsOk, Guarded, SlotCallback, CallEach, CalledOnce;
    var sec := NodeAt(w.sys.dmx.nodes, w.sys.dmx.channels[ch].secList[k]);
    var i := WaitingHasSlot(Whole(w), ch, k);
    var table, whole := w.sys.slots, Whole(w).slots;
    ChannelNumber(Whole(w), ch);
    if Pending(w, ch, sec.fltId) {
      assert whole[w.busy.v] == w.busy.slot;
      assert i == w.busy.v;
      forall j | 0 <= j < |table|
        ensures !(table[j].chId == ch && table[j].fltId == sec.fltId)
      {
        assert j != w.busy.v ==> whole[j] == table[j];
      }
      CallbackOfNone(table, ch, sec.fltId, sec.data);
    } else {
      assert w.busy.Filling? ==> whole[w.busy.v] == w.busy.slot && i != w.busy.v;
      assert table[i] == whole[i];
      forall j | 0 <= j < |table| && table[j].chId == ch && table[j].fltId == sec.fltId
        ensures j == i
      {
        assert !(w.busy.Filling? && j == w.busy.v);
        assert whole[j] == table[j];
      }
      CallbackOfSlot(table, i, sec.data);
      CallEachOnce(table[i].cbs, i, sec.data);
      assert HandedBy(table, i, ch, sec, SlotCallback(table, ch, sec.fltId, sec.data));
    }
  }

  lemma {:induction false} ChannelNumber(s: Sys, ch: nat)
    requires SlotsOk(s) && ch < |s.dmx.channels|
    ensures ch < NO_ID
  {
  }

  // ----- every section of every run -----

  /** A section was not lost, and if it was delivered, then to the callbacks of its slot. */
  ghost predicate RecordComplete(ch: nat, r: Record) {
    !r.fate.Lost? && (r.fate.Delivered? ==> Handed(r.fate.table, ch, r.sec, r.fate.calls))
  }

  ghost predicate HistoryComplete(ch: nat, h: seq<Record>) {
    forall a :: 0 <= a < |h| ==> RecordComplete(ch, h[a])
  }

  /** And the calls made were those, in arrival order, and no others. */
  ghost predicate ChannelComplete(ch: nat, h: seq<Record>, calls: seq<SlotCall>) {
    HistoryComplete(ch, h) && calls == CallsIn(h)
  }

  ghost predicate Complete(w: World) {
    |w.hist| == |w.calls| && forall ch :: 0 <= ch < |w.hist| ==> ChannelComplete(ch, w.hist[ch], w.calls[ch])
  }

  /** The task is about to call back for the head of the queue, whose slot is not filled yet. */
  predicate CallsTooEarly(w: World) {
    w.adm.Peeked? && AtHead(w.sys.dmx, w.adm.i, w.adm.wkBuf) && Pending(w, w.adm.i, NodeAt(w.sys.dmx.nodes, w.adm.wkBuf).fltId)
  }

  /** It is about to call back for a node that is not the head any more, and somebody will be called. */
  predicate CallsTooLate(w: World) {
    w.adm.Peeked? && !AtHead(w.sys.dmx, w.adm.i, w.adm.wkBuf) &&
    var sec := NodeAt(w.sys.dmx.nodes, w.adm.wkBuf);
    SlotCallback(w.sys.slots, w.adm.i, sec.fltId, sec.data) != []
  }

  /** It is about to take out a head that is not the section it called back for. */
  predicate PopsUncalled(w: World) {
    w.adm.Called? && !w.adm.here && w.adm.i < |w.sys.dmx.channels| && w.sys.dmx.channels[w.adm.i].secList != []
  }

  predicate Spoils(w: World, e: Event) {
    e.AdmStep? && (CallsTooEarly(w) || CallsTooLate(w) || PopsUncalled(w))
  }

  lemma {:induction false} AppendComplete(ch: nat, h: seq<Record>, calls: seq<SlotCall>, r: Record)
    requires r.fate.Waiting?
    ensures ChannelComplete(ch, h + [r], calls) <==> ChannelComplete(ch, h, calls)
  {
    hide Handed;
    WaitingAppend(h, r);
    assert (h + [r])[|h|] == r;
    assert forall a :: 0 <= a < |h| ==> (h + [r])[a] == h[a];
  }

  lemma {:induction false} FlushComplete(ch: nat, h: seq<Record>, calls: seq<SlotCall>, flt: nat)
    ensures ChannelComplete(ch, FlushWaiting(h, flt), calls) <==> ChannelComplete(ch, h, calls)
  {
    hide Handed, CallsIn;
    FlushCalls(h, flt);
    var h' := FlushWaiting(h, flt);
    assert forall a :: 0 <= a < |h| ==> if h[a].fate.Waiting? then h'[a].fate.Waiting? || h'[a].fate.Flushed? else h'[a] == h[a];
  }

  lemma {:induction false} SettleComplete(ch: nat, h: seq<Record>, fate: Fate)
    requires FirstWaiting(h) < |h|
    ensures HistoryComplete(ch, Settle(h, fate))
            <==> HistoryComplete(ch, h) && RecordComplete(ch, Record(h[FirstWaiting(h)].sec, fate))
  {
    hide Handed, FirstWaiting;
    var a, h' := FirstWaiting(h), Settle(h, fate);
    assert h'[a] == Record(h[a].sec, fate);
    assert forall b :: 0 <= b < |h| && b != a ==> h'[b] == h[b];
  }

  /** An event that changes the history and the calls of one channel only. */
  lemma {:induction false} OneChannel(w: World, w': World, i: nat)
    requires i < |w.hist| == |w.calls| && |w'.hist| == |w'.calls| == |w.hist|
    requires w'.hist == w.hist[i := w'.hist[i]] && w'.calls == w.calls[i := w'.calls[i]]
    ensures (ChannelComplete(i, w'.hist[i], w'.calls[i]) <==> ChannelComplete(i, w.hist[i], w.calls[i]))
            ==> (Complete(w') <==> Complete(w))
    ensures !ChannelComplete(i, w'.hist[i], w'.calls[i]) ==> !Complete(w')
  {
    hide ChannelComplete;
    assert forall j :: 0 <= j < |w.hist| && j != i ==> w'.hist[j] == w.hist[j] && w'.calls[j] == w.calls[j];
  }

  lemma {:induction false} ArriveComplete(w: World, i: nat, flt: nat, data: seq<Byte>)
    requires i < |w.hist| && Shape(w)
    ensures Complete(Next(w, Arrive(i, flt, data))) <==> Complete(w)
  {
    hide ChannelComplete, SecCb;
    AppendComplete(i, w.hist[i], w.calls[i], Record(Section(flt, data), Waiting));
    OneChannel(w, Next(w, Arrive(i, flt, data)), i);
  }

  /** Calling back for the head: its record is complete exactly if its slot is filled. */
  lemma {:induction false} HeadComplete(w: World)
    requires WorldOk(w) && w.adm.Peeked? && AtHead(w.sys.dmx, w.adm.i, w.adm.wkBuf)
    ensures Shape(w) && w.adm.i < |w.hist|
    ensures var i, w' := w.adm.i, AdmCall(w, w.adm.i, w.adm.wkBuf);
      ChannelComplete(i, w'.hist[i], w'.calls[i]) <==> ChannelComplete(i, w.hist[i], w.calls[i]) && !CallsTooEarly(w)
  {
    var i, d := w.adm.i, w.sys.dmx;
    var h, q := w.hist[i], d.channels[i].secList;
    var sec := NodeAt(d.nodes, w.adm.wkBuf);
    var made := SlotCallback(w.sys.slots, i, sec.fltId, sec.data);
    var fate := Delivered(w.sys.slots, made);
    assert HistoryOk(h, Backlog(d, w.adm, i), d.nodes);
    HeadIsOldest(h, q, d.nodes);
    SomeWaiting(h);
    SettleHistory(h, fate);
    SettleComplete(i, h, fate);
    CalledBackNow(w, i, 0);
    SameEnd(w.calls[i], CallsIn(h), made);
    hide WorldOk, Handed, SlotCallback, Settle, HistoryComplete, CallsIn, HistoryOk;
  }

  lemma {:induction false} SameEnd(a: seq<SlotCall>, b: seq<SlotCall>, c: seq<SlotCall>)
    ensures a + c == b + c <==> a == b
  {
    if a + c == b + c {
      assert (a + c)[..|a|] == (b + c)[..|b|];
    }
  }

  /** Calling back for anything else is harmless exactly if nobody is called. */
  lemma {:induction false} StrayComplete(w: World)
    requires WorldOk(w) && w.adm.Peeked? && !AtHead(w.sys.dmx, w.adm.i, w.adm.wkBuf)
    ensures Shape(w) && w.adm.i < |w.hist|
    ensures var i, w' := w.adm.i, AdmCall(w, w.adm.i, w.adm.wkBuf);
      ChannelComplete(i, w'.hist[i], w'.calls[i]) <==> ChannelComplete(i, w.hist[i], w.calls[i]) && !CallsTooLate(w)
  {
    var i, h := w.adm.i, w.hist[w.adm.i];
    var sec := NodeAt(w.sys.dmx.nodes, w.adm.wkBuf);
    var made := SlotCallback(w.sys.slots, i, sec.fltId, sec.data);
    WithinLength(CallsIn(h), w.calls[i]);
    assert made == [] ==> w.calls[i] + made == w.calls[i];
    hide WorldOk, SlotCallback, HistoryComplete, CallsIn;
  }

  lemma {:induction false} CallComplete(w: World)
    requires WorldOk(w) && w.adm.Peeked?
    ensures Complete(AdmNext(w)) <==> Complete(w) && !Spoils(w, AdmStep)
  {
    hide ChannelComplete, SlotCallback, Settle;
    assert Shape(w) && w.adm.i < |w.hist| by { AdmIsOk(w); }
    var i, w' := w.adm.i, AdmNext(w);
    OneChannel(w, w', i);
    if AtHead(w.sys.dmx, i, w.adm.wkBuf) {
      HeadComplete(w);
    } else {
      StrayComplete(w);
    }
    hide WorldOk;
  }

  lemma {:induction false} PopComplete(w: World)
    requires WorldOk(w) && w.adm.Called?
    ensures Complete(AdmNext(w)) <==> Complete(w) && !Spoils(w, AdmStep)
  {
    hide ChannelComplete, Settle, SlotCallback;
    assert Shape(w) && w.adm.i < |w.hist| by { AdmIsOk(w); }
    var i, w', d := w.adm.i, AdmNext(w), w.sys.dmx;
    if PopsUncalled(w) {
      assert HistoryOk(w.hist[i], Backlog(d, w.adm, i), d.nodes);
      HeadIsOldest(w.hist[i], d.channels[i].secList, d.nodes);
      SettleComplete(i, w.hist[i], Lost);
      OneChannel(w, w', i);
      assert !HistoryComplete(i, w'.hist[i]);
      NotComplete(i, w'.hist[i], w'.calls[i]);
    } else {
      assert w'.hist == w.hist && w'.calls == w.calls;
    }
  }

  lemma {:induction false} NotComplete(ch: nat, h: seq<Record>, calls: seq<SlotCall>)
    requires !HistoryComplete(ch, h)
    ensures !ChannelComplete(ch, h, calls)
  {
  }

  lemma {:induction false} EndFreeComplete(w: World, closeOk: bool)
    requires Possible(w, EndFree(closeOk)) && Shape(w)
    ensures Complete(Next(w, EndFree(closeOk))) <==> Complete(w)
  {
    hide ChannelComplete, ReleaseSlot, FlushWaiting;
    var t := w.sys.slots[w.busy.i];
    if t.chId < |w.hist| {
      FlushComplete(t.chId, w.hist[t.chId], w.calls[t.chId], t.fltId);
      OneChannel(w, Next(w, EndFree(closeOk)), t.chId);
    }
  }

  lemma {:induction false} FlushOldestComplete(ch: nat, h: seq<Record>, calls: seq<SlotCall>, flt: nat)
    ensures ChannelComplete(ch, FlushOldest(h, flt), calls) <==> ChannelComplete(ch, h, calls)
  {
    hide Handed, CallsIn;
    FlushOldestCalls(h, flt);
    hide FlushOldest;
  }

  lemma {:induction false} FlushOldestCalls(h: seq<Record>, flt: nat)
    ensures CallsIn(FlushOldest(h, flt)) == CallsIn(h)
  {
    if h != [] {
      assert FlushOldest(h, flt)[1..] == h[1..] || FlushOldest(h, flt)[1..] == FlushOldest(h[1..], flt);
      FlushOldestCalls(h[1..], flt);
    }
  }

  lemma {:induction false} FlushNodeComplete(w: World)
    requires Possible(w, FlushNode) && Shape(w)
    ensures Complete(Next(w, FlushNode)) <==> Complete(w)
  {
    hide ChannelComplete, FlushOldest;
    var t := w.sys.slots[w.busy.i];
    FlushOldestComplete(t.chId, w.hist[t.chId], w.calls[t.chId], t.fltId);
    OneChannel(w, Next(w, FlushNode), t.chId);
  }

  lemma {:induction false} SameHistories(w: World, e: Event)
    requires Possible(w, e) && Shape(w)
    requires e.BeginAlloc? || e.EndAlloc? || e.BeginFree? || e.AdmSkip? || (e.AdmStep? && !w.adm.Peeked? && !w.adm.Called?)
    ensures Complete(Next(w, e)) <==> Complete(w)
  {
    hide ChannelComplete, SlotAlloc, SlotFree, Allowed, Releases;
    assert Next(w, e).hist == w.hist && Next(w, e).calls == w.calls;
  }

  /** Which events spoil completeness. */
  lemma {:induction false} StepComplete(w: World, e: Event)
    requires WorldOk(w) && Possible(w, e) && Shape(w)
    ensures Complete(Next(w, e)) <==> Complete(w) && !Spoils(w, e)
  {
    hide WorldOk, Complete, AdmNext;
    match e
    case Arrive(i, flt, data) => ArriveComplete(w, i, flt, data);
    case AdmStep =>
      match w.adm {
        case Peeked(_, _, _) => CallComplete(w);
        case Called(_, _, _) => PopComplete(w);
        case _ => SameHistories(w, e);
      }
    case FlushNode => FlushNodeComplete(w);
    case EndFree(closeOk) => EndFreeComplete(w, closeOk);
    case _ => SameHistories(w, e);
  }

  /** End to end, over every run: no section was lost, every delivered one was handed to exactly the distinct
      callbacks of the one slot with its channel and filter, and these calls were made in arrival order and
      no others were made, if and only if no step of the run met one of the three situations. */
  lemma {:induction false} RunHandsOver(ws: seq<World>, es: seq<Event>)
    requires Delivery.IsRun(ws, es) && WorldOk(ws[0]) && Complete(ws[0])
    ensures Complete(ws[|es|]) <==> forall k :: 0 <= k < |es| ==> !Spoils(ws[k], es[k])
  {
    RunPrefix(ws, es, |es|);
  }

  lemma {:induction false} RunPrefix(ws: seq<World>, es: seq<Event>, n: nat)
    requires Delivery.IsRun(ws, es) && WorldOk(ws[0]) && Complete(ws[0]) && n < |ws|
    ensures Complete(ws[n]) <==> forall k :: 0 <= k < n ==> !Spoils(ws[k], es[k])
  {
    hide Complete, Spoils, WorldOk, Next, Possible;
    if n > 0 {
      RunPrefix(ws, es, n - 1);
      RunDelivers(ws, es, n - 1);
      assert ws[n] == Next(ws[n-1], es[n-1]);
      StepComplete(ws[n-1], es[n-1]);
    }
  }

  // ----- where the situations come from -----

  /** The task holds a node that is not the head it peeked, or did not call back for the head. */
  predicate Disturbed(w: World) {
    (w.adm.Peeked? && !AtHead(w.sys.dmx, w.adm.i, w.adm.wkBuf)) || (w.adm.Called? && !w.adm.here)
  }

  /** Between the peek of this node on this channel and the pop that belongs to it. */
  predicate InRound(w: World, i: nat, n: nat) {
    (w.adm.Peeked? || w.adm.Called?) && w.adm.i == i && w.adm.wkBuf == n
  }

  lemma {:induction false} AllocKeepsHeads(w: World, e: Event)
    requires WorldOk(w) && e.BeginAlloc? && Possible(w, e) && Shape(w)
    ensures QueuesKept(w.sys.dmx, Next(w, e).sys.dmx)
  {
    AllocKeepsQueues(w.sys, e.dmxId, e.pid, e.mask, e.value, e.len, e.cb, e.disOk, e.enOk);
    hide SlotAlloc, SlotsOk, Guarded, HistoriesOk;
  }

  /** Before it takes the slot down, slot_free touches no channel. */
  lemma {:induction false} BeginFreeKeepsHeads(w: World, slotId: int, cb: nat)
    requires WorldOk(w) && w.busy.Ready? && Shape(w)
    ensures Next(w, BeginFree(slotId, cb)).sys.dmx == w.sys.dmx && Next(w, BeginFree(slotId, cb)).adm == w.adm
  {
    if 0 <= slotId < |w.sys.slots| && InUse(w.sys.slots[slotId]) {
      FreeInUse(w.sys, slotId, cb, true);
    } else {
      FreeUnknown(w.sys, slotId, cb, true);
    }
    hide SlotFree, SlotsOk, Guarded, HistoriesOk, AdmOk, ReleaseSlot;
  }

  lemma {:induction false} ArriveKeepsHeads(d: Dmx, i: nat, flt: nat, data: seq<Byte>, j: nat, n: nat)
    requires i < |d.channels| && AtHead(d, j, n)
    ensures AtHead(SecCb(d, i, flt, data), j, n)
  {
  }

  lemma {:induction false} AdmDisturbs(w: World)
    requires Shape(w) && Disturbed(AdmNext(w))
    ensures var adm := AdmNext(w).adm; InRound(w, adm.i, adm.wkBuf) && Disturbed(w)
  {
    hide SlotCallback, Settle, FirstWaiting;
  }

  predicate Flushes(e: Event) {
    e.FlushNode? || e.EndFree?
  }

  /** Only the flush in slot_free disturbs the task. */
  lemma {:induction false} StepDisturbs(w: World, e: Event)
    requires WorldOk(w) && Possible(w, e) && Shape(w) && Disturbed(Next(w, e))
    ensures var adm := Next(w, e).adm; InRound(w, adm.i, adm.wkBuf) && (Disturbed(w) || Flushes(e))
  {
    hide WorldOk, SecCb, AdmNext, SlotAlloc, SlotFree, Allowed, ReleaseSlot, FlushWaiting, FlushOldest, ReturnAt;
    match e
    case Arrive(i, flt, data) =>
      if w.adm.Peeked? && AtHead(w.sys.dmx, w.adm.i, w.adm.wkBuf) {
        ArriveKeepsHeads(w.sys.dmx, i, flt, data, w.adm.i, w.adm.wkBuf);
      }
    case AdmStep => AdmDisturbs(w);
    case BeginAlloc(_, _, _, _, _, _, _, _) => AllocKeepsHeads(w, e);
    case EndAlloc =>
    case BeginFree(slotId, cb) => BeginFreeKeepsHeads(w, slotId, cb);
    case _ =>
  }

  /** Whenever the task is disturbed, as it is at every late call and every uncalled pop, the flush in slot_free
      that did it can be pointed out, and it came after the peek. */
  lemma {:induction false} DisturbedByFlush(ws: seq<World>, es: seq<Event>, k: nat) returns (j: nat)
    requires Delivery.IsRun(ws, es) && WorldOk(ws[0]) && !Disturbed(ws[0]) && k < |ws| && Disturbed(ws[k])
    ensures j < k && Flushes(es[j])
    ensures forall m :: j <= m <= k ==> InRound(ws[m], ws[k].adm.i, ws[k].adm.wkBuf)
  {
    hide WorldOk, Next, Possible;
    RunDelivers(ws, es, k - 1);
    assert ws[k] == Next(ws[k-1], es[k-1]);
    StepDisturbs(ws[k-1], es[k-1]);
    if Disturbed(ws[k-1]) {
      j := DisturbedByFlush(ws, es, k - 1);
    } else {
      j := k - 1;
    }
  }
}
