/** adv_dmx_slot_free: the last callback takes the filter down, the last filter takes the channel down. */
module SlotRelease {
  import opened Bytes
  import opened DmxState
  import opened DmxInvariant
  import opened DmxBehaviour
  import opened SlotState
  import opened SlotInvariant
  import opened SlotProtocol

  /** Slot i gives up its filter. */
  function ReleaseSlot(s: Sys, i: nat, closeOk: bool): Sys
    requires i < |s.slots|
  {
    s.(slots := s.slots[i := ResetSlot(NoCallbacks())],
       dmx := DropFilter(s.dmx, s.slots[i].chId, s.slots[i].fltId, closeOk))
  }

  lemma {:induction false} FreeFromSkip(s: Sys, i: nat, upTo: nat, slotId: int, cb: nat, closeOk: bool, ret: int)
    requires i <= upTo <= |s.slots| && forall j :: i <= j < upTo ==> s.slots[j].slotId != slotId
    ensures FreeFrom(s, i, slotId, cb, closeOk, ret) == FreeFrom(s, upTo, slotId, cb, closeOk, ret)
    decreases upTo - i
  {
    if i < upTo {
      FreeFromSkip(s, i + 1, upTo, slotId, cb, closeOk, ret);
    }
  }

  lemma {:induction false} AllNullIsNone(cbs: seq<nat>)
    requires |cbs| == MAX_SLOT_CB_NUM && AllNull(cbs)
    ensures cbs == NoCallbacks()
  {
  }

  /** On a slot in use, the loop of slot_free amounts to one of three things: the callback is unknown;
      other callbacks remain; or the slot is released. */
  lemma {:induction false} FreeInUse(s: Sys, i: nat, cb: nat, closeOk: bool)
    requires SlotsOk(s) && i < |s.slots| && InUse(s.slots[i])
    ensures
      var t := s.slots[i];
      var k := FindCb(t.cbs, cb);
      SlotFree(s, i, cb, closeOk) ==
        if k == |t.cbs| then (s, -1)
        else if !AllNull(t.cbs[k := 0]) then (s.(slots := s.slots[i := t.(cbs := t.cbs[k := 0])]), 0)
        else (ReleaseSlot(s, i, closeOk), 0)
  {
    hide DropFilter;
    var t := s.slots[i];
    assert t.slotId == i && |t.cbs| == MAX_SLOT_CB_NUM by { assert SlotOk(t, i, s.dmx); }
    forall j | 0 <= j < |s.slots| && j != i
      ensures s.slots[j].slotId != i
    {
      assert SlotOk(s.slots[j], j, s.dmx);
    }
    hide SlotsOk;
    FreeFromSkip(s, 0, i, i, cb, closeOk, -1);
    var k := FindCb(t.cbs, cb);
    if k < |t.cbs| && AllNull(t.cbs[k := 0]) {
      AllNullIsNone(t.cbs[k := 0]);
      FreeFromSkip(ReleaseSlot(s, i, closeOk), i + 1, |s.slots|, i, cb, closeOk, 0);
    }
  }

  /** Any other slot id leaves the table and the channels alone, even the -1 that marks empty slots. The call fails,
      unless it is for -1 and no callback while a slot is empty. */
  lemma {:induction false} FreeUnknown(s: Sys, slotId: int, cb: nat, closeOk: bool)
    requires SlotsOk(s) && !(0 <= slotId < |s.slots| && InUse(s.slots[slotId]))
    ensures SlotFree(s, slotId, cb, closeOk).0 == s
    ensures SlotFree(s, slotId, cb, closeOk).1
            == if slotId == -1 && cb == 0 && exists i :: 0 <= i < |s.slots| && !InUse(s.slots[i]) then 0 else -1
  {
    FreeUnknownFrom(s, 0, slotId, cb, closeOk, -1);
  }

  lemma {:induction false} FreeUnknownFrom(s: Sys, i: nat, slotId: int, cb: nat, closeOk: bool, ret: int)
    requires SlotsOk(s) && i <= |s.slots| && !(0 <= slotId < |s.slots| && InUse(s.slots[slotId]))
    ensures FreeFrom(s, i, slotId, cb, closeOk, ret).0 == s
    ensures ret == -1 || (ret == 0 && slotId == -1 && cb == 0) ==>
      FreeFrom(s, i, slotId, cb, closeOk, ret).1
      == if slotId == -1 && cb == 0 && (ret == 0 || exists j :: i <= j < |s.slots| && !InUse(s.slots[j])) then 0 else -1
    decreases |s.slots| - i
  {
    if i < |s.slots| {
      assert SlotOk(s.slots[i], i, s.dmx);
      if s.slots[i].slotId == slotId {
        var t := s.slots[i];
        assert NoCallbacks()[0] == 0;
        if cb == 0 {
          assert FindCb(t.cbs, cb) == 0;
          assert t.cbs[0 := 0] == t.cbs && s.slots[i := t] == s.slots;
          assert DropFilter(s.dmx, t.chId, t.fltId, closeOk) == s.dmx;
          FreeUnknownFrom(s, i + 1, slotId, cb, closeOk, 0);
        }
      } else {
        FreeUnknownFrom(s, i + 1, slotId, cb, closeOk, ret);
      }
    }
  }

  /** Before slot_init both calls fail and change nothing. */
  lemma {:induction false} NothingBeforeInit(s: Sys, dmxId: nat, pid: nat, mask: seq<Byte>, value: seq<Byte>, len: nat, cb: nat,
                                             disOk: bool, enOk: bool, slotId: int)
    requires !s.inited && Shaped(s.slots) && len <= MAX_MV_LEN && len <= |mask| && len <= |value|
    ensures SlotAlloc(s, dmxId, pid, mask, value, len, cb, disOk, enOk) == Done(s, -1)
    ensures SlotFree(s, slotId, cb, enOk) == (s, -1)
  {
  }

  /** Freeing a filter of a running channel; with its last filter the channel goes. If it does not close, it stays
      allocated and enabled, without filters and sections. */
  lemma {:induction false} DropEffect(d: Dmx, ch: nat, flt: nat, closeOk: bool)
    requires Wf(d) && Usable(d, ch) && d.channels[ch].isEnabled && flt in d.channels[ch].flts
    ensures var d', c := DropFilter(d, ch, flt, closeOk), d.channels[ch];
      && Wf(d') && d'.initOk && |d'.channels| == |d.channels|
      && (forall j :: 0 <= j < |d.channels| && j != ch ==> d'.channels[j] == d.channels[j])
      && var c' := d'.channels[ch];
         if c.flts == {flt} then
           c' == if closeOk then InitChannel(c) else c.(flts := {}, maskEn := {}, secList := [])
         else c' == c.(flts := c.flts - {flt}, maskEn := c.maskEn - {flt}, secList := c'.secList)
  {
    var c := d.channels[ch];
    assert ChannelOk(c, ch, d.nodes);
    FreeFilterExact(d, ch, flt);
    FreeFilterWf(d, ch, flt);
    var d1 := FreeFilter(d, ch, flt).0;
    var rest := c.flts - {flt};
    assert c.flts == {flt} <==> rest == {};
    EnDisWf(d1, ch, closeOk);
    var d2 := DisChannel(d1, ch, closeOk).0;
    FreeChannelWf(d2, ch);
    assert ChannelOk(d2.channels[ch], ch, d2.nodes);
    if c.flts == {flt} {
      EmptyQueue(d1.channels[ch], ch, d1.nodes);
      assert c.maskEn - {flt} == {};
    }
  }

  ghost predicate SoleOwner(s: Sys, i: nat)
    requires i < |s.slots|
  {
    forall j :: 0 <= j < |s.slots| && j != i ==> !Owns(s.slots[j], s.slots[i].chId)
  }

  /** Reference counting without a counter: the channel has one filter left exactly when one slot is
      left on it. */
  lemma {:induction false} LastFilterIffLastSlot(s: Sys, i: nat)
    requires SlotsOk(s) && i < |s.slots| && InUse(s.slots[i])
    ensures s.slots[i].chId < |s.dmx.channels|
    ensures s.dmx.channels[s.slots[i].chId].flts == {s.slots[i].fltId} <==> SoleOwner(s, i)
  {
    var t := s.slots[i];
    var ch := t.chId;
    assert SlotOk(t, i, s.dmx) && Owns(t, ch);
    FiltersAreSlots(s, ch);
    var flts := s.dmx.channels[ch].flts;
    if SoleOwner(s, i) {
      forall f | f in flts
        ensures f == t.fltId
      {
        assert HasSlot(s.slots, ch, f);
      }
    } else {
      var j :| 0 <= j < |s.slots| && j != i && Owns(s.slots[j], ch);
      ShareChannelIffStream(s, i, j);
      assert HasSlot(s.slots, ch, s.slots[j].fltId);
    }
  }

  /** Releasing a slot keeps the protocol whatever the hardware answers. The channel survives exactly
      when another slot still uses it or the hardware refuses to close it. */
  lemma {:induction false} ReleaseKeepsProtocol(s: Sys, i: nat, closeOk: bool)
    requires SlotsOk(s) && i < |s.slots| && InUse(s.slots[i])
    ensures var s' := ReleaseSlot(s, i, closeOk);
      && SlotsOk(s')
      && s.slots[i].chId < |s.dmx.channels| == |s'.dmx.channels|
      && (s'.dmx.channels[s.slots[i].chId].isAllocated <==> !SoleOwner(s, i) || !closeOk)
      && (forall ch :: 0 <= ch < |s.dmx.channels| && ch != s.slots[i].chId ==> s'.dmx.channels[ch] == s.dmx.channels[ch])
  {
    var t, s' := s.slots[i], ReleaseSlot(s, i, closeOk);
    var ch := t.chId;
    assert SlotOk(t, i, s.dmx);
    DropEffect(s.dmx, ch, t.fltId, closeOk);
    LastFilterIffLastSlot(s, i);
    forall j | 0 <= j < |s'.slots|
      ensures SlotOk(s'.slots[j], j, s'.dmx)
    {
      ReleasedSlotOk(s, i, closeOk, j);
    }
    hide DropFilter, SlotOk, Wf;
    forall j, k | 0 <= j < k < |s'.slots|
      ensures PairOk(s'.slots[j], s'.slots[k])
    {
      assert PairOk(s.slots[j], s.slots[k]);
    }
    ReleaseCovers(s, i, s');
  }

  lemma {:induction false} ReleasedSlotOk(s: Sys, i: nat, closeOk: bool, j: nat)
    requires SlotsOk(s) && i < |s.slots| && InUse(s.slots[i]) && j < |s.slots|
    ensures SlotOk(ReleaseSlot(s, i, closeOk).slots[j], j, ReleaseSlot(s, i, closeOk).dmx)
  {
    var t, s' := s.slots[i], ReleaseSlot(s, i, closeOk);
    var ch := t.chId;
    assert SlotOk(t, i, s.dmx) && SlotOk(s.slots[j], j, s.dmx);
    DropEffect(s.dmx, ch, t.fltId, closeOk);
    hide DropFilter;
    if j != i && Owns(s.slots[j], ch) {
      ShareChannelIffStream(s, i, j);
      assert s.slots[j].fltId in s.dmx.channels[ch].flts && s.slots[j].fltId != t.fltId;
      assert ServesSlot(s'.dmx.channels[ch], s.slots[j]);
    }
  }

  lemma {:induction false} ReleaseCovers(s: Sys, i: nat, s': Sys)
    requires SlotsOk(s) && i < |s.slots| && InUse(s.slots[i]) && s.slots[i].chId < |s.dmx.channels| == |s'.dmx.channels|
    requires s'.slots == s.slots[i := ResetSlot(NoCallbacks())]
    requires forall ch :: 0 <= ch < |s.dmx.channels| && ch != s.slots[i].chId ==> s'.dmx.channels[ch] == s.dmx.channels[ch]
    requires !SoleOwner(s, i) ==>
      s'.dmx.channels[s.slots[i].chId].flts == s.dmx.channels[s.slots[i].chId].flts - {s.slots[i].fltId}
    ensures forall ch :: 0 <= ch < |s'.dmx.channels| ==> Covered(s'.slots, ch, s'.dmx.channels[ch])
  {
    forall ch, f | 0 <= ch < |s'.dmx.channels| && SlotOwned(s'.slots, ch) && f in s'.dmx.channels[ch].flts
      ensures HasSlot(s'.slots, ch, f)
    {
      var j :| 0 <= j < |s'.slots| && Owns(s'.slots[j], ch);
      assert j != i && Owns(s.slots[j], ch);
      assert Covered(s.slots, ch, s.dmx.channels[ch]) && f in s.dmx.channels[ch].flts;
      var k :| 0 <= k < |s.slots| && Owns(s.slots[k], ch) && s.slots[k].fltId == f;
      assert k != i;
      assert Owns(s'.slots[k], ch) && s'.slots[k].fltId == f;
    }
  }

  /** slot_free keeps the protocol on every input and every answer of the hardware. */
  lemma {:induction false} FreeKeepsProtocol(s: Sys, slotId: int, cb: nat, closeOk: bool)
    requires SlotsOk(s)
    ensures SlotsOk(SlotFree(s, slotId, cb, closeOk).0)
  {
    if 0 <= slotId < |s.slots| && InUse(s.slots[slotId]) {
      FreeInUse(s, slotId, cb, closeOk);
      ReleaseKeepsProtocol(s, slotId, closeOk);
      var t := s.slots[slotId];
      assert SlotOk(t, slotId, s.dmx);
      var k := FindCb(t.cbs, cb);
      if k < |t.cbs| {
        SlotReplaced(s, slotId, t.cbs[k := 0]);
      }
      hide SlotFree, ReleaseSlot;
    } else {
      FreeUnknown(s, slotId, cb, closeOk);
    }
  }

  /** slot_free leaks a channel exactly when it releases the last slot of one that will not close. */
  lemma {:induction false} FreeLeaksExactly(s: Sys, i: nat, closeOk: bool)
    requires SlotsOk(s) && NoLeak(s) && i < |s.slots| && InUse(s.slots[i])
    ensures NoLeak(ReleaseSlot(s, i, closeOk)) <==> closeOk || !SoleOwner(s, i)
  {
    ReleaseKeepsProtocol(s, i, closeOk);
    var s' := ReleaseSlot(s, i, closeOk);
    var mine := s.slots[i].chId;
    forall ch: nat
      ensures SlotOwned(s'.slots, ch) <==> exists j :: 0 <= j < |s.slots| && j != i && Owns(s.slots[j], ch)
    {
      if j :| 0 <= j < |s.slots| && j != i && Owns(s.slots[j], ch) {
        assert Owns(s'.slots[j], ch);
      }
      if SlotOwned(s'.slots, ch) {
        var j :| 0 <= j < |s'.slots| && Owns(s'.slots[j], ch);
        assert Owns(s.slots[j], ch);
      }
    }
    assert SlotOwned(s'.slots, mine) <==> !SoleOwner(s, i);
    forall ch | 0 <= ch < |s.dmx.channels| && ch != mine && s.dmx.channels[ch].isAllocated
      ensures SlotOwned(s'.slots, ch)
    {
      assert SlotOwned(s.slots, ch);
      var j :| 0 <= j < |s.slots| && Owns(s.slots[j], ch);
      assert j != i && Owns(s.slots[j], ch);
    }
  }
}
