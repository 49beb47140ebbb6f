/** The slot layer over whole runs of slot_alloc and slot_free, from the table slot_init leaves. */
module SlotRuns {
  import opened Bytes
  import opened DmxState
  import opened DmxInvariant
  import opened SlotState
  import opened SlotInvariant
  import opened SlotAllocation
  import opened SlotProtocol
  import opened SlotRelease

  /** A channel that accepts nothing and holds nothing. */
  predicate Silent(c: Channel) {
    c.secList == [] && (!c.isEnabled || c.flts == {})
  }

  /** Every channel that no slot owns is silent, leaked ones included. */
  ghost predicate Guarded(s: Sys) {
    forall ch :: 0 <= ch < |s.dmx.channels| && !SlotOwned(s.slots, ch) ==> Silent(s.dmx.channels[ch])
  }

  lemma {:induction false} InitialGuarded(s: Sys)
    requires SlotsOk(s) && forall i :: 0 <= i < |s.slots| ==> s.slots[i] == ResetSlot(NoCallbacks())
    ensures (forall ch :: 0 <= ch < |s.dmx.channels| ==> !s.dmx.channels[ch].isAllocated) ==> NoLeak(s) && Guarded(s)
  {
    forall ch | 0 <= ch < |s.dmx.channels|
      ensures ChannelOk(s.dmx.channels[ch], ch, s.dmx.nodes)
    {
    }
  }

  // ----- slot_alloc -----

  lemma {:induction false} OpenGuarded(s: Sys, dmxId: nat, pid: nat, mask: seq<Byte>, value: seq<Byte>, len: nat, cb: nat, enOk: bool)
    requires SlotsOk(s) && Guarded(s) && len <= |mask| && len <= |value| && len <= MAX_MV_LEN
    ensures
      var o := OpenSlot(s, dmxId, pid, mask, value, len, cb, enOk);
      o.Done? ==> Guarded(o.sys)
  {
    OpenEffect(s.dmx, dmxId, s.crc, pid, mask, value, len, enOk);
    hide OpenStream, AllocChannel, Wf;
    var (a, ch) := OpenStream(s.dmx, dmxId, s.crc, pid, mask, value, len, enOk);
    FinishOwners(s, a, dmxId, pid, ch, mask, value, len, cb);
    hide Finish;
  }

  lemma {:induction false} JoinGuarded(s: Sys, i: nat, mask: seq<Byte>, value: seq<Byte>, len: nat, cb: nat, disOk: bool, enOk: bool)
    requires SlotsOk(s) && Guarded(s) && i < |s.slots| && len <= |mask| && len <= |value| && len <= MAX_MV_LEN
    ensures
      var o := JoinSlot(s, i, mask, value, len, cb, disOk, enOk);
      o.Done? ==> Guarded(o.sys)
  {
    if InUse(s.slots[i]) {
      var ch := s.slots[i].chId;
      JoinEffect(s, i, mask, value, len, disOk, enOk);
      assert Owns(s.slots[i], ch);
      hide JoinStream, Finish;
      var a := JoinStream(s.dmx, ch, mask, value, len, disOk, enOk);
      FinishOwners(s, a, s.slots[i].dmxId, s.slots[i].pid, ch, mask, value, len, cb);
    } else {
      NoStream(s, i, mask, value, len, cb, disOk, enOk);
    }
  }

  lemma {:induction false} CallbackGuarded(s: Sys, i: nat, cb: nat)
    requires Guarded(s) && i < |s.slots| && AddCallback(s, i, cb).Done?
    ensures Guarded(AddCallback(s, i, cb).sys)
  {
    var s' := AddCallback(s, i, cb).sys;
    forall ch | 0 <= ch < |s.dmx.channels|
      ensures SlotOwned(s.slots, ch) <==> SlotOwned(s'.slots, ch)
    {
      SameOwners(s.slots, s'.slots, ch);
    }
  }

  /** slot_alloc leaves no channel without a slot that could accept or hold a section. */
  lemma {:induction false} AllocGuarded(s: Sys, dmxId: nat, pid: nat, mask: seq<Byte>, value: seq<Byte>, len: nat, cb: nat,
                     disOk: bool, enOk: bool)
    requires SlotsOk(s) && Guarded(s) && len <= |mask| && len <= |value| && len <= MAX_MV_LEN
    ensures
      var o := SlotAlloc(s, dmxId, pid, mask, value, len, cb, disOk, enOk);
      o.Done? ==> Guarded(o.sys)
  {
    hide OpenSlot, JoinSlot, AddCallback;
    var same := FindSame(s.slots, dmxId, pid, mask, value, len);
    var stream := FindStream(s.slots, dmxId, pid);
    if same < |s.slots| {
      if AddCallback(s, same, cb).Done? { CallbackGuarded(s, same, cb); }
    } else if stream == |s.slots| {
      OpenGuarded(s, dmxId, pid, mask, value, len, cb, enOk);
    } else {
      JoinGuarded(s, stream, mask, value, len, cb, disOk, enOk);
    }
  }

  // ----- slot_free -----

  lemma {:induction false} ReleaseGuarded(s: Sys, i: nat, closeOk: bool)
    requires SlotsOk(s) && Guarded(s) && i < |s.slots| && InUse(s.slots[i])
    ensures Guarded(ReleaseSlot(s, i, closeOk))
  {
    var t, s' := s.slots[i], ReleaseSlot(s, i, closeOk);
    var mine := t.chId;
    assert SlotOk(t, i, s.dmx);
    DropEffect(s.dmx, mine, t.fltId, closeOk);
    LastFilterIffLastSlot(s, i);
    hide DropFilter;
    forall ch | 0 <= ch < |s'.dmx.channels| && !SlotOwned(s'.slots, ch)
      ensures Silent(s'.dmx.channels[ch])
    {
      assert ChannelOk(s'.dmx.channels[ch], ch, s'.dmx.nodes);
      forall j | 0 <= j < |s.slots| && j != i
        ensures !Owns(s.slots[j], ch)
      {
        assert s'.slots[j] == s.slots[j] && !Owns(s'.slots[j], ch);
      }
      if ch == mine {
        EmptyQueue(s'.dmx.channels[ch], ch, s'.dmx.nodes);
      } else {
        assert !SlotOwned(s.slots, ch);
      }
    }
  }

  lemma {:induction false} GuardedCallbacks(s: Sys, i: nat, cbs: seq<nat>)
    requires Guarded(s) && i < |s.slots|
    ensures Guarded(s.(slots := s.slots[i := s.slots[i].(cbs := cbs)]))
  {
    var slots := s.slots[i := s.slots[i].(cbs := cbs)];
    forall ch | 0 <= ch < |s.dmx.channels|
      ensures SlotOwned(s.slots, ch) <==> SlotOwned(slots, ch)
    {
      SameOwners(s.slots, slots, ch);
    }
  }

  lemma {:induction false} FreeGuarded(s: Sys, slotId: int, cb: nat, closeOk: bool)
    requires SlotsOk(s) && Guarded(s)
    ensures Guarded(SlotFree(s, slotId, cb, closeOk).0)
  {
    if 0 <= slotId < |s.slots| && InUse(s.slots[slotId]) {
      FreeInUse(s, slotId, cb, closeOk);
      ReleaseGuarded(s, slotId, closeOk);
      var t := s.slots[slotId];
      GuardedCallbacks(s, slotId, t.cbs);
      assert s.slots[slotId := t.(cbs := t.cbs)] == s.slots;
      var k := FindCb(t.cbs, cb);
      if k < |t.cbs| { GuardedCallbacks(s, slotId, t.cbs[k := 0]); }
      hide SlotFree, ReleaseSlot, Guarded;
    } else {
      FreeUnknown(s, slotId, cb, closeOk);
    }
  }

  // ----- runs -----

  /** The channel of every slot in use checks sections the way slot_init was told. */
  ghost predicate CrcOk(s: Sys) {
    forall i :: 0 <= i < |s.slots| && InUse(s.slots[i]) && s.slots[i].chId < |s.dmx.channels| ==>
      s.dmx.channels[s.slots[i].chId].crcFlag == s.crc
  }

  datatype SlotOp =
    | Allocate(dmxId: nat, pid: nat, mask: seq<Byte>, value: seq<Byte>, len: nat, cb: nat, disOk: bool, enOk: bool)
    | Release(slotId: int, cb: nat, closeOk: bool)

  /** The call neither writes out of bounds nor breaks the protocol; the condition is the exact one. */
  predicate Allowed(s: Sys, op: SlotOp) {
    match op
    case Allocate(dmxId, pid, mask, value, len, cb, disOk, enOk) =>
      && Shaped(s.slots) && len <= |mask| && len <= |value| && len <= MAX_MV_LEN
      && SlotAlloc(s, dmxId, pid, mask, value, len, cb, disOk, enOk).Done?
      && AllocSafe(s, dmxId, pid, mask, value, len, cb, disOk, enOk)
    case Release(_, _, _) => true
  }

  function Apply(s: Sys, op: SlotOp): Sys
    requires Allowed(s, op)
  {
    match op
    case Allocate(dmxId, pid, mask, value, len, cb, disOk, enOk) =>
      SlotAlloc(s, dmxId, pid, mask, value, len, cb, disOk, enOk).sys
    case Release(slotId, cb, closeOk) => SlotFree(s, slotId, cb, closeOk).0
  }

  /** The hardware answers of the call leave no channel behind. */
  predicate Tidy(s: Sys, op: SlotOp) {
    match op
    case Allocate(dmxId, pid, mask, value, len, cb, disOk, enOk) =>
      !(FindStream(s.slots, dmxId, pid) == |s.slots|
        && AllocChannel(s.dmx, dmxId, s.crc, SLOT_CALLBACK).1 != NO_ID && (pid == INVALID_PID || !enOk))
    case Release(_, _, closeOk) => closeOk
  }

  lemma {:induction false} ApplyKeeps(s: Sys, op: SlotOp)
    requires SlotsOk(s) && Guarded(s) && Allowed(s, op)
    ensures SlotsOk(Apply(s, op)) && Guarded(Apply(s, op))
    ensures NoLeak(s) && Tidy(s, op) ==> NoLeak(Apply(s, op))
  {
    match op
    case Allocate(dmxId, pid, mask, value, len, cb, disOk, enOk) =>
      AllocKeepsProtocol(s, dmxId, pid, mask, value, len, cb, disOk, enOk);
      AllocGuarded(s, dmxId, pid, mask, value, len, cb, disOk, enOk);
      if NoLeak(s) { AllocLeaksExactly(s, dmxId, pid, mask, value, len, cb, disOk, enOk); }
      hide SlotAlloc, SlotsOk, Guarded, NoLeak;
    case Release(slotId, cb, closeOk) =>
      FreeKeepsProtocol(s, slotId, cb, closeOk);
      FreeGuarded(s, slotId, cb, closeOk);
      if NoLeak(s) && closeOk { FreeLeaksNothing(s, slotId, cb); }
      hide SlotFree, SlotsOk, Guarded, NoLeak;
  }

  lemma {:induction false} FreeLeaksNothing(s: Sys, slotId: int, cb: nat)
    requires SlotsOk(s) && NoLeak(s)
    ensures NoLeak(SlotFree(s, slotId, cb, true).0)
  {
    if 0 <= slotId < |s.slots| && InUse(s.slots[slotId]) {
      FreeInUse(s, slotId, cb, true);
      FreeLeaksExactly(s, slotId, true);
      hide SlotFree, ReleaseSlot;
      var s' := SlotFree(s, slotId, cb, true).0;
      if s' != ReleaseSlot(s, slotId, true) {
        forall ch | 0 <= ch < |s.dmx.channels|
          ensures SlotOwned(s.slots, ch) <==> SlotOwned(s'.slots, ch)
        {
          SameOwners(s.slots, s'.slots, ch);
        }
      }
    } else {
      FreeUnknown(s, slotId, cb, true);
    }
  }

  lemma {:induction false} ApplyCrc(s: Sys, op: SlotOp)
    requires SlotsOk(s) && CrcOk(s) && Allowed(s, op)
    ensures CrcOk(Apply(s, op)) && Apply(s, op).crc == s.crc
  {
    match op
    case Allocate(dmxId, pid, mask, value, len, cb, disOk, enOk) => AllocCrc(s, dmxId, pid, mask, value, len, cb, disOk, enOk);
    case Release(slotId, cb, closeOk) =>
      if 0 <= slotId < |s.slots| && InUse(s.slots[slotId]) {
        FreeInUse(s, slotId, cb, closeOk);
        ReleaseCrc(s, slotId, closeOk);
        hide SlotFree, ReleaseSlot, SlotsOk;
      } else {
        FreeUnknown(s, slotId, cb, closeOk);
      }
  }

  lemma {:induction false} ReleaseCrc(s: Sys, i: nat, closeOk: bool)
    requires SlotsOk(s) && CrcOk(s) && i < |s.slots| && InUse(s.slots[i])
    ensures CrcOk(ReleaseSlot(s, i, closeOk))
  {
    var t := s.slots[i];
    assert SlotOk(t, i, s.dmx);
    DropEffect(s.dmx, t.chId, t.fltId, closeOk);
    LastFilterIffLastSlot(s, i);
    hide DropFilter;
    forall j | 0 <= j < |s.slots| && j != i && Owns(s.slots[j], t.chId)
      ensures !SoleOwner(s, i)
    {
    }
  }

  lemma {:induction false} AllocCrc(s: Sys, dmxId: nat, pid: nat, mask: seq<Byte>, value: seq<Byte>, len: nat, cb: nat,
                                    disOk: bool, enOk: bool)
    requires SlotsOk(s) && CrcOk(s) && Allowed(s, Allocate(dmxId, pid, mask, value, len, cb, disOk, enOk))
    ensures var o := SlotAlloc(s, dmxId, pid, mask, value, len, cb, disOk, enOk); o.Done? && CrcOk(o.sys) && o.sys.crc == s.crc
  {
    hide OpenSlot, JoinSlot, AddCallback, AllocSafe;
    var stream := FindStream(s.slots, dmxId, pid);
    var same := FindSame(s.slots, dmxId, pid, mask, value, len);
    if same < |s.slots| {
      CallbackCrc(s, same, cb);
    } else if stream == |s.slots| {
      OpenCrc(s, dmxId, pid, mask, value, len, cb, enOk);
    } else {
      StreamInUse(s, stream, dmxId, pid);
      if EmptyKey(dmxId, pid) {
        NoStream(s, stream, mask, value, len, cb, disOk, enOk);
      } else {
        SafeJoin(s, dmxId, pid, mask, value, len, cb, disOk, enOk);
        JoinCrc(s, stream, mask, value, len, cb, disOk, enOk);
      }
    }
    hide SlotsOk, CrcOk;
  }

  lemma {:induction false} SafeJoin(s: Sys, dmxId: nat, pid: nat, mask: seq<Byte>, value: seq<Byte>, len: nat, cb: nat,
                                    disOk: bool, enOk: bool)
    requires len <= |mask| && len <= |value| && FindSame(s.slots, dmxId, pid, mask, value, len) == |s.slots|
    requires AllocSafe(s, dmxId, pid, mask, value, len, cb, disOk, enOk)
    requires FindStream(s.slots, dmxId, pid) < |s.slots| && !EmptyKey(dmxId, pid)
    ensures StreamFull(s, FindStream(s.slots, dmxId, pid)) || (disOk && enOk)
  {
  }

  lemma {:induction false} CallbackCrc(s: Sys, i: nat, cb: nat)
    requires CrcOk(s) && i < |s.slots| && AddCallback(s, i, cb).Done?
    ensures CrcOk(AddCallback(s, i, cb).sys) && AddCallback(s, i, cb).sys.crc == s.crc
  {
  }

  lemma {:induction false} OpenCrc(s: Sys, dmxId: nat, pid: nat, mask: seq<Byte>, value: seq<Byte>, len: nat, cb: nat, enOk: bool)
    requires SlotsOk(s) && CrcOk(s) && len <= |mask| && len <= |value| && len <= MAX_MV_LEN
    ensures
      var o := OpenSlot(s, dmxId, pid, mask, value, len, cb, enOk);
      o.Done? ==> CrcOk(o.sys) && o.sys.crc == s.crc
  {
    OpenEffect(s.dmx, dmxId, s.crc, pid, mask, value, len, enOk);
    hide OpenStream, AllocChannel, Wf;
    var (a, ch) := OpenStream(s.dmx, dmxId, s.crc, pid, mask, value, len, enOk);
    if ch != NO_ID { NewChannelOk(s, a.dmx, ch); }
    hide SlotsOk;
  }

  lemma {:induction false} JoinCrc(s: Sys, i: nat, mask: seq<Byte>, value: seq<Byte>, len: nat, cb: nat, disOk: bool, enOk: bool)
    requires SlotsOk(s) && CrcOk(s) && i < |s.slots| && InUse(s.slots[i]) && len <= |mask| && len <= |value| && len <= MAX_MV_LEN
    requires StreamFull(s, i) || (disOk && enOk)
    ensures
      var o := JoinSlot(s, i, mask, value, len, cb, disOk, enOk);
      o.Done? ==> CrcOk(o.sys) && o.sys.crc == s.crc
  {
    JoinEffect(s, i, mask, value, len, disOk, enOk);
    hide JoinStream, SlotsOk;
  }

  ghost predicate IsRun(ss: seq<Sys>, ops: seq<SlotOp>) {
    |ss| == |ops| + 1 && forall k :: 0 <= k < |ops| ==> Allowed(ss[k], ops[k]) && ss[k+1] == Apply(ss[k], ops[k])
  }

  /** Slot reference counting over every run from the initialised table: in-use slots share channels and
      filters exactly as they should, channels without slots are silent, and if every call is tidy there
      are none. */
  lemma {:induction false} RunKeepsProtocol(ss: seq<Sys>, ops: seq<SlotOp>, k: nat)
    requires IsRun(ss, ops) && k < |ss|
    requires Wf(ss[0].dmx) && ss[0].dmx.initOk && ss[0].inited && |ss[0].slots| == MAX_SLOT_NUM
    requires forall i :: 0 <= i < |ss[0].slots| ==> ss[0].slots[i] == ResetSlot(NoCallbacks())
    requires forall ch :: 0 <= ch < |ss[0].dmx.channels| ==> !ss[0].dmx.channels[ch].isAllocated
    ensures SlotsOk(ss[k]) && Guarded(ss[k]) && CrcOk(ss[k]) && ss[k].crc == ss[0].crc
    ensures (forall j :: 0 <= j < k ==> Tidy(ss[j], ops[j])) ==> NoLeak(ss[k])
  {
    hide Tidy, Apply, Allowed;
    if k == 0 {
      InitialSlots(ss[0]);
      InitialGuarded(ss[0]);
    } else {
      RunKeepsProtocol(ss, ops, k - 1);
      assert ss[k] == Apply(ss[k-1], ops[k-1]);
      ApplyKeeps(ss[k-1], ops[k-1]);
      ApplyCrc(ss[k-1], ops[k-1]);
    }
  }
}
