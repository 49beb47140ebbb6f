/** The slot layer over whole runs: what slot_alloc registers and leaks, what slot_free takes down, and
    whom slot_callback reaches. */
module SlotProtocol {
  import opened Bytes
  import opened DmxState
  import opened SlotState
  import opened SlotInvariant
  import opened SlotAllocation

  // ----- what slot_alloc does -----

  predicate TableFull(s: Sys) {
    forall t :: t in s.slots ==> InUse(t)
  }

  /** Channel and filter are obtained from the layer below. */
  predicate FilterObtained(s: Sys, dmxId: nat, pid: nat, disOk: bool, enOk: bool) {
    var stream := FindStream(s.slots, dmxId, pid);
    if stream == |s.slots|
    then AllocChannel(s.dmx, dmxId, s.crc, SLOT_CALLBACK).1 != NO_ID && pid != INVALID_PID && enOk
    else !EmptyKey(dmxId, pid) && !StreamFull(s, stream) && disOk && enOk
  }

  /** The first len bytes, and zeros behind them. */
  function Row(bytes: seq<Byte>, len: nat): (r: seq<Byte>)
    requires len <= |bytes|
  {
    seq(MAX_MV_LEN, b requires 0 <= b => if b < len then bytes[b] else 0)
  }

  /** A callback that is new stands in the first free position, and no other position changed. */
  ghost predicate Placed(cbs: seq<nat>, cbs': seq<nat>, cb: nat) {
    if cb in cbs then cbs' == cbs
    else exists k :: 0 <= k < |cbs| && cbs[k] == 0 && (forall j :: 0 <= j < k ==> cbs[j] != 0) && cbs' == cbs[k := cb]
  }

  /** A call fills no more than one slot. */
  ghost predicate Registered(s: Sys, s': Sys, i: nat, dmxId: nat, pid: nat, mask: seq<Byte>, value: seq<Byte>, len: nat, cb: nat)
    requires len <= |mask| && len <= |value|
  {
    && i < |s.slots| == |s'.slots|
    && InUse(s'.slots[i]) && SameStream(s'.slots[i], dmxId, pid) && SameMask(s'.slots[i], mask, value, len)
    && (cb != 0 ==> cb in s'.slots[i].cbs)
    && (forall x :: x in s'.slots[i].cbs && x != 0 ==> x == cb || (InUse(s.slots[i]) && x in s.slots[i].cbs))
    && (InUse(s.slots[i]) ==> forall x :: x in s.slots[i].cbs && x != 0 ==> x in s'.slots[i].cbs)
    && (!InUse(s.slots[i]) ==> s'.slots[i].cbs == NoCallbacks()[0 := cb])
    && (!InUse(s.slots[i]) ==> s'.slots[i].mask == Row(mask, len) && s'.slots[i].value == Row(value, len))
    && (InUse(s.slots[i]) ==> s'.slots[i] == s.slots[i].(cbs := s'.slots[i].cbs) && Placed(s.slots[i].cbs, s'.slots[i].cbs, cb))
    && (forall j :: 0 <= j < |s.slots| && j != i ==> s'.slots[j] == s.slots[j])
  }

  lemma {:induction false} EmptyIsUnused(s: Sys)
    requires SlotsOk(s)
    ensures forall t :: t in s.slots ==> (SlotEmpty(t) <==> !InUse(t))
    ensures TableFull(s) <==> FindEmpty(s.slots) == |s.slots|
  {
    forall i | 0 <= i < |s.slots|
      ensures SlotEmpty(s.slots[i]) <==> !InUse(s.slots[i])
    {
      assert SlotOk(s.slots[i], i, s.dmx);
    }
  }

  /** When the filter is obtained, and what is written then. */
  lemma {:induction false} ObtainedExactly(s: Sys, dmxId: nat, pid: nat, mask: seq<Byte>, value: seq<Byte>, len: nat, cb: nat,
                        disOk: bool, enOk: bool)
    requires SlotsOk(s) && len <= |mask| && len <= |value| && len <= MAX_MV_LEN
    requires FindSame(s.slots, dmxId, pid, mask, value, len) == |s.slots|
    ensures
      var o := SlotAlloc(s, dmxId, pid, mask, value, len, cb, disOk, enOk);
      var v := FindEmpty(s.slots);
      if !FilterObtained(s, dmxId, pid, disOk, enOk) then o.Done? && o.ret == -1 && o.sys.slots == s.slots
      else if v == |s.slots| then o.OutOfBounds?
      else o.Done? && o.ret == v && exists ch, flt ::
        o.sys.slots == s.slots[v := FillSlot(s.slots[v], v, dmxId, pid, ch, flt, mask, value, len, cb)]
  {
    var stream := FindStream(s.slots, dmxId, pid);
    hide OpenStream, JoinStream, AllocChannel, Finish;
    if stream == |s.slots| {
      OpenEffect(s.dmx, dmxId, s.crc, pid, mask, value, len, enOk);
      var (a, ch) := OpenStream(s.dmx, dmxId, s.crc, pid, mask, value, len, enOk);
      FinishShape(s, a, dmxId, pid, ch, mask, value, len, cb);
    } else {
      StreamInUse(s, stream, dmxId, pid);
      if EmptyKey(dmxId, pid) {
        NoStream(s, stream, mask, value, len, cb, disOk, enOk);
      } else {
        JoinEffect(s, stream, mask, value, len, disOk, enOk);
        var ch := s.slots[stream].chId;
        FinishShape(s, JoinStream(s.dmx, ch, mask, value, len, disOk, enOk), dmxId, pid, ch, mask, value, len, cb);
      }
    }
  }

  lemma {:induction false} FinishShape(s: Sys, a: Added, dmxId: nat, pid: nat, ch: nat,
                    mask: seq<Byte>, value: seq<Byte>, len: nat, cb: nat)
    requires Shaped(s.slots) && len <= MAX_MV_LEN && len <= |mask| && len <= |value|
    ensures
      var o := Finish(s, a, dmxId, pid, ch, mask, value, len, cb);
      var v := FindEmpty(s.slots);
      if !a.ok then o == Done(s.(dmx := a.dmx), -1)
      else if v == |s.slots| then o.OutOfBounds?
      else o.Done? && o.ret == v
           && o.sys.slots == s.slots[v := FillSlot(s.slots[v], v, dmxId, pid, ch, a.flt, mask, value, len, cb)]
  {
  }

  /** The write outside the table or the callback array happens exactly in two situations: the slot
      found has all eight positions taken by other callbacks, or a filter was obtained and no slot is
      left for it. */
  lemma {:induction false} AllocOutOfBounds(s: Sys, dmxId: nat, pid: nat, mask: seq<Byte>, value: seq<Byte>, len: nat, cb: nat,
                         disOk: bool, enOk: bool)
    requires SlotsOk(s) && len <= |mask| && len <= |value| && len <= MAX_MV_LEN
    ensures
      var same := FindSame(s.slots, dmxId, pid, mask, value, len);
      SlotAlloc(s, dmxId, pid, mask, value, len, cb, disOk, enOk).OutOfBounds? <==>
        if same < |s.slots| then cb !in s.slots[same].cbs && 0 !in s.slots[same].cbs
        else TableFull(s) && FilterObtained(s, dmxId, pid, disOk, enOk)
  {
    EmptyIsUnused(s);
    if FindSame(s.slots, dmxId, pid, mask, value, len) == |s.slots| {
      ObtainedExactly(s, dmxId, pid, mask, value, len, cb, disOk, enOk);
      hide SlotAlloc;
    }
    hide OpenSlot, JoinSlot;
  }

  /** The call mistakes an empty slot for a registered one and writes a callback into it. */
  predicate Strays(s: Sys, dmxId: nat, pid: nat, mask: seq<Byte>, value: seq<Byte>, len: nat, cb: nat)
    requires len <= |mask| && len <= |value|
  {
    EmptyKey(dmxId, pid) && cb != 0 && FindSame(s.slots, dmxId, pid, mask, value, len) < |s.slots|
  }

  /** A returned slot id names a slot of this stream, mask, value and length that now has this callback
      besides those it had; no other slot changes. A failed call changes no slot, except that with the
      key of the empty slots it can leave a stray callback. */
  lemma {:induction false} AllocRegisters(s: Sys, dmxId: nat, pid: nat, mask: seq<Byte>, value: seq<Byte>, len: nat, cb: nat,
                       disOk: bool, enOk: bool)
    requires SlotsOk(s) && len <= |mask| && len <= |value| && len <= MAX_MV_LEN
    ensures
      var o := SlotAlloc(s, dmxId, pid, mask, value, len, cb, disOk, enOk);
      o.Done? ==> if o.ret == -1 then (o.sys.slots == s.slots <==> !Strays(s, dmxId, pid, mask, value, len, cb))
                  else 0 <= o.ret && Registered(s, o.sys, o.ret, dmxId, pid, mask, value, len, cb)
  {
    var same := FindSame(s.slots, dmxId, pid, mask, value, len);
    var o := SlotAlloc(s, dmxId, pid, mask, value, len, cb, disOk, enOk);
    hide OpenSlot, JoinSlot, AddCallback;
    if same < |s.slots| {
      StreamInUse(s, same, dmxId, pid);
      if EmptyKey(dmxId, pid) {
        StrayChanges(s, same, cb);
      } else if o.Done? {
        CallbackRegisters(s, same, dmxId, pid, mask, value, len, cb);
      }
    } else {
      ObtainedExactly(s, dmxId, pid, mask, value, len, cb, disOk, enOk);
      EmptyIsUnused(s);
      hide SlotAlloc;
      if o.Done? && o.ret != -1 {
        var v := FindEmpty(s.slots);
        var ch, flt :| o.sys.slots == s.slots[v := FillSlot(s.slots[v], v, dmxId, pid, ch, flt, mask, value, len, cb)];
        FillRegisters(s, o.sys, v, dmxId, pid, ch, flt, mask, value, len, cb);
      }
    }
  }

  lemma {:induction false} StrayChanges(s: Sys, i: nat, cb: nat)
    requires SlotsOk(s) && i < |s.slots| && !InUse(s.slots[i]) && AddCallback(s, i, cb).Done?
    ensures AddCallback(s, i, cb).ret == -1
    ensures AddCallback(s, i, cb).sys.slots == s.slots <==> cb == 0
  {
    var t, t' := s.slots[i], AddCallback(s, i, cb).sys.slots[i];
    assert SlotOk(t, i, s.dmx);
    assert t.cbs == NoCallbacks() && t.cbs[0] == 0;
    if cb != 0 {
      assert FindCb(t.cbs, 0) == 0;
      assert t'.cbs[0] == cb;
    }
  }

  lemma {:induction false} FillRegisters(s: Sys, s': Sys, v: nat, dmxId: nat, pid: nat, ch: nat, flt: nat,
                      mask: seq<Byte>, value: seq<Byte>, len: nat, cb: nat)
    requires SlotsOk(s) && v < |s.slots| && !InUse(s.slots[v]) && len <= |mask| && len <= |value| && len <= MAX_MV_LEN
    requires SlotOk(s.slots[v], v, s.dmx)
    requires s'.slots == s.slots[v := FillSlot(s.slots[v], v, dmxId, pid, ch, flt, mask, value, len, cb)]
    ensures Registered(s, s', v, dmxId, pid, mask, value, len, cb)
  {
    var t := s'.slots[v];
    assert t.cbs[0] == cb;
    assert t.mask[..len] == mask[..len] && t.value[..len] == value[..len];
    assert t.mask == Row(mask, len) && t.value == Row(value, len);
  }

  lemma {:induction false} CallbackRegisters(s: Sys, i: nat, dmxId: nat, pid: nat, mask: seq<Byte>, value: seq<Byte>, len: nat, cb: nat)
    requires SlotsOk(s) && i < |s.slots| && InUse(s.slots[i]) && len <= |mask| && len <= |value|
    requires SameStream(s.slots[i], dmxId, pid) && SameMask(s.slots[i], mask, value, len) && AddCallback(s, i, cb).Done?
    ensures AddCallback(s, i, cb).ret == i
    ensures Registered(s, AddCallback(s, i, cb).sys, i, dmxId, pid, mask, value, len, cb)
  {
    assert SlotOk(s.slots[i], i, s.dmx);
    var old_, k := s.slots[i].cbs, FindCb(s.slots[i].cbs, 0);
    if cb !in old_ {
      var cbs := old_[k := cb];
      assert AddCallback(s, i, cb).sys.slots[i].cbs == cbs && cbs[k] == cb;
      forall x | x in old_ && x != 0
        ensures x in cbs
      {
        var j :| 0 <= j < |old_| && old_[j] == x;
        assert cbs[j] == x;
      }
    }
  }

  /** Every allocated channel belongs to a slot. */
  ghost predicate NoLeak(s: Sys) {
    forall ch :: 0 <= ch < |s.dmx.channels| && s.dmx.channels[ch].isAllocated ==> SlotOwned(s.slots, ch)
  }

  /** slot_alloc leaks a channel exactly when it opened one and then met the invalid pid or hardware
      that would not start. */
  lemma {:induction false} AllocLeaksExactly(s: Sys, dmxId: nat, pid: nat, mask: seq<Byte>, value: seq<Byte>, len: nat, cb: nat,
                          disOk: bool, enOk: bool)
    requires SlotsOk(s) && NoLeak(s) && len <= |mask| && len <= |value| && len <= MAX_MV_LEN
    ensures
      var o := SlotAlloc(s, dmxId, pid, mask, value, len, cb, disOk, enOk);
      o.Done? ==> (NoLeak(o.sys) <==>
        !(FindStream(s.slots, dmxId, pid) == |s.slots|
          && AllocChannel(s.dmx, dmxId, s.crc, SLOT_CALLBACK).1 != NO_ID
          && (pid == INVALID_PID || !enOk)))
  {
    var same := FindSame(s.slots, dmxId, pid, mask, value, len);
    var stream := FindStream(s.slots, dmxId, pid);
    hide OpenSlot, JoinSlot, AllocChannel, AddCallback;
    if same < |s.slots| {
      if AddCallback(s, same, cb).Done? { CallbackLeaksNothing(s, same, cb); }
    } else if stream == |s.slots| {
      OpenLeaks(s, dmxId, pid, mask, value, len, cb, enOk);
    } else {
      JoinLeaksNothing(s, stream, mask, value, len, cb, disOk, enOk);
    }
  }

  lemma {:induction false} OwnersKept(a: seq<Slot>, b: seq<Slot>)
    requires |a| == |b| && forall i :: 0 <= i < |a| && InUse(a[i]) ==> b[i] == a[i]
    ensures forall ch: nat :: SlotOwned(a, ch) ==> SlotOwned(b, ch)
  {
    forall ch: nat | SlotOwned(a, ch)
      ensures SlotOwned(b, ch)
    {
      var i :| 0 <= i < |a| && Owns(a[i], ch);
      assert Owns(b[i], ch);
    }
  }

  lemma {:induction false} CallbackLeaksNothing(s: Sys, i: nat, cb: nat)
    requires SlotsOk(s) && NoLeak(s) && i < |s.slots| && AddCallback(s, i, cb).Done?
    ensures NoLeak(AddCallback(s, i, cb).sys)
  {
    var s' := AddCallback(s, i, cb).sys;
    forall ch | 0 <= ch < |s.dmx.channels| && s.dmx.channels[ch].isAllocated
      ensures SlotOwned(s'.slots, ch)
    {
      SameOwners(s.slots, s'.slots, ch);
    }
  }

  /** Filling an empty slot keeps all owners; the new slot owns its channel. */
  lemma {:induction false} FinishOwners(s: Sys, a: Added, dmxId: nat, pid: nat, ch: nat,
                    mask: seq<Byte>, value: seq<Byte>, len: nat, cb: nat)
    requires SlotsOk(s) && len <= |mask| && len <= |value| && len <= MAX_MV_LEN
    ensures
      var o := Finish(s, a, dmxId, pid, ch, mask, value, len, cb);
      o.Done? ==> && o.sys.dmx == a.dmx
                  && (!a.ok ==> o.sys.slots == s.slots)
                  && (a.ok ==> SlotOwned(o.sys.slots, ch))
                  && forall c: nat :: SlotOwned(s.slots, c) ==> SlotOwned(o.sys.slots, c)
  {
    EmptyIsUnused(s);
    var o := Finish(s, a, dmxId, pid, ch, mask, value, len, cb);
    if o.Done? {
      OwnersKept(s.slots, o.sys.slots);
      if a.ok {
        assert Owns(o.sys.slots[o.ret], ch);
      }
    }
  }

  lemma {:induction false} OpenLeaks(s: Sys, dmxId: nat, pid: nat, mask: seq<Byte>, value: seq<Byte>, len: nat, cb: nat, enOk: bool)
    requires SlotsOk(s) && NoLeak(s) && len <= |mask| && len <= |value| && len <= MAX_MV_LEN
    ensures
      var o := OpenSlot(s, dmxId, pid, mask, value, len, cb, enOk);
      o.Done? ==> (NoLeak(o.sys) <==>
        AllocChannel(s.dmx, dmxId, s.crc, SLOT_CALLBACK).1 == NO_ID || (pid != INVALID_PID && enOk))
  {
    OpenEffect(s.dmx, dmxId, s.crc, pid, mask, value, len, enOk);
    hide OpenStream, AllocChannel;
    var (a, ch) := OpenStream(s.dmx, dmxId, s.crc, pid, mask, value, len, enOk);
    FinishOwners(s, a, dmxId, pid, ch, mask, value, len, cb);
    if ch != NO_ID {
      NewChannelOk(s, a.dmx, ch);
      assert !SlotOwned(s.slots, ch);
    }
    hide Finish;
  }

  lemma {:induction false} JoinLeaksNothing(s: Sys, i: nat, mask: seq<Byte>, value: seq<Byte>, len: nat, cb: nat, disOk: bool, enOk: bool)
    requires SlotsOk(s) && NoLeak(s) && i < |s.slots| && len <= |mask| && len <= |value| && len <= MAX_MV_LEN
    ensures
      var o := JoinSlot(s, i, mask, value, len, cb, disOk, enOk);
      o.Done? ==> NoLeak(o.sys)
  {
    if InUse(s.slots[i]) {
      var ch := s.slots[i].chId;
      JoinEffect(s, i, mask, value, len, disOk, enOk);
      assert Owns(s.slots[i], ch);
      hide JoinStream, Finish;
      var a := JoinStream(s.dmx, ch, mask, value, len, disOk, enOk);
      FinishOwners(s, a, s.slots[i].dmxId, s.slots[i].pid, ch, mask, value, len, cb);
    } else {
      NoStream(s, i, mask, value, len, cb, disOk, enOk);
    }
  }
}
