/** dmx_adv_slot.c as it runs: the static slot table is an array updated in place, on top of an AdvDmx
    object. Each method is proved to compute the transition of the same name in SlotState. */
module SlotTable {
  import opened Bytes
  import opened DmxState
  import opened SlotState
  import opened SlotInvariant
  import opened SlotProtocol
  import opened SlotRuns
  import AdvDmx

  /** The outcome of slot_alloc or a part of it: a stray write, or this state and return value. */
  predicate Ended(stray: bool, sys: Sys, ret: int, o: Outcome) {
    if stray then o.OutOfBounds? else o == Done(sys, ret)
  }

  class SlotTable {
    var inited: bool
    var crc: nat
    const slots: array<Slot>
    const dmx: AdvDmx.AdvDmx

    ghost function State(): Sys
      reads this, slots, dmx, dmx.nodes, dmx.channels
    {
      Sys(inited, crc, slots[..], dmx.State())
    }

    ghost predicate Valid()
      reads this, slots, dmx, dmx.nodes, dmx.channels
    {
      && dmx.Valid()
      && slots as object != dmx.nodes && slots as object != dmx.channels
      && Shaped(slots[..])
    }

    constructor (dmx: AdvDmx.AdvDmx)
      requires dmx.Valid()
      ensures Valid() && !inited && this.dmx == dmx && fresh(slots)
      ensures forall i :: 0 <= i < slots.Length ==> slots[i] == BlankSlot()
    {
      this.dmx := dmx;
      inited := false;
      crc := 0;
      slots := new Slot[MAX_SLOT_NUM](_ => BlankSlot());
    }

    /** adv_dmx_slot_init; mutexOk says that the mutex could be created. */
    method Init(crcEn: nat, mutexOk: bool)
      requires Valid()
      modifies this, slots
      ensures Valid()
      ensures old(inited) ==> State() == old(State())
      ensures !old(inited) ==> inited == mutexOk && crc == crcEn
      ensures !old(inited) ==> forall i :: 0 <= i < slots.Length ==> slots[i] == ResetSlot(NoCallbacks())
      ensures inited && !old(inited) && dmx.initOk ==> SlotsOk(State())
      ensures inited && !old(inited) && dmx.initOk && (forall i :: 0 <= i < dmx.channels.Length ==> !dmx.channels[i].isAllocated)
              ==> NoLeak(State()) && Guarded(State())
      ensures dmx.State() == old(dmx.State())
    {
      if inited {
        return;
      }
      crc := crcEn;
      for i := 0 to slots.Length
        invariant forall j :: 0 <= j < i ==> slots[j] == ResetSlot(NoCallbacks())
        invariant crc == crcEn && !inited && dmx.Valid() && dmx.State() == old(dmx.State())
      {
        slots[i] := ResetSlot(NoCallbacks());
      }
      inited := mutexOk;
      if inited && dmx.initOk {
        InitialSlots(State());
        InitialGuarded(State());
      }
    }

    /** The inner loop of slot_alloc over the callbacks of slot i. */
    method AddCallback(i: nat, cb: nat) returns (ret: int, stray: bool)
      requires Valid() && i < slots.Length
      modifies slots
      ensures Ended(stray, State(), ret, SlotState.AddCallback(old(State()), i, cb))
      ensures Valid()
    {
      var t := slots[i];
      assert t in slots[..];
      var cbPos := MAX_SLOT_CB_NUM;
      var j := 0;
      while j < MAX_SLOT_CB_NUM && t.cbs[j] != cb
        invariant 0 <= j <= MAX_SLOT_CB_NUM && forall k :: 0 <= k < j ==> t.cbs[k] != cb
        invariant 0 <= cbPos <= MAX_SLOT_CB_NUM && (cbPos < MAX_SLOT_CB_NUM ==> cbPos < j && t.cbs[cbPos] == 0)
        invariant forall k :: 0 <= k < j && k < cbPos ==> t.cbs[k] != 0
      {
        if cbPos == MAX_SLOT_CB_NUM && t.cbs[j] == 0 {
          cbPos := j;
        }
        j := j + 1;
      }
      if j == MAX_SLOT_CB_NUM {
        assert cb !in t.cbs;
        CbUnique(t.cbs, 0, cbPos);
        if cbPos == MAX_SLOT_CB_NUM {
          return -1, true;
        }
        slots[i] := t.(cbs := t.cbs[cbPos := cb]);
        assert slots[..] == old(slots[..])[i := slots[i]];
      }
      ret, stray := slots[i].slotId, false;
    }

    /** adv_dmx_slot_alloc. It stops, with `stray` set, in front of a write outside its tables. disOk and
        enOk are the hardware's answers. */
    method Alloc(dmxId: nat, pid: nat, mask: seq<Byte>, value: seq<Byte>, len: nat, cb: nat, disOk: bool, enOk: bool)
      returns (ret: int, stray: bool)
      requires Valid() && len <= MAX_MV_LEN && len <= |mask| && len <= |value|
      modifies slots, dmx`free, dmx.channels
      ensures Ended(stray, State(), ret, SlotAlloc(old(State()), dmxId, pid, mask, value, len, cb, disOk, enOk))
      ensures Valid()
    {
      if !inited {
        return -1, false;
      }
      var same, stream, valid := Scan(dmxId, pid, mask, value, len);
      hide SlotState.OpenSlot, SlotState.JoinSlot, FindSame, FindStream, FindEmpty;
      if same < MAX_SLOT_NUM {
        ret, stray := AddCallback(same, cb);
      } else if stream == MAX_SLOT_NUM {
        ret, stray := OpenSlot(dmxId, pid, mask, value, len, cb, enOk, valid);
      } else {
        ret, stray := JoinSlot(stream, mask, value, len, cb, disOk, enOk, valid);
      }
    }

    /** The scan of the table by slot_alloc. It stops at a slot with the same stream and mask; the other
        two results then describe only the slots before it and are not used. */
    method Scan(dmxId: nat, pid: nat, mask: seq<Byte>, value: seq<Byte>, len: nat) returns (same: nat, stream: nat, valid: nat)
      requires Valid() && len <= |mask| && len <= |value|
      ensures same == FindSame(slots[..], dmxId, pid, mask, value, len)
      ensures same == MAX_SLOT_NUM ==> stream == FindStream(slots[..], dmxId, pid) && valid == FindEmpty(slots[..])
    {
      var table := slots[..];
      same, stream, valid := MAX_SLOT_NUM, MAX_SLOT_NUM, MAX_SLOT_NUM;
      for i := 0 to MAX_SLOT_NUM
        invariant valid <= MAX_SLOT_NUM && (valid < MAX_SLOT_NUM ==> valid < i && SlotEmpty(table[valid]))
        invariant forall j :: 0 <= j < i && j < valid ==> !SlotEmpty(table[j])
        invariant stream <= MAX_SLOT_NUM && (stream < MAX_SLOT_NUM ==> stream < i && SameStream(table[stream], dmxId, pid))
        invariant forall j :: 0 <= j < i && (stream == MAX_SLOT_NUM || stream < j) ==> !SameStream(table[j], dmxId, pid)
        invariant same == MAX_SLOT_NUM
        invariant forall j :: 0 <= j < i ==> !(SameStream(table[j], dmxId, pid) && SameMask(table[j], mask, value, len))
      {
        if valid == MAX_SLOT_NUM && SlotEmpty(slots[i]) {
          valid := i;
        }
        if SameStream(slots[i], dmxId, pid) {
          stream := i;
          if SameMask(slots[i], mask, value, len) {
            SameUnique(table, dmxId, pid, mask, value, len, i);
            same := i;
            return;
          }
        }
      }
      SameUnique(table, dmxId, pid, mask, value, len, MAX_SLOT_NUM);
      StreamUnique(table, dmxId, pid, stream);
      EmptyUnique(table, valid);
    }

    /** The branch for a new stream. */
    method OpenSlot(dmxId: nat, pid: nat, mask: seq<Byte>, value: seq<Byte>, len: nat, cb: nat, enOk: bool, valid: nat)
      returns (ret: int, stray: bool)
      requires Valid() && len <= MAX_MV_LEN && len <= |mask| && len <= |value| && valid == FindEmpty(slots[..])
      modifies slots, dmx`free, dmx.channels
      ensures Ended(stray, State(), ret, SlotState.OpenSlot(old(State()), dmxId, pid, mask, value, len, cb, enOk))
      ensures Valid()
    {
      ret, stray := -1, false;
      var ch := dmx.AllocChannel(dmxId, crc, SLOT_CALLBACK);
      if ch != NO_ID {
        var ok := dmx.SetPid(ch, pid);
        if ok {
          var flt;
          flt, ok := AddFilter(ch, true, mask, value, len, enOk);
          if ok {
            if valid == MAX_SLOT_NUM {
              return -1, true;
            }
            Fill(valid, dmxId, pid, ch, flt, mask, value, len, cb);
            ret := valid;
          }
        }
      }
    }

    /** The branch for a stream that has a channel. */
    method JoinSlot(i: nat, mask: seq<Byte>, value: seq<Byte>, len: nat, cb: nat, disOk: bool, enOk: bool, valid: nat)
      returns (ret: int, stray: bool)
      requires Valid() && len <= MAX_MV_LEN && len <= |mask| && len <= |value| && valid == FindEmpty(slots[..])
      requires i < slots.Length
      modifies slots, dmx`free, dmx.channels
      ensures Ended(stray, State(), ret, SlotState.JoinSlot(old(State()), i, mask, value, len, cb, disOk, enOk))
      ensures Valid()
    {
      ret, stray := -1, false;
      var t := slots[i];
      var _ := dmx.DisChannel(t.chId, disOk);
      var flt, ok := AddFilter(t.chId, false, mask, value, len, enOk);
      if ok {
        if valid == MAX_SLOT_NUM {
          return -1, true;
        }
        Fill(valid, t.dmxId, t.pid, t.chId, flt, mask, value, len, cb);
        ret := valid;
      }
    }

    method Fill(v: nat, dmxId: nat, pid: nat, ch: nat, flt: nat, mask: seq<Byte>, value: seq<Byte>, len: nat, cb: nat)
      requires Valid() && v < slots.Length && len <= MAX_MV_LEN && len <= |mask| && len <= |value|
      modifies slots
      ensures slots[..] == old(slots[..])[v := FillSlot(old(slots[v]), v, dmxId, pid, ch, flt, mask, value, len, cb)]
      ensures Valid() && dmx.State() == old(dmx.State())
    {
      assert slots[v] in slots[..];
      slots[v] := FillSlot(slots[v], v, dmxId, pid, ch, flt, mask, value, len, cb);
    }

    /** From adv_dmx_alloc_filter to adv_dmx_en_channel. */
    method AddFilter(ch: nat, isNew: bool, mask: seq<Byte>, value: seq<Byte>, len: nat, enOk: bool)
      returns (flt: nat, ok: bool)
      requires Valid() && len <= |mask| && len <= |value|
      modifies dmx`free, dmx.channels
      ensures Added(dmx.State(), flt, ok) == SlotState.AddFilter(old(dmx.State()), ch, isNew, mask, value, len, enOk)
      ensures Valid() && slots[..] == old(slots[..])
    {
      flt := dmx.AllocFilter(ch);
      if flt == NO_ID {
        RollBack(ch, isNew, enOk);
        return flt, false;
      }
      ok := dmx.SetFilter(ch, flt, mask, value, len);
      if !ok {
        RollBack(ch, isNew, enOk);
        return flt, false;
      }
      ok := dmx.EnChannel(ch, enOk);
    }

    method RollBack(ch: nat, isNew: bool, enOk: bool)
      requires Valid()
      modifies dmx`free, dmx.channels
      ensures dmx.State() == SlotState.RollBack(old(dmx.State()), ch, isNew, enOk)
      ensures Valid() && slots[..] == old(slots[..])
    {
      if isNew {
        var _ := dmx.FreeChannel(ch);
      } else {
        var _ := dmx.EnChannel(ch, enOk);
      }
    }

    /** adv_dmx_slot_free */
    method Free(slotId: int, cb: nat, closeOk: bool) returns (ret: int)
      requires Valid()
      modifies slots, dmx`free, dmx.channels
      ensures (State(), ret) == SlotFree(old(State()), slotId, cb, closeOk)
      ensures Valid()
    {
      if !inited {
        return -1;
      }
      ret := -1;
      for i := 0 to MAX_SLOT_NUM
        invariant Valid() && inited
        invariant FreeFrom(State(), i, slotId, cb, closeOk, ret) == FreeFrom(old(State()), 0, slotId, cb, closeOk, -1)
      {
        if slots[i].slotId == slotId {
          var t := slots[i];
          assert t in slots[..];
          var j := FindCallback(t.cbs, cb);
          if j == MAX_SLOT_CB_NUM {
            return -1;
          }
          var cbs := t.cbs[j := 0];
          if !AllNull(cbs) {
            slots[i] := t.(cbs := cbs);
            return 0;
          }
          DropFilter(t.chId, t.fltId, closeOk);
          slots[i] := ResetSlot(cbs);
          ret := 0;
        }
      }
    }

    static method FindCallback(cbs: seq<nat>, cb: nat) returns (j: nat)
      ensures j == FindCb(cbs, cb)
    {
      j := 0;
      while j < |cbs| && cbs[j] != cb
        invariant j <= |cbs| && forall k :: 0 <= k < j ==> cbs[k] != cb
      {
        j := j + 1;
      }
      CbUnique(cbs, cb, j);
    }

    method DropFilter(ch: nat, flt: nat, closeOk: bool)
      requires Valid()
      modifies dmx`free, dmx.channels
      ensures dmx.State() == SlotState.DropFilter(old(dmx.State()), ch, flt, closeOk)
      ensures Valid() && slots[..] == old(slots[..])
    {
      var _ := dmx.FreeFilter(ch, flt);
      var num := dmx.GetFilterNum(ch);
      if num == 0 {
        var _ := dmx.DisChannel(ch, closeOk);
        var _ := dmx.FreeChannel(ch);
      }
    }

    /** adv_dmx_slot_callback: the calls it makes, in order; it always returns success. */
    method Callback(ch: nat, flt: nat, data: seq<Byte>) returns (calls: seq<SlotCall>)
      requires Valid()
      ensures calls == SlotCallback(slots[..], ch, flt, data)
    {
      calls := [];
      var i := 0;
      ghost var table := slots[..];
      assert table[0..] == table;
      while i < slots.Length && !(slots[i].chId == ch && slots[i].fltId == flt)
        invariant i <= slots.Length && SlotCallback(table[i..], ch, flt, data) == SlotCallback(table, ch, flt, data)
      {
        assert table[i..][1..] == table[i+1..] && table[i..][0] == slots[i];
        i := i + 1;
      }
      if i < slots.Length {
        assert table[i..][0] == slots[i];
        calls := CallSlot(slots[i].cbs, slots[i].slotId, data);
      }
    }

    /** The inner loop: every registered callback, in position order. */
    static method CallSlot(cbs: seq<nat>, slotId: int, data: seq<Byte>) returns (calls: seq<SlotCall>)
      ensures calls == CallEach(cbs, slotId, data)
    {
      calls := [];
      assert cbs[0..] == cbs;
      for j := 0 to |cbs|
        invariant calls + CallEach(cbs[j..], slotId, data) == CallEach(cbs, slotId, data)
      {
        assert cbs[j..][1..] == cbs[j+1..];
        if cbs[j] != 0 {
          assert calls + ([SlotCall(cbs[j], slotId, data)] + CallEach(cbs[j+1..], slotId, data))
              == calls + [SlotCall(cbs[j], slotId, data)] + CallEach(cbs[j+1..], slotId, data);
          calls := calls + [SlotCall(cbs[j], slotId, data)];
        } else {
          assert [] + CallEach(cbs[j+1..], slotId, data) == CallEach(cbs[j+1..], slotId, data);
        }
      }
    }

    /** adv_dmx_slot_get_pid */
    method GetPid(slotId: int) returns (pid: nat)
      ensures pid == INVALID_PID || exists i :: 0 <= i < slots.Length && slots[i].slotId == slotId && slots[i].pid == pid
      ensures forall i :: 0 <= i < slots.Length && slots[i].slotId == slotId && (forall j :: 0 <= j < i ==> slots[j].slotId != slotId)
                ==> pid == slots[i].pid
    {
      for i := 0 to slots.Length
        invariant forall j :: 0 <= j < i ==> slots[j].slotId != slotId
      {
        if slots[i].slotId == slotId {
          return slots[i].pid;
        }
      }
      return INVALID_PID;
    }
  }

  lemma {:induction false} SameUnique(slots: seq<Slot>, dmxId: nat, pid: nat, mask: seq<Byte>, value: seq<Byte>, len: nat, i: nat)
    requires len <= |mask| && len <= |value| && i <= |slots|
    requires forall j :: 0 <= j < i ==> !(SameStream(slots[j], dmxId, pid) && SameMask(slots[j], mask, value, len))
    requires i < |slots| ==> SameStream(slots[i], dmxId, pid) && SameMask(slots[i], mask, value, len)
    ensures FindSame(slots, dmxId, pid, mask, value, len) == i
  {
  }

  lemma {:induction false} StreamUnique(slots: seq<Slot>, dmxId: nat, pid: nat, i: nat)
    requires i <= |slots| && (i < |slots| ==> SameStream(slots[i], dmxId, pid))
    requires forall j :: 0 <= j < |slots| && (i == |slots| || i < j) ==> !SameStream(slots[j], dmxId, pid)
    ensures FindStream(slots, dmxId, pid) == i
  {
  }

  lemma {:induction false} EmptyUnique(slots: seq<Slot>, i: nat)
    requires i <= |slots| && (i < |slots| ==> SlotEmpty(slots[i])) && forall j :: 0 <= j < i ==> !SlotEmpty(slots[j])
    ensures FindEmpty(slots) == i
  {
  }

  lemma {:induction false} CbUnique(cbs: seq<nat>, cb: nat, i: nat)
    requires i <= |cbs| && (i < |cbs| ==> cbs[i] == cb) && forall j :: 0 <= j < i ==> cbs[j] != cb
    ensures FindCb(cbs, cb) == i
  {
  }
}
