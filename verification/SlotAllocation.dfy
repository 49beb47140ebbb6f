/** adv_dmx_slot_alloc keeps the protocol exactly under a condition the caller can name. */
module SlotAllocation {
  import opened Bytes
  import opened DmxState
  import opened DmxInvariant
  import opened DmxBehaviour
  import opened SlotState
  import opened SlotInvariant

  /** The key that empty slots carry: it makes slot_alloc mistake an empty slot for a stream. */
  predicate EmptyKey(dmxId: nat, pid: nat) {
    dmxId == NO_ID && pid == INVALID_PID
  }

  predicate StreamFull(s: Sys, stream: nat) {
    stream < |s.slots| && s.slots[stream].chId < |s.dmx.channels|
    && |s.dmx.channels[s.slots[stream].chId].flts| == MAX_MASK_NUM
  }

  /** When slot_alloc keeps the protocol: a new filter on a shared channel needs the hardware to close
      and reopen; a full channel must at least be reopened once closed; the key of the empty slots must
      not come with length 0 and a callback while an empty slot is left. */
  predicate AllocSafe(s: Sys, dmxId: nat, pid: nat, mask: seq<Byte>, value: seq<Byte>, len: nat, cb: nat,
                      disOk: bool, enOk: bool)
    requires len <= |mask| && len <= |value|
  {
    var same := FindSame(s.slots, dmxId, pid, mask, value, len);
    var stream := FindStream(s.slots, dmxId, pid);
    if same < |s.slots| then EmptyKey(dmxId, pid) ==> cb == 0
    else if stream == |s.slots| || EmptyKey(dmxId, pid) then true
    else if StreamFull(s, stream) then disOk ==> enOk
    else disOk && enOk
  }

  lemma {:induction false} StreamInUse(s: Sys, i: nat, dmxId: nat, pid: nat)
    requires SlotsOk(s) && i < |s.slots| && SameStream(s.slots[i], dmxId, pid)
    ensures InUse(s.slots[i]) <==> !EmptyKey(dmxId, pid)
    ensures InUse(s.slots[i]) ==> s.slots[i].chId < |s.dmx.channels|
  {
    assert SlotOk(s.slots[i], i, s.dmx);
  }

  /** A callback written into an empty slot breaks the protocol. */
  lemma {:induction false} StrayCallback(s: Sys, i: nat, cb: nat)
    requires SlotsOk(s) && i < |s.slots| && !InUse(s.slots[i])
    ensures AddCallback(s, i, cb).Done?
    ensures SlotsOk(AddCallback(s, i, cb).sys) <==> cb == 0
  {
    var t := s.slots[i];
    assert SlotOk(t, i, s.dmx);
    assert t.cbs[0] == 0;
    if cb == 0 {
      assert cb in t.cbs;
    } else {
      assert cb !in t.cbs;
      var s' := AddCallback(s, i, cb).sys;
      assert FindCb(t.cbs, 0) == 0;
      assert s'.slots[i].cbs[0] == cb;
      assert NoCallbacks()[0] == 0;
      assert !SlotOk(s'.slots[i], i, s'.dmx);
    }
  }

  /** The new row of a channel and the new slot agree. */
  lemma {:induction false} RowMatches(t: Slot, mask: seq<Byte>, len: nat)
    requires t == ResetSlot(NoCallbacks()) && len <= |mask| && len <= MAX_MV_LEN
    ensures Padded(mask[..len] + t.mask[len..], len) == Padded(mask, len)
    ensures Padded(mask[..len] + t.value[len..], len) == Padded(mask, len)
  {
    assert (mask[..len] + t.mask[len..])[..len] == mask[..len];
    assert (mask[..len] + t.value[len..])[..len] == mask[..len];
  }

  /** The slot that slot_alloc fills is served by its channel. */
  lemma {:induction false} FilledSlotOk(blank: Slot, v: nat, dmxId: nat, pid: nat, ch: nat, flt: nat,
                     mask: seq<Byte>, value: seq<Byte>, len: nat, cb: nat, d: Dmx)
    requires blank == ResetSlot(NoCallbacks()) && len <= |mask| && len <= |value| && len <= MAX_MV_LEN
    requires dmxId < TOT_DMX_NUM && pid != INVALID_PID && ch < |d.channels|
    requires var c := d.channels[ch];
      && c.isAllocated && c.isEnabled && c.appCb == SLOT_CALLBACK && c.devNum == dmxId && c.pid == pid
      && flt in c.flts && flt in c.maskEn && flt < |c.mask| && flt < |c.value|
      && c.mask[flt] == Padded(mask, len) && c.value[flt] == Padded(value, len)
    ensures SlotOk(FillSlot(blank, v, dmxId, pid, ch, flt, mask, value, len, cb), v, d)
  {
    RowMatches(blank, mask, len);
    RowMatches(blank, value, len);
  }

  /** Opening a channel for a new stream, in every outcome. */
  lemma {:induction false} OpenEffect(d: Dmx, dmxId: nat, crc: nat, pid: nat, mask: seq<Byte>, value: seq<Byte>, len: nat, enOk: bool)
    requires Wf(d) && d.initOk && len <= |mask| && len <= |value| && len <= MAX_MV_LEN
    ensures var (a, ch) := OpenStream(d, dmxId, crc, pid, mask, value, len, enOk);
      && ch == AllocChannel(d, dmxId, crc, SLOT_CALLBACK).1
      && Wf(a.dmx) && a.dmx.initOk && |a.dmx.channels| == |d.channels|
      && a.dmx.nodes == d.nodes && a.dmx.loose == d.loose && a.dmx.devs == d.devs
      && (ch == NO_ID ==> a == Added(d, NO_ID, false))
      && (a.ok <==> ch != NO_ID && pid != INVALID_PID && enOk)
      && (ch != NO_ID ==>
            && ch < |d.channels| && !d.channels[ch].isAllocated && a.dmx.channels[ch].isAllocated
            && a.dmx.channels[ch].secList == d.channels[ch].secList == []
            && (a.dmx.channels[ch].isEnabled ==> a.ok)
            && (pid != INVALID_PID ==> d.free != [] && a.dmx.free == d.free[1..])
            && (forall j :: 0 <= j < |d.channels| && j != ch ==> a.dmx.channels[j] == d.channels[j]))
      && (a.ok ==> dmxId < TOT_DMX_NUM && Opened(a.dmx.channels[ch], a.flt, dmxId, crc, pid, mask, value, len))
  {
    AllocChannelFails(d, dmxId, crc, SLOT_CALLBACK);
    AllocChannelWf(d, dmxId, crc, SLOT_CALLBACK);
    var (d1, ch) := AllocChannel(d, dmxId, crc, SLOT_CALLBACK);
    if ch != NO_ID {
      SetPidWf(d1, ch, pid);
      if pid != INVALID_PID {
        var d2 := SetPid(d1, ch, pid).0;
        assert ChannelOk(d2.channels[ch], ch, d2.nodes);
        AddFilterEffect(d2, ch, true, mask, value, len, enOk);
        hide AddFilter, AllocChannel, SetPid;
      }
    }
  }

  /** A running channel with exactly one filter. */
  ghost predicate Opened(c: Channel, flt: nat, dmxId: nat, crc: nat, pid: nat, mask: seq<Byte>, value: seq<Byte>, len: nat)
    requires len <= |mask| && len <= |value| && len <= MAX_MV_LEN
  {
    && c.isAllocated && c.isEnabled && c.appCb == SLOT_CALLBACK && c.devNum == dmxId && c.crcFlag == crc && c.pid == pid
    && c.flts == {flt} && flt in c.maskEn && flt < |c.mask| && flt < |c.value|
    && c.mask[flt] == Padded(mask, len) && c.value[flt] == Padded(value, len)
  }

  /** First slot of a new stream: the protocol holds in every outcome. */
  lemma {:induction false} OpenStreamOk(s: Sys, dmxId: nat, pid: nat, mask: seq<Byte>, value: seq<Byte>, len: nat, cb: nat, enOk: bool)
    requires SlotsOk(s) && len <= |mask| && len <= |value| && len <= MAX_MV_LEN
    requires FindStream(s.slots, dmxId, pid) == |s.slots|
    ensures
      var o := OpenSlot(s, dmxId, pid, mask, value, len, cb, enOk);
      o.Done? ==> SlotsOk(o.sys)
  {
    OpenEffect(s.dmx, dmxId, s.crc, pid, mask, value, len, enOk);
    hide OpenStream, AllocChannel, Wf, SlotOk;
    var (a, ch) := OpenStream(s.dmx, dmxId, s.crc, pid, mask, value, len, enOk);
    if ch != NO_ID {
      NewChannelOk(s, a.dmx, ch);
      var v := FindEmpty(s.slots);
      if a.ok && v < |s.slots| {
        assert SlotOk(s.slots[v], v, s.dmx);
        FilledSlotOk(s.slots[v], v, dmxId, pid, ch, a.flt, mask, value, len, cb, a.dmx);
        FirstSlotOk(s, v, FillSlot(s.slots[v], v, dmxId, pid, ch, a.flt, mask, value, len, cb), a.dmx);
      }
    }
  }

  /** A channel that no slot owns may change freely. */
  lemma {:induction false} NewChannelOk(s: Sys, d: Dmx, ch: nat)
    requires SlotsOk(s) && Wf(d) && d.initOk && |d.channels| == |s.dmx.channels| && ch < |d.channels|
    requires !s.dmx.channels[ch].isAllocated
    requires forall j :: 0 <= j < |d.channels| && j != ch ==> d.channels[j] == s.dmx.channels[j]
    ensures SlotsOk(s.(dmx := d))
    ensures forall j :: 0 <= j < |s.slots| ==> InUse(s.slots[j]) ==> s.slots[j].chId != ch
  {
    forall j | 0 <= j < |s.slots|
      ensures SlotOk(s.slots[j], j, d)
      ensures InUse(s.slots[j]) ==> s.slots[j].chId != ch
    {
      assert SlotOk(s.slots[j], j, s.dmx);
    }
    forall k | 0 <= k < |d.channels|
      ensures Covered(s.slots, k, d.channels[k])
    {
      assert Covered(s.slots, k, s.dmx.channels[k]);
    }
  }

  lemma {:induction false} FirstSlotOk(s: Sys, v: nat, t: Slot, d: Dmx)
    requires SlotsOk(s) && SlotsOk(s.(dmx := d)) && v < |s.slots| && !InUse(s.slots[v]) && InUse(t) && SlotOk(t, v, d)
    requires |d.channels| == |s.dmx.channels| && d.channels[t.chId].flts == {t.fltId}
    requires forall j :: 0 <= j < |d.channels| && j != t.chId ==> d.channels[j] == s.dmx.channels[j]
    requires forall j :: 0 <= j < |s.slots| && InUse(s.slots[j]) ==>
      s.slots[j].chId != t.chId && !SameStream(s.slots[j], t.dmxId, t.pid)
    ensures SlotsOk(s.(slots := s.slots[v := t], dmx := d))
  {
    forall j | 0 <= j < |s.slots|
      ensures SlotOk(s.slots[j], j, d) && PairOk(t, s.slots[j])
    {
    }
    SlotAdded(s, v, t, d);
  }

  /** Closing the channel of a slot, adding a filter, and opening it again. */
  lemma {:induction false} JoinEffect(s: Sys, i: nat, mask: seq<Byte>, value: seq<Byte>, len: nat, disOk: bool, enOk: bool)
    requires SlotsOk(s) && i < |s.slots| && InUse(s.slots[i]) && len <= |mask| && len <= |value| && len <= MAX_MV_LEN
    ensures s.slots[i].chId < |s.dmx.channels|
    ensures var ch := s.slots[i].chId;
      var c := s.dmx.channels[ch];
      var a := JoinStream(s.dmx, ch, mask, value, len, disOk, enOk);
      && Wf(a.dmx) && a.dmx.initOk && |a.dmx.channels| == |s.dmx.channels|
      && a.dmx.nodes == s.dmx.nodes && a.dmx.loose == s.dmx.loose && a.dmx.free == s.dmx.free
      && a.dmx.channels[ch].secList == c.secList
      && (forall j :: 0 <= j < |a.dmx.channels| && j != ch ==> a.dmx.channels[j] == s.dmx.channels[j])
      && (a.ok <==> |c.flts| != MAX_MASK_NUM && disOk && enOk)
      && (a.dmx.channels[ch].isEnabled <==> !disOk || enOk)
      && (|c.flts| == MAX_MASK_NUM ==> a.dmx.channels[ch] == c.(isEnabled := !disOk || enOk))
      && (|c.flts| != MAX_MASK_NUM ==> a.flt !in c.flts && a.flt in a.dmx.channels[ch].flts)
      && (a.ok ==> FilterJoined(c, a.dmx.channels[ch], a.flt, mask, value, len))
  {
    assert SlotOk(s.slots[i], i, s.dmx);
    var ch := s.slots[i].chId;
    assert ChannelOk(s.dmx.channels[ch], ch, s.dmx.nodes);
    EnDisWf(s.dmx, ch, disOk);
    AddFilterEffect(DisChannel(s.dmx, ch, disOk).0, ch, false, mask, value, len, enOk);
  }

  /** Another filter for a stream that has a channel: the protocol survives exactly when the hardware
      cooperates. */
  lemma {:induction false} JoinStreamOk(s: Sys, i: nat, mask: seq<Byte>, value: seq<Byte>, len: nat, cb: nat, disOk: bool, enOk: bool)
    requires SlotsOk(s) && i < |s.slots| && InUse(s.slots[i]) && len <= |mask| && len <= |value| && len <= MAX_MV_LEN
    requires FindSame(s.slots, s.slots[i].dmxId, s.slots[i].pid, mask, value, len) == |s.slots|
    ensures
      var o := JoinSlot(s, i, mask, value, len, cb, disOk, enOk);
      o.Done? ==> (SlotsOk(o.sys) <==> if StreamFull(s, i) then disOk ==> enOk else disOk && enOk)
  {
    JoinEffect(s, i, mask, value, len, disOk, enOk);
    hide JoinStream;
    var ch := s.slots[i].chId;
    var a := JoinStream(s.dmx, ch, mask, value, len, disOk, enOk);
    assert Owns(s.slots[i], ch);
    if a.ok {
      FinishJoinedOk(s, i, a, mask, value, len, cb);
    } else if disOk && !enOk {
      ChannelDown(s, i, a.dmx);
    } else if StreamFull(s, i) {
      assert SlotOk(s.slots[i], i, s.dmx);
      SameChannelsOk(s, a.dmx);
    } else {
      OrphanFilter(s, ch, a.flt, a.dmx);
    }
  }

  /** A disabled channel under a slot breaks the protocol. */
  lemma {:induction false} ChannelDown(s: Sys, i: nat, d: Dmx)
    requires SlotsOk(s) && i < |s.slots| && InUse(s.slots[i])
    requires s.slots[i].chId < |d.channels| && !d.channels[s.slots[i].chId].isEnabled
    ensures !SlotsOk(s.(dmx := d))
  {
    assert !SlotOk(s.slots[i], i, d);
  }

  /** Channel c with one more live filter, enabled. */
  ghost predicate FilterJoined(c: Channel, c': Channel, flt: nat, mask: seq<Byte>, value: seq<Byte>, len: nat)
    requires len <= |mask| && len <= |value| && len <= MAX_MV_LEN
  {
    && flt < MAX_MASK_NUM && flt !in c.flts && flt < |c.mask| && flt < |c.value|
    && c' == c.(flts := c.flts + {flt}, maskEn := c.maskEn + {flt}, mask := c.mask[flt := Padded(mask, len)],
                value := c.value[flt := Padded(value, len)], isEnabled := true)
  }

  lemma {:induction false} FinishJoinedOk(s: Sys, i: nat, a: Added, mask: seq<Byte>, value: seq<Byte>, len: nat, cb: nat)
    requires SlotsOk(s) && i < |s.slots| && InUse(s.slots[i]) && len <= |mask| && len <= |value| && len <= MAX_MV_LEN
    requires FindSame(s.slots, s.slots[i].dmxId, s.slots[i].pid, mask, value, len) == |s.slots|
    requires Wf(a.dmx) && a.dmx.initOk && |a.dmx.channels| == |s.dmx.channels| && a.ok
    requires s.slots[i].chId < |a.dmx.channels|
    requires FilterJoined(s.dmx.channels[s.slots[i].chId], a.dmx.channels[s.slots[i].chId], a.flt, mask, value, len)
    requires forall j :: 0 <= j < |a.dmx.channels| && j != s.slots[i].chId ==> a.dmx.channels[j] == s.dmx.channels[j]
    ensures
      var o := Finish(s, a, s.slots[i].dmxId, s.slots[i].pid, s.slots[i].chId, mask, value, len, cb);
      o.Done? ==> SlotsOk(o.sys)
  {
    var u := s.slots[i];
    assert SlotOk(u, i, s.dmx);
    var v := FindEmpty(s.slots);
    if v < |s.slots| {
      assert SlotOk(s.slots[v], v, s.dmx);
      var t := FillSlot(s.slots[v], v, u.dmxId, u.pid, u.chId, a.flt, mask, value, len, cb);
      FilledSlotOk(s.slots[v], v, u.dmxId, u.pid, u.chId, a.flt, mask, value, len, cb, a.dmx);
      forall j | 0 <= j < |s.slots| && InUse(s.slots[j])
        ensures !SameKey(t, s.slots[j])
      {
        assert t.mask[..len] == mask[..len] && t.value[..len] == value[..len];
      }
      NextSlotOk(s, i, v, t, a.dmx);
    }
  }

  lemma {:induction false} SameChannelsOk(s: Sys, d: Dmx)
    requires SlotsOk(s) && Wf(d) && d.initOk && |d.channels| == |s.dmx.channels|
    requires forall k :: 0 <= k < |d.channels| ==> d.channels[k] == s.dmx.channels[k]
    ensures SlotsOk(s.(dmx := d))
  {
    forall j | 0 <= j < |s.slots|
      ensures SlotOk(s.slots[j], j, d)
    {
      assert SlotOk(s.slots[j], j, s.dmx);
    }
    forall k | 0 <= k < |d.channels|
      ensures Covered(s.slots, k, d.channels[k])
    {
      assert Covered(s.slots, k, s.dmx.channels[k]);
    }
  }

  /** A filter allocated on a shared channel without a slot breaks the protocol. */
  lemma {:induction false} OrphanFilter(s: Sys, ch: nat, f: nat, d: Dmx)
    requires SlotsOk(s) && ch < |d.channels| == |s.dmx.channels| && SlotOwned(s.slots, ch)
    requires f !in s.dmx.channels[ch].flts && f in d.channels[ch].flts
    ensures !SlotsOk(s.(dmx := d))
  {
    if HasSlot(s.slots, ch, f) {
      FiltersAreSlots(s, ch);
    }
    assert !Covered(s.slots, ch, d.channels[ch]);
  }

  lemma {:induction false} NextSlotOk(s: Sys, i: nat, v: nat, t: Slot, d: Dmx)
    requires SlotsOk(s) && i < |s.slots| && InUse(s.slots[i]) && v < |s.slots| && !InUse(s.slots[v])
    requires InUse(t) && SlotOk(t, v, d) && t.chId == s.slots[i].chId && SameStream(s.slots[i], t.dmxId, t.pid)
    requires Wf(d) && d.initOk && |d.channels| == |s.dmx.channels|
    requires forall j :: 0 <= j < |d.channels| && j != t.chId ==> d.channels[j] == s.dmx.channels[j]
    requires t.fltId < MAX_MASK_NUM && t.chId < |d.channels| && t.fltId !in s.dmx.channels[t.chId].flts
    requires var c, c' := s.dmx.channels[t.chId], d.channels[t.chId];
      t.fltId < |c.mask| && t.fltId < |c.value| &&
      c' == c.(flts := c.flts + {t.fltId}, maskEn := c.maskEn + {t.fltId}, mask := c.mask[t.fltId := c'.mask[t.fltId]],
               value := c.value[t.fltId := c'.value[t.fltId]], isEnabled := c'.isEnabled) && c'.isEnabled
    requires forall j :: 0 <= j < |s.slots| && InUse(s.slots[j]) ==> !SameKey(t, s.slots[j])
    ensures SlotsOk(s.(slots := s.slots[v := t], dmx := d))
  {
    var ch := t.chId;
    forall j | 0 <= j < |s.slots|
      ensures SlotOk(s.slots[j], j, d) && PairOk(t, s.slots[j])
    {
      assert SlotOk(s.slots[j], j, s.dmx);
      if InUse(s.slots[j]) {
        ShareChannelIffStream(s, i, j);
        if s.slots[j].chId == ch {
          assert s.slots[j].fltId != t.fltId;
          assert ServesSlot(d.channels[ch], s.slots[j]);
        }
      }
    }
    assert Owns(s.slots[i], ch);
    FiltersAreSlots(s, ch);
    SlotAdded(s, v, t, d);
  }

  /** Joining the "stream" of an empty slot does nothing at all. */
  lemma {:induction false} NoStream(s: Sys, i: nat, mask: seq<Byte>, value: seq<Byte>, len: nat, cb: nat, disOk: bool, enOk: bool)
    requires SlotsOk(s) && i < |s.slots| && !InUse(s.slots[i]) && len <= |mask| && len <= |value| && len <= MAX_MV_LEN
    ensures JoinSlot(s, i, mask, value, len, cb, disOk, enOk) == Done(s, -1)
  {
    assert SlotOk(s.slots[i], i, s.dmx);
  }

  /** slot_alloc keeps the protocol if and only if the call is safe in the sense above. */
  lemma {:induction false} AllocKeepsProtocol(s: Sys, dmxId: nat, pid: nat, mask: seq<Byte>, value: seq<Byte>, len: nat, cb: nat,
                           disOk: bool, enOk: bool)
    requires SlotsOk(s) && len <= |mask| && len <= |value| && len <= MAX_MV_LEN
    ensures
      var o := SlotAlloc(s, dmxId, pid, mask, value, len, cb, disOk, enOk);
      o.Done? ==> (SlotsOk(o.sys) <==> AllocSafe(s, dmxId, pid, mask, value, len, cb, disOk, enOk))
  {
    hide OpenSlot, JoinSlot, AddCallback;
    var same := FindSame(s.slots, dmxId, pid, mask, value, len);
    var stream := FindStream(s.slots, dmxId, pid);
    if same < |s.slots| {
      StreamInUse(s, same, dmxId, pid);
      if EmptyKey(dmxId, pid) {
        StrayCallback(s, same, cb);
      } else if AddCallback(s, same, cb).Done? {
        AddCallbackOk(s, same, cb);
      }
    } else if stream == |s.slots| {
      OpenStreamOk(s, dmxId, pid, mask, value, len, cb, enOk);
    } else if EmptyKey(dmxId, pid) {
      StreamInUse(s, stream, dmxId, pid);
      NoStream(s, stream, mask, value, len, cb, disOk, enOk);
    } else {
      StreamInUse(s, stream, dmxId, pid);
      JoinStreamOk(s, stream, mask, value, len, cb, disOk, enOk);
    }
  }
}
