/** The reference-counting protocol of the slot layer. */
module SlotInvariant {
  import opened Bytes
  import opened Select
  import opened DmxState
  import opened DmxInvariant
  import opened DmxBehaviour
  import opened SlotState

  predicate InUse(t: Slot) { t.slotId != -1 }

  /** An empty slot carries nothing; a slot in use owns a live filter of an enabled channel. */
  ghost predicate SlotOk(t: Slot, i: nat, d: Dmx) {
    if !InUse(t) then t == ResetSlot(NoCallbacks())
    else
      && t.slotId == i && t.dmxId < TOT_DMX_NUM && t.pid != INVALID_PID
      && t.mvLen <= MAX_MV_LEN && |t.mask| == |t.value| == MAX_MV_LEN && |t.cbs| == MAX_SLOT_CB_NUM
      && (forall j, k :: 0 <= j < k < |t.cbs| && t.cbs[j] != 0 ==> t.cbs[j] != t.cbs[k])
      && t.chId < |d.channels| && ServesSlot(d.channels[t.chId], t)
  }

  ghost predicate ServesSlot(c: Channel, t: Slot)
    requires t.mvLen <= MAX_MV_LEN && |t.mask| == |t.value| == MAX_MV_LEN
  {
    && c.isAllocated && c.isEnabled && c.appCb == SLOT_CALLBACK
    && c.devNum == t.dmxId && c.pid == t.pid
    && t.fltId in c.flts && t.fltId in c.maskEn
    && t.fltId < |c.mask| && t.fltId < |c.value|
    && c.mask[t.fltId] == Padded(t.mask, t.mvLen) && c.value[t.fltId] == Padded(t.value, t.mvLen)
  }

  predicate SameKey(t: Slot, u: Slot) {
    SameStream(t, u.dmxId, u.pid) && t.mvLen == u.mvLen && t.mvLen <= |t.mask| && t.mvLen <= |t.value|
    && t.mvLen <= |u.mask| && t.mvLen <= |u.value|
    && t.mask[..t.mvLen] == u.mask[..t.mvLen] && t.value[..t.mvLen] == u.value[..t.mvLen]
  }

  /** Two slots in use share a channel exactly when they share the stream; they never share a filter
      of it, nor stream, mask, value and length. */
  ghost predicate PairOk(t: Slot, u: Slot) {
    InUse(t) && InUse(u) ==>
      && (t.chId == u.chId <==> SameStream(t, u.dmxId, u.pid))
      && (t.chId == u.chId ==> t.fltId != u.fltId)
      && !SameKey(t, u)
  }

  ghost predicate Owns(t: Slot, ch: nat) { InUse(t) && t.chId == ch }

  ghost predicate SlotOwned(slots: seq<Slot>, ch: nat) {
    exists i :: 0 <= i < |slots| && Owns(slots[i], ch)
  }

  ghost predicate HasSlot(slots: seq<Slot>, ch: nat, f: nat) {
    exists i :: 0 <= i < |slots| && Owns(slots[i], ch) && slots[i].fltId == f
  }

  /** A slot-owned channel has no filter besides those of its slots. */
  ghost predicate Covered(slots: seq<Slot>, ch: nat, c: Channel) {
    SlotOwned(slots, ch) ==> forall f :: f in c.flts ==> HasSlot(slots, ch, f)
  }

  ghost predicate SlotsOk(s: Sys) {
    && Wf(s.dmx) && s.dmx.initOk && s.inited
    && |s.slots| == MAX_SLOT_NUM
    && (forall i :: 0 <= i < |s.slots| ==> SlotOk(s.slots[i], i, s.dmx))
    && (forall i, j :: 0 <= i < j < |s.slots| ==> PairOk(s.slots[i], s.slots[j]))
    && (forall ch :: 0 <= ch < |s.dmx.channels| ==> Covered(s.slots, ch, s.dmx.channels[ch]))
  }

  /** The table after slot_init, over any well-formed section layer, satisfies the protocol. */
  lemma {:induction false} InitialSlots(s: Sys)
    requires Wf(s.dmx) && s.dmx.initOk && s.inited && |s.slots| == MAX_SLOT_NUM
    requires forall i :: 0 <= i < |s.slots| ==> s.slots[i] == ResetSlot(NoCallbacks())
    ensures SlotsOk(s)
  {
  }

  /** The filters allocated on a slot-owned channel are exactly its slots' filters. */
  lemma {:induction false} FiltersAreSlots(s: Sys, ch: nat)
    requires SlotsOk(s) && ch < |s.dmx.channels| && SlotOwned(s.slots, ch)
    ensures forall f: nat :: f in s.dmx.channels[ch].flts <==> HasSlot(s.slots, ch, f)
  {
    forall f: nat | HasSlot(s.slots, ch, f)
      ensures f in s.dmx.channels[ch].flts
    {
      var i :| 0 <= i < |s.slots| && Owns(s.slots[i], ch) && s.slots[i].fltId == f;
      assert SlotOk(s.slots[i], i, s.dmx);
    }
    assert Covered(s.slots, ch, s.dmx.channels[ch]);
  }

  /** Sharing a channel and sharing the stream are the same thing, for any two slots in use. */
  lemma {:induction false} ShareChannelIffStream(s: Sys, i: nat, j: nat)
    requires SlotsOk(s) && i < |s.slots| && j < |s.slots| && InUse(s.slots[i]) && InUse(s.slots[j])
    ensures s.slots[i].chId == s.slots[j].chId <==> SameStream(s.slots[i], s.slots[j].dmxId, s.slots[j].pid)
    ensures s.slots[i].chId == s.slots[j].chId && s.slots[i].fltId == s.slots[j].fltId ==> i == j
  {
    if i < j {
      assert PairOk(s.slots[i], s.slots[j]);
    } else if j < i {
      assert PairOk(s.slots[j], s.slots[i]);
    }
  }

  // ----- adding a filter -----

  /** What adding a filter does to the channel, in every outcome of the hardware. */
  lemma {:induction false} AddFilterEffect(d: Dmx, ch: nat, isNew: bool, mask: seq<Byte>, value: seq<Byte>, len: nat, enOk: bool)
    requires Wf(d) && Usable(d, ch) && len <= |mask| && len <= |value| && len <= MAX_MV_LEN
    requires isNew ==> d.channels[ch].flts == {}
    ensures var a, c := AddFilter(d, ch, isNew, mask, value, len, enOk), d.channels[ch];
      && Wf(a.dmx) && |a.dmx.channels| == |d.channels| && a.dmx.initOk
      && a.dmx.nodes == d.nodes && a.dmx.free == d.free && a.dmx.loose == d.loose && a.dmx.devs == d.devs
      && (forall j :: 0 <= j < |d.channels| && j != ch ==> a.dmx.channels[j] == d.channels[j])
      && (|c.flts| == MAX_MASK_NUM ==> !a.ok && a.dmx.channels[ch] == c.(isEnabled := c.isEnabled || enOk))
      && (|c.flts| != MAX_MASK_NUM ==>
            && (a.ok <==> !c.isEnabled && enOk)
            && a.flt < MAX_MASK_NUM && a.flt !in c.flts
            && a.dmx.channels[ch] == c.(flts := c.flts + {a.flt}, maskEn := c.maskEn + {a.flt},
                                        mask := c.mask[a.flt := Padded(mask, len)],
                                        value := c.value[a.flt := Padded(value, len)],
                                        isEnabled := c.isEnabled || enOk))
  {
    var c := d.channels[ch];
    AllocFilterLeast(d, ch);
    var flt := AllocFilter(d, ch).1;
    if flt == NO_ID {
      EnDisWf(d, ch, enOk);
      assert d.channels[ch := c] == d.channels;
    } else {
      FreshFilterSet(d, ch, mask, value, len);
      EnDisWf(SetFilter(AllocFilter(d, ch).0, ch, flt, mask, value, len).0, ch, enOk);
    }
    hide AllocFilter, SetFilter, Wf, Padded;
  }

  /** Setting the filter that alloc_filter has just returned flushes nothing. */
  lemma {:induction false} FreshFilterSet(d: Dmx, ch: nat, mask: seq<Byte>, value: seq<Byte>, len: nat)
    requires Wf(d) && Usable(d, ch) && len <= |mask| && len <= |value| && len <= MAX_MV_LEN && AllocFilter(d, ch).1 != NO_ID
    ensures var (d1, flt) := AllocFilter(d, ch);
      var (d2, ok) := SetFilter(d1, ch, flt, mask, value, len);
      var c := d.channels[ch];
      && ok && Wf(d2) && flt < MAX_MASK_NUM && flt < |c.mask| && flt < |c.value|
      && d2 == d.(channels := d.channels[ch := c.(flts := c.flts + {flt}, maskEn := c.maskEn + {flt},
                                                  mask := c.mask[flt := Padded(mask, len)],
                                                  value := c.value[flt := Padded(value, len)])])
  {
    var c, flt := d.channels[ch], AllocFilter(d, ch).1;
    assert ChannelOk(c, ch, d.nodes);
    AllocFilterWf(d, ch);
    SetFilterWf(AllocFilter(d, ch).0, ch, flt, mask, value, len);
    var keys := Keys(c.secList, d.nodes);
    forall j | 0 <= j < |keys|
      ensures keys[j] != flt
    {
      assert c.secList[j] in c.secList;
    }
    NoneSelected(c.secList, keys, flt);
    assert d.free + [] == d.free;
    hide Padded, Wf, Picked, Skipped;
  }

  // ----- adv_dmx_slot_alloc -----

  lemma {:induction false} PairSymmetric(t: Slot, u: Slot)
    requires PairOk(t, u)
    ensures PairOk(u, t)
  {
  }

  /** Another callback on a slot in use. */
  lemma {:induction false} AddCallbackOk(s: Sys, i: nat, cb: nat)
    requires SlotsOk(s) && i < |s.slots| && InUse(s.slots[i]) && AddCallback(s, i, cb).Done?
    ensures SlotsOk(AddCallback(s, i, cb).sys)
  {
    var t, s' := s.slots[i], AddCallback(s, i, cb).sys;
    assert SlotOk(t, i, s.dmx);
    SlotReplaced(s, i, s'.slots[i].cbs);
  }

  /** Changing only the callbacks of a slot in use. */
  lemma {:induction false} SlotReplaced(s: Sys, i: nat, cbs: seq<nat>)
    requires SlotsOk(s) && i < |s.slots| && InUse(s.slots[i]) && |cbs| == MAX_SLOT_CB_NUM
    requires forall j, k :: 0 <= j < k < |cbs| && cbs[j] != 0 ==> cbs[j] != cbs[k]
    ensures SlotsOk(s.(slots := s.slots[i := s.slots[i].(cbs := cbs)]))
  {
    var s' := s.(slots := s.slots[i := s.slots[i].(cbs := cbs)]);
    forall j | 0 <= j < |s'.slots|
      ensures SlotOk(s'.slots[j], j, s'.dmx)
    {
      assert SlotOk(s.slots[j], j, s.dmx);
    }
    forall j, k | 0 <= j < k < |s'.slots|
      ensures PairOk(s'.slots[j], s'.slots[k])
    {
      assert PairOk(s.slots[j], s.slots[k]);
    }
    forall ch | 0 <= ch < |s.dmx.channels|
      ensures Covered(s'.slots, ch, s'.dmx.channels[ch])
    {
      SameOwners(s.slots, s'.slots, ch);
      assert Covered(s.slots, ch, s.dmx.channels[ch]);
    }
  }

  lemma {:induction false} SameOwners(a: seq<Slot>, b: seq<Slot>, ch: nat)
    requires |a| == |b|
    requires forall i :: 0 <= i < |a| ==> (Owns(a[i], ch) <==> Owns(b[i], ch)) && a[i].fltId == b[i].fltId
    ensures SlotOwned(a, ch) <==> SlotOwned(b, ch)
    ensures forall f: nat :: HasSlot(a, ch, f) <==> HasSlot(b, ch, f)
  {
  }

  /** A new slot t at the empty position v, on channel ch with filter t.fltId. */
  lemma {:induction false} SlotAdded(s: Sys, v: nat, t: Slot, d: Dmx)
    requires SlotsOk(s) && v < |s.slots| && !InUse(s.slots[v]) && InUse(t) && SlotOk(t, v, d)
    requires Wf(d) && d.initOk && |d.channels| == |s.dmx.channels|
    requires forall j :: 0 <= j < |s.slots| ==> SlotOk(s.slots[j], j, d) && PairOk(t, s.slots[j])
    requires forall ch :: 0 <= ch < |d.channels| && ch != t.chId ==> d.channels[ch] == s.dmx.channels[ch]
    requires forall f :: f in d.channels[t.chId].flts ==> f == t.fltId || HasSlot(s.slots, t.chId, f)
    ensures SlotsOk(s.(slots := s.slots[v := t], dmx := d))
  {
    hide Wf;
    var slots := s.slots[v := t];
    forall j, k | 0 <= j < k < |slots|
      ensures PairOk(slots[j], slots[k])
    {
      if j != v && k != v {
        assert PairOk(s.slots[j], s.slots[k]);
      } else if k == v {
        PairSymmetric(t, s.slots[j]);
      }
    }
    forall ch | 0 <= ch < |d.channels|
      ensures Covered(slots, ch, d.channels[ch])
    {
      forall f | f in d.channels[ch].flts && SlotOwned(slots, ch)
        ensures HasSlot(slots, ch, f)
      {
        if ch == t.chId && f == t.fltId {
          assert Owns(slots[v], ch) && slots[v].fltId == f;
        } else {
          if ch != t.chId {
            var i :| 0 <= i < |slots| && Owns(slots[i], ch);
            assert Owns(s.slots[i], ch);
            assert Covered(s.slots, ch, s.dmx.channels[ch]);
          }
          var i :| 0 <= i < |s.slots| && Owns(s.slots[i], ch) && s.slots[i].fltId == f;
          assert Owns(slots[i], ch) && slots[i].fltId == f;
        }
      }
    }
  }
}
