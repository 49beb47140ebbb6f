/** dmx_adv_slot.c on top of DmxState: a table of slots that shares one channel among all slots of a
    (dmx_id, pid) and one filter among all callbacks of a (mask, value, length). */
module SlotState {
  import opened Bytes
  import opened DmxState

  const MAX_MV_LEN: nat := 16
  const MAX_SLOT_NUM: nat := 64
  const MAX_SLOT_CB_NUM: nat := 8
  /** adv_dmx_slot_callback, as registered with adv_dmx_alloc_channel */
  const SLOT_CALLBACK: nat := 1

  /** dmx_adv_slot; callback 0 is NULL. */
  datatype Slot = Slot(dmxId: nat, chId: nat, fltId: nat, slotId: int, pid: nat, mvLen: nat,
                       mask: seq<Byte>, value: seq<Byte>, cbs: seq<nat>)

  datatype Sys = Sys(inited: bool, crc: nat, slots: seq<Slot>, dmx: Dmx)

  /** What adv_dmx_slot_alloc ends with: a return value, or a write outside dmx_adv_slots or outside a
      slot's callback array. */
  datatype Outcome = Done(sys: Sys, ret: int) | OutOfBounds

  /** The reset written by slot_init and, but for the callbacks, by slot_free. */
  function ResetSlot(cbs: seq<nat>): Slot {
    Slot(NO_ID, NO_ID, NO_ID, -1, INVALID_PID, 0, seq(MAX_MV_LEN, _ => 0), seq(MAX_MV_LEN, _ => 0), cbs)
  }

  /** A slot of the static table before slot_init: zero-filled. */
  function BlankSlot(): Slot {
    Slot(0, 0, 0, 0, 0, 0, seq(MAX_MV_LEN, _ => 0), seq(MAX_MV_LEN, _ => 0), NoCallbacks())
  }

  function NoCallbacks(): seq<nat> { seq(MAX_SLOT_CB_NUM, _ => 0) }

  /** The slot arrays have their declared sizes. */
  predicate Shaped(slots: seq<Slot>) {
    |slots| == MAX_SLOT_NUM
    && forall t :: t in slots ==> |t.mask| == |t.value| == MAX_MV_LEN && |t.cbs| == MAX_SLOT_CB_NUM
  }

  predicate SlotEmpty(t: Slot) {
    t.dmxId == NO_ID && t.chId == NO_ID && t.slotId == -1
  }

  predicate SameStream(t: Slot, dmxId: nat, pid: nat) {
    t.dmxId == dmxId && t.pid == pid
  }

  /** Same first len bytes of mask and value, same length. */
  predicate SameMask(t: Slot, mask: seq<Byte>, value: seq<Byte>, len: nat)
    requires len <= |mask| && len <= |value|
  {
    len <= |t.mask| && len <= |t.value| && t.mask[..len] == mask[..len] && t.value[..len] == value[..len] && len == t.mvLen
  }

  /** First slot of the same stream, mask, value and length; the table size if there is none. */
  function FindSame(slots: seq<Slot>, dmxId: nat, pid: nat, mask: seq<Byte>, value: seq<Byte>, len: nat): (i: nat)
    requires len <= |mask| && len <= |value|
    ensures i <= |slots|
    ensures forall j :: 0 <= j < i ==> !(SameStream(slots[j], dmxId, pid) && SameMask(slots[j], mask, value, len))
    ensures i < |slots| ==> SameStream(slots[i], dmxId, pid) && SameMask(slots[i], mask, value, len)
  {
    if slots == [] || (SameStream(slots[0], dmxId, pid) && SameMask(slots[0], mask, value, len)) then 0
    else 1 + FindSame(slots[1..], dmxId, pid, mask, value, len)
  }

  /** valid_idx: first empty slot, or the table size. */
  function FindEmpty(slots: seq<Slot>): (i: nat)
    ensures i <= |slots| && forall j :: 0 <= j < i ==> !SlotEmpty(slots[j])
    ensures i < |slots| ==> SlotEmpty(slots[i])
  {
    if slots == [] || SlotEmpty(slots[0]) then 0 else 1 + FindEmpty(slots[1..])
  }

  /** alloced_idx: last slot of the same stream, or the table size. */
  function FindStream(slots: seq<Slot>, dmxId: nat, pid: nat): (i: nat)
    ensures i <= |slots|
    ensures i < |slots| ==> SameStream(slots[i], dmxId, pid) && forall j :: i < j < |slots| ==> !SameStream(slots[j], dmxId, pid)
    ensures i == |slots| ==> forall j :: 0 <= j < |slots| ==> !SameStream(slots[j], dmxId, pid)
  {
    if slots == [] then 0
    else if SameStream(slots[|slots|-1], dmxId, pid) then |slots| - 1
    else
      var i := FindStream(slots[..|slots|-1], dmxId, pid);
      if i == |slots| - 1 then |slots| else i
  }

  /** Position of a callback, or 8. */
  function FindCb(cbs: seq<nat>, cb: nat): (k: nat)
    ensures k <= |cbs| && forall j :: 0 <= j < k ==> cbs[j] != cb
    ensures k < |cbs| ==> cbs[k] == cb
  {
    if cbs == [] || cbs[0] == cb then 0 else 1 + FindCb(cbs[1..], cb)
  }

  /** The branch for a slot that already has this stream, mask and value. */
  function AddCallback(sys: Sys, i: nat, cb: nat): Outcome
    requires i < |sys.slots|
  {
    var t := sys.slots[i];
    if cb in t.cbs then Done(sys, t.slotId)
    else
      var k := FindCb(t.cbs, 0);
      if k == |t.cbs| then OutOfBounds
      else Done(sys.(slots := sys.slots[i := t.(cbs := t.cbs[k := cb])]), t.slotId)
  }

  datatype Added = Added(dmx: Dmx, flt: nat, ok: bool)

  /** From adv_dmx_alloc_filter to adv_dmx_en_channel, with the two roll-back branches. */
  function AddFilter(d: Dmx, ch: nat, isNew: bool, mask: seq<Byte>, value: seq<Byte>, len: nat, enOk: bool): Added
    requires len <= |mask| && len <= |value|
  {
    var (d1, flt) := AllocFilter(d, ch);
    if flt == NO_ID then Added(RollBack(d1, ch, isNew, enOk), flt, false)
    else
      var (d2, set_) := SetFilter(d1, ch, flt, mask, value, len);
      if !set_ then Added(RollBack(d2, ch, isNew, enOk), flt, false)
      else
        var (d3, en) := EnChannel(d2, ch, enOk);
        Added(d3, flt, en)
  }

  function RollBack(d: Dmx, ch: nat, isNew: bool, enOk: bool): Dmx {
    if isNew then FreeChannel(d, ch).0 else EnChannel(d, ch, enOk).0
  }

  /** The final writes into dmx_adv_slots[valid_idx]. */
  function FillSlot(t: Slot, id: nat, dmxId: nat, pid: nat, ch: nat, flt: nat,
                    mask: seq<Byte>, value: seq<Byte>, len: nat, cb: nat): Slot
    requires len <= |mask| && len <= |value| && len <= |t.mask| && len <= |t.value| && 0 < |t.cbs|
  {
    Slot(dmxId, ch, flt, id, pid, len, mask[..len] + t.mask[len..], value[..len] + t.value[len..], t.cbs[0 := cb])
  }

  function Finish(sys: Sys, a: Added, dmxId: nat, pid: nat, ch: nat,
                  mask: seq<Byte>, value: seq<Byte>, len: nat, cb: nat): Outcome
    requires Shaped(sys.slots) && len <= MAX_MV_LEN && len <= |mask| && len <= |value|
  {
    var s' := sys.(dmx := a.dmx);
    var v := FindEmpty(sys.slots);
    if !a.ok then Done(s', -1)
    else if v == |sys.slots| then OutOfBounds
    else
      assert sys.slots[v] in sys.slots;
      Done(s'.(slots := sys.slots[v := FillSlot(sys.slots[v], v, dmxId, pid, ch, a.flt, mask, value, len, cb)]), v)
  }

  /** The branch without a slot of the stream: open a channel, set its pid, add the filter. Also the
      channel number. */
  function OpenStream(d: Dmx, dmxId: nat, crc: nat, pid: nat, mask: seq<Byte>, value: seq<Byte>, len: nat, enOk: bool)
    : (Added, nat)
    requires len <= |mask| && len <= |value|
  {
    var (d1, ch) := AllocChannel(d, dmxId, crc, SLOT_CALLBACK);
    if ch == NO_ID then (Added(d1, NO_ID, false), ch)
    else
      var (d2, ok) := SetPid(d1, ch, pid);
      if !ok then (Added(d2, NO_ID, false), ch)
      else (AddFilter(d2, ch, true, mask, value, len, enOk), ch)
  }

  /** The branch with a slot of the stream: close its channel, whatever comes of it, and add the filter. */
  function JoinStream(d: Dmx, ch: nat, mask: seq<Byte>, value: seq<Byte>, len: nat, disOk: bool, enOk: bool): Added
    requires len <= |mask| && len <= |value|
  {
    AddFilter(DisChannel(d, ch, disOk).0, ch, false, mask, value, len, enOk)
  }

  function OpenSlot(sys: Sys, dmxId: nat, pid: nat, mask: seq<Byte>, value: seq<Byte>, len: nat, cb: nat, enOk: bool)
    : Outcome
    requires Shaped(sys.slots) && len <= MAX_MV_LEN && len <= |mask| && len <= |value|
  {
    var (a, ch) := OpenStream(sys.dmx, dmxId, sys.crc, pid, mask, value, len, enOk);
    Finish(sys, a, dmxId, pid, ch, mask, value, len, cb)
  }

  function JoinSlot(sys: Sys, i: nat, mask: seq<Byte>, value: seq<Byte>, len: nat, cb: nat, disOk: bool, enOk: bool)
    : Outcome
    requires Shaped(sys.slots) && i < |sys.slots| && len <= MAX_MV_LEN && len <= |mask| && len <= |value|
  {
    var t := sys.slots[i];
    Finish(sys, JoinStream(sys.dmx, t.chId, mask, value, len, disOk, enOk), t.dmxId, t.pid, t.chId, mask, value, len, cb)
  }

  /** adv_dmx_slot_alloc. disOk and enOk are the hardware's answers to close and open. The source never
      checks that the length fits the 16-byte arrays of a slot; its callers have to. */
  function SlotAlloc(sys: Sys, dmxId: nat, pid: nat, mask: seq<Byte>, value: seq<Byte>, len: nat, cb: nat,
                     disOk: bool, enOk: bool): Outcome
    requires Shaped(sys.slots) && len <= MAX_MV_LEN && len <= |mask| && len <= |value|
  {
    if !sys.inited then Done(sys, -1)
    else
      var same := FindSame(sys.slots, dmxId, pid, mask, value, len);
      var stream := FindStream(sys.slots, dmxId, pid);
      if same < |sys.slots| then AddCallback(sys, same, cb)
      else if stream == |sys.slots| then OpenSlot(sys, dmxId, pid, mask, value, len, cb, enOk)
      else JoinSlot(sys, stream, mask, value, len, cb, disOk, enOk)
  }

  /** The part of slot_free that takes down the filter, and the channel with its last filter. */
  function DropFilter(d: Dmx, ch: nat, flt: nat, closeOk: bool): Dmx {
    var d1 := FreeFilter(d, ch, flt).0;
    if GetFilterNum(d1, ch) == 0 then FreeChannel(DisChannel(d1, ch, closeOk).0, ch).0 else d1
  }

  function AllNull(cbs: seq<nat>): bool {
    forall j :: 0 <= j < |cbs| ==> cbs[j] == 0
  }

  /** The loop of adv_dmx_slot_free from slot i on; ret is what it would return so far. */
  function FreeFrom(sys: Sys, i: nat, slotId: int, cb: nat, closeOk: bool, ret: int): (Sys, int)
    requires i <= |sys.slots|
    decreases |sys.slots| - i
  {
    if i == |sys.slots| then (sys, ret)
    else if sys.slots[i].slotId != slotId then FreeFrom(sys, i + 1, slotId, cb, closeOk, ret)
    else
      var t := sys.slots[i];
      var k := FindCb(t.cbs, cb);
      if k == |t.cbs| then (sys, -1)
      else
        var cbs := t.cbs[k := 0];
        if !AllNull(cbs) then (sys.(slots := sys.slots[i := t.(cbs := cbs)]), 0)
        else
          var s' := sys.(slots := sys.slots[i := ResetSlot(cbs)], dmx := DropFilter(sys.dmx, t.chId, t.fltId, closeOk));
          FreeFrom(s', i + 1, slotId, cb, closeOk, 0)
  }

  /** adv_dmx_slot_free */
  function SlotFree(sys: Sys, slotId: int, cb: nat, closeOk: bool): (Sys, int) {
    if !sys.inited then (sys, -1) else FreeFrom(sys, 0, slotId, cb, closeOk, -1)
  }

  /** A call of one registered callback: its slot id and the section. */
  datatype SlotCall = SlotCall(cb: nat, slotId: int, data: seq<Byte>)

  function CallEach(cbs: seq<nat>, slotId: int, data: seq<Byte>): seq<SlotCall> {
    if cbs == [] then []
    else (if cbs[0] != 0 then [SlotCall(cbs[0], slotId, data)] else []) + CallEach(cbs[1..], slotId, data)
  }

  /** adv_dmx_slot_callback: the first slot with this channel and filter. */
  function SlotCallback(slots: seq<Slot>, ch: nat, flt: nat, data: seq<Byte>): seq<SlotCall> {
    if slots == [] then []
    else if slots[0].chId == ch && slots[0].fltId == flt then CallEach(slots[0].cbs, slots[0].slotId, data)
    else SlotCallback(slots[1..], ch, flt, data)
  }
}
