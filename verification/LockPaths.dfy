/** What each function of dmx_adv.c and dmx_adv_slot.c does to the two mutexes, branch by branch: every
    return site of the source is a leaf below, with the unlocks on its way. Line numbers refer to
    SRC/hld/dmx/dmx_adv.c and SRC/hld/dmx/dmx_adv_slot.c. */
module LockPaths {
  import opened Bytes
  import opened DmxState
  import opened DmxInvariant
  import opened SlotState

  datatype Act = LockSlot | UnlockSlot | LockAdv | UnlockAdv

  /** What a function did to the mutexes, and what it returned. */
  datatype Path<T> = Path(acts: seq<Act>, ret: T)

  /** adv_dmx_mutex(1) and (0): nothing on the ADM task. */
  function Lock(adm: bool): seq<Act> { if adm then [] else [LockAdv] }
  function Unlock(adm: bool): seq<Act> { if adm then [] else [UnlockAdv] }

  // ----- dmx_adv.c -----

  function AllocChannelPath(adm: bool, s: Dmx, dmxId: nat, crcEn: nat, cb: nat): Path<nat> {
    if !s.initOk then Path([], NO_ID)                                             // 517
    else if cb == 0 then Path([], NO_ID)                                          // 521
    else
      var i := FirstIdle(s.channels);
      if i == |s.channels| then Path(Lock(adm) + Unlock(adm), NO_ID)              // 532, 568
      else if dmxId >= |s.devs| || !s.devs[dmxId] then Path(Lock(adm) + Unlock(adm), NO_ID)
      else if s.free == [] then Path(Lock(adm) + Unlock(adm), NO_ID)
      else Path(Lock(adm) + Unlock(adm), i)
  }

  function FreeChannelPath(adm: bool, s: Dmx, ch: nat): Path<bool> {
    if !(s.initOk && ch < |s.channels|) then Path([], false)                      // 596
    else if !(s.channels[ch].isAllocated && !s.channels[ch].isEnabled) then Path(Lock(adm) + Unlock(adm), false)
    else Path(Lock(adm) + Unlock(adm), s.channels[ch].wkBuf.Some?)                // 594
  }

  function SetPidPath(adm: bool, s: Dmx, ch: nat, pid: nat): Path<bool> {
    if !(s.initOk && ch < |s.channels| && pid != INVALID_PID) then Path([], false)
    else if s.channels[ch].isAllocated && !s.channels[ch].isEnabled then Path(Lock(adm) + Unlock(adm), true)
    else Path(Lock(adm) + Unlock(adm), false)                                     // 614
  }

  function GetPidPath(adm: bool, s: Dmx, ch: nat): Path<nat> {
    if !(s.initOk && ch < |s.channels|) then Path([], INVALID_PID)
    else if s.channels[ch].isAllocated then Path(Lock(adm) + Unlock(adm), s.channels[ch].pid)
    else Path(Lock(adm) + Unlock(adm), INVALID_PID)                               // 633
  }

  function EnChannelPath(adm: bool, s: Dmx, ch: nat, hwOk: bool): Path<bool> {
    if !(s.initOk && ch < |s.channels|) then Path([], false)
    else if !(s.channels[ch].isAllocated && !s.channels[ch].isEnabled) then Path(Lock(adm) + Unlock(adm), false)
    else Path(Lock(adm) + Unlock(adm), hwOk)                                      // 658
  }

  function DisChannelPath(adm: bool, s: Dmx, ch: nat, hwOk: bool): Path<bool> {
    if !(s.initOk && ch < |s.channels|) then Path([], false)
    else if !(s.channels[ch].isAllocated && s.channels[ch].isEnabled) then Path(Lock(adm) + Unlock(adm), false)
    else Path(Lock(adm) + Unlock(adm), hwOk)                                      // 689
  }

  function RstChannelPath(adm: bool, s: Dmx, ch: nat, closeOk: bool, reqOk: bool): Path<bool> {
    if !(s.initOk && ch < |s.channels|) then Path([], false)
    else if !s.channels[ch].isAllocated then Path(Lock(adm) + Unlock(adm), false) // 729
    else if s.channels[ch].isEnabled && !closeOk then Path(Lock(adm) + Unlock(adm), false) // 710, 711
    else if s.channels[ch].isEnabled && !reqOk then Path(Lock(adm) + Unlock(adm), false)   // 722, 723
    else Path(Lock(adm) + Unlock(adm), true)                                      // 729
  }

  function AllocFilterPath(adm: bool, s: Dmx, ch: nat): Path<nat> {
    if !(s.initOk && ch < |s.channels|) then Path([], NO_ID)
    else if !s.channels[ch].isAllocated then Path(Lock(adm) + Unlock(adm), NO_ID)
    else
      var i := LeastUnset(s.channels[ch].flts, 0);
      Path(Lock(adm) + Unlock(adm), if i < MAX_MASK_NUM then i else NO_ID)        // 758
  }

  function FreeFilterPath(adm: bool, s: Dmx, ch: nat, flt: nat): Path<bool> {
    if !(s.initOk && ch < |s.channels| && flt < MAX_MASK_NUM) then Path([], false)
    else if !s.channels[ch].isAllocated then Path(Lock(adm) + Unlock(adm), false)
    else Path(Lock(adm) + Unlock(adm), flt in s.channels[ch].flts)                // 792
  }

  function SetFilterPath(adm: bool, s: Dmx, ch: nat, flt: nat, len: nat): Path<bool> {
    if !(s.initOk && ch < |s.channels| && flt < MAX_MASK_NUM && len <= MAX_MASK_LEN) then Path([], false)
    else if !s.channels[ch].isAllocated then Path(Lock(adm) + Unlock(adm), false)
    else Path(Lock(adm) + Unlock(adm), flt in s.channels[ch].flts)                // 828
  }

  function GetFilterNumPath(adm: bool, s: Dmx, ch: nat): Path<int> {
    if !(s.initOk && ch < |s.channels|) then Path([], -1)                         // 852
    else if s.channels[ch].isAllocated then Path(Lock(adm) + Unlock(adm), |s.channels[ch].flts|)
    else Path(Lock(adm) + Unlock(adm), 0)                                         // 849
  }

  /** The paths return what the functions return. */
  lemma {:induction false} ChannelPathsReturn(adm: bool, s: Dmx, ch: nat, n: nat, m: nat, a: bool, b: bool)
    ensures AllocChannelPath(adm, s, ch, n, m).ret == AllocChannel(s, ch, n, m).1
    ensures FreeChannelPath(adm, s, ch).ret == FreeChannel(s, ch).1
    ensures SetPidPath(adm, s, ch, n).ret == SetPid(s, ch, n).1
    ensures GetPidPath(adm, s, ch).ret == GetPid(s, ch).1
    ensures EnChannelPath(adm, s, ch, a).ret == EnChannel(s, ch, a).1
    ensures DisChannelPath(adm, s, ch, a).ret == DisChannel(s, ch, a).1
    ensures RstChannelPath(adm, s, ch, a, b).ret == RstChannel(s, ch, a, b).1
  {
  }

  lemma {:induction false} FilterPathsReturn(adm: bool, s: Dmx, ch: nat, flt: nat, mask: seq<Byte>, value: seq<Byte>, len: nat)
    requires len <= |mask| && len <= |value|
    requires ch < |s.channels| ==> |s.channels[ch].mask| == |s.channels[ch].value| == MAX_MASK_NUM
    ensures AllocFilterPath(adm, s, ch).ret == AllocFilter(s, ch).1
    ensures FreeFilterPath(adm, s, ch, flt).ret == FreeFilter(s, ch, flt).1
    ensures SetFilterPath(adm, s, ch, flt, len).ret == SetFilter(s, ch, flt, mask, value, len).1
    ensures GetFilterNumPath(adm, s, ch).ret == GetFilterNum(s, ch)
  {
  }

  // ----- dmx_adv_slot.c -----

  /** What slot_alloc comes to: a return value, or a stray write, after which the source carries on. */
  datatype Answered = Ret(value: int) | Stray

  /** The section layer as slot_alloc finds it at each of its calls. Other threads may have changed it in
      between, so these are any states. */
  datatype AllocEnv = AllocEnv(atAlloc: Dmx, atPid: Dmx, atDis: Dmx, atFilter: Dmx, atSet: Dmx, atBack: Dmx, atEn: Dmx)

  function SlotAllocPath(adm: bool, sys: Sys, env: AllocEnv, dmxId: nat, pid: nat, mask: seq<Byte>, value: seq<Byte>, len: nat,
                         cb: nat, disOk: bool, enOk: bool): Path<Answered>
    requires len <= |mask| && len <= |value|
  {
    if !sys.inited then Path([], Ret(-1))                                         // 145
    else
      var same := FindSame(sys.slots, dmxId, pid, mask, value, len);
      var stream := FindStream(sys.slots, dmxId, pid);
      if same < |sys.slots| then
        var t := sys.slots[same];
        Path([LockSlot, UnlockSlot], if cb in t.cbs || 0 in t.cbs then Ret(t.slotId) else Stray)  // 183, 185
      else if stream == |sys.slots| then
        var c := AllocChannelPath(adm, env.atAlloc, dmxId, sys.crc, SLOT_CALLBACK);
        if c.ret == NO_ID then Path([LockSlot] + c.acts + [UnlockSlot], Ret(-1))  // 196, 197
        else
          var p := SetPidPath(adm, env.atPid, c.ret, pid);
          if !p.ret then Path([LockSlot] + (c.acts + p.acts) + [UnlockSlot], Ret(-1))  // 203, 204
          else FilterPart(adm, sys, env, c.acts + p.acts, c.ret, true, len, enOk)
      else
        var ch := sys.slots[stream].chId;
        FilterPart(adm, sys, env, DisChannelPath(adm, env.atDis, ch, disOk).acts, ch, false, len, enOk)
  }

  /** From adv_dmx_alloc_filter on; `before` is what happened since the slot mutex was taken. */
  function FilterPart(adm: bool, sys: Sys, env: AllocEnv, before: seq<Act>, ch: nat, isNew: bool, len: nat, enOk: bool)
    : Path<Answered>
  {
    var back := if isNew then FreeChannelPath(adm, env.atBack, ch).acts else EnChannelPath(adm, env.atBack, ch, enOk).acts;
    var f := AllocFilterPath(adm, env.atFilter, ch);
    if f.ret == NO_ID then Path([LockSlot] + (before + f.acts + back) + [UnlockSlot], Ret(-1))  // 221, 222
    else
      var g := SetFilterPath(adm, env.atSet, ch, f.ret, len);
      if !g.ret then Path([LockSlot] + (before + f.acts + g.acts + back) + [UnlockSlot], Ret(-1))  // 232, 233
      else
        var e := EnChannelPath(adm, env.atEn, ch, enOk);
        var acts := [LockSlot] + (before + f.acts + g.acts + e.acts) + [UnlockSlot];
        var v := FindEmpty(sys.slots);
        if !e.ret then Path(acts, Ret(-1))                                        // 239, 240
        else Path(acts, if v < |sys.slots| then Ret(v) else Stray)                // 253, 255
  }

  datatype FreeEnv = FreeEnv(atFree: Dmx, atNum: Dmx, atDis: Dmx, atChannel: Dmx)

  /** slot_free; `env(i)` is the section layer as it finds it when it releases slot i. */
  function SlotFreePath(adm: bool, sys: Sys, env: nat -> FreeEnv, slotId: int, cb: nat, closeOk: bool): Path<int> {
    if !sys.inited then Path([], -1)                                              // 264
    else var p := FreeLoop(adm, sys.slots, env, 0, slotId, cb, closeOk, -1); Path([LockSlot] + p.acts, p.ret)
  }

  /** Its loop from slot i on, with the unlock at its end or before its early returns. */
  function FreeLoop(adm: bool, slots: seq<Slot>, env: nat -> FreeEnv, i: nat, slotId: int, cb: nat, closeOk: bool, ret: int)
    : Path<int>
    requires i <= |slots|
    decreases |slots| - i
  {
    if i == |slots| then Path([UnlockSlot], ret)                                  // 319, 321
    else if slots[i].slotId != slotId then FreeLoop(adm, slots, env, i + 1, slotId, cb, closeOk, ret)
    else
      var t := slots[i];
      var k := FindCb(t.cbs, cb);
      if k == |t.cbs| then Path([UnlockSlot], -1)                                 // 286, 287
      else if !AllNull(t.cbs[k := 0]) then Path([UnlockSlot], 0)                  // 294, 295
      else
        var rest := FreeLoop(adm, slots, env, i + 1, slotId, cb, closeOk, 0);
        Path(DropActs(adm, env(i), t.chId, t.fltId, closeOk) + rest.acts, rest.ret)
  }

  /** free_filter, get_filter_num, and for the last filter dis_channel and free_channel. */
  function DropActs(adm: bool, env: FreeEnv, ch: nat, flt: nat, closeOk: bool): seq<Act> {
    var f := FreeFilterPath(adm, env.atFree, ch, flt);
    var n := GetFilterNumPath(adm, env.atNum, ch);
    if n.ret == 0 then
      f.acts + n.acts + DisChannelPath(adm, env.atDis, ch, closeOk).acts + FreeChannelPath(adm, env.atChannel, ch).acts
    else f.acts + n.acts
  }

  // ----- the slot paths return what the slot functions return -----

  /** Undisturbed by other threads, slot_alloc finds at each call what its own calls have left. */
  function OwnEnv(sys: Sys, dmxId: nat, pid: nat, mask: seq<Byte>, value: seq<Byte>, len: nat, disOk: bool, enOk: bool): AllocEnv
    requires len <= |mask| && len <= |value|
  {
    var d := sys.dmx;
    var stream := FindStream(sys.slots, dmxId, pid);
    var (d1, c) := AllocChannel(d, dmxId, sys.crc, SLOT_CALLBACK);
    var ch := if stream < |sys.slots| then sys.slots[stream].chId else c;
    var ready := if stream < |sys.slots| then DisChannel(d, ch, disOk).0 else SetPid(d1, c, pid).0;
    var (d3, flt) := AllocFilter(ready, ch);
    var d4 := SetFilter(d3, ch, flt, mask, value, len).0;
    AllocEnv(d, d1, d, ready, d3, d4, d4)
  }

  function AnswerOf(o: Outcome): Answered {
    match o
    case Done(_, ret) => Ret(ret)
    case OutOfBounds => Stray
  }

  lemma {:induction false} FilterPartReturns(adm: bool, sys: Sys, env: AllocEnv, before: seq<Act>, d: Dmx, ch: nat, isNew: bool,
                                             mask: seq<Byte>, value: seq<Byte>, len: nat, enOk: bool)
    requires Wf(d) && len <= |mask| && len <= |value|
    requires env.atFilter == d && env.atSet == AllocFilter(d, ch).0
    requires env.atEn == SetFilter(env.atSet, ch, AllocFilter(d, ch).1, mask, value, len).0
    ensures var a := AddFilter(d, ch, isNew, mask, value, len, enOk);
      FilterPart(adm, sys, env, before, ch, isNew, len, enOk).ret
      == if !a.ok then Ret(-1) else if FindEmpty(sys.slots) < |sys.slots| then Ret(FindEmpty(sys.slots)) else Stray
  {
    AllocFilterWf(d, ch);
    assert ch < |env.atSet.channels| ==> ChannelOk(env.atSet.channels[ch], ch, env.atSet.nodes);
    FilterPathsReturn(adm, d, ch, 0, mask, value, len) by { assert ch < |d.channels| ==> ChannelOk(d.channels[ch], ch, d.nodes); }
    FilterPathsReturn(adm, env.atSet, ch, AllocFilter(d, ch).1, mask, value, len);
    ChannelPathsReturn(adm, env.atEn, ch, 0, 0, enOk, enOk);
    hide AllocFilter, SetFilter, EnChannel, AllocFilterPath, SetFilterPath, EnChannelPath, FreeChannelPath, Wf;
  }

  /** Undisturbed, slot_alloc returns along its path what the transition function says, and the path ends
      at a stray write exactly when that function does. */
  lemma {:induction false} SlotAllocReturns(adm: bool, sys: Sys, dmxId: nat, pid: nat, mask: seq<Byte>, value: seq<Byte>, len: nat,
                                            cb: nat, disOk: bool, enOk: bool)
    requires Wf(sys.dmx) && Shaped(sys.slots) && len <= MAX_MV_LEN && len <= |mask| && len <= |value|
    ensures var env := OwnEnv(sys, dmxId, pid, mask, value, len, disOk, enOk);
      SlotAllocPath(adm, sys, env, dmxId, pid, mask, value, len, cb, disOk, enOk).ret
      == AnswerOf(SlotAlloc(sys, dmxId, pid, mask, value, len, cb, disOk, enOk))
  {
    hide AllocFilter, SetFilter, Wf, FirstIdle;
    var env := OwnEnv(sys, dmxId, pid, mask, value, len, disOk, enOk);
    var stream := FindStream(sys.slots, dmxId, pid);
    if sys.inited && FindSame(sys.slots, dmxId, pid, mask, value, len) == |sys.slots| {
      if stream == |sys.slots| {
        OpenReturns(adm, sys, env, dmxId, pid, mask, value, len, cb, enOk);
      } else {
        var ch := sys.slots[stream].chId;
        EnDisWf(sys.dmx, ch, disOk);
        var before := DisChannelPath(adm, env.atDis, ch, disOk).acts;
        FilterPartReturns(adm, sys, env, before, env.atFilter, ch, false, mask, value, len, enOk);
        hide FilterPart, AddFilter;
      }
    }
    hide FilterPart, AddFilter, AllocChannelPath, SetPidPath, AllocChannel, SetPid;
  }

  lemma {:induction false} OpenReturns(adm: bool, sys: Sys, env: AllocEnv, dmxId: nat, pid: nat, mask: seq<Byte>, value: seq<Byte>,
                                       len: nat, cb: nat, enOk: bool)
    requires Wf(sys.dmx) && Shaped(sys.slots) && len <= MAX_MV_LEN && len <= |mask| && len <= |value|
    requires FindStream(sys.slots, dmxId, pid) == |sys.slots| && env == OwnEnv(sys, dmxId, pid, mask, value, len, true, enOk).(atDis := env.atDis)
    ensures
      var c := AllocChannelPath(adm, env.atAlloc, dmxId, sys.crc, SLOT_CALLBACK);
      var p := SetPidPath(adm, env.atPid, c.ret, pid);
      (if c.ret == NO_ID || !p.ret then Ret(-1) else FilterPart(adm, sys, env, c.acts + p.acts, c.ret, true, len, enOk).ret)
      == AnswerOf(OpenSlot(sys, dmxId, pid, mask, value, len, cb, enOk))
  {
    hide FilterPart, AddFilter, AllocFilter, SetFilter, Wf, Padded, FindEmpty, FindStream, FirstIdle;
    var (d1, ch) := AllocChannel(sys.dmx, dmxId, sys.crc, SLOT_CALLBACK);
    AllocChannelWf(sys.dmx, dmxId, sys.crc, SLOT_CALLBACK);
    SetPidWf(d1, ch, pid);
    ChannelPathsReturn(adm, sys.dmx, dmxId, sys.crc, SLOT_CALLBACK, true, true);
    ChannelPathsReturn(adm, d1, ch, pid, 0, true, true);
    var c := AllocChannelPath(adm, env.atAlloc, dmxId, sys.crc, SLOT_CALLBACK);
    var p := SetPidPath(adm, env.atPid, c.ret, pid);
    FilterPartReturns(adm, sys, env, c.acts + p.acts, env.atFilter, ch, true, mask, value, len, enOk);
    hide AllocChannelPath, SetPidPath, AllocChannel, SetPid;
  }

  /** slot_free returns along its path what the transition function says, however other threads change the
      section layer meanwhile. */
  lemma {:induction false} SlotFreeReturns(adm: bool, sys: Sys, env: nat -> FreeEnv, slotId: int, cb: nat, closeOk: bool)
    ensures SlotFreePath(adm, sys, env, slotId, cb, closeOk).ret == SlotFree(sys, slotId, cb, closeOk).1
  {
    FreeLoopReturns(adm, sys, sys.slots, env, 0, slotId, cb, closeOk, -1);
  }

  lemma {:induction false} FreeLoopReturns(adm: bool, sys: Sys, slots: seq<Slot>, env: nat -> FreeEnv, i: nat, slotId: int, cb: nat,
                                           closeOk: bool, ret: int)
    requires i <= |slots| == |sys.slots| && slots[i..] == sys.slots[i..]
    ensures FreeLoop(adm, slots, env, i, slotId, cb, closeOk, ret).ret == FreeFrom(sys, i, slotId, cb, closeOk, ret).1
    decreases |slots| - i
  {
    hide DropFilter, DropActs;
    if i < |slots| {
      assert slots[i] == slots[i..][0] == sys.slots[i];
      assert slots[i+1..] == slots[i..][1..] && sys.slots[i+1..] == sys.slots[i..][1..];
      if slots[i].slotId != slotId {
        FreeLoopReturns(adm, sys, slots, env, i + 1, slotId, cb, closeOk, ret);
      } else {
        var t := slots[i];
        var k := FindCb(t.cbs, cb);
        if k < |t.cbs| && AllNull(t.cbs[k := 0]) {
          var s' := sys.(slots := sys.slots[i := ResetSlot(t.cbs[k := 0])], dmx := DropFilter(sys.dmx, t.chId, t.fltId, closeOk));
          assert s'.slots[i+1..] == sys.slots[i+1..];
          FreeLoopReturns(adm, s', slots, env, i + 1, slotId, cb, closeOk, 0);
        }
      }
    }
  }
}
