/** Every path of LockPaths releases what it took, slot mutex before adv_dmx mutex, and threads that follow
    such paths never wait for each other in a circle. */
module LockOrder {
  import opened Bytes
  import opened DmxState
  import opened SlotState
  import opened LockPaths

  // ----- paths -----

  /** From here on, each lock is taken when not held, slot before adv, and everything is released. */
  predicate Disciplined(acts: seq<Act>, slot: bool, adv: bool) {
    if acts == [] then !slot && !adv
    else match acts[0]
      case LockSlot => !slot && !adv && Disciplined(acts[1..], true, adv)
      case UnlockSlot => slot && !adv && Disciplined(acts[1..], false, adv)
      case LockAdv => !adv && Disciplined(acts[1..], slot, true)
      case UnlockAdv => adv && Disciplined(acts[1..], slot, false)
  }

  /** The adv_dmx mutex is taken and released a number of times, and nothing else happens. */
  predicate Balanced(acts: seq<Act>) {
    acts == [] || (|acts| >= 2 && acts[0] == LockAdv && acts[1] == UnlockAdv && Balanced(acts[2..]))
  }

  lemma {:induction false} BalancedConcat(a: seq<Act>, b: seq<Act>)
    requires Balanced(a) && Balanced(b)
    ensures Balanced(a + b)
  {
    if a == [] {
      assert a + b == b;
    } else {
      BalancedConcat(a[2..], b);
      assert (a + b)[2..] == a[2..] + b;
    }
  }

  lemma {:induction false} BalancedThen(a: seq<Act>, rest: seq<Act>, slot: bool)
    requires Balanced(a) && Disciplined(rest, slot, false)
    ensures Disciplined(a + rest, slot, false)
  {
    if a == [] {
      assert a + rest == rest;
    } else {
      BalancedThen(a[2..], rest, slot);
      assert (a + rest)[1..][1..] == a[2..] + rest;
    }
  }

  lemma {:induction false} PairBalanced(adm: bool)
    ensures Balanced(Lock(adm) + Unlock(adm))
  {
    var pair := Lock(adm) + Unlock(adm);
    assert !adm ==> pair == [LockAdv, UnlockAdv] && pair[2..] == [];
  }

  /** Each function of dmx_adv.c releases its mutex on every return path. */
  lemma {:induction false} AdvPathsBalanced(adm: bool, s: Dmx, ch: nat, n: nat, m: nat, a: bool, b: bool)
    ensures Balanced(AllocChannelPath(adm, s, ch, n, m).acts)
    ensures Balanced(FreeChannelPath(adm, s, ch).acts)
    ensures Balanced(SetPidPath(adm, s, ch, n).acts) && Balanced(GetPidPath(adm, s, ch).acts)
    ensures Balanced(EnChannelPath(adm, s, ch, a).acts) && Balanced(DisChannelPath(adm, s, ch, a).acts)
    ensures Balanced(RstChannelPath(adm, s, ch, a, b).acts)
    ensures Balanced(AllocFilterPath(adm, s, ch).acts) && Balanced(FreeFilterPath(adm, s, ch, n).acts)
    ensures Balanced(SetFilterPath(adm, s, ch, n, m).acts) && Balanced(GetFilterNumPath(adm, s, ch).acts)
  {
    PairBalanced(adm);
    hide Balanced, Lock, Unlock;
    EmptyBalanced();
  }

  lemma {:induction false} EmptyBalanced()
    ensures Balanced([])
  {
  }

  lemma {:induction false} SlotWrapped(acts: seq<Act>)
    requires Balanced(acts)
    ensures Disciplined([LockSlot] + acts + [UnlockSlot], false, false)
  {
    BalancedThen(acts, [UnlockSlot], true);
    var all := [LockSlot] + acts + [UnlockSlot];
    assert all[1..] == acts + [UnlockSlot];
  }

  /** From adv_dmx_alloc_filter on, slot_alloc only calls functions of dmx_adv.c before it unlocks. */
  lemma {:induction false} FilterPartShape(adm: bool, sys: Sys, env: AllocEnv, before: seq<Act>, ch: nat, isNew: bool,
                                           len: nat, enOk: bool) returns (inner: seq<Act>)
    requires Balanced(before)
    ensures Balanced(inner) && FilterPart(adm, sys, env, before, ch, isNew, len, enOk).acts == [LockSlot] + inner + [UnlockSlot]
  {
    var f := AllocFilterPath(adm, env.atFilter, ch);
    var g := SetFilterPath(adm, env.atSet, ch, f.ret, len);
    var e := EnChannelPath(adm, env.atEn, ch, enOk);
    var back := if isNew then FreeChannelPath(adm, env.atBack, ch).acts else EnChannelPath(adm, env.atBack, ch, enOk).acts;
    AdvPathsBalanced(adm, env.atFilter, ch, 0, 0, true, true);
    AdvPathsBalanced(adm, env.atSet, ch, f.ret, len, true, true);
    AdvPathsBalanced(adm, env.atEn, ch, 0, 0, enOk, true);
    AdvPathsBalanced(adm, env.atBack, ch, 0, 0, enOk, true);
    hide Balanced, AllocFilterPath, SetFilterPath, EnChannelPath, FreeChannelPath;
    var last := if f.ret == NO_ID || !g.ret then back else e.acts;
    inner := before + f.acts;
    BalancedConcat(before, f.acts);
    if f.ret != NO_ID {
      BalancedConcat(inner, g.acts);
      inner := inner + g.acts;
    }
    BalancedConcat(inner, last);
    inner := inner + last;
  }

  lemma {:induction false} SlotAllocShape(adm: bool, sys: Sys, env: AllocEnv, dmxId: nat, pid: nat, mask: seq<Byte>,
                                          value: seq<Byte>, len: nat, cb: nat, disOk: bool, enOk: bool) returns (inner: seq<Act>)
    requires sys.inited && len <= |mask| && len <= |value|
    ensures Balanced(inner)
    ensures SlotAllocPath(adm, sys, env, dmxId, pid, mask, value, len, cb, disOk, enOk).acts == [LockSlot] + inner + [UnlockSlot]
  {
    hide FilterPart, AllocChannelPath, SetPidPath, DisChannelPath, Balanced;
    var stream := FindStream(sys.slots, dmxId, pid);
    var c := AllocChannelPath(adm, env.atAlloc, dmxId, sys.crc, SLOT_CALLBACK);
    var p := SetPidPath(adm, env.atPid, c.ret, pid);
    AdvPathsBalanced(adm, env.atAlloc, dmxId, sys.crc, SLOT_CALLBACK, true, true);
    AdvPathsBalanced(adm, env.atPid, c.ret, pid, 0, true, true);
    BalancedConcat(c.acts, p.acts);
    if FindSame(sys.slots, dmxId, pid, mask, value, len) < |sys.slots| {
      EmptyBalanced();
      inner := [];
      assert [LockSlot] + inner + [UnlockSlot] == [LockSlot, UnlockSlot];
    } else if stream < |sys.slots| {
      var ch := sys.slots[stream].chId;
      AdvPathsBalanced(adm, env.atDis, ch, 0, 0, disOk, true);
      inner := FilterPartShape(adm, sys, env, DisChannelPath(adm, env.atDis, ch, disOk).acts, ch, false, len, enOk);
    } else if c.ret == NO_ID {
      inner := c.acts;
    } else if !p.ret {
      inner := c.acts + p.acts;
    } else {
      inner := FilterPartShape(adm, sys, env, c.acts + p.acts, c.ret, true, len, enOk);
    }
  }

  /** Whatever the section layer answers, and however others change it meanwhile, slot_alloc releases what
      it took on each of its eight return paths. */
  lemma {:induction false} SlotAllocDisciplined(adm: bool, sys: Sys, env: AllocEnv, dmxId: nat, pid: nat, mask: seq<Byte>,
                                                value: seq<Byte>, len: nat, cb: nat, disOk: bool, enOk: bool)
    requires len <= |mask| && len <= |value|
    ensures Disciplined(SlotAllocPath(adm, sys, env, dmxId, pid, mask, value, len, cb, disOk, enOk).acts, false, false)
  {
    if sys.inited {
      var inner := SlotAllocShape(adm, sys, env, dmxId, pid, mask, value, len, cb, disOk, enOk);
      SlotWrapped(inner);
      hide SlotAllocPath, Disciplined;
    }
  }

  lemma {:induction false} NothingDisciplined()
    ensures Disciplined([], false, false)
    ensures Disciplined([UnlockSlot], true, false)
  {
  }

  lemma {:induction false} DropBalanced(adm: bool, env: FreeEnv, ch: nat, flt: nat, closeOk: bool)
    ensures Balanced(DropActs(adm, env, ch, flt, closeOk))
  {
    AdvPathsBalanced(adm, env.atFree, ch, flt, 0, true, true);
    AdvPathsBalanced(adm, env.atNum, ch, 0, 0, true, true);
    AdvPathsBalanced(adm, env.atDis, ch, 0, 0, closeOk, true);
    AdvPathsBalanced(adm, env.atChannel, ch, 0, 0, true, true);
    hide Balanced, FreeFilterPath, GetFilterNumPath, DisChannelPath, FreeChannelPath;
    var f, n := FreeFilterPath(adm, env.atFree, ch, flt).acts, GetFilterNumPath(adm, env.atNum, ch).acts;
    var d, c := DisChannelPath(adm, env.atDis, ch, closeOk).acts, FreeChannelPath(adm, env.atChannel, ch).acts;
    BalancedConcat(f, n);
    BalancedConcat(f + n, d);
    BalancedConcat(f + n + d, c);
  }

  lemma {:induction false} FreeLoopShape(adm: bool, slots: seq<Slot>, env: nat -> FreeEnv, i: nat, slotId: int, cb: nat,
                                         closeOk: bool, ret: int) returns (inner: seq<Act>)
    requires i <= |slots|
    ensures Balanced(inner) && FreeLoop(adm, slots, env, i, slotId, cb, closeOk, ret).acts == inner + [UnlockSlot]
    decreases |slots| - i
  {
    EmptyBalanced();
    hide DropActs, Balanced;
    inner := [];
    if i < |slots| {
      if slots[i].slotId != slotId {
        inner := FreeLoopShape(adm, slots, env, i + 1, slotId, cb, closeOk, ret);
      } else if FindCb(slots[i].cbs, cb) < |slots[i].cbs| && AllNull(slots[i].cbs[FindCb(slots[i].cbs, cb) := 0]) {
        var rest := FreeLoopShape(adm, slots, env, i + 1, slotId, cb, closeOk, 0);
        var drop := DropActs(adm, env(i), slots[i].chId, slots[i].fltId, closeOk);
        DropBalanced(adm, env(i), slots[i].chId, slots[i].fltId, closeOk);
        BalancedConcat(drop, rest);
        inner := drop + rest;
        assert drop + (rest + [UnlockSlot]) == inner + [UnlockSlot];
      }
    }
  }

  /** So does slot_free, on each of its four. */
  lemma {:induction false} SlotFreeDisciplined(adm: bool, sys: Sys, env: nat -> FreeEnv, slotId: int, cb: nat, closeOk: bool)
    ensures Disciplined(SlotFreePath(adm, sys, env, slotId, cb, closeOk).acts, false, false)
  {
    if sys.inited {
      var inner := FreeLoopShape(adm, sys.slots, env, 0, slotId, cb, closeOk, -1);
      SlotWrapped(inner);
      hide FreeLoop, Disciplined;
      assert [LockSlot] + (inner + [UnlockSlot]) == [LockSlot] + inner + [UnlockSlot];
    }
  }

  // ----- what is locked -----

  /** The slot mutex is taken first, released last, and held all the time in between. */
  predicate Bracketed(acts: seq<Act>) {
    && |acts| >= 2 && acts[0] == LockSlot && acts[|acts|-1] == UnlockSlot
    && forall k :: 0 < k < |acts| - 1 ==> acts[k] != LockSlot && acts[k] != UnlockSlot
  }

  lemma {:induction false} BalancedIsAdvOnly(acts: seq<Act>)
    requires Balanced(acts)
    ensures LockSlot !in acts && UnlockSlot !in acts
  {
    if acts != [] {
      BalancedIsAdvOnly(acts[2..]);
      assert acts == [LockAdv, UnlockAdv] + acts[2..];
    }
  }

  lemma {:induction false} BalancedBracketed(acts: seq<Act>)
    requires Balanced(acts)
    ensures Bracketed([LockSlot] + acts + [UnlockSlot])
  {
    BalancedIsAdvOnly(acts);
    hide Balanced;
    assert forall k :: 0 < k <= |acts| ==> ([LockSlot] + acts + [UnlockSlot])[k] == acts[k-1] && acts[k-1] in acts;
  }

  /** Every path of slot_alloc on an initialised table, stray writes included, is inside the slot mutex from
      its first act to its last. */
  lemma {:induction false} SlotAllocBracketed(adm: bool, sys: Sys, env: AllocEnv, dmxId: nat, pid: nat, mask: seq<Byte>,
                                              value: seq<Byte>, len: nat, cb: nat, disOk: bool, enOk: bool)
    requires sys.inited && len <= |mask| && len <= |value|
    ensures Bracketed(SlotAllocPath(adm, sys, env, dmxId, pid, mask, value, len, cb, disOk, enOk).acts)
  {
    var inner := SlotAllocShape(adm, sys, env, dmxId, pid, mask, value, len, cb, disOk, enOk);
    BalancedBracketed(inner);
    hide SlotAllocPath, Bracketed;
  }

  /** And so is every path of slot_free. */
  lemma {:induction false} SlotFreeBracketed(adm: bool, sys: Sys, env: nat -> FreeEnv, slotId: int, cb: nat, closeOk: bool)
    requires sys.inited
    ensures Bracketed(SlotFreePath(adm, sys, env, slotId, cb, closeOk).acts)
  {
    var inner := FreeLoopShape(adm, sys.slots, env, 0, slotId, cb, closeOk, -1);
    BalancedBracketed(inner);
    hide FreeLoop, Balanced, Bracketed;
    assert [LockSlot] + (inner + [UnlockSlot]) == [LockSlot] + inner + [UnlockSlot];
  }

  /** What an adv_dmx function does to its mutex once its entry tests are passed. */
  function Once(adm: bool, entered: bool): seq<Act> {
    if entered && !adm then [LockAdv, UnlockAdv] else []
  }

  /** Past its entry tests every adv_dmx function takes the mutex exactly once; before them, and on the ADM
      task, not at all. */
  lemma {:induction false} AdvPathsLockOnce(adm: bool, s: Dmx, ch: nat, n: nat, m: nat, a: bool, b: bool)
    ensures AllocChannelPath(adm, s, ch, n, m).acts == Once(adm, s.initOk && m != 0)
    ensures var known := s.initOk && ch < |s.channels|;
      && FreeChannelPath(adm, s, ch).acts == Once(adm, known)
      && SetPidPath(adm, s, ch, n).acts == Once(adm, known && n != INVALID_PID)
      && GetPidPath(adm, s, ch).acts == Once(adm, known)
      && EnChannelPath(adm, s, ch, a).acts == Once(adm, known)
      && DisChannelPath(adm, s, ch, a).acts == Once(adm, known)
      && RstChannelPath(adm, s, ch, a, b).acts == Once(adm, known)
      && AllocFilterPath(adm, s, ch).acts == Once(adm, known)
      && FreeFilterPath(adm, s, ch, n).acts == Once(adm, known && n < MAX_MASK_NUM)
      && SetFilterPath(adm, s, ch, n, m).acts == Once(adm, known && n < MAX_MASK_NUM && m <= MAX_MASK_LEN)
      && GetFilterNumPath(adm, s, ch).acts == Once(adm, known)
  {
  }

  /** The adv_dmx mutex taken and released n times. */
  function Times(n: nat): (acts: seq<Act>)
    ensures |acts| == 2 * n && forall k :: 0 <= k < |acts| ==> acts[k] == if k % 2 == 0 then LockAdv else UnlockAdv
  {
    seq(2 * n, k => if k % 2 == 0 then LockAdv else UnlockAdv)
  }

  lemma {:induction false} OnceIsTimes()
    ensures Once(false, true) == Times(1) && Times(0) == []
  {
  }

  lemma {:induction false} TimesAdd(m: nat, n: nat)
    ensures Times(m) + Times(n) == Times(m + n)
  {
  }

  /** The section layer is up, with the same number of channels at each call. */
  predicate Up(env: AllocEnv, count: nat) {
    && UpAt(env.atAlloc, count) && UpAt(env.atPid, count) && UpAt(env.atDis, count) && UpAt(env.atFilter, count)
    && UpAt(env.atSet, count) && UpAt(env.atBack, count) && UpAt(env.atEn, count)
  }

  predicate UpAt(d: Dmx, count: nat) {
    d.initOk && |d.channels| == count
  }

  /** How many calls of the section layer slot_alloc makes from adv_dmx_alloc_filter on: two if that fails, the
      second to roll back, and three otherwise. */
  function PartCalls(env: AllocEnv, ch: nat): nat {
    if AllocFilter(env.atFilter, ch).1 == NO_ID then 2 else 3
  }

  lemma {:induction false} FilterPartLocks(sys: Sys, env: AllocEnv, before: nat, ch: nat, isNew: bool, len: nat, enOk: bool)
    requires Up(env, |env.atAlloc.channels|) && ch < |env.atAlloc.channels| && len <= MAX_MV_LEN
    ensures FilterPart(false, sys, env, Times(before), ch, isNew, len, enOk).acts
            == [LockSlot] + Times(before + PartCalls(env, ch)) + [UnlockSlot]
  {
    var f := AllocFilterPath(false, env.atFilter, ch);
    var g := SetFilterPath(false, env.atSet, ch, f.ret, len);
    assert f.ret == AllocFilter(env.atFilter, ch).1 && (f.ret == NO_ID || f.ret < MAX_MASK_NUM) by { FilterNumber(env.atFilter, ch); }
    hide AllocFilterPath, SetFilterPath, EnChannelPath, FreeChannelPath, AllocFilter, Times;
    AdvPathsLockOnce(false, env.atFilter, ch, 0, 0, true, true);
    AdvPathsLockOnce(false, env.atSet, ch, f.ret, len, true, true);
    AdvPathsLockOnce(false, env.atEn, ch, 0, 0, enOk, true);
    AdvPathsLockOnce(false, env.atBack, ch, 0, 0, enOk, true);
    OnceIsTimes();
    TimesAdd(before, 1);
    TimesAdd(before + 1, 1);
    TimesAdd(before + 2, 1);
    hide Once, Up;
  }

  lemma {:induction false} FilterNumber(d: Dmx, ch: nat)
    ensures AllocFilterPath(false, d, ch).ret == AllocFilter(d, ch).1
    ensures AllocFilterPath(false, d, ch).ret == NO_ID || AllocFilterPath(false, d, ch).ret < MAX_MASK_NUM
  {
  }

  /** Every path of slot_alloc takes the adv_dmx mutex once for each call it makes, roll-backs included, but for a
      set_pid that refuses the invalid pid at once. For a slot that is already there it needs the slot mutex only. */
  lemma {:induction false} SlotAllocLocks(sys: Sys, env: AllocEnv, dmxId: nat, pid: nat, mask: seq<Byte>, value: seq<Byte>,
                                          len: nat, cb: nat, disOk: bool, enOk: bool)
    requires sys.inited && len <= |mask| && len <= |value| && len <= MAX_MV_LEN && Up(env, |env.atAlloc.channels|)
    requires var stream := FindStream(sys.slots, dmxId, pid);
      stream < |sys.slots| ==> sys.slots[stream].chId < |env.atAlloc.channels|
    ensures var stream := FindStream(sys.slots, dmxId, pid);
      var ch := AllocChannel(env.atAlloc, dmxId, sys.crc, SLOT_CALLBACK).1;
      var n := if FindSame(sys.slots, dmxId, pid, mask, value, len) < |sys.slots| then 0
               else if stream < |sys.slots| then 1 + PartCalls(env, sys.slots[stream].chId)
               else if ch == NO_ID || pid == INVALID_PID then 1
               else if !SetPid(env.atPid, ch, pid).1 then 2
               else 2 + PartCalls(env, ch);
      SlotAllocPath(false, sys, env, dmxId, pid, mask, value, len, cb, disOk, enOk).acts == [LockSlot] + Times(n) + [UnlockSlot]
  {
    hide FilterPart, Times, PartCalls, AllocChannelPath, SetPidPath, DisChannelPath, AllocChannel, SetPid;
    var stream := FindStream(sys.slots, dmxId, pid);
    OnceIsTimes();
    TimesAdd(1, 1);
    assert [LockSlot] + Times(0) + [UnlockSlot] == [LockSlot, UnlockSlot];
    if stream < |sys.slots| {
      var ch := sys.slots[stream].chId;
      AdvPathsLockOnce(false, env.atDis, ch, 0, 0, disOk, true);
      FilterPartLocks(sys, env, 1, ch, false, len, enOk);
    } else {
      var c := AllocChannelPath(false, env.atAlloc, dmxId, sys.crc, SLOT_CALLBACK);
      OpenAnswers(env, dmxId, sys.crc, pid, c.ret);
      if c.ret != NO_ID { FilterPartLocks(sys, env, 2, c.ret, true, len, enOk); }
    }
    hide Once;
  }

  lemma {:induction false} OpenAnswers(env: AllocEnv, dmxId: nat, crc: nat, pid: nat, ch: nat)
    requires Up(env, |env.atAlloc.channels|)
    ensures var c := AllocChannelPath(false, env.atAlloc, dmxId, crc, SLOT_CALLBACK);
      && c.ret == AllocChannel(env.atAlloc, dmxId, crc, SLOT_CALLBACK).1 && c.acts == Once(false, true)
      && (c.ret != NO_ID ==> c.ret < |env.atAlloc.channels|)
    ensures var p := SetPidPath(false, env.atPid, ch, pid);
      && p.ret == SetPid(env.atPid, ch, pid).1 && (pid == INVALID_PID ==> !p.ret)
      && (ch < |env.atAlloc.channels| ==> p.acts == Once(false, pid != INVALID_PID))
  {
  }

  /** Taking a slot down locks once for each call: free_filter and get_filter_num, and for the last filter
      dis_channel and free_channel. */
  lemma {:induction false} DropLocks(env: FreeEnv, ch: nat, flt: nat, closeOk: bool)
    requires forall d :: d in [env.atFree, env.atNum, env.atDis, env.atChannel] ==> d.initOk && ch < |d.channels|
    requires flt < MAX_MASK_NUM
    ensures DropActs(false, env, ch, flt, closeOk) == Times(if GetFilterNum(env.atNum, ch) == 0 then 4 else 2)
  {
    AdvPathsLockOnce(false, env.atFree, ch, flt, 0, true, true);
    AdvPathsLockOnce(false, env.atNum, ch, 0, 0, true, true);
    AdvPathsLockOnce(false, env.atDis, ch, 0, 0, closeOk, true);
    AdvPathsLockOnce(false, env.atChannel, ch, 0, 0, true, true);
    OnceIsTimes();
    TimesAdd(1, 1);
    TimesAdd(2, 1);
    TimesAdd(3, 1);
    hide Times;
  }

  // ----- calls -----

  /** A call of one of the two APIs, with the states it finds; slot_callback, slot_get_pid and the section
      getters take no mutex. */
  datatype ApiCall =
    | Lockless
    | AllocChannelCall(s: Dmx, dmxId: nat, crcEn: nat, cb: nat)
    | FreeChannelCall(s: Dmx, ch: nat)
    | SetPidCall(s: Dmx, ch: nat, pid: nat)
    | GetPidCall(s: Dmx, ch: nat)
    | EnChannelCall(s: Dmx, ch: nat, hwOk: bool)
    | DisChannelCall(s: Dmx, ch: nat, hwOk: bool)
    | RstChannelCall(s: Dmx, ch: nat, closeOk: bool, reqOk: bool)
    | AllocFilterCall(s: Dmx, ch: nat)
    | FreeFilterCall(s: Dmx, ch: nat, flt: nat)
    | SetFilterCall(s: Dmx, ch: nat, flt: nat, len: nat)
    | GetFilterNumCall(s: Dmx, ch: nat)
    | SlotAllocCall(sys: Sys, env: AllocEnv, dmxId: nat, pid: nat, mask: seq<Byte>, value: seq<Byte>, len: nat, cb: nat,
                    disOk: bool, enOk: bool)
    | SlotFreeCall(sys: Sys, envs: nat -> FreeEnv, slotId: int, cb: nat, closeOk: bool)

  function AdvTrace(adm: bool, c: ApiCall): seq<Act> {
    match c
    case AllocChannelCall(s, dmxId, crcEn, cb) => AllocChannelPath(adm, s, dmxId, crcEn, cb).acts
    case FreeChannelCall(s, ch) => FreeChannelPath(adm, s, ch).acts
    case SetPidCall(s, ch, pid) => SetPidPath(adm, s, ch, pid).acts
    case GetPidCall(s, ch) => GetPidPath(adm, s, ch).acts
    case EnChannelCall(s, ch, hwOk) => EnChannelPath(adm, s, ch, hwOk).acts
    case DisChannelCall(s, ch, hwOk) => DisChannelPath(adm, s, ch, hwOk).acts
    case RstChannelCall(s, ch, closeOk, reqOk) => RstChannelPath(adm, s, ch, closeOk, reqOk).acts
    case AllocFilterCall(s, ch) => AllocFilterPath(adm, s, ch).acts
    case FreeFilterCall(s, ch, flt) => FreeFilterPath(adm, s, ch, flt).acts
    case SetFilterCall(s, ch, flt, len) => SetFilterPath(adm, s, ch, flt, len).acts
    case GetFilterNumCall(s, ch) => GetFilterNumPath(adm, s, ch).acts
    case _ => []
  }

  function Trace(adm: bool, c: ApiCall): seq<Act> {
    match c
    case SlotAllocCall(sys, env, dmxId, pid, mask, value, len, cb, disOk, enOk) =>
      if len <= |mask| && len <= |value|
      then SlotAllocPath(adm, sys, env, dmxId, pid, mask, value, len, cb, disOk, enOk).acts else []
    case SlotFreeCall(sys, envs, slotId, cb, closeOk) => SlotFreePath(adm, sys, envs, slotId, cb, closeOk).acts
    case _ => AdvTrace(adm, c)
  }

  lemma {:induction false} AdvTraceBalanced(adm: bool, c: ApiCall)
    ensures Balanced(AdvTrace(adm, c))
  {
    EmptyBalanced();
    match c
    case AllocChannelCall(s, dmxId, crcEn, cb) => AdvPathsBalanced(adm, s, dmxId, crcEn, cb, true, true);
    case FreeChannelCall(s, ch) => AdvPathsBalanced(adm, s, ch, 0, 0, true, true);
    case SetPidCall(s, ch, pid) => AdvPathsBalanced(adm, s, ch, pid, 0, true, true);
    case GetPidCall(s, ch) => AdvPathsBalanced(adm, s, ch, 0, 0, true, true);
    case EnChannelCall(s, ch, hwOk) => AdvPathsBalanced(adm, s, ch, 0, 0, hwOk, true);
    case DisChannelCall(s, ch, hwOk) => AdvPathsBalanced(adm, s, ch, 0, 0, hwOk, true);
    case RstChannelCall(s, ch, closeOk, reqOk) => AdvPathsBalanced(adm, s, ch, 0, 0, closeOk, reqOk);
    case AllocFilterCall(s, ch) => AdvPathsBalanced(adm, s, ch, 0, 0, true, true);
    case FreeFilterCall(s, ch, flt) => AdvPathsBalanced(adm, s, ch, flt, 0, true, true);
    case SetFilterCall(s, ch, flt, len) => AdvPathsBalanced(adm, s, ch, flt, len, true, true);
    case GetFilterNumCall(s, ch) => AdvPathsBalanced(adm, s, ch, 0, 0, true, true);
    case _ =>
  }

  /** Every call path of every function, early returns included, releases what it took and takes slot
      before adv. */
  lemma {:induction false} CallsAreDisciplined(adm: bool, c: ApiCall)
    ensures Disciplined(Trace(adm, c), false, false)
  {
    NothingDisciplined();
    AdvTraceBalanced(adm, c);
    BalancedThen(AdvTrace(adm, c), [], false);
    assert AdvTrace(adm, c) + [] == AdvTrace(adm, c);
    hide Disciplined, Balanced, AdvTrace, SlotAllocPath, SlotFreePath;
    match c
    case SlotAllocCall(sys, env, dmxId, pid, mask, value, len, cb, disOk, enOk) =>
      if len <= |mask| && len <= |value| {
        SlotAllocDisciplined(adm, sys, env, dmxId, pid, mask, value, len, cb, disOk, enOk);
      }
    case SlotFreeCall(sys, envs, slotId, cb, closeOk) => SlotFreeDisciplined(adm, sys, envs, slotId, cb, closeOk);
    case _ =>
  }

  // ----- threads -----

  /** A thread and what is left of its current call. */
  datatype Thread = Thread(adm: bool, rest: seq<Act>)
  datatype State = State(threads: seq<Thread>, slot: Option<nat>, adv: Option<nat>)

  datatype Step = Start(i: nat, call: ApiCall) | Run(i: nat)

  predicate Enabled(s: State, st: Step) {
    st.i < |s.threads| &&
    match st
    case Start(i, _) => s.threads[i].rest == []
    case Run(i) =>
      s.threads[i].rest != [] &&
      match s.threads[i].rest[0]
      case LockSlot => s.slot.None?
      case LockAdv => s.adv.None?
      case UnlockSlot => s.slot == Some(i)
      case UnlockAdv => s.adv == Some(i)
  }

  function Apply(s: State, st: Step): State
    requires Enabled(s, st)
  {
    match st
    case Start(i, call) => s.(threads := s.threads[i := s.threads[i].(rest := Trace(s.threads[i].adm, call))])
    case Run(i) =>
      var t := s.threads[i];
      var s' := s.(threads := s.threads[i := t.(rest := t.rest[1..])]);
      match t.rest[0]
      case LockSlot => s'.(slot := Some(i))
      case LockAdv => s'.(adv := Some(i))
      case UnlockSlot => s'.(slot := None)
      case UnlockAdv => s'.(adv := None)
  }

  ghost predicate AllDisciplined(s: State) {
    && (s.slot.Some? ==> s.slot.value < |s.threads|) && (s.adv.Some? ==> s.adv.value < |s.threads|)
    && forall i :: 0 <= i < |s.threads| ==> Disciplined(s.threads[i].rest, s.slot == Some(i), s.adv == Some(i))
  }

  lemma {:induction false} StepDisciplined(s: State, st: Step)
    requires AllDisciplined(s) && Enabled(s, st)
    ensures AllDisciplined(Apply(s, st))
  {
    hide Trace;
    if st.Start? {
      CallsAreDisciplined(s.threads[st.i].adm, st.call);
    }
    var s' := Apply(s, st);
    forall i | 0 <= i < |s'.threads|
      ensures Disciplined(s'.threads[i].rest, s'.slot == Some(i), s'.adv == Some(i))
    {
      assert Disciplined(s.threads[i].rest, s.slot == Some(i), s.adv == Some(i));
    }
  }

  ghost predicate IsRun(ss: seq<State>, sts: seq<Step>) {
    |ss| == |sts| + 1 && forall i :: 0 <= i < |sts| ==> Enabled(ss[i], sts[i]) && ss[i+1] == Apply(ss[i], sts[i])
  }

  lemma {:induction false} RunDisciplined(ss: seq<State>, sts: seq<Step>, k: nat)
    requires IsRun(ss, sts) && AllDisciplined(ss[0]) && k < |ss|
    ensures AllDisciplined(ss[k])
  {
    hide Apply, AllDisciplined;
    if k > 0 {
      RunDisciplined(ss, sts, k - 1);
      StepDisciplined(ss[k-1], sts[k-1]);
    }
  }

  // ----- one thread at a time -----

  /** Of the two acts, the next one left is `unlock`: the thread stands between its lock and its unlock. */
  predicate Inside(rest: seq<Act>, lock: Act, unlock: Act) {
    rest != [] && (rest[0] == unlock || (rest[0] != lock && Inside(rest[1..], lock, unlock)))
  }

  lemma {:induction false} InsideHolds(rest: seq<Act>, slot: bool, adv: bool)
    requires Disciplined(rest, slot, adv)
    ensures Inside(rest, LockSlot, UnlockSlot) ==> slot
    ensures Inside(rest, LockAdv, UnlockAdv) ==> adv
  {
    if rest != [] {
      match rest[0]
      case LockSlot => InsideHolds(rest[1..], true, adv);
      case UnlockSlot => InsideHolds(rest[1..], false, adv);
      case LockAdv => InsideHolds(rest[1..], slot, true);
      case UnlockAdv => InsideHolds(rest[1..], slot, false);
    }
  }

  /** In every reachable state at most one thread stands between taking and releasing the slot mutex, and at
      most one between taking and releasing the adv_dmx mutex. */
  lemma {:induction false} OneAtATime(ss: seq<State>, sts: seq<Step>, k: nat, i: nat, j: nat, lock: Act, unlock: Act)
    requires IsRun(ss, sts) && AllDisciplined(ss[0]) && k < |ss| && i < |ss[k].threads| && j < |ss[k].threads|
    requires (lock == LockSlot && unlock == UnlockSlot) || (lock == LockAdv && unlock == UnlockAdv)
    requires Inside(ss[k].threads[i].rest, lock, unlock) && Inside(ss[k].threads[j].rest, lock, unlock)
    ensures i == j
  {
    RunDisciplined(ss, sts, k);
    var s := ss[k];
    InsideHolds(s.threads[i].rest, s.slot == Some(i), s.adv == Some(i));
    InsideHolds(s.threads[j].rest, s.slot == Some(j), s.adv == Some(j));
  }

  // ----- nobody waits in a circle -----

  /** Thread i wants a mutex that thread j holds. */
  predicate WaitsFor(s: State, i: nat, j: nat) {
    i < |s.threads| && s.threads[i].rest != [] &&
    match s.threads[i].rest[0]
    case LockSlot => s.slot == Some(j)
    case LockAdv => s.adv == Some(j)
    case _ => false
  }

  function Rank(s: State, i: nat): nat {
    if i >= |s.threads| || s.threads[i].rest == [] then 0
    else match s.threads[i].rest[0]
      case LockSlot => 2
      case LockAdv => 1
      case _ => 0
  }

  lemma {:induction false} WaitingDescends(s: State, i: nat, j: nat)
    requires AllDisciplined(s) && WaitsFor(s, i, j)
    ensures Rank(s, j) < Rank(s, i)
  {
    assert Disciplined(s.threads[j].rest, s.slot == Some(j), s.adv == Some(j));
  }

  lemma {:induction false} ChainDescends(s: State, chain: seq<nat>, k: nat)
    requires AllDisciplined(s) && 0 < k < |chain|
    requires forall a :: 0 <= a < |chain| - 1 ==> WaitsFor(s, chain[a], chain[a+1])
    ensures Rank(s, chain[k]) < Rank(s, chain[0])
  {
    WaitingDescends(s, chain[k-1], chain[k]);
    if k > 1 {
      ChainDescends(s, chain, k - 1);
    }
  }

  /** In every reachable state the wait-for relation has no cycle of any length. */
  lemma {:induction false} NoDeadlock(ss: seq<State>, sts: seq<Step>, k: nat, cycle: seq<nat>)
    requires IsRun(ss, sts) && AllDisciplined(ss[0]) && k < |ss| && |cycle| > 1
    ensures !(cycle[0] == cycle[|cycle|-1] && forall a :: 0 <= a < |cycle| - 1 ==> WaitsFor(ss[k], cycle[a], cycle[a+1]))
  {
    RunDisciplined(ss, sts, k);
    if forall a :: 0 <= a < |cycle| - 1 ==> WaitsFor(ss[k], cycle[a], cycle[a+1]) {
      ChainDescends(ss[k], cycle, |cycle| - 1);
    }
  }

  /** And some thread that is inside a call can always go on. */
  lemma {:induction false} SomeoneCanRun(s: State, i: nat) returns (j: nat)
    requires AllDisciplined(s) && i < |s.threads| && s.threads[i].rest != []
    ensures j < |s.threads| && s.threads[j].rest != [] && Enabled(s, Run(j))
    decreases Rank(s, i)
  {
    assert Disciplined(s.threads[i].rest, s.slot == Some(i), s.adv == Some(i));
    var blocker := match s.threads[i].rest[0]
      case LockSlot => s.slot
      case LockAdv => s.adv
      case _ => None;
    match blocker
    case None => j := i;
    case Some(b) =>
      assert Disciplined(s.threads[b].rest, s.slot == Some(b), s.adv == Some(b));
      WaitingDescends(s, i, b);
      j := SomeoneCanRun(s, b);
  }

  /** Threads outside any call are where a run starts. */
  lemma {:induction false} IdleThreads(s: State)
    requires s.slot.None? && s.adv.None? && forall i :: 0 <= i < |s.threads| ==> s.threads[i].rest == []
    ensures AllDisciplined(s)
  {
  }

  // ----- why the locking in the ADM task is commented out -----

  /** Had the ADM task held the adv_dmx mutex around a callback that takes the slot mutex, two threads
      could wait for each other. */
  lemma {:induction false} LockedCallbackWouldDeadlock()
    ensures
      var adm := Thread(true, [LockSlot, UnlockSlot, UnlockAdv]);
      var api := Thread(false, [LockAdv, UnlockAdv, UnlockSlot]);
      var s := State([adm, api], Some(1), Some(0));
      && WaitsFor(s, 0, 1) && WaitsFor(s, 1, 0) && (forall i :: !Enabled(s, Run(i)))
      && !Disciplined([LockAdv] + adm.rest, false, false) && Disciplined([LockSlot] + api.rest, false, false)
  {
    var a: seq<Act> := [LockAdv] + [LockSlot, UnlockSlot, UnlockAdv];
    assert a[1..][0] == LockSlot;
    var b: seq<Act> := [LockSlot] + [LockAdv, UnlockAdv, UnlockSlot];
    assert b[1..] == [LockAdv, UnlockAdv, UnlockSlot] && b[1..][1..] == [UnlockAdv, UnlockSlot];
    assert b[1..][1..][1..] == [UnlockSlot] && b[1..][1..][1..][1..] == [];
    assert Disciplined(b[1..][1..][1..], true, false);
    assert Disciplined(b[1..][1..], true, true);
  }
}
