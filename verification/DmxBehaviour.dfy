/** What single operations of dmx_adv.c achieve in a well-formed state. */
module DmxBehaviour {
  import opened Select
  import opened DmxState
  import opened DmxInvariant

  // ----- selective retrieval -----

  /** k is the earliest queued section of the channel, or the earliest of one filter. */
  ghost predicate Earliest(s: Dmx, ch: nat, flt: nat, specific: bool, k: nat)
    requires ch < |s.channels|
  {
    var q := s.channels[ch].secList;
    && k < |q|
    && if specific then NodeAt(s.nodes, q[k]).fltId == flt && forall j :: 0 <= j < k ==> NodeAt(s.nodes, q[j]).fltId != flt
       else k == 0
  }

  lemma {:induction false} TargetIsEarliest(s: Dmx, ch: nat, flt: nat, specific: bool, k: nat)
    requires Wf(s) && ch < |s.channels|
    ensures Earliest(s, ch, flt, specific, k) ==> Target(s, ch, flt, specific) == k
    ensures Target(s, ch, flt, specific) < |s.channels[ch].secList|
            ==> Earliest(s, ch, flt, specific, Target(s, ch, flt, specific))
  {
    var c := s.channels[ch];
    assert ChannelOk(c, ch, s.nodes);
    var keys := Keys(c.secList, s.nodes);
    assert forall j :: 0 <= j < |keys| ==> keys[j] == NodeAt(s.nodes, c.secList[j]).fltId;
    if specific {
      if Earliest(s, ch, flt, specific, k) {
        assert c.secList[k] in c.secList;
        assert FilterLive(c, flt);
        FirstAtUnique(keys, flt, k);
      }
    }
  }

  lemma {:induction false} FirstAtUnique(keys: seq<nat>, flt: nat, k: nat)
    requires k < |keys| && keys[k] == flt && forall j :: 0 <= j < k ==> keys[j] != flt
    ensures FirstAt(keys, flt) == k
  {
  }

  /** The outcome of retrieving the section at position k of the queue. */
  ghost predicate Removes(s: Dmx, ch: nat, flt: nat, specific: bool, k: nat, r: Retrieved)
    requires ch < |s.channels| && k < |s.channels[ch].secList|
  {
    var q, n := s.channels[ch].secList, s.channels[ch].secList[k];
    && GetSec(s, ch, flt, specific) == Some(n)
    && r.bytes == NodeAt(s.nodes, n).data && r.len == |r.bytes| && r.fltOut == NodeAt(s.nodes, n).fltId
    && r.s == s.(free := s.free + [n],
                 channels := s.channels[ch := s.channels[ch].(secList := q[..k] + q[k+1..])])
  }

  /** retrieve_sec succeeds exactly when some section qualifies and its length is within (0, maxLen].
      It then copies out the earliest one, removes exactly the node get_sec peeked, keeps the order of
      all others and returns the node to the tail of the free list. A failed call changes nothing, but for
      the length and the filter id it reports: those of the earliest section even when it is too long. */
  lemma {:induction false} RetrieveIsEarliest(s: Dmx, ch: nat, flt: nat, maxLen: nat, specific: bool)
    requires Wf(s)
    ensures var r := RetrieveSec(s, ch, flt, maxLen, specific);
      && (r.ok <==> Usable(s, ch) && exists k: nat ::
            Earliest(s, ch, flt, specific, k) && 0 < |NodeAt(s.nodes, s.channels[ch].secList[k]).data| <= maxLen)
      && (!r.ok ==> r.s == s && r.bytes == [])
      && (r.ok ==> exists k: nat :: Earliest(s, ch, flt, specific, k) && Removes(s, ch, flt, specific, k, r))
      && (!Usable(s, ch) || (forall k: nat :: !Earliest(s, ch, flt, specific, k)) ==> r.len == 0 && r.fltOut == flt)
      && (Usable(s, ch) ==> forall k: nat :: Earliest(s, ch, flt, specific, k) ==>
            var sec := NodeAt(s.nodes, s.channels[ch].secList[k]); r.len == |sec.data| && r.fltOut == sec.fltId)
  {
    var r := RetrieveSec(s, ch, flt, maxLen, specific);
    if Usable(s, ch) {
      var c := s.channels[ch];
      var t := Target(s, ch, flt, specific);
      forall k | Earliest(s, ch, flt, specific, k)
        ensures t == k
      {
        TargetIsEarliest(s, ch, flt, specific, k);
      }
      TargetIsEarliest(s, ch, flt, specific, t);
    }
  }

  /** Asking for one filter finds nothing exactly when no section of that filter is queued: thanks to
      the invariant, the enable test never hides a section. */
  lemma {:induction false} SpecificGetMisses(s: Dmx, ch: nat, flt: nat)
    requires Wf(s) && Usable(s, ch)
    ensures GetSec(s, ch, flt, true).None?
            <==> forall n :: n in s.channels[ch].secList ==> NodeAt(s.nodes, n).fltId != flt
  {
    var c := s.channels[ch];
    assert ChannelOk(c, ch, s.nodes);
    var keys := Keys(c.secList, s.nodes);
    if n :| n in c.secList && NodeAt(s.nodes, n).fltId == flt {
      assert FilterLive(c, flt);
      var i :| 0 <= i < |c.secList| && c.secList[i] == n;
      assert keys[i] == flt;
    }
  }

  // ----- filters as a set -----

  /** The numbers from 0 to n-1. */
  function Below(n: nat): (r: set<nat>)
    ensures forall x: nat :: x in r <==> x < n
    ensures |r| == n
  {
    if n == 0 then {} else Below(n-1) + {n-1}
  }

  lemma {:induction false} SubsetSize(a: set<nat>, b: set<nat>)
    requires a <= b
    ensures |a| <= |b|
    ensures |a| == |b| ==> a == b
  {
    var d := b - a;
    assert b == a + d;
    assert |b| == |a| + |d|;
  }

  lemma {:induction false} ChannelIsOk(s: Dmx, ch: nat)
    requires Wf(s) && ch < |s.channels|
    ensures ChannelOk(s.channels[ch], ch, s.nodes)
  {
  }

  lemma {:induction false} LeastIs(flts: set<nat>)
    requires forall f :: f in flts ==> f < MAX_MASK_NUM
    ensures var i := LeastUnset(flts, 0);
      && |flts| <= MAX_MASK_NUM && (i == MAX_MASK_NUM <==> |flts| == MAX_MASK_NUM)
      && (i < MAX_MASK_NUM ==> i !in flts && Below(i) <= flts && |flts + {i}| == |flts| + 1)
  {
    hide LeastUnset, Below;
    var i := LeastUnset(flts, 0);
    SubsetSize(flts, Below(MAX_MASK_NUM));
    if i < MAX_MASK_NUM {
      assert i in Below(MAX_MASK_NUM) && flts != Below(MAX_MASK_NUM);
    } else {
      SubsetSize(Below(MAX_MASK_NUM), flts);
    }
  }

  /** alloc_filter returns the least number whose bit is unset and adds only it; it fails exactly when
      get_filter_num is 32. */
  lemma {:induction false} AllocFilterLeast(s: Dmx, ch: nat)
    requires Wf(s)
    ensures !Usable(s, ch) ==> AllocFilter(s, ch) == (s, NO_ID)
    ensures Usable(s, ch) ==> var (s', i) := AllocFilter(s, ch);
      var flts := s.channels[ch].flts;
      && GetFilterNum(s, ch) <= MAX_MASK_NUM
      && (i == NO_ID <==> GetFilterNum(s, ch) == MAX_MASK_NUM)
      && (i == NO_ID ==> s' == s)
      && (i != NO_ID ==> i < MAX_MASK_NUM && i !in flts && Below(i) <= flts)
      && (i != NO_ID ==> s' == s.(channels := s.channels[ch := s.channels[ch].(flts := flts + {i})]))
      && (i != NO_ID ==> GetFilterNum(s', ch) == GetFilterNum(s, ch) + 1)
  {
    hide Wf, LeastUnset, Below;
    if Usable(s, ch) {
      assert ChannelOk(s.channels[ch], ch, s.nodes) by { ChannelIsOk(s, ch); }
      LeastIs(s.channels[ch].flts);
      hide ChannelOk;
    }
  }

  /** free_filter takes back what alloc_filter did, to the last field. */
  lemma {:induction false} FreeUndoesAlloc(s: Dmx, ch: nat)
    requires Wf(s) && AllocFilter(s, ch).1 != NO_ID
    ensures var (s', i) := AllocFilter(s, ch);
      FreeFilter(s', ch, i) == (s, true)
  {
    var (s', i) := AllocFilter(s, ch);
    var c := s.channels[ch];
    assert ChannelOk(c, ch, s.nodes);
    var keys := Keys(c.secList, s.nodes);
    forall j | 0 <= j < |keys|
      ensures keys[j] != i
    {
      assert c.secList[j] in c.secList;
    }
    NoneSelected(c.secList, keys, i);
    var s1 := FlushFilter(s', ch, i);
    assert s1.free == s.free + [] == s.free;
    assert s1.channels[ch] == s'.channels[ch];
    assert c.flts + {i} - {i} == c.flts && c.maskEn - {i} == c.maskEn;
    assert s1.channels[ch := c] == s.channels;
  }

  ghost predicate FilterGone(s: Dmx, s': Dmx, ch: nat, flt: nat)
    requires ch < |s.channels| == |s'.channels|
  {
    var c, c' := s.channels[ch], s'.channels[ch];
    var keys := Keys(c.secList, s.nodes);
    && c' == c.(flts := c.flts - {flt}, maskEn := c.maskEn - {flt}, secList := c'.secList)
    && s' == s.(free := s'.free, channels := s.channels[ch := c'])
    && c'.secList == Skipped(c.secList, keys, flt) && s'.free == s.free + Picked(c.secList, keys, flt)
    && (forall n :: n in c'.secList <==> n in c.secList && NodeAt(s.nodes, n).fltId != flt)
  }

  /** free_filter disables the filter, moves exactly its sections, in order, to the free list, and keeps
      the order of all others. It lowers get_filter_num by one. */
  lemma {:induction false} FreeFilterExact(s: Dmx, ch: nat, flt: nat)
    requires Wf(s)
    ensures var (s', ok) := FreeFilter(s, ch, flt);
      && (ok <==> Usable(s, ch) && flt in s.channels[ch].flts)
      && (!ok ==> s' == s)
      && (ok ==> FilterGone(s, s', ch, flt) && GetFilterNum(s', ch) == GetFilterNum(s, ch) - 1)
  {
    if Usable(s, ch) {
      assert ChannelOk(s.channels[ch], ch, s.nodes);
      FlushFilterParts(s.channels[ch], s.nodes, flt);
    }
  }

  // ----- channels -----

  /** alloc_channel fails exactly when one of its five tests fails, and then changes nothing. Otherwise the
      first idle channel, blank but for device, number, callback, crc flag and working buffer, is what changes,
      with the first free node. */
  lemma {:induction false} AllocChannelFails(s: Dmx, dmxId: nat, crcEn: nat, cb: nat)
    requires Wf(s)
    ensures var (s', i) := AllocChannel(s, dmxId, crcEn, cb);
      && (i == NO_ID <==> !s.initOk || cb == 0 || (forall j :: 0 <= j < |s.channels| ==> s.channels[j].isAllocated)
                          || dmxId >= TOT_DMX_NUM || !s.devs[dmxId] || s.free == [])
      && (i == NO_ID ==> s' == s)
      && (i != NO_ID ==> Usable(s', i) && !s.channels[i].isAllocated && !s'.channels[i].isEnabled
                         && s'.channels[i].flts == {} && s'.channels[i].secList == []
                         && forall j :: 0 <= j < |s.channels| && j != i ==> s'.channels[j] == s.channels[j])
      && (i != NO_ID ==> && (forall j :: 0 <= j < i ==> s.channels[j].isAllocated)
                         && s' == s.(free := s.free[1..], channels := s.channels[i := s'.channels[i]])
                         && s'.channels[i] == Channel(INVALID_PID, crcEn, {}, {}, ZeroRows(), ZeroRows(), [], Some(s.free[0]),
                                                      cb, dmxId, i, true, false))
  {
    var j := FirstIdle(s.channels);
    if j < |s.channels| {
      assert ChannelOk(s.channels[j], j, s.nodes);
    }
  }

  /** free_channel directly after alloc_channel restores every channel up to the remembered callback,
      and moves the working buffer from the head to the tail of the free list. */
  lemma {:induction false} FreeUndoesAllocChannel(s: Dmx, dmxId: nat, crcEn: nat, cb: nat)
    requires Wf(s) && AllocChannel(s, dmxId, crcEn, cb).1 != NO_ID
    ensures var (s', i) := AllocChannel(s, dmxId, crcEn, cb);
      FreeChannel(s', i) == (s.(free := s.free[1..] + [s.free[0]],
                                channels := s.channels[i := s.channels[i].(appCb := cb)]), true)
  {
    var (s', i) := AllocChannel(s, dmxId, crcEn, cb);
    assert ChannelOk(s.channels[i], i, s.nodes);
    var s1 := Flush(s', i);
    assert s1.free == s'.free + [] == s.free[1..];
    assert InitChannel(s1.channels[i]) == s.channels[i].(appCb := cb);
    assert s1.channels[i := InitChannel(s1.channels[i])] == s.channels[i := s.channels[i].(appCb := cb)];
  }

  // ----- switching a channel -----

  /** Enabling succeeds exactly on a disabled channel and a granted request. It lets in exactly the
      sections of enabled filters, and disabling takes it back to the last field. */
  lemma {:induction false} EnableLetsIn(s: Dmx, ch: nat, hwOk: bool, flt: nat)
    requires Wf(s)
    ensures var (s', ok) := EnChannel(s, ch, hwOk);
      && (ok <==> Usable(s, ch) && !s.channels[ch].isEnabled && hwOk)
      && (!ok ==> s' == s)
      && (ok ==> !Accepts(s, ch, flt) && (Accepts(s', ch, flt) <==> flt in s.channels[ch].maskEn))
      && (ok ==> DisChannel(s', ch, true) == (s, true))
  {
    if Usable(s, ch) {
      assert ChannelOk(s.channels[ch], ch, s.nodes);
      assert s.channels[ch := s.channels[ch].(isEnabled := true)][ch := s.channels[ch]] == s.channels;
    }
  }

  /** Disabling succeeds exactly on an enabled channel that closes. It shuts out every section and the
      ADM task, but what is queued can still be retrieved, and enabling takes it back. */
  lemma {:induction false} DisableShutsOut(s: Dmx, ch: nat, hwOk: bool, flt: nat, specific: bool, log: seq<Call>, accept: Answer)
    requires Wf(s)
    ensures var (s', ok) := DisChannel(s, ch, hwOk);
      && (ok <==> Usable(s, ch) && s.channels[ch].isEnabled && hwOk)
      && (!ok ==> s' == s)
      && (ok ==> !Accepts(s', ch, flt) && AdmChannel(s', ch, log, accept) == (s', log))
      && (ok ==> GetSec(s', ch, flt, specific) == GetSec(s, ch, flt, specific))
      && (ok ==> EnChannel(s', ch, true) == (s, true))
  {
    if Usable(s, ch) {
      assert s.channels[ch := s.channels[ch].(isEnabled := false)][ch := s.channels[ch]] == s.channels;
    }
  }

  /** Nothing of the channel's queue is left; its nodes, in order, are behind the old free list. Whatever
      else the channel holds is as it was, but for its pid, which is `pid` now; so it accepts what it
      accepted before. */
  ghost predicate Flushed(s: Dmx, s': Dmx, ch: nat, pid: nat)
    requires ch < |s.channels|
  {
    && |s'.channels| == |s.channels| && s'.nodes == s.nodes
    && s'.initOk == s.initOk && s'.devs == s.devs && s'.loose == s.loose
    && (forall flt: nat, specific :: GetSec(s', ch, flt, specific).None?)
    && (forall flt: nat :: Accepts(s', ch, flt) <==> Accepts(s, ch, flt))
    && s'.channels[ch] == s.channels[ch].(pid := pid, secList := [])
    && s'.free == s.free + s.channels[ch].secList
    && (forall j :: 0 <= j < |s.channels| && j != ch ==> s'.channels[j] == s.channels[j])
  }

  /** A pid that is set is the pid that is read; both calls flush the queue and touch nothing else. */
  lemma {:induction false} SetThenGetPid(s: Dmx, ch: nat, pid: nat)
    requires Wf(s)
    ensures var (s', ok) := SetPid(s, ch, pid);
      && (ok <==> Usable(s, ch) && pid != INVALID_PID && !s.channels[ch].isEnabled)
      && (if ok then Flushed(s, s', ch, pid) && GetPid(s', ch) == (s', pid) else s' == s)
    ensures if Usable(s, ch) then Flushed(s, GetPid(s, ch).0, ch, s.channels[ch].pid) && GetPid(s, ch).1 == s.channels[ch].pid
            else GetPid(s, ch) == (s, INVALID_PID)
  {
    var (s', ok) := SetPid(s, ch, pid);
    if ok {
      assert Flush(s', ch) == s' by {
        assert s'.free + [] == s'.free && s'.channels[ch := s'.channels[ch]] == s'.channels;
      }
    }
  }

  /** A reset flushes the queue, and touches nothing else, unless a running channel will not close; if it does
      not start again, it stays marked as enabled, so a later enable is refused. */
  lemma {:induction false} ResetOutcomes(s: Dmx, ch: nat, closeOk: bool, reqOk: bool, hwOk: bool)
    requires Wf(s)
    ensures var (s', ok) := RstChannel(s, ch, closeOk, reqOk);
      && (ok <==> Usable(s, ch) && (!s.channels[ch].isEnabled || (closeOk && reqOk)))
      && (if !Usable(s, ch) || (s.channels[ch].isEnabled && !closeOk) then s' == s
          else Flushed(s, s', ch, s.channels[ch].pid))
      && (Usable(s, ch) && s.channels[ch].isEnabled ==> EnChannel(s', ch, hwOk) == (s', false))
  {
  }

  // ----- adv_dmx_quit -----

  lemma {:induction false} FreeFiltersLeavesNone(s: Dmx, ch: nat, j: nat)
    requires Wf(s) && Usable(s, ch) && j <= MAX_MASK_NUM && forall f :: f in s.channels[ch].flts ==> j <= f
    ensures var r := FreeFilters(s, ch, j);
      && Wf(r) && Usable(r, ch) && r.channels[ch].flts == {}
      && r.channels[ch].isEnabled == s.channels[ch].isEnabled
      && r.nodes == s.nodes && r.loose == s.loose && r.channels == s.channels[ch := r.channels[ch]]
      && r.channels[ch] == s.channels[ch].(flts := {}, maskEn := {}, secList := r.channels[ch].secList)
    decreases MAX_MASK_NUM - j
  {
    assert ChannelOk(s.channels[ch], ch, s.nodes);
    if j < MAX_MASK_NUM {
      if j in s.channels[ch].flts {
        FreeFilterWf(s, ch, j);
        FreeFiltersLeavesNone(FreeFilter(s, ch, j).0, ch, j + 1);
      } else {
        FreeFiltersLeavesNone(s, ch, j + 1);
      }
    }
  }

  /** A channel after adv_dmx_quit: blank, unless it is enabled and does not close; then it stays allocated and
      enabled, without filters and sections. */
  function AfterQuit(c: Channel, closeOk: bool): Channel {
    if c.isAllocated && c.isEnabled && !closeOk then c.(flts := {}, maskEn := {}, secList := []) else InitChannel(c)
  }

  lemma {:induction false} QuitChannelFrees(s: Dmx, i: nat, closeOk: bool)
    requires Wf(s) && s.initOk && i < |s.channels|
    ensures var r := QuitChannel(s, i, closeOk);
      && Wf(r) && r.initOk && r.nodes == s.nodes && r.loose == s.loose && |r.channels| == |s.channels|
      && (forall j :: 0 <= j < |s.channels| && j != i ==> r.channels[j] == s.channels[j])
      && r.channels[i] == AfterQuit(s.channels[i], closeOk)
  {
    assert ChannelOk(s.channels[i], i, s.nodes);
    if s.channels[i].isAllocated {
      EnDisWf(s, i, closeOk);
      var s1 := if s.channels[i].isEnabled then DisChannel(s, i, closeOk).0 else s;
      FreeFiltersLeavesNone(s1, i, 0);
      var s2 := FreeFilters(s1, i, 0);
      FreeChannelWf(s2, i);
      assert ChannelOk(s2.channels[i], i, s2.nodes);
      EmptyQueue(s2.channels[i], i, s2.nodes);
      if s2.channels[i].isEnabled {
        assert FreeChannel(s2, i).0 == s2;
      } else {
        assert FreeChannel(s2, i).0.channels == s2.channels[i := InitChannel(s2.channels[i])];
      }
    }
  }

  lemma {:induction false} QuitLoopFrees(s: Dmx, i: nat, closeOk: nat -> bool)
    requires Wf(s) && s.initOk && i <= |s.channels|
    ensures var r := QuitLoop(s, i, closeOk);
      && Wf(r) && r.nodes == s.nodes && r.loose == s.loose && |r.channels| == |s.channels|
      && (forall j :: 0 <= j < i ==> r.channels[j] == s.channels[j])
      && (forall j :: i <= j < |s.channels| ==>
            r.channels[j] == AfterQuit(s.channels[j], closeOk(j)))
    decreases |s.channels| - i
  {
    if i < |s.channels| {
      QuitChannelFrees(s, i, closeOk(i));
      QuitLoopFrees(QuitChannel(s, i, closeOk(i)), i + 1, closeOk);
    }
  }

  lemma {:induction false} CountIdle(cs: seq<Channel>, n: nat)
    requires forall i :: 0 <= i < |cs| ==> cs[i].secList == [] && cs[i].wkBuf.None?
    ensures CountIn(cs, n) == 0
  {
    if cs != [] { CountIdle(cs[1..], n); }
  }

  /** The quit loop leaves every channel blank, or, where the hardware does not close it, without filters and
      sections. So it unallocates every channel exactly when the hardware closes every enabled one; all nodes
      of the arena that were not loose are then back on the free list, each once. */
  lemma {:induction false} QuitReclaims(s: Dmx, closeOk: nat -> bool)
    requires Wf(s) && s.initOk
    ensures var r := QuitLoop(s, 0, closeOk);
      && |r.channels| == |s.channels|
      && (forall i :: 0 <= i < |s.channels| ==> r.channels[i] == AfterQuit(s.channels[i], closeOk(i)))
      && ((forall i :: 0 <= i < |r.channels| ==> !r.channels[i].isAllocated)
          <==> forall i :: 0 <= i < |s.channels| && s.channels[i].isAllocated && s.channels[i].isEnabled ==> closeOk(i))
      && ((forall i :: 0 <= i < |r.channels| ==> !r.channels[i].isAllocated)
          ==> forall n: nat :: multiset(r.free)[n] + multiset(s.loose)[n] == if n < |s.nodes| then 1 else 0)
  {
    QuitLoopFrees(s, 0, closeOk);
    var r := QuitLoop(s, 0, closeOk);
    if forall i :: 0 <= i < |r.channels| ==> !r.channels[i].isAllocated {
      forall n: nat
        ensures multiset(r.free)[n] + multiset(s.loose)[n] == if n < |s.nodes| then 1 else 0
      {
        assert Total(r, n) == if n < |r.nodes| then 1 else 0;
        forall i | 0 <= i < |r.channels|
          ensures r.channels[i].secList == [] && r.channels[i].wkBuf.None?
        {
          assert ChannelOk(r.channels[i], i, r.nodes);
        }
        CountIdle(r.channels, n);
      }
    }
  }

  // ----- one pass of the ADM task -----

  predicate On(c: Channel) {
    c.isAllocated && c.isEnabled
  }

  /** A channel after the ADM task has called back for it, starting at call number `calls`. */
  function AfterAdm(c: Channel, nodes: seq<Section>, i: nat, calls: nat, accept: Answer): Channel {
    if On(c)
    then c.(secList := c.secList[AcceptedPrefix(c.secList, nodes, i, calls, accept)..]) else c
  }

  /** The calls made for it. */
  function AdmCalls(c: Channel, nodes: seq<Section>, i: nat, calls: nat, accept: Answer): seq<Call> {
    if On(c)
    then CallsFor(c.secList, nodes, i, AcceptedPrefix(c.secList, nodes, i, calls, accept)) else []
  }

  /** One pass, channel by channel: what the log looks like at channel i decides, by the call number,
      which prefix the callback accepts there; nothing else about channel i changes, and no call for
      channel i is made at any other point of the pass. */
  lemma {:induction false} AdmPassPerChannel(s: Dmx, from: nat, log: seq<Call>, accept: Answer, i: nat)
    returns (before: seq<Call>, after: seq<Call>)
    requires from <= i < |s.channels|
    ensures var (s', log') := AdmPass(s, from, log, accept);
      && log' == log + before + AdmCalls(s.channels[i], s.nodes, i, |log + before|, accept) + after
      && (forall c :: c in before + after ==> c.ch != i)
      && |s'.channels| == |s.channels| && s'.nodes == s.nodes
      && s'.channels[i] == AfterAdm(s.channels[i], s.nodes, i, |log + before|, accept)
    decreases i - from
  {
    var (s1, log1) := AdmChannel(s, from, log, accept);
    var mine := AdmCalls(s.channels[from], s.nodes, from, |log|, accept);
    assert log1 == log + mine;
    if from == i {
      before := [];
      assert log + before == log;
      after := AdmPassLater(s1, from + 1, log1, accept, i);
    } else {
      var b;
      b, after := AdmPassPerChannel(s1, from + 1, log1, accept, i);
      before := mine + b;
      assert log + before == log1 + b;
    }
  }

  /** Channels behind the cursor are left alone. */
  lemma {:induction false} AdmPassLater(s: Dmx, from: nat, log: seq<Call>, accept: Answer, i: nat)
    returns (after: seq<Call>)
    requires i < from <= |s.channels|
    ensures var (s', log') := AdmPass(s, from, log, accept);
      && log' == log + after && (forall c :: c in after ==> c.ch != i)
      && |s'.channels| == |s.channels| && s'.nodes == s.nodes && s'.channels[i] == s.channels[i]
    decreases |s.channels| - from
  {
    if from == |s.channels| {
      after := [];
    } else {
      var (s1, log1) := AdmChannel(s, from, log, accept);
      var a := AdmPassLater(s1, from + 1, log1, accept, i);
      after := AdmCalls(s.channels[from], s.nodes, from, |log|, accept) + a;
    }
  }
}
