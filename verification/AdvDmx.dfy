/** dmx_adv.c as it runs: the globals are the fields of one object, updated in place. Each method is
    proved to compute the transition of the same name in DmxState, and to keep the invariant. */
module AdvDmx {
  import opened Bytes
  import opened Select
  import opened DmxState
  import opened DmxInvariant
  import opened DmxBehaviour

  class AdvDmx {
    var initOk: bool
    var devs: seq<bool>
    var free: seq<nat>
    var nodes: array<Section>
    var channels: array<Channel>

    ghost function State(): Dmx
      reads this, nodes, channels
    {
      Dmx(initOk, devs, free, nodes[..], channels[..], [])
    }

    ghost predicate Valid()
      reads this, nodes, channels
    {
      nodes as object != channels && Wf(State())
    }

    /** adv_dmx_init once the arena is carved into maxChannels records and nodeCount nodes. */
    constructor (maxChannels: nat, nodeCount: nat, devs: seq<bool>)
      requires 0 < maxChannels < NO_ID && 2 <= nodeCount && |devs| == TOT_DMX_NUM
      ensures Valid() && fresh(nodes) && fresh(channels)
      ensures initOk == devs[0] && this.devs == devs
      ensures nodes.Length == nodeCount && channels.Length == maxChannels
      ensures free == seq(nodeCount, i => i)
      ensures forall i :: 0 <= i < maxChannels ==> !channels[i].isAllocated
    {
      this.initOk := devs[0];
      this.devs := devs;
      this.free := [];
      this.nodes := new Section[nodeCount];
      var blank := Channel(0, 0, {}, {}, [], [], [], None, 0, 0, 0, false, false);
      this.channels := new Channel[maxChannels](_ => blank);
      new;
      for i := 0 to maxChannels
        invariant free == [] && this.devs == devs && initOk == devs[0]
        invariant fresh(nodes) && fresh(channels) && nodes.Length == nodeCount && channels.Length == maxChannels
        invariant forall j :: 0 <= j < i ==> channels[j] == InitChannel(channels[j])
      {
        channels[i] := InitChannel(channels[i]);
      }
      for k := 0 to nodeCount
        invariant free == seq(k, i => i) && this.devs == devs && initOk == devs[0]
        invariant fresh(nodes) && fresh(channels) && nodes.Length == nodeCount && channels.Length == maxChannels
        invariant forall j :: 0 <= j < maxChannels ==> channels[j] == InitChannel(channels[j])
      {
        free := free + [k];
      }
      InitialWf(State());
    }

    /** while(NULL != (node = node_get(list))) node_return(node, free) */
    method FlushQueue(ch: nat)
      requires ch < channels.Length
      modifies this`free, channels
      ensures State() == Flush(old(State()), ch)
    {
      while channels[ch].secList != []
        invariant Flush(State(), ch) == Flush(old(State()), ch)
        decreases |channels[ch].secList|
      {
        FlushStep(State(), ch);
        var c := channels[ch];
        var node := c.secList[0];
        channels[ch] := c.(secList := c.secList[1..]);
        free := free + [node];
      }
      FlushDone(State(), ch);
    }

    /** node_get_one, as an index into the queue */
    method FindFirst(ch: nat, flt: nat) returns (k: nat)
      requires ch < channels.Length
      ensures k == FirstAt(Keys(channels[ch].secList, nodes[..]), flt)
    {
      var q := channels[ch].secList;
      ghost var keys := Keys(q, nodes[..]);
      k := 0;
      while k < |q| && (if q[k] < nodes.Length then nodes[q[k]].fltId else 0) != flt
        invariant k <= |q| && forall j :: 0 <= j < k ==> keys[j] != flt
      {
        k := k + 1;
      }
      assert k < |q| ==> keys[k] == flt;
    }

    /** while(NULL != (node = node_get_one(list, flt))) node_return(node, free) */
    method FlushOneFilter(ch: nat, flt: nat)
      requires ch < channels.Length
      modifies this`free, channels
      ensures State() == FlushFilter(old(State()), ch, flt)
    {
      var k := FindFirst(ch, flt);
      while k < |channels[ch].secList|
        invariant FlushFilter(State(), ch, flt) == FlushFilter(old(State()), ch, flt)
        invariant k == FirstAt(Keys(channels[ch].secList, nodes[..]), flt)
        decreases |channels[ch].secList|
      {
        FlushFilterStep(State(), ch, flt);
        var c := channels[ch];
        channels[ch] := c.(secList := Without(c.secList, k));
        free := free + [c.secList[k]];
        k := FindFirst(ch, flt);
      }
      FlushFilterDone(State(), ch, flt);
    }

    /** adv_dmx_get_sec */
    method GetSec(ch: nat, flt: nat, specific: bool) returns (node: Option<nat>)
      requires Valid()
      ensures node == DmxState.GetSec(State(), ch, flt, specific)
    {
      node := None;
      if initOk && ch < channels.Length && channels[ch].isAllocated {
        var c := channels[ch];
        var k := |c.secList|;
        if !specific {
          k := 0;
        } else if flt < MAX_MASK_NUM && flt in c.flts && flt in c.maskEn {
          k := FindFirst(ch, flt);
        }
        if k < |c.secList| {
          node := Some(c.secList[k]);
        }
      }
    }

    /** adv_dmx_rel_sec */
    method RelSec(ch: nat, flt: nat, specific: bool) returns (ok: bool)
      requires Valid()
      modifies this`free, channels
      ensures (State(), ok) == DmxState.RelSec(old(State()), ch, flt, specific)
      ensures Valid()
    {
      RelSecWf(State(), ch, flt, specific);
      ok := false;
      if initOk && ch < channels.Length && channels[ch].isAllocated {
        var c := channels[ch];
        var k := |c.secList|;
        if !specific {
          k := 0;
        } else if flt < MAX_MASK_NUM && flt in c.flts && flt in c.maskEn {
          k := FindFirst(ch, flt);
        }
        if k < |c.secList| {
          channels[ch] := c.(secList := Without(c.secList, k));
          free := free + [c.secList[k]];
          ok := true;
        }
      }
    }

    /** MEMCPY to the front of a buffer */
    static method CopyOut(buf: array<Byte>, data: seq<Byte>)
      requires |data| <= buf.Length
      modifies buf
      ensures buf[..] == data + old(buf[..])[|data|..]
    {
      for i := 0 to |data|
        invariant forall j :: 0 <= j < i ==> buf[j] == data[j]
        invariant forall j :: i <= j < buf.Length ==> buf[j] == old(buf[j])
      {
        buf[i] := data[i];
      }
    }

    /** adv_dmx_retrieve_sec: the bytes go to the caller's buffer. */
    method RetrieveSec(ch: nat, flt: nat, buf: array<Byte>, maxLen: nat, specific: bool)
      returns (ok: bool, len: nat, fltOut: nat)
      requires Valid()
      requires maxLen <= buf.Length && buf as object != channels && buf as object != nodes
      modifies this`free, channels, buf
      ensures var r := DmxState.RetrieveSec(old(State()), ch, flt, maxLen, specific);
        && (State(), ok, len, fltOut) == (r.s, r.ok, r.len, r.fltOut)
        && (ok ==> len == |r.bytes| && buf[..] == r.bytes + old(buf[..])[len..])
        && (!ok ==> buf[..] == old(buf[..]))
      ensures Valid()
    {
      RetrieveIsEarliest(State(), ch, flt, maxLen, specific);
      ok, len, fltOut := false, 0, flt;
      var peeked := GetSec(ch, flt, specific);
      if peeked.Some? {
        assert ChannelOk(channels[ch], ch, nodes[..]);
        var sec := nodes[peeked.value];
        len := |sec.data|;
        if !specific {
          fltOut := sec.fltId;
        }
        if 0 < len <= maxLen {
          CopyOut(buf, sec.data);
          ok := RelSec(ch, fltOut, specific);
        }
      }
    }

    /** adv_dmx_sec_cb: the driver reports a section for the channel record at index i. */
    method SecCb(i: nat, flt: nat, data: seq<Byte>)
      requires Valid() && i < channels.Length && |data| <= SEC_BUF_LEN
      modifies this`free, nodes, channels
      ensures State() == DmxState.SecCb(old(State()), i, flt, data)
      ensures Valid()
    {
      SecCbWf(State(), i, flt, data);
      var c := channels[i];
      if initOk && c.chNum < channels.Length && flt < MAX_MASK_NUM && c.isAllocated && c.isEnabled
         && flt in c.flts && flt in c.maskEn
      {
        if free != [] {
          var n := free[0];
          FreeNotQueued(State(), i, n);
          free := free[1..];
          nodes[n] := Section(flt, data);
          channels[i] := c.(secList := c.secList + [n]);
        }
      }
    }

    /** One round of the inner loop of adv_dmx_task: the callback sees the head; on success the head is
        popped and returned. */
    method AdmCallback(i: nat, log: seq<Call>, accept: Answer) returns (log': seq<Call>, accepted: bool)
      requires Valid() && i < channels.Length
      requires channels[i].isAllocated && channels[i].isEnabled && channels[i].secList != []
      modifies this`free, channels
      ensures var s, sec := old(State()), NodeAt(old(nodes[..]), old(channels[i].secList[0]));
        && accepted == accept(|log|, i, sec)
        && log' == log + [Call(i, sec, accepted)]
        && State() == (if accepted then ReturnAt(s, i, 0) else s)
        && (if accepted then DmxState.AdmChannel(State(), i, log', accept) == DmxState.AdmChannel(s, i, log, accept)
            else (State(), log') == DmxState.AdmChannel(s, i, log, accept))
      ensures Valid()
    {
      QueuedInArena(State(), i);
      var c := channels[i];
      var node := c.secList[0];
      assert node in c.secList && Without(c.secList, 0) == c.secList[1..];
      var sec := nodes[node];
      accepted := accept(|log|, i, sec);
      log' := log + [Call(i, sec, accepted)];
      if accepted {
        AdmChannelAccepted(State(), i, log, accept);
        ReturnAtWf(State(), i, 0);
        var popped := channels[i].secList[0];
        channels[i] := c.(secList := c.secList[1..]);
        if popped == node {
          free := free + [popped];
        }
        assert State() == ReturnAt(old(State()), i, 0);
      } else {
        AdmChannelRefused(State(), i, log, accept);
      }
    }

    /** The inner loop for one channel: peek, call back, and pop on success. */
    method AdmChannel(i: nat, log: seq<Call>, accept: Answer) returns (log': seq<Call>)
      requires Valid() && i < channels.Length
      modifies this`free, channels
      ensures (State(), log') == DmxState.AdmChannel(old(State()), i, log, accept)
      ensures Valid()
    {
      AdmChannelWf(State(), i, log, accept);
      log' := log;
      if channels[i].isAllocated && channels[i].isEnabled {
        while channels[i].secList != []
          invariant Valid() && channels[i].isAllocated && channels[i].isEnabled
          invariant DmxState.AdmChannel(State(), i, log', accept) == DmxState.AdmChannel(old(State()), i, log, accept)
          decreases |channels[i].secList|
        {
          var accepted;
          log', accepted := AdmCallback(i, log', accept);
          if !accepted {
            return;
          }
        }
        AdmChannelDone(State(), i, log', accept);
      }
    }

    /** One pass of adv_dmx_task over all channels. */
    method AdmPass(log: seq<Call>, accept: Answer) returns (log': seq<Call>)
      requires Valid()
      modifies this`free, channels
      ensures (State(), log') == DmxState.AdmPass(old(State()), 0, log, accept)
      ensures Valid()
    {
      log' := log;
      for i := 0 to channels.Length
        invariant Valid()
        invariant DmxState.AdmPass(State(), i, log', accept) == DmxState.AdmPass(old(State()), 0, log, accept)
      {
        log' := AdmChannel(i, log', accept);
      }
    }

    /** adv_dmx_alloc_channel */
    method AllocChannel(dmxId: nat, crcEn: nat, cb: nat) returns (i: nat)
      requires Valid()
      modifies this`free, channels
      ensures (State(), i) == DmxState.AllocChannel(old(State()), dmxId, crcEn, cb)
      ensures Valid()
    {
      AllocChannelWf(State(), dmxId, crcEn, cb);
      i := NO_ID;
      if !initOk || cb == 0 {
        return;
      }
      i := 0;
      while i < channels.Length && channels[i].isAllocated
        invariant i <= channels.Length && forall j :: 0 <= j < i ==> channels[j].isAllocated
      {
        i := i + 1;
      }
      FirstIdleUnique(channels[..], i);
      if i == channels.Length {
        i := NO_ID;
      } else if dmxId >= TOT_DMX_NUM || !devs[dmxId] {
        i := NO_ID;
      } else if free == [] {
        i := NO_ID;
      } else {
        var wkBuf := free[0];
        free := free[1..];
        channels[i] := channels[i].(crcFlag := crcEn, appCb := cb, isAllocated := true, devNum := dmxId,
                                    chNum := i, wkBuf := Some(wkBuf));
      }
    }

    /** adv_dmx_free_channel; the ASSERT on a missing working buffer cannot fire. */
    method FreeChannel(ch: nat) returns (ok: bool)
      requires Valid()
      modifies this`free, channels
      ensures (State(), ok) == DmxState.FreeChannel(old(State()), ch)
      ensures Valid()
    {
      FreeChannelWf(State(), ch);
      ok := false;
      if initOk && ch < channels.Length && channels[ch].isAllocated && !channels[ch].isEnabled {
        assert ChannelOk(channels[ch], ch, nodes[..]);
        FlushQueue(ch);
        var c := channels[ch];
        assert c.wkBuf.Some?;
        free := free + [c.wkBuf.value];
        channels[ch] := InitChannel(c);
        ok := true;
      }
    }

    /** adv_dmx_set_pid */
    method SetPid(ch: nat, pid: nat) returns (ok: bool)
      requires Valid()
      modifies this`free, channels
      ensures (State(), ok) == DmxState.SetPid(old(State()), ch, pid)
      ensures Valid()
    {
      SetPidWf(State(), ch, pid);
      ok := false;
      if initOk && ch < channels.Length && pid != INVALID_PID {
        if channels[ch].isAllocated && !channels[ch].isEnabled {
          FlushQueue(ch);
          channels[ch] := channels[ch].(pid := pid);
          ok := true;
        }
      }
    }

    /** adv_dmx_get_pid */
    method GetPid(ch: nat) returns (pid: nat)
      requires Valid()
      modifies this`free, channels
      ensures (State(), pid) == DmxState.GetPid(old(State()), ch)
      ensures Valid()
    {
      pid := INVALID_PID;
      if initOk && ch < channels.Length && channels[ch].isAllocated {
        FlushWf(State(), ch);
        FlushQueue(ch);
        pid := channels[ch].pid;
      }
    }

    /** adv_dmx_en_channel */
    method EnChannel(ch: nat, hwOk: bool) returns (ok: bool)
      requires Valid()
      modifies channels
      ensures (State(), ok) == DmxState.EnChannel(old(State()), ch, hwOk)
      ensures Valid()
    {
      EnDisWf(State(), ch, hwOk);
      ok := false;
      if initOk && ch < channels.Length && channels[ch].isAllocated && !channels[ch].isEnabled && hwOk {
        channels[ch] := channels[ch].(isEnabled := true);
        ok := true;
      }
    }

    /** adv_dmx_dis_channel */
    method DisChannel(ch: nat, hwOk: bool) returns (ok: bool)
      requires Valid()
      modifies channels
      ensures (State(), ok) == DmxState.DisChannel(old(State()), ch, hwOk)
      ensures Valid()
    {
      EnDisWf(State(), ch, hwOk);
      ok := false;
      if initOk && ch < channels.Length && channels[ch].isAllocated && channels[ch].isEnabled && hwOk {
        channels[ch] := channels[ch].(isEnabled := false);
        ok := true;
      }
    }

    /** adv_dmx_rst_channel */
    method RstChannel(ch: nat, closeOk: bool, reqOk: bool) returns (ok: bool)
      requires Valid()
      modifies this`free, channels
      ensures (State(), ok) == DmxState.RstChannel(old(State()), ch, closeOk, reqOk)
      ensures Valid()
    {
      ok := false;
      if initOk && ch < channels.Length && channels[ch].isAllocated {
        var needRestart := channels[ch].isEnabled;
        if needRestart && !closeOk {
          return;
        }
        FlushWf(State(), ch);
        FlushQueue(ch);
        if needRestart && !reqOk {
          return;
        }
        ok := true;
      }
    }

    /** adv_dmx_alloc_filter */
    method AllocFilter(ch: nat) returns (i: nat)
      requires Valid()
      modifies channels
      ensures (State(), i) == DmxState.AllocFilter(old(State()), ch)
      ensures Valid()
    {
      AllocFilterWf(State(), ch);
      i := NO_ID;
      if initOk && ch < channels.Length && channels[ch].isAllocated {
        var c := channels[ch];
        i := 0;
        while i < MAX_MASK_NUM && i in c.flts
          invariant i <= MAX_MASK_NUM && forall j :: 0 <= j < i ==> j in c.flts
        {
          i := i + 1;
        }
        if i < MAX_MASK_NUM {
          channels[ch] := c.(flts := c.flts + {i});
        } else {
          i := NO_ID;
        }
      }
    }

    /** adv_dmx_free_filter; the ASSERT on an enabled filter that is not allocated cannot fire. */
    method FreeFilter(ch: nat, flt: nat) returns (ok: bool)
      requires Valid()
      modifies this`free, channels
      ensures (State(), ok) == DmxState.FreeFilter(old(State()), ch, flt)
      ensures Valid()
    {
      FreeFilterWf(State(), ch, flt);
      ok := false;
      if initOk && ch < channels.Length && flt < MAX_MASK_NUM && channels[ch].isAllocated {
        if flt in channels[ch].flts {
          var c := channels[ch];
          channels[ch] := c.(flts := c.flts - {flt}, maskEn := c.maskEn - {flt});
          FlushOneFilter(ch, flt);
          ok := true;
          assert State().channels == DmxState.FreeFilter(old(State()), ch, flt).0.channels;
        } else {
          assert ChannelOk(channels[ch], ch, nodes[..]);
          assert flt !in channels[ch].maskEn;
        }
      }
    }

    /** adv_dmx_set_filter */
    method SetFilter(ch: nat, flt: nat, mask: seq<Byte>, value: seq<Byte>, len: nat) returns (ok: bool)
      requires Valid() && len <= |mask| && len <= |value|
      modifies this`free, channels
      ensures (State(), ok) == DmxState.SetFilter(old(State()), ch, flt, mask, value, len)
      ensures Valid()
    {
      SetFilterWf(State(), ch, flt, mask, value, len);
      ok := false;
      if initOk && ch < channels.Length && flt < MAX_MASK_NUM && len <= MAX_MASK_LEN && channels[ch].isAllocated
         && flt in channels[ch].flts
      {
        assert ChannelOk(channels[ch], ch, nodes[..]);
        var c := channels[ch];
        channels[ch] := c.(maskEn := c.maskEn - {flt});
        FlushOneFilter(ch, flt);
        c := channels[ch];
        channels[ch] := c.(mask := c.mask[flt := Padded(mask, len)], value := c.value[flt := Padded(value, len)],
                           maskEn := c.maskEn + {flt});
        ok := true;
        assert old(channels[ch]).maskEn - {flt} + {flt} == old(channels[ch]).maskEn + {flt};
        assert State().channels == DmxState.SetFilter(old(State()), ch, flt, mask, value, len).0.channels;
      }
    }

    /** adv_dmx_get_filter_num */
    method GetFilterNum(ch: nat) returns (num: int)
      requires Valid()
      ensures num == DmxState.GetFilterNum(State(), ch)
    {
      if !initOk || ch >= channels.Length {
        return -1;
      }
      num := 0;
      if channels[ch].isAllocated {
        var flts := channels[ch].flts;
        assert ChannelOk(channels[ch], ch, nodes[..]);
        for i := 0 to MAX_MASK_NUM
          invariant num == CountBits(flts, i)
        {
          if i in flts {
            num := num + 1;
          }
        }
        CountBitsIsSize(flts, MAX_MASK_NUM);
      }
    }

    /** adv_dmx_get_free_ch_num */
    method GetFreeChNum() returns (num: int)
      ensures num == DmxState.GetFreeChNum(State())
    {
      if !initOk {
        return -1;
      }
      num := 0;
      for i := 0 to channels.Length
        invariant num == IdleCount(channels[..i])
      {
        assert channels[..i+1][..i] == channels[..i];
        if !channels[i].isAllocated {
          num := num + 1;
        }
      }
      assert channels[..channels.Length] == channels[..];
    }

    /** The filter loop of adv_dmx_quit */
    method FreeFilters(ch: nat)
      requires Valid() && initOk && ch < channels.Length && channels[ch].isAllocated
      modifies this`free, channels
      ensures State() == DmxState.FreeFilters(old(State()), ch, 0)
      ensures Valid()
    {
      for j := 0 to MAX_MASK_NUM
        invariant Valid()
        invariant DmxState.FreeFilters(State(), ch, j) == DmxState.FreeFilters(old(State()), ch, 0)
      {
        if j in channels[ch].flts {
          var _ := FreeFilter(ch, j);
        }
      }
    }

    /** The channel loop body of adv_dmx_quit; closeOk is the answer of IO_ASYNC_CLOSE. */
    method QuitChannel(i: nat, closeOk: bool)
      requires Valid() && initOk && i < channels.Length && channels[i].isAllocated
      modifies this`free, channels
      ensures State() == DmxState.QuitChannel(old(State()), i, closeOk)
      ensures Valid() && initOk
      ensures forall j :: i < j < channels.Length ==> channels[j] == old(channels[j])
    {
      QuitChannelFrees(State(), i, closeOk);
      if channels[i].isEnabled {
        var _ := DisChannel(i, closeOk);
      }
      FreeFilters(i);
      var _ := FreeChannel(i);
    }

    /** adv_dmx_quit: the loops, then the device list and the channel array are dropped; `answers` are
        the results of IO_ASYNC_CLOSE per channel. */
    method Quit(answers: nat -> bool) returns (allFree: bool)
      requires Valid()
      modifies this, channels
      ensures allFree <==> old(initOk) && forall c :: c in old(channels[..]) ==> !c.isAllocated
      ensures old(initOk) ==> State() == QuitLoop(old(State()), 0, answers).(
                                           initOk := false, devs := [false, false, false], channels := [])
      ensures !old(initOk) ==> State() == old(State())
    {
      hide Wf, DmxState.FreeFilters, DmxState.FreeChannel, DmxState.DisChannel;
      allFree := false;
      if !initOk {
        return;
      }
      allFree := true;
      for i := 0 to channels.Length
        invariant Valid() && initOk && nodes == old(nodes) && channels == old(channels)
        invariant QuitLoop(State(), i, answers) == QuitLoop(old(State()), 0, answers)
        invariant forall j :: i <= j < channels.Length ==> channels[j] == old(channels[j])
        invariant allFree <==> forall j :: 0 <= j < i ==> !old(channels[j]).isAllocated
      {
        if channels[i].isAllocated {
          allFree := false;
          QuitChannel(i, answers(i));
        }
      }
      initOk := false;
      devs := [false, false, false];
      channels := new Channel[0];
    }
  }

  lemma {:induction false} QueuedInArena(s: Dmx, i: nat)
    requires Wf(s) && i < |s.channels|
    ensures forall n :: n in s.channels[i].secList ==> n < |s.nodes|
  {
    assert ChannelOk(s.channels[i], i, s.nodes);
  }

  lemma {:induction false} FlushStep(s: Dmx, ch: nat)
    requires ch < |s.channels| && s.channels[ch].secList != []
    ensures Flush(s, ch) == Flush(ReturnAt(s, ch, 0), ch)
  {
    var q := s.channels[ch].secList;
    assert q == [q[0]] + q[1..];
    assert Without(q, 0) == q[1..];
    assert s.free + q == s.free + [q[0]] + q[1..];
  }

  lemma {:induction false} FlushDone(s: Dmx, ch: nat)
    requires ch < |s.channels| && s.channels[ch].secList == []
    ensures Flush(s, ch) == s
  {
    assert s.channels[ch := s.channels[ch]] == s.channels && s.free + [] == s.free;
  }

  /** Each round of the filter flush leaves the same work to be done. */
  lemma {:induction false} FlushFilterStep(s: Dmx, ch: nat, flt: nat)
    requires ch < |s.channels|
    requires FirstAt(Keys(s.channels[ch].secList, s.nodes), flt) < |s.channels[ch].secList|
    ensures FlushFilter(s, ch, flt)
            == FlushFilter(ReturnAt(s, ch, FirstAt(Keys(s.channels[ch].secList, s.nodes), flt)), ch, flt)
  {
    var q := s.channels[ch].secList;
    var keys := Keys(q, s.nodes);
    var k := FirstAt(keys, flt);
    TakeFirst(q, keys, flt);
    assert Keys(Without(q, k), s.nodes) == Without(keys, k);
    var rest := Picked(Without(q, k), Without(keys, k), flt);
    assert s.free + ([q[k]] + rest) == s.free + [q[k]] + rest;
  }

  lemma {:induction false} FlushFilterDone(s: Dmx, ch: nat, flt: nat)
    requires ch < |s.channels| && FirstAt(Keys(s.channels[ch].secList, s.nodes), flt) == |s.channels[ch].secList|
    ensures FlushFilter(s, ch, flt) == s
  {
    NoneSelected(s.channels[ch].secList, Keys(s.channels[ch].secList, s.nodes), flt);
    assert s.channels[ch := s.channels[ch]] == s.channels && s.free + [] == s.free;
  }

  /** A round of the ADM task on an accepted section leaves the same work to be done. */
  lemma {:induction false} AdmChannelAccepted(s: Dmx, i: nat, log: seq<Call>, accept: Answer)
    requires i < |s.channels| && s.channels[i].isAllocated && s.channels[i].isEnabled && s.channels[i].secList != []
    requires accept(|log|, i, NodeAt(s.nodes, s.channels[i].secList[0]))
    ensures AdmChannel(s, i, log, accept)
            == AdmChannel(ReturnAt(s, i, 0), i, log + [Call(i, NodeAt(s.nodes, s.channels[i].secList[0]), true)], accept)
  {
    var q := s.channels[i].secList;
    var k := AcceptedPrefix(q[1..], s.nodes, i, |log| + 1, accept);
    assert AcceptedPrefix(q, s.nodes, i, |log|, accept) == k + 1;
    PopFrontStep(s, i, k);
    LogStep(log, q, s.nodes, i, k);
    assert ReturnAt(s, i, 0).channels[i].secList == q[1..] by { assert Without(q, 0) == q[1..]; }
  }

  /** A refused section ends the loop and stays. */
  lemma {:induction false} AdmChannelRefused(s: Dmx, i: nat, log: seq<Call>, accept: Answer)
    requires i < |s.channels| && s.channels[i].isAllocated && s.channels[i].isEnabled && s.channels[i].secList != []
    requires !accept(|log|, i, NodeAt(s.nodes, s.channels[i].secList[0]))
    ensures AdmChannel(s, i, log, accept) == (s, log + [Call(i, NodeAt(s.nodes, s.channels[i].secList[0]), false)])
  {
    var q := s.channels[i].secList;
    assert AcceptedPrefix(q, s.nodes, i, |log|, accept) == 0;
    PopNone(s, i);
    assert CallsFor(q, s.nodes, i, 0) == [Call(i, NodeAt(s.nodes, q[0]), false)];
  }

  lemma {:induction false} PopFrontStep(s: Dmx, i: nat, k: nat)
    requires i < |s.channels| && k < |s.channels[i].secList|
    ensures PopFront(s, i, k+1) == PopFront(ReturnAt(s, i, 0), i, k)
  {
    var q := s.channels[i].secList;
    assert Without(q, 0) == q[1..];
    assert q[..k+1] == [q[0]] + q[1..][..k];
    assert s.free + q[..k+1] == s.free + [q[0]] + q[1..][..k];
  }

  lemma {:induction false} PopNone(s: Dmx, i: nat)
    requires i < |s.channels|
    ensures PopFront(s, i, 0) == s
  {
    assert s.channels[i := s.channels[i]] == s.channels && s.free + [] == s.free;
    assert s.channels[i].secList[0..] == s.channels[i].secList;
  }

  lemma {:induction false} LogStep(log: seq<Call>, q: seq<nat>, nodes: seq<Section>, ch: nat, k: nat)
    requires k < |q|
    ensures log + CallsFor(q, nodes, ch, k+1)
            == log + [Call(ch, NodeAt(nodes, q[0]), true)] + CallsFor(q[1..], nodes, ch, k)
  {
    assert CallsFor(q, nodes, ch, k+1) == [Call(ch, NodeAt(nodes, q[0]), true)] + CallsFor(q[1..], nodes, ch, k);
  }

  lemma {:induction false} AdmChannelDone(s: Dmx, i: nat, log: seq<Call>, accept: Answer)
    requires i < |s.channels| && s.channels[i].secList == []
    ensures AdmChannel(s, i, log, accept) == (s, log)
  {
    PopNone(s, i);
    assert log + CallsFor([], s.nodes, i, 0) == log;
  }

  /** How many of the numbers below n are in the set. */
  function CountBits(flts: set<nat>, n: nat): nat {
    if n == 0 then 0 else CountBits(flts, n-1) + if n-1 in flts then 1 else 0
  }

  lemma {:induction false} CountBitsIsSize(flts: set<nat>, n: nat)
    requires forall f :: f in flts ==> f < n
    ensures CountBits(flts, n) == |flts|
  {
    if n > 0 {
      var rest := flts - {n-1};
      CountBitsIsSize(rest, n-1);
      CountBitsSame(flts, rest, n-1);
      assert n-1 in flts ==> flts == rest + {n-1};
      assert n-1 !in flts ==> flts == rest;
    }
  }

  lemma {:induction false} CountBitsSame(a: set<nat>, b: set<nat>, n: nat)
    requires forall f :: 0 <= f < n ==> (f in a <==> f in b)
    ensures CountBits(a, n) == CountBits(b, n)
  {
    if n > 0 {
      CountBitsSame(a, b, n-1);
    }
  }

  lemma {:induction false} CountBlank(cs: seq<Channel>, n: nat)
    requires forall i :: 0 <= i < |cs| ==> cs[i] == InitChannel(cs[i])
    ensures CountIn(cs, n) == 0
  {
    CountIdle(cs, n);
  }

  /** A carved arena is well formed: all nodes free, all channels blank. */
  lemma {:induction false} InitialWf(s: Dmx)
    requires |s.devs| == TOT_DMX_NUM && |s.channels| < NO_ID && s.free == seq(|s.nodes|, i => i) && s.loose == []
    requires forall i :: 0 <= i < |s.channels| ==> s.channels[i] == InitChannel(s.channels[i])
    ensures Wf(s)
  {
    forall n: nat
      ensures Total(s, n) == if n < |s.nodes| then 1 else 0
    {
      CountBlank(s.channels, n);
      CountUpTo(|s.nodes|, n);
    }
  }

  lemma {:induction false} FirstIdleUnique(cs: seq<Channel>, i: nat)
    requires i <= |cs| && (forall j :: 0 <= j < i ==> cs[j].isAllocated) && (i < |cs| ==> !cs[i].isAllocated)
    ensures i == FirstIdle(cs)
  {
  }
}
