/** What the functions of dmx_adv.c do to every field of the state, and what they leave alone. */
module DmxEffects {
  import opened Select
  import opened Bytes
  import opened DmxState
  import opened DmxInvariant
  import opened DmxBehaviour

  // ----- filters -----

  /** The row holds the first len bytes, and zeros behind them. */
  predicate RowIs(row: seq<Byte>, bytes: seq<Byte>, len: nat)
    requires len <= |bytes|
  {
    |row| == MAX_MASK_LEN && forall b :: 0 <= b < MAX_MASK_LEN ==> row[b] == if b < len then bytes[b] else 0
  }

  /** The filter is enabled with its new rows, none of its old sections is queued any more: they are, in order,
      behind the old free list. The sections of other filters keep their order. Nothing else changed. */
  ghost predicate FilterSet(s: Dmx, s': Dmx, ch: nat, flt: nat, mask: seq<Byte>, value: seq<Byte>, len: nat)
    requires ch < |s.channels| == |s'.channels| && len <= |mask| && len <= |value|
  {
    var c, c' := s.channels[ch], s'.channels[ch];
    var keys := Keys(c.secList, s.nodes);
    && flt < |c.mask| == |c'.mask| && flt < |c.value| == |c'.value|
    && s' == s.(free := s'.free, channels := s.channels[ch := c'])
    && c' == c.(maskEn := c.maskEn + {flt}, secList := c'.secList, mask := c.mask[flt := c'.mask[flt]],
                value := c.value[flt := c'.value[flt]])
    && RowIs(c'.mask[flt], mask, len) && RowIs(c'.value[flt], value, len)
    && (forall n :: n in c'.secList <==> n in c.secList && NodeAt(s.nodes, n).fltId != flt)
    && c'.secList == Skipped(c.secList, keys, flt) && s'.free == s.free + Picked(c.secList, keys, flt)
  }

  /** set_filter succeeds exactly on an allocated filter and a length within bounds; a failed call changes
      nothing. */
  lemma {:induction false} SetFilterExact(s: Dmx, ch: nat, flt: nat, mask: seq<Byte>, value: seq<Byte>, len: nat)
    requires Wf(s) && len <= |mask| && len <= |value|
    ensures var (s', ok) := SetFilter(s, ch, flt, mask, value, len);
      && (ok <==> Usable(s, ch) && flt in s.channels[ch].flts && len <= MAX_MASK_LEN)
      && (!ok ==> s' == s)
      && (ok ==> |s'.channels| == |s.channels| && FilterSet(s, s', ch, flt, mask, value, len))
  {
    hide Skipped, Picked, Keys, Padded;
    if Usable(s, ch) {
      assert ChannelOk(s.channels[ch], ch, s.nodes);
      hide Wf;
      FlushFilterParts(s.channels[ch], s.nodes, flt);
      if len <= MAX_MASK_LEN {
        PaddedRow(mask, len);
        PaddedRow(value, len);
      }
      if SetFilter(s, ch, flt, mask, value, len).1 {
        SetFilterFields(s, ch, flt, mask, value, len);
      }
    }
  }

  lemma {:induction false} PaddedRow(bytes: seq<Byte>, len: nat)
    requires len <= |bytes| && len <= MAX_MASK_LEN
    ensures RowIs(Padded(bytes, len), bytes, len)
  {
  }

  lemma {:induction false} SetFilterFields(s: Dmx, ch: nat, flt: nat, mask: seq<Byte>, value: seq<Byte>, len: nat)
    requires len <= |mask| && len <= |value| && SetFilter(s, ch, flt, mask, value, len).1
    ensures var s', c := SetFilter(s, ch, flt, mask, value, len).0, s.channels[ch];
      var keys := Keys(c.secList, s.nodes);
      s' == s.(free := s.free + Picked(c.secList, keys, flt),
               channels := s.channels[ch := c.(maskEn := c.maskEn + {flt}, secList := Skipped(c.secList, keys, flt),
                                               mask := c.mask[flt := Padded(mask, len)],
                                               value := c.value[flt := Padded(value, len)])])
  {
    hide Skipped, Picked, Keys, Padded;
  }

  /** A section that was queued under the old mask is not delivered under the new one: get_sec does not find any
      section of the filter, and the next ADM call is for another one. */
  lemma {:induction false} OldMaskForgotten(s: Dmx, ch: nat, flt: nat, mask: seq<Byte>, value: seq<Byte>, len: nat)
    requires Wf(s) && len <= |mask| && len <= |value| && SetFilter(s, ch, flt, mask, value, len).1
    ensures var s' := SetFilter(s, ch, flt, mask, value, len).0;
      && GetSec(s', ch, flt, true).None?
      && (GetSec(s', ch, flt, false).Some? ==> NodeAt(s'.nodes, GetSec(s', ch, flt, false).value).fltId != flt)
  {
    SetFilterExact(s, ch, flt, mask, value, len);
    SetFilterWf(s, ch, flt, mask, value, len);
    SpecificGetMisses(SetFilter(s, ch, flt, mask, value, len).0, ch, flt);
    hide SetFilter, Wf, Skipped, Picked;
  }

  /** get_filter_num: -1 exactly for a channel that does not exist, 0 for an idle one; otherwise how many of the 32
      numbers are allocated. */
  lemma {:induction false} FilterNumIs(s: Dmx, ch: nat)
    requires Wf(s)
    ensures var n := GetFilterNum(s, ch);
      && (n == -1 <==> !s.initOk || ch >= |s.channels|)
      && (n != -1 ==> n == |set f: nat | f < MAX_MASK_NUM && s.channels[ch].isAllocated && f in s.channels[ch].flts|)
  {
    if s.initOk && ch < |s.channels| {
      assert ChannelOk(s.channels[ch], ch, s.nodes);
      var flts := set f: nat | f < MAX_MASK_NUM && s.channels[ch].isAllocated && f in s.channels[ch].flts;
      assert flts == if s.channels[ch].isAllocated then s.channels[ch].flts else {};
    }
  }

  // ----- channels -----

  ghost function IdleSet(cs: seq<Channel>): set<nat> {
    set i: nat | i < |cs| && !cs[i].isAllocated
  }

  lemma {:induction false} IdleCountIs(cs: seq<Channel>)
    ensures IdleCount(cs) == |IdleSet(cs)|
  {
    if cs != [] {
      var front, last := cs[..|cs|-1], |cs| - 1;
      IdleCountIs(front);
      assert IdleSet(cs) == IdleSet(front) + if cs[last].isAllocated then {} else {last};
    }
  }

  /** get_free_ch_num is the number of channels that are not allocated; it is 0 exactly when alloc_channel finds
      none. */
  lemma {:induction false} FreeChNumIs(s: Dmx)
    ensures GetFreeChNum(s) == if s.initOk then |IdleSet(s.channels)| else -1
    ensures s.initOk ==> (GetFreeChNum(s) == 0 <==> forall i :: 0 <= i < |s.channels| ==> s.channels[i].isAllocated)
  {
    IdleCountIs(s.channels);
    if i :| 0 <= i < |s.channels| && !s.channels[i].isAllocated {
      assert i in IdleSet(s.channels);
    }
    if IdleSet(s.channels) != {} {
      var i :| i in IdleSet(s.channels);
    }
  }

  /** A successful alloc_channel lowers it by one, */
  lemma {:induction false} AllocLowersFree(s: Dmx, dmxId: nat, crcEn: nat, cb: nat)
    requires Wf(s) && AllocChannel(s, dmxId, crcEn, cb).1 != NO_ID
    ensures var (s', i) := AllocChannel(s, dmxId, crcEn, cb);
      GetFreeChNum(s') == GetFreeChNum(s) - 1 && GetFilterNum(s', i) == 0 && GetPid(s', i).1 == INVALID_PID
  {
    var (s', i) := AllocChannel(s, dmxId, crcEn, cb);
    assert ChannelOk(s.channels[i], i, s.nodes);
    IdleCountIs(s.channels);
    IdleCountIs(s'.channels);
    assert IdleSet(s'.channels) == IdleSet(s.channels) - {i} && i in IdleSet(s.channels);
  }

  /** and free_channel raises it again. It succeeds exactly on an allocated, disabled channel; the channel is blank
      then but for its callback, and its sections and then its working buffer are, in order, behind the old free
      list. */
  lemma {:induction false} FreeChannelExact(s: Dmx, ch: nat)
    requires Wf(s)
    ensures var (s', ok) := FreeChannel(s, ch);
      && (ok <==> Usable(s, ch) && !s.channels[ch].isEnabled)
      && (!ok ==> s' == s)
      && (ok ==> var c := s.channels[ch];
           && c.wkBuf.Some? && GetFreeChNum(s') == GetFreeChNum(s) + 1
           && s' == s.(free := s.free + c.secList + [c.wkBuf.value],
                       channels := s.channels[ch := Channel(INVALID_PID, 0, {}, {}, ZeroRows(), ZeroRows(), [], None, c.appCb,
                                                            0, 0, false, false)]))
  {
    var (s', ok) := FreeChannel(s, ch);
    if Usable(s, ch) {
      assert ChannelOk(s.channels[ch], ch, s.nodes);
      hide Wf;
      if ok {
        assert s'.channels == s.channels[ch := s'.channels[ch]];
        IdleAgain(s.channels, ch, s'.channels[ch]);
      }
    }
    hide IdleCount, ZeroRows;
  }

  lemma {:induction false} IdleAgain(cs: seq<Channel>, ch: nat, c: Channel)
    requires ch < |cs| && cs[ch].isAllocated && !c.isAllocated
    ensures IdleCount(cs[ch := c]) == IdleCount(cs) + 1
  {
    IdleCountIs(cs);
    IdleCountIs(cs[ch := c]);
    assert IdleSet(cs[ch := c]) == IdleSet(cs) + {ch} && ch !in IdleSet(cs);
  }

  // ----- sections -----

  /** A section is accepted exactly on an allocated, enabled channel, for an enabled filter, with a node left. It is
      then the last of the queue, in the node that was first on the free list; the contents of no other node and no
      other field change. Otherwise nothing changes. */
  lemma {:induction false} SecCbExact(s: Dmx, i: nat, flt: nat, data: seq<Byte>, m: nat)
    requires Wf(s) && s.initOk && i < |s.channels|
    ensures var s', c := SecCb(s, i, flt, data), s.channels[i];
      if c.isAllocated && c.isEnabled && flt in c.maskEn && s.free != [] then
        var n := s.free[0];
        && s' == s.(free := s.free[1..], nodes := s'.nodes, channels := s.channels[i := c.(secList := c.secList + [n])])
        && |s'.nodes| == |s.nodes| && NodeAt(s'.nodes, n) == Section(flt, data)
        && (m != n ==> NodeAt(s'.nodes, m) == NodeAt(s.nodes, m))
      else s' == s
  {
    var c := s.channels[i];
    assert ChannelOk(c, i, s.nodes);
    assert Accepts(s, i, flt) <==> c.isAllocated && c.isEnabled && flt in c.maskEn;
    if s.free != [] { FreeNotQueued(s, i, s.free[0]); }
    hide Wf, ChannelOk, Accepts;
  }

  /** get_sec finds the head, or the earliest section of one filter, exactly when there is one. */
  lemma {:induction false} GetSecExact(s: Dmx, ch: nat, flt: nat, specific: bool, n: nat)
    requires Wf(s)
    ensures GetSec(s, ch, flt, specific) == Some(n)
            <==> Usable(s, ch) && exists k: nat :: Earliest(s, ch, flt, specific, k) && s.channels[ch].secList[k] == n
  {
    if Usable(s, ch) {
      var t := Target(s, ch, flt, specific);
      TargetIsEarliest(s, ch, flt, specific, t);
      forall k: nat | Earliest(s, ch, flt, specific, k)
        ensures k == t
      {
        TargetIsEarliest(s, ch, flt, specific, k);
      }
    }
  }

  /** rel_sec succeeds exactly when get_sec finds a section, and moves that one, and nothing else, to the tail of the
      free list. */
  lemma {:induction false} ReleaseExact(s: Dmx, ch: nat, flt: nat, specific: bool)
    requires Wf(s)
    ensures var (s', ok) := RelSec(s, ch, flt, specific);
      && (ok <==> Usable(s, ch) && exists k: nat :: Earliest(s, ch, flt, specific, k))
      && (!ok ==> s' == s)
      && (ok ==> forall k: nat :: Earliest(s, ch, flt, specific, k) ==>
            var q := s.channels[ch].secList;
            s' == s.(free := s.free + [q[k]], channels := s.channels[ch := s.channels[ch].(secList := q[..k] + q[k+1..])]))
  {
    if Usable(s, ch) {
      var t := Target(s, ch, flt, specific);
      TargetIsEarliest(s, ch, flt, specific, t);
      forall k: nat | Earliest(s, ch, flt, specific, k)
        ensures k == t
      {
        TargetIsEarliest(s, ch, flt, specific, k);
      }
    }
  }

  // ----- one pass of the ADM task -----

  /** The sections of the accepted calls. */
  function Taken(calls: seq<Call>): seq<Section> {
    if calls == [] then [] else (if calls[0].accepted then [calls[0].sec] else []) + Taken(calls[1..])
  }

  lemma {:induction false} TakenJoin(a: seq<Call>, b: seq<Call>)
    ensures Taken(a + b) == Taken(a) + Taken(b)
  {
    if a == [] {
      assert a + b == b;
    } else {
      TakenJoin(a[1..], b);
      var first := if a[0].accepted then [a[0].sec] else [];
      assert (a + b)[0] == a[0] && (a + b)[1..] == a[1..] + b;
      assert Taken(a + b) == first + Taken(a[1..] + b) && Taken(a) == first + Taken(a[1..]);
      hide Taken;
      assert first + (Taken(a[1..]) + Taken(b)) == (first + Taken(a[1..])) + Taken(b);
    }
  }

  function Sections(q: seq<nat>, nodes: seq<Section>): seq<Section> {
    seq(|q|, i requires 0 <= i < |q| => NodeAt(nodes, q[i]))
  }

  lemma {:induction false} TakenFor(q: seq<nat>, nodes: seq<Section>, ch: nat, k: nat)
    requires k <= |q|
    ensures Taken(CallsFor(q, nodes, ch, k)) == Sections(q[..k], nodes)
    decreases k
  {
    var calls := CallsFor(q, nodes, ch, k);
    if k == 0 {
      assert |calls| <= 1 && (calls != [] ==> calls[1..] == []);
    } else {
      assert calls[1..] == CallsFor(q[1..], nodes, ch, k - 1);
      TakenFor(q[1..], nodes, ch, k - 1);
      assert q[1..][..k-1] == q[..k][1..];
      assert Sections(q[..k], nodes) == [NodeAt(nodes, q[0])] + Sections(q[..k][1..], nodes);
    }
  }

  /** Channel after channel, in the order of their numbers. */
  predicate Ascending(calls: seq<Call>, from: nat) {
    forall a, b :: 0 <= a <= b < |calls| ==> from <= calls[a].ch <= calls[b].ch
  }

  /** A pass calls back in the order of the channels, and the nodes it puts back on the free list are, in this order,
      those of the sections that were accepted. */
  lemma {:induction false} PassInOrder(s: Dmx, i: nat, log: seq<Call>, accept: Answer) returns (calls: seq<Call>, back: seq<nat>)
    requires i <= |s.channels|
    ensures var (s', log') := AdmPass(s, i, log, accept);
      && log' == log + calls && Ascending(calls, i)
      && s'.free == s.free + back && Sections(back, s.nodes) == Taken(calls)
      && s' == s.(free := s'.free, channels := s'.channels)
    decreases |s.channels| - i
  {
    if i == |s.channels| {
      calls, back := [], [];
      assert log + [] == log && s.free + [] == s.free;
    } else {
      var (s1, log1) := AdmChannel(s, i, log, accept);
      assert AdmPass(s, i, log, accept) == AdmPass(s1, i + 1, log1, accept);
      hide AdmChannel, AdmPass, Taken, Sections, Ascending;
      var mine, freed := ChannelInOrder(s, i, log, accept);
      var later, more := PassInOrder(s1, i + 1, log1, accept);
      calls, back := mine + later, freed + more;
      TakenJoin(mine, later);
      SectionsJoin(freed, more, s.nodes);
      AscendingJoin(mine, later, i);
      assert log + (mine + later) == (log + mine) + later && s.free + (freed + more) == (s.free + freed) + more;
    }
  }

  lemma {:induction false} AscendingJoin(a: seq<Call>, b: seq<Call>, i: nat)
    requires (forall k :: 0 <= k < |a| ==> a[k].ch == i) && Ascending(b, i + 1)
    ensures Ascending(a + b, i)
  {
    var c := a + b;
    forall j, k | 0 <= j <= k < |c|
      ensures i <= c[j].ch <= c[k].ch
    {
      assert k >= |a| ==> c[k] == b[k-|a|];
      assert j >= |a| ==> c[j] == b[j-|a|] && b[j-|a|].ch <= b[k-|a|].ch;
      assert k >= |a| ==> i + 1 <= b[k-|a|].ch;
    }
  }

  lemma {:induction false} SectionsJoin(a: seq<nat>, b: seq<nat>, nodes: seq<Section>)
    ensures Sections(a + b, nodes) == Sections(a, nodes) + Sections(b, nodes)
  {
  }

  /** The calls for one channel, and the nodes that come back from it. */
  lemma {:induction false} ChannelInOrder(s: Dmx, i: nat, log: seq<Call>, accept: Answer) returns (calls: seq<Call>, back: seq<nat>)
    requires i < |s.channels|
    ensures var (s', log') := AdmChannel(s, i, log, accept);
      && log' == log + calls && (forall a :: 0 <= a < |calls| ==> calls[a].ch == i)
      && s'.free == s.free + back && Sections(back, s.nodes) == Taken(calls)
      && s' == s.(free := s'.free, channels := s'.channels)
  {
    hide AcceptedPrefix;
    var c := s.channels[i];
    calls, back := AdmCalls(c, s.nodes, i, |log|, accept), [];
    if On(c) {
      var k := AcceptedPrefix(c.secList, s.nodes, i, |log|, accept);
      back := c.secList[..k];
      TakenFor(c.secList, s.nodes, i, k);
      hide Taken, Sections;
    } else {
      assert s.free + back == s.free && log + calls == log;
    }
  }
}
