/** What every operation of dmx_adv.c keeps: each section node is in exactly one place, and a queued
    section always belongs to a filter that is allocated and enabled. */
module DmxInvariant {
  import opened Bytes
  import opened Select
  import opened DmxState

  // ----- where the nodes are -----

  /** How often node n occurs in a queue or as the working buffer of one channel. */
  ghost function ChannelCount(c: Channel, n: nat): nat {
    multiset(c.secList)[n] + if c.wkBuf == Some(n) then 1 else 0
  }

  ghost function CountIn(cs: seq<Channel>, n: nat): nat {
    if cs == [] then 0 else ChannelCount(cs[0], n) + CountIn(cs[1..], n)
  }

  ghost function Total(s: Dmx, n: nat): nat {
    multiset(s.free)[n] + CountIn(s.channels, n) + multiset(s.loose)[n]
  }

  /** Free list, queues, working buffers and loose nodes together are every node of the arena exactly once,
      and nothing else. */
  ghost predicate Conserved(s: Dmx) {
    forall n: nat :: Total(s, n) == if n < |s.nodes| then 1 else 0
  }

  lemma {:induction false} CountUpdate(cs: seq<Channel>, i: nat, c: Channel, n: nat)
    requires i < |cs|
    ensures CountIn(cs[i := c], n) == CountIn(cs, n) - ChannelCount(cs[i], n) + ChannelCount(c, n)
    ensures ChannelCount(cs[i], n) <= CountIn(cs, n)
  {
    if i == 0 {
      assert cs[0 := c][1..] == cs[1..];
    } else {
      assert cs[i := c][1..] == cs[1..][i-1 := c];
      CountUpdate(cs[1..], i-1, c, n);
    }
  }

  lemma {:induction false} CountTwo(cs: seq<Channel>, i: nat, j: nat, n: nat)
    requires i < j < |cs|
    ensures ChannelCount(cs[i], n) + ChannelCount(cs[j], n) <= CountIn(cs, n)
  {
    if i == 0 {
      CountUpdate(cs[1..], j-1, cs[j], n);
    } else {
      CountTwo(cs[1..], i-1, j-1, n);
    }
  }

  lemma {:induction false} CountSome(cs: seq<Channel>, n: nat) returns (i: nat)
    requires CountIn(cs, n) > 0
    ensures i < |cs| && ChannelCount(cs[i], n) > 0
  {
    if ChannelCount(cs[0], n) > 0 {
      i := 0;
    } else {
      var j := CountSome(cs[1..], n);
      i := j + 1;
    }
  }

  // ----- the invariant -----

  ghost predicate ChannelOk(c: Channel, i: nat, nodes: seq<Section>) {
    && (c.isAllocated ==> c.chNum == i && c.wkBuf.Some? && c.appCb != 0)
    && (!c.isAllocated ==> c == InitChannel(c))
    && c.maskEn <= c.flts
    && (forall f :: f in c.flts ==> f < MAX_MASK_NUM)
    && |c.mask| == |c.value| == MAX_MASK_NUM
    && SectionsLive(c, nodes)
  }

  /** No stale section: each queued section hit a filter that is allocated and enabled. */
  ghost predicate SectionsLive(c: Channel, nodes: seq<Section>) {
    forall n :: n in c.secList ==> n < |nodes| && NodeAt(nodes, n).fltId in c.maskEn
  }

  ghost predicate Wf(s: Dmx) {
    && Conserved(s)
    && |s.devs| == TOT_DMX_NUM
    && |s.channels| < NO_ID
    && forall i :: 0 <= i < |s.channels| ==> ChannelOk(s.channels[i], i, s.nodes)
  }

  /** Each node is in exactly one place: at one index of the free list, at one index of one queue, the
      working buffer of one channel, or loose. */
  datatype Place = InFree(k: nat) | InQueue(ch: nat, k: nat) | InWork(ch: nat) | Loose(k: nat)

  ghost predicate Holds(s: Dmx, p: Place, n: nat) {
    match p
    case InFree(k) => k < |s.free| && s.free[k] == n
    case InQueue(ch, k) => ch < |s.channels| && k < |s.channels[ch].secList| && s.channels[ch].secList[k] == n
    case InWork(ch) => ch < |s.channels| && s.channels[ch].wkBuf == Some(n)
    case Loose(k) => k < |s.loose| && s.loose[k] == n
  }

  lemma {:induction false} ExactlyOnePlace(s: Dmx, n: nat) returns (p: Place)
    requires Wf(s) && n < |s.nodes|
    ensures Holds(s, p, n)
    ensures forall q: Place :: Holds(s, q, n) ==> q == p
  {
    assert Total(s, n) == 1;
    if n in s.free {
      var k :| 0 <= k < |s.free| && s.free[k] == n;
      p := InFree(k);
    } else if n in s.loose {
      var k :| 0 <= k < |s.loose| && s.loose[k] == n;
      p := Loose(k);
    } else {
      var ch := CountSome(s.channels, n);
      if n in s.channels[ch].secList {
        var k :| 0 <= k < |s.channels[ch].secList| && s.channels[ch].secList[k] == n;
        p := InQueue(ch, k);
      } else {
        p := InWork(ch);
      }
    }
    forall q: Place | Holds(s, q, n)
      ensures q == p
    {
      PlacesAgree(s, p, q, n);
    }
  }

  lemma {:induction false} TwiceInSeq(s: seq<nat>, i: nat, j: nat)
    requires i < j < |s| && s[i] == s[j]
    ensures multiset(s)[s[i]] >= 2
  {
    assert s == s[..j] + s[j..];
    assert s[i] in s[..j] && s[j] in s[j..];
    assert multiset(s)[s[i]] == multiset(s[..j])[s[i]] + multiset(s[j..])[s[i]];
  }

  lemma {:induction false} OnceInSeq(s: seq<nat>, i: nat, j: nat)
    requires i < |s| && j < |s| && s[i] == s[j] && multiset(s)[s[i]] <= 1
    ensures i == j
  {
    if i < j {
      TwiceInSeq(s, i, j);
    } else if j < i {
      TwiceInSeq(s, j, i);
    }
  }

  lemma {:induction false} SameChannel(s: Dmx, i: nat, j: nat, n: nat)
    requires Total(s, n) <= 1 && i < |s.channels| && j < |s.channels|
    requires ChannelCount(s.channels[i], n) > 0 && ChannelCount(s.channels[j], n) > 0
    ensures i == j && ChannelCount(s.channels[i], n) == 1
  {
    CountUpdate(s.channels, i, s.channels[i], n);
    if i < j {
      CountTwo(s.channels, i, j, n);
    } else if j < i {
      CountTwo(s.channels, j, i, n);
    }
  }

  lemma {:induction false} PlacesAgree(s: Dmx, p: Place, q: Place, n: nat)
    requires Wf(s) && n < |s.nodes| && Holds(s, p, n) && Holds(s, q, n)
    ensures p == q
  {
    assert Total(s, n) == 1;
    assert (p.InFree? || q.InFree? ==> n in multiset(s.free)) && (p.Loose? || q.Loose? ==> n in multiset(s.loose));
    if p.InFree? && q.InFree? {
      OnceInSeq(s.free, p.k, q.k);
    } else if p.Loose? && q.Loose? {
      OnceInSeq(s.loose, p.k, q.k);
    } else if (p.InFree? || p.Loose?) && (q.InFree? || q.Loose?) {
    } else if p.InFree? || p.Loose? {
      CountUpdate(s.channels, q.ch, s.channels[q.ch], n);
    } else if q.InFree? || q.Loose? {
      CountUpdate(s.channels, p.ch, s.channels[p.ch], n);
    } else {
      SameChannel(s, p.ch, q.ch, n);
      if p.InQueue? && q.InQueue? {
        OnceInSeq(s.channels[p.ch].secList, p.k, q.k);
      }
    }
  }

  // ----- one channel and the free list change -----

  /** Enough for all operations but the driver callback: what leaves one side arrives at the other. */
  lemma {:induction false} ReplaceChannel(s: Dmx, i: nat, c: Channel, free: seq<nat>)
    requires Wf(s) && i < |s.channels| && ChannelOk(c, i, s.nodes)
    requires forall n: nat :: multiset(free)[n] + ChannelCount(c, n)
                              == multiset(s.free)[n] + ChannelCount(s.channels[i], n)
    ensures Wf(s.(free := free, channels := s.channels[i := c]))
  {
    var t := s.(free := free, channels := s.channels[i := c]);
    forall n: nat
      ensures Total(t, n) == if n < |t.nodes| then 1 else 0
    {
      CountUpdate(s.channels, i, c, n);
      assert Total(s, n) == if n < |s.nodes| then 1 else 0;
    }
  }

  /** The two halves of the ADM task's pop and return. */
  lemma {:induction false} PopHeadWf(s: Dmx, ch: nat)
    requires Wf(s) && ch < |s.channels| && s.channels[ch].secList != []
    ensures Wf(PopHead(s, ch))
  {
    var t, c := PopHead(s, ch), s.channels[ch];
    assert c.secList == [c.secList[0]] + c.secList[1..];
    forall j | 0 <= j < |t.channels|
      ensures ChannelOk(t.channels[j], j, t.nodes)
    {
      assert ChannelOk(s.channels[j], j, s.nodes);
      assert forall n :: n in c.secList[1..] ==> n in c.secList;
    }
    forall n: nat
      ensures Total(t, n) == if n < |t.nodes| then 1 else 0
    {
      CountUpdate(s.channels, ch, c.(secList := c.secList[1..]), n);
      assert Total(s, n) == if n < |s.nodes| then 1 else 0;
    }
  }

  lemma {:induction false} ReturnLastWf(s: Dmx)
    requires Wf(s) && s.loose != []
    ensures Wf(ReturnLast(s))
  {
    var t, last := ReturnLast(s), |s.loose| - 1;
    assert s.loose == s.loose[..last] + [s.loose[last]];
    forall n: nat
      ensures Total(t, n) == if n < |t.nodes| then 1 else 0
    {
      assert Total(s, n) == if n < |s.nodes| then 1 else 0;
    }
  }

  /** Undisturbed, they are one move to the tail of the free list. */
  lemma {:induction false} HalvesMakeReturn(s: Dmx, ch: nat)
    requires ch < |s.channels| && s.channels[ch].secList != []
    ensures ReturnLast(PopHead(s, ch)) == ReturnAt(s, ch, 0)
  {
    assert (s.loose + [s.channels[ch].secList[0]])[..|s.loose|] == s.loose;
    assert Without(s.channels[ch].secList, 0) == s.channels[ch].secList[1..];
  }

  lemma {:induction false} Member(q: seq<nat>) returns (n: nat)
    requires q != []
    ensures n in q
  {
    n := q[0];
  }

  /** A well-formed channel without filters has an empty queue. */
  lemma {:induction false} EmptyQueue(c: Channel, ch: nat, nodes: seq<Section>)
    requires ChannelOk(c, ch, nodes) && c.flts == {}
    ensures c.secList == []
  {
    if c.secList != [] {
      var n := Member(c.secList);
      assert false;
    }
  }

  /** A node of the free list is in no queue. */
  lemma {:induction false} FreeNotQueued(s: Dmx, i: nat, n: nat)
    requires Wf(s) && i < |s.channels| && n in s.free
    ensures n < |s.nodes| && n !in s.channels[i].secList
  {
    assert n in multiset(s.free);
    assert Total(s, n) <= 1;
    CountUpdate(s.channels, i, s.channels[i], n);
  }

  lemma {:induction false} FlushWf(s: Dmx, ch: nat)
    requires Wf(s) && ch < |s.channels|
    ensures Wf(Flush(s, ch))
  {
    ReplaceChannel(s, ch, s.channels[ch].(secList := []), s.free + s.channels[ch].secList);
  }

  lemma {:induction false} FlushFilterParts(c: Channel, nodes: seq<Section>, flt: nat)
    ensures var keys := Keys(c.secList, nodes);
      && multiset(c.secList) == multiset(Picked(c.secList, keys, flt)) + multiset(Skipped(c.secList, keys, flt))
      && (forall n :: n in Skipped(c.secList, keys, flt) <==> n in c.secList && NodeAt(nodes, n).fltId != flt)
      && (forall n :: n in Picked(c.secList, keys, flt) <==> n in c.secList && NodeAt(nodes, n).fltId == flt)
  {
    SelectPartition(c.secList, Keys(c.secList, nodes), flt);
    SelectMembers(c.secList, Keys(c.secList, nodes), flt);
  }

  lemma {:induction false} FlushFilterWf(s: Dmx, ch: nat, flt: nat)
    requires Wf(s) && ch < |s.channels|
    ensures Wf(FlushFilter(s, ch, flt))
  {
    var c := s.channels[ch];
    FlushFilterParts(c, s.nodes, flt);
    var keys := Keys(c.secList, s.nodes);
    ReplaceChannel(s, ch, c.(secList := Skipped(c.secList, keys, flt)), s.free + Picked(c.secList, keys, flt));
  }

  lemma {:induction false} WithoutMultiset(s: seq<nat>, k: nat)
    requires k < |s|
    ensures multiset(s) == multiset(Without(s, k)) + multiset{s[k]}
    ensures forall x :: x in Without(s, k) ==> x in s
  {
    assert s == s[..k] + [s[k]] + s[k+1..];
  }

  lemma {:induction false} ReturnAtWf(s: Dmx, ch: nat, k: nat)
    requires Wf(s) && ch < |s.channels| && k < |s.channels[ch].secList|
    ensures Wf(ReturnAt(s, ch, k))
  {
    var c := s.channels[ch];
    WithoutMultiset(c.secList, k);
    ReplaceChannel(s, ch, c.(secList := Without(c.secList, k)), s.free + [c.secList[k]]);
  }

  lemma {:induction false} RelSecWf(s: Dmx, ch: nat, flt: nat, specific: bool)
    requires Wf(s)
    ensures Wf(RelSec(s, ch, flt, specific).0)
  {
    if GetSec(s, ch, flt, specific).Some? {
      ReturnAtWf(s, ch, Target(s, ch, flt, specific));
    }
  }

  lemma {:induction false} SecCbWf(s: Dmx, i: nat, flt: nat, data: seq<Byte>)
    requires Wf(s) && i < |s.channels|
    ensures Wf(SecCb(s, i, flt, data))
  {
    if Accepts(s, i, flt) && s.free != [] {
      var n, c := s.free[0], s.channels[i];
      var nodes := Store(s.nodes, n, Section(flt, data));
      assert s.free == [n] + s.free[1..];
      forall j | 0 <= j < |s.channels|
        ensures n < |s.nodes| && ChannelOk(s.channels[j], j, nodes)
      {
        FreeNotQueued(s, j, n);
      }
      var t := s.(nodes := nodes);
      forall m: nat
        ensures Total(t, m) == if m < |t.nodes| then 1 else 0
      {
        assert Total(t, m) == Total(s, m);
      }
      ReplaceChannel(t, i, c.(secList := c.secList + [n]), s.free[1..]);
    }
  }

  lemma {:induction false} AllocChannelWf(s: Dmx, dmxId: nat, crcEn: nat, cb: nat)
    requires Wf(s)
    ensures Wf(AllocChannel(s, dmxId, crcEn, cb).0)
  {
    var i := FirstIdle(s.channels);
    var s' := AllocChannel(s, dmxId, crcEn, cb).0;
    if s' != s {
      assert s.free == [s.free[0]] + s.free[1..];
      ReplaceChannel(s, i, s'.channels[i], s.free[1..]);
    }
  }

  lemma {:induction false} FreeChannelWf(s: Dmx, ch: nat)
    requires Wf(s)
    ensures Wf(FreeChannel(s, ch).0)
  {
    if Usable(s, ch) && !s.channels[ch].isEnabled {
      FlushWf(s, ch);
      var s1 := Flush(s, ch);
      ReplaceChannel(s1, ch, InitChannel(s1.channels[ch]), s1.free + [s1.channels[ch].wkBuf.value]);
    }
  }

  lemma {:induction false} SetPidWf(s: Dmx, ch: nat, pid: nat)
    requires Wf(s)
    ensures Wf(SetPid(s, ch, pid).0)
  {
    if SetPid(s, ch, pid).1 {
      FlushWf(s, ch);
      ReplaceChannel(Flush(s, ch), ch, Flush(s, ch).channels[ch].(pid := pid), Flush(s, ch).free);
    }
  }

  lemma {:induction false} EnDisWf(s: Dmx, ch: nat, hwOk: bool)
    requires Wf(s)
    ensures Wf(EnChannel(s, ch, hwOk).0) && Wf(DisChannel(s, ch, hwOk).0)
  {
    if ch < |s.channels| {
      var c := s.channels[ch];
      if c.isAllocated {
        ReplaceChannel(s, ch, c.(isEnabled := true), s.free);
        ReplaceChannel(s, ch, c.(isEnabled := false), s.free);
      }
    }
  }

  lemma {:induction false} AllocFilterWf(s: Dmx, ch: nat)
    requires Wf(s)
    ensures Wf(AllocFilter(s, ch).0)
  {
    var (s', i) := AllocFilter(s, ch);
    if i != NO_ID {
      ReplaceChannel(s, ch, s'.channels[ch], s.free);
    }
  }

  lemma {:induction false} FreeFilterWf(s: Dmx, ch: nat, flt: nat)
    requires Wf(s)
    ensures Wf(FreeFilter(s, ch, flt).0)
  {
    var (s', ok) := FreeFilter(s, ch, flt);
    if ok {
      FlushFilterWf(s, ch, flt);
      FlushFilterParts(s.channels[ch], s.nodes, flt);
      ReplaceChannel(FlushFilter(s, ch, flt), ch, s'.channels[ch], s'.free);
    }
  }

  lemma {:induction false} SetFilterWf(s: Dmx, ch: nat, flt: nat, mask: seq<Byte>, value: seq<Byte>, len: nat)
    requires Wf(s) && len <= |mask| && len <= |value|
    ensures Wf(SetFilter(s, ch, flt, mask, value, len).0)
  {
    var (s', ok) := SetFilter(s, ch, flt, mask, value, len);
    if ok {
      FlushFilterWf(s, ch, flt);
      ReplaceChannel(FlushFilter(s, ch, flt), ch, s'.channels[ch], s'.free);
    }
  }

  lemma {:induction false} AdmChannelWf(s: Dmx, i: nat, log: seq<Call>, accept: Answer)
    requires Wf(s) && i < |s.channels|
    ensures Wf(AdmChannel(s, i, log, accept).0)
  {
    var c := s.channels[i];
    if c.isAllocated && c.isEnabled {
      var k := AcceptedPrefix(c.secList, s.nodes, i, |log|, accept);
      assert c.secList == c.secList[..k] + c.secList[k..];
      ReplaceChannel(s, i, c.(secList := c.secList[k..]), s.free + c.secList[..k]);
    }
  }

  lemma {:induction false} AdmPassWf(s: Dmx, i: nat, log: seq<Call>, accept: Answer)
    requires Wf(s) && i <= |s.channels|
    ensures Wf(AdmPass(s, i, log, accept).0)
    decreases |s.channels| - i
  {
    if i < |s.channels| {
      AdmChannelWf(s, i, log, accept);
      var (s', log') := AdmChannel(s, i, log, accept);
      AdmPassWf(s', i + 1, log', accept);
    }
  }

  // ----- every run -----

  datatype SectionOp =
    | SectionArrives(i: nat, flt: nat, data: seq<Byte>)
    | AdmTaskPass(log: seq<Call>, accept: Answer)
    | AdmTaskRound(i: nat, accepted: bool)
    | Release(ch: nat, flt: nat, specific: bool)
    | Retrieve(ch: nat, flt: nat, maxLen: nat, specific: bool)

  datatype ChannelOp =
    | ChannelAlloc(dmxId: nat, crcEn: nat, cb: nat)
    | ChannelFree(ch: nat)
    | PidSet(ch: nat, pid: nat)
    | PidGet(ch: nat)
    | ChannelEnable(ch: nat, hwOk: bool)
    | ChannelDisable(ch: nat, hwOk: bool)
    | ChannelReset(ch: nat, closeOk: bool, reqOk: bool)

  datatype FilterOp =
    | FilterAlloc(ch: nat)
    | FilterFree(ch: nat, flt: nat)
    | FilterSet(ch: nat, flt: nat, mask: seq<Byte>, value: seq<Byte>, len: nat)

  /** One call of the API or of the driver callback, or one pass of the ADM task. */
  datatype Op = OnSection(s: SectionOp) | OnChannel(c: ChannelOp) | OnFilter(f: FilterOp)

  /** One round of the inner loop of adv_dmx_task: other operations may come between two rounds. */
  function AdmRound(s: Dmx, i: nat, accepted: bool): Dmx {
    if i < |s.channels| && s.channels[i].isAllocated && s.channels[i].isEnabled && s.channels[i].secList != [] && accepted
    then ReturnAt(s, i, 0) else s
  }

  lemma {:induction false} AdmRoundWf(s: Dmx, i: nat, accepted: bool)
    requires Wf(s)
    ensures Wf(AdmRound(s, i, accepted))
  {
    if AdmRound(s, i, accepted) != s {
      ReturnAtWf(s, i, 0);
    }
  }

  function SectionStep(s: Dmx, op: SectionOp): Dmx {
    match op
    case SectionArrives(i, flt, data) => if i < |s.channels| then SecCb(s, i, flt, data) else s
    case AdmTaskPass(log, accept) => AdmPass(s, 0, log, accept).0
    case AdmTaskRound(i, accepted) => AdmRound(s, i, accepted)
    case Release(ch, flt, specific) => RelSec(s, ch, flt, specific).0
    case Retrieve(ch, flt, maxLen, specific) => RetrieveSec(s, ch, flt, maxLen, specific).s
  }

  function ChannelStep(s: Dmx, op: ChannelOp): Dmx {
    match op
    case ChannelAlloc(dmxId, crcEn, cb) => AllocChannel(s, dmxId, crcEn, cb).0
    case ChannelFree(ch) => FreeChannel(s, ch).0
    case PidSet(ch, pid) => SetPid(s, ch, pid).0
    case PidGet(ch) => GetPid(s, ch).0
    case ChannelEnable(ch, hwOk) => EnChannel(s, ch, hwOk).0
    case ChannelDisable(ch, hwOk) => DisChannel(s, ch, hwOk).0
    case ChannelReset(ch, closeOk, reqOk) => RstChannel(s, ch, closeOk, reqOk).0
  }

  function FilterStep(s: Dmx, op: FilterOp): Dmx {
    match op
    case FilterAlloc(ch) => AllocFilter(s, ch).0
    case FilterFree(ch, flt) => FreeFilter(s, ch, flt).0
    case FilterSet(ch, flt, mask, value, len) =>
      if len <= |mask| && len <= |value| then SetFilter(s, ch, flt, mask, value, len).0 else s
  }

  function Step(s: Dmx, op: Op): Dmx {
    match op
    case OnSection(o) => SectionStep(s, o)
    case OnChannel(o) => ChannelStep(s, o)
    case OnFilter(o) => FilterStep(s, o)
  }

  function Run(s: Dmx, ops: seq<Op>): Dmx
    decreases |ops|
  {
    if ops == [] then s else Run(Step(s, ops[0]), ops[1..])
  }

  lemma {:induction false} SectionStepWf(s: Dmx, op: SectionOp)
    requires Wf(s)
    ensures Wf(SectionStep(s, op))
  {
    match op
    case SectionArrives(i, flt, data) => if i < |s.channels| { SecCbWf(s, i, flt, data); }
    case AdmTaskPass(log, accept) => AdmPassWf(s, 0, log, accept);
    case AdmTaskRound(i, accepted) => AdmRoundWf(s, i, accepted);
    case Release(ch, flt, specific) => RelSecWf(s, ch, flt, specific);
    case Retrieve(ch, flt, maxLen, specific) =>
      RelSecWf(s, ch, RetrieveSec(s, ch, flt, maxLen, specific).fltOut, specific);
  }

  lemma {:induction false} ChannelStepWf(s: Dmx, op: ChannelOp)
    requires Wf(s)
    ensures Wf(ChannelStep(s, op))
  {
    match op
    case ChannelAlloc(dmxId, crcEn, cb) => AllocChannelWf(s, dmxId, crcEn, cb);
    case ChannelFree(ch) => FreeChannelWf(s, ch);
    case PidSet(ch, pid) => SetPidWf(s, ch, pid);
    case PidGet(ch) => if ch < |s.channels| { FlushWf(s, ch); }
    case ChannelEnable(ch, hwOk) => EnDisWf(s, ch, hwOk);
    case ChannelDisable(ch, hwOk) => EnDisWf(s, ch, hwOk);
    case ChannelReset(ch, closeOk, reqOk) => if ch < |s.channels| { FlushWf(s, ch); }
  }

  lemma {:induction false} FilterStepWf(s: Dmx, op: FilterOp)
    requires Wf(s)
    ensures Wf(FilterStep(s, op))
  {
    match op
    case FilterAlloc(ch) => AllocFilterWf(s, ch);
    case FilterFree(ch, flt) => FreeFilterWf(s, ch, flt);
    case FilterSet(ch, flt, mask, value, len) =>
      if len <= |mask| && len <= |value| { SetFilterWf(s, ch, flt, mask, value, len); }
  }

  lemma {:induction false} StepWf(s: Dmx, op: Op)
    requires Wf(s)
    ensures Wf(Step(s, op))
  {
    match op
    case OnSection(o) => SectionStepWf(s, o);
    case OnChannel(o) => ChannelStepWf(s, o);
    case OnFilter(o) => FilterStepWf(s, o);
  }

  /** Over every run: every node stays in exactly one place, no queue holds a stale section, and the
      ASSERT of adv_dmx_free_filter is unreachable. */
  lemma {:induction false} RunWf(s: Dmx, ops: seq<Op>)
    requires Wf(s)
    ensures Wf(Run(s, ops))
    ensures forall ch, flt :: !FreeFilterAsserts(Run(s, ops), ch, flt)
    decreases |ops|
  {
    if ops != [] {
      StepWf(s, ops[0]);
      RunWf(Step(s, ops[0]), ops[1..]);
    }
  }
}
