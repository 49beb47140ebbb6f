/** Channel and filter management, statement by statement, while the driver callback queues sections.

    adv_dmx_mutex() does nothing when the ADM task calls it, so a function called from inside a section
    callback runs without the mutex. `locks[k]` says whether context k takes it. */
module FilterRace {
  import opened DmxState
  import opened Select

  /** msk: sec_flt_msk; en: mask_en; queue: the filter ids of the queued sections; work: wk_buf is not NULL. */
  datatype Chan = Chan(msk: set<nat>, en: set<nat>, queue: seq<nat>, work: bool, isAlloc: bool, isOn: bool)

  const BLANK := Chan({}, {}, [], false, false, false)

  /** Where a context stands inside a function. */
  datatype Pc =
    | Idle
    | OpenFound(ch: nat)              // alloc_channel: the scan found an idle channel, node_get a node
    | OpenAllocated(ch: nat)          // allocated = 1, wk_buf not yet stored
    | CloseEntered(ch: nat)           // free_channel, before its test
    | CloseFlushing(ch: nat)          // in the flush loop
    | CloseReturned(ch: nat)          // wk_buf returned, the record not yet reset
    | SwitchEntered(ch: nat, on: bool) // en_channel, dis_channel: the hardware will agree
    | AllocFound(ch: nat, f: nat)     // alloc_filter: the scan found a clear bit
    | FreeEntered(ch: nat, f: nat)    // free_filter, before the test of the channel
    | FreeInside(ch: nat, f: nat)     // before the test of the bit
    | FreeTested(ch: nat, f: nat)     // the bit was set
    | FreeCleared(ch: nat, f: nat)    // bit cleared, mask_en not yet
    | FreeFlushing(ch: nat, f: nat)   // in the flush loop
    | SetEntered(ch: nat, f: nat)     // set_filter, before the test of the channel
    | SetInside(ch: nat, f: nat)
    | SetTested(ch: nat, f: nat)
    | SetFlushing(ch: nat, f: nat)    // mask_en cleared, in the flush loop

  /** `owner` holds the mutex; `asserted` says that one of the two ASSERTs was reached. */
  datatype State = State(chans: seq<Chan>, owner: Option<nat>, pcs: seq<Pc>, asserted: bool)

  datatype Step =
    | Arrive(ch: nat, f: nat)    // the driver callback, atomic
    | Drop(ch: nat, i: nat)      // rel_sec, the ADM task, or the flush of another function removes a section
    | Begin(k: nat, pc: Pc)      // enter a function, taking the mutex if the context does
    | Advance(k: nat)            // the next statement of context k

  predicate Entry(chans: seq<Chan>, pc: Pc) {
    !pc.Idle? && pc.ch < |chans| &&
    var c := chans[pc.ch];
    match pc
    case OpenFound(_) => !c.isAlloc
    case AllocFound(_, f) => c.isAlloc && f == LeastUnset(c.msk, 0) && f < MAX_MASK_NUM
    case CloseEntered(_) => true
    case SwitchEntered(_, _) => true
    case FreeEntered(_, _) => true
    case SetEntered(_, _) => true
    case _ => false
  }

  predicate Enabled(s: State, locks: seq<bool>, st: Step)
    requires |locks| == |s.pcs|
  {
    match st
    case Arrive(ch, f) => ch < |s.chans| && s.chans[ch].isAlloc && s.chans[ch].isOn && f in s.chans[ch].msk && f in s.chans[ch].en
    case Drop(ch, i) => ch < |s.chans| && i < |s.chans[ch].queue|
    case Begin(k, pc) => k < |s.pcs| && s.pcs[k].Idle? && Entry(s.chans, pc) && (locks[k] ==> s.owner.None?)
    case Advance(k) => k < |s.pcs| && !s.pcs[k].Idle? && s.pcs[k].ch < |s.chans|
  }

  /** What one statement does to the channel, and where the context stands then; `None` is the ASSERT. */
  function Statement(c: Chan, pc: Pc): (Chan, Option<Pc>) {
    match pc
    case Idle => (c, Some(Idle))
    case OpenFound(ch) => (c.(isAlloc := true), Some(OpenAllocated(ch)))
    case OpenAllocated(_) => (c.(work := true), Some(Idle))
    case CloseEntered(ch) => (c, Some(if c.isAlloc && !c.isOn then CloseFlushing(ch) else Idle))
    case CloseFlushing(ch) =>
      if c.queue != [] then (c.(queue := c.queue[1..]), Some(pc))
      else (c, if c.work then Some(CloseReturned(ch)) else None)
    case CloseReturned(_) => (BLANK, Some(Idle))
    case SwitchEntered(_, on) => (if c.isAlloc then c.(isOn := on) else c, Some(Idle))
    case AllocFound(_, f) => (c.(msk := c.msk + {f}), Some(Idle))
    case FreeEntered(ch, f) => (c, Some(if c.isAlloc then FreeInside(ch, f) else Idle))
    case FreeInside(ch, f) => (c, if f in c.msk then Some(FreeTested(ch, f)) else if f in c.en then None else Some(Idle))
    case FreeTested(ch, f) => (c.(msk := c.msk - {f}), Some(FreeCleared(ch, f)))
    case FreeCleared(ch, f) => (c.(en := c.en - {f}), Some(FreeFlushing(ch, f)))
    case FreeFlushing(_, f) =>
      if f in c.queue then (c.(queue := Without(c.queue, FirstAt(c.queue, f))), Some(pc)) else (c, Some(Idle))
    case SetEntered(ch, f) => (c, Some(if c.isAlloc then SetInside(ch, f) else Idle))
    case SetInside(ch, f) => (c, Some(if f in c.msk then SetTested(ch, f) else Idle))
    case SetTested(ch, f) => (c.(en := c.en - {f}), Some(SetFlushing(ch, f)))
    case SetFlushing(_, f) =>
      if f in c.queue then (c.(queue := Without(c.queue, FirstAt(c.queue, f))), Some(pc)) else (c.(en := c.en + {f}), Some(Idle))
  }

  function Apply(s: State, locks: seq<bool>, st: Step): State
    requires |locks| == |s.pcs| && Enabled(s, locks, st)
  {
    match st
    case Arrive(ch, f) => s.(chans := s.chans[ch := s.chans[ch].(queue := s.chans[ch].queue + [f])])
    case Drop(ch, i) => s.(chans := s.chans[ch := s.chans[ch].(queue := Without(s.chans[ch].queue, i))])
    case Begin(k, pc) => s.(pcs := s.pcs[k := pc], owner := if locks[k] then Some(k) else s.owner)
    case Advance(k) =>
      var (c, pc) := Statement(s.chans[s.pcs[k].ch], s.pcs[k]);
      match pc {
        case None => s.(asserted := true)
        case Some(p) => s.(chans := s.chans[s.pcs[k].ch := c], pcs := s.pcs[k := p],
                           owner := if p.Idle? && locks[k] then None else s.owner)
      }
  }

  // ----- the invariant -----

  /** At most one context is inside, and it holds the mutex if it takes it. */
  predicate Exclusive(s: State, locks: seq<bool>)
    requires |locks| == |s.pcs|
  {
    && (forall j, k :: 0 <= j < k < |s.pcs| ==> s.pcs[j].Idle? || s.pcs[k].Idle?)
    && (forall k :: 0 <= k < |s.pcs| && !s.pcs[k].Idle? && locks[k] ==> s.owner == Some(k))
  }

  /** Where the context stands that is inside, if any. */
  function Current(pcs: seq<Pc>): (pc: Pc)
    ensures pc.Idle? <==> forall k :: 0 <= k < |pcs| ==> pcs[k].Idle?
  {
    if pcs == [] then Idle else if !pcs[0].Idle? then pcs[0] else Current(pcs[1..])
  }

  lemma {:induction false} CurrentIs(pcs: seq<Pc>, k: nat)
    requires k < |pcs| && forall j :: 0 <= j < |pcs| && j != k ==> pcs[j].Idle?
    ensures Current(pcs) == pcs[k]
  {
    if k > 0 { CurrentIs(pcs[1..], k - 1); }
  }

  /** Filter f of channel ch is being taken down or reconfigured. */
  predicate Clearing(pc: Pc, ch: nat, f: nat) {
    pc == FreeCleared(ch, f) || pc == FreeFlushing(ch, f) || pc == SetFlushing(ch, f)
  }

  /** A section is stale only while its filter is being flushed; an enabled filter is unallocated only between
      two statements of free_filter; an allocated channel is without wk_buf only between two statements of
      alloc_channel; an idle channel is blank. */
  predicate ChanSound(c: Chan, ch: nat, pc: Pc) {
    && (forall f :: f in c.queue ==> (f in c.msk && f in c.en) || Clearing(pc, ch, f))
    && (forall f :: f in c.en ==> f in c.msk || pc == FreeCleared(ch, f))
    && (c.isAlloc ==> c.work || pc == OpenAllocated(ch))
    && (!c.isAlloc ==> c == BLANK)
  }

  /** What the context inside has established about its channel. */
  predicate PcSound(c: Chan, pc: Pc) {
    match pc
    case OpenFound(_) => !c.isAlloc
    case OpenAllocated(_) => c.isAlloc
    case CloseFlushing(_) => c.isAlloc && !c.isOn && c.work
    case CloseReturned(_) => c.isAlloc && !c.isOn && c.queue == []
    case AllocFound(_, _) => c.isAlloc
    case FreeInside(_, _) => c.isAlloc
    case FreeTested(_, f) => c.isAlloc && f in c.msk
    case FreeCleared(_, f) => c.isAlloc && f !in c.msk
    case FreeFlushing(_, f) => c.isAlloc && f !in c.msk && f !in c.en
    case SetInside(_, _) => c.isAlloc
    case SetTested(_, f) => c.isAlloc && f in c.msk
    case SetFlushing(_, f) => c.isAlloc && f in c.msk && f !in c.en
    case _ => true
  }

  predicate SoundAt(chans: seq<Chan>, pc: Pc) {
    && (pc.Idle? || (pc.ch < |chans| && PcSound(chans[pc.ch], pc)))
    && forall ch :: 0 <= ch < |chans| ==> ChanSound(chans[ch], ch, pc)
  }

  predicate Sound(s: State) {
    !s.asserted && SoundAt(s.chans, Current(s.pcs))
  }

  /** With no context inside: no stale section, every enabled filter is allocated, every allocated channel has
      its working buffer, and idle channels are blank. */
  lemma {:induction false} QuietIsClean(s: State, ch: nat)
    requires Sound(s) && ch < |s.chans| && forall k :: 0 <= k < |s.pcs| ==> s.pcs[k].Idle?
    ensures var c := s.chans[ch];
      && c.en <= c.msk && (forall f :: f in c.queue ==> f in c.msk && f in c.en)
      && (if c.isAlloc then c.work else c == BLANK)
  {
    assert ChanSound(s.chans[ch], ch, Idle);
  }

  /** Mutual exclusion by the mutex, or because there is only one context. */
  predicate Serialized(locks: seq<bool>) {
    |locks| < 2 || forall k :: 0 <= k < |locks| ==> locks[k]
  }

  lemma {:induction false} StepExclusive(s: State, locks: seq<bool>, st: Step)
    requires |locks| == |s.pcs| && Serialized(locks) && Exclusive(s, locks) && Enabled(s, locks, st)
    ensures |Apply(s, locks, st).pcs| == |locks| && Exclusive(Apply(s, locks, st), locks)
  {
    hide Statement, Entry;
  }

  /** A statement keeps its channel sound, and is no ASSERT. */
  predicate Kept(c: Chan, pc: Pc) {
    !pc.Idle? &&
    var (c', p) := Statement(c, pc);
    p.Some? && ChanSound(c', pc.ch, p.value) && (p.value.Idle? || (p.value.ch == pc.ch && PcSound(c', p.value)))
  }

  lemma {:induction false} StatementSound(c: Chan, pc: Pc)
    requires !pc.Idle? && ChanSound(c, pc.ch, pc) && PcSound(c, pc)
    ensures Kept(c, pc)
  {
    if pc.FreeFlushing? || pc.SetFlushing? || pc.CloseFlushing? {
      FlushSound(c, pc);
    } else if pc.SetEntered? || pc.SetInside? || pc.SetTested? || pc.FreeEntered? || pc.FreeInside? || pc.FreeTested? || pc.FreeCleared? {
      FilterSound(c, pc);
    }
  }

  lemma {:induction false} FlushSound(c: Chan, pc: Pc)
    requires ChanSound(c, if pc.Idle? then 0 else pc.ch, pc) && PcSound(c, pc)
    requires pc.FreeFlushing? || pc.SetFlushing? || pc.CloseFlushing?
    ensures Kept(c, pc)
  {
    var (c', p) := Statement(c, pc);
    forall f | f in c'.queue
      ensures f in c.queue
    {
    }
  }

  lemma {:induction false} FilterSound(c: Chan, pc: Pc)
    requires ChanSound(c, if pc.Idle? then 0 else pc.ch, pc) && PcSound(c, pc)
    requires pc.SetEntered? || pc.SetInside? || pc.SetTested? || pc.FreeEntered? || pc.FreeInside? || pc.FreeTested? || pc.FreeCleared?
    ensures Kept(c, pc)
  {
  }

  lemma {:induction false} Elsewhere(c: Chan, ch: nat, pc: Pc, p: Pc)
    requires ChanSound(c, ch, pc) && (pc.Idle? || pc.ch != ch)
    ensures ChanSound(c, ch, p)
  {
  }

  lemma {:induction false} AdvanceSound(s: State, locks: seq<bool>, k: nat)
    requires |locks| == |s.pcs| && Exclusive(s, locks) && Sound(s) && Enabled(s, locks, Advance(k))
    ensures Sound(Apply(s, locks, Advance(k)))
  {
    hide Statement, ChanSound, PcSound;
    var pc, s' := s.pcs[k], Apply(s, locks, Advance(k));
    CurrentIs(s.pcs, k);
    StatementSound(s.chans[pc.ch], pc);
    CurrentIs(s'.pcs, k);
    forall ch | 0 <= ch < |s'.chans| && ch != pc.ch
      ensures ChanSound(s'.chans[ch], ch, s'.pcs[k])
    {
      assert ChanSound(s.chans[ch], ch, pc);
      Elsewhere(s.chans[ch], ch, pc, s'.pcs[k]);
    }
  }

  /** The driver callback, or a section that leaves a queue. */
  lemma {:induction false} QueueSound(s: State, locks: seq<bool>, st: Step)
    requires |locks| == |s.pcs| && Sound(s) && Enabled(s, locks, st) && (st.Arrive? || st.Drop?)
    ensures Sound(Apply(s, locks, st))
  {
    var s', pc := Apply(s, locks, st), Current(s.pcs);
    forall ch | 0 <= ch < |s'.chans|
      ensures ChanSound(s'.chans[ch], ch, pc) && (!pc.Idle? && pc.ch == ch ==> PcSound(s'.chans[ch], pc))
    {
      assert ChanSound(s.chans[ch], ch, pc);
    }
    hide ChanSound, PcSound;
  }

  lemma {:induction false} BeginSound(s: State, locks: seq<bool>, k: nat, pc: Pc)
    requires |locks| == |s.pcs| && Serialized(locks) && Exclusive(s, locks) && Sound(s) && Enabled(s, locks, Begin(k, pc))
    ensures Sound(Apply(s, locks, Begin(k, pc)))
  {
    var s' := Apply(s, locks, Begin(k, pc));
    forall j | 0 <= j < |s.pcs|
      ensures s.pcs[j].Idle?
    {
    }
    CurrentIs(s'.pcs, k);
    forall ch | 0 <= ch < |s.chans|
      ensures ChanSound(s.chans[ch], ch, pc)
    {
      Elsewhere(s.chans[ch], ch, Idle, pc);
    }
    hide ChanSound, Current;
  }

  lemma {:induction false} StepSound(s: State, locks: seq<bool>, st: Step)
    requires |locks| == |s.pcs| && Serialized(locks) && Exclusive(s, locks) && Sound(s) && Enabled(s, locks, st)
    ensures Sound(Apply(s, locks, st))
  {
    hide Sound, Apply, Exclusive;
    match st
    case Begin(k, pc) => BeginSound(s, locks, k, pc);
    case Advance(k) => AdvanceSound(s, locks, k);
    case _ => QueueSound(s, locks, st);
  }

  ghost predicate IsRun(ss: seq<State>, locks: seq<bool>, sts: seq<Step>) {
    |ss| == |sts| + 1
    && (forall i :: 0 <= i < |ss| ==> |ss[i].pcs| == |locks|)
    && forall i :: 0 <= i < |sts| ==> Enabled(ss[i], locks, sts[i]) && ss[i+1] == Apply(ss[i], locks, sts[i])
  }

  /** After initialisation: all channels blank, nobody inside. */
  function Fresh(channels: nat, contexts: nat): State {
    State(seq(channels, _ => BLANK), None, seq(contexts, _ => Idle), false)
  }

  lemma {:induction false} RunSound(channels: nat, ss: seq<State>, locks: seq<bool>, sts: seq<Step>, k: nat)
    requires Serialized(locks) && IsRun(ss, locks, sts) && ss[0] == Fresh(channels, |locks|) && k < |ss|
    ensures Exclusive(ss[k], locks) && Sound(ss[k])
    decreases k
  {
    if k > 0 {
      hide Exclusive, Sound, Apply, Enabled;
      RunSound(channels, ss, locks, sts, k - 1);
      StepExclusive(ss[k-1], locks, sts[k-1]);
      StepSound(ss[k-1], locks, sts[k-1]);
    }
  }

  // ----- without serialization the ASSERT is reachable -----

  function TwoBusy(n: nat, j: nat, k: nat, pj: Pc, pk: Pc): seq<Pc> {
    seq(n, i => if i == j then pj else if i == k then pk else Idle)
  }

  lemma {:induction false} TwoBusyUpdate(n: nat, j: nat, k: nat, pj: Pc, pk: Pc, p: Pc)
    requires j < n && k < n && j != k
    ensures TwoBusy(n, j, k, pj, pk)[j := p] == TwoBusy(n, j, k, p, pk)
    ensures TwoBusy(n, j, k, pj, pk)[k := p] == TwoBusy(n, j, k, pj, p)
  {
  }

  lemma {:induction false} TwoBusyAt(n: nat, j: nat, k: nat, pj: Pc, pk: Pc)
    requires j < n && k < n && j != k
    ensures |TwoBusy(n, j, k, pj, pk)| == n && TwoBusy(n, j, k, pj, pk)[j] == pj && TwoBusy(n, j, k, pj, pk)[k] == pk
  {
  }

  /** Context j allocates channel 0 and filter 0. Context k, without the mutex, has tested the bit in set_filter
      when j runs free_filter from start to end; k then enables a filter that is no longer allocated, and j
      frees it once more. */
  function RaceStep(i: nat, j: nat, k: nat): Step {
    match i
    case 0 => Begin(j, OpenFound(0))
    case 3 => Begin(j, AllocFound(0, 0))
    case 5 => Begin(k, SetEntered(0, 0))
    case 6 => Advance(k)
    case 7 => Advance(k)
    case 8 => Begin(j, FreeEntered(0, 0))
    case 14 => Advance(k)
    case 15 => Advance(k)
    case 16 => Begin(j, FreeEntered(0, 0))
    case _ => Advance(j)
  }

  /** Where j and k stand, and the channel, before step i. */
  function RacePcs(i: nat): (Pc, Pc) {
    match i
    case 1 => (OpenFound(0), Idle)
    case 2 => (OpenAllocated(0), Idle)
    case 4 => (AllocFound(0, 0), Idle)
    case 6 => (Idle, SetEntered(0, 0))
    case 7 => (Idle, SetInside(0, 0))
    case 8 => (Idle, SetTested(0, 0))
    case 9 => (FreeEntered(0, 0), SetTested(0, 0))
    case 10 => (FreeInside(0, 0), SetTested(0, 0))
    case 11 => (FreeTested(0, 0), SetTested(0, 0))
    case 12 => (FreeCleared(0, 0), SetTested(0, 0))
    case 13 => (FreeFlushing(0, 0), SetTested(0, 0))
    case 14 => (Idle, SetTested(0, 0))
    case 15 => (Idle, SetFlushing(0, 0))
    case 17 => (FreeEntered(0, 0), Idle)
    case 18 => (FreeInside(0, 0), Idle)
    case 19 => (FreeInside(0, 0), Idle)
    case _ => (Idle, Idle)
  }

  function RaceChan(i: nat): Chan {
    if i <= 1 then BLANK
    else if i == 2 then Chan({}, {}, [], false, true, false)
    else if i <= 4 then Chan({}, {}, [], true, true, false)
    else if i <= 11 then Chan({0}, {}, [], true, true, false)
    else if i <= 15 then Chan({}, {}, [], true, true, false)
    else Chan({}, {0}, [], true, true, false)
  }

  function RaceState(i: nat, n: nat, j: nat, k: nat, lock: bool): State {
    var (pj, pk) := RacePcs(i);
    State([RaceChan(i)], if lock && !pj.Idle? then Some(j) else None, TwoBusy(n, j, k, pj, pk), i >= 19)
  }

  lemma {:induction false} RaceStatement(i: nat)
    requires i < 18 && RaceStep(i, 0, 1).Advance?
    ensures var pc := if RaceStep(i, 0, 1).k == 0 then RacePcs(i).0 else RacePcs(i).1;
      var next := if RaceStep(i, 0, 1).k == 0 then RacePcs(i + 1).0 else RacePcs(i + 1).1;
      Statement(RaceChan(i), pc) == (RaceChan(i + 1), Some(next))
  {
    var none: set<nat> := {};
    assert {0} - {0} == none && none - {0} == none && none + {0} == {0};
  }

  /** The steps between the first statement of a call and its last. */
  lemma {:induction false} RaceAdvance(i: nat, locks: seq<bool>, j: nat, k: nat)
    requires i < 18 && j < |locks| && k < |locks| && j != k && !locks[k] && RaceStep(i, 0, 1).Advance?
    ensures var s := RaceState(i, |locks|, j, k, locks[j]);
      |s.pcs| == |locks| && Enabled(s, locks, RaceStep(i, j, k))
      && Apply(s, locks, RaceStep(i, j, k)) == RaceState(i + 1, |locks|, j, k, locks[j])
  {
    TwoBusyUpdate(|locks|, j, k, RacePcs(i).0, RacePcs(i).1, RacePcs(i + 1).0);
    TwoBusyUpdate(|locks|, j, k, RacePcs(i).0, RacePcs(i).1, RacePcs(i + 1).1);
    TwoBusyAt(|locks|, j, k, RacePcs(i).0, RacePcs(i).1);
    RaceStatement(i);
    hide Statement, TwoBusy, Entry, RaceChan;
  }

  lemma {:induction false} RaceStepOk(i: nat, locks: seq<bool>, j: nat, k: nat)
    requires i < 19 && j < |locks| && k < |locks| && j != k && !locks[k]
    ensures var s := RaceState(i, |locks|, j, k, locks[j]);
      |s.pcs| == |locks| && Enabled(s, locks, RaceStep(i, j, k))
      && Apply(s, locks, RaceStep(i, j, k)) == RaceState(i + 1, |locks|, j, k, locks[j])
  {
    if i < 18 && RaceStep(i, 0, 1).Advance? {
      hide Apply, Enabled, RaceState;
      RaceAdvance(i, locks, j, k);
      RaceShape(i, |locks|, j, k, locks[j]);
    } else {
      TwoBusyUpdate(|locks|, j, k, RacePcs(i).0, RacePcs(i).1, RacePcs(i + 1).0);
      TwoBusyUpdate(|locks|, j, k, RacePcs(i).0, RacePcs(i).1, RacePcs(i + 1).1);
      TwoBusyAt(|locks|, j, k, RacePcs(i).0, RacePcs(i).1);
      hide TwoBusy;
    }
  }

  lemma {:induction false} RaceShape(i: nat, n: nat, j: nat, k: nat, lock: bool)
    ensures |RaceState(i, n, j, k, lock).pcs| == n
  {
  }

  /** The functions are safe in every run exactly when they are serialized: every context takes the mutex, or
      there is only one. The ADM task does not take it. */
  lemma {:induction false} SafeIffSerialized(locks: seq<bool>)
    ensures Serialized(locks) <==>
      forall channels: nat, ss: seq<State>, sts: seq<Step> ::
        IsRun(ss, locks, sts) && ss[0] == Fresh(channels, |locks|) ==> !ss[|sts|].asserted
  {
    if Serialized(locks) {
      forall channels: nat, ss: seq<State>, sts: seq<Step> | IsRun(ss, locks, sts) && ss[0] == Fresh(channels, |locks|)
        ensures !ss[|sts|].asserted
      {
        RunSound(channels, ss, locks, sts, |sts|);
      }
    } else {
      var k :| 0 <= k < |locks| && !locks[k];
      var j := if k == 0 then 1 else 0;
      var ss, sts := RaceRun(locks, j, k);
    }
  }

  lemma {:induction false} RaceRun(locks: seq<bool>, j: nat, k: nat) returns (ss: seq<State>, sts: seq<Step>)
    requires j < |locks| && k < |locks| && j != k && !locks[k]
    ensures IsRun(ss, locks, sts) && ss[0] == Fresh(1, |locks|) && ss[|sts|].asserted
  {
    var n := |locks|;
    ss := seq(20, i requires i >= 0 => RaceState(i, n, j, k, locks[j]));
    sts := seq(19, i requires i >= 0 => RaceStep(i, j, k));
    forall i | 0 <= i < 19
      ensures |ss[i].pcs| == |locks| && Enabled(ss[i], locks, sts[i]) && ss[i+1] == Apply(ss[i], locks, sts[i])
    {
      RaceStepOk(i, locks, j, k);
      hide Enabled, Apply, RaceStep;
    }
    assert TwoBusy(n, j, k, Idle, Idle) == Fresh(1, n).pcs && [BLANK] == Fresh(1, n).chans;
  }
}
