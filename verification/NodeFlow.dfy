/** Section nodes under every interleaving of the driver callback, the ADM task and API callers.

    A step is one list operation, or one statement of adv_dmx_alloc_channel and adv_dmx_free_channel that
    touches a node: between two steps of one context, any other context may run. The source turns task
    dispatch off around each list operation and around nothing else; the driver callback is one step. */
module NodeFlow {
  import opened DmxState
  import opened Select

  /** What a node holds: its filter, and a serial number of the section stored into it. */
  datatype Content = Content(flt: nat, serial: nat)

  /** The ADM task between peeking a section and popping one. */
  datatype AdmPc = Scanning | Peeked(ch: nat, node: nat, serial: nat)

  /** Where a context stands, and which node its local variable holds. */
  datatype Pc =
    | Out
    | Holding(node: nat)               // rel_sec, or the flush loop of a function other than free_channel
    | Chose(ch: nat)                   // alloc_channel: the scan found an idle channel
    | Got(ch: nat, node: nat)          // alloc_channel: and node_get a node
    | Freeing(ch: nat)                 // free_channel: in the flush loop
    | FreeingWith(ch: nat, node: nat)  // free_channel: a flushed node in hand
    | FreeDone(ch: nat)                // free_channel: wk_buf returned, the record not yet reset

  /** wk_buf: NULL; a node it owns; a node that is back on the free list although wk_buf still names it. */
  datatype Work = Empty | Live(node: nat) | Returned(node: nat)

  /** Does a context call alloc_channel, free_channel, en_channel and dis_channel, and does it take the
      mutex? Context 0 is the ADM task, whose callbacks skip the mutex. */
  datatype Mode = Absent | Locked | Unlocked

  /** `lost` are nodes in no list, buffer or variable; `torn` says that a node was linked in twice. */
  datatype Flow = Flow(free: seq<nat>, queues: seq<seq<nat>>, work: seq<Work>, isAlloc: seq<bool>, isOn: seq<bool>,
                       pcs: seq<Pc>, owner: Option<nat>, content: seq<Content>, next: nat, adm: AdmPc,
                       lost: seq<nat>, torn: bool)

  const ADM: nat := 0

  datatype Step =
    | Arrive(ch: nat, flt: nat)           // sec_cb
    | TakeHead(k: nat, ch: nat)           // node_get(sec_list): rel_sec and the flush loops
    | TakeOne(k: nat, ch: nat, flt: nat)  // node_get_one(sec_list, flt): rel_sec, free_filter, set_filter
    | GiveBack(k: nat)                    // node_return(node, BUF_NODE_HEAD)
    | ChooseIdle(k: nat, ch: nat)         // alloc_channel: enter, scan
    | GetWork(k: nat)                     // alloc_channel: node_get(BUF_NODE_HEAD); leave if there is none
    | Install(k: nat)                     // alloc_channel: wk_buf = node, allocated = 1, leave
    | EnterFree(k: nat, ch: nat)          // free_channel: enter, tests
    | FlushOne(k: nat)                    // free_channel: node_get(sec_list)
    | FlushBack(k: nat)                   // free_channel: node_return of that node
    | ReturnWork(k: nat)                  // free_channel: the queue is empty, node_return(wk_buf)
    | Reset(k: nat)                       // free_channel: init_channel, leave
    | Switch(k: nat, ch: nat, on: bool)   // en_channel, dis_channel
    | Peek(ch: nat)                       // ADM: node_try_get, again and again after one test of the channel
    | Pop                                 // ADM: the callback succeeded, node_get, compare
    | Refuse                              // ADM: the callback failed

  function FltKeys(q: seq<nat>, content: seq<Content>): (keys: seq<nat>)
    ensures |keys| == |q|
  {
    seq(|q|, i requires 0 <= i < |q| => if q[i] < |content| then content[q[i]].flt else 0)
  }

  predicate Shaped(s: Flow) {
    |s.queues| == |s.work| == |s.isAlloc| == |s.isOn|
  }

  /** The context can enter a function; on the ADM task only from inside a section callback. */
  predicate Free(s: Flow, k: nat) {
    k < |s.pcs| && s.pcs[k].Out? && (k == ADM ==> s.adm.Peeked?)
  }

  predicate CanLock(s: Flow, modes: seq<Mode>, k: nat) {
    k < |modes| && !modes[k].Absent? && (modes[k].Locked? ==> s.owner.None?)
  }

  predicate Enabled(s: Flow, modes: seq<Mode>, st: Step) {
    Shaped(s) &&
    match st
    case Arrive(ch, _) => ch < |s.queues| && s.isAlloc[ch] && s.isOn[ch] && s.free != [] && s.free[0] < |s.content|
    case TakeHead(k, ch) => Free(s, k) && ch < |s.queues| && s.queues[ch] != []
    case TakeOne(k, ch, flt) => Free(s, k) && ch < |s.queues| && FirstAt(FltKeys(s.queues[ch], s.content), flt) < |s.queues[ch]|
    case GiveBack(k) => k < |s.pcs| && s.pcs[k].Holding?
    case ChooseIdle(k, ch) => Free(s, k) && CanLock(s, modes, k) && ch < |s.queues| && !s.isAlloc[ch]
                              && forall j :: 0 <= j < ch ==> s.isAlloc[j]
    case GetWork(k) => k < |s.pcs| && s.pcs[k].Chose?
    case Install(k) => k < |s.pcs| && s.pcs[k].Got? && s.pcs[k].ch < |s.queues|
    case EnterFree(k, ch) => Free(s, k) && CanLock(s, modes, k) && ch < |s.queues| && s.isAlloc[ch] && !s.isOn[ch]
    case FlushOne(k) => k < |s.pcs| && s.pcs[k].Freeing? && s.pcs[k].ch < |s.queues| && s.queues[s.pcs[k].ch] != []
    case FlushBack(k) => k < |s.pcs| && s.pcs[k].FreeingWith?
    case ReturnWork(k) => k < |s.pcs| && s.pcs[k].Freeing? && s.pcs[k].ch < |s.queues| && s.queues[s.pcs[k].ch] == []
    case Reset(k) => k < |s.pcs| && s.pcs[k].FreeDone? && s.pcs[k].ch < |s.queues|
    case Switch(k, ch, on) => Free(s, k) && CanLock(s, modes, k) && ch < |s.queues| && s.isAlloc[ch]
    case Peek(ch) => s.adm.Scanning? && ADM < |s.pcs| && s.pcs[ADM].Out? && ch < |s.queues|
                     && s.queues[ch] != [] && s.queues[ch][0] < |s.content|
    case Pop => s.adm.Peeked? && s.adm.ch < |s.queues| && ADM < |s.pcs| && s.pcs[ADM].Out?
    case Refuse => s.adm.Peeked? && ADM < |s.pcs| && s.pcs[ADM].Out?
  }

  function Enter(s: Flow, modes: seq<Mode>, k: nat, pc: Pc): Flow
    requires k < |s.pcs| && k < |modes|
  {
    s.(pcs := s.pcs[k := pc], owner := if modes[k].Locked? then Some(k) else s.owner)
  }

  function Leave(s: Flow, modes: seq<Mode>, k: nat): Flow
    requires k < |s.pcs|
  {
    s.(pcs := s.pcs[k := Out], owner := if k < |modes| && modes[k].Locked? then None else s.owner)
  }

  function Take(s: Flow, k: nat, ch: nat, i: nat, pc: Pc): Flow
    requires k < |s.pcs| && ch < |s.queues| && i < |s.queues[ch]|
  {
    s.(queues := s.queues[ch := Without(s.queues[ch], i)], pcs := s.pcs[k := pc])
  }

  function Apply(s: Flow, modes: seq<Mode>, st: Step): Flow
    requires Enabled(s, modes, st)
  {
    match st
    case Arrive(ch, flt) =>
      s.(free := s.free[1..], queues := s.queues[ch := s.queues[ch] + [s.free[0]]],
         content := s.content[s.free[0] := Content(flt, s.next)], next := s.next + 1)
    case TakeHead(k, ch) => Take(s, k, ch, 0, Holding(s.queues[ch][0]))
    case TakeOne(k, ch, flt) =>
      var i := FirstAt(FltKeys(s.queues[ch], s.content), flt);
      Take(s, k, ch, i, Holding(s.queues[ch][i]))
    case GiveBack(k) => s.(pcs := s.pcs[k := Out], free := s.free + [s.pcs[k].node])
    case ChooseIdle(k, ch) => Enter(s, modes, k, Chose(ch))
    case GetWork(k) =>
      if s.free == [] then Leave(s, modes, k)
      else s.(free := s.free[1..], pcs := s.pcs[k := Got(s.pcs[k].ch, s.free[0])])
    case Install(k) =>
      var ch := s.pcs[k].ch;
      Leave(s, modes, k).(work := s.work[ch := Live(s.pcs[k].node)], isAlloc := s.isAlloc[ch := true],
                          lost := s.lost + Overwritten(s.work[ch]))
    case EnterFree(k, ch) => Enter(s, modes, k, Freeing(ch))
    case FlushOne(k) => var ch := s.pcs[k].ch; Take(s, k, ch, 0, FreeingWith(ch, s.queues[ch][0]))
    case FlushBack(k) => s.(pcs := s.pcs[k := Freeing(s.pcs[k].ch)], free := s.free + [s.pcs[k].node])
    case ReturnWork(k) =>
      var ch := s.pcs[k].ch;
      match s.work[ch] {
        case Empty => Leave(s, modes, k)
        case Live(n) => s.(pcs := s.pcs[k := FreeDone(ch)], work := s.work[ch := Returned(n)], free := s.free + [n])
        case Returned(n) => s.(pcs := s.pcs[k := FreeDone(ch)], torn := true)
      }
    case Reset(k) =>
      var ch := s.pcs[k].ch;
      Leave(s, modes, k).(work := s.work[ch := Empty], queues := s.queues[ch := []], isAlloc := s.isAlloc[ch := false],
                          isOn := s.isOn[ch := false], lost := s.lost + Overwritten(s.work[ch]) + s.queues[ch])
    case Switch(k, ch, on) => s.(isOn := s.isOn[ch := on])
    case Peek(ch) => s.(adm := Peeked(ch, s.queues[ch][0], s.content[s.queues[ch][0]].serial))
    case Pop =>
      var ch := s.adm.ch;
      if s.queues[ch] == [] then s.(adm := Scanning)
      else if s.queues[ch][0] == s.adm.node then Take(s, ADM, ch, 0, Holding(s.adm.node)).(adm := Scanning)
      else s.(queues := s.queues[ch := s.queues[ch][1..]], lost := s.lost + [s.queues[ch][0]], adm := Scanning)
    case Refuse => s.(adm := Scanning)
  }

  /** The node nobody names any more once wk_buf is overwritten. */
  function Overwritten(w: Work): seq<nat> {
    if w.Live? then [w.node] else []
  }

  // ----- each node is in exactly one place -----

  function HeldBy(pc: Pc): Option<nat> {
    match pc
    case Holding(n) => Some(n)
    case Got(_, n) => Some(n)
    case FreeingWith(_, n) => Some(n)
    case _ => None
  }

  function Hands(pcs: seq<Pc>): seq<Option<nat>> {
    seq(|pcs|, i requires 0 <= i < |pcs| => HeldBy(pcs[i]))
  }

  function Owned(work: seq<Work>): seq<Option<nat>> {
    seq(|work|, i requires 0 <= i < |work| => if work[i].Live? then Some(work[i].node) else None)
  }

  ghost function InOptions(os: seq<Option<nat>>, n: nat): nat {
    if os == [] then 0 else (if os[0] == Some(n) then 1 else 0) + InOptions(os[1..], n)
  }

  ghost function InQueues(qs: seq<seq<nat>>, n: nat): nat {
    if qs == [] then 0 else multiset(qs[0])[n] + InQueues(qs[1..], n)
  }

  /** How many places hold node n: free list, queues, working buffers, contexts, or lost. */
  ghost function Places(s: Flow, n: nat): nat {
    multiset(s.free)[n] + InQueues(s.queues, n) + InOptions(Owned(s.work), n) + InOptions(Hands(s.pcs), n)
    + multiset(s.lost)[n]
  }

  ghost predicate OnePlace(s: Flow) {
    forall n: nat :: Places(s, n) == if n < |s.content| then 1 else 0
  }

  lemma {:induction false} OptionsUpdate(os: seq<Option<nat>>, i: nat, o: Option<nat>, n: nat)
    requires i < |os|
    ensures InOptions(os[i := o], n)
            == InOptions(os, n) - (if os[i] == Some(n) then 1 else 0) + if o == Some(n) then 1 else 0
    ensures os[i] == Some(n) ==> InOptions(os, n) >= 1
  {
    if i == 0 {
      assert os[0 := o][1..] == os[1..];
    } else {
      assert os[i := o][1..] == os[1..][i-1 := o];
      OptionsUpdate(os[1..], i-1, o, n);
    }
  }

  lemma {:induction false} HandsUpdate(pcs: seq<Pc>, k: nat, pc: Pc, n: nat)
    requires k < |pcs|
    ensures InOptions(Hands(pcs[k := pc]), n)
            == InOptions(Hands(pcs), n) - (if HeldBy(pcs[k]) == Some(n) then 1 else 0) + if HeldBy(pc) == Some(n) then 1 else 0
    ensures HeldBy(pcs[k]) == Some(n) ==> InOptions(Hands(pcs), n) >= 1
  {
    assert Hands(pcs[k := pc]) == Hands(pcs)[k := HeldBy(pc)];
    OptionsUpdate(Hands(pcs), k, HeldBy(pc), n);
  }

  lemma {:induction false} WorkUpdate(work: seq<Work>, ch: nat, w: Work, n: nat)
    requires ch < |work|
    ensures InOptions(Owned(work[ch := w]), n)
            == InOptions(Owned(work), n) - multiset(Overwritten(work[ch]))[n] + if w == Live(n) then 1 else 0
  {
    var o := if w.Live? then Some(w.node) else None;
    assert Owned(work[ch := w]) == Owned(work)[ch := o];
    OptionsUpdate(Owned(work), ch, o, n);
  }

  lemma {:induction false} QueuesUpdate(qs: seq<seq<nat>>, i: nat, q: seq<nat>, n: nat)
    requires i < |qs|
    ensures InQueues(qs[i := q], n) == InQueues(qs, n) - multiset(qs[i])[n] + multiset(q)[n]
    ensures multiset(qs[i])[n] <= InQueues(qs, n)
  {
    if i == 0 {
      assert qs[0 := q][1..] == qs[1..];
    } else {
      assert qs[i := q][1..] == qs[1..][i-1 := q];
      QueuesUpdate(qs[1..], i-1, q, n);
    }
  }

  lemma {:induction false} CountWithout(q: seq<nat>, i: nat, n: nat)
    requires i < |q|
    ensures multiset(q)[n] == multiset(Without(q, i))[n] + if q[i] == n then 1 else 0
  {
    assert q == q[..i] + [q[i]] + q[i+1..];
  }

  lemma {:induction false} CountHead(q: seq<nat>, n: nat)
    requires q != []
    ensures multiset(q)[n] == multiset(q[1..])[n] + if q[0] == n then 1 else 0
  {
    assert q == [q[0]] + q[1..];
  }

  lemma {:induction false} TakePlaces(s: Flow, k: nat, ch: nat, i: nat, pc: Pc, n: nat)
    requires k < |s.pcs| && HeldBy(s.pcs[k]).None? && ch < |s.queues| && i < |s.queues[ch]| && HeldBy(pc) == Some(s.queues[ch][i])
    ensures Places(Take(s, k, ch, i, pc), n) == Places(s, n)
  {
    QueuesUpdate(s.queues, ch, Without(s.queues[ch], i), n);
    CountWithout(s.queues[ch], i, n);
    HandsUpdate(s.pcs, k, pc, n);
  }

  lemma {:induction false} AllocPlaces(s: Flow, modes: seq<Mode>, st: Step, n: nat)
    requires Enabled(s, modes, st) && (st.ChooseIdle? || st.GetWork? || st.Install?)
    ensures Places(Apply(s, modes, st), n) == Places(s, n)
  {
    hide Hands, Owned, InOptions, InQueues;
    var s' := Apply(s, modes, st);
    HandsUpdate(s.pcs, st.k, s'.pcs[st.k], n);
    match st
    case ChooseIdle(k, ch) =>
    case GetWork(k) => if s.free != [] { CountHead(s.free, n); }
    case Install(k) => WorkUpdate(s.work, s.pcs[k].ch, Live(s.pcs[k].node), n);
  }

  lemma {:induction false} ReturnPlaces(s: Flow, modes: seq<Mode>, k: nat, n: nat)
    requires Enabled(s, modes, ReturnWork(k))
    ensures Places(Apply(s, modes, ReturnWork(k)), n) == Places(s, n)
  {
    hide Hands, Owned, InOptions, InQueues;
    var s' := Apply(s, modes, ReturnWork(k));
    HandsUpdate(s.pcs, k, s'.pcs[k], n);
    if s.work[s.pcs[k].ch].Live? {
      WorkUpdate(s.work, s.pcs[k].ch, Returned(s.work[s.pcs[k].ch].node), n);
    }
  }

  lemma {:induction false} ResetPlaces(s: Flow, modes: seq<Mode>, k: nat, n: nat)
    requires Enabled(s, modes, Reset(k))
    ensures Places(Apply(s, modes, Reset(k)), n) == Places(s, n)
  {
    hide Hands, Owned, InOptions, InQueues, Overwritten;
    var ch := s.pcs[k].ch;
    var gone: seq<nat>, q: seq<nat> := Overwritten(s.work[ch]), s.queues[ch];
    var all: seq<nat> := s.lost + gone + q;
    HandsUpdate(s.pcs, k, Out, n);
    WorkUpdate(s.work, ch, Empty, n);
    QueuesUpdate(s.queues, ch, [], n);
    assert multiset(all) == multiset(s.lost) + multiset(gone) + multiset(q);
  }

  lemma {:induction false} PopPlaces(s: Flow, modes: seq<Mode>, n: nat)
    requires Enabled(s, modes, Pop)
    ensures Places(Apply(s, modes, Pop), n) == Places(s, n)
  {
    hide Hands, Owned, InOptions, InQueues;
    var ch := s.adm.ch;
    if s.queues[ch] != [] {
      if s.queues[ch][0] == s.adm.node {
        TakePlaces(s, ADM, ch, 0, Holding(s.adm.node), n);
      } else {
        CountHead(s.queues[ch], n);
        QueuesUpdate(s.queues, ch, s.queues[ch][1..], n);
      }
    }
  }

  /** Taking a node from a queue, and giving one back. */
  lemma {:induction false} MovePlaces(s: Flow, modes: seq<Mode>, st: Step, n: nat)
    requires Enabled(s, modes, st) && (st.TakeHead? || st.TakeOne? || st.GiveBack? || st.FlushOne? || st.FlushBack?)
    ensures Places(Apply(s, modes, st), n) == Places(s, n)
  {
    hide Hands, Owned, InOptions, InQueues;
    match st
    case TakeHead(k, ch) => TakePlaces(s, k, ch, 0, Holding(s.queues[ch][0]), n);
    case TakeOne(k, ch, flt) =>
      var i := FirstAt(FltKeys(s.queues[ch], s.content), flt);
      TakePlaces(s, k, ch, i, Holding(s.queues[ch][i]), n);
    case GiveBack(k) => HandsUpdate(s.pcs, k, Out, n);
    case FlushOne(k) => TakePlaces(s, k, s.pcs[k].ch, 0, FreeingWith(s.pcs[k].ch, s.queues[s.pcs[k].ch][0]), n);
    case FlushBack(k) => HandsUpdate(s.pcs, k, Freeing(s.pcs[k].ch), n);
  }

  /** No step of any context moves a node to two places or to none, whoever takes the mutex. */
  lemma {:induction false} StepPlaces(s: Flow, modes: seq<Mode>, st: Step, n: nat)
    requires Enabled(s, modes, st)
    ensures Places(Apply(s, modes, st), n) == Places(s, n)
  {
    match st
    case Arrive(ch, flt) =>
      CountHead(s.free, n);
      QueuesUpdate(s.queues, ch, s.queues[ch] + [s.free[0]], n);
    case EnterFree(k, ch) => HandsUpdate(s.pcs, k, Freeing(ch), n);
    case ReturnWork(k) => ReturnPlaces(s, modes, k, n);
    case Reset(k) => ResetPlaces(s, modes, k, n);
    case Pop => PopPlaces(s, modes, n);
    case Switch(_, _, _) =>
    case Peek(_) =>
    case Refuse =>
    case _ =>
      hide Places;
      if st.ChooseIdle? || st.GetWork? || st.Install? {
        AllocPlaces(s, modes, st, n);
      } else {
        MovePlaces(s, modes, st, n);
      }
  }

  /** A run: states and the steps between them. */
  ghost predicate IsRun(ss: seq<Flow>, modes: seq<Mode>, sts: seq<Step>) {
    |ss| == |sts| + 1 && forall i :: 0 <= i < |sts| ==> Enabled(ss[i], modes, sts[i]) && ss[i+1] == Apply(ss[i], modes, sts[i])
  }

  /** In every reachable state each node of the arena is in exactly one place, once. */
  lemma {:induction false} RunOnePlace(ss: seq<Flow>, modes: seq<Mode>, sts: seq<Step>, k: nat)
    requires IsRun(ss, modes, sts) && OnePlace(ss[0]) && k < |ss|
    ensures OnePlace(ss[k]) && |ss[k].content| == |ss[0].content|
  {
    hide Places;
    if k > 0 {
      RunOnePlace(ss, modes, sts, k - 1);
      var s, s' := ss[k-1], ss[k];
      assert s' == Apply(s, modes, sts[k-1]);
      forall n: nat
        ensures Places(s', n) == if n < |s'.content| then 1 else 0
      {
        StepPlaces(s, modes, sts[k-1], n);
        assert Places(s, n) == if n < |s.content| then 1 else 0;
      }
    }
  }

  // ----- when a node leaves circulation -----

  /** The three ways to lose nodes: a pop finds a head other than the one peeked; alloc_channel overwrites
      a working buffer; free_channel resets a record that has got a working buffer or sections again. */
  predicate Loses(s: Flow, st: Step) {
    match st
    case Pop => s.adm.Peeked? && s.adm.ch < |s.queues| && s.queues[s.adm.ch] != [] && s.queues[s.adm.ch][0] != s.adm.node
    case Install(k) => k < |s.pcs| && s.pcs[k].Got? && s.pcs[k].ch < |s.work| && s.work[s.pcs[k].ch].Live?
    case Reset(k) => k < |s.pcs| && s.pcs[k].FreeDone? && s.pcs[k].ch < |s.queues| && s.pcs[k].ch < |s.work|
                     && (s.work[s.pcs[k].ch].Live? || s.queues[s.pcs[k].ch] != [])
    case _ => false
  }

  /** Two contexts return the same working buffer. */
  predicate Tears(s: Flow, st: Step) {
    st.ReturnWork? && st.k < |s.pcs| && s.pcs[st.k].Freeing? && s.pcs[st.k].ch < |s.work| && s.work[s.pcs[st.k].ch].Returned?
  }

  /** A step loses nodes in exactly these three ways, and damages a list in exactly one. */
  lemma {:induction false} LosesExactly(s: Flow, modes: seq<Mode>, st: Step)
    requires Enabled(s, modes, st)
    ensures |Apply(s, modes, st).lost| > |s.lost| <==> Loses(s, st)
    ensures !Loses(s, st) ==> Apply(s, modes, st).lost == s.lost
    ensures Apply(s, modes, st).torn <==> s.torn || Tears(s, st)
  {
  }

  // ----- the ADM task between peek and pop -----

  /** A step takes the peeked node away from the head of its queue behind the ADM task's back. */
  predicate Interferes(s: Flow, modes: seq<Mode>, st: Step)
    requires Enabled(s, modes, st)
  {
    s.adm.Peeked? && !st.Pop? && !st.Refuse? && AtHead(s) && !AtHead(Apply(s, modes, st))
  }

  predicate AtHead(s: Flow) {
    s.adm.Peeked? && s.adm.ch < |s.queues| && s.queues[s.adm.ch] != [] && s.queues[s.adm.ch][0] == s.adm.node
  }

  /** The peeked section is still the head of its queue. */
  predicate Undisturbed(s: Flow) {
    s.adm.Peeked? ==> AtHead(s) && s.adm.node < |s.content| && s.content[s.adm.node].serial == s.adm.serial
  }

  /** A free node is in no queue. */
  lemma {:induction false} FreeNotQueued(s: Flow, ch: nat)
    requires OnePlace(s) && s.free != [] && ch < |s.queues|
    ensures s.free[0] !in s.queues[ch]
  {
    var n := s.free[0];
    assert Places(s, n) <= 1;
    assert n in multiset(s.free);
    QueuesUpdate(s.queues, ch, [], n);
  }

  lemma {:induction false} StepUndisturbed(s: Flow, modes: seq<Mode>, st: Step)
    requires OnePlace(s) && Undisturbed(s) && Enabled(s, modes, st) && !Interferes(s, modes, st)
    ensures Undisturbed(Apply(s, modes, st)) && !(st.Pop? && Loses(s, st))
  {
    hide OnePlace;
    if st.Arrive? && s.adm.Peeked? {
      FreeNotQueued(s, s.adm.ch);
      assert s.adm.node in s.queues[s.adm.ch];
    }
  }

  /** If no context ever takes the section that the ADM task is looking at, no pop loses a node, and
      every pop removes the very section that was called back. */
  lemma {:induction false} RunWithoutInterference(ss: seq<Flow>, modes: seq<Mode>, sts: seq<Step>, k: nat)
    requires IsRun(ss, modes, sts) && OnePlace(ss[0]) && ss[0].adm.Scanning? && k < |ss|
    requires forall i :: 0 <= i < |sts| ==> !Interferes(ss[i], modes, sts[i])
    ensures Undisturbed(ss[k]) && (k < |sts| && sts[k].Pop? ==> !Loses(ss[k], sts[k]))
  {
    hide OnePlace, Apply, Interferes;
    if k > 0 {
      RunWithoutInterference(ss, modes, sts, k - 1);
      RunOnePlace(ss, modes, sts, k - 1);
      StepUndisturbed(ss[k-1], modes, sts[k-1]);
    }
  }

  lemma {:induction false} StepDisturbs(s: Flow, modes: seq<Mode>, st: Step)
    requires OnePlace(s) && Enabled(s, modes, st) && !Undisturbed(Apply(s, modes, st))
    ensures Apply(s, modes, st).adm == s.adm && (Undisturbed(s) ==> Interferes(s, modes, st))
  {
    if Undisturbed(s) && !Interferes(s, modes, st) {
      StepUndisturbed(s, modes, st);
    }
  }

  /** Whoever finds the ADM task disturbed, as every pop that loses a node does, finds the step that
      disturbed it, and it came after the peek that this pop belongs to. */
  lemma {:induction false} DisturbedSincePeek(ss: seq<Flow>, modes: seq<Mode>, sts: seq<Step>, p: nat) returns (i: nat)
    requires IsRun(ss, modes, sts) && OnePlace(ss[0]) && ss[0].adm.Scanning? && p < |ss| && !Undisturbed(ss[p])
    ensures i < p && Interferes(ss[i], modes, sts[i])
    ensures forall j :: i <= j <= p ==> ss[j].adm == ss[p].adm
  {
    hide OnePlace, Apply, Enabled;
    assert p > 0;
    RunOnePlace(ss, modes, sts, p - 1);
    assert ss[p] == Apply(ss[p-1], modes, sts[p-1]);
    StepDisturbs(ss[p-1], modes, sts[p-1]);
    if Undisturbed(ss[p-1]) {
      i := p - 1;
    } else {
      i := DisturbedSincePeek(ss, modes, sts, p - 1);
    }
  }
}
