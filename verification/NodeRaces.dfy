/** When the section nodes are safe from racing channel calls, and runs in which they are not. */
module NodeRaces {
  import opened DmxState
  import opened Select
  import opened NodeFlow

  /** Inside alloc_channel or free_channel. */
  predicate Inside(pc: Pc) {
    !pc.Out? && !pc.Holding?
  }

  /** No two contexts call the channel functions, or all that do take the mutex. */
  predicate Serialized(modes: seq<Mode>) {
    forall j, k :: 0 <= j < k < |modes| ==> modes[j].Absent? || modes[k].Absent? || (modes[j].Locked? && modes[k].Locked?)
  }

  /** At most one context is inside, and it holds the mutex if it takes it. */
  predicate Exclusive(s: Flow, modes: seq<Mode>) {
    && |modes| == |s.pcs|
    && (forall j, k :: 0 <= j < k < |s.pcs| ==> !Inside(s.pcs[j]) || !Inside(s.pcs[k]))
    && (forall k :: 0 <= k < |s.pcs| && Inside(s.pcs[k]) ==>
          !modes[k].Absent? && (modes[k].Locked? ==> s.owner == Some(k)))
  }

  /** What a context inside knows about its channel. */
  predicate PcOk(s: Flow, pc: Pc) {
    Shaped(s) &&
    match pc
    case Chose(ch) => ch < |s.queues| && !s.isAlloc[ch]
    case Got(ch, _) => ch < |s.queues| && !s.isAlloc[ch]
    case Freeing(ch) => ch < |s.queues| && s.isAlloc[ch] && !s.isOn[ch] && s.work[ch].Live?
    case FreeingWith(ch, _) => ch < |s.queues| && s.isAlloc[ch] && !s.isOn[ch] && s.work[ch].Live?
    case FreeDone(ch) => ch < |s.queues| && s.isAlloc[ch] && !s.isOn[ch] && s.work[ch].Returned? && s.queues[ch] == []
    case _ => true
  }

  ghost predicate BeingReset(s: Flow, ch: nat) {
    exists k :: 0 <= k < |s.pcs| && s.pcs[k] == FreeDone(ch)
  }

  /** An idle channel has no working buffer; an allocated one has its own until it is being reset. */
  ghost predicate ChannelsOk(s: Flow) {
    && Shaped(s)
    && (forall k :: 0 <= k < |s.pcs| ==> PcOk(s, s.pcs[k]))
    && (forall ch: nat :: ch < |s.queues| ==>
          if s.isAlloc[ch] then s.work[ch].Live? || BeingReset(s, ch) else s.work[ch].Empty? && !s.isOn[ch])
  }

  ghost predicate Inv(s: Flow, modes: seq<Mode>) {
    Exclusive(s, modes) && ChannelsOk(s) && !s.torn
  }

  lemma {:induction false} OnlyOne(s: Flow, modes: seq<Mode>, k: nat)
    requires Exclusive(s, modes) && k < |s.pcs| && Inside(s.pcs[k])
    ensures forall j :: 0 <= j < |s.pcs| && j != k ==> !Inside(s.pcs[j])
  {
  }

  /** Whoever may enter finds nobody inside. */
  lemma {:induction false} EntersAlone(s: Flow, modes: seq<Mode>, k: nat)
    requires Serialized(modes) && Exclusive(s, modes) && Free(s, k) && CanLock(s, modes, k)
    ensures forall j :: 0 <= j < |s.pcs| ==> !Inside(s.pcs[j])
  {
    forall j | 0 <= j < |s.pcs| && Inside(s.pcs[j])
      ensures j == k
    {
    }
  }

  predicate ByOneInside(st: Step) {
    st.GetWork? || st.Install? || st.FlushOne? || st.FlushBack? || st.ReturnWork? || st.Reset?
  }

  predicate Entering(st: Step) {
    st.ChooseIdle? || st.EnterFree? || st.Switch?
  }

  lemma {:induction false} InsideInv(s: Flow, modes: seq<Mode>, st: Step)
    requires Inv(s, modes) && Enabled(s, modes, st) && ByOneInside(st)
    ensures Inv(Apply(s, modes, st), modes) && !Loses(s, st) && !Tears(s, st)
  {
    var k := st.k;
    OnlyOne(s, modes, k);
    assert PcOk(s, s.pcs[k]);
    var s' := Apply(s, modes, st);
    forall j | 0 <= j < |s'.pcs|
      ensures PcOk(s', s'.pcs[j])
    {
      assert j != k ==> s'.pcs[j] == s.pcs[j] && !Inside(s.pcs[j]);
    }
    assert st.ReturnWork? ==> s'.pcs[k] == FreeDone(s.pcs[k].ch);
  }

  lemma {:induction false} EnteringInv(s: Flow, modes: seq<Mode>, st: Step)
    requires Serialized(modes) && Inv(s, modes) && Enabled(s, modes, st) && Entering(st)
    ensures Inv(Apply(s, modes, st), modes)
  {
    var k := st.k;
    EntersAlone(s, modes, k);
    var s' := Apply(s, modes, st);
    forall j | 0 <= j < |s'.pcs|
      ensures PcOk(s', s'.pcs[j])
    {
      assert j != k ==> s'.pcs[j] == s.pcs[j] && !Inside(s.pcs[j]);
    }
  }

  /** Steps that touch neither the mutex nor any channel record. */
  lemma {:induction false} OtherInv(s: Flow, modes: seq<Mode>, st: Step)
    requires Inv(s, modes) && Enabled(s, modes, st) && !ByOneInside(st) && !Entering(st)
    ensures Inv(Apply(s, modes, st), modes) && (Loses(s, st) ==> st.Pop?)
  {
    var s' := Apply(s, modes, st);
    forall k | 0 <= k < |s'.pcs|
      ensures PcOk(s', s'.pcs[k]) && Inside(s'.pcs[k]) == Inside(s.pcs[k])
    {
      assert PcOk(s, s.pcs[k]);
    }
    forall ch: nat | ch < |s.queues| && BeingReset(s, ch)
      ensures BeingReset(s', ch)
    {
      var k :| 0 <= k < |s.pcs| && s.pcs[k] == FreeDone(ch);
      assert s'.pcs[k] == FreeDone(ch);
    }
  }

  lemma {:induction false} StepInv(s: Flow, modes: seq<Mode>, st: Step)
    requires Serialized(modes) && Inv(s, modes) && Enabled(s, modes, st)
    ensures Inv(Apply(s, modes, st), modes) && (Loses(s, st) ==> st.Pop?) && !Tears(s, st)
  {
    hide Inv, Apply;
    if ByOneInside(st) {
      InsideInv(s, modes, st);
    } else if Entering(st) {
      EnteringInv(s, modes, st);
    } else {
      OtherInv(s, modes, st);
    }
  }

  // ----- runs from initialisation -----

  /** The state after initialisation: all nodes free, all channels idle. */
  function Idle(nodes: nat, channels: nat, contexts: nat): Flow {
    Flow(seq(nodes, i => i), seq(channels, _ => []), seq(channels, _ => Empty), seq(channels, _ => false),
         seq(channels, _ => false), seq(contexts, _ => Out), None, seq(nodes, _ => Content(0, 0)), 1, Scanning, [], false)
  }

  lemma {:induction false} NoneOf(os: seq<Option<nat>>, n: nat)
    requires forall i :: 0 <= i < |os| ==> os[i].None?
    ensures InOptions(os, n) == 0
  {
    if os != [] { NoneOf(os[1..], n); }
  }

  lemma {:induction false} NoneQueued(qs: seq<seq<nat>>, n: nat)
    requires forall i :: 0 <= i < |qs| ==> qs[i] == []
    ensures InQueues(qs, n) == 0
  {
    if qs != [] { NoneQueued(qs[1..], n); }
  }

  lemma {:induction false} IdleOnePlace(nodes: nat, channels: nat, contexts: nat)
    ensures OnePlace(Idle(nodes, channels, contexts))
  {
    var s := Idle(nodes, channels, contexts);
    forall n: nat
      ensures Places(s, n) == if n < nodes then 1 else 0
    {
      CountUpTo(nodes, n);
      NoneQueued(s.queues, n);
      NoneOf(Owned(s.work), n);
      NoneOf(Hands(s.pcs), n);
    }
  }

  lemma {:induction false} RunInv(ss: seq<Flow>, modes: seq<Mode>, sts: seq<Step>, k: nat)
    requires Serialized(modes) && IsRun(ss, modes, sts) && Inv(ss[0], modes) && k < |ss|
    ensures Inv(ss[k], modes) && (k < |sts| ==> (Loses(ss[k], sts[k]) ==> sts[k].Pop?))
  {
    hide Inv, Apply, Loses;
    if k > 0 {
      RunInv(ss, modes, sts, k - 1);
      StepInv(ss[k-1], modes, sts[k-1]);
    }
    if k < |sts| {
      StepInv(ss[k], modes, sts[k]);
    }
  }

  /** A run loses nodes by pops only, and damages no list. */
  predicate OnlyPopsLose(ss: seq<Flow>, sts: seq<Step>) {
    |ss| == |sts| + 1 && !ss[|sts|].torn && forall i :: 0 <= i < |sts| && Loses(ss[i], sts[i]) ==> sts[i].Pop?
  }

  ghost predicate Safe(modes: seq<Mode>) {
    forall nodes: nat, channels: nat, ss: seq<Flow>, sts: seq<Step> ::
      IsRun(ss, modes, sts) && ss[0] == Idle(nodes, channels, |modes|) ==> OnlyPopsLose(ss, sts)
  }

  // ----- two alloc_channel calls race -----

  /** Contexts a and b stand here, all others outside. */
  function Two(n: nat, a: nat, b: nat, pa: Pc, pb: Pc): seq<Pc> {
    seq(n, i => if i == a then pa else if i == b then pb else Out)
  }

  lemma {:induction false} TwoUpdate(n: nat, a: nat, b: nat, pa: Pc, pb: Pc, p: Pc)
    requires a < n && b < n && a != b
    ensures Two(n, a, b, pa, pb)[a := p] == Two(n, a, b, p, pb)
    ensures Two(n, a, b, pa, pb)[b := p] == Two(n, a, b, pa, p)
  {
  }

  /** The owner while context k is inside. */
  function OwnedBy(modes: seq<Mode>, k: nat): Option<nat>
    requires k < |modes|
  {
    if modes[k].Locked? then Some(k) else None
  }

  /** Context o, not the ADM task, opens channel 0, a section arrives and is peeked. Then b and a, which
      does not take the mutex, both allocate channel 1. */
  function RaceStep(i: nat, a: nat, b: nat, o: nat): Step {
    match i
    case 0 => ChooseIdle(o, 0)
    case 1 => GetWork(o)
    case 2 => Install(o)
    case 3 => Switch(o, 0, true)
    case 4 => Arrive(0, 5)
    case 5 => Peek(0)
    case 6 => ChooseIdle(b, 1)
    case 7 => GetWork(b)
    case 8 => ChooseIdle(a, 1)
    case 9 => GetWork(a)
    case 10 => Install(a)
    case _ => Install(b)
  }

  /** Context o at pc, all others outside. */
  function One(n: nat, o: nat, pc: Pc): seq<Pc> {
    seq(n, i => if i == o then pc else Out)
  }

  function Blank(nodes: nat): seq<Content> { seq(nodes, _ => Content(0, 0)) }
  function Written(nodes: nat): seq<Content> { seq(nodes, i => if i == 1 then Content(5, 1) else Content(0, 0)) }

  /** Opening channel 0: the states 0 to 3. The arena has nodes 0 and 1 and those of `rest`. */
  function OpenState(i: nat, modes: seq<Mode>, o: nat, rest: seq<nat>): Flow
    requires o < |modes|
  {
    var n, blank := |modes|, Blank(2 + |rest|);
    match i
    case 0 => Flow([0, 1] + rest, [[], []], [Empty, Empty], [false, false], [false, false], One(n, o, Out), None,
                   blank, 1, Scanning, [], false)
    case 1 => Flow([0, 1] + rest, [[], []], [Empty, Empty], [false, false], [false, false], One(n, o, Chose(0)), OwnedBy(modes, o),
                   blank, 1, Scanning, [], false)
    case 2 => Flow([1] + rest, [[], []], [Empty, Empty], [false, false], [false, false], One(n, o, Got(0, 0)), OwnedBy(modes, o),
                   blank, 1, Scanning, [], false)
    case _ => Flow([1] + rest, [[], []], [Live(0), Empty], [true, false], [false, false], One(n, o, Out), None,
                   blank, 1, Scanning, [], false)
  }

  /** Channel 0 is on: the states 4 to 6. */
  function PeekState(i: nat, n: nat, o: nat, rest: seq<nat>): Flow {
    var blank, written := Blank(2 + |rest|), Written(2 + |rest|);
    match i
    case 4 => Flow([1] + rest, [[], []], [Live(0), Empty], [true, false], [true, false], One(n, o, Out), None,
                   blank, 1, Scanning, [], false)
    case 5 => Flow(rest, [[1], []], [Live(0), Empty], [true, false], [true, false], One(n, o, Out), None,
                   written, 2, Scanning, [], false)
    case _ => Flow(rest, [[1], []], [Live(0), Empty], [true, false], [true, false], One(n, o, Out), None,
                   written, 2, Peeked(0, 1, 1), [], false)
  }

  /** The race for channel 1: the states 6 to 12. */
  function LateState(i: nat, modes: seq<Mode>, a: nat, b: nat): Flow
    requires b < |modes|
  {
    var n, mine := |modes|, OwnedBy(modes, b);
    match i
    case 6 => Flow([2, 3], [[1], []], [Live(0), Empty], [true, false], [true, false], Two(n, a, b, Out, Out), None,
                   Written(4), 2, Peeked(0, 1, 1), [], false)
    case 7 => Flow([2, 3], [[1], []], [Live(0), Empty], [true, false], [true, false], Two(n, a, b, Out, Chose(1)), mine,
                   Written(4), 2, Peeked(0, 1, 1), [], false)
    case 8 => Flow([3], [[1], []], [Live(0), Empty], [true, false], [true, false], Two(n, a, b, Out, Got(1, 2)), mine,
                   Written(4), 2, Peeked(0, 1, 1), [], false)
    case 9 => Flow([3], [[1], []], [Live(0), Empty], [true, false], [true, false], Two(n, a, b, Chose(1), Got(1, 2)), mine,
                   Written(4), 2, Peeked(0, 1, 1), [], false)
    case 10 => Flow([], [[1], []], [Live(0), Empty], [true, false], [true, false], Two(n, a, b, Got(1, 3), Got(1, 2)), mine,
                    Written(4), 2, Peeked(0, 1, 1), [], false)
    case 11 => Flow([], [[1], []], [Live(0), Live(3)], [true, true], [true, false], Two(n, a, b, Out, Got(1, 2)), mine,
                    Written(4), 2, Peeked(0, 1, 1), [], false)
    case _ => Flow([], [[1], []], [Live(0), Live(2)], [true, true], [true, false], Two(n, a, b, Out, Out), None,
                   Written(4), 2, Peeked(0, 1, 1), [3], false)
  }

  lemma {:induction false} IdleIsOpen(modes: seq<Mode>, o: nat, rest: seq<nat>)
    requires o < |modes| && forall i :: 0 <= i < |rest| ==> rest[i] == 2 + i
    ensures Idle(2 + |rest|, 2, |modes|) == OpenState(0, modes, o, rest)
  {
    var n := 2 + |rest|;
    assert seq(n, i => i) == [0, 1] + rest;
    assert One(|modes|, o, Out) == seq(|modes|, _ => Out);
  }

  lemma {:induction false} OneUpdate(n: nat, o: nat, p: Pc, pc: Pc)
    requires o < n
    ensures One(n, o, p)[o := pc] == One(n, o, pc)
  {
  }

  lemma {:induction false} OpenStep(i: nat, modes: seq<Mode>, o: nat, rest: seq<nat>)
    requires i < 3 && 0 < o < |modes| && !modes[o].Absent?
    ensures Enabled(OpenState(i, modes, o, rest), modes, RaceStep(i, o, o, o))
    ensures Apply(OpenState(i, modes, o, rest), modes, RaceStep(i, o, o, o)) == OpenState(i + 1, modes, o, rest)
  {
    var s, s' := OpenState(i, modes, o, rest), OpenState(i + 1, modes, o, rest);
    OneUpdate(|modes|, o, s.pcs[o], s'.pcs[o]);
    match i
    case 0 =>
    case 1 => assert s.free[1..] == [1] + rest;
    case 2 =>
      assert s.work[0 := Live(0)] == s'.work && s.isAlloc[0 := true] == s'.isAlloc;
      assert s.lost + Overwritten(s.work[0]) == [];
  }

  lemma {:induction false} PeekStep(i: nat, modes: seq<Mode>, o: nat, rest: seq<nat>)
    requires 3 <= i < 6 && 0 < o < |modes| && !modes[o].Absent?
    ensures var s := if i == 3 then OpenState(3, modes, o, rest) else PeekState(i, |modes|, o, rest);
      Enabled(s, modes, RaceStep(i, o, o, o)) && Apply(s, modes, RaceStep(i, o, o, o)) == PeekState(i + 1, |modes|, o, rest)
  {
    match i
    case 3 => assert [false, false][0 := true] == [true, false];
    case 4 =>
      var s := PeekState(4, |modes|, o, rest);
      var empty: seq<nat> := [];
      assert s.free[1..] == rest && empty + [1] == [1];
      assert s.queues[0 := [1]] == [[1], []];
      assert s.content[1 := Content(5, 1)] == Written(2 + |rest|);
    case 5 =>
  }

  lemma {:induction false} LateStep(i: nat, modes: seq<Mode>, a: nat, b: nat, o: nat)
    requires 6 <= i < 12 && a < |modes| && b < |modes| && a != b && modes[a].Unlocked? && !modes[b].Absent?
    ensures Enabled(LateState(i, modes, a, b), modes, RaceStep(i, a, b, o))
    ensures Apply(LateState(i, modes, a, b), modes, RaceStep(i, a, b, o)) == LateState(i + 1, modes, a, b)
  {
    var s, s' := LateState(i, modes, a, b), LateState(i + 1, modes, a, b);
    TwoUpdate(|modes|, a, b, s.pcs[a], s.pcs[b], s'.pcs[a]);
    TwoUpdate(|modes|, a, b, s.pcs[a], s.pcs[b], s'.pcs[b]);
    match i
    case 6 =>
    case 7 => assert s.free[1..] == [3];
    case 8 =>
    case 9 => assert s.free[1..] == [];
    case 10 =>
      assert s.work[1 := Live(3)] == s'.work && s.isAlloc[1 := true] == s'.isAlloc;
      assert s.lost + Overwritten(s.work[1]) == [];
    case 11 =>
      assert s.work[1 := Live(2)] == s'.work && s.isAlloc[1 := true] == s'.isAlloc;
      assert s.lost + Overwritten(s.work[1]) == [3];
  }

  function RaceState(i: nat, modes: seq<Mode>, a: nat, b: nat, o: nat): Flow
    requires b < |modes| && o < |modes|
  {
    if i <= 3 then OpenState(i, modes, o, [2, 3]) else if i <= 6 then PeekState(i, |modes|, o, [2, 3]) else LateState(i, modes, a, b)
  }

  lemma {:induction false} RaceStepOk(i: nat, modes: seq<Mode>, a: nat, b: nat, o: nat)
    requires i < 12 && a < |modes| && b < |modes| && a != b && modes[a].Unlocked? && !modes[b].Absent?
    requires o == if a == ADM then b else a
    ensures Enabled(RaceState(i, modes, a, b, o), modes, RaceStep(i, a, b, o))
    ensures Apply(RaceState(i, modes, a, b, o), modes, RaceStep(i, a, b, o)) == RaceState(i + 1, modes, a, b, o)
  {
    hide Apply, Enabled;
    if i < 3 {
      OpenStep(i, modes, o, [2, 3]);
    } else if i < 6 {
      PeekStep(i, modes, o, [2, 3]);
    } else {
      assert One(|modes|, o, Out) == Two(|modes|, a, b, Out, Out);
      LateStep(i, modes, a, b, o);
    }
  }

  /** A run from initialisation in which the second alloc_channel overwrites the working buffer that the
      first has installed: node 3 is lost without any pop. */
  lemma {:induction false} RaceRun(modes: seq<Mode>, a: nat, b: nat) returns (ss: seq<Flow>, sts: seq<Step>)
    requires a < |modes| && b < |modes| && a != b && modes[a].Unlocked? && !modes[b].Absent?
    ensures IsRun(ss, modes, sts) && |sts| == 12 && ss[0] == Idle(4, 2, |modes|)
    ensures sts[11] == Install(b) && Loses(ss[11], sts[11]) && ss[12].lost == [3]
  {
    var o := if a == ADM then b else a;
    ss := seq(13, i requires i >= 0 => RaceState(i, modes, a, b, o));
    sts := seq(12, i requires i >= 0 => RaceStep(i, a, b, o));
    forall i | 0 <= i < 12
      ensures Enabled(ss[i], modes, sts[i]) && ss[i+1] == Apply(ss[i], modes, sts[i])
    {
      RaceStepOk(i, modes, a, b, o);
    }
    IdleIsOpen(modes, o, [2, 3]);
  }

  lemma {:induction false} SerializedRun(modes: seq<Mode>, nodes: nat, channels: nat, ss: seq<Flow>, sts: seq<Step>)
    requires Serialized(modes) && IsRun(ss, modes, sts) && ss[0] == Idle(nodes, channels, |modes|)
    ensures OnlyPopsLose(ss, sts)
  {
    forall k: nat | k < |ss|
      ensures Inv(ss[k], modes) && (k < |sts| ==> (Loses(ss[k], sts[k]) ==> sts[k].Pop?))
    {
      RunInv(ss, modes, sts, k);
    }
  }

  /** Only the ADM task's late pop can lose a node, and no list is damaged, in every run exactly when the
      callers of the channel functions are serialized: one of them only, or all taking the mutex. A
      callback on the ADM task that calls them is a caller that does not take it. */
  lemma {:induction false} SafeIffSerialized(modes: seq<Mode>)
    ensures Safe(modes) <==> Serialized(modes)
  {
    if Serialized(modes) {
      forall nodes: nat, channels: nat, ss: seq<Flow>, sts: seq<Step> | IsRun(ss, modes, sts) && ss[0] == Idle(nodes, channels, |modes|)
        ensures OnlyPopsLose(ss, sts)
      {
        SerializedRun(modes, nodes, channels, ss, sts);
      }
    } else {
      var j: nat, k: nat :| 0 <= j < k < |modes| && !modes[j].Absent? && !modes[k].Absent? && !(modes[j].Locked? && modes[k].Locked?);
      var a: nat, b: nat := if modes[j].Unlocked? then j else k, if modes[j].Unlocked? then k else j;
      var ss, sts := RaceRun(modes, a, b);
      assert Loses(ss[11], sts[11]) && sts[11].Install?;
    }
  }

  // ----- what the ADM task can do to a single API caller -----

  /** One API caller that takes the mutex; callbacks on the ADM task call nothing. */
  const ONE_CALLER: seq<Mode> := [Absent, Locked]

  /** Two sections wait; the first is peeked and then released by the caller, and the pop comes. */
  function LeakStep(i: nat): Step {
    match i
    case 5 => Arrive(0, 5)
    case 6 => Peek(0)
    case 7 => TakeHead(1, 0)
    case 8 => GiveBack(1)
    case 9 => Pop
    case _ => RaceStep(i, 1, 1, 1)
  }

  function LeakState(i: nat): Flow {
    var two := [Content(0, 0), Content(5, 1), Content(5, 2), Content(0, 0)];
    if i <= 3 then OpenState(i, ONE_CALLER, 1, [2, 3]) else if i <= 5 then PeekState(i, 2, 1, [2, 3]) else
    match i
    case 6 => Flow([3], [[1, 2], []], [Live(0), Empty], [true, false], [true, false], One(2, 1, Out), None,
                   two, 3, Scanning, [], false)
    case 7 => Flow([3], [[1, 2], []], [Live(0), Empty], [true, false], [true, false], One(2, 1, Out), None,
                   two, 3, Peeked(0, 1, 1), [], false)
    case 8 => Flow([3], [[2], []], [Live(0), Empty], [true, false], [true, false], One(2, 1, Holding(1)), None,
                   two, 3, Peeked(0, 1, 1), [], false)
    case 9 => Flow([3, 1], [[2], []], [Live(0), Empty], [true, false], [true, false], One(2, 1, Out), None,
                   two, 3, Peeked(0, 1, 1), [], false)
    case _ => Flow([3, 1], [[], []], [Live(0), Empty], [true, false], [true, false], One(2, 1, Out), None,
                   two, 3, Scanning, [2], false)
  }

  lemma {:induction false} LeakStepOk(i: nat)
    requires i < 10
    ensures Enabled(LeakState(i), ONE_CALLER, LeakStep(i))
    ensures Apply(LeakState(i), ONE_CALLER, LeakStep(i)) == LeakState(i + 1)
  {
    if i < 3 {
      OpenStep(i, ONE_CALLER, 1, [2, 3]);
    } else if i < 5 {
      PeekStep(i, ONE_CALLER, 1, [2, 3]);
    } else {
      LeakLateStep(i);
    }
  }

  lemma {:induction false} LeakLateStep(i: nat)
    requires 5 <= i < 10
    ensures Enabled(LeakState(i), ONE_CALLER, LeakStep(i))
    ensures Apply(LeakState(i), ONE_CALLER, LeakStep(i)) == LeakState(i + 1)
  {
    var s, s' := LeakState(i), LeakState(i + 1);
    OneUpdate(2, 1, s.pcs[1], s'.pcs[1]);
    match i
    case 5 =>
      assert s.free[1..] == [3] && s.queues[0] + [2] == [1, 2];
      assert s.queues[0 := [1, 2]] == s'.queues && s.content[2 := Content(5, 2)] == s'.content;
    case 6 =>
    case 7 => assert Without(s.queues[0], 0) == [2] && s.queues[0 := [2]] == s'.queues;
    case 8 => assert s.free + [1] == [3, 1];
    case 9 => assert s.queues[0][1..] == [] && s.queues[0 := []] == s'.queues && s.lost + [2] == [2];
  }

  /** A release between peek and pop: node 2 ends up in no list, no buffer and no variable. */
  lemma {:induction false} LeakHappens() returns (ss: seq<Flow>, sts: seq<Step>)
    ensures IsRun(ss, ONE_CALLER, sts) && |sts| == 10 && ss[0] == Idle(4, 2, 2)
    ensures sts[9].Pop? && Loses(ss[9], sts[9]) && ss[10].lost == [2]
  {
    ss, sts := seq(11, i requires i >= 0 => LeakState(i)), seq(10, i requires i >= 0 => LeakStep(i));
    forall i | 0 <= i < 10
      ensures Enabled(ss[i], ONE_CALLER, sts[i]) && ss[i+1] == Apply(ss[i], ONE_CALLER, sts[i])
    {
      LeakStepOk(i);
    }
    IdleIsOpen(ONE_CALLER, 1, [2, 3]);
  }

  /** One section waits and is peeked; the caller releases it, and its node is filled and queued again
      before the pop comes. */
  function SkipStep(i: nat): Step {
    match i
    case 6 => TakeHead(1, 0)
    case 7 => GiveBack(1)
    case 8 => Arrive(0, 6)
    case 9 => Pop
    case _ => RaceStep(i, 1, 1, 1)
  }

  function SkipState(i: nat): Flow {
    var one, two := [Content(0, 0), Content(5, 1)], [Content(0, 0), Content(6, 2)];
    if i <= 3 then OpenState(i, ONE_CALLER, 1, []) else if i <= 6 then PeekState(i, 2, 1, []) else
    match i
    case 7 => Flow([], [[], []], [Live(0), Empty], [true, false], [true, false], One(2, 1, Holding(1)), None,
                   one, 2, Peeked(0, 1, 1), [], false)
    case 8 => Flow([1], [[], []], [Live(0), Empty], [true, false], [true, false], One(2, 1, Out), None,
                   one, 2, Peeked(0, 1, 1), [], false)
    case 9 => Flow([], [[1], []], [Live(0), Empty], [true, false], [true, false], One(2, 1, Out), None,
                   two, 3, Peeked(0, 1, 1), [], false)
    case _ => Flow([], [[], []], [Live(0), Empty], [true, false], [true, false], One(2, 0, Holding(1)), None,
                   two, 3, Scanning, [], false)
  }

  lemma {:induction false} SkipLateStep(i: nat)
    requires 6 <= i < 10
    ensures Enabled(SkipState(i), ONE_CALLER, SkipStep(i))
    ensures Apply(SkipState(i), ONE_CALLER, SkipStep(i)) == SkipState(i + 1)
  {
    var s, s' := SkipState(i), SkipState(i + 1);
    OneUpdate(2, 1, s.pcs[1], s'.pcs[1]);
    match i
    case 6 =>
      assert Without(s.queues[0], 0) == [] && s.queues[0 := []] == s'.queues;
      assert Written(2) == s'.content;
    case 7 => assert s.free + [1] == [1];
    case 8 =>
      assert s.free[1..] == [] && s.queues[0] + [1] == [1];
      assert s.queues[0 := [1]] == s'.queues && s.content[1 := Content(6, 2)] == s'.content;
    case 9 =>
      assert Without(s.queues[0], 0) == [] && s.queues[0 := []] == s'.queues;
      assert s.pcs[0 := Holding(1)] == s'.pcs;
  }

  lemma {:induction false} SkipStepOk(i: nat)
    requires i < 10
    ensures Enabled(SkipState(i), ONE_CALLER, SkipStep(i))
    ensures Apply(SkipState(i), ONE_CALLER, SkipStep(i)) == SkipState(i + 1)
  {
    if i < 3 {
      OpenStep(i, ONE_CALLER, 1, []);
    } else if i < 6 {
      PeekStep(i, ONE_CALLER, 1, []);
    } else {
      SkipLateStep(i);
    }
  }

  /** Interference can also be silent: the pop sees the node it peeked, loses no node, and discards a
      section that was never called back. */
  lemma {:induction false} SkipHappens() returns (ss: seq<Flow>, sts: seq<Step>)
    ensures IsRun(ss, ONE_CALLER, sts) && |sts| == 10 && ss[0] == Idle(2, 2, 2) && sts[9].Pop?
    ensures AtHead(ss[9]) && ss[9].adm.node < |ss[9].content| && ss[9].content[ss[9].adm.node].serial != ss[9].adm.serial
    ensures ss[10].lost == [] && ss[10].queues == [[], []]
  {
    ss, sts := seq(11, i requires i >= 0 => SkipState(i)), seq(10, i requires i >= 0 => SkipStep(i));
    forall i | 0 <= i < 10
      ensures Enabled(ss[i], ONE_CALLER, sts[i]) && ss[i+1] == Apply(ss[i], ONE_CALLER, sts[i])
    {
      hide Apply, Enabled;
      SkipStepOk(i);
    }
    IdleIsOpen(ONE_CALLER, 1, []);
  }
}
