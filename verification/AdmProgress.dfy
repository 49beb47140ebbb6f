/** The ADM task always comes round again: left alone, it empties the queue of every channel that is on, and
    delivers everything that waits there, from wherever it stands. */
module AdmProgress {
  import opened Bytes
  import opened DmxState
  import opened DmxInvariant
  import opened DmxBehaviour
  import opened SlotState
  import opened SlotRelease
  import opened SlotRuns
  import opened History
  import opened Delivery
  import opened Handover
  import opened AdmSteps

  /** Nothing happened to the sections of channel j. */
  ghost predicate Same(w: World, w': World, j: nat)
    requires Shape(w) && Shape(w') && j < |w.hist| == |w'.hist|
  {
    w'.hist[j] == w.hist[j] && w'.calls[j] == w.calls[j]
    && w'.sys.dmx.channels[j].secList == w.sys.dmx.channels[j].secList
  }

  /** Its queue is empty, and all that waited was delivered, in order and with no other calls. */
  ghost predicate AllDelivered(w: World, w': World, j: nat)
    requires Shape(w) && Shape(w') && j < |w.hist| == |w'.hist|
  {
    && w'.sys.dmx.channels[j].secList == []
    && w'.hist[j] == DeliverWaiting(w.hist[j], w.sys.slots, j)
    && w'.calls[j] == w.calls[j] + CallBackAll(WaitingIn(w.hist[j]), w.sys.slots, j)
  }

  /** Neither the slots nor the state of any channel changed but for the queues. */
  ghost predicate Frame(w: World, w': World) {
    && Shape(w) && Shape(w') && |w'.hist| == |w.hist| && w'.sys.slots == w.sys.slots && w'.busy == w.busy
    && w'.sys.dmx.nodes == w.sys.dmx.nodes
    && forall j :: 0 <= j < |w.hist| ==>
         w'.sys.dmx.channels[j] == w.sys.dmx.channels[j].(secList := w'.sys.dmx.channels[j].secList)
  }

  /** Every channel that is on was served, and any other was left alone or served. */
  ghost predicate Drained(w: World, w': World) {
    Frame(w, w') && forall j :: 0 <= j < |w.hist| ==>
      AllDelivered(w, w', j) || (!On(w.sys.dmx.channels[j]) && Same(w, w', j))
  }

  // ----- one pass -----

  lemma {:induction false} PassChannels(d: Dmx, i: nat, log: seq<Call>, j: nat)
    requires i <= |d.channels| && j < |d.channels|
    ensures var d' := AdmPass(d, i, log, ALWAYS).0;
      |d'.channels| == |d.channels| && d'.nodes == d.nodes
      && d'.channels[j] == if j >= i && On(d.channels[j]) then d.channels[j].(secList := []) else d.channels[j]
  {
    hide AdmPass;
    if j < i {
      var after := AdmPassLater(d, i, log, ALWAYS, j);
    } else {
      var before, after := AdmPassPerChannel(d, i, log, ALWAYS, j);
      AllAccepted(d.channels[j].secList, d.nodes, j, |log + before|);
      assert d.channels[j].secList[|d.channels[j].secList|..] == [];
    }
  }

  lemma {:induction false} QueueIsWaiting(w: World, j: nat)
    requires WorldOk(w) && Shape(w) && j < |w.hist| && (w.adm.Testing? || w.adm.Looking?)
    ensures WaitingIn(w.hist[j]) == Contents(w.sys.dmx.channels[j].secList, w.sys.dmx.nodes)
  {
    assert HistoryOk(w.hist[j], Backlog(w.sys.dmx, w.adm, j), w.sys.dmx.nodes);
  }

  /** What one pass does to a channel. */
  lemma {:induction false} PassServes(w: World, w': World, i: nat, j: nat)
    requires WorldOk(w) && w.adm.Testing? && i <= |w.sys.dmx.channels| && PassDone(w, w', i, [])
    requires Shape(w) && j < |w.hist|
    ensures Frame(w, w')
    ensures if j >= i && On(w.sys.dmx.channels[j]) then AllDelivered(w, w', j) else Same(w, w', j)
  {
    hide AdmPass, DeliverWaiting, CallBackAll, WaitingIn, Contents;
    forall k | 0 <= k < |w.hist|
      ensures w'.sys.dmx.nodes == w.sys.dmx.nodes && |w'.sys.dmx.channels| == |w.hist|
      ensures w'.sys.dmx.channels[k]
              == if k >= i && On(w.sys.dmx.channels[k]) then w.sys.dmx.channels[k].(secList := []) else w.sys.dmx.channels[k]
    {
      PassChannels(w.sys.dmx, i, [], k);
    }
    assert Served(w, w', i, j);
    QueueIsWaiting(w, j);
    hide WorldOk;
  }

  lemma {:induction false} NoneLeft(h: seq<Record>, slots: seq<Slot>, ch: nat)
    requires Fifo(h)
    ensures WaitingIn(DeliverWaiting(h, slots, ch)) == []
    ensures DeliverWaiting(DeliverWaiting(h, slots, ch), slots, ch) == DeliverWaiting(h, slots, ch)
  {
    DeliverHistory(h, slots, ch);
    hide SlotCallback, WaitingIn;
  }

  /** Serving a channel, before or after leaving it alone or serving it. */
  lemma {:induction false} ServedOnce(w: World, m: World, w': World, j: nat)
    requires Frame(w, m) && Frame(m, w') && j < |w.hist| && Fifo(w.hist[j])
    requires Same(w, m, j) || AllDelivered(w, m, j)
    requires Same(m, w', j) || AllDelivered(m, w', j)
    ensures Same(w, m, j) && Same(m, w', j) ==> Same(w, w', j)
    ensures AllDelivered(w, m, j) || AllDelivered(m, w', j) ==> AllDelivered(w, w', j)
  {
    NoneLeft(w.hist[j], w.sys.slots, j);
    hide DeliverWaiting, WaitingIn, Fifo;
    var first := CallBackAll(WaitingIn(w.hist[j]), w.sys.slots, j);
    assert w.calls[j] + first + [] == w.calls[j] + first;
    hide CallBackAll;
  }

  // ----- from anywhere -----

  lemma {:induction false} HistoryIsFifo(w: World, j: nat)
    requires WorldOk(w) && j < |w.hist|
    ensures Shape(w) && Fifo(w.hist[j])
  {
    assert HistoryOk(w.hist[j], Backlog(w.sys.dmx, w.adm, j), w.sys.dmx.nodes);
  }

  /** One pass from channel i on. */
  lemma {:induction false} PassSteps(w: World, i: nat) returns (n: nat)
    requires WorldOk(w) && w.adm == Testing(i) && i <= |w.sys.dmx.channels|
    ensures Frame(w, Steps(w, n)) && WorldOk(Steps(w, n)) && Steps(w, n).adm == Testing(|w.hist|)
    ensures forall j :: 0 <= j < |w.hist| ==>
      if j >= i && On(w.sys.dmx.channels[j]) then AllDelivered(w, Steps(w, n), j) else Same(w, Steps(w, n), j)
  {
    hide Steps, WorldOk, PassDone, AllDelivered, Same, Frame;
    n := StepsMakePass(w, i, []);
    StepsOk(w, n);
    PassEnds(w, Steps(w, n), i);
    PassFrame(w, Steps(w, n), i);
    forall j | 0 <= j < |w.hist|
      ensures if j >= i && On(w.sys.dmx.channels[j]) then AllDelivered(w, Steps(w, n), j) else Same(w, Steps(w, n), j)
    {
      PassServes(w, Steps(w, n), i, j);
    }
  }

  lemma {:induction false} PassEnds(w: World, w': World, i: nat)
    requires i <= |w.sys.dmx.channels| && PassDone(w, w', i, [])
    ensures Shape(w) && Shape(w') && |w'.hist| == |w.hist| && w'.adm == Testing(|w.hist|)
  {
  }

  lemma {:induction false} PassFrame(w: World, w': World, i: nat)
    requires i <= |w.sys.dmx.channels| && PassDone(w, w', i, [])
    ensures Frame(w, w')
  {
    hide AdmPass;
    forall k | 0 <= k < |w.hist|
      ensures w'.sys.dmx.channels[k] == w.sys.dmx.channels[k].(secList := w'.sys.dmx.channels[k].secList)
    {
      PassChannels(w.sys.dmx, i, [], k);
    }
    PassKeepsNodes(w.sys.dmx, i, []);
  }

  lemma {:induction false} PassKeepsNodes(d: Dmx, i: nat, log: seq<Call>)
    requires i <= |d.channels|
    ensures |AdmPass(d, i, log, ALWAYS).0.channels| == |d.channels| && AdmPass(d, i, log, ALWAYS).0.nodes == d.nodes
    decreases |d.channels| - i
  {
    if i < |d.channels| {
      var (d', log') := AdmChannel(d, i, log, ALWAYS);
      PassKeepsNodes(d', i + 1, log');
    }
  }

  lemma {:induction false} FrameThen(w: World, m: World, w': World)
    requires Frame(w, m) && Frame(m, w')
    ensures Frame(w, w')
  {
  }

  /** At the end of the channel list the task starts over. */
  lemma {:induction false} StartsOver(w: World, i: nat)
    requires WorldOk(w) && w.adm == Testing(i) && i >= |w.sys.dmx.channels|
    ensures Shape(w) && Steps(w, 1) == w.(adm := Testing(0)) && WorldOk(Steps(w, 1))
  {
    StepsOk(w, 1);
    hide WorldOk;
    assert Steps(w, 1) == AdmNext(w);
  }

  /** Where the task stands plays no part. */
  lemma {:induction false} AdmAside(w: World, m: World, adm: Adm, j: nat)
    requires Frame(w, m) && j < |w.hist|
    ensures Frame(w, m.(adm := adm))
    ensures Same(w, m.(adm := adm), j) <==> Same(w, m, j)
    ensures AllDelivered(w, m.(adm := adm), j) <==> AllDelivered(w, m, j)
  {
  }

  lemma {:induction false} FrameSizes(w: World, m: World)
    requires Frame(w, m)
    ensures |w.hist| == |m.hist| == |w.sys.dmx.channels| == |m.sys.dmx.channels|
    ensures forall j :: 0 <= j < |w.hist| ==> (On(m.sys.dmx.channels[j]) <==> On(w.sys.dmx.channels[j]))
  {
  }

  /** Two passes: the rest of this one, and the next. */
  lemma {:induction false} TwoPasses(w: World, m: World, w': World, i: nat)
    requires WorldOk(w) && Frame(w, m) && Frame(m, w')
    requires forall j :: 0 <= j < |w.hist| ==> if j >= i && On(w.sys.dmx.channels[j]) then AllDelivered(w, m, j) else Same(w, m, j)
    requires forall j :: 0 <= j < |w.hist| ==> if On(m.sys.dmx.channels[j]) then AllDelivered(m, w', j) else Same(m, w', j)
    ensures Drained(w, w')
  {
    FrameThen(w, m, w');
    FrameSizes(w, m);
    forall j | 0 <= j < |w.hist|
      ensures if On(w.sys.dmx.channels[j]) then AllDelivered(w, w', j) else Same(w, w', j)
    {
      HistoryIsFifo(w, j);
      hide AllDelivered, Same, WorldOk, Frame;
      ServedOnce(w, m, w', j);
    }
  }

  /** Between two tests, left alone, the task serves every channel that is on. */
  lemma {:induction false} TestingDrains(w: World) returns (n: nat)
    requires WorldOk(w) && w.adm.Testing?
    ensures Shape(w) && WorldOk(Steps(w, n)) && Steps(w, n).adm.Testing? && Drained(w, Steps(w, n))
    decreases if w.adm.i > |w.sys.dmx.channels| then 1 else 0
  {
    hide Steps, AllDelivered, Same, Frame, WorldOk, Drained;
    AdmIsOk(w);
    var i := w.adm.i;
    if i > |w.sys.dmx.channels| {
      StartsOver(w, i);
      var k := TestingDrains(w.(adm := Testing(0)));
      n := 1 + k;
      StepsAdd(w, 1, k);
      DrainedAside(w, Testing(0), Steps(w, n));
    } else {
      var a := PassSteps(w, i);
      var m := Steps(w, a);
      FrameSizes(w, m);
      StartsOver(m, |w.hist|);
      var m1 := m.(adm := Testing(0));
      var b := PassSteps(m1, 0);
      StepsAdd(w, a, 1);
      StepsAdd(w, a + 1, b);
      n := a + 1 + b;
      forall j | 0 <= j < |w.hist|
        ensures if j >= i && On(w.sys.dmx.channels[j]) then AllDelivered(w, m1, j) else Same(w, m1, j)
      {
        AdmAside(w, m, Testing(0), j);
      }
      FrameAside(w, m, Testing(0));
      TwoPasses(w, m1, Steps(w, n), i);
    }
  }

  lemma {:induction false} FrameAside(w: World, m: World, adm: Adm)
    requires Frame(w, m)
    ensures Frame(w, m.(adm := adm))
  {
  }

  lemma {:induction false} DrainedAside(w: World, adm: Adm, w': World)
    requires Drained(w.(adm := adm), w')
    ensures Drained(w, w')
  {
    hide DeliverWaiting, WaitingIn, CallBackAll;
    forall j | 0 <= j < |w.hist| && AllDelivered(w.(adm := adm), w', j)
      ensures AllDelivered(w, w', j)
    {
    }
  }

  // ----- from inside a round -----

  /** Serving channel i and standing behind it, and then draining. */
  lemma {:induction false} LoopThenDrain(w: World, i: nat, m: World, w': World)
    requires WorldOk(w) && LoopServed(w, m, i) && Drained(m, w')
    ensures Drained(w, w')
  {
    FrameThen(w, m, w');
    FrameSizes(w, m);
    hide AllDelivered, WorldOk, Frame;
    forall j | 0 <= j < |w.hist|
      ensures AllDelivered(w, w', j) || (!On(w.sys.dmx.channels[j]) && Same(w, w', j))
    {
      HistoryIsFifo(w, j);
      ServedOnce(w, m, w', j);
    }
  }

  /** The loop over channel i has served it, and nothing else. */
  ghost predicate LoopServed(w: World, w': World, i: nat) {
    && Frame(w, w') && i < |w.hist| && AllDelivered(w, w', i)
    && forall j :: 0 <= j < |w.hist| && j != i ==> Same(w, w', j)
  }

  lemma {:induction false} EmptiedServes(w: World, i: nat, adm: Adm)
    requires Shape(w) && i < |w.hist| && WaitingIn(w.hist[i]) == Contents(w.sys.dmx.channels[i].secList, w.sys.dmx.nodes)
    ensures LoopServed(w, Emptied(w, i).(adm := adm), i)
  {
    hide DeliverWaiting, CallBackAll, WaitingIn, Contents;
    var c := w.sys.dmx.channels[i];
    assert c.secList[|c.secList|..] == [];
  }

  lemma {:induction false} LookingServes(w: World, i: nat) returns (n: nat)
    requires WorldOk(w) && w.adm == Looking(i)
    ensures Shape(w) && WorldOk(Steps(w, n)) && Steps(w, n).adm == Testing(i + 1) && LoopServed(w, Steps(w, n), i)
  {
    hide Steps, WorldOk, LoopServed, Emptied;
    n := LoopEmpties(w, i);
    StepsOk(w, n);
    QueueIsWaiting(w, i);
    EmptiedServes(w, i, Testing(i + 1));
  }

  /** What the task still does for the head it has peeked. */
  lemma {:induction false} PeekedIsRound(w: World)
    requires WorldOk(w) && w.adm.Peeked? && !Disturbed(w)
    ensures Shape(w) && w.adm.i < |w.hist| && w.sys.dmx.channels[w.adm.i].secList != []
    ensures Steps(w, 3) == Round(w.(adm := Looking(w.adm.i)), w.adm.i)
    ensures HistoryOk(w.hist[w.adm.i], w.sys.dmx.channels[w.adm.i].secList, w.sys.dmx.nodes)
  {
    AdmIsOk(w);
    var i := w.adm.i;
    assert HistoryOk(w.hist[i], Backlog(w.sys.dmx, w.adm, i), w.sys.dmx.nodes);
    hide WorldOk, HistoryOk, Settle, SlotCallback, FirstWaiting;
    HalvesMakeReturn(w.sys.dmx, i);
    var w1 := AdmNext(w);
    var w2 := AdmNext(w1);
    assert Steps(w2, 1) == AdmNext(w2);
    assert Steps(w1, 2) == Steps(w2, 1);
  }

  lemma {:induction false} PeekedServes(w: World) returns (n: nat)
    requires WorldOk(w) && w.adm.Peeked? && !Disturbed(w)
    ensures Shape(w) && WorldOk(Steps(w, n)) && Steps(w, n).adm == Testing(w.adm.i + 1) && LoopServed(w, Steps(w, n), w.adm.i)
  {
    hide Steps, WorldOk, LoopServed, Emptied, Disturbed;
    var i := w.adm.i;
    PeekedIsRound(w);
    StepsOk(w, 3);
    var wl := w.(adm := Looking(i));
    RoundThenRest(wl, i);
    var k := LoopEmpties(Steps(w, 3), i);
    n := 3 + k;
    StepsAdd(w, 3, k);
    StepsOk(w, n);
    EmptiedServes(wl, i, Testing(i + 1));
    ServedAside(w, wl.adm, Steps(w, n), i);
  }

  lemma {:induction false} ServedAside(w: World, adm: Adm, w': World, i: nat)
    requires LoopServed(w.(adm := adm), w', i)
    ensures LoopServed(w, w', i)
  {
    hide DeliverWaiting, CallBackAll, WaitingIn;
    var v := w.(adm := adm);
    assert AllDelivered(v, w', i);
    forall j | 0 <= j < |w.hist| && j != i
      ensures Same(w, w', j)
    {
      assert Same(v, w', j);
    }
  }

  /** One node less in the queue, or one more in the free list: what waits is the same. */
  lemma {:induction false} ServedAfter(w: World, m: World, w': World, i: nat)
    requires Frame(w, m) && m.hist == w.hist && m.calls == w.calls && LoopServed(m, w', i)
    requires forall j :: 0 <= j < |w.hist| && j != i ==> Same(w, m, j)
    ensures LoopServed(w, w', i)
  {
    FrameThen(w, m, w');
    hide DeliverWaiting, CallBackAll, WaitingIn, Frame;
    FrameSizes(w, m);
    FrameShapes(w, m);
    FrameShapes(m, w');
    assert AllDelivered(m, w', i);
    forall j | 0 <= j < |w.hist| && j != i
      ensures Same(w, w', j)
    {
      assert Same(m, w', j) && Same(w, m, j);
    }
  }

  lemma {:induction false} FrameShapes(w: World, m: World)
    requires Frame(w, m)
    ensures Shape(w) && Shape(m) && |m.hist| == |w.hist| && m.sys.slots == w.sys.slots
  {
  }

  /** The head has been called back; the rest waits. */
  lemma {:induction false} CalledReturns(w: World)
    requires WorldOk(w) && w.adm.Called? && !Disturbed(w)
    ensures Shape(w) && w.adm.i < |w.hist| && w.sys.dmx.channels[w.adm.i].secList != []
    ensures Steps(w, 2) == w.(sys := w.sys.(dmx := ReturnAt(w.sys.dmx, w.adm.i, 0)), adm := Looking(w.adm.i))
  {
    AdmIsOk(w);
    hide WorldOk;
    HalvesMakeReturn(w.sys.dmx, w.adm.i);
    var w1 := AdmNext(w);
    assert Steps(w1, 1) == AdmNext(w1);
  }

  lemma {:induction false} CalledServes(w: World) returns (n: nat)
    requires WorldOk(w) && w.adm.Called? && !Disturbed(w)
    ensures Shape(w) && WorldOk(Steps(w, n)) && Steps(w, n).adm == Testing(w.adm.i + 1) && LoopServed(w, Steps(w, n), w.adm.i)
  {
    hide Steps, WorldOk, LoopServed, Disturbed;
    CalledReturns(w);
    StepsOk(w, 2);
    var k := LookingServes(Steps(w, 2), w.adm.i);
    n := 2 + k;
    StepsAdd(w, 2, k);
    ServedAfter(w, Steps(w, 2), Steps(w, n), w.adm.i);
  }

  lemma {:induction false} TakenReturns(w: World)
    requires WorldOk(w) && w.adm.Taken?
    ensures Shape(w) && w.adm.i < |w.hist| && w.sys.dmx.loose != []
    ensures Steps(w, 1) == w.(sys := w.sys.(dmx := ReturnLast(w.sys.dmx)), adm := Looking(w.adm.i))
  {
    AdmIsOk(w);
    hide WorldOk;
    OneStep(w);
  }

  lemma {:induction false} TakenServes(w: World) returns (n: nat)
    requires WorldOk(w) && w.adm.Taken?
    ensures Shape(w) && WorldOk(Steps(w, n)) && Steps(w, n).adm == Testing(w.adm.i + 1) && LoopServed(w, Steps(w, n), w.adm.i)
  {
    hide Steps, WorldOk, LoopServed;
    TakenReturns(w);
    StepsOk(w, 1);
    var k := LookingServes(Steps(w, 1), w.adm.i);
    n := 1 + k;
    StepsAdd(w, 1, k);
    ServedAfter(w, Steps(w, 1), Steps(w, n), w.adm.i);
  }

  /** Left alone, from wherever it stands undisturbed, the task delivers everything that waits on a channel that
      is on, in order, and nothing is lost. */
  lemma {:induction false} EverythingDelivered(w: World) returns (n: nat)
    requires WorldOk(w) && !Disturbed(w)
    ensures Shape(w) && WorldOk(Steps(w, n)) && Steps(w, n).adm.Testing? && Drained(w, Steps(w, n))
  {
    hide Steps, WorldOk, Frame, AllDelivered, Same, Drained;
    AdmIsOk(w);
    if w.adm.Testing? {
      n := TestingDrains(w);
    } else {
      var a;
      match w.adm {
        case Looking(i) => a := LookingServes(w, i);
        case Peeked(_, _, _) => a := PeekedServes(w);
        case Called(_, _, _) => a := CalledServes(w);
        case Taken(_, _) => a := TakenServes(w);
      }
      var m := Steps(w, a);
      var b := TestingDrains(m);
      n := a + b;
      StepsAdd(w, a, b);
      LoopThenDrain(w, w.adm.i, m, Steps(m, b));
    }
  }

  /** Disturbed or not, it comes back to a test, and from there empties every queue of a channel that is on. */
  lemma {:induction false} QueuesEmpty(w: World) returns (n: nat)
    requires WorldOk(w)
    ensures Shape(w) && WorldOk(Steps(w, n)) && Steps(w, n).adm.Testing?
    ensures forall c :: c in Steps(w, n).sys.dmx.channels && On(c) ==> c.secList == []
    decreases match w.adm { case Peeked(_, _, _) => 2 case Called(_, _, _) => 1 case _ => 0 }
  {
    hide Steps, WorldOk, Drained;
    AdmIsOk(w);
    if Disturbed(w) {
      AdmStepOk(w);
      var k := QueuesEmpty(AdmNext(w));
      n := 1 + k;
      assert Steps(w, n) == Steps(AdmNext(w), k) by { StepsAdd(w, 1, k); OneStep(w); }
    } else {
      n := EverythingDelivered(w);
      DrainedQueues(w, Steps(w, n));
    }
  }

  lemma {:induction false} OneStep(w: World)
    requires Shape(w)
    ensures Steps(w, 1) == AdmNext(w)
  {
  }

  lemma {:induction false} DrainedQueues(w: World, w': World)
    requires Drained(w, w')
    ensures forall c :: c in w'.sys.dmx.channels && On(c) ==> c.secList == []
  {
    hide DeliverWaiting, CallBackAll, WaitingIn;
    forall j | 0 <= j < |w.hist| && On(w'.sys.dmx.channels[j])
      ensures w'.sys.dmx.channels[j].secList == []
    {
      assert On(w.sys.dmx.channels[j]);
      assert AllDelivered(w, w', j);
    }
  }

  lemma {:induction false} ArriveUndisturbed(w: World, i: nat, flt: nat, data: seq<Byte>)
    requires WorldOk(w) && !Disturbed(w) && i < |w.sys.dmx.channels|
    ensures Shape(w) && !Disturbed(Next(w, Arrive(i, flt, data)))
  {
    AdmIsOk(w);
    if w.adm.Peeked? && AtHead(w.sys.dmx, w.adm.i, w.adm.wkBuf) {
      ArriveKeepsHeads(w.sys.dmx, i, flt, data, w.adm.i, w.adm.wkBuf);
    }
    hide WorldOk, SecCb, AtHead;
  }

  /** A section that is accepted while the task is not disturbed is delivered by later steps: handed to the
      callbacks of the slot table as it stands. */
  lemma {:induction false} AcceptedIsDelivered(w: World, i: nat, flt: nat, data: seq<Byte>) returns (n: nat)
    requires WorldOk(w) && !Disturbed(w) && i < |w.sys.dmx.channels| && Accepts(w.sys.dmx, i, flt) && w.sys.dmx.free != []
    ensures Shape(w)
    ensures var m, sec := Next(w, Arrive(i, flt, data)), Section(flt, data);
      && |m.hist| == |w.hist| && i < |m.hist| && Shape(m) && Shape(Steps(m, n)) && |Steps(m, n).hist| == |w.hist|
      && m.hist[i] == w.hist[i] + [Record(sec, Waiting)] && |Steps(m, n).hist[i]| == |w.hist[i]| + 1
      && Steps(m, n).hist[i][|w.hist[i]|] == Record(sec, CalledBack(sec, w.sys.slots, i))
  {
    AdmIsOk(w);
    ArriveOk(w, i, flt, data);
    var m := Next(w, Arrive(i, flt, data));
    ArriveUndisturbed(w, i, flt, data);
    hide WorldOk, Disturbed, Steps, CallBackAll, WaitingIn, SlotCallback;
    n := EverythingDelivered(m);
    assert On(m.sys.dmx.channels[i]);
    assert AllDelivered(m, Steps(m, n), i);
  }

  // ----- a pop without its call -----

  /** node_return follows node_get exactly if the head is the node that was peeked; any other head is taken out
      for nothing. */
  lemma {:induction false} PopReturnsOrLoses(w: World)
    requires Shape(w) && w.adm.Called? && w.adm.i < |w.hist| && w.sys.dmx.channels[w.adm.i].secList != []
    ensures var i, d := w.adm.i, w.sys.dmx;
      if d.channels[i].secList[0] == w.adm.wkBuf
      then Steps(w, 2).sys.dmx == ReturnAt(d, i, 0) && Steps(w, 2).adm == Looking(i)
      else Steps(w, 1).sys.dmx == PopHead(d, i) && Steps(w, 1).adm == Looking(i)
  {
    HalvesMakeReturn(w.sys.dmx, w.adm.i);
    hide Settle;
    OneStep(w);
    OneStep(AdmNext(w));
    assert Steps(w, 2) == Steps(AdmNext(w), 1);
  }

  /** The nodes that are in no list and that the task does not have in hand either. */
  function LostNodes(w: World): seq<nat> {
    if w.adm.Taken? && w.sys.dmx.loose != [] then w.sys.dmx.loose[..|w.sys.dmx.loose|-1] else w.sys.dmx.loose
  }

  lemma {:induction false} AdmLoses(w: World)
    requires WorldOk(w)
    ensures Shape(w) && LostNodes(w) <= LostNodes(AdmNext(w))
  {
    AdmIsOk(w);
    hide WorldOk, SlotCallback, Settle, FirstWaiting;
  }

  lemma {:induction false} StepLoses(w: World, e: Event)
    requires WorldOk(w) && Possible(w, e)
    ensures Shape(w) && LostNodes(w) <= LostNodes(Next(w, e))
  {
    hide SlotAlloc, SlotFree, ReleaseSlot, Allowed, SecCb, FlushWaiting, FlushOldest, AdmNext;
    AdmIsOk(w);
    match e
    case Arrive(i, flt, data) => ArriveLoose(w.sys.dmx, i, flt, data);
    case AdmStep => AdmLoses(w);
    case BeginAlloc(_, _, _, _, _, _, _, _) => AllocKeepsHeads(w, e);
    case BeginFree(slotId, cb) => BeginFreeKeepsHeads(w, slotId, cb);
    case EndFree(closeOk) => ReleaseFlushes(w, closeOk);
    case _ =>
  }

  lemma {:induction false} ArriveLoose(d: Dmx, i: nat, flt: nat, data: seq<Byte>)
    requires i < |d.channels|
    ensures SecCb(d, i, flt, data).loose == d.loose
  {
  }

  /** A node that an uncalled pop has lost stays lost, whatever happens later. */
  lemma {:induction false} LostForGood(ws: seq<World>, es: seq<Event>, j: nat, k: nat)
    requires Delivery.IsRun(ws, es) && WorldOk(ws[0]) && j <= k < |ws|
    ensures LostNodes(ws[j]) <= LostNodes(ws[k])
    decreases k
  {
    hide WorldOk, Next, Possible, LostNodes;
    if j < k {
      LostForGood(ws, es, j, k - 1);
      RunDelivers(ws, es, k - 1);
      assert ws[k] == Next(ws[k-1], es[k-1]);
      StepLoses(ws[k-1], es[k-1]);
    }
  }

  /** A skipped test is the test of a channel that is off for the moment. */
  lemma {:induction false} SkipIsTest(w: World)
    requires w.adm.Testing? && w.adm.i < |w.sys.dmx.channels|
    ensures var i, d := w.adm.i, w.sys.dmx;
      var off := w.(sys := w.sys.(dmx := d.(channels := d.channels[i := d.channels[i].(isEnabled := false)])));
      Possible(w, AdmSkip) && (Shape(w) ==> Next(w, AdmSkip) == AdmTest(off, i).(sys := w.sys))
  {
  }
}
