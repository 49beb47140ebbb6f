/** The steps of the ADM task with nothing in between are the rounds and passes of DmxState. */
module AdmSteps {
  import opened DmxState
  import opened DmxInvariant
  import opened SlotState
  import opened SlotInvariant
  import opened SlotRuns
  import opened History
  import opened Delivery

  /** slot_callback reports success for every section. */
  const ALWAYS: Answer := (n, ch, sec) => true

  function Steps(w: World, n: nat): World
    requires Shape(w)
    decreases n
  {
    if n == 0 then w else Steps(AdmNext(w), n - 1)
  }

  lemma {:induction false} StepsAdd(w: World, m: nat, n: nat)
    requires Shape(w)
    ensures Shape(Steps(w, m)) && Steps(w, m + n) == Steps(Steps(w, m), n)
    decreases m
  {
    hide AdmNext;
    if m > 0 { StepsAdd(AdmNext(w), m - 1, n); }
  }

  lemma {:induction false} StepsOk(w: World, n: nat)
    requires WorldOk(w)
    ensures Shape(w) && WorldOk(Steps(w, n))
    decreases n
  {
    hide WorldOk, AdmNext;
    AdmIsOk(w);
    if n > 0 {
      AdmStepOk(w);
      StepsOk(AdmNext(w), n - 1);
    }
  }

  /** One round on channel i. */
  function Round(w: World, i: nat): World
    requires Shape(w) && i < |w.hist| && w.sys.dmx.channels[i].secList != []
  {
    var sec := NodeAt(w.sys.dmx.nodes, w.sys.dmx.channels[i].secList[0]);
    w.(sys := w.sys.(dmx := ReturnAt(w.sys.dmx, i, 0)), hist := w.hist[i := Settle(w.hist[i], CalledBack(sec, w.sys.slots, i))],
       calls := w.calls[i := w.calls[i] + SlotCallback(w.sys.slots, i, sec.fltId, sec.data)])
  }

  /** Peek, call, pop and return are one round, and bring the task back to where it was. */
  lemma {:induction false} FourStepsMakeRound(w: World, i: nat)
    requires Shape(w) && w.adm == Looking(i) && i < |w.hist| && w.sys.dmx.channels[i].secList != []
    ensures Steps(w, 4) == Round(w, i)
  {
    hide Settle, SlotCallback, FirstWaiting;
    HalvesMakeReturn(w.sys.dmx, i);
    var w1 := AdmNext(w);
    var w2 := AdmNext(w1);
    var w3 := AdmNext(w2);
    assert Steps(w3, 1) == AdmNext(w3);
    assert Steps(w2, 2) == Steps(w3, 1);
    assert Steps(w1, 3) == Steps(w2, 2);
  }

  /** All of channel i. */
  function Emptied(w: World, i: nat): World
    requires Shape(w) && i < |w.hist|
  {
    var d := w.sys.dmx;
    var q := d.channels[i].secList;
    w.(sys := w.sys.(dmx := PopFront(d, i, |q|)), hist := w.hist[i := DeliverWaiting(w.hist[i], w.sys.slots, i)],
       calls := w.calls[i := w.calls[i] + CallBackAll(Contents(q, d.nodes), w.sys.slots, i)])
  }

  lemma {:induction false} PopRest(d: Dmx, i: nat)
    requires i < |d.channels| && d.channels[i].secList != []
    ensures var d1 := ReturnAt(d, i, 0);
      |d1.channels| == |d.channels| && d1.channels[i].secList == d.channels[i].secList[1..]
      && PopFront(d1, i, |d1.channels[i].secList|) == PopFront(d, i, |d.channels[i].secList|)
  {
    var q, d1 := d.channels[i].secList, ReturnAt(d, i, 0);
    var rest, none := d1.channels[i].secList, d.channels[i].(secList := []);
    assert rest == q[1..];
    assert d1.channels[i := none] == d.channels[i := none];
    assert rest[..|rest|] == rest && rest[|rest|..] == [] && q[..|q|] == q && q[|q|..] == [];
    assert d.free + [q[0]] + rest == d.free + q;
  }

  lemma {:induction false} CallsRest(q: seq<nat>, nodes: seq<Section>, slots: seq<Slot>, i: nat, calls: seq<SlotCall>)
    requires q != []
    ensures var sec := NodeAt(nodes, q[0]);
      calls + SlotCallback(slots, i, sec.fltId, sec.data) + CallBackAll(Contents(q[1..], nodes), slots, i)
      == calls + CallBackAll(Contents(q, nodes), slots, i)
  {
    hide SlotCallback;
    assert Contents(q, nodes)[1..] == Contents(q[1..], nodes) && Contents(q, nodes)[0] == NodeAt(nodes, q[0]);
    var c, later := SlotCallback(slots, i, NodeAt(nodes, q[0]).fltId, NodeAt(nodes, q[0]).data), CallBackAll(Contents(q[1..], nodes), slots, i);
    assert calls + c + later == calls + (c + later);
  }

  lemma {:induction false} RoundThenRest(w: World, i: nat)
    requires Shape(w) && i < |w.hist| && HistoryOk(w.hist[i], w.sys.dmx.channels[i].secList, w.sys.dmx.nodes)
    requires w.sys.dmx.channels[i].secList != []
    ensures Emptied(Round(w, i), i) == Emptied(w, i)
  {
    var d, h := w.sys.dmx, w.hist[i];
    PopRest(d, i);
    CallsRest(d.channels[i].secList, d.nodes, w.sys.slots, i, w.calls[i]);
    HeadIsOldest(h, d.channels[i].secList, d.nodes);
    SomeWaiting(h);
    DeliverOne(h, w.sys.slots, i);
    hide SlotCallback, Settle, DeliverWaiting, CallBackAll, Contents, PopFront, WaitingIn, FirstWaiting;
  }

  lemma {:induction false} LookingHistory(w: World)
    requires WorldOk(w) && w.adm.Looking?
    ensures Shape(w) && w.adm.i < |w.hist|
    ensures HistoryOk(w.hist[w.adm.i], w.sys.dmx.channels[w.adm.i].secList, w.sys.dmx.nodes)
  {
    hide SlotsOk, Guarded;
    assert HistoryOk(w.hist[w.adm.i], Backlog(w.sys.dmx, w.adm, w.adm.i), w.sys.dmx.nodes);
  }

  /** The inner loop, undisturbed, empties the queue and delivers all of it in order. */
  lemma {:induction false} LoopEmpties(w: World, i: nat) returns (n: nat)
    requires WorldOk(w) && w.adm == Looking(i)
    ensures Shape(w) && i < |w.hist|
    ensures Steps(w, n) == Emptied(w, i).(adm := Testing(i + 1))
    decreases if i < |w.sys.dmx.channels| then |w.sys.dmx.channels[i].secList| else 0
  {
    hide WorldOk, HistoryOk, Emptied;
    LookingHistory(w);
    if w.sys.dmx.channels[i].secList == [] {
      n := 1;
      NothingWaits(w, i);
      assert Steps(w, 1) == AdmNext(w);
    } else {
      hide AdmNext, Steps;
      FourStepsMakeRound(w, i);
      StepsOk(w, 4);
      PopRest(w.sys.dmx, i);
      RoundThenRest(w, i);
      var k := LoopEmpties(Round(w, i), i);
      n := 4 + k;
      StepsAdd(w, 4, k);
    }
  }

  lemma {:induction false} NothingWaits(w: World, i: nat)
    requires Shape(w) && i < |w.hist| && w.sys.dmx.channels[i].secList == []
    requires HistoryOk(w.hist[i], w.sys.dmx.channels[i].secList, w.sys.dmx.nodes)
    ensures Emptied(w, i) == w
  {
    DeliverNone(w.hist[i], w.sys.slots, i);
    assert w.sys.dmx.free + [] == w.sys.dmx.free && w.calls[i] + [] == w.calls[i];
    assert w.sys.dmx.channels[i := w.sys.dmx.channels[i]] == w.sys.dmx.channels;
    hide DeliverWaiting;
  }

  // ----- a whole pass -----

  lemma {:induction false} AllAccepted(q: seq<nat>, nodes: seq<Section>, ch: nat, calls: nat)
    ensures AcceptedPrefix(q, nodes, ch, calls, ALWAYS) == |q|
  {
    if q != [] { AllAccepted(q[1..], nodes, ch, calls + 1); }
  }

  /** What AdmPass does from channel i on, one channel after the other. */
  lemma {:induction false} PassUnfolds(d: Dmx, i: nat, log: seq<Call>) returns (log': seq<Call>)
    requires i < |d.channels|
    ensures var c := d.channels[i];
      var d' := if c.isAllocated && c.isEnabled then PopFront(d, i, |c.secList|) else d;
      |d'.channels| == |d.channels| && AdmPass(d, i, log, ALWAYS) == AdmPass(d', i + 1, log', ALWAYS)
  {
    hide AdmPass;
    AllAccepted(d.channels[i].secList, d.nodes, i, |log|);
    log' := AdmChannel(d, i, log, ALWAYS).1;
    PassStep(d, i, log);
  }

  lemma {:induction false} PassStep(d: Dmx, i: nat, log: seq<Call>)
    requires i < |d.channels|
    ensures var (d', log') := AdmChannel(d, i, log, ALWAYS);
      AdmPass(d, i, log, ALWAYS) == AdmPass(d', i + 1, log', ALWAYS)
  {
  }

  /** Channel j after a pass over the channels from i on. */
  ghost predicate Served(w: World, w': World, i: nat, j: nat)
    requires Shape(w) && Shape(w') && |w'.hist| == |w.hist| && j < |w.hist|
  {
    var c := w.sys.dmx.channels[j];
    if j >= i && c.isAllocated && c.isEnabled
    then w'.hist[j] == DeliverWaiting(w.hist[j], w.sys.slots, j)
         && w'.calls[j] == w.calls[j] + CallBackAll(Contents(c.secList, w.sys.dmx.nodes), w.sys.slots, j)
    else w'.hist[j] == w.hist[j] && w'.calls[j] == w.calls[j]
  }

  /** The passes end in the same section layer, and have called back in order for everything that was
      queued on the enabled channels. */
  ghost predicate PassDone(w: World, w': World, i: nat, log: seq<Call>)
    requires i <= |w.sys.dmx.channels|
  {
    && Shape(w) && Shape(w') && |w'.hist| == |w.hist|
    && w'.sys == w.sys.(dmx := AdmPass(w.sys.dmx, i, log, ALWAYS).0) && w'.busy == w.busy && w'.adm == Testing(|w.hist|)
    && forall j :: 0 <= j < |w.hist| ==> Served(w, w', i, j)
  }

  /** With nothing in between, the task makes the pass of DmxState with a callback that always succeeds. */
  lemma {:induction false} StepsMakePass(w: World, i: nat, log: seq<Call>) returns (n: nat)
    requires WorldOk(w) && w.adm == Testing(i) && i <= |w.sys.dmx.channels|
    ensures Shape(w) && PassDone(w, Steps(w, n), i, log)
    decreases |w.sys.dmx.channels| - i
  {
    hide WorldOk;
    AdmIsOk(w);
    if i == |w.sys.dmx.channels| {
      n := 0;
    } else {
      var m, w1 := ServeChannel(w, i);
      var log' := PassUnfolds(w.sys.dmx, i, log);
      hide AdmPass, Steps, Emptied, PassDone;
      EmptiedShape(w, i);
      var k := StepsMakePass(w1, i + 1, log');
      n := m + k;
      StepsAdd(w, m, k);
      PassPrepend(w, w1, Steps(w1, k), i, log, log');
    }
  }

  lemma {:induction false} EmptiedShape(w: World, i: nat)
    requires Shape(w) && i < |w.hist|
    ensures Shape(Emptied(w, i)) && |Emptied(w, i).hist| == |w.hist|
    ensures Emptied(w, i).sys == w.sys.(dmx := PopFront(w.sys.dmx, i, |w.sys.dmx.channels[i].secList|))
    ensures Emptied(w, i).busy == w.busy
  {
  }

  /** A channel served first, and then the others. */
  lemma {:induction false} PassPrepend(w: World, w1: World, w2: World, i: nat, log: seq<Call>, log': seq<Call>)
    requires Shape(w) && i < |w.hist|
    requires var c := w.sys.dmx.channels[i];
      w1 == (if c.isAllocated && c.isEnabled then Emptied(w, i) else w).(adm := Testing(i + 1))
    requires Shape(w1) && |w1.hist| == |w.hist| && PassDone(w1, w2, i + 1, log')
    requires AdmPass(w.sys.dmx, i, log, ALWAYS) == AdmPass(w1.sys.dmx, i + 1, log', ALWAYS)
    ensures PassDone(w, w2, i, log)
  {
    hide AdmPass, DeliverWaiting, CallBackAll, Contents;
    forall j | 0 <= j < |w.hist|
      ensures Served(w, w2, i, j)
    {
      assert Served(w1, w2, i + 1, j);
      assert j != i ==> w1.hist[j] == w.hist[j] && w1.calls[j] == w.calls[j] && w1.sys.dmx.channels[j] == w.sys.dmx.channels[j];
    }
  }

  /** One channel of the pass: tested, and emptied if it is on. */
  lemma {:induction false} ServeChannel(w: World, i: nat) returns (n: nat, w1: World)
    requires WorldOk(w) && w.adm == Testing(i) && i < |w.sys.dmx.channels|
    ensures Shape(w) && w1 == Steps(w, n) && WorldOk(w1)
    ensures var c := w.sys.dmx.channels[i];
      w1 == (if c.isAllocated && c.isEnabled then Emptied(w, i) else w).(adm := Testing(i + 1))
  {
    hide WorldOk, Emptied;
    AdmIsOk(w);
    AdmStepOk(w);
    var t := AdmNext(w);
    assert Steps(w, 1) == t;
    if w.sys.dmx.channels[i].isAllocated && w.sys.dmx.channels[i].isEnabled {
      var k := LoopEmpties(t, i);
      n := 1 + k;
      StepsAdd(w, 1, k);
      SameEmptied(w, t, i);
    } else {
      n := 1;
    }
    w1 := Steps(w, n);
    StepsOk(w, n);
  }

  lemma {:induction false} SameEmptied(w: World, t: World, i: nat)
    requires Shape(w) && i < |w.hist| && t == w.(adm := t.adm)
    ensures Emptied(t, i) == Emptied(w, i).(adm := t.adm)
  {
  }
}
