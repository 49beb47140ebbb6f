/** Properties of the socket manager of ipanel_socket.c over whole runs. */
module SocketBehaviour {
  import opened SocketState

  datatype Op =
    | Opening(s: int, connected: bool)
    | Closing(index: int)
    | Receiving(index: int, nbytes: int)
    | Ticking(nactive: int, ready: set<int>)

  function Apply(m: Manager, op: Op): Manager {
    match op
    case Opening(s, connected) => Open(m, s, connected).0
    case Closing(index) => Close(m, index).0
    case Receiving(index, nbytes) => Recv(m, index, nbytes)
    case Ticking(nactive, ready) => OnTimer(m, nactive, ready).0
  }

  /** The network stack hands out no descriptor that is still open. */
  ghost predicate Admissible(m: Manager, op: Op) {
    op.Opening? ==> op.s !in Registered(m.sockets)
  }

  lemma {:induction false} PutOk(m: Manager, s: int, kind: int)
    requires ManagerOk(m) && s >= 0
    ensures ManagerOk(PutEvent(m, s, kind))
  {
  }

  lemma {:induction false} OnTimerOk(m: Manager, nactive: int, ready: set<int>)
    requires ManagerOk(m)
    ensures ManagerOk(OnTimer(m, nactive, ready).0)
    ensures OnTimer(m, nactive, ready).0.sockets == m.sockets
  {
    PollBounded(m, ready, |m.sockets|);
  }

  lemma {:induction false} ApplyOk(m: Manager, op: Op)
    requires ManagerOk(m) && Admissible(m, op)
    ensures ManagerOk(Apply(m, op))
  {
    match op {
      case Opening(s, connected) =>
        if m.nIdle > 0 && s >= 0 && connected {
          PutOk(m, s, CONNECT);
          RegisterOk(PutEvent(m, s, CONNECT), s);
        }
      case Closing(index) =>
        if SocketAt(m, index) >= 0 {
          UnregisterOk(m, SocketAt(m, index));
        }
      case Receiving(index, nbytes) =>
        if SocketAt(m, index) >= 0 {
          PutOk(m, SocketAt(m, index), CLOSE);
        }
      case Ticking(nactive, ready) =>
        OnTimerOk(m, nactive, ready);
    }
  }

  ghost predicate AllAdmissible(m: Manager, ops: seq<Op>)
    decreases |ops|
  {
    ops == [] || (Admissible(m, ops[0]) && AllAdmissible(Apply(m, ops[0]), ops[1..]))
  }

  function Run(m: Manager, ops: seq<Op>): Manager
    decreases |ops|
  {
    if ops == [] then m else Run(Apply(m, ops[0]), ops[1..])
  }

  /** In every state a run can reach: n_idle counts the empty slots, the descriptor sets are exactly
      the registered descriptors, maxfds bounds them, and the ring is never over-full. */
  lemma {:induction false} RunOk(m: Manager, ops: seq<Op>)
    requires ManagerOk(m) && AllAdmissible(m, ops)
    ensures ManagerOk(Run(m, ops))
    decreases |ops|
  {
    hide ManagerOk;
    if ops == [] {
    } else {
      ApplyOk(m, ops[0]);
      RunOk(Apply(m, ops[0]), ops[1..]);
    }
  }

  lemma {:induction false} NewOk()
    ensures ManagerOk(New())
  {
    AllEmpty(MAX_SOCKETS);
  }

  lemma {:induction false} AllEmpty(n: nat)
    ensures Empties(seq(n, _ => -1)) == n
  {
    if n == 0 {
    } else {
      assert seq(n, _ => -1)[1..] == seq(n - 1, _ => -1);
      AllEmpty(n - 1);
    }
  }

  /** The two lookups are inverse: on registered descriptors, and on occupied slots. */
  lemma {:induction false} LookupsInverse(m: Manager, s: int, index: int)
    requires ManagerOk(m)
    ensures s in Registered(m.sockets) ==> 1 <= IndexOf(m, s) <= MAX_SOCKETS && SocketAt(m, IndexOf(m, s)) == s
    ensures SocketAt(m, index) >= 0 ==> IndexOf(m, SocketAt(m, index)) == index
    ensures s >= 0 ==> (IndexOf(m, s) == -1 <==> s !in Registered(m.sockets))
  {
    if s in Registered(m.sockets) {
      var i :| 0 <= i < |m.sockets| && m.sockets[i] == s;
    }
  }

  /** Opening succeeds exactly when a slot is empty, the stack hands out a descriptor and connects it; the three
      failures are told apart, in this order, and change nothing. The descriptor is in the first empty slot then,
      in both sets and within maxfds, and every other slot is as it was. */
  lemma {:induction false} OpenOutcome(m: Manager, s: int, connected: bool, j: nat)
    requires ManagerOk(m) && s !in Registered(m.sockets) && j < MAX_SOCKETS
    ensures var (t, r) := Open(m, s, connected);
            var full := forall i :: 0 <= i < |m.sockets| ==> m.sockets[i] != -1;
            if full then (t, r) == (m, -1)
            else if s < 0 then (t, r) == (m, -2)
            else if !connected then (t, r) == (m, -3)
            else
              && 1 <= r <= MAX_SOCKETS && m.sockets[r-1] == -1 && (forall i :: 0 <= i < r - 1 ==> m.sockets[i] != -1)
              && |t.sockets| == MAX_SOCKETS && t.sockets[j] == (if j == r - 1 then s else m.sockets[j])
              && t.fdsR == m.fdsR + {s} && t.fdsW == m.fdsW + {s} && t.maxfds == (if m.maxfds < s then s else m.maxfds)
              && t.events == if |m.events| < MAX_EVENTS - 1 then m.events + [Event(s, CONNECT)] else m.events
  {
    EmptyIffFound(m.sockets);
  }

  /** Closing succeeds exactly on an occupied slot: it is empty then, its descriptor is handed to closesocket and in
      no set, and nothing else changes, waiting events included. */
  lemma {:induction false} CloseOutcome(m: Manager, index: int, j: nat)
    requires ManagerOk(m) && j < MAX_SOCKETS
    ensures var (t, s) := Close(m, index);
            if 1 <= index <= MAX_SOCKETS && m.sockets[index-1] != -1 then
              && s == m.sockets[index-1] && |t.sockets| == MAX_SOCKETS
              && t.sockets[j] == (if j == index - 1 then -1 else m.sockets[j])
              && t == m.(sockets := t.sockets, nIdle := m.nIdle + 1, fdsR := m.fdsR - {s}, fdsW := m.fdsW - {s})
            else (t, s) == (m, -1)
  {
    if SocketAt(m, index) >= 0 {
      LookupsInverse(m, 0, index);
    }
  }

  /** Closing what open returned frees exactly that slot: descriptors, sets and count are as before. */
  lemma {:induction false} CloseUndoesOpen(m: Manager, s: int)
    requires ManagerOk(m) && s !in Registered(m.sockets) && Open(m, s, true).1 > 0
    ensures var open := Open(m, s, true);
            var t := Close(open.0, open.1);
            t.1 == s && t.0 == m.(maxfds := t.0.maxfds, events := t.0.events)
  {
    PutOk(m, s, CONNECT);
    RegisterOk(PutEvent(m, s, CONNECT), s);
    var open := Open(m, s, true).0;
    var i := Find(m.sockets, -1);
    assert open.sockets[i := -1] == m.sockets;
    assert Find(open.sockets, s) == i;
  }

  // ----- the event queue -----

  /** The READ events of the ready sockets among the first n slots, in slot order. */
  function ReadyEvents(sockets: seq<int>, ready: set<int>, n: nat): (r: seq<Event>)
    requires n <= |sockets|
    ensures |r| <= n
  {
    if n == 0 then []
    else ReadyEvents(sockets, ready, n - 1)
         + if sockets[n-1] != -1 && sockets[n-1] in ready then [Event(sockets[n-1], READ)] else []
  }

  /** Polling into an empty queue drops nothing. */
  lemma {:induction false} PollIntoEmpty(sockets: seq<int>, ready: set<int>, n: nat)
    requires n <= |sockets| <= MAX_SOCKETS
    ensures PollEvents([], sockets, ready, n) == ReadyEvents(sockets, ready, n)
    decreases n
  {
    if n == 0 {
    } else {
      PollIntoEmpty(sockets, ready, n - 1);
    }
  }

  /** The events an operation offers to the queue, in order. */
  function Offered(m: Manager, op: Op): seq<Event> {
    match op
    case Opening(s, connected) => if m.nIdle > 0 && s >= 0 && connected then [Event(s, CONNECT)] else []
    case Closing(_) => []
    case Receiving(index, nbytes) =>
      if SocketAt(m, index) >= 0 && nbytes <= 0 then [Event(SocketAt(m, index), CLOSE)] else []
    case Ticking(nactive, ready) =>
      if m.nIdle < MAX_SOCKETS && m.events == [] && nactive > 0 then ReadyEvents(m.sockets, ready, |m.sockets|) else []
  }

  /** An offer is dropped exactly when 127 events are waiting. */
  function Accepted(m: Manager, op: Op): seq<Event> {
    if |m.events| == MAX_EVENTS - 1 then [] else Offered(m, op)
  }

  /** The event an operation takes out of the queue. */
  function Taken(m: Manager, op: Op): seq<Event> {
    if op.Ticking? && m.nIdle < MAX_SOCKETS && m.events + Offered(m, op) != [] then [(m.events + Offered(m, op))[0]] else []
  }

  lemma {:induction false} StepFifo(m: Manager, op: Op)
    requires ManagerOk(m)
    ensures m.events + Accepted(m, op) == Taken(m, op) + Apply(m, op).events
  {
    if op.Ticking? {
      PollIntoEmpty(m.sockets, op.ready, |m.sockets|);
    }
  }

  function AllAccepted(m: Manager, ops: seq<Op>): seq<Event>
    decreases |ops|
  {
    if ops == [] then [] else Accepted(m, ops[0]) + AllAccepted(Apply(m, ops[0]), ops[1..])
  }

  function AllTaken(m: Manager, ops: seq<Op>): seq<Event>
    decreases |ops|
  {
    if ops == [] then [] else Taken(m, ops[0]) + AllTaken(Apply(m, ops[0]), ops[1..])
  }

  /** Over any run the queue is first in, first out: what was waiting and what was accepted is what
      was taken and what is still waiting, in this order. */
  lemma {:induction false} RunFifo(m: Manager, ops: seq<Op>)
    requires ManagerOk(m) && AllAdmissible(m, ops)
    ensures m.events + AllAccepted(m, ops) == AllTaken(m, ops) + Run(m, ops).events
    decreases |ops|
  {
    hide ManagerOk, Accepted, Taken, Apply;
    if ops == [] {
    } else {
      ApplyOk(m, ops[0]);
      StepFifo(m, ops[0]);
      var t := Apply(m, ops[0]);
      RunFifo(t, ops[1..]);
      var a, rest := Accepted(m, ops[0]), AllAccepted(t, ops[1..]);
      var d, later := Taken(m, ops[0]), AllTaken(t, ops[1..]);
      assert m.events + (a + rest) == (m.events + a) + rest;
      assert (d + t.events) + rest == d + (t.events + rest);
      assert d + (later + Run(t, ops[1..]).events) == (d + later) + Run(t, ops[1..]).events;
    }
  }

  /** The timer reports an event exactly when some socket is open and one is waiting or ready; it is
      the oldest, under the index its descriptor has now, or -1 if that was closed meanwhile. */
  lemma {:induction false} TimerReportsOldest(m: Manager, nactive: int, ready: set<int>)
    requires ManagerOk(m)
    ensures var taken := Taken(m, Ticking(nactive, ready));
            var popped := OnTimer(m, nactive, ready).1;
            && (popped.Some? <==> taken != [])
            && (popped.Some? ==> popped == Some(IndexOf(m, taken[0].socket), taken[0].kind))
            && (popped.Some? && taken[0].socket !in Registered(m.sockets) ==> popped.index == -1)
            && (popped.Some? && taken[0].socket in Registered(m.sockets) ==> SocketAt(m, popped.index) == taken[0].socket)
  {
    PollIntoEmpty(m.sockets, ready, |m.sockets|);
    PollBounded(m, ready, |m.sockets|);
    var taken := Taken(m, Ticking(nactive, ready));
    if taken != [] {
      LookupsInverse(m, taken[0].socket, 0);
    }
  }

  /** Events name descriptors, not sockets: one queued for a closed socket is reported for the next
      socket that gets the same descriptor. */
  lemma {:induction false} StaleEventReachesNewOwner(m: Manager, index: int, s: int, nactive: int, ready: set<int>)
    requires ManagerOk(m) && SocketAt(m, index) == s >= 0 && m.events == []
    ensures var failed := Recv(m, index, 0);
            var reopened := Open(Close(failed, index).0, s, true);
            && reopened.1 > 0
            && OnTimer(reopened.0, nactive, ready).1 == Some(reopened.1, CLOSE)
  {
    var failed := Recv(m, index, 0);
    PutOk(m, s, CLOSE);
    UnregisterOk(failed, s);
    var closed := Close(failed, index).0;
    LookupsInverse(failed, s, index);
    EmptyIffFound(closed.sockets);
    assert closed.sockets[index - 1] == -1;
    PutOk(closed, s, CONNECT);
    RegisterOk(PutEvent(closed, s, CONNECT), s);
    SomeOpen(Open(closed, s, true).0, s);
  }

  lemma {:induction false} SomeOpen(m: Manager, s: int)
    requires ManagerOk(m) && s in Registered(m.sockets)
    ensures m.nIdle < MAX_SOCKETS
  {
    var i :| 0 <= i < |m.sockets| && m.sockets[i] == s;
    EmptiesUpdate(m.sockets, i, -1);
    EmptyIffFound(m.sockets[i := -1]);
  }
}
