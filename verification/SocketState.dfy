/** The socket manager of ipanel_socket.c as a value: its slots, descriptor sets and event queue. */
module SocketState {
  const MAX_SOCKETS: nat := 8
  const MAX_EVENTS: nat := 128

  const CONNECT: int := 1
  const CLOSE: int := 2
  const READ: int := 3

  datatype Event = Event(socket: int, kind: int)

  /** `events` is the content of the event ring, oldest first. */
  datatype Manager = Manager(nIdle: int, sockets: seq<int>, maxfds: int, fdsR: set<int>, fdsW: set<int>,
                             events: seq<Event>)

  /** First slot from i on that holds s, or the number of slots. */
  function Find(sockets: seq<int>, s: int): (i: nat)
    ensures i <= |sockets|
    ensures i < |sockets| ==> sockets[i] == s
    ensures forall j :: 0 <= j < i ==> sockets[j] != s
  {
    if sockets == [] || sockets[0] == s then 0 else 1 + Find(sockets[1..], s)
  }

  /** getIndxBySocket: 1-based, or -1. */
  function IndexOf(m: Manager, s: int): int {
    var i := Find(m.sockets, s);
    if i < |m.sockets| then i + 1 else -1
  }

  /** getSocketByIndx */
  function SocketAt(m: Manager, index: int): int {
    if 0 < index <= |m.sockets| then m.sockets[index - 1] else -1
  }

  function Register(m: Manager, s: int): (Manager, int) {
    var i := Find(m.sockets, -1);
    if i == |m.sockets| then (m, -1)
    else (m.(sockets := m.sockets[i := s], maxfds := if m.maxfds < s then s else m.maxfds,
             fdsR := m.fdsR + {s}, fdsW := m.fdsW + {s}, nIdle := m.nIdle - 1), i + 1)
  }

  function Unregister(m: Manager, s: int): (Manager, int) {
    var i := Find(m.sockets, s);
    if i == |m.sockets| then (m, -1)
    else (m.(sockets := m.sockets[i := -1], fdsR := m.fdsR - {s}, fdsW := m.fdsW - {s}, nIdle := m.nIdle + 1), i + 1)
  }

  /** One place of the ring stays free, to tell full from empty. */
  function Queued(events: seq<Event>, e: Event): seq<Event> {
    if |events| >= MAX_EVENTS - 1 then events else events + [e]
  }

  function PutEvent(m: Manager, s: int, kind: int): Manager {
    m.(events := Queued(m.events, Event(s, kind)))
  }

  datatype Popped = None | Some(index: int, kind: int)

  function PopEvent(m: Manager): (Manager, Popped) {
    if m.events == [] then (m, None)
    else (m.(events := m.events[1..]), Some(IndexOf(m, m.events[0].socket), m.events[0].kind))
  }

  /** The READ events poll queues for the first n slots; `ready` is what select left in fds_r. */
  function PollEvents(events: seq<Event>, sockets: seq<int>, ready: set<int>, n: nat): seq<Event>
    requires n <= |sockets|
  {
    if n == 0 then events
    else
      var before := PollEvents(events, sockets, ready, n - 1);
      if sockets[n-1] != -1 && sockets[n-1] in ready then Queued(before, Event(sockets[n-1], READ)) else before
  }

  function Poll(m: Manager, nactive: int, ready: set<int>): Manager {
    if nactive > 0 then m.(events := PollEvents(m.events, m.sockets, ready, |m.sockets|)) else m
  }

  /** ipanel_porting_socket_ontimer */
  function OnTimer(m: Manager, nactive: int, ready: set<int>): (Manager, Popped) {
    if m.nIdle >= MAX_SOCKETS then (m, None)
    else if m.events != [] then PopEvent(m)
    else PopEvent(Poll(m, nactive, ready))
  }

  /** ipanel_porting_socket_open: `s` is what socket() returned, `connected` whether connect() succeeded. */
  function Open(m: Manager, s: int, connected: bool): (Manager, int) {
    if m.nIdle <= 0 then (m, -1)
    else if s < 0 then (m, -2)
    else if !connected then (m, -3)
    else Register(PutEvent(m, s, CONNECT), s)
  }

  /** ipanel_porting_socket_close; the descriptor handed to closesocket, if any. */
  function Close(m: Manager, index: int): (Manager, int) {
    var s := SocketAt(m, index);
    if s >= 0 then (Unregister(m, s).0, s) else (m, -1)
  }

  /** ipanel_porting_socket_recv, where recv() returned nbytes. */
  function Recv(m: Manager, index: int, nbytes: int): Manager {
    var s := SocketAt(m, index);
    if s >= 0 && nbytes <= 0 then PutEvent(m, s, CLOSE) else m
  }

  function New(): Manager {
    Manager(MAX_SOCKETS, seq(MAX_SOCKETS, _ => -1), 0, {}, {}, [])
  }

  // ----- the invariant -----

  function Empties(sockets: seq<int>): nat {
    if sockets == [] then 0 else (if sockets[0] == -1 then 1 else 0) + Empties(sockets[1..])
  }

  ghost function Registered(sockets: seq<int>): set<int> {
    set i | 0 <= i < |sockets| && sockets[i] != -1 :: sockets[i]
  }

  predicate DistinctSockets(sockets: seq<int>) {
    && (forall i :: 0 <= i < |sockets| ==> sockets[i] >= -1)
    && (forall i, j :: 0 <= i < j < |sockets| && sockets[i] == sockets[j] ==> sockets[i] == -1)
  }

  ghost predicate ManagerOk(m: Manager) {
    && |m.sockets| == MAX_SOCKETS
    && DistinctSockets(m.sockets)
    && m.nIdle == Empties(m.sockets)
    && m.fdsR == m.fdsW == Registered(m.sockets)
    && (forall i :: 0 <= i < |m.sockets| ==> m.sockets[i] <= m.maxfds)
    && |m.events| < MAX_EVENTS
    && (forall i :: 0 <= i < |m.events| ==> m.events[i].socket >= 0)
  }

  lemma {:induction false} EmptiesUpdate(sockets: seq<int>, i: nat, s: int)
    requires i < |sockets|
    ensures Empties(sockets[i := s])
            == Empties(sockets) - (if sockets[i] == -1 then 1 else 0) + if s == -1 then 1 else 0
  {
    if i == 0 {
      assert sockets[0 := s][1..] == sockets[1..];
    } else {
      assert sockets[i := s][1..] == sockets[1..][i-1 := s];
      EmptiesUpdate(sockets[1..], i - 1, s);
    }
  }

  lemma {:induction false} EmptyIffFound(sockets: seq<int>)
    ensures Empties(sockets) == 0 <==> Find(sockets, -1) == |sockets|
    ensures Empties(sockets) <= |sockets|
  {
    if sockets == [] {
    } else {
      EmptyIffFound(sockets[1..]);
    }
  }

  lemma {:induction false} RegisteredUpdate(sockets: seq<int>, i: nat, s: int)
    requires i < |sockets| && DistinctSockets(sockets) && s !in Registered(sockets) && s >= -1
    ensures DistinctSockets(sockets[i := s])
    ensures Registered(sockets[i := s]) == Registered(sockets) - {sockets[i]} + if s == -1 then {} else {s}
  {
    var t := sockets[i := s];
    assert t[i] == s;
    assert forall j :: 0 <= j < |sockets| && sockets[j] == s ==> s == -1;
    forall x | x in Registered(sockets) && x != sockets[i] ensures x in Registered(t) {
      var j :| 0 <= j < |sockets| && sockets[j] == x;
      assert t[j] == x;
    }
    forall x | x in Registered(t) ensures x == s || (x in Registered(sockets) && x != sockets[i]) {
      var j :| 0 <= j < |t| && t[j] == x;
      if j != i {
        assert sockets[j] == x;
      }
    }
  }

  /** Registering a descriptor that is not registered fills the first empty slot. */
  lemma {:induction false} RegisterOk(m: Manager, s: int)
    requires ManagerOk(m) && s >= 0 && s !in Registered(m.sockets)
    ensures ManagerOk(Register(m, s).0)
    ensures Register(m, s).1 == -1 <==> m.nIdle == 0
    ensures m.nIdle > 0 ==> IndexOf(Register(m, s).0, s) == Register(m, s).1
                            && Registered(Register(m, s).0.sockets) == Registered(m.sockets) + {s}
  {
    EmptyIffFound(m.sockets);
    var i := Find(m.sockets, -1);
    if i < |m.sockets| {
      EmptiesUpdate(m.sockets, i, s);
      RegisteredUpdate(m.sockets, i, s);
      var t := Register(m, s).0;
      assert t.sockets[i] == s;
      assert forall j :: 0 <= j < i ==> t.sockets[j] == m.sockets[j];
      assert forall j :: 0 <= j < |m.sockets| && m.sockets[j] != -1 ==> m.sockets[j] in Registered(m.sockets);
    }
  }

  lemma {:induction false} UnregisterOk(m: Manager, s: int)
    requires ManagerOk(m) && s >= 0
    ensures ManagerOk(Unregister(m, s).0)
    ensures Registered(Unregister(m, s).0.sockets) == Registered(m.sockets) - {s}
    ensures Unregister(m, s).1 == IndexOf(m, s)
  {
    var i := Find(m.sockets, s);
    if i < |m.sockets| {
      EmptiesUpdate(m.sockets, i, -1);
      RegisteredUpdate(m.sockets, i, -1);
    }
  }

  lemma {:induction false} PollBounded(m: Manager, ready: set<int>, n: nat)
    requires ManagerOk(m) && n <= |m.sockets|
    ensures |PollEvents(m.events, m.sockets, ready, n)| < MAX_EVENTS
    ensures forall i :: 0 <= i < |PollEvents(m.events, m.sockets, ready, n)| ==>
              PollEvents(m.events, m.sockets, ready, n)[i].socket >= 0
    decreases n
  {
    if n == 0 {
    } else {
      PollBounded(m, ready, n - 1);
    }
  }
}
