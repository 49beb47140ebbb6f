/** struct tagSystemSocketManager with its functions: two fixed tables and an event ring in arrays. */
module SocketManager {
  import opened SocketState

  /** The content of the ring from `read` up to `write`, oldest first. */
  function Content(socks: seq<int>, kinds: seq<int>, read: nat, write: nat): (q: seq<Event>)
    requires |socks| == |kinds| == MAX_EVENTS && read < MAX_EVENTS && write < MAX_EVENTS
    ensures |q| == if read <= write then write - read else write + MAX_EVENTS - read
    ensures forall i :: 0 <= i < |q| ==> q[i] == Event(socks[(read + i) % MAX_EVENTS], kinds[(read + i) % MAX_EVENTS])
  {
    var n := if read <= write then write - read else write + MAX_EVENTS - read;
    seq(n, i requires 0 <= i < n => Event(socks[(read + i) % MAX_EVENTS], kinds[(read + i) % MAX_EVENTS]))
  }

  function Next(i: nat): nat {
    if i + 1 >= MAX_EVENTS then 0 else i + 1
  }

  lemma {:induction false} Wraps(read: nat, i: nat)
    requires read < MAX_EVENTS && i < MAX_EVENTS
    ensures (read + i) % MAX_EVENTS == if read + i < MAX_EVENTS then read + i else read + i - MAX_EVENTS
  {
  }

  /** Filling the place at `write`, if another is free, appends. */
  lemma {:induction false} ContentPut(socks: seq<int>, kinds: seq<int>, read: nat, write: nat, s: int, kind: int)
    requires |socks| == |kinds| == MAX_EVENTS && read < MAX_EVENTS && write < MAX_EVENTS && Next(write) != read
    ensures Content(socks[write := s], kinds[write := kind], read, Next(write))
            == Content(socks, kinds, read, write) + [Event(s, kind)]
  {
    var q := Content(socks, kinds, read, write);
    var t := Content(socks[write := s], kinds[write := kind], read, Next(write));
    forall i | 0 <= i < |t| ensures t[i] == (q + [Event(s, kind)])[i] {
      Wraps(read, i);
    }
  }

  /** Clearing the place at `read` removes the oldest event. */
  lemma {:induction false} ContentPop(socks: seq<int>, kinds: seq<int>, read: nat, write: nat)
    requires |socks| == |kinds| == MAX_EVENTS && read < MAX_EVENTS && write < MAX_EVENTS && read != write
    ensures Content(socks, kinds, read, write)[0] == Event(socks[read], kinds[read])
    ensures Content(socks[read := 0], kinds[read := 0], Next(read), write) == Content(socks, kinds, read, write)[1..]
  {
    var q := Content(socks, kinds, read, write);
    var t := Content(socks[read := 0], kinds[read := 0], Next(read), write);
    forall i | 0 <= i < |t| ensures t[i] == q[1..][i] {
      Wraps(read, i + 1);
      Wraps(Next(read), i);
    }
  }

  class SocketManager {
    var nIdle: int
    const sockets: array<int>
    var maxfds: int
    var fdsR: set<int>
    var fdsW: set<int>
    var eventRead: nat
    var eventWrite: nat
    const eventSocket: array<int>
    const eventKind: array<int>

    ghost predicate Valid()
      reads this
    {
      && sockets.Length == MAX_SOCKETS
      && eventSocket.Length == eventKind.Length == MAX_EVENTS
      && sockets != eventSocket && sockets != eventKind && eventSocket != eventKind
      && eventRead < MAX_EVENTS && eventWrite < MAX_EVENTS
    }

    ghost function Events(): seq<Event>
      requires Valid()
      reads this, eventSocket, eventKind
    {
      Content(eventSocket[..], eventKind[..], eventRead, eventWrite)
    }

    ghost function State(): Manager
      requires Valid()
      reads this, sockets, eventSocket, eventKind
    {
      Manager(nIdle, sockets[..], maxfds, fdsR, fdsW, Events())
    }

    /** SystemSocketManager_new */
    constructor ()
      ensures Valid() && fresh(sockets) && fresh(eventSocket) && fresh(eventKind)
      ensures State() == New()
    {
      nIdle := MAX_SOCKETS;
      maxfds := 0;
      fdsR, fdsW := {}, {};
      eventRead, eventWrite := 0, 0;
      sockets := new int[MAX_SOCKETS](_ => -1);
      eventSocket := new int[MAX_EVENTS](_ => 0);
      eventKind := new int[MAX_EVENTS](_ => 0);
      new;
      assert sockets[..] == seq(MAX_SOCKETS, _ => -1);
    }

    /** The scans of register, unregister and getIndxBySocket. */
    method Scan(s: int) returns (i: nat)
      requires Valid()
      ensures i == Find(sockets[..], s)
    {
      i := 0;
      while i < MAX_SOCKETS && sockets[i] != s
        invariant i <= MAX_SOCKETS
        invariant Find(sockets[..], s) == i + Find(sockets[i..], s)
      {
        i := i + 1;
      }
    }

    method Register(s: int) returns (index: int)
      requires Valid()
      modifies this`nIdle, this`maxfds, this`fdsR, this`fdsW, sockets
      ensures Valid() && (State(), index) == SocketState.Register(old(State()), s)
    {
      index := -1;
      var i := Scan(-1);
      if i < MAX_SOCKETS {
        sockets[i] := s;
        if maxfds < s {
          maxfds := s;
        }
        fdsR := fdsR + {s};
        fdsW := fdsW + {s};
        nIdle := nIdle - 1;
        index := i + 1;
      }
    }

    method Unregister(s: int) returns (index: int)
      requires Valid()
      modifies this`nIdle, this`fdsR, this`fdsW, sockets
      ensures Valid() && (State(), index) == SocketState.Unregister(old(State()), s)
    {
      index := -1;
      var i := Scan(s);
      if i < MAX_SOCKETS {
        sockets[i] := -1;
        fdsR := fdsR - {s};
        fdsW := fdsW - {s};
        nIdle := nIdle + 1;
        index := i + 1;
      }
    }

    method PutEvent(s: int, kind: int)
      requires Valid()
      modifies this`eventWrite, eventSocket, eventKind
      ensures Valid() && State() == SocketState.PutEvent(old(State()), s, kind)
    {
      hide Content;
      var i := eventWrite;
      if (i + 1) % MAX_EVENTS == eventRead {
        return;
      }
      eventSocket[i] := s;
      eventKind[i] := kind;
      i := i + 1;
      if i >= MAX_EVENTS {
        i := 0;
      }
      eventWrite := i;
      ContentPut(old(eventSocket[..]), old(eventKind[..]), eventRead, old(eventWrite), s, kind);
      assert eventSocket[..] == old(eventSocket[..])[old(eventWrite) := s];
      assert eventKind[..] == old(eventKind[..])[old(eventWrite) := kind];
    }

    method PopEvent() returns (popped: Popped)
      requires Valid()
      modifies this`eventRead, eventSocket, eventKind
      ensures Valid() && (State(), popped) == SocketState.PopEvent(old(State()))
    {
      hide Content;
      popped := None;
      if eventRead != eventWrite {
        var i := eventRead;
        ContentPop(eventSocket[..], eventKind[..], eventRead, eventWrite);
        var index := GetIndexBySocket(eventSocket[i]);
        popped := Some(index, eventKind[i]);
        eventSocket[i] := 0;
        eventKind[i] := 0;
        eventRead := eventRead + 1;
        if eventRead >= MAX_EVENTS {
          eventRead := 0;
        }
        assert eventSocket[..] == old(eventSocket[..])[i := 0];
        assert eventKind[..] == old(eventKind[..])[i := 0];
      }
    }

    /** `nactive` and `ready` are what select returns and leaves in its copy of fds_r. */
    method Poll(nactive: int, ready: set<int>)
      requires Valid()
      modifies this`eventWrite, eventSocket, eventKind
      ensures Valid() && State() == SocketState.Poll(old(State()), nactive, ready)
    {
      if nactive > 0 {
        for i := 0 to MAX_SOCKETS
          invariant Valid() && sockets[..] == old(sockets[..])
          invariant Events() == PollEvents(old(Events()), sockets[..], ready, i)
        {
          var s := sockets[i];
          if s == -1 {
            continue;
          }
          if s in ready {
            PutEvent(s, READ);
          }
        }
      }
    }

    method GetSocketByIndex(index: int) returns (s: int)
      requires Valid()
      ensures s == SocketAt(State(), index)
    {
      s := -1;
      if index > 0 && index <= MAX_SOCKETS {
        s := sockets[index - 1];
      }
    }

    method GetIndexBySocket(s: int) returns (index: int)
      requires Valid()
      ensures index == IndexOf(State(), s)
    {
      index := -1;
      var i := Scan(s);
      if i < MAX_SOCKETS {
        index := i + 1;
      }
    }

    /** ipanel_porting_socket_open, given what socket() and connect() answer. */
    method Open(s: int, connected: bool) returns (index: int)
      requires Valid()
      modifies this, sockets, eventSocket, eventKind
      ensures Valid() && (State(), index) == SocketState.Open(old(State()), s, connected)
    {
      if nIdle <= 0 {
        return -1;
      }
      if s < 0 {
        return -2;
      }
      if !connected {
        return -3;
      }
      PutEvent(s, CONNECT);
      index := Register(s);
    }

    /** ipanel_porting_socket_recv, given what recv() returned. */
    method Recv(index: int, nbytes: int)
      requires Valid()
      modifies this`eventWrite, eventSocket, eventKind
      ensures Valid() && State() == SocketState.Recv(old(State()), index, nbytes)
    {
      var s := GetSocketByIndex(index);
      if s >= 0 {
        if nbytes <= 0 {
          PutEvent(s, CLOSE);
        }
      }
    }

    /** ipanel_porting_socket_close; returns the descriptor passed to closesocket, or -1. */
    method Close(index: int) returns (closing: int)
      requires Valid()
      modifies this`nIdle, this`fdsR, this`fdsW, sockets
      ensures Valid() && (State(), closing) == SocketState.Close(old(State()), index)
    {
      closing := -1;
      var s := GetSocketByIndex(index);
      if s >= 0 {
        var _ := Unregister(s);
        closing := s;
      }
    }

    /** ipanel_porting_socket_ontimer */
    method OnTimer(nactive: int, ready: set<int>) returns (popped: Popped)
      requires Valid()
      modifies this`eventRead, this`eventWrite, eventSocket, eventKind
      ensures Valid() && (State(), popped) == SocketState.OnTimer(old(State()), nactive, ready)
    {
      if nIdle >= MAX_SOCKETS {
        return None;
      }
      popped := PopEvent();
      if popped == None {
        Poll(nactive, ready);
        popped := PopEvent();
      }
    }
  }
}
