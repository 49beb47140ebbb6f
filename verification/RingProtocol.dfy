/** When the byte ring of ipanel_demux.c delivers what it accepted, and exactly when a write spoils it. */
module RingProtocol {
  import opened Bytes
  import opened SectionRing

  /** The unread sections a write should leave behind. */
  function After(s: Ring, recs: seq<Record>, r: Record): seq<Record> {
    if Refused(s, |r.payload|) then recs else recs + [r]
  }

  /** What a caller could test before a write of `len` section bytes: the indices alone decide it.
      The guard in the source looks at `len` without the header, and only after wr has been wrapped. */
  predicate Room(rd: nat, wr: nat, len: nat) {
    var p := Home(wr);
    var n := HEADER + len;
    || rd == wr
    || if FreeBlock(rd, p) < len then p == wr
       else if p != wr then n < Home(rd)
       else if rd <= wr then true
       else if Home(rd) == rd then wr + n < rd
       else wr + n != rd
  }

  // ----- a write with room -----

  lemma {:induction false} OverwriteSlices(buf: seq<Byte>, pos: nat, bytes: seq<Byte>)
    requires pos + |bytes| <= |buf|
    ensures Overwrite(buf, pos, bytes)[..pos] == buf[..pos]
    ensures Overwrite(buf, pos, bytes)[pos..pos + |bytes|] == bytes
    ensures Overwrite(buf, pos, bytes)[pos + |bytes|..] == buf[pos + |bytes|..]
  {
  }

  /** Records that end before the written bytes, or start after them, are still there. */
  lemma {:induction false} OverwriteKeeps(buf: seq<Byte>, p: nat, r: Record, pos: nat, recs: seq<Record>)
    requires |buf| == SIZE && RecordOk(r) && p <= LIMIT
    requires Straight(buf, pos, recs)
    requires recs == [] || End(pos, recs) <= p || p + Len(r) <= pos
    ensures Straight(Overwrite(buf, p, Encode(r)), pos, recs)
    ensures Stored(Overwrite(buf, p, Encode(r)), p, r)
  {
    var out := Overwrite(buf, p, Encode(r));
    OverwriteSlices(buf, p, Encode(r));
    if recs != [] {
      StraightInside(buf, pos, recs);
      if End(pos, recs) <= p {
        assert buf[0..p] == out[0..p];
        StraightFrame(buf, out, pos, recs, 0, p);
      } else {
        assert buf[p + Len(r)..SIZE] == out[p + Len(r)..SIZE];
        StraightFrame(buf, out, pos, recs, p + Len(r), SIZE);
      }
    }
  }

  lemma {:induction false} SplitHolds(s: Ring, upper: seq<Record>, lower: seq<Record>)
    requires RingOk(s) && Wrapped(s, upper, lower)
    ensures Holds(s, upper + lower)
  {
    var recs := upper + lower;
    assert recs[..|upper|] == upper && recs[|upper|..] == lower;
  }

  /** The writer appends, or wraps for the first time. */
  lemma {:induction false} PutOnPlain(s: Ring, recs: seq<Record>, r: Record)
    requires RingOk(s) && Plain(s, recs) && RecordOk(r) && Room(s.rd, s.wr, |r.payload|)
    ensures Holds(Put(s, r), After(s, recs, r))
  {
    hide Straight, Stored, Overwrite;
    StraightInside(s.buf, s.rd, recs);
    var p := Home(s.wr);
    if Refused(s, |r.payload|) {
    } else {
      OverwriteKeeps(s.buf, p, r, s.rd, recs);
      var out := Overwrite(s.buf, p, Encode(r));
      if p == s.wr {
        StraightAppend(out, s.rd, recs, r);
      } else {
        One(out, r);
        SplitHolds(Put(s, r), recs, [r]);
      }
    }
  }

  lemma {:induction false} One(buf: seq<Byte>, r: Record)
    requires Stored(buf, 0, r)
    ensures Straight(buf, 0, [r]) && End(0, [r]) == Len(r)
  {
    assert [r][1..] == [];
  }

  /** The writer follows the reader around the ring. */
  lemma {:induction false} PutOnWrapped(s: Ring, upper: seq<Record>, lower: seq<Record>, r: Record)
    requires RingOk(s) && Wrapped(s, upper, lower) && RecordOk(r) && Room(s.rd, s.wr, |r.payload|)
    ensures Holds(Put(s, r), After(s, upper + lower, r))
  {
    hide Straight, Stored, Overwrite;
    StraightInside(s.buf, s.rd, upper);
    StraightInside(s.buf, 0, lower);
    var p := Home(s.wr);
    if Refused(s, |r.payload|) {
      SplitHolds(s, upper, lower);
    } else {
      OverwriteKeeps(s.buf, p, r, s.rd, upper);
      OverwriteKeeps(s.buf, p, r, 0, lower);
      StraightAppend(Overwrite(s.buf, p, Encode(r)), 0, lower, r);
      SplitHolds(Put(s, r), upper, lower + [r]);
      assert upper + (lower + [r]) == (upper + lower) + [r];
    }
  }

  /** A write with room keeps every unread section and adds the new one at the end; or, refused,
      it changes nothing the reader could see. */
  lemma {:induction false} PutKeeps(s: Ring, recs: seq<Record>, r: Record)
    requires Holds(s, recs) && RecordOk(r) && Room(s.rd, s.wr, |r.payload|)
    ensures Holds(Put(s, r), After(s, recs, r))
  {
    hide Put, Room, Straight, Stored, Plain, Wrapped, Refused;
    if Plain(s, recs) {
      PutOnPlain(s, recs, r);
    } else {
      var k :| 0 <= k <= |recs| && Wrapped(s, recs[..k], recs[k..]);
      PutOnWrapped(s, recs[..k], recs[k..], r);
      assert recs[..k] + recs[k..] == recs;
    }
  }

  // ----- which sections the writer takes -----

  /** The write index once the writer has run back: within 4132 bytes of the end it starts at 0. */
  function StartOfWrite(wr: nat): nat {
    if wr + 4132 > 0x180000 then 0 else wr
  }

  /** The section fits before the reader, or else before the end of the buffer. */
  predicate Fits(rd: nat, wr: nat, len: nat) {
    var p := StartOfWrite(wr);
    if p < rd then p + len <= rd else p + len <= 0x180000
  }

  /** A write stores a section that fits, 36 bytes of header in front of it, and touches no other byte; of one
      that does not fit it leaves nothing but the runback. */
  lemma {:induction false} PutExact(s: Ring, r: Record, k: nat)
    requires RingOk(s) && RecordOk(r) && k < 0x180000
    ensures var t, p, n := Put(s, r), StartOfWrite(s.wr), |r.payload|;
      if Fits(s.rd, s.wr, n) then
        && t.wr == p + 36 + n && t.rd == s.rd && Stored(t.buf, p, r)
        && (k < p || p + 36 + n <= k ==> t.buf[k] == s.buf[k])
      else t == s.(wr := p)
  {
    var p := Home(s.wr);
    OverwriteSlices(s.buf, p, Encode(r));
    hide Encode;
    var out := Overwrite(s.buf, p, Encode(r));
    if k < p {
      assert out[..p][k] == s.buf[..p][k];
    }
  }

  /** The reader, unless its index has met the writer's: it runs back under the same test as the writer, and moves
      over 36 bytes and the length in the first two of them, high byte first. */
  lemma {:induction false} AdvanceExact(s: Ring)
    requires RingOk(s)
    ensures var p := StartOfWrite(s.rd);
      if s.rd == s.wr then Settle(s) == Advance(s) == s
      else var high: int, low: int := s.buf[p], s.buf[p+1];
        Settle(s) == s.(rd := p) && Advance(s) == s.(rd := p + 36 + high * 256 + low)
  {
  }

  /** What a run counts as accepted is what fits. */
  lemma {:induction false} AcceptedIffFits(s: Ring, recs: seq<Record>, r: Record)
    ensures AcceptedBy(s, Write(r)) == if Fits(s.rd, s.wr, |r.payload|) then [r] else []
    ensures After(s, recs, r) == if Fits(s.rd, s.wr, |r.payload|) then recs + [r] else recs
  {
  }

  /** A drained ring takes every section of up to 4096 bytes, wherever its indices stand, and the reader then
      finds exactly that one and is done. */
  lemma {:induction false} DrainedTakesAny(s: Ring, r: Record)
    requires RingOk(s) && s.rd == s.wr && RecordOk(r)
    ensures Fits(s.rd, s.wr, |r.payload|) && Holds(Put(s, r), [r])
    ensures Advance(Put(s, r)).rd == Advance(Put(s, r)).wr
  {
    assert Holds(s, []);
    PutKeeps(s, [], r);
    assert [] + [r] == [r] && [r][1..] == [];
    AdvanceKeeps(Put(s, r), [r]);
    EmptyIffMet(Advance(Put(s, r)), []);
    hide Encode, Straight, Stored;
  }

  // ----- the reader -----

  lemma {:induction false} AdvanceSkips(s: Ring, r: Record)
    requires RingOk(s) && s.rd != s.wr && Stored(s.buf, Home(s.rd), r)
    ensures Advance(s) == s.(rd := Home(s.rd) + Len(r))
  {
    DecodeEncode(s.buf, Home(s.rd), r);
  }

  /** The reader takes the oldest unread section and leaves the rest. */
  lemma {:induction false} AdvanceKeeps(s: Ring, recs: seq<Record>)
    requires Holds(s, recs) && recs != []
    ensures s.rd != s.wr && Stored(s.buf, Home(s.rd), recs[0])
    ensures Holds(Advance(s), recs[1..])
  {
    hide HeaderAt, Advance, Encode;
    HoldsReads(s, recs);
    AdvanceSkips(s, recs[0]);
    if !Plain(s, recs) {
      var k :| 0 <= k <= |recs| && Wrapped(s, recs[..k], recs[k..]);
      StraightInside(s.buf, 0, recs[k..]);
      if k == 0 {
        assert recs[k..] == recs;
      } else {
        var upper, lower := recs[..k], recs[k..];
        assert upper[1..] == recs[1..][..k-1] && lower == recs[1..][k-1..];
        StraightInside(s.buf, s.rd, upper);
        assert Wrapped(Advance(s), upper[1..], lower);
      }
    }
  }

  lemma {:induction false} SettleKeeps(s: Ring, recs: seq<Record>)
    requires Holds(s, recs)
    ensures Holds(Settle(s), recs)
  {
    HoldsReads(s, recs);
    if !Plain(s, recs) {
      var k :| 0 <= k <= |recs| && Wrapped(s, recs[..k], recs[k..]);
      if k == 0 {
        assert recs[k..] == recs;
      }
    }
  }

  /** With nothing unread the two indices are equal, and otherwise they are not. */
  lemma {:induction false} EmptyIffMet(s: Ring, recs: seq<Record>)
    requires Holds(s, recs)
    ensures recs == [] <==> s.rd == s.wr
  {
    HoldsReads(s, recs);
  }

  // ----- a write without room -----

  /** One reader position ends one record sequence: the same records lead to the same writer index. */
  lemma {:induction false} ReadsEndOnce(buf: seq<Byte>, rd: nat, w0: nat, w1: nat, recs: seq<Record>)
    requires Reads(buf, rd, w0, recs) && Reads(buf, rd, w1, recs)
    ensures w0 == w1
    decreases |recs|
  {
    if recs == [] {
    } else {
      ReadsEndOnce(buf, Home(rd) + Len(recs[0]), w0, w1, recs[1..]);
    }
  }

  /** A section of this length, all of whose free bytes are b. */
  function Filled(b: Byte, len: nat): (r: Record)
    requires len <= MAX_SEC
    ensures RecordOk(r) && |r.payload| == len
    ensures forall k :: 2 <= k < Len(r) ==> Encode(r)[k] == b
  {
    Record(b * 256 + b, seq(MASK_NUM, _ => b), seq(len, _ => b))
  }

  /** A write that covers the first byte of a record can destroy that record. */
  lemma {:induction false} OverlapDestroys(buf: seq<Byte>, p: nat, e: nat, victim: Record, len: nat) returns (r: Record)
    requires |buf| == SIZE && Stored(buf, e, victim) && len <= MAX_SEC && p <= LIMIT
    requires p <= e < p + HEADER + len
    ensures RecordOk(r) && |r.payload| == len && !Stored(Overwrite(buf, p, Encode(r)), e, victim)
  {
    var k := if e < p + 2 then p + 2 else e;
    var b := if Encode(victim)[k - e] == 0 then 1 else 0;
    r := Filled(b, len);
    var out := Overwrite(buf, p, Encode(r));
    assert out[k] == Encode(r)[k - p] == b;
    assert out[e..e + Len(victim)][k - e] == out[k];
  }

  /** Without room there is a section of that length after which the reader no longer gets the
      unread sections and then the new one (if it was accepted). */
  lemma {:induction false} PutBreaks(s: Ring, recs: seq<Record>, len: nat) returns (r: Record)
    requires Holds(s, recs) && len <= MAX_SEC && !Room(s.rd, s.wr, len)
    ensures RecordOk(r) && |r.payload| == len
    ensures !Reads(Put(s, r).buf, s.rd, Put(s, r).wr, After(s, recs, r))
  {
    hide Encode, Overwrite, Straight;
    EmptyIffMet(s, recs);
    HoldsReads(s, recs);
    var p := Home(s.wr);
    var e := Home(s.rd);
    if Refused(s, len) || p + HEADER + len == s.rd {
      r := Filled(0, len);
      if Refused(s, len) && Reads(s.buf, s.rd, 0, recs) {
        ReadsEndOnce(s.buf, s.rd, s.wr, 0, recs);
      }
    } else {
      r := OverlapDestroys(s.buf, p, e, recs[0], len);
      assert (recs + [r])[0] == recs[0];
    }
  }

  ghost predicate SafeForAll(s: Ring, recs: seq<Record>, len: nat)
    requires RingOk(s)
  {
    forall r :: RecordOk(r) && |r.payload| == len ==> Reads(Put(s, r).buf, s.rd, Put(s, r).wr, After(s, recs, r))
  }

  /** A write of `len` bytes is safe whatever the section's contents exactly when there is room. */
  lemma {:induction false} SafeIffRoom(s: Ring, recs: seq<Record>, len: nat)
    requires Holds(s, recs) && len <= MAX_SEC
    ensures SafeForAll(s, recs, len) <==> Room(s.rd, s.wr, len)
  {
    if Room(s.rd, s.wr, len) {
      forall r | RecordOk(r) && |r.payload| == len
        ensures Reads(Put(s, r).buf, s.rd, Put(s, r).wr, After(s, recs, r))
      {
        PutKeeps(s, recs, r);
        HoldsReads(Put(s, r), After(s, recs, r));
      }
    } else {
      var r := PutBreaks(s, recs, len);
    }
  }

  // ----- whole runs -----

  datatype Event = Write(r: Record) | Wrap | Dispatch

  function Step(s: Ring, e: Event): (t: Ring)
    requires RingOk(s) && (e.Write? ==> RecordOk(e.r))
    ensures RingOk(t)
  {
    match e
    case Write(r) => Put(s, r)
    case Wrap => Settle(s)
    case Dispatch => Advance(s)
  }

  /** Every write of the run finds room. */
  predicate RoomThroughout(s: Ring, run: seq<Event>)
    requires RingOk(s)
    decreases |run|
  {
    run == []
    || (&& (run[0].Write? ==> RecordOk(run[0].r) && Room(s.rd, s.wr, |run[0].r.payload|))
        && RoomThroughout(Step(s, run[0]), run[1..]))
  }

  function Final(s: Ring, run: seq<Event>): (t: Ring)
    requires RingOk(s) && RoomThroughout(s, run)
    ensures RingOk(t)
    decreases |run|
  {
    if run == [] then s else Final(Step(s, run[0]), run[1..])
  }

  function AcceptedBy(s: Ring, e: Event): seq<Record> {
    if e.Write? && !Refused(s, |e.r.payload|) then [e.r] else []
  }

  /** The sections the writer accepted during the run. */
  function Accepted(s: Ring, run: seq<Event>): seq<Record>
    requires RingOk(s) && RoomThroughout(s, run)
    decreases |run|
  {
    if run == [] then [] else AcceptedBy(s, run[0]) + Accepted(Step(s, run[0]), run[1..])
  }

  /** The section the reader passes on: the decoded header fields and the bytes it points to. */
  function Seen(buf: seq<Byte>, e: nat): Record
    requires e + HEADER <= |buf|
  {
    var h := HeaderAt(buf, e);
    Record(h.pid, h.hits, if h.addr + h.len <= |buf| then buf[h.addr..h.addr + h.len] else [])
  }

  function DispatchedBy(s: Ring, e: Event): seq<Record>
    requires RingOk(s)
  {
    if e.Dispatch? && s.rd != s.wr then [Seen(s.buf, Home(s.rd))] else []
  }

  function Dispatched(s: Ring, run: seq<Event>): seq<Record>
    requires RingOk(s) && RoomThroughout(s, run)
    decreases |run|
  {
    if run == [] then [] else DispatchedBy(s, run[0]) + Dispatched(Step(s, run[0]), run[1..])
  }

  /** What one event adds to the accepted and to the dispatched sections. */
  lemma {:induction false} StepDelivers(s: Ring, recs: seq<Record>, e: Event) returns (left: seq<Record>)
    requires Holds(s, recs)
    requires e.Write? ==> RecordOk(e.r) && Room(s.rd, s.wr, |e.r.payload|)
    ensures Holds(Step(s, e), left)
    ensures recs + AcceptedBy(s, e) == DispatchedBy(s, e) + left
  {
    hide Put, Room, Straight, Stored, Plain, Wrapped, Refused, HeaderAt, Encode;
    EmptyIffMet(s, recs);
    match e {
      case Write(r) =>
        PutKeeps(s, recs, r);
        left := After(s, recs, r);
      case Wrap =>
        SettleKeeps(s, recs);
        left := recs;
      case Dispatch =>
        if recs == [] {
          left := recs;
        } else {
          AdvanceKeeps(s, recs);
          SeenStored(s.buf, Home(s.rd), recs[0]);
          left := recs[1..];
        }
    }
  }

  lemma {:induction false} SeenStored(buf: seq<Byte>, e: nat, r: Record)
    requires Stored(buf, e, r)
    ensures Seen(buf, e) == r
  {
    DecodeEncode(buf, e, r);
  }

  /** Ring round trip: over any run in which each write finds room, what was unread plus what was
      accepted is what was dispatched plus what is still unread, in order, across any number of wraps. */
  lemma {:induction false} RunDelivers(s: Ring, recs: seq<Record>, run: seq<Event>) returns (left: seq<Record>)
    requires Holds(s, recs) && RoomThroughout(s, run)
    ensures Holds(Final(s, run), left)
    ensures recs + Accepted(s, run) == Dispatched(s, run) + left
    decreases |run|
  {
    hide Put, Room, Straight, Stored, Plain, Wrapped, AcceptedBy, DispatchedBy, Encode, Step;
    if run == [] {
      left := recs;
    } else {
      var mid := StepDelivers(s, recs, run[0]);
      var t := Step(s, run[0]);
      left := RunDelivers(t, mid, run[1..]);
      Regroup(recs, AcceptedBy(s, run[0]), Accepted(t, run[1..]),
              DispatchedBy(s, run[0]), mid, Dispatched(t, run[1..]), left);
    }
  }

  lemma {:induction false} Regroup(recs: seq<Record>, a: seq<Record>, rest: seq<Record>,
                                   d: seq<Record>, mid: seq<Record>, later: seq<Record>, left: seq<Record>)
    requires recs + a == d + mid && mid + rest == later + left
    ensures recs + (a + rest) == (d + later) + left
  {
    assert recs + (a + rest) == (recs + a) + rest;
    assert (d + mid) + rest == d + (mid + rest);
    assert d + (later + left) == (d + later) + left;
  }

  /** The empty ring the module starts with holds nothing. */
  lemma {:induction false} StartHolds(s: Ring)
    requires RingOk(s) && s.wr == s.rd == 0
    ensures Holds(s, [])
  {
  }

  /** With the ring drained, everything accepted was dispatched, exactly once and in order. */
  lemma {:induction false} AllDelivered(s: Ring, run: seq<Event>)
    requires RingOk(s) && s.wr == s.rd == 0 && RoomThroughout(s, run)
    requires Final(s, run).rd == Final(s, run).wr
    ensures Dispatched(s, run) == Accepted(s, run)
  {
    StartHolds(s);
    var left := RunDelivers(s, [], run);
    EmptyIffMet(Final(s, run), left);
    assert [] + Accepted(s, run) == Accepted(s, run);
  }

  // ----- inputs for which the guard lets the writer spoil the ring -----

  /** A write that ends on rd makes a full ring look empty: nothing of it is dispatched. */
  lemma {:induction false} LandingOnReaderLosesAll(s: Ring, recs: seq<Record>, r: Record)
    requires Holds(s, recs) && recs != [] && RecordOk(r)
    requires !Refused(s, |r.payload|) && Home(s.wr) + Len(r) == s.rd
    ensures After(s, recs, r) == recs + [r] && Reads(Put(s, r).buf, s.rd, Put(s, r).wr, [])
  {
  }

  /** n turns of the reader's inner loop. */
  function Turns(s: Ring, n: nat): (t: Ring)
    requires RingOk(s)
    ensures RingOk(t)
    decreases n
  {
    if n == 0 then s else Turns(Advance(s), n - 1)
  }

  lemma {:induction false} TurnsPastWriter(s: Ring, recs: seq<Record>)
    requires RingOk(s) && Straight(s.buf, s.rd, recs) && s.wr == 0 < s.rd
    ensures Turns(s, |recs|) == s.(rd := End(s.rd, recs))
    decreases |recs|
  {
    hide HeaderAt, Advance, Encode, Stored;
    if recs == [] {
    } else {
      AdvanceSkips(s, recs[0]);
      TurnsPastWriter(Advance(s), recs[1..]);
    }
  }

  /** A write refused after its wrap has already moved wr to 0: having dispatched the unread
      sections, the reader does not stop but decodes the stale bytes at offset 0. */
  lemma {:induction false} RefusedAfterWrapReadsStale(s: Ring, recs: seq<Record>, r: Record)
    requires Holds(s, recs) && RecordOk(r) && Refused(s, |r.payload|) && Home(s.wr) != s.wr
    ensures Put(s, r) == s.(wr := 0)
    ensures var t := Turns(Put(s, r), |recs|); t.rd == s.wr && t.rd != t.wr && Home(t.rd) == 0
  {
    if !Plain(s, recs) {
      var k :| 0 <= k <= |recs| && Wrapped(s, recs[..k], recs[k..]);
      assert k > 0 ==> s.wr < s.rd;
      StraightInside(s.buf, s.rd, recs[..k]);
    }
    TurnsPastWriter(s.(wr := 0), recs);
  }

  /** A section of 1024 bytes; its contents do not matter below. */
  const KILO: Record := Record(0, seq(MASK_NUM, _ => 0), seq(1024, _ => 0))

  /** As many of them as fit in front of the runback zone. */
  const FILL: nat := 1480

  /** What is left of the run that fills the ring and reads one section, after j writes. */
  function Filling(j: nat): seq<Event>
    requires j <= FILL
  {
    seq(FILL - j, _ => Write(KILO)) + [Dispatch]
  }

  lemma {:induction false} FillOn(s: Ring, j: nat)
    requires j <= FILL && Holds(s, seq(j, _ => KILO)) && s.rd == 0 && s.wr == 1060 * j
    ensures RoomThroughout(s, Filling(j))
    ensures Final(s, Filling(j)).rd == 1060 && Final(s, Filling(j)).wr == 1060 * FILL
    ensures Holds(Final(s, Filling(j)), seq(FILL - 1, _ => KILO))
    decreases FILL - j
  {
    hide Put, Plain, Wrapped, Encode, HeaderAt, Advance;
    var run, recs := Filling(j), seq(j, _ => KILO);
    if j == FILL {
      assert run == [Dispatch] && run[1..] == [];
      AdvanceKeeps(s, recs);
      AdvanceSkips(s, recs[0]);
      assert recs[1..] == seq(FILL - 1, _ => KILO);
    } else {
      assert run[0] == Write(KILO) && run[1..] == Filling(j + 1);
      PutKeeps(s, recs, KILO);
      PutMoves(s, KILO);
      assert recs + [KILO] == seq(j + 1, _ => KILO);
      FillOn(Put(s, KILO), j + 1);
    }
  }

  lemma {:induction false} PutMoves(s: Ring, r: Record)
    requires RingOk(s) && RecordOk(r) && s.rd == 0 && s.wr <= LIMIT
    ensures !Refused(s, |r.payload|) && Put(s, r).wr == s.wr + Len(r)
  {
  }

  /** The guard is too weak in reachable states. From the empty ring, 1480 sections of 1024 bytes and
      one dispatch lead, with room throughout, to a ring on which the next section is lost or spoils
      the unread ones: of 1024 bytes it is accepted and ends on rd, of 1040 it is accepted over the
      oldest one, of 2000 it is refused after the runback. */
  lemma {:induction false} GuardIsTooWeak(s: Ring) returns (r0: Record, r1: Record, r2: Record)
    requires RingOk(s) && s.wr == s.rd == 0
    ensures RoomThroughout(s, Filling(0))
    ensures var full, unread := Final(s, Filling(0)), seq(FILL - 1, _ => KILO);
      && Holds(full, unread)
      && RecordOk(r0) && RecordOk(r1) && RecordOk(r2)
      && |r0.payload| == 1024 && |r1.payload| == 1040 && |r2.payload| == 2000
      && !Refused(full, 1024) && !Refused(full, 1040) && Refused(full, 2000)
      && !Reads(Put(full, r0).buf, full.rd, Put(full, r0).wr, unread + [r0])
      && !Reads(Put(full, r1).buf, full.rd, Put(full, r1).wr, unread + [r1])
      && !Reads(Put(full, r2).buf, full.rd, Put(full, r2).wr, unread)
  {
    hide Put, Holds, Reads, Final, RoomThroughout;
    StartHolds(s);
    assert seq(0, _ => KILO) == [];
    FillOn(s, 0);
    var full, unread := Final(s, Filling(0)), seq(FILL - 1, _ => KILO);
    assert RingOk(full);
    r0 := PutBreaks(full, unread, 1024);
    r1 := PutBreaks(full, unread, 1040);
    r2 := PutBreaks(full, unread, 2000);
  }
}
