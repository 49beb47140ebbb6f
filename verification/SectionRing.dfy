/** The byte ring of ipanel_demux.c as a value: where writer and reader put and find the records.

    Each side decides alone, from its own index, whether to run back to offset 0. */
module SectionRing {
  import opened Bytes

  const SIZE: nat := 0x180000
  const MASK_NUM: nat := 32
  const HEADER: nat := 4 + MASK_NUM
  const MAX_SEC: nat := 0x1000

  /** From beyond this offset both sides run back to 0. */
  const LIMIT: nat := SIZE - MAX_SEC - HEADER

  /** One section as the driver hands it over; `sec_tbl_len` is the length of the payload. */
  datatype Record = Record(pid: nat, hits: seq<Byte>, payload: seq<Byte>)

  predicate RecordOk(r: Record) {
    r.pid < 0x10000 && |r.hits| == MASK_NUM && |r.payload| <= MAX_SEC
  }

  function Len(r: Record): nat {
    HEADER + |r.payload|
  }

  function Encode(r: Record): (bytes: seq<Byte>)
    requires RecordOk(r)
    ensures |bytes| == Len(r)
  {
    [|r.payload| / 256, |r.payload| % 256, r.pid / 256, r.pid % 256] + r.hits + r.payload
  }

  datatype Ring = Ring(buf: seq<Byte>, wr: nat, rd: nat)

  predicate RingOk(s: Ring) {
    |s.buf| == SIZE && s.wr <= SIZE
  }

  /** The runback test. */
  function Home(pos: nat): (p: nat)
    ensures p <= LIMIT
  {
    if pos + 0x1000 + 4 + MASK_NUM > SIZE then 0 else pos
  }

  function Overwrite(buf: seq<Byte>, pos: nat, bytes: seq<Byte>): (out: seq<Byte>)
    requires pos + |bytes| <= |buf|
    ensures |out| == |buf|
  {
    buf[..pos] + bytes + buf[pos + |bytes|..]
  }

  // ----- the writer -----

  function FreeBlock(rd: nat, p: nat): int {
    if p < rd then rd - p else SIZE - p
  }

  predicate Refused(s: Ring, len: nat) {
    FreeBlock(s.rd, Home(s.wr)) < len
  }

  function Put(s: Ring, r: Record): (t: Ring)
    requires RingOk(s) && RecordOk(r)
    ensures RingOk(t) && t.rd == s.rd
  {
    var p := Home(s.wr);
    if Refused(s, |r.payload|) then s.(wr := p)
    else Ring(Overwrite(s.buf, p, Encode(r)), p + Len(r), s.rd)
  }

  // ----- the reader -----

  /** What the dispatch task reads from the header at `e`; the payload is passed on by address. */
  datatype Header = Header(pid: nat, hits: seq<Byte>, addr: nat, len: nat)

  function BigEndian(high: int, low: int): nat
    requires 0 <= high && 0 <= low
  {
    high * 256 + low
  }

  function HeaderAt(buf: seq<Byte>, e: nat): Header
    requires e + HEADER <= |buf|
  {
    Header(BigEndian(buf[e+2], buf[e+3]), buf[e+4..e+HEADER], e + HEADER, BigEndian(buf[e], buf[e+1]))
  }

  /** The reader's own wrap, a separate step from advancing over the record. */
  function Settle(s: Ring): Ring {
    if s.rd == s.wr then s else s.(rd := Home(s.rd))
  }

  function Advance(s: Ring): Ring
    requires RingOk(s)
  {
    if s.rd == s.wr then s
    else var h := HeaderAt(s.buf, Home(s.rd)); s.(rd := h.addr + h.len)
  }

  /** Record r lies wholly inside the buffer, at `pos`. */
  predicate Stored(buf: seq<Byte>, pos: nat, r: Record) {
    RecordOk(r) && pos + Len(r) <= |buf| && buf[pos..pos + Len(r)] == Encode(r)
  }

  /** The reader, starting at rd, dispatches exactly `recs` before it sees the ring empty. */
  predicate Reads(buf: seq<Byte>, rd: nat, wr: nat, recs: seq<Record>)
    decreases |recs|
  {
    if recs == [] then rd == wr
    else rd != wr && Stored(buf, Home(rd), recs[0]) && Reads(buf, Home(rd) + Len(recs[0]), wr, recs[1..])
  }

  /** Where each byte of a record stands: length and PID high byte first, hit byte m at 4 + m, section byte i at
      36 + i. */
  lemma {:induction false} EncodeBytes(r: Record, m: nat, i: nat)
    requires RecordOk(r) && m < 32 && i < |r.payload|
    ensures var bytes: seq<int> := Encode(r);
      && |bytes| == 36 + |r.payload|
      && bytes[0] * 256 + bytes[1] == |r.payload| && bytes[2] * 256 + bytes[3] == r.pid
      && bytes[4 + m] == r.hits[m] && bytes[36 + i] == r.payload[i]
  {
    var head := [|r.payload| / 256, |r.payload| % 256, r.pid / 256, r.pid % 256];
    assert Encode(r) == head + r.hits + r.payload;
  }

  /** Encoding and the reader's decoding are inverse: header fields and the addressed bytes. */
  lemma {:induction false} DecodeEncode(buf: seq<Byte>, e: nat, r: Record)
    requires Stored(buf, e, r)
    ensures HeaderAt(buf, e) == Header(r.pid, r.hits, e + HEADER, |r.payload|)
    ensures buf[e + HEADER..e + HEADER + |r.payload|] == r.payload
  {
    var bytes := Encode(r);
    assert forall k :: 0 <= k < |bytes| ==> buf[e+k] == bytes[k] by {
      forall k | 0 <= k < |bytes| ensures buf[e+k] == bytes[k] {
        assert buf[e..e + Len(r)][k] == bytes[k];
      }
    }
    assert bytes[0] == |r.payload| / 256 && bytes[1] == |r.payload| % 256;
    assert bytes[2] == r.pid / 256 && bytes[3] == r.pid % 256;
    assert buf[e+0] == bytes[0];
    assert buf[e+1] == bytes[1] && buf[e+2] == bytes[2] && buf[e+3] == bytes[3];
    assert buf[e+4..e+HEADER] == r.hits by {
      forall k | 0 <= k < MASK_NUM ensures buf[e+4..e+HEADER][k] == r.hits[k] {
        assert buf[e+(4+k)] == bytes[4+k];
      }
    }
    forall k | 0 <= k < |r.payload| ensures buf[e + HEADER..e + HEADER + |r.payload|][k] == r.payload[k] {
      assert buf[e+(HEADER+k)] == bytes[HEADER+k];
    }
  }

  // ----- records one after the other, without a wrap -----

  function End(pos: nat, recs: seq<Record>): (e: nat)
    ensures e >= pos
    ensures recs != [] ==> e >= pos + HEADER
    decreases |recs|
  {
    if recs == [] then pos else End(pos + Len(recs[0]), recs[1..])
  }

  predicate Straight(buf: seq<Byte>, pos: nat, recs: seq<Record>)
    decreases |recs|
  {
    recs == []
    || (pos <= LIMIT && Stored(buf, pos, recs[0]) && Straight(buf, pos + Len(recs[0]), recs[1..]))
  }

  lemma {:induction false} StraightInside(buf: seq<Byte>, pos: nat, recs: seq<Record>)
    requires Straight(buf, pos, recs) && |buf| == SIZE
    ensures recs != [] ==> pos <= LIMIT && End(pos, recs) <= SIZE && pos < End(pos, recs)
    decreases |recs|
  {
    if recs == [] {
    } else {
      StraightInside(buf, pos + Len(recs[0]), recs[1..]);
    }
  }

  lemma {:induction false} SliceAgrees(a: seq<Byte>, b: seq<Byte>, lo: nat, hi: nat, from: nat, until: nat)
    requires lo <= from <= until <= hi <= |a| && hi <= |b|
    requires a[lo..hi] == b[lo..hi]
    ensures a[from..until] == b[from..until]
  {
    forall k | from <= k < until ensures a[k] == b[k] {
      assert a[lo..hi][k-lo] == b[lo..hi][k-lo];
    }
  }

  lemma {:induction false} StraightFrame(buf: seq<Byte>, out: seq<Byte>, pos: nat, recs: seq<Record>, lo: nat, hi: nat)
    requires Straight(buf, pos, recs) && |buf| == SIZE == |out|
    requires lo <= pos && End(pos, recs) <= hi <= SIZE
    requires buf[lo..hi] == out[lo..hi]
    ensures Straight(out, pos, recs)
    decreases |recs|
  {
    if recs == [] {
    } else {
      var n := pos + Len(recs[0]);
      assert n <= End(n, recs[1..]) <= hi;
      SliceAgrees(buf, out, lo, hi, pos, n);
      StraightFrame(buf, out, n, recs[1..], lo, hi);
    }
  }

  lemma {:induction false} StraightAppend(buf: seq<Byte>, pos: nat, recs: seq<Record>, r: Record)
    requires Straight(buf, pos, recs) && End(pos, recs) <= LIMIT && Stored(buf, End(pos, recs), r)
    ensures Straight(buf, pos, recs + [r]) && End(pos, recs + [r]) == End(pos, recs) + Len(r)
    decreases |recs|
  {
    if recs == [] {
      assert ([r])[1..] == [];
      assert recs + [r] == [r];
    } else {
      assert (recs + [r])[1..] == recs[1..] + [r];
      StraightAppend(buf, pos + Len(recs[0]), recs[1..], r);
    }
  }

  // ----- where the unread records are -----

  /** No wrap between rd and wr. */
  predicate Plain(s: Ring, recs: seq<Record>) {
    Straight(s.buf, s.rd, recs) && End(s.rd, recs) == s.wr
  }

  /** `upper` runs from rd into the runback zone, `lower` from 0 to wr; the writer is still behind
      the reader, or the reader has parked in the zone and only must not meet the writer's index. */
  predicate Wrapped(s: Ring, upper: seq<Record>, lower: seq<Record>) {
    && lower != []
    && Straight(s.buf, s.rd, upper) && LIMIT < End(s.rd, upper)
    && Straight(s.buf, 0, lower) && End(0, lower) == s.wr
    && (if upper == [] then s.wr != s.rd else s.wr < s.rd)
  }

  ghost predicate Holds(s: Ring, recs: seq<Record>) {
    && RingOk(s)
    && (Plain(s, recs) || exists k | 0 <= k <= |recs| :: Wrapped(s, recs[..k], recs[k..]))
  }

  lemma {:induction false} StraightReads(buf: seq<Byte>, rd: nat, recs: seq<Record>, wr: nat)
    requires Straight(buf, rd, recs) && End(rd, recs) == wr
    ensures Reads(buf, rd, wr, recs)
    decreases |recs|
  {
    if recs == [] {
    } else {
      StraightReads(buf, rd + Len(recs[0]), recs[1..], wr);
    }
  }

  lemma {:induction false} WrappedReads(s: Ring, upper: seq<Record>, lower: seq<Record>)
    requires RingOk(s) && Wrapped(s, upper, lower)
    ensures Reads(s.buf, s.rd, s.wr, upper + lower)
    decreases |upper|
  {
    if upper == [] {
      assert upper + lower == lower;
      StraightReads(s.buf, 0, lower, s.wr);
    } else {
      var t := s.(rd := s.rd + Len(upper[0]));
      assert (upper + lower)[1..] == upper[1..] + lower;
      WrappedReads(t, upper[1..], lower);
    }
  }

  /** Whenever the geometry holds, the reader finds exactly the unread records, in order. */
  lemma {:induction false} HoldsReads(s: Ring, recs: seq<Record>)
    requires Holds(s, recs)
    ensures Reads(s.buf, s.rd, s.wr, recs)
  {
    if Plain(s, recs) {
      StraightReads(s.buf, s.rd, recs, s.wr);
    } else {
      var k :| 0 <= k <= |recs| && Wrapped(s, recs[..k], recs[k..]);
      WrappedReads(s, recs[..k], recs[k..]);
      assert recs[..k] + recs[k..] == recs;
    }
  }
}
