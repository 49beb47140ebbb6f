/** adv_dmx_init: one caller-supplied buffer is carved into channel records and section nodes. */
module Arena {
  const SEC_BUF_LEN: nat := 4096

  /** sizeof(BUF_NODE) on the 32-bit target: two pointers, two 16-bit fields, one pointer. */
  const NODE_HEAD: nat := 16
  const NODE: nat := SEC_BUF_LEN + NODE_HEAD

  /** `len` bytes from address `addr` on. */
  datatype Piece = Piece(addr: int, len: nat)

  predicate Inside(p: Piece, lo: int, hi: int) {
    lo <= p.addr && p.addr + p.len <= hi
  }

  predicate Disjoint(p: Piece, q: Piece) {
    p.addr + p.len <= q.addr || q.addr + q.len <= p.addr
  }

  /** Records of `size` bytes, back to back from `addr`. */
  function Row(addr: int, size: nat, count: nat): (ps: seq<Piece>)
    ensures |ps| == count
    ensures forall k :: 0 <= k < count ==> ps[k] == Piece(addr + k * size, size)
  {
    seq(count, k requires 0 <= k < count => Piece(addr + k * size, size))
  }

  /** The buffer's start after `tmp1 &= ~3`: rounded down, while its length shrinks. */
  function Base(buf: nat): int {
    buf - buf % 4
  }

  function Rest(buf: nat, len: nat, channels: nat, chSize: nat): int {
    len - buf % 4 - channels * chSize
  }

  /** There is room for the channel records and for two section nodes. */
  predicate Enough(buf: nat, len: nat, channels: nat, chSize: nat) {
    channels > 0 && Rest(buf, len, channels, chSize) >= 2 * NODE
  }

  function ChannelRow(buf: nat, channels: nat, chSize: nat): seq<Piece> {
    Row(Base(buf), chSize, channels)
  }

  function NodeRow(buf: nat, len: nat, channels: nat, chSize: nat): seq<Piece>
    requires Enough(buf, len, channels, chSize)
  {
    Row(Base(buf) + channels * chSize, NODE, Rest(buf, len, channels, chSize) / NODE)
  }

  /** `free` is the free list: node_return appends at its tail. `dev0` says whether a demux device exists. */
  method Init(channels: nat, buf: nat, len: nat, chSize: nat, dev0: bool)
    returns (ok: bool, records: seq<Piece>, free: seq<Piece>)
    requires buf + len <= 0x1_0000_0000 && channels * chSize < 0x1_0000_0000 && chSize > 0
    ensures ok <==> Enough(buf, len, channels, chSize) && dev0
    ensures Enough(buf, len, channels, chSize) ==>
              records == ChannelRow(buf, channels, chSize) && free == NodeRow(buf, len, channels, chSize)
  {
    ok, records, free := false, [], [];
    if channels == 0 {
      return;
    }
    var skip := buf % 4;
    var left := len;
    if left > skip {
      left := left - skip;
    } else {
      return;
    }
    var at: int := buf - skip;
    if left <= channels * chSize {
      return;
    }
    for i := 0 to channels
      invariant records == Row(at, chSize, i)
    {
      records := records + [Piece(at + i * chSize, chSize)];
    }
    at := at + channels * chSize;
    left := left - channels * chSize;
    assert left == Rest(buf, len, channels, chSize);
    var count := left / NODE;
    if count < 2 {
      return;
    }
    var first := at;
    ghost var done := 0;
    while count > 0
      invariant done + count == left / NODE && at == first + done * NODE
      invariant free == Row(first, NODE, done)
    {
      free := free + [Piece(at, NODE)];
      at := at + NODE;
      count := count - 1;
      done := done + 1;
    }
    ok := dev0;
  }

  /** In plain numbers: 8224 bytes, two nodes of 16 + 4096, have to be left behind the channel records. */
  lemma {:induction false} EnoughIs(buf: nat, len: nat, channels: nat, chSize: nat)
    ensures Enough(buf, len, channels, chSize) <==> channels > 0 && buf % 4 + channels * chSize + 8224 <= len
    ensures Enough(buf, len, channels, chSize) ==> |ChannelRow(buf, channels, chSize)| == channels
    ensures Enough(buf, len, channels, chSize) ==>
      var n := |NodeRow(buf, len, channels, chSize)|;
      buf % 4 + channels * chSize + n * 4112 <= len < buf % 4 + channels * chSize + (n + 1) * 4112
  {
  }

  // ----- where the pieces lie -----

  lemma {:induction false} MulStep(i: nat, j: nat, size: nat)
    requires i < j
    ensures i * size + size <= j * size
  {
    assert j * size == (i + 1) * size + (j - i - 1) * size;
  }

  lemma {:induction false} RowExtent(addr: int, size: nat, count: nat, i: nat, j: nat)
    requires i < j < count
    ensures Row(addr, size, count)[i].addr + size <= Row(addr, size, count)[j].addr
    ensures Inside(Row(addr, size, count)[i], addr, addr + count * size)
    ensures Inside(Row(addr, size, count)[j], addr, addr + count * size)
  {
    MulStep(i, j, size);
    MulStep(j, count, size);
  }

  lemma {:induction false} RowInside(addr: int, size: nat, count: nat, i: nat)
    requires i < count
    ensures Inside(Row(addr, size, count)[i], addr, addr + count * size)
  {
    MulStep(i, count, size);
  }

  /** Channel records first, then nodes: every two of them are disjoint, in address order, whatever
      the alignment of the buffer. */
  lemma {:induction false} PiecesOrdered(buf: nat, len: nat, channels: nat, chSize: nat, i: nat, j: nat)
    requires Enough(buf, len, channels, chSize)
    requires i < j < channels + |NodeRow(buf, len, channels, chSize)|
    ensures var all := ChannelRow(buf, channels, chSize) + NodeRow(buf, len, channels, chSize);
            Disjoint(all[i], all[j]) && all[i].addr + all[i].len <= all[j].addr
  {
    var mid := Base(buf) + channels * chSize;
    var count := Rest(buf, len, channels, chSize) / NODE;
    if j < channels {
      RowExtent(Base(buf), chSize, channels, i, j);
    } else if i >= channels {
      RowExtent(mid, NODE, count, i - channels, j - channels);
    } else {
      RowInside(Base(buf), chSize, channels, i);
      RowInside(mid, NODE, count, j - channels);
    }
  }

  /** What the nodes leave over at the end is less than one node, and they end inside the buffer. */
  lemma {:induction false} LeftoverBelowNode(buf: nat, len: nat, channels: nat, chSize: nat)
    requires Enough(buf, len, channels, chSize)
    ensures var nodes := NodeRow(buf, len, channels, chSize);
            var end := nodes[|nodes| - 1].addr + NODE;
            |nodes| >= 2 && 0 <= buf + len - 2 * (buf % 4) - end < NODE
  {
  }

  ghost predicate AllInside(buf: nat, len: nat, channels: nat, chSize: nat)
    requires Enough(buf, len, channels, chSize)
  {
    forall p :: p in ChannelRow(buf, channels, chSize) + NodeRow(buf, len, channels, chSize) ==> Inside(p, buf, buf + len)
  }

  lemma {:induction false} AlignedInside(buf: nat, len: nat, channels: nat, chSize: nat, k: nat)
    requires Enough(buf, len, channels, chSize) && buf % 4 == 0
    requires k < channels + |NodeRow(buf, len, channels, chSize)|
    ensures Inside((ChannelRow(buf, channels, chSize) + NodeRow(buf, len, channels, chSize))[k], buf, buf + len)
  {
    var nodes := |NodeRow(buf, len, channels, chSize)|;
    LeftoverBelowNode(buf, len, channels, chSize);
    RowInside(Base(buf) + channels * chSize, NODE, nodes, nodes - 1);
    if k < channels {
      RowInside(Base(buf), chSize, channels, k);
    } else {
      RowInside(Base(buf) + channels * chSize, NODE, nodes, k - channels);
    }
  }

  /** Rounding down moves the first channel record in front of an unaligned buffer, so everything
      lies inside the caller's buffer exactly when that buffer is 4-byte aligned. */
  lemma {:induction false} InsideIffAligned(buf: nat, len: nat, channels: nat, chSize: nat)
    requires Enough(buf, len, channels, chSize)
    ensures AllInside(buf, len, channels, chSize) <==> buf % 4 == 0
  {
    hide Row, Inside, Rest;
    var all := ChannelRow(buf, channels, chSize) + NodeRow(buf, len, channels, chSize);
    if buf % 4 == 0 {
      forall p | p in all ensures Inside(p, buf, buf + len) {
        var k :| 0 <= k < |all| && all[k] == p;
        AlignedInside(buf, len, channels, chSize, k);
      }
    } else {
      FirstRecord(buf, channels, chSize);
      assert all[0] == Piece(Base(buf), chSize);
      assert all[0] in all;
      BeforeBuffer(buf, len, chSize);
    }
  }

  lemma {:induction false} FirstRecord(buf: nat, channels: nat, chSize: nat)
    requires channels > 0
    ensures ChannelRow(buf, channels, chSize)[0] == Piece(Base(buf), chSize)
  {
  }

  lemma {:induction false} BeforeBuffer(buf: nat, len: nat, chSize: nat)
    requires buf % 4 != 0
    ensures !Inside(Piece(Base(buf), chSize), buf, buf + len)
  {
  }

  /** The bytes a section may use, at the address stored in the node's `buf` field. */
  function DataOf(node: Piece): Piece {
    Piece(node.addr + NODE_HEAD, SEC_BUF_LEN)
  }

  /** No section's bytes touch another piece or any node's header. */
  lemma {:induction false} DataApart(buf: nat, len: nat, channels: nat, chSize: nat, i: nat, j: nat)
    requires Enough(buf, len, channels, chSize)
    requires i < |NodeRow(buf, len, channels, chSize)| && j < channels + |NodeRow(buf, len, channels, chSize)|
    ensures var all := ChannelRow(buf, channels, chSize) + NodeRow(buf, len, channels, chSize);
            var data := DataOf(all[channels + i]);
            && Inside(data, all[channels + i].addr + NODE_HEAD, all[channels + i].addr + NODE)
            && (j != channels + i ==> Disjoint(data, all[j]))
  {
    if j < channels + i {
      PiecesOrdered(buf, len, channels, chSize, j, channels + i);
    } else if j > channels + i {
      PiecesOrdered(buf, len, channels, chSize, channels + i, j);
    }
  }
}
