/** ipanel_demux.c with its globals as fields: the byte ring, its two tasks, and the channel calls. */
module IpanelDemux {
  import opened Bytes
  import opened SectionRing
  import opened ChannelState
  import ChannelBehaviour

  /** One call of `ipanel_demux_section_notify`. */
  datatype Notice = Notice(ch: nat, flt: nat, addr: nat, len: nat)

  /** Bytes of `mask_en_map` are only ever 0 or 1, so `en & hit` is the lowest bit of an enabled hit. */
  predicate Hit(c: Channel, h: Header, m: nat) {
    m < |c.maskEn| && m < |h.hits| && c.maskEn[m] && h.hits[m] % 2 == 1
  }

  predicate Listens(c: Channel, h: Header) {
    c.status.Run? && c.pid == h.pid
  }

  /** The notices for channel ch from its first m masks. */
  function MaskNotices(c: Channel, ch: nat, h: Header, m: nat): seq<Notice> {
    if m == 0 then []
    else MaskNotices(c, ch, h, m - 1) + if Hit(c, h, m - 1) then [Notice(ch, ch * 0x10000 + m - 1, h.addr, h.len)] else []
  }

  function ChannelNotices(c: Channel, ch: nat, h: Header): seq<Notice> {
    if Listens(c, h) then MaskNotices(c, ch, h, MASK_NUM) else []
  }

  /** The notices from the first `count` channels. */
  function Notices(cs: seq<Channel>, count: nat, h: Header): seq<Notice>
    requires count <= |cs|
  {
    if count == 0 then [] else Notices(cs, count - 1, h) + ChannelNotices(cs[count-1], count - 1, h)
  }

  predicate Increasing(ns: seq<Notice>) {
    forall i, j :: 0 <= i < j < |ns| ==> ns[i].flt < ns[j].flt
  }

  lemma {:induction false} MaskNoticeIff(c: Channel, ch: nat, h: Header, m: nat, n: Notice)
    ensures n in MaskNotices(c, ch, h, m) <==>
              && n == Notice(ch, n.flt, h.addr, h.len)
              && ch * 0x10000 <= n.flt < ch * 0x10000 + m && Hit(c, h, n.flt - ch * 0x10000)
    decreases m
  {
    hide Hit;
    if m == 0 {
    } else {
      MaskNoticeIff(c, ch, h, m - 1, n);
    }
  }

  lemma {:induction false} MaskNoticesIncreasing(c: Channel, ch: nat, h: Header, m: nat)
    ensures Increasing(MaskNotices(c, ch, h, m))
    decreases m
  {
    hide Hit;
    if m == 0 {
    } else {
      MaskNoticesIncreasing(c, ch, h, m - 1);
      forall n | n in MaskNotices(c, ch, h, m - 1) ensures n.flt < ch * 0x10000 + m - 1 {
        MaskNoticeIff(c, ch, h, m - 1, n);
      }
    }
  }

  /** Which client handles a section with header h is announced to: the channel is RUN and has the PID, the mask is
      enabled, and its hit byte is odd. */
  predicate Addressed(cs: seq<Channel>, h: Header, count: nat, n: Notice) {
    var m := n.flt - n.ch * 0x10000;
    && n.ch < |cs| && n.ch < count && cs[n.ch].status == Run && cs[n.ch].pid == h.pid
    && 0 <= m < 32 && m < |cs[n.ch].maskEn| && cs[n.ch].maskEn[m] && m < |h.hits| && h.hits[m] % 2 == 1
    && n.addr == h.addr && n.len == h.len
  }

  lemma {:induction false} AddressedIs(cs: seq<Channel>, h: Header, count: nat, n: Notice)
    ensures Addressed(cs, h, count, n) <==>
      && n.ch < |cs| && n.ch < count && Listens(cs[n.ch], h)
      && n.ch * 0x10000 <= n.flt < n.ch * 0x10000 + MASK_NUM && Hit(cs[n.ch], h, n.flt - n.ch * 0x10000)
      && n.addr == h.addr && n.len == h.len
  {
  }

  lemma {:induction false} NoticeIff(cs: seq<Channel>, count: nat, h: Header, n: Notice)
    requires count <= |cs|
    ensures n in Notices(cs, count, h) <==> Addressed(cs, h, count, n)
    decreases count
  {
    hide Hit, Listens, MaskNotices, Addressed;
    AddressedIs(cs, h, count, n);
    if count > 0 {
      AddressedIs(cs, h, count - 1, n);
      NoticeIff(cs, count - 1, h, n);
      MaskNoticeIff(cs[count-1], count - 1, h, MASK_NUM, n);
    }
  }

  lemma {:induction false} NoticesIncreasing(cs: seq<Channel>, count: nat, h: Header)
    requires count <= |cs|
    ensures Increasing(Notices(cs, count, h))
    decreases count
  {
    hide Hit, Listens, MaskNotices;
    if count == 0 {
    } else {
      var ch := count - 1;
      NoticesIncreasing(cs, ch, h);
      MaskNoticesIncreasing(cs[ch], ch, h, MASK_NUM);
      forall n | n in Notices(cs, ch, h) ensures n.flt < ch * 0x10000 {
        NoticeIff(cs, ch, h, n);
      }
      forall n | n in ChannelNotices(cs[ch], ch, h) ensures n.flt >= ch * 0x10000 {
        MaskNoticeIff(cs[ch], ch, h, MASK_NUM, n);
      }
    }
  }

  /** One section is announced exactly once to each enabled, hit mask of each running channel with
      its PID, in the order of channels and masks, and to nobody else. */
  lemma {:induction false} NoticesExact(cs: seq<Channel>, h: Header)
    ensures Increasing(Notices(cs, |cs|, h))
    ensures forall n :: n in Notices(cs, |cs|, h) <==> Addressed(cs, h, |cs|, n)
  {
    NoticesIncreasing(cs, |cs|, h);
    forall n ensures n in Notices(cs, |cs|, h) <==> Addressed(cs, h, |cs|, n) {
      NoticeIff(cs, |cs|, h, n);
    }
  }

  /** The client sees each section of the ring with its own bytes. */
  lemma {:induction false} NoticeCarriesSection(cs: seq<Channel>, s: Ring, r: Record, n: Notice)
    requires RingOk(s) && s.rd != s.wr && Stored(s.buf, Home(s.rd), r)
    requires n in Notices(cs, |cs|, HeaderAt(s.buf, Home(s.rd)))
    ensures n.ch < |cs| && cs[n.ch].status.Run? && cs[n.ch].pid == r.pid
    ensures n.addr + n.len <= SIZE && s.buf[n.addr..n.addr + n.len] == r.payload
  {
    DecodeEncode(s.buf, Home(s.rd), r);
    NoticeIff(cs, |cs|, HeaderAt(s.buf, Home(s.rd)), n);
  }

  /** Start and stop undo each other, and they decide whether the channel hears its PID: a READY channel
      is told nothing; once started it is told of each enabled mask that is hit. */
  lemma {:induction false} StartedHears(d: Demux, ch: nat, drv: Driver, h: Header, m: nat)
    requires ch < |d.channels| && d.channels[ch].pid == h.pid && m < MASK_NUM
    ensures var (t, ok) := Start(d, ch, drv);
      && (ok <==> drv.present && d.channels[ch].status.Ready?)
      && (!ok ==> t == d)
      && (ok ==> Stop(t, ch) == (d, true))
      && (ok ==> forall n :: n in Notices(d.channels, |d.channels|, h) ==> n.ch != ch)
      && (ok ==> (Notice(ch, ch * 0x10000 + m, h.addr, h.len) in Notices(t.channels, |t.channels|, h)
                  <==> m < |d.channels[ch].maskEn| && d.channels[ch].maskEn[m] && m < |h.hits| && h.hits[m] % 2 == 1))
  {
    var (t, ok) := Start(d, ch, drv);
    if ok {
      NoticesExact(d.channels, h);
      NoticeIff(t.channels, |t.channels|, h, Notice(ch, ch * 0x10000 + m, h.addr, h.len));
      assert t.channels[ch].(status := Ready) == d.channels[ch];
      assert t.channels[ch := d.channels[ch]] == d.channels;
    }
  }

  lemma {:induction false} HitByte(c: Channel, buf: seq<Byte>, e: nat, m: nat)
    requires e + HEADER <= |buf| && m < MASK_NUM
    ensures Hit(c, HeaderAt(buf, e), m) <==> m < |c.maskEn| && c.maskEn[m] && buf[e + 4 + m] % 2 == 1
    ensures HeaderAt(buf, e).addr == e + HEADER
  {
    assert HeaderAt(buf, e).hits[m] == buf[e + 4 + m];
  }

  class IpanelDemux {
    const buf: array<Byte>
    var wr: nat
    var rd: nat
    var channels: seq<Channel>
    var filters: seq<Filter>

    ghost predicate Valid()
      reads this
    {
      buf.Length == SIZE && wr <= SIZE && Shape(Tables())
    }

    function Tables(): Demux
      reads this
    {
      Demux(channels, filters)
    }

    ghost function State(): Ring
      reads this, buf
    {
      Ring(buf[..], wr, rd)
    }

    // ----- ring -----

    /** ali_get_section_callback */
    method OnSection(r: Record)
      requires Valid() && RecordOk(r)
      modifies this`wr, buf
      ensures Valid() && State() == Put(old(State()), r)
    {
      if wr + 0x1000 + 4 + MASK_NUM > SIZE {
        wr := 0;
      }
      var freeBlock := if wr < rd then rd - wr else SIZE - wr;
      if freeBlock < |r.payload| {
        return;
      }
      Store(r);
      wr := wr + 4 + MASK_NUM + |r.payload|;
    }

    /** Header, hit map and section bytes, from wr on. */
    method Store(r: Record)
      requires buf.Length == SIZE && RecordOk(r) && wr <= LIMIT
      modifies buf
      ensures buf[..] == Overwrite(old(buf[..]), wr, Encode(r))
    {
      ghost var bytes := Encode(r);
      buf[wr] := |r.payload| / 256;
      buf[wr + 1] := |r.payload| % 256;
      buf[wr + 2] := r.pid / 256;
      buf[wr + 3] := r.pid % 256;
      for m := 0 to MASK_NUM
        invariant forall k :: 0 <= k < 4 + m ==> buf[wr + k] == bytes[k]
        invariant forall k :: 0 <= k < SIZE && !(wr <= k < wr + 4 + m) ==> buf[k] == old(buf[k])
      {
        buf[wr + 4 + m] := r.hits[m];
      }
      forall i | 0 <= i < |r.payload| {
        buf[wr + 4 + MASK_NUM + i] := r.payload[i];
      }
      forall k | 0 <= k < SIZE ensures buf[k] == Overwrite(old(buf[..]), wr, bytes)[k] {
        if wr + HEADER <= k < wr + |bytes| {
          assert buf[wr + HEADER + (k - wr - HEADER)] == r.payload[k - wr - HEADER];
        } else if wr <= k < wr + HEADER {
          assert buf[wr + (k - wr)] == bytes[k - wr];
        }
      }
    }

    /** One turn of the inner loop of ipanel_sec_dispatch_task. */
    method DispatchOne() returns (notices: seq<Notice>)
      requires Valid() && rd != wr
      modifies this`rd
      ensures Valid() && State() == Advance(old(State()))
      ensures notices == Notices(channels, |channels|, HeaderAt(buf[..], Home(old(rd))))
    {
      if rd + 0x1000 + 4 + MASK_NUM > SIZE {
        rd := 0;
      }
      ghost var h := HeaderAt(buf[..], rd);
      var pid := BigEndian(buf[rd + 2], buf[rd + 3]);
      var len := BigEndian(buf[rd], buf[rd + 1]);
      notices := [];
      var ch := 0;
      while ch < |channels|
        invariant ch <= |channels| && rd == Home(old(rd))
        invariant notices == Notices(channels, ch, h)
      {
        if channels[ch].status.Run? && channels[ch].pid == pid {
          var more := NotifyMasks(ch, rd + 4 + MASK_NUM, len);
          notices := notices + more;
        }
        ch := ch + 1;
      }
      rd := rd + 4 + MASK_NUM + len;
    }

    /** The mask loop, for the record at rd. */
    method NotifyMasks(ch: nat, addr: nat, len: nat) returns (notices: seq<Notice>)
      requires buf.Length == SIZE && rd <= LIMIT && ch < |channels|
      requires addr == rd + HEADER && len == HeaderAt(buf[..], rd).len
      ensures notices == MaskNotices(channels[ch], ch, HeaderAt(buf[..], rd), MASK_NUM)
    {
      hide HeaderAt, Hit;
      ghost var h := HeaderAt(buf[..], rd);
      notices := [];
      var m := 0;
      while m < MASK_NUM
        invariant m <= MASK_NUM
        invariant notices == MaskNotices(channels[ch], ch, h, m)
      {
        var hit := buf[rd + 4 + m];
        HitByte(channels[ch], buf[..], rd, m);
        if m < |channels[ch].maskEn| && channels[ch].maskEn[m] && hit % 2 == 1 {
          notices := notices + [Notice(ch, ch * 0x10000 + m, addr, len)];
        }
        m := m + 1;
      }
    }

    /** The inner loop: while the unread records are `recs`, it announces each of them in turn and
        ends with the ring empty. */
    method DispatchAll(ghost recs: seq<Record>) returns (notices: seq<Notice>)
      requires Valid() && Reads(buf[..], rd, wr, recs)
      modifies this`rd
      ensures Valid() && rd == wr
      ensures notices == Announced(channels, old(State()), recs)
    {
      hide HeaderAt, Notices, Stored, Home;
      notices := [];
      ghost var left := recs;
      while rd != wr
        invariant Reads(buf[..], rd, wr, left)
        invariant notices + Announced(channels, State(), left) == Announced(channels, old(State()), recs)
        decreases |left|
      {
        AnnounceOne(channels, State(), left);
        ghost var rest := Announced(channels, Advance(State()), left[1..]);
        var more := DispatchOne();
        assert notices + (more + rest) == (notices + more) + rest;
        notices := notices + more;
        left := left[1..];
      }
    }

    // ----- channels -----

    /** ipanel_porting_create_demux_channel */
    method CreateChannel(pid: nat, drv: Driver) returns (r: nat)
      requires Valid()
      modifies this`channels, this`filters
      ensures Valid() && (Tables(), r) == Create(old(Tables()), pid, drv)
    {
      var ch := ScanIdleChannel();
      if ch >= |channels| {
        return NO_CHANNEL;
      }
      channels := channels[ch := channels[ch].(status := Ready)];
      var flt := ScanForPid(pid);
      if flt >= |filters| {
        flt := ScanIdleFilter();
        if flt < |filters| {
          if !drv.present {
            return NO_CHANNEL;
          }
          filters := filters[flt := filters[flt].(pid := pid, hw := drv.hw)];
          if !drv.ok {
            return NO_CHANNEL;
          }
          filters := filters[flt := filters[flt].(status := Run)];
          assert filters == old(filters)[flt := Filter(Run, pid, drv.hw)];
        }
      }
      if flt >= |filters| {
        return NO_CHANNEL;
      }
      channels := channels[ch := channels[ch].(filter := flt, pid := pid)];
      r := ch;
    }

    method ScanIdleChannel() returns (ch: nat)
      ensures ch == FirstIdleChannel(channels)
    {
      ch := 0;
      while ch < |channels| && !channels[ch].status.Idle?
        invariant ch <= |channels| && forall c :: 0 <= c < ch ==> !channels[c].status.Idle?
      {
        ch := ch + 1;
      }
    }

    method ScanForPid(pid: nat) returns (flt: nat)
      ensures flt == FirstForPid(filters, pid)
    {
      flt := 0;
      while flt < |filters| && (filters[flt].status.Idle? || filters[flt].pid != pid)
        invariant flt <= |filters|
        invariant FirstForPid(filters, pid) == flt + FirstForPid(filters[flt..], pid)
      {
        flt := flt + 1;
      }
    }

    method ScanIdleFilter() returns (flt: nat)
      ensures flt == FirstIdleFilter(filters)
    {
      flt := 0;
      while flt < |filters| && !filters[flt].status.Idle?
        invariant flt <= |filters| && forall f :: 0 <= f < flt ==> !filters[f].status.Idle?
      {
        flt := flt + 1;
      }
    }

    /** ipanel_porting_start_demux_channel */
    method StartChannel(ch: nat, drv: Driver) returns (ok: bool)
      requires Valid() && ch < CHANNELS
      modifies this`channels
      ensures Valid() && (Tables(), ok) == Start(old(Tables()), ch, drv)
    {
      if !drv.present {
        return false;
      }
      if !channels[ch].status.Ready? {
        return false;
      }
      channels := channels[ch := channels[ch].(status := Run)];
      ok := true;
    }

    /** ipanel_porting_stop_demux_channel */
    method StopChannel(ch: nat) returns (ok: bool)
      requires Valid() && ch < CHANNELS
      modifies this`channels
      ensures Valid() && (Tables(), ok) == Stop(old(Tables()), ch)
    {
      if !channels[ch].status.Run? {
        return false;
      }
      channels := channels[ch := channels[ch].(status := Ready)];
      ok := true;
    }

    /** ipanel_porting_destroy_demux_channel */
    method DestroyChannel(ch: nat, drv: Driver) returns (ok: bool)
      requires Valid() && ch < CHANNELS
      modifies this`channels, this`filters
      ensures Valid() && (Tables(), ok) == Destroy(old(Tables()), ch, drv)
    {
      if !channels[ch].status.Ready? {
        return false;
      }
      if !drv.present {
        return false;
      }
      var cmp := 0;
      while cmp < |channels| && (cmp == ch || channels[cmp].status.Idle? || channels[ch].filter != channels[cmp].filter)
        invariant cmp <= |channels|
        invariant forall c :: 0 <= c < cmp && c != ch && !channels[c].status.Idle? ==> channels[c].filter != channels[ch].filter
      {
        cmp := cmp + 1;
      }
      assert Shared(channels, ch) <==> cmp < |channels|;
      var flt := channels[ch].filter;
      if cmp >= |channels| && filters[flt].status.Run? {
        if !drv.ok {
          return false;
        }
        filters := filters[flt := filters[flt].(status := Idle)];
      }
      channels := channels[ch := channels[ch].(status := Idle)];
      ok := true;
    }

    /** ipanel_porting_dmx_exit; `drvs[i]` is what the driver answers for channel i. */
    method ExitDemux(drvs: seq<Driver>)
      requires Valid() && |drvs| == CHANNELS
      modifies this`channels, this`filters, this`wr, this`rd
      ensures Valid() && wr == rd == 0
      ensures Tables() == ChannelBehaviour.Exit(old(Tables()), 0, drvs)
    {
      var idx := 0;
      while idx < CHANNELS
        invariant idx <= CHANNELS && Valid()
        invariant ChannelBehaviour.Exit(Tables(), idx, drvs) == ChannelBehaviour.Exit(old(Tables()), 0, drvs)
      {
        var _ := DestroyChannel(idx, drvs[idx]);
        idx := idx + 1;
      }
      rd := 0;
      wr := 0;
    }
  }

  /** The announcements for a run of records, read one after the other from the ring. */
  function Announced(cs: seq<Channel>, s: Ring, recs: seq<Record>): seq<Notice>
    requires RingOk(s)
    decreases |recs|
  {
    if recs == [] then []
    else Notices(cs, |cs|, HeaderAt(s.buf, Home(s.rd)))
         + Announced(cs, s.(rd := Home(s.rd) + Len(recs[0])), recs[1..])
  }

  lemma {:induction false} AnnounceOne(cs: seq<Channel>, s: Ring, recs: seq<Record>)
    requires RingOk(s) && Reads(s.buf, s.rd, s.wr, recs) && s.rd != s.wr
    ensures recs != [] && Reads(s.buf, Advance(s).rd, s.wr, recs[1..])
    ensures Announced(cs, s, recs) == Notices(cs, |cs|, HeaderAt(s.buf, Home(s.rd))) + Announced(cs, Advance(s), recs[1..])
  {
    DecodeEncode(s.buf, Home(s.rd), recs[0]);
  }

  // ----- what the client learns -----

  /** A section as the client gets it: for which channel and mask, and its bytes. */
  datatype Told = Told(ch: nat, flt: nat, payload: seq<Byte>)

  /** What the notices tell, read from the buffer. */
  function Read(ns: seq<Notice>, buf: seq<Byte>): seq<Told> {
    seq(|ns|, i requires 0 <= i < |ns| =>
      Told(ns[i].ch, ns[i].flt, if ns[i].addr + ns[i].len <= |buf| then buf[ns[i].addr..ns[i].addr + ns[i].len] else []))
  }

  /** Every section to each mask of each channel that NoticesExact names, */
  function TellOne(cs: seq<Channel>, r: Record): seq<Told> {
    var ns := Notices(cs, |cs|, Header(r.pid, r.hits, 0, 0));
    seq(|ns|, i requires 0 <= i < |ns| => Told(ns[i].ch, ns[i].flt, r.payload))
  }

  /** one section after the other. */
  function TellAll(cs: seq<Channel>, recs: seq<Record>): seq<Told> {
    if recs == [] then [] else TellOne(cs, recs[0]) + TellAll(cs, recs[1..])
  }

  /** The same notices, for a section at another address. */
  predicate Moved(a: seq<Notice>, b: seq<Notice>, addr: nat, len: nat) {
    |a| == |b| && forall i :: 0 <= i < |a| ==> b[i] == Notice(a[i].ch, a[i].flt, addr, len)
  }

  lemma {:induction false} MaskMoved(c: Channel, ch: nat, h: Header, addr: nat, len: nat, m: nat)
    ensures Moved(MaskNotices(c, ch, h, m), MaskNotices(c, ch, h.(addr := addr, len := len), m), addr, len)
    decreases m
  {
    if m > 0 { MaskMoved(c, ch, h, addr, len, m - 1); }
  }

  lemma {:induction false} NoticesMoved(cs: seq<Channel>, count: nat, h: Header, addr: nat, len: nat)
    requires count <= |cs|
    ensures Moved(Notices(cs, count, h), Notices(cs, count, h.(addr := addr, len := len)), addr, len)
    decreases count
  {
    if count > 0 {
      NoticesMoved(cs, count - 1, h, addr, len);
      MaskMoved(cs[count-1], count - 1, h, addr, len, MASK_NUM);
      hide MaskNotices;
    }
  }

  /** One record of the ring. */
  lemma {:induction false} ReadsOne(cs: seq<Channel>, buf: seq<Byte>, e: nat, r: Record)
    requires Stored(buf, e, r)
    ensures Read(Notices(cs, |cs|, HeaderAt(buf, e)), buf) == TellOne(cs, r)
  {
    DecodeEncode(buf, e, r);
    NoticesMoved(cs, |cs|, Header(r.pid, r.hits, 0, 0), e + HEADER, |r.payload|);
    hide Notices, HeaderAt, Encode;
  }

  lemma {:induction false} ReadJoin(a: seq<Notice>, b: seq<Notice>, buf: seq<Byte>)
    ensures Read(a + b, buf) == Read(a, buf) + Read(b, buf)
  {
  }

  /** The announcements for the unread records tell the client exactly these sections, in order, each to the masks it
      is for and with its own bytes. */
  lemma {:induction false} ClientLearns(cs: seq<Channel>, s: Ring, recs: seq<Record>)
    requires RingOk(s) && Reads(s.buf, s.rd, s.wr, recs)
    ensures Read(Announced(cs, s, recs), s.buf) == TellAll(cs, recs)
    decreases |recs|
  {
    if recs != [] {
      hide Notices, HeaderAt, Read, TellOne, Stored;
      var next := s.(rd := Home(s.rd) + Len(recs[0]));
      ReadsOne(cs, s.buf, Home(s.rd), recs[0]);
      ClientLearns(cs, next, recs[1..]);
      ReadJoin(Notices(cs, |cs|, HeaderAt(s.buf, Home(s.rd))), Announced(cs, next, recs[1..]), s.buf);
    } else {
      assert Read([], s.buf) == [];
    }
  }
}
