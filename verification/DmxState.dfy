/** The state of dmx_adv.c as a value, and what each of its functions does to that state.

    Section nodes are named by their index in the arena. `free` is adv_dmx_buf_list, `secList` a
    channel's sec_list, `wkBuf` its private working buffer. A node's fltId and bytes live in `nodes`.
    RET_SUCCESS / !RET_SUCCESS are true / false. */
module DmxState {
  import opened Select
  import opened Bytes

  datatype Option<+T> = None | Some(value: T)

  const MAX_MASK_LEN: nat := 32
  const MAX_MASK_NUM: nat := 32
  const SEC_BUF_LEN: nat := 4096
  const TOT_DMX_NUM: nat := 3
  const INVALID_PID: nat := 0x1fff
  const NO_ID: nat := 0xffff_ffff

  datatype Section = Section(fltId: nat, data: seq<Byte>)

  /** CHANNEL. `flts` is the set of bits of sec_flt_msk, `maskEn` the indices with mask_en[i] != 0. */
  datatype Channel = Channel(
    pid: nat, crcFlag: nat, flts: set<nat>, maskEn: set<nat>,
    mask: seq<seq<Byte>>, value: seq<seq<Byte>>,
    secList: seq<nat>, wkBuf: Option<nat>, appCb: nat, devNum: nat, chNum: nat,
    isAllocated: bool, isEnabled: bool)

  /** `devs[d]` says that dev_list[d] is not NULL; `channels` has total_channel_num entries. `loose` are the
      nodes in no list and no working buffer: one in the hands of the ADM task, or lost for good. */
  datatype Dmx = Dmx(initOk: bool, devs: seq<bool>, free: seq<nat>, nodes: seq<Section>, channels: seq<Channel>,
                     loose: seq<nat>)

  function ZeroRow(): seq<Byte> { seq(MAX_MASK_LEN, _ => 0) }
  function ZeroRows(): seq<seq<Byte>> { seq(MAX_MASK_NUM, _ => ZeroRow()) }

  /** adv_dmx_init_channel: everything but app_sec_cb is reset. */
  function InitChannel(c: Channel): Channel {
    Channel(INVALID_PID, 0, {}, {}, ZeroRows(), ZeroRows(), [], None, c.appCb, 0, 0, false, false)
  }

  /** The contents of a node. Indices outside the arena do not occur in a well-formed state; they read
      as an empty section. */
  function NodeAt(nodes: seq<Section>, n: nat): Section {
    if n < |nodes| then nodes[n] else Section(0, [])
  }

  function Store(nodes: seq<Section>, n: nat, sec: Section): seq<Section> {
    if n < |nodes| then nodes[n := sec] else nodes
  }

  function Keys(q: seq<nat>, nodes: seq<Section>): (keys: seq<nat>)
    ensures |keys| == |q|
    ensures forall i :: 0 <= i < |q| ==> keys[i] == NodeAt(nodes, q[i]).fltId
  {
    seq(|q|, i requires 0 <= i < |q| => NodeAt(nodes, q[i]).fltId)
  }

  predicate Usable(s: Dmx, ch: nat) {
    s.initOk && ch < |s.channels| && s.channels[ch].isAllocated
  }

  /** The filter-specific test of get_sec and rel_sec. */
  predicate FilterLive(c: Channel, flt: nat) {
    flt < MAX_MASK_NUM && flt in c.flts && flt in c.maskEn
  }

  /** One node leaves a queue for the tail of the free list: list_del and node_return. */
  function ReturnAt(s: Dmx, ch: nat, k: nat): Dmx
    requires ch < |s.channels| && k < |s.channels[ch].secList|
  {
    var c := s.channels[ch];
    s.(free := s.free + [c.secList[k]], channels := s.channels[ch := c.(secList := Without(c.secList, k))])
  }

  /** node_get on a queue: its first node is in no list any more. */
  function PopHead(s: Dmx, ch: nat): Dmx
    requires ch < |s.channels| && s.channels[ch].secList != []
  {
    var c := s.channels[ch];
    s.(channels := s.channels[ch := c.(secList := c.secList[1..])], loose := s.loose + [c.secList[0]])
  }

  /** node_return of the node taken last. */
  function ReturnLast(s: Dmx): Dmx
    requires s.loose != []
  {
    s.(free := s.free + [s.loose[|s.loose|-1]], loose := s.loose[..|s.loose|-1])
  }

  /** The flush loop over a whole queue. */
  function Flush(s: Dmx, ch: nat): Dmx
    requires ch < |s.channels|
  {
    var c := s.channels[ch];
    s.(free := s.free + c.secList, channels := s.channels[ch := c.(secList := [])])
  }

  /** The flush loop over the nodes of one filter. */
  function FlushFilter(s: Dmx, ch: nat, flt: nat): Dmx
    requires ch < |s.channels|
  {
    var c := s.channels[ch];
    var keys := Keys(c.secList, s.nodes);
    s.(free := s.free + Picked(c.secList, keys, flt),
       channels := s.channels[ch := c.(secList := Skipped(c.secList, keys, flt))])
  }

  /** Position in the queue of the section that get_sec peeks and rel_sec removes: the head, or the
      first of one live filter. The length of the queue when there is none. */
  function Target(s: Dmx, ch: nat, flt: nat, specific: bool): (k: nat)
    requires ch < |s.channels|
    ensures k <= |s.channels[ch].secList|
  {
    var c := s.channels[ch];
    if !specific then 0
    else if FilterLive(c, flt) then FirstAt(Keys(c.secList, s.nodes), flt)
    else |c.secList|
  }

  /** adv_dmx_get_sec: the node whose buffer is handed out. */
  function GetSec(s: Dmx, ch: nat, flt: nat, specific: bool): Option<nat>
  {
    if Usable(s, ch) && Target(s, ch, flt, specific) < |s.channels[ch].secList|
    then Some(s.channels[ch].secList[Target(s, ch, flt, specific)]) else None
  }

  /** adv_dmx_rel_sec */
  function RelSec(s: Dmx, ch: nat, flt: nat, specific: bool): (Dmx, bool)
  {
    if GetSec(s, ch, flt, specific).None? then (s, false) else
      (ReturnAt(s, ch, Target(s, ch, flt, specific)), true)
  }

  /** adv_dmx_retrieve_sec: `bytes` is what was copied out when ok; `len` and `fltOut` are written
      even on failure. */
  datatype Retrieved = Retrieved(s: Dmx, ok: bool, bytes: seq<Byte>, len: nat, fltOut: nat)

  function RetrieveSec(s: Dmx, ch: nat, flt: nat, maxLen: nat, specific: bool): Retrieved
  {
    match GetSec(s, ch, flt, specific)
    case None => Retrieved(s, false, [], 0, flt)
    case Some(n) =>
      var sec := NodeAt(s.nodes, n);
      var flt' := if specific then flt else sec.fltId;
      if 0 < |sec.data| <= maxLen then
        var (s', ok) := RelSec(s, ch, flt', specific);
        Retrieved(s', ok, sec.data, |sec.data|, flt')
      else Retrieved(s, false, [], |sec.data|, flt')
  }

  /** The test adv_dmx_sec_cb makes before it takes a node. */
  predicate Accepts(s: Dmx, i: nat, flt: nat)
    requires i < |s.channels|
  {
    var c := s.channels[i];
    s.initOk && c.chNum < |s.channels| && flt < MAX_MASK_NUM && c.isAllocated && c.isEnabled
    && flt in c.flts && flt in c.maskEn
  }

  /** adv_dmx_sec_cb, called by the driver for the channel record at index i. */
  function SecCb(s: Dmx, i: nat, flt: nat, data: seq<Byte>): Dmx
    requires i < |s.channels|
  {
    if Accepts(s, i, flt) && s.free != [] then
      var n, c := s.free[0], s.channels[i];
      s.(free := s.free[1..], nodes := Store(s.nodes, n, Section(flt, data)),
         channels := s.channels[i := c.(secList := c.secList + [n])])
    else s
  }

  /** Index of the first channel that is not allocated, or total_channel_num. */
  function FirstIdle(cs: seq<Channel>): (i: nat)
    ensures i <= |cs| && forall j :: 0 <= j < i ==> cs[j].isAllocated
    ensures i < |cs| ==> !cs[i].isAllocated
  {
    if cs == [] || !cs[0].isAllocated then 0 else 1 + FirstIdle(cs[1..])
  }

  /** adv_dmx_alloc_channel; cb 0 is the NULL pointer. */
  function AllocChannel(s: Dmx, dmxId: nat, crcEn: nat, cb: nat): (Dmx, nat) {
    var i := FirstIdle(s.channels);
    if s.initOk && cb != 0 && i < |s.channels| && dmxId < |s.devs| && s.devs[dmxId] && s.free != [] then
      var c := s.channels[i].(crcFlag := crcEn, appCb := cb, isAllocated := true, devNum := dmxId, chNum := i,
                              wkBuf := Some(s.free[0]));
      (s.(free := s.free[1..], channels := s.channels[i := c]), i)
    else (s, NO_ID)
  }

  /** adv_dmx_free_channel; a missing working buffer is the ASSERT(0) branch. */
  function FreeChannel(s: Dmx, ch: nat): (Dmx, bool) {
    if Usable(s, ch) && !s.channels[ch].isEnabled then
      var s1 := Flush(s, ch);
      var c := s1.channels[ch];
      if c.wkBuf.Some? then
        (s1.(free := s1.free + [c.wkBuf.value], channels := s1.channels[ch := InitChannel(c)]), true)
      else (s1, false)
    else (s, false)
  }

  /** adv_dmx_set_pid */
  function SetPid(s: Dmx, ch: nat, pid: nat): (Dmx, bool) {
    if Usable(s, ch) && pid != INVALID_PID && !s.channels[ch].isEnabled then
      var s1 := Flush(s, ch);
      (s1.(channels := s1.channels[ch := s1.channels[ch].(pid := pid)]), true)
    else (s, false)
  }

  /** adv_dmx_get_pid: a getter that also flushes the queue. */
  function GetPid(s: Dmx, ch: nat): (Dmx, nat) {
    if Usable(s, ch) then (Flush(s, ch), s.channels[ch].pid) else (s, INVALID_PID)
  }

  /** adv_dmx_en_channel; hwOk is the answer of dmx_async_req_section. */
  function EnChannel(s: Dmx, ch: nat, hwOk: bool): (Dmx, bool) {
    if Usable(s, ch) && !s.channels[ch].isEnabled && hwOk then
      (s.(channels := s.channels[ch := s.channels[ch].(isEnabled := true)]), true)
    else (s, false)
  }

  /** adv_dmx_dis_channel; hwOk is the answer of IO_ASYNC_CLOSE. The queue is kept. */
  function DisChannel(s: Dmx, ch: nat, hwOk: bool): (Dmx, bool) {
    if Usable(s, ch) && s.channels[ch].isEnabled && hwOk then
      (s.(channels := s.channels[ch := s.channels[ch].(isEnabled := false)]), true)
    else (s, false)
  }

  /** adv_dmx_rst_channel; `enabled` survives a failed restart. */
  function RstChannel(s: Dmx, ch: nat, closeOk: bool, reqOk: bool): (Dmx, bool) {
    if !Usable(s, ch) then (s, false)
    else if !s.channels[ch].isEnabled then (Flush(s, ch), true)
    else if !closeOk then (s, false)
    else (Flush(s, ch), reqOk)
  }

  /** Least number below 32 outside the set, or 32. */
  function LeastUnset(flts: set<nat>, from: nat): (i: nat)
    requires from <= MAX_MASK_NUM
    ensures from <= i <= MAX_MASK_NUM && forall j :: from <= j < i ==> j in flts
    ensures i < MAX_MASK_NUM ==> i !in flts
    decreases MAX_MASK_NUM - from
  {
    if from == MAX_MASK_NUM || from !in flts then from else LeastUnset(flts, from + 1)
  }

  /** adv_dmx_alloc_filter */
  function AllocFilter(s: Dmx, ch: nat): (Dmx, nat) {
    if !Usable(s, ch) then (s, NO_ID) else
      var c := s.channels[ch];
      var i := LeastUnset(c.flts, 0);
      if i < MAX_MASK_NUM then (s.(channels := s.channels[ch := c.(flts := c.flts + {i})]), i) else (s, NO_ID)
  }

  /** adv_dmx_free_filter reaches ASSERT(0): the filter is not allocated but still enabled. */
  predicate FreeFilterAsserts(s: Dmx, ch: nat, flt: nat) {
    Usable(s, ch) && flt < MAX_MASK_NUM && flt !in s.channels[ch].flts && flt in s.channels[ch].maskEn
  }

  /** adv_dmx_free_filter */
  function FreeFilter(s: Dmx, ch: nat, flt: nat): (Dmx, bool)
  {
    if Usable(s, ch) && flt < MAX_MASK_NUM && flt in s.channels[ch].flts then
      var s1 := FlushFilter(s, ch, flt);
      var c := s1.channels[ch];
      (s1.(channels := s1.channels[ch := c.(flts := c.flts - {flt}, maskEn := c.maskEn - {flt})]), true)
    else (s, false)
  }

  /** len bytes of a row, zero behind them. */
  function Padded(row: seq<Byte>, len: nat): (r: seq<Byte>)
    requires len <= |row| && len <= MAX_MASK_LEN
    ensures |r| == MAX_MASK_LEN
  {
    row[..len] + ZeroRow()[len..]
  }

  /** adv_dmx_set_filter */
  function SetFilter(s: Dmx, ch: nat, flt: nat, mask: seq<Byte>, value: seq<Byte>, len: nat): (Dmx, bool)
    requires len <= |mask| && len <= |value|
  {
    if Usable(s, ch) && flt < MAX_MASK_NUM && len <= MAX_MASK_LEN && flt in s.channels[ch].flts
       && flt < |s.channels[ch].mask| && flt < |s.channels[ch].value| then
      var s1 := FlushFilter(s, ch, flt);
      var c := s1.channels[ch];
      (s1.(channels := s1.channels[ch := c.(mask := c.mask[flt := Padded(mask, len)],
                                            value := c.value[flt := Padded(value, len)],
                                            maskEn := c.maskEn + {flt})]), true)
    else (s, false)
  }

  /** adv_dmx_get_filter_num */
  function GetFilterNum(s: Dmx, ch: nat): int {
    if !s.initOk || ch >= |s.channels| then -1
    else if s.channels[ch].isAllocated then |s.channels[ch].flts|
    else 0
  }

  /** adv_dmx_get_free_ch_num */
  function GetFreeChNum(s: Dmx): int {
    if s.initOk then IdleCount(s.channels) else -1
  }

  function IdleCount(cs: seq<Channel>): nat {
    if cs == [] then 0 else IdleCount(cs[..|cs|-1]) + if cs[|cs|-1].isAllocated then 0 else 1
  }

  // ----- the ADM task -----

  /** The answer of app_sec_cb: it may depend on how often callbacks were called before, on the
      channel and on the section. */
  type Answer = (nat, nat, Section) -> bool

  datatype Call = Call(ch: nat, sec: Section, accepted: bool)

  /** How many sections at the front of a queue the callback accepts in a row. */
  function AcceptedPrefix(q: seq<nat>, nodes: seq<Section>, ch: nat, calls: nat, accept: Answer): (k: nat)
    ensures k <= |q|
    ensures forall j :: 0 <= j < k ==> accept(calls + j, ch, NodeAt(nodes, q[j]))
    ensures k < |q| ==> !accept(calls + k, ch, NodeAt(nodes, q[k]))
  {
    if q == [] || !accept(calls, ch, NodeAt(nodes, q[0])) then 0
    else
      var k := AcceptedPrefix(q[1..], nodes, ch, calls + 1, accept);
      assert forall j :: 1 <= j < 1 + k ==> q[j] == q[1..][j-1] && calls + j == calls + 1 + (j - 1);
      assert k + 1 < |q| ==> q[k+1] == q[1..][k] && calls + (k + 1) == calls + 1 + k;
      k + 1
  }

  /** The calls made for one channel: the accepted prefix, then the refused section if any is left. */
  function CallsFor(q: seq<nat>, nodes: seq<Section>, ch: nat, k: nat): seq<Call>
    requires k <= |q|
  {
    seq(k, i requires 0 <= i < k => Call(ch, NodeAt(nodes, q[i]), true))
    + if k < |q| then [Call(ch, NodeAt(nodes, q[k]), false)] else []
  }

  /** The first k nodes of a queue, moved to the tail of the free list. */
  function PopFront(s: Dmx, i: nat, k: nat): Dmx
    requires i < |s.channels| && k <= |s.channels[i].secList|
  {
    var c := s.channels[i];
    s.(free := s.free + c.secList[..k], channels := s.channels[i := c.(secList := c.secList[k..])])
  }

  /** The inner while(1) of adv_dmx_task for channel i. */
  function AdmChannel(s: Dmx, i: nat, log: seq<Call>, accept: Answer): (r: (Dmx, seq<Call>))
    requires i < |s.channels|
    ensures |r.0.channels| == |s.channels|
  {
    var c := s.channels[i];
    if !(c.isAllocated && c.isEnabled) then (s, log) else
      var k := AcceptedPrefix(c.secList, s.nodes, i, |log|, accept);
      (PopFront(s, i, k), log + CallsFor(c.secList, s.nodes, i, k))
  }

  /** One for loop of adv_dmx_task over the channels from i on. */
  function AdmPass(s: Dmx, i: nat, log: seq<Call>, accept: Answer): (Dmx, seq<Call>)
    requires i <= |s.channels|
    decreases |s.channels| - i
  {
    if i == |s.channels| then (s, log) else
      var (s', log') := AdmChannel(s, i, log, accept);
      AdmPass(s', i + 1, log', accept)
  }

  // ----- adv_dmx_quit -----

  /** The inner for loop of adv_dmx_quit: free every filter from j on. */
  function FreeFilters(s: Dmx, ch: nat, j: nat): (r: Dmx)
    requires ch < |s.channels| && j <= MAX_MASK_NUM
    ensures |r.channels| == |s.channels|
    decreases MAX_MASK_NUM - j
  {
    if j == MAX_MASK_NUM then s
    else if j in s.channels[ch].flts then
      FreeFilters(FreeFilter(s, ch, j).0, ch, j + 1)
    else FreeFilters(s, ch, j + 1)
  }

  /** The body of the outer loop of adv_dmx_quit; closeOk is the answer of IO_ASYNC_CLOSE. */
  function QuitChannel(s: Dmx, i: nat, closeOk: bool): Dmx
    requires i < |s.channels|
  {
    if !s.channels[i].isAllocated then s else
      var s1 := if s.channels[i].isEnabled then DisChannel(s, i, closeOk).0 else s;
      FreeChannel(FreeFilters(s1, i, 0), i).0
  }

  /** The outer loop of adv_dmx_quit from channel i on. */
  function QuitLoop(s: Dmx, i: nat, closeOk: nat -> bool): Dmx
    requires i <= |s.channels|
    decreases |s.channels| - i
  {
    if i == |s.channels| then s else QuitLoop(QuitChannel(s, i, closeOk(i)), i + 1, closeOk)
  }
}
