/** Channels of ipanel_demux.c and the hardware filters they share by PID. */
module ChannelState {
  const CHANNELS: nat := 32
  const FILTERS: nat := 27
  const NO_CHANNEL: nat := 0xffffffff
  const NO_PID: nat := 0x1fff

  datatype Status = Idle | Ready | Run

  datatype Channel = Channel(status: Status, pid: nat, filter: nat, maskEn: seq<bool>)

  /** `hw` is the driver's handle for the filter. */
  datatype Filter = Filter(status: Status, pid: nat, hw: nat)

  datatype Demux = Demux(channels: seq<Channel>, filters: seq<Filter>)

  /** What the device layer answers: is there a device, does the request (or close) succeed, its handle. */
  datatype Driver = Driver(present: bool, ok: bool, hw: nat)

  function FirstIdle(st: seq<Status>): (i: nat)
    ensures i <= |st|
    ensures i < |st| ==> st[i].Idle?
    ensures forall j :: 0 <= j < i ==> !st[j].Idle?
  {
    if st == [] || st[0].Idle? then 0 else 1 + FirstIdle(st[1..])
  }

  function FirstIdleChannel(cs: seq<Channel>): (i: nat)
    ensures i <= |cs| && forall j :: 0 <= j < i ==> !cs[j].status.Idle?
    ensures i < |cs| ==> cs[i].status.Idle?
  {
    var st := seq(|cs|, i requires 0 <= i < |cs| => cs[i].status);
    assert forall j :: 0 <= j < |cs| ==> st[j] == cs[j].status;
    FirstIdle(st)
  }

  function FirstIdleFilter(fs: seq<Filter>): (i: nat)
    ensures i <= |fs| && forall j :: 0 <= j < i ==> !fs[j].status.Idle?
    ensures i < |fs| ==> fs[i].status.Idle?
  {
    var st := seq(|fs|, i requires 0 <= i < |fs| => fs[i].status);
    assert forall j :: 0 <= j < |fs| ==> st[j] == fs[j].status;
    FirstIdle(st)
  }

  function FirstForPid(fs: seq<Filter>, pid: nat): (i: nat)
    ensures i <= |fs|
    ensures i < |fs| ==> !fs[i].status.Idle? && fs[i].pid == pid
    ensures forall j :: 0 <= j < i ==> fs[j].status.Idle? || fs[j].pid != pid
  {
    if fs == [] || (!fs[0].status.Idle? && fs[0].pid == pid) then 0 else 1 + FirstForPid(fs[1..], pid)
  }

  predicate Shared(cs: seq<Channel>, ch: nat)
    requires ch < |cs|
  {
    exists c :: 0 <= c < |cs| && c != ch && !cs[c].status.Idle? && cs[c].filter == cs[ch].filter
  }

  function SetStatus(d: Demux, ch: nat, status: Status): Demux
    requires ch < |d.channels|
  {
    d.(channels := d.channels[ch := d.channels[ch].(status := status)])
  }

  /** ipanel_porting_create_demux_channel: the channel is marked READY before the filter is found. */
  function Create(d: Demux, pid: nat, drv: Driver): (Demux, nat) {
    var ch := FirstIdleChannel(d.channels);
    if ch == |d.channels| then (d, NO_CHANNEL)
    else
      var marked := SetStatus(d, ch, Ready);
      var shared := FirstForPid(d.filters, pid);
      var idle := FirstIdleFilter(d.filters);
      if shared < |d.filters| then (Attach(marked, ch, shared, pid), ch)
      else if idle == |d.filters| || !drv.present then (marked, NO_CHANNEL)
      else
        var flt := Filter(if drv.ok then Run else Idle, pid, drv.hw);
        var requested := marked.(filters := d.filters[idle := flt]);
        if drv.ok then (Attach(requested, ch, idle, pid), ch) else (requested, NO_CHANNEL)
  }

  function Attach(d: Demux, ch: nat, flt: nat, pid: nat): Demux
    requires ch < |d.channels|
  {
    d.(channels := d.channels[ch := d.channels[ch].(filter := flt, pid := pid)])
  }

  function Start(d: Demux, ch: nat, drv: Driver): (Demux, bool)
    requires ch < |d.channels|
  {
    if !drv.present || !d.channels[ch].status.Ready? then (d, false) else (SetStatus(d, ch, Run), true)
  }

  function Stop(d: Demux, ch: nat): (Demux, bool)
    requires ch < |d.channels|
  {
    if !d.channels[ch].status.Run? then (d, false) else (SetStatus(d, ch, Ready), true)
  }

  predicate Closes(d: Demux, ch: nat)
    requires ch < |d.channels| && d.channels[ch].filter < |d.filters|
  {
    !Shared(d.channels, ch) && d.filters[d.channels[ch].filter].status.Run?
  }

  function Destroy(d: Demux, ch: nat, drv: Driver): (Demux, bool)
    requires ch < |d.channels| && d.channels[ch].filter < |d.filters|
  {
    var f := d.channels[ch].filter;
    if !d.channels[ch].status.Ready? || !drv.present then (d, false)
    else if Closes(d, ch) then
      if !drv.ok then (d, false)
      else (SetStatus(d.(filters := d.filters[f := d.filters[f].(status := Idle)]), ch, Idle), true)
    else (SetStatus(d, ch, Idle), true)
  }

  /** The channel and filter loops of ipanel_porting_dmx_init. */
  function Reset(d: Demux): Demux {
    Demux(seq(|d.channels|, i requires 0 <= i < |d.channels| => d.channels[i].(status := Idle)),
          seq(|d.filters|, i requires 0 <= i < |d.filters| => d.filters[i].(status := Idle, pid := NO_PID)))
  }

  // ----- the invariant -----

  predicate Shape(d: Demux) {
    && |d.channels| == CHANNELS && |d.filters| == FILTERS
    && (forall c :: 0 <= c < |d.channels| ==> d.channels[c].filter < FILTERS)
    && (forall f :: 0 <= f < |d.filters| ==> !d.filters[f].status.Ready?)
  }

  predicate OneFilterPerPid(fs: seq<Filter>) {
    forall f, g :: 0 <= f < g < |fs| && !fs[f].status.Idle? && !fs[g].status.Idle? ==> fs[f].pid != fs[g].pid
  }

  /** Some non-idle channel points at filter f. */
  predicate Used(cs: seq<Channel>, f: nat) {
    exists c :: 0 <= c < |cs| && !cs[c].status.Idle? && cs[c].filter == f
  }

  /** Channel ch points at a running filter with its own PID. */
  predicate Served(d: Demux, ch: nat) {
    && ch < |d.channels| && !d.channels[ch].status.Idle?
    && d.channels[ch].filter < |d.filters|
    && d.filters[d.channels[ch].filter].status.Run?
    && d.filters[d.channels[ch].filter].pid == d.channels[ch].pid
  }

  /** `live` are the channels whose creation succeeded and which were not destroyed since. */
  ghost predicate Sound(d: Demux, live: set<nat>) {
    && Shape(d)
    && OneFilterPerPid(d.filters)
    && (forall f: nat :: f < |d.filters| && d.filters[f].status.Run? ==> Used(d.channels, f))
    && (forall ch :: ch in live ==> Served(d, ch))
  }

  datatype Call =
    | Creating(pid: nat, drv: Driver)
    | Starting(ch: nat, drv: Driver)
    | Stopping(ch: nat)
    | Destroying(ch: nat, drv: Driver)
    | Resetting

  function Apply(d: Demux, call: Call): Demux
    requires Shape(d)
  {
    match call
    case Creating(pid, drv) => Create(d, pid, drv).0
    case Starting(ch, drv) => if ch < CHANNELS then Start(d, ch, drv).0 else d
    case Stopping(ch) => if ch < CHANNELS then Stop(d, ch).0 else d
    case Destroying(ch, drv) => if ch < CHANNELS then Destroy(d, ch, drv).0 else d
    case Resetting => Reset(d)
  }

  function LiveAfter(d: Demux, live: set<nat>, call: Call): set<nat>
    requires Shape(d)
  {
    match call
    case Creating(pid, drv) => var r := Create(d, pid, drv).1; if r == NO_CHANNEL then live else live + {r}
    case Destroying(ch, drv) => if ch < CHANNELS && Destroy(d, ch, drv).1 then live - {ch} else live
    case Resetting => {}
    case _ => live
  }

  lemma {:induction false} CreateSound(d: Demux, live: set<nat>, pid: nat, drv: Driver)
    requires Sound(d, live)
    ensures Sound(Create(d, pid, drv).0, LiveAfter(d, live, Creating(pid, drv)))
  {
    var t := Create(d, pid, drv).0;
    var ch := FirstIdleChannel(d.channels);
    forall f: nat | f < |t.filters| && t.filters[f].status.Run? ensures Used(t.channels, f) {
      if d.filters[f].status.Run? {
        var c :| 0 <= c < |d.channels| && !d.channels[c].status.Idle? && d.channels[c].filter == f;
        assert t.channels[c] == d.channels[c];
      } else {
        assert t.channels[ch].filter == f;
      }
    }
  }

  lemma {:induction false} DestroySound(d: Demux, live: set<nat>, ch: nat, drv: Driver)
    requires Sound(d, live) && ch < CHANNELS
    ensures Sound(Destroy(d, ch, drv).0, LiveAfter(d, live, Destroying(ch, drv)))
  {
    var t := Destroy(d, ch, drv).0;
    forall f: nat | f < |t.filters| && t.filters[f].status.Run? ensures Used(t.channels, f) {
      var c :| 0 <= c < |d.channels| && !d.channels[c].status.Idle? && d.channels[c].filter == f;
      if c == ch && t != d {
        var o :| 0 <= o < |d.channels| && o != ch && !d.channels[o].status.Idle? && d.channels[o].filter == f;
        assert t.channels[o] == d.channels[o];
      } else {
        assert t.channels[c] == d.channels[c];
      }
    }
  }

  lemma {:induction false} StatusSound(d: Demux, live: set<nat>, ch: nat, status: Status)
    requires Sound(d, live) && ch < CHANNELS && !d.channels[ch].status.Idle? && !status.Idle?
    ensures Sound(SetStatus(d, ch, status), live)
  {
    var t := SetStatus(d, ch, status);
    forall f: nat | f < |t.filters| && t.filters[f].status.Run? ensures Used(t.channels, f) {
      var c :| 0 <= c < |d.channels| && !d.channels[c].status.Idle? && d.channels[c].filter == f;
      assert !t.channels[c].status.Idle? && t.channels[c].filter == f;
    }
  }

  /** Every call keeps the sharing invariant, whatever the driver answers. */
  lemma {:induction false} ApplySound(d: Demux, live: set<nat>, call: Call)
    requires Sound(d, live)
    ensures Sound(Apply(d, call), LiveAfter(d, live, call))
  {
    match call {
      case Creating(pid, drv) => CreateSound(d, live, pid, drv);
      case Starting(ch, drv) => if ch < CHANNELS && Start(d, ch, drv).1 { StatusSound(d, live, ch, Run); }
      case Stopping(ch) => if ch < CHANNELS && Stop(d, ch).1 { StatusSound(d, live, ch, Ready); }
      case Destroying(ch, drv) => if ch < CHANNELS { DestroySound(d, live, ch, drv); }
      case Resetting =>
    }
  }

  /** States and live channels after a run of calls. */
  ghost function Play(d: Demux, live: set<nat>, calls: seq<Call>): (r: (Demux, set<nat>))
    requires Sound(d, live)
    ensures Sound(r.0, r.1)
    decreases |calls|
  {
    if calls == [] then (d, live)
    else
      ApplySound(d, live, calls[0]);
      Play(Apply(d, calls[0]), LiveAfter(d, live, calls[0]), calls[1..])
  }
}
