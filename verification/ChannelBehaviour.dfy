/** What the shared-filter protocol of ipanel_demux.c means for its clients. */
module ChannelBehaviour {
  import opened ChannelState

  /** Over every run of calls from a sound state, live channels keep running filters with their own
      PID, no PID has two filters in use, and no filter runs for nobody. */
  lemma {:induction false} RunSound(d: Demux, live: set<nat>, calls: seq<Call>, ch: nat, f: nat, g: nat)
    requires Sound(d, live)
    requires f < g < FILTERS
    ensures var r := Play(d, live, calls);
            && (ch in r.1 ==> Served(r.0, ch))
            && (!r.0.filters[f].status.Idle? && !r.0.filters[g].status.Idle? ==> r.0.filters[f].pid != r.0.filters[g].pid)
            && (r.0.filters[f].status.Run? ==> Used(r.0.channels, f))
  {
    assert Shape(Play(d, live, calls).0);
  }

  /** Whatever the tables hold, initialisation leads to a sound state without live channels. */
  lemma {:induction false} ResetStarts(d: Demux)
    requires |d.channels| == CHANNELS && |d.filters| == FILTERS
    requires forall c :: 0 <= c < |d.channels| ==> d.channels[c].filter < FILTERS
    ensures Sound(Reset(d), {})
  {
  }

  /** Two live channels share a hardware filter exactly when they were created for the same PID. */
  lemma {:induction false} ShareIffSamePid(d: Demux, live: set<nat>, a: nat, b: nat)
    requires Sound(d, live) && a in live && b in live
    ensures d.channels[a].filter == d.channels[b].filter <==> d.channels[a].pid == d.channels[b].pid
  {
    assert Served(d, a) && Served(d, b);
    var f, g := d.channels[a].filter, d.channels[b].filter;
    assert f < g ==> d.filters[f].pid != d.filters[g].pid;
    assert g < f ==> d.filters[g].pid != d.filters[f].pid;
  }

  /** A live channel's filter is closed by no call but the destruction of its last user, so a second
      live channel of the same PID keeps receiving. */
  lemma {:induction false} OthersKeepReceiving(d: Demux, live: set<nat>, ch: nat, other: nat, drv: Driver)
    requires Sound(d, live) && ch < CHANNELS && other in live && other != ch
    ensures Served(Destroy(d, ch, drv).0, other)
    ensures Destroy(d, ch, drv).0.channels[other] == d.channels[other]
  {
    DestroySound(d, live, ch, drv);
  }

  /** Destroy closes a hardware filter exactly when its caller was the last non-idle channel on it. */
  lemma {:induction false} ClosedIffLastUser(d: Demux, live: set<nat>, ch: nat, drv: Driver)
    requires Sound(d, live) && ch in live && Destroy(d, ch, drv).1
    ensures d.filters[d.channels[ch].filter].status.Run?
    ensures Destroy(d, ch, drv).0.filters[d.channels[ch].filter].status.Idle?
            <==> !Used(Destroy(d, ch, drv).0.channels, d.channels[ch].filter)
  {
    assert Served(d, ch);
    var t := Destroy(d, ch, drv).0;
    var f := d.channels[ch].filter;
    if Shared(d.channels, ch) {
      var c :| 0 <= c < |d.channels| && c != ch && !d.channels[c].status.Idle? && d.channels[c].filter == f;
      assert t.channels[c] == d.channels[c];
      assert Used(t.channels, f);
    }
  }

  /** No other channel that is not idle uses the running filter of channel ch. */
  predicate LastUser(d: Demux, ch: nat)
    requires Shape(d) && ch < CHANNELS
  {
    && d.filters[d.channels[ch].filter].status.Run?
    && forall c :: 0 <= c < CHANNELS && c != ch && d.channels[c].filter == d.channels[ch].filter ==> d.channels[c].status.Idle?
  }

  /** Destroy succeeds exactly on a READY channel with a device, and where it is the last user of a running filter,
      a granted close. The channel is idle then, and that filter; nothing else changes, and a failed call changes
      nothing. */
  lemma {:induction false} DestroyOutcome(d: Demux, ch: nat, drv: Driver)
    requires Shape(d) && ch < CHANNELS
    ensures var (t, ok) := Destroy(d, ch, drv);
            var f := d.channels[ch].filter;
            && (ok <==> d.channels[ch].status.Ready? && drv.present && (LastUser(d, ch) ==> drv.ok))
            && (!ok ==> t == d)
            && (ok ==> t == Demux(d.channels[ch := d.channels[ch].(status := Idle)],
                                  if LastUser(d, ch) then d.filters[f := d.filters[f].(status := Idle)] else d.filters))
  {
    assert Shared(d.channels, ch) <==>
      exists c :: 0 <= c < CHANNELS && c != ch && !d.channels[c].status.Idle? && d.channels[c].filter == d.channels[ch].filter;
    assert d.filters[d.channels[ch].filter := d.filters[d.channels[ch].filter]] == d.filters;
  }

  /** Stop succeeds exactly on a RUN channel, which is READY then; starting it again restores the state. */
  lemma {:induction false} StopOutcome(d: Demux, ch: nat, drv: Driver)
    requires ch < |d.channels| && drv.present
    ensures var (t, ok) := Stop(d, ch);
            && (ok <==> d.channels[ch].status.Run?)
            && (if ok then t.channels[ch].status.Ready? && Start(t, ch, drv) == (d, true) else t == d)
  {
    assert d.channels[ch := d.channels[ch].(status := Ready)][ch := d.channels[ch]] == d.channels;
  }

  /** Initialisation makes every channel and filter idle, and takes the PID off every filter. */
  lemma {:induction false} ResetOutcome(d: Demux, c: nat, f: nat)
    requires Shape(d) && c < CHANNELS && f < FILTERS
    ensures Shape(Reset(d)) && Reset(d).channels[c] == d.channels[c].(status := Idle)
    ensures Reset(d).filters[f] == d.filters[f].(status := Idle, pid := NO_PID)
  {
  }

  // ----- creation -----

  /** Some filter is in use for the PID. */
  predicate InUseFor(d: Demux, pid: nat) {
    exists f :: 0 <= f < |d.filters| && !d.filters[f].status.Idle? && d.filters[f].pid == pid
  }

  /** Filter f is the first idle one. */
  predicate FirstFree(d: Demux, f: nat) {
    f < |d.filters| && d.filters[f].status.Idle? && forall g :: 0 <= g < f ==> !d.filters[g].status.Idle?
  }

  /** Creation takes the first idle channel, and no other changes. It is READY even when the call fails; when it
      succeeds it has the PID, and points at a filter that is in use for it. */
  lemma {:induction false} CreateChannelPart(d: Demux, pid: nat, drv: Driver, ch: nat)
    requires Shape(d) && ch < CHANNELS && d.channels[ch].status.Idle?
    requires forall c :: 0 <= c < ch ==> !d.channels[c].status.Idle?
    ensures var (t, r) := Create(d, pid, drv);
            && t.channels == d.channels[ch := t.channels[ch]]
            && (r == ch || r == NO_CHANNEL)
            && (r == NO_CHANNEL ==> t.channels[ch] == d.channels[ch].(status := Ready))
            && (r == ch ==> var f := t.channels[ch].filter;
                  && t.channels[ch] == d.channels[ch].(status := Ready, pid := pid, filter := f)
                  && f < FILTERS && !t.filters[f].status.Idle? && t.filters[f].pid == pid)
  {
    assert FirstIdleChannel(d.channels) == ch;
  }

  /** It touches a filter only if none is in use for the PID, one is idle and there is a device: the first idle one
      gets the PID and the handle, and runs if the driver grants the request. */
  lemma {:induction false} CreateFilterPart(d: Demux, pid: nat, drv: Driver, f: nat)
    requires Shape(d) && exists c :: 0 <= c < CHANNELS && d.channels[c].status.Idle?
    ensures var (t, r) := Create(d, pid, drv);
            && (InUseFor(d, pid) || !drv.present ==> t.filters == d.filters)
            && ((forall g: nat :: !FirstFree(d, g)) ==> t.filters == d.filters)
            && (!InUseFor(d, pid) && drv.present && FirstFree(d, f) ==>
                  && t.filters == d.filters[f := Filter(if drv.ok then Run else Idle, pid, drv.hw)]
                  && (r != NO_CHANNEL <==> drv.ok) && (drv.ok ==> r < CHANNELS && t.channels[r].filter == f))
  {
    var i := FirstIdleFilter(d.filters);
    assert i < |d.filters| ==> FirstFree(d, i);
    assert FirstFree(d, f) ==> f == i;
    assert FirstForPid(d.filters, pid) < |d.filters| <==> InUseFor(d, pid);
  }

  /** Without an idle channel nothing happens. */
  lemma {:induction false} CreateWithoutChannel(d: Demux, pid: nat, drv: Driver)
    requires Shape(d) && forall c :: 0 <= c < CHANNELS ==> !d.channels[c].status.Idle?
    ensures Create(d, pid, drv) == (d, NO_CHANNEL)
  {
  }

  // ----- failed creations -----

  function IdleCount(cs: seq<Channel>): (n: nat)
    ensures n <= |cs|
  {
    if cs == [] then 0 else (if cs[0].status.Idle? then 1 else 0) + IdleCount(cs[1..])
  }

  lemma {:induction false} CountAfterUpdate(cs: seq<Channel>, i: nat, c: Channel)
    requires i < |cs|
    ensures IdleCount(cs[i := c])
            == IdleCount(cs) - (if cs[i].status.Idle? then 1 else 0) + if c.status.Idle? then 1 else 0
  {
    if i == 0 {
      assert cs[0 := c][1..] == cs[1..];
    } else {
      assert cs[i := c][1..] == cs[1..][i-1 := c];
      CountAfterUpdate(cs[1..], i - 1, c);
    }
  }

  lemma {:induction false} CountZeroIffNone(cs: seq<Channel>)
    ensures IdleCount(cs) == 0 <==> forall i :: 0 <= i < |cs| ==> !cs[i].status.Idle?
  {
    if cs == [] {
    } else {
      CountZeroIffNone(cs[1..]);
      assert forall i :: 0 < i < |cs| ==> cs[i] == cs[1..][i-1];
    }
  }

  /** Creation succeeds exactly when a channel is idle and either a filter already runs for the PID
      or one is idle and the driver grants it. Every call, failed ones included, uses up an idle
      channel if there is one. */
  lemma {:induction false} CreateOutcome(d: Demux, live: set<nat>, pid: nat, drv: Driver)
    requires Sound(d, live)
    ensures var r := Create(d, pid, drv);
            && (r.1 != NO_CHANNEL
                <==> && IdleCount(d.channels) > 0
                     && (|| (exists f :: 0 <= f < FILTERS && d.filters[f].status.Run? && d.filters[f].pid == pid)
                         || (drv.present && drv.ok && exists f :: 0 <= f < FILTERS && d.filters[f].status.Idle?)))
            && IdleCount(r.0.channels) == if IdleCount(d.channels) == 0 then 0 else IdleCount(d.channels) - 1
  {
    CountZeroIffNone(d.channels);
    var ch := FirstIdleChannel(d.channels);
    if ch < |d.channels| {
      var t := Create(d, pid, drv).0;
      assert t.channels == d.channels[ch := t.channels[ch]];
      CountAfterUpdate(d.channels, ch, t.channels[ch]);
    }
  }

  function FailedCreations(d: Demux, pid: nat, n: nat): Demux
    decreases n
  {
    if n == 0 then d else FailedCreations(Create(d, pid, Driver(false, false, 0)).0, pid, n - 1)
  }

  /** Failed creations leak their channels: with no filter for the PID and no device, as many failing
      calls as there are idle channels exhaust the table, though no channel is live. */
  lemma {:induction false} FailuresExhaust(d: Demux, live: set<nat>, pid: nat, n: nat)
    requires Sound(d, live) && n == IdleCount(d.channels)
    requires forall f :: 0 <= f < FILTERS ==> d.filters[f].status.Idle? || d.filters[f].pid != pid
    ensures Sound(FailedCreations(d, pid, n), live)
    ensures FirstIdleChannel(FailedCreations(d, pid, n).channels) == CHANNELS
    ensures FailedCreations(d, pid, n).filters == d.filters
    decreases n
  {
    CountZeroIffNone(d.channels);
    if n == 0 {
    } else {
      var none := Driver(false, false, 0);
      CreateSound(d, live, pid, none);
      CreateOutcome(d, live, pid, none);
      FailuresExhaust(Create(d, pid, none).0, live, pid, n - 1);
    }
  }

  // ----- ipanel_porting_dmx_exit -----

  /** The destroy loop from channel i on; `drvs[i]` is the driver's answer for channel i. */
  function Exit(d: Demux, i: nat, drvs: seq<Driver>): (t: Demux)
    requires Shape(d) && |drvs| == CHANNELS && i <= CHANNELS
    ensures Shape(t)
    decreases CHANNELS - i
  {
    if i == CHANNELS then d else Exit(Destroy(d, i, drvs[i]).0, i + 1, drvs)
  }

  predicate AllAnswer(drvs: seq<Driver>) {
    forall i :: 0 <= i < |drvs| ==> drvs[i].present && drvs[i].ok
  }

  /** A filter is needed while a RUN channel points at it. */
  predicate NeededBy(cs: seq<Channel>, f: nat) {
    exists c :: 0 <= c < |cs| && cs[c].status.Run? && cs[c].filter == f
  }

  lemma {:induction false} ExitLoop(d: Demux, live: set<nat>, i: nat, drvs: seq<Driver>) returns (left: set<nat>)
    requires Sound(d, live) && |drvs| == CHANNELS && i <= CHANNELS && AllAnswer(drvs)
    requires forall c :: 0 <= c < i ==> !d.channels[c].status.Ready?
    ensures Sound(Exit(d, i, drvs), left)
    ensures forall c :: 0 <= c < CHANNELS ==> Exit(d, i, drvs).channels[c].status.Run? == d.channels[c].status.Run?
                                              && Exit(d, i, drvs).channels[c].filter == d.channels[c].filter
                                              && !Exit(d, i, drvs).channels[c].status.Ready?
    ensures forall f: nat :: f < FILTERS ==>
              (d.filters[f].status.Run? && NeededBy(d.channels, f) ==> Exit(d, i, drvs).filters[f].status.Run?)
    decreases CHANNELS - i
  {
    if i == CHANNELS {
      left := live;
    } else {
      DestroySound(d, live, i, drvs[i]);
      var t := Destroy(d, i, drvs[i]).0;
      assert forall c :: 0 <= c < CHANNELS && c != i ==> t.channels[c] == d.channels[c];
      forall f: nat | f < FILTERS && d.filters[f].status.Run? && NeededBy(d.channels, f)
        ensures t.filters[f].status.Run? && NeededBy(t.channels, f)
      {
        var c :| 0 <= c < CHANNELS && d.channels[c].status.Run? && d.channels[c].filter == f;
        assert t.channels[c] == d.channels[c];
      }
      left := ExitLoop(t, LiveAfter(d, live, Destroying(i, drvs[i])), i + 1, drvs);
    }
  }

  predicate Reclaimed(d: Demux, t: Demux)
    requires Shape(d) && Shape(t)
  {
    && (forall c :: 0 <= c < CHANNELS ==> t.channels[c].status == if d.channels[c].status.Run? then Run else Idle)
    && (forall f: nat :: f < FILTERS ==>
          (t.filters[f].status.Run? <==> d.filters[f].status.Run? && NeededBy(d.channels, f)))
  }

  /** If the device answers and every close succeeds, exit leaves in use exactly the channels that
      had not been stopped, and running exactly the filters those channels point at. */
  lemma {:induction false} ExitReclaims(d: Demux, live: set<nat>, drvs: seq<Driver>)
    requires Sound(d, live) && |drvs| == CHANNELS && AllAnswer(drvs)
    ensures Reclaimed(d, Exit(d, 0, drvs))
  {
    var t := Exit(d, 0, drvs);
    var left := ExitLoop(d, live, 0, drvs);
    forall f: nat | f < FILTERS && t.filters[f].status.Run?
      ensures d.filters[f].status.Run? && NeededBy(d.channels, f)
    {
      var c :| 0 <= c < |t.channels| && !t.channels[c].status.Idle? && t.channels[c].filter == f;
      assert d.channels[c].status.Run? && d.channels[c].filter == f;
      ExitStartsNone(d, 0, drvs, f);
    }
  }

  lemma {:induction false} ExitStartsNone(d: Demux, i: nat, drvs: seq<Driver>, f: nat)
    requires Shape(d) && |drvs| == CHANNELS && i <= CHANNELS && f < FILTERS
    ensures Exit(d, i, drvs).filters[f].status.Run? ==> d.filters[f].status.Run?
    decreases CHANNELS - i
  {
    if i == CHANNELS {
    } else {
      ExitStartsNone(Destroy(d, i, drvs[i]).0, i + 1, drvs, f);
    }
  }
}
