/**
 * TimeSync (digital_clock.py): sets the clock over the network. A sync step
 * starts or follows a connect attempt and ends in one of three outcomes:
 * synced, timed out, or still connecting. `ntptime.settime()` is counted,
 * not modelled.
 */
module NetworkTime {
  import opened Wrappers
  import opened HT16K33
  import opened SevenSegment
  import opened ClockFaces
  import opened StaNetwork

  datatype Outcome = Synced | TimedOut | Connecting

  /** The branch `_sync` takes, at time now, once `safe_connect` has left the link l. */
  function SyncOutcome(l: Link, now: int): (o: Outcome)
    ensures o == Synced <==> l.connected
    ensures o == TimedOut <==> !l.connected && l.expiresAt.Some? && l.expiresAt.value < now
  {
    if l.connected then Synced
    else if Expired(l.expiresAt, now) then TimedOut
    else Connecting
  }

  /** The link `_sync` leaves: the network is shut down unless the attempt is still running. */
  function LinkAfterSync(l: Link, now: int): Link
  {
    if SyncOutcome(l, now) == Connecting then l else AfterDisconnect(l)
  }

  /** The message `_sync` shows when it finishes. */
  function SyncMessage(o: Outcome): string
  {
    if o == Synced then "sync" else "err "
  }

  /** The glyphs of that message. */
  function MessageCells(o: Outcome): seq<bv8>
  {
    if o == Synced then [0x6D, 0x6E, 0x54, 0x39] else [0x79, 0x50, 0x50, 0x00]
  }

  /** The buffer after `progress()` has drawn n bars, the count starting at from. */
  function AfterProgressBars(b: Buffer, from: nat, n: nat): Buffer
  {
    if n == 0 then b else WithCells(AfterProgressBars(b, from, n - 1)[COLON := COLON_OFF], ProgressCells(from + n - 1))
  }

  /** The buffer `_sync` leaves, given the buffer once the progress bars are drawn. */
  function BufferAfterSync(bars: Buffer, o: Outcome): Buffer
  {
    if o == Connecting then bars else WithCells(bars[COLON := COLON_OFF], MessageCells(o))
  }

  class TimeSync {
    const display: SevenSegmentDisplay
    const network: STANetwork
    var requestSync: bool
    var error: bool
    var progressCount: nat
    /** How many times the clock was set from the network. */
    ghost var settimeCalls: nat

    ghost predicate Valid()
      reads this, display, display.seg7x4, network, network.radio
    {
      display.Valid() && network.Valid()
    }

    constructor (display: SevenSegmentDisplay, radio: Radio)
      requires display.Valid() && radio.Valid()
      ensures Valid()
      ensures this.display == display && fresh(network) && network.radio == radio && network.expiresAt == None
      ensures !requestSync && !error && progressCount == 0 && settimeCalls == 0
    {
      this.display := display;
      network := new STANetwork(radio);
      requestSync := false;
      error := false;
      progressCount := 0;
      settimeCalls := 0;
    }

    /** `sync()`: a sync step that draws a progress bar while it waits for the connection. */
    method Sync(now: int, later: int, env: seq<Sample>) returns (outcome: Outcome)
      requires Valid()
      modifies this, network, network.radio, display.seg7x4`shown, display.seg7x4.buffer
      ensures Valid()
      ensures var a := AfterSafeConnect(old(network.State()), now, None, true, env);
        outcome == SyncOutcome(a.link, later) &&
        progressCount == a.polls &&
        network.State() == LinkAfterSync(a.link, later) &&
        network.radio.connects == old(network.radio.connects) + a.connects &&
        requestSync == (outcome == Connecting) && error == (outcome == TimedOut) &&
        settimeCalls == old(settimeCalls) + (if outcome == Synced then 1 else 0) &&
        display.seg7x4.buffer[..] == BufferAfterSync(AfterProgressBars(old(display.seg7x4.buffer[..]), 0, a.polls), outcome) &&
        (a.polls > 0 || outcome != Connecting || old(display.Shown()) ==> display.Shown())
    {
      progressCount := 0;
      outcome := DoSync(now, later, true, env);
    }

    /** `_progress_bar()`: one bar, then the count moves on. */
    method ProgressBar()
      requires display.Valid()
      modifies this`progressCount, display.seg7x4`shown, display.seg7x4.buffer
      ensures display.Valid()
      ensures display.seg7x4.buffer[..] == WithCells(old(display.seg7x4.buffer[..])[COLON := COLON_OFF], ProgressCells(old(progressCount)))
      ensures progressCount == old(progressCount) + 1
      ensures display.Shown()
    {
      ProgressFace(display.seg7x4.buffer[..], progressCount);
      display.ProgressBar(progressCount);
      progressCount := progressCount + 1;
    }

    /** The `progress()` calls the wait loop of `_connect` made, in their order. */
    method ReplayProgress(n: nat)
      requires display.Valid()
      modifies this`progressCount, display.seg7x4`shown, display.seg7x4.buffer
      ensures display.Valid()
      ensures display.seg7x4.buffer[..] == AfterProgressBars(old(display.seg7x4.buffer[..]), old(progressCount), n)
      ensures progressCount == old(progressCount) + n
      ensures n > 0 || old(display.Shown()) ==> display.Shown()
    {
      for i := 0 to n
        invariant display.Valid()
        invariant i > 0 || old(display.Shown()) ==> display.Shown()
        invariant progressCount == old(progressCount) + i
        invariant display.seg7x4.buffer[..] == AfterProgressBars(old(display.seg7x4.buffer[..]), old(progressCount), i)
      {
        ProgressBar();
      }
    }

    /**
     * `_sync(progress)` at time now; later is the time `is_timeout()` reads.
     * Connected: the clock is set, the network shut down, nothing pending,
     * no error. Timed out: the network shut down, nothing pending, error.
     * Otherwise: a sync stays pending and the error is cleared.
     */
    method DoSync(now: int, later: int, progress: bool, env: seq<Sample>) returns (outcome: Outcome)
      requires Valid()
      modifies this, network, network.radio, display.seg7x4`shown, display.seg7x4.buffer
      ensures Valid()
      ensures var a := AfterSafeConnect(old(network.State()), now, None, progress, env);
        outcome == SyncOutcome(a.link, later) &&
        progressCount == old(progressCount) + a.polls &&
        network.State() == LinkAfterSync(a.link, later) &&
        network.radio.connects == old(network.radio.connects) + a.connects &&
        requestSync == (outcome == Connecting) && error == (outcome == TimedOut) &&
        settimeCalls == old(settimeCalls) + (if outcome == Synced then 1 else 0) &&
        display.seg7x4.buffer[..] == BufferAfterSync(AfterProgressBars(old(display.seg7x4.buffer[..]), old(progressCount), a.polls), outcome) &&
        (a.polls > 0 || outcome != Connecting || old(display.Shown()) ==> display.Shown())
    {
      var polls := network.SafeConnect(now, None, progress, env);
      ReplayProgress(polls);
      outcome := Finish(later);
    }

    /** The branches of `_sync` once `safe_connect` has returned, at time now. */
    method Finish(now: int) returns (outcome: Outcome)
      requires Valid()
      modifies this, network, network.radio, display.seg7x4`shown, display.seg7x4.buffer
      ensures Valid()
      ensures outcome == SyncOutcome(old(network.State()), now)
      ensures network.State() == LinkAfterSync(old(network.State()), now)
      ensures network.radio.connects == old(network.radio.connects) && progressCount == old(progressCount)
      ensures requestSync == (outcome == Connecting) && error == (outcome == TimedOut)
      ensures settimeCalls == old(settimeCalls) + (if outcome == Synced then 1 else 0)
      ensures display.seg7x4.buffer[..] == BufferAfterSync(old(display.seg7x4.buffer[..]), outcome)
      ensures outcome != Connecting || old(display.Shown()) ==> display.Shown()
    {
      var connected := network.IsConnected();
      if connected {
        outcome := Synced;
        Conclude(outcome);
      } else if network.IsTimeout(now) {
        outcome := TimedOut;
        Conclude(outcome);
      } else {
        // connecting
        requestSync := true;
        error := false;
        outcome := Connecting;
      }
    }

    /**
     * A finished `_sync`: the message, the clock set when synced, the
     * network shut down, nothing pending, and the error set on a timeout.
     */
    method Conclude(outcome: Outcome)
      requires Valid() && outcome != Connecting
      modifies this, network, network.radio, display.seg7x4`shown, display.seg7x4.buffer
      ensures Valid()
      ensures network.State() == AfterDisconnect(old(network.State()))
      ensures network.radio.connects == old(network.radio.connects) && progressCount == old(progressCount)
      ensures !requestSync && error == (outcome == TimedOut)
      ensures settimeCalls == old(settimeCalls) + (if outcome == Synced then 1 else 0)
      ensures display.seg7x4.buffer[..] == BufferAfterSync(old(display.seg7x4.buffer[..]), outcome)
      ensures display.Shown()
    {
      ShowMessage(outcome);
      if outcome == Synced {
        // ntptime.settime()
        settimeCalls := settimeCalls + 1;
      }
      network.Disconnect();
      requestSync := false;
      error := outcome == TimedOut;
    }

    /** `text("sync")` or `text("err ")`. */
    method ShowMessage(outcome: Outcome)
      requires display.Valid() && outcome != Connecting
      modifies display.seg7x4`shown, display.seg7x4.buffer
      ensures display.Valid()
      ensures display.seg7x4.buffer[..] == BufferAfterSync(old(display.seg7x4.buffer[..]), outcome)
      ensures display.Shown()
    {
      FinishedStepShowsMessage(display.seg7x4.buffer[..], outcome);
      display.Text(SyncMessage(outcome));
    }

    /** `request()`: only sets the pending flag. */
    method Request()
      modifies this`requestSync
      ensures requestSync
    {
      requestSync := true;
    }

    /** `run()`: a sync step without progress bar, only when one is pending. */
    method Run(now: int, later: int)
      requires Valid()
      modifies this, network, network.radio, display.seg7x4`shown, display.seg7x4.buffer
      ensures Valid()
      ensures progressCount == old(progressCount)
      ensures old(display.Shown()) ==> display.Shown()
      ensures !old(requestSync) ==>
        !requestSync && error == old(error) && settimeCalls == old(settimeCalls) &&
        network.State() == old(network.State()) && network.radio.connects == old(network.radio.connects) &&
        display.seg7x4.buffer[..] == old(display.seg7x4.buffer[..])
      ensures old(requestSync) ==>
        var a := AfterSafeConnect(old(network.State()), now, None, false, []);
        var o := SyncOutcome(a.link, later);
        network.State() == LinkAfterSync(a.link, later) &&
        network.radio.connects == old(network.radio.connects) + a.connects &&
        requestSync == (o == Connecting) && error == (o == TimedOut) &&
        settimeCalls == old(settimeCalls) + (if o == Synced then 1 else 0) &&
        display.seg7x4.buffer[..] == BufferAfterSync(old(display.seg7x4.buffer[..]), o) &&
        (o != Connecting ==> display.Shown())
    {
      if requestSync {
        var _ := DoSync(now, later, false, []);
      }
    }
  }

  /**
   * After a sync step a sync is still pending exactly when a connect attempt
   * is outstanding, and then its deadline has not passed; a finished step
   * always leaves the network inactive.
   */
  lemma PendingIffAttemptOutstanding(s: Link, now: int, later: int, progress: bool, env: seq<Sample>)
    ensures var a := AfterSafeConnect(s, now, None, progress, env);
      var o := SyncOutcome(a.link, later);
      var l := LinkAfterSync(a.link, later);
      (o == Connecting <==> l.expiresAt.Some?) &&
      (o == Connecting ==> !Expired(l.expiresAt, later)) &&
      (o != Connecting ==> !l.active && !l.connected)
  {
    SafeConnectLeavesConnectedOrPending(s, now, None, progress, env);
  }

  /**
   * The blocking sync of `start()` finishes: with no attempt pending, once
   * the wait loop stops on a sample (rather than running out of samples),
   * the step read at that sample's time or later ends synced or timed out,
   * never still connecting.
   */
  lemma {:induction false} BlockingSyncFinishes(s: Link, now: int, later: int, env: seq<Sample>)
    requires s.expiresAt.None?
    requires AfterSafeConnect(s, now, None, true, env).polls < |env|
    requires env[AfterSafeConnect(s, now, None, true, env).polls].time <= later
    ensures SyncOutcome(AfterSafeConnect(s, now, None, true, env).link, later) != Connecting
  {
    if !s.connected {
      var a := AfterSafeConnect(s, now, None, true, env);
      WaitStopsOnlyWhenConnectedOrExpired(s, now, ConnectTimeout(None), env);
      if !a.link.connected {
        TimeoutIsStrictAndPersists(a.link.expiresAt.value, env[a.polls].time, later);
      }
    }
  }

  /**
   * A step that finds an attempt pending does not start another: it issues
   * no connect, and it only finishes once the radio connects or the deadline
   * is past.
   */
  lemma PendingStepIssuesNoConnect(s: Link, now: int, later: int, progress: bool, env: seq<Sample>)
    requires !s.connected && s.expiresAt.Some?
    ensures var a := AfterSafeConnect(s, now, None, progress, env);
      a.connects == 0 && a.polls == 0 &&
      SyncOutcome(a.link, later) == (if s.expiresAt.value < later then TimedOut else Connecting)
  {
    SafeConnectWhilePending(s, now, None, progress, env);
  }

  lemma ColonOffOverCells(b: Buffer, cs: seq<bv8>, ds: seq<bv8>)
    requires |cs| == 4 && |ds| == 4 && b[COLON] == COLON_OFF
    ensures WithCells(WithCells(b, cs)[COLON := COLON_OFF], ds) == WithCells(b, ds)
  {
  }

  /** While the progress bar runs, the colon is off and the cells show the latest bar. */
  lemma {:induction false} ProgressBarsShowLast(b: Buffer, from: nat, n: nat)
    requires n > 0
    ensures AfterProgressBars(b, from, n) == WithCells(b[COLON := COLON_OFF], ProgressCells(from + n - 1))
  {
    if n > 1 {
      ProgressBarsShowLast(b, from, n - 1);
      ColonOffOverCells(b[COLON := COLON_OFF], ProgressCells(from + n - 2), ProgressCells(from + n - 1));
    }
  }

  /** A finished sync step ends on its message, as `text("sync")` or `text("err ")` draws it. */
  lemma FinishedStepShowsMessage(bars: Buffer, o: Outcome)
    requires o != Connecting
    ensures BufferAfterSync(bars, o) == AfterShowText(bars, SyncMessage(o))
  {
    if o == Synced {
      SyncedFace(bars);
    } else {
      TimedOutFace(bars);
    }
  }
}
