/**
 * DigitalClock (digital_clock.py): one tick of the main loop shows a clock
 * face, lets the Cron dispatch the clock's hourly and daily hooks, and runs
 * a pending time sync. Every fifth minute the year and then the date are
 * shown once, the guard mode keeping them from coming back within that minute.
 */
module Clock {
  import opened Wrappers
  import opened HT16K33
  import opened ClockTime
  import opened SevenSegment
  import opened StaNetwork
  import opened NetworkTime
  import opened Scheduler

  /** `interval`: the year and the date are shown at minutes divisible by it. */
  const INTERVAL: nat := 5

  /** `_next_run`. `DisplayYear` is declared by the clock but never entered. */
  datatype Mode = DisplayTime | DisplayYear | DisplayDate | DisplayGuard

  /** What one `_run` draws. */
  datatype Face = ShowTime | ShowYear | ShowDate | ShowNothing

  /** The hooks of the clock itself: hourly and daily, no minutely. */
  const ClockHooks: Hooks := Hooks(false, true, true)

  /** The mode `_run(now)` leaves. */
  function NextMode(m: Mode, minute: nat): (n: Mode)
    ensures n == DisplayYear <==> m == DisplayYear
    ensures n == DisplayDate <==> m == DisplayTime && minute % INTERVAL == 0
    ensures n == DisplayTime <==> (m == DisplayTime || m == DisplayGuard) && minute % INTERVAL != 0
  {
    match m
    case DisplayTime => if minute % INTERVAL == 0 then DisplayDate else DisplayTime
    case DisplayDate => DisplayGuard
    case DisplayGuard => if minute % INTERVAL != 0 then DisplayTime else DisplayGuard
    case DisplayYear => DisplayYear
  }

  /** The face `_run(now)` draws. */
  function FaceShown(m: Mode, minute: nat): (f: Face)
    ensures f == ShowNothing <==> m == DisplayYear
    ensures f == ShowYear <==> m == DisplayTime && minute % INTERVAL == 0
    ensures f == ShowDate <==> m == DisplayDate
  {
    match m
    case DisplayTime => if minute % INTERVAL == 0 then ShowYear else ShowTime
    case DisplayDate => ShowDate
    case DisplayGuard => ShowTime
    case DisplayYear => ShowNothing
  }

  /** The buffer after drawing face f. */
  function AfterFace(b: Buffer, f: Face, now: CalendarTime, syncError: bool): Buffer
  {
    match f
    case ShowTime => AfterTime(b, now, syncError)
    case ShowYear => AfterShowText(b, YearText(now))
    case ShowDate => AfterShowText(b, DateText(now))
    case ShowNothing => b
  }

  /** The pending-sync flag after the clock's hooks ran for the given fires. */
  function RequestAfterHooks(pending: bool, syncError: bool, fires: seq<Fire>): bool
  {
    if |fires| == 0 then pending
    else
      var p := RequestAfterHooks(pending, syncError, fires[..|fires| - 1]);
      match fires[|fires| - 1].hook
      case Minutely => p
      case Hourly => p || syncError
      case Daily => true
  }

  class DigitalClock {
    const display: SevenSegmentDisplay
    const cron: Cron
    const timesync: TimeSync
    var nextRun: Mode

    ghost predicate Valid()
      reads this, display, display.seg7x4, cron, timesync, timesync.network, timesync.network.radio
    {
      timesync.display == display && timesync.Valid() &&
      forall k :: 0 <= k < |cron.registrants| ==> cron.registrants[k] == ClockHooks
    }

    /** A cleared display, an empty Cron, and a TimeSync on the given interface. */
    constructor (radio: Radio)
      requires radio.Valid()
      ensures Valid()
      ensures cron.registrants == [] && !cron.minutelyGuard && nextRun == DisplayTime
      ensures !timesync.requestSync && !timesync.error && timesync.network.radio == radio
      ensures display.seg7x4.buffer[..] == seq(16, _ => 0) && display.Shown()
    {
      var d := new SevenSegmentDisplay();
      display := d;
      cron := new Cron();
      timesync := new TimeSync(d, radio);
      nextRun := DisplayTime;
    }

    /**
     * `start()` up to its loop: the clock registers with the Cron, syncs
     * once with a progress bar, and starts in the time mode.
     */
    method Start(now: int, later: int, env: seq<Sample>) returns (outcome: Outcome)
      requires Valid()
      modifies this, cron, timesync, timesync.network, timesync.network.radio, display.seg7x4`shown, display.seg7x4.buffer
      ensures Valid()
      ensures cron.registrants == old(cron.registrants) + [ClockHooks] && nextRun == DisplayTime
      ensures cron.minutelyGuard == old(cron.minutelyGuard)
      ensures var a := AfterSafeConnect(old(timesync.network.State()), now, None, true, env);
        outcome == SyncOutcome(a.link, later) &&
        timesync.requestSync == (outcome == Connecting) && timesync.error == (outcome == TimedOut) &&
        timesync.progressCount == a.polls &&
        timesync.network.State() == LinkAfterSync(a.link, later) &&
        timesync.network.radio.connects == old(timesync.network.radio.connects) + a.connects &&
        timesync.settimeCalls == old(timesync.settimeCalls) + (if outcome == Synced then 1 else 0) &&
        display.seg7x4.buffer[..] == BufferAfterSync(AfterProgressBars(old(display.seg7x4.buffer[..]), 0, a.polls), outcome) &&
        (a.polls > 0 || outcome != Connecting || old(display.Shown()) ==> display.Shown())
    {
      cron.Add(ClockHooks);
      outcome := timesync.Sync(now, later, env);
      nextRun := DisplayTime;
    }

    /** `_run(now)`: draws the face of the current mode and moves to the next mode. */
    method RunDisplay(now: CalendarTime)
      requires display.Valid()
      modifies this`nextRun, display.seg7x4`shown, display.seg7x4.buffer
      ensures display.Valid()
      ensures nextRun == NextMode(old(nextRun), now.minute)
      ensures display.seg7x4.buffer[..] ==
        AfterFace(old(display.seg7x4.buffer[..]), FaceShown(old(nextRun), now.minute), now, timesync.error)
      ensures FaceShown(old(nextRun), now.minute) != ShowNothing || old(display.Shown()) ==> display.Shown()
    {
      if nextRun == DisplayTime {
        if now.minute % INTERVAL == 0 {
          display.Year(now);
          nextRun := DisplayDate;
        } else {
          display.Time(now, timesync.error);
        }
      } else if nextRun == DisplayDate {
        display.Date(now);
        nextRun := DisplayGuard;
      } else if nextRun == DisplayGuard {
        display.Time(now, timesync.error);
        if now.minute % INTERVAL != 0 {
          nextRun := DisplayTime;
        }
      }
    }

    /** `hourly(now)`: a resync is requested only after a failed sync. */
    method Hourly(now: CalendarTime)
      modifies timesync`requestSync
      ensures timesync.requestSync == (old(timesync.requestSync) || timesync.error)
    {
      if timesync.error {
        timesync.Request();
      }
    }

    /** `daily(now)`: a resync is always requested. */
    method Daily(now: CalendarTime)
      modifies timesync`requestSync
      ensures timesync.requestSync
    {
      timesync.Request();
    }

    /** The hook calls the Cron made, carried out on the clock, in their order. */
    method RunHooks(now: CalendarTime, fires: seq<Fire>)
      modifies timesync`requestSync
      ensures timesync.requestSync == RequestAfterHooks(old(timesync.requestSync), timesync.error, fires)
    {
      for i := 0 to |fires|
        invariant timesync.requestSync == RequestAfterHooks(old(timesync.requestSync), timesync.error, fires[..i])
      {
        assert fires[..i + 1][..i] == fires[..i];
        match fires[i].hook
        case Minutely =>
        case Hourly => Hourly(now);
        case Daily => Daily(now);
      }
      assert fires[..|fires|] == fires;
    }

    /**
     * One pass of the loop of `start()` at local time now; epoch is what
     * `time.time()` reads during the pass.
     */
    method Tick(now: CalendarTime, epoch: int)
      requires Valid()
      modifies this`nextRun, cron`minutelyGuard, timesync, timesync.network, timesync.network.radio,
        display.seg7x4`shown, display.seg7x4.buffer
      ensures Valid()
      ensures nextRun == NextMode(old(nextRun), now.minute)
      ensures cron.minutelyGuard == (now.second < DELAY_MAX)
      ensures FaceShown(old(nextRun), now.minute) != ShowNothing || old(display.Shown()) ==> display.Shown()
      ensures var fires := if Dispatches(old(cron.minutelyGuard), now) then Dispatch(cron.registrants, now) else [];
        var pending := RequestAfterHooks(old(timesync.requestSync), old(timesync.error), fires);
        var face := AfterFace(old(display.seg7x4.buffer[..]), FaceShown(old(nextRun), now.minute), now, old(timesync.error));
        var a := AfterSafeConnect(old(timesync.network.State()), epoch, None, false, []);
        var o := SyncOutcome(a.link, epoch);
        timesync.progressCount == old(timesync.progressCount) &&
        timesync.settimeCalls == old(timesync.settimeCalls) + (if pending && o == Synced then 1 else 0) &&
        timesync.network.radio.connects == old(timesync.network.radio.connects) + (if pending then a.connects else 0) &&
        (pending ==>
          timesync.requestSync == (o == Connecting) && timesync.error == (o == TimedOut) &&
          timesync.network.State() == LinkAfterSync(a.link, epoch) &&
          display.seg7x4.buffer[..] == BufferAfterSync(face, o)) &&
        (!pending ==>
          !timesync.requestSync && timesync.error == old(timesync.error) &&
          timesync.network.State() == old(timesync.network.State()) &&
          display.seg7x4.buffer[..] == face)
    {
      RunDisplay(now);
      var fires := cron.Run(now);
      RunHooks(now, fires);
      timesync.Run(epoch, epoch);
    }
  }

  /** `_run` never enters the year mode, so the mode cycles through time, date and guard. */
  lemma ModeStaysInCycle(m: Mode, minute: nat)
    requires m != DisplayYear
    ensures NextMode(m, minute) != DisplayYear && FaceShown(m, minute) != ShowNothing
  {
  }

  /** The faces drawn by a run of ticks at the given minutes, starting in mode m. */
  function Faces(m: Mode, minutes: seq<nat>): seq<Face>
    decreases |minutes|
  {
    if |minutes| == 0 then [] else [FaceShown(m, minutes[0])] + Faces(NextMode(m, minutes[0]), minutes[1..])
  }

  /** The mode after a run of ticks at the given minutes, starting in mode m. */
  function ModeAfter(m: Mode, minutes: seq<nat>): Mode
    decreases |minutes|
  {
    if |minutes| == 0 then m else ModeAfter(NextMode(m, minutes[0]), minutes[1..])
  }

  /**
   * During a minute divisible by five, a clock that was showing the time
   * shows the year once, then the date once, then only the time, and it
   * stays in the guard mode until the minute is over.
   */
  lemma {:induction false} FifthMinuteShowsYearThenDate(minutes: seq<nat>)
    requires |minutes| >= 2
    requires forall k :: 0 <= k < |minutes| ==> minutes[k] % INTERVAL == 0
    ensures Faces(DisplayTime, minutes) == [ShowYear, ShowDate] + seq(|minutes| - 2, _ => ShowTime)
    ensures ModeAfter(DisplayTime, minutes) == DisplayGuard
  {
    var rest := minutes[2..];
    assert minutes[1..][1..] == rest;
    GuardHoldsThroughMinute(rest);
  }

  /** In the guard mode, ticks in a minute divisible by five show the time and keep the guard. */
  lemma {:induction false} GuardHoldsThroughMinute(minutes: seq<nat>)
    requires forall k :: 0 <= k < |minutes| ==> minutes[k] % INTERVAL == 0
    ensures Faces(DisplayGuard, minutes) == seq(|minutes|, _ => ShowTime)
    ensures ModeAfter(DisplayGuard, minutes) == DisplayGuard
    decreases |minutes|
  {
    if |minutes| > 0 {
      GuardHoldsThroughMinute(minutes[1..]);
    }
  }

  /** Outside the minutes divisible by five, the clock shows the time and settles in the time mode. */
  lemma {:induction false} OtherMinutesShowTime(m: Mode, minutes: seq<nat>)
    requires m == DisplayTime || m == DisplayGuard
    requires forall k :: 0 <= k < |minutes| ==> minutes[k] % INTERVAL != 0
    ensures Faces(m, minutes) == seq(|minutes|, _ => ShowTime)
    ensures |minutes| > 0 ==> ModeAfter(m, minutes) == DisplayTime
    decreases |minutes|
  {
    if |minutes| > 0 {
      OtherMinutesShowTime(DisplayTime, minutes[1..]);
    }
  }

  lemma {:induction false} RequestAfterHooksConcat(pending: bool, syncError: bool, xs: seq<Fire>, ys: seq<Fire>)
    ensures RequestAfterHooks(pending, syncError, xs + ys) ==
      RequestAfterHooks(RequestAfterHooks(pending, syncError, xs), syncError, ys)
    decreases |ys|
  {
    if |ys| == 0 {
      assert xs + ys == xs;
    } else {
      var init := ys[..|ys| - 1];
      assert (xs + ys)[..|xs + ys| - 1] == xs + init;
      RequestAfterHooksConcat(pending, syncError, xs, init);
    }
  }

  /** A run of calls of one hook of the clock: hourly ones request a resync after a failure, daily ones always. */
  lemma {:induction false} RequestAfterOneHook(pending: bool, syncError: bool, fires: seq<Fire>, h: Hook)
    requires forall k :: 0 <= k < |fires| ==> fires[k].hook == h
    ensures RequestAfterHooks(pending, syncError, fires) ==
      (pending || (|fires| > 0 && (h == Daily || (h == Hourly && syncError))))
    decreases |fires|
  {
    if |fires| > 0 {
      RequestAfterOneHook(pending, syncError, fires[..|fires| - 1], h);
    }
  }

  lemma {:induction false} ClockFiresEverywhere(regs: seq<Hooks>, h: Hook)
    requires forall k :: 0 <= k < |regs| ==> regs[k] == ClockHooks
    ensures |Fires(regs, h)| == (if h == Minutely then 0 else |regs|)
    decreases |regs|
  {
    if |regs| > 0 {
      ClockFiresEverywhere(regs[..|regs| - 1], h);
    }
  }

  /**
   * The resync policy of the clock's hooks: a dispatch requests a resync at
   * minute 0 after a failed sync and at 02:00 in any case, and otherwise
   * leaves the pending flag as it was.
   */
  lemma ResyncPolicy(regs: seq<Hooks>, now: CalendarTime, pending: bool, syncError: bool)
    requires |regs| > 0 && forall k :: 0 <= k < |regs| ==> regs[k] == ClockHooks
    ensures RequestAfterHooks(pending, syncError, Dispatch(regs, now)) ==
      (pending || (now.minute == 0 && (syncError || now.hour == 2)))
  {
    var m, hr, d := Fires(regs, Minutely), Fires(regs, Hourly), Fires(regs, Daily);
    ClockFiresEverywhere(regs, Minutely);
    ClockFiresEverywhere(regs, Hourly);
    ClockFiresEverywhere(regs, Daily);
    assert m == [];
    var p1 := RequestAfterHooks(pending, syncError, m);
    RequestAfterOneHook(pending, syncError, m, Minutely);
    if now.minute == 0 {
      RequestAfterOneHook(p1, syncError, hr, Hourly);
      var p2 := RequestAfterHooks(p1, syncError, hr);
      RequestAfterHooksConcat(pending, syncError, m, hr + (if now.hour == 2 then d else []));
      RequestAfterHooksConcat(p1, syncError, hr, if now.hour == 2 then d else []);
      RequestAfterOneHook(p2, syncError, if now.hour == 2 then d else [], Daily);
    } else {
      assert Dispatch(regs, now) == m + [];
    }
  }
}
