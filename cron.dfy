/**
 * Cron (digital_clock.py): calls the minutely hooks of its registrants once
 * at the start of every minute, the hourly hooks at minute 0 and the daily
 * hooks at 02:00. A registrant is described by which of the three hooks it
 * has; a call of hook h on registrant i is a Fire, and the dispatcher returns
 * the fires in the order it makes them.
 */
module Scheduler {
  import opened ClockTime

  /** `delay_max`: the first seconds of a minute in which the minutely hooks may still run. */
  const DELAY_MAX: nat := 6

  datatype Hook = Minutely | Hourly | Daily

  /** Which hooks a registrant has (`callable(getattr(cron, name, None))`). */
  datatype Hooks = Hooks(minutely: bool, hourly: bool, daily: bool)

  /** One hook call: hook h of the registrant at index registrant. */
  datatype Fire = Fire(registrant: nat, hook: Hook)

  predicate Has(r: Hooks, h: Hook)
  {
    match h
    case Minutely => r.minutely
    case Hourly => r.hourly
    case Daily => r.daily
  }

  /** The calls of one dispatch loop: hook h of every registrant that has it, in registration order. */
  function Fires(regs: seq<Hooks>, h: Hook): (fs: seq<Fire>)
    ensures |fs| <= |regs|
    ensures forall k :: 0 <= k < |fs| ==> fs[k].hook == h && fs[k].registrant < |regs| && Has(regs[fs[k].registrant], h)
  {
    if |regs| == 0 then []
    else Fires(regs[..|regs| - 1], h) + (if Has(regs[|regs| - 1], h) then [Fire(|regs| - 1, h)] else [])
  }

  /** `_minutely(now)`: the minutely calls, then, at minute 0, `_hourly`, which at hour 2 ends with `_daily`. */
  function Dispatch(regs: seq<Hooks>, now: CalendarTime): (d: seq<Fire>)
    ensures |d| <= 3 * |regs|
    ensures forall k :: 0 <= k < |d| ==> d[k].registrant < |regs| && Has(regs[d[k].registrant], d[k].hook)
  {
    Fires(regs, Minutely) +
    (if now.minute == 0 then Fires(regs, Hourly) + (if now.hour == 2 then Fires(regs, Daily) else []) else [])
  }

  /** Whether `run(now)` dispatches, given the guard it finds. */
  predicate Dispatches(guard: bool, now: CalendarTime)
  {
    now.second < DELAY_MAX && !guard
  }

  class Cron {
    var registrants: seq<Hooks>
    var minutelyGuard: bool

    constructor ()
      ensures registrants == [] && !minutelyGuard
    {
      registrants := [];
      minutelyGuard := false;
    }

    /** `add(cron)` */
    method Add(r: Hooks)
      modifies this
      ensures registrants == old(registrants) + [r] && minutelyGuard == old(minutelyGuard)
    {
      registrants := registrants + [r];
    }

    /**
     * `run(now)`: dispatches once in the first DELAY_MAX seconds of a
     * minute, the guard keeping it from dispatching twice; the guard drops
     * once those seconds are over.
     */
    method Run(now: CalendarTime) returns (fired: seq<Fire>)
      modifies this`minutelyGuard
      ensures minutelyGuard == (now.second < DELAY_MAX)
      ensures fired == if Dispatches(old(minutelyGuard), now) then Dispatch(registrants, now) else []
    {
      fired := [];
      if now.second < DELAY_MAX {
        if !minutelyGuard {
          fired := RunMinutely(now);
          minutelyGuard := true;
        }
      } else if minutelyGuard {
        minutelyGuard := false;
      }
    }

    /**
     * The calls `run` receives at the given times, one after another, as
     * the clock's loop makes them: the fires of each call, in order.
     */
    method RunCalls(times: seq<CalendarTime>) returns (fired: seq<seq<Fire>>)
      modifies this`minutelyGuard
      ensures minutelyGuard == GuardAfter(old(minutelyGuard), Seconds(times))
      ensures fired == CallsFires(registrants, old(minutelyGuard), times)
      ensures AlwaysFires(registrants, times) ==> NonEmpty(fired) == DispatchCount(old(minutelyGuard), Seconds(times))
    {
      fired := [];
      for i := 0 to |times|
        invariant minutelyGuard == GuardAfter(old(minutelyGuard), Seconds(times[..i]))
        invariant fired == CallsFires(registrants, old(minutelyGuard), times[..i])
      {
        GuardStep(old(minutelyGuard), times, i);
        var f := Run(times[i]);
        fired := fired + [f];
      }
      assert times[..|times|] == times;
      if AlwaysFires(registrants, times) {
        CallsFiresCount(registrants, old(minutelyGuard), times);
      }
    }

    /** `_minutely(now)` */
    method RunMinutely(now: CalendarTime) returns (fired: seq<Fire>)
      ensures fired == Dispatch(registrants, now)
    {
      fired := CallHooks(Minutely);
      if now.minute == 0 {
        var hourly := RunHourly(now);
        fired := fired + hourly;
      }
    }

    /** `_hourly(now)` */
    method RunHourly(now: CalendarTime) returns (fired: seq<Fire>)
      ensures fired == Fires(registrants, Hourly) + (if now.hour == 2 then Fires(registrants, Daily) else [])
    {
      fired := CallHooks(Hourly);
      if now.hour == 2 {
        var daily := CallHooks(Daily);
        fired := fired + daily;
      }
    }

    /** The loop over the registrants that calls hook h of those that have it. */
    method CallHooks(h: Hook) returns (fired: seq<Fire>)
      ensures fired == Fires(registrants, h)
    {
      fired := [];
      for i := 0 to |registrants|
        invariant fired == Fires(registrants[..i], h)
      {
        assert registrants[..i + 1][..i] == registrants[..i];
        if Has(registrants[i], h) {
          fired := fired + [Fire(i, h)];
        }
      }
      assert registrants[..|registrants|] == registrants;
    }
  }

  /** Hook h of registrant i is called exactly when the registrant exists and has that hook. */
  lemma {:induction false} FiresExactly(regs: seq<Hooks>, h: Hook, i: nat)
    ensures Fire(i, h) in Fires(regs, h) <==> i < |regs| && Has(regs[i], h)
    decreases |regs|
  {
    if |regs| > 0 {
      var init := regs[..|regs| - 1];
      FiresExactly(init, h, i);
      if i < |init| {
        assert regs[i] == init[i];
      }
    }
  }

  /** The calls of one loop follow registration order, each registrant at most once. */
  lemma {:induction false} FiresInRegistrationOrder(regs: seq<Hooks>, h: Hook)
    ensures forall j, k :: 0 <= j < k < |Fires(regs, h)| ==> Fires(regs, h)[j].registrant < Fires(regs, h)[k].registrant
    decreases |regs|
  {
    if |regs| > 0 {
      FiresInRegistrationOrder(regs[..|regs| - 1], h);
    }
  }

  /**
   * One dispatch calls every minutely hook, in registration order, before
   * any other hook; hourly hooks only at minute 0 and daily hooks only at
   * 02:00, after the hourly ones.
   */
  lemma DispatchOrder(regs: seq<Hooks>, now: CalendarTime)
    ensures var d := Dispatch(regs, now);
      var m := |Fires(regs, Minutely)|;
      d[..m] == Fires(regs, Minutely) &&
      (forall k :: m <= k < |d| ==> d[k].hook != Minutely) &&
      (now.minute != 0 ==> |d| == m) &&
      (forall k :: 0 <= k < |d| && d[k].hook == Daily ==> now.minute == 0 && now.hour == 2) &&
      (forall j, k :: 0 <= j < k < |d| && d[j].hook == Daily ==> d[k].hook == Daily)
  {
    var d := Dispatch(regs, now);
    var m := |Fires(regs, Minutely)|;
    assert d[..m] == Fires(regs, Minutely);
  }

  /** One dispatch calls each hook of each registrant at most once, so at most three hooks per registrant. */
  lemma DispatchCallsOnce(regs: seq<Hooks>, now: CalendarTime)
    ensures var d := Dispatch(regs, now);
      forall j, k :: 0 <= j < k < |d| ==> d[j] != d[k]
  {
    FiresInRegistrationOrder(regs, Minutely);
    FiresInRegistrationOrder(regs, Hourly);
    FiresInRegistrationOrder(regs, Daily);
  }

  /** A registrant's hook h is called by a dispatch exactly when it has h and the time selects h. */
  lemma DispatchCalls(regs: seq<Hooks>, now: CalendarTime, i: nat, h: Hook)
    ensures Fire(i, h) in Dispatch(regs, now) <==>
      i < |regs| && Has(regs[i], h) &&
      (h == Hourly ==> now.minute == 0) && (h == Daily ==> now.minute == 0 && now.hour == 2)
  {
    FiresExactly(regs, Minutely, i);
    FiresExactly(regs, Hourly, i);
    FiresExactly(regs, Daily, i);
    forall k | 0 <= k < |Fires(regs, Minutely)| ensures Fires(regs, Minutely)[k].hook == Minutely {}
    forall k | 0 <= k < |Fires(regs, Hourly)| ensures Fires(regs, Hourly)[k].hook == Hourly {}
    forall k | 0 <= k < |Fires(regs, Daily)| ensures Fires(regs, Daily)[k].hook == Daily {}
  }

  /** The seconds of a sequence of times. */
  function Seconds(times: seq<CalendarTime>): (s: seq<nat>)
    ensures |s| == |times|
    ensures forall k :: 0 <= k < |times| ==> s[k] == times[k].second
  {
    seq(|times|, k requires 0 <= k < |times| => times[k].second)
  }

  /** How many of a sequence of fire lists are not empty. */
  function NonEmpty(fired: seq<seq<Fire>>): nat
  {
    if |fired| == 0 then 0 else NonEmpty(fired[..|fired| - 1]) + (if fired[|fired| - 1] != [] then 1 else 0)
  }

  /** The guard `run` leaves after each of a sequence of seconds. */
  function GuardAfter(guard: bool, seconds: seq<nat>): bool
  {
    if |seconds| == 0 then guard else seconds[|seconds| - 1] < DELAY_MAX
  }

  /** How many of the calls `run` receives at the given seconds dispatch, starting from the guard. */
  function DispatchCount(guard: bool, seconds: seq<nat>): nat
  {
    if |seconds| == 0 then 0
    else
      var g := GuardAfter(guard, seconds[..|seconds| - 1]);
      DispatchCount(guard, seconds[..|seconds| - 1]) + (if seconds[|seconds| - 1] < DELAY_MAX && !g then 1 else 0)
  }

  /** The fires of each of the calls `run` receives at the given times, in order. */
  function CallsFires(regs: seq<Hooks>, guard: bool, times: seq<CalendarTime>): (r: seq<seq<Fire>>)
    ensures |r| == |times|
  {
    if |times| == 0 then []
    else
      var init := times[..|times| - 1];
      var now := times[|times| - 1];
      CallsFires(regs, guard, init) + [if Dispatches(GuardAfter(guard, Seconds(init)), now) then Dispatch(regs, now) else []]
  }

  /** Every dispatch at the given times would make at least one call. */
  predicate AlwaysFires(regs: seq<Hooks>, times: seq<CalendarTime>)
  {
    forall k :: 0 <= k < |times| ==> Dispatch(regs, times[k]) != []
  }

  /** One more call: the guard it leaves, and the calls before it. */
  lemma GuardStep(guard: bool, times: seq<CalendarTime>, i: nat)
    requires i < |times|
    ensures times[..i + 1][..i] == times[..i] && times[..i + 1][i] == times[i]
    ensures GuardAfter(guard, Seconds(times[..i + 1])) == (times[i].second < DELAY_MAX)
  {
  }

  /** The k-th call dispatches exactly when its second is in the window and the guard the calls before it left is down. */
  lemma {:induction false} CallsFiresAt(regs: seq<Hooks>, guard: bool, times: seq<CalendarTime>, k: nat)
    requires k < |times|
    ensures CallsFires(regs, guard, times)[k] ==
      if Dispatches(GuardAfter(guard, Seconds(times[..k])), times[k]) then Dispatch(regs, times[k]) else []
    decreases |times|
  {
    var init := times[..|times| - 1];
    if k < |init| {
      CallsFiresAt(regs, guard, init, k);
      assert init[..k] == times[..k] && init[k] == times[k];
    }
  }

  /** When every dispatch calls some hook, the calls that fired are as many as the dispatches DispatchCount counts. */
  lemma {:induction false} CallsFiresCount(regs: seq<Hooks>, guard: bool, times: seq<CalendarTime>)
    requires AlwaysFires(regs, times)
    ensures NonEmpty(CallsFires(regs, guard, times)) == DispatchCount(guard, Seconds(times))
    decreases |times|
  {
    if |times| > 0 {
      var init := times[..|times| - 1];
      assert AlwaysFires(regs, init) by {
        forall k | 0 <= k < |init| ensures Dispatch(regs, init[k]) != [] {
          assert init[k] == times[k];
        }
      }
      CallsFiresCount(regs, guard, init);
      var r := CallsFires(regs, guard, times);
      assert r[..|r| - 1] == CallsFires(regs, guard, init);
      assert Seconds(times)[..|times| - 1] == Seconds(init);
    }
  }

  /**
   * Within one delay window (a run of calls in the first DELAY_MAX seconds)
   * the hooks are dispatched at most once, and not at all if the guard was
   * already up.
   */
  lemma {:induction false} AtMostOncePerWindow(guard: bool, seconds: seq<nat>)
    requires forall k :: 0 <= k < |seconds| ==> seconds[k] < DELAY_MAX
    ensures DispatchCount(guard, seconds) <= 1
    ensures guard ==> DispatchCount(guard, seconds) == 0
    ensures |seconds| > 0 && !guard ==> DispatchCount(guard, seconds) == 1
    decreases |seconds|
  {
    if |seconds| > 0 {
      var init := seconds[..|seconds| - 1];
      AtMostOncePerWindow(guard, init);
      if |init| > 0 {
        assert GuardAfter(guard, init) == (init[|init| - 1] < DELAY_MAX);
      }
    }
  }

  /** After a call outside the window the guard is down, so the next call inside the window dispatches. */
  lemma NextWindowDispatches(guard: bool, seconds: seq<nat>, s: nat, t: nat)
    requires s >= DELAY_MAX && t < DELAY_MAX
    ensures DispatchCount(guard, seconds + [s, t]) == DispatchCount(guard, seconds) + 1
  {
    var xs := seconds + [s, t];
    assert xs[..|xs| - 1] == seconds + [s];
    assert (seconds + [s])[..|seconds|] == seconds;
  }
}
