/**
 * STANetwork (sta_network.py): one outstanding Wi-Fi connect attempt, tracked
 * through an optional deadline. The WLAN interface is a Radio object whose
 * `connected` flag the environment may flip; the wall clock is passed in as
 * an integer number of seconds.
 */
module StaNetwork {
  import opened Wrappers

  /** Seconds an attempt may take when the caller gives no timeout. */
  const TIMEOUT: int := 30

  /** What the radio reports and what the clock reads at one poll of the wait loop. */
  datatype Sample = Sample(connected: bool, time: int)

  /** The state of the interface and of the pending attempt, as a value. */
  datatype Link = Link(active: bool, connected: bool, expiresAt: Option<int>)

  /** The result of a connect step: the new link, how many `progress()` calls it made, how many `connect()` calls it issued. */
  datatype Attempt = Attempt(link: Link, polls: nat, connects: nat)

  /** An interface is connected only while active, and an attempt is pending only on an active interface. */
  predicate LinkValid(l: Link)
  {
    (l.connected ==> l.active) && (l.expiresAt.Some? ==> l.active)
  }

  /** `is_timeout()`: a pending attempt whose deadline lies strictly before now. */
  function Expired(expiresAt: Option<int>, now: int): (r: bool)
    ensures expiresAt.None? ==> !r
    ensures expiresAt.Some? ==> (r <==> expiresAt.value < now)
  {
    match expiresAt
    case None => false
    case Some(deadline) => deadline < now
  }

  /** `if not timeout: timeout = _TIMEOUT` */
  function ConnectTimeout(timeout: Option<int>): (t: int)
    ensures t != 0
    ensures timeout.None? || timeout == Some(0) ==> t == TIMEOUT
    ensures timeout.Some? && timeout.value != 0 ==> t == timeout.value
  {
    if timeout.None? || timeout.value == 0 then TIMEOUT else timeout.value
  }

  /**
   * The number of samples the wait loop polls before it stops: it stops at
   * the first sample that is connected or past the deadline, or when the
   * samples run out.
   */
  function WaitPolls(env: seq<Sample>, deadline: int): (k: nat)
    ensures k <= |env|
    ensures forall j :: 0 <= j < k ==> !env[j].connected && !(deadline < env[j].time)
    ensures k < |env| ==> env[k].connected || deadline < env[k].time
  {
    if |env| == 0 || env[0].connected || deadline < env[0].time then 0
    else 1 + WaitPolls(env[1..], deadline)
  }

  /** The link and counts after `_connect(timeout, progress)` started at time now. */
  function AfterConnect(s: Link, now: int, timeout: int, progress: bool, env: seq<Sample>): Attempt
  {
    var deadline := now + timeout;
    var k := if progress then WaitPolls(env, deadline) else 0;
    var connected := if progress && |env| > 0 then k < |env| && env[k].connected else s.connected;
    Attempt(Link(true, connected, if connected then None else Some(deadline)), k, 1)
  }

  /** The link and counts after `safe_connect(timeout, progress)` called at time now. */
  function AfterSafeConnect(s: Link, now: int, timeout: Option<int>, progress: bool, env: seq<Sample>): Attempt
  {
    if s.connected then Attempt(s.(expiresAt := None), 0, 0)
    else if s.expiresAt.Some? then Attempt(s, 0, 0)
    else AfterConnect(s, now, ConnectTimeout(timeout), progress, env)
  }

  /** The link after `disconnect()`. */
  function AfterDisconnect(s: Link): Link
  {
    Link(false, false, None)
  }

  /** The link after `is_connected()`. */
  function AfterIsConnected(s: Link): Link
  {
    if s.connected then s.(expiresAt := None) else s
  }

  /** The WLAN station interface: a driver object the environment may change. */
  class Radio {
    var active: bool
    var connected: bool
    /** How many `connect()` calls the interface has received. */
    ghost var connects: nat

    ghost predicate Valid()
      reads this
    {
      connected ==> active
    }

    /** `network.WLAN(network.STA_IF)`: the interface in whatever state it is in. */
    constructor (active: bool, connected: bool)
      requires connected ==> active
      ensures Valid()
      ensures this.active == active && this.connected == connected && connects == 0
    {
      this.active := active;
      this.connected := connected;
      connects := 0;
    }

    /** `active(on)`: an interface switched off drops its connection. */
    method SetActive(on: bool)
      requires Valid()
      modifies this
      ensures Valid()
      ensures active == on && connected == (on && old(connected)) && connects == old(connects)
    {
      active := on;
      if !on {
        connected := false;
      }
    }

    /** `connect(essid, password)`: starts joining the network; the connection comes later. */
    method Connect()
      requires Valid() && active
      modifies this
      ensures Valid()
      ensures active == old(active) && connected == old(connected) && connects == old(connects) + 1
    {
      connects := connects + 1;
    }

    /** `disconnect()` */
    method Disconnect()
      requires Valid()
      modifies this
      ensures Valid()
      ensures active == old(active) && !connected && connects == old(connects)
    {
      connected := false;
    }
  }

  class STANetwork {
    const radio: Radio
    var expiresAt: Option<int>

    ghost function State(): Link
      reads this, radio
    {
      Link(radio.active, radio.connected, expiresAt)
    }

    ghost predicate Valid()
      reads this, radio
    {
      radio.Valid() && LinkValid(State())
    }

    constructor (radio: Radio)
      requires radio.Valid()
      ensures Valid()
      ensures this.radio == radio && expiresAt == None
    {
      this.radio := radio;
      expiresAt := None;
    }

    /** `is_timeout()` at time now. */
    function IsTimeout(now: int): bool
      reads this
    {
      Expired(expiresAt, now)
    }

    /**
     * `safe_connect(timeout, progress)` at time now. With progress, the
     * wait loop polls env, one sample per `isconnected()` check; polls is
     * the number of `progress()` calls it made.
     */
    method SafeConnect(now: int, timeout: Option<int>, progress: bool, env: seq<Sample>) returns (polls: nat)
      requires Valid()
      modifies this, radio
      ensures Valid()
      ensures var a := AfterSafeConnect(old(State()), now, timeout, progress, env);
        State() == a.link && polls == a.polls && radio.connects == old(radio.connects) + a.connects
    {
      if radio.connected {
        // already connected
        expiresAt := None;
        polls := 0;
      } else if expiresAt.Some? {
        // connecting
        polls := 0;
      } else {
        polls := Connect(now, ConnectTimeout(timeout), progress, env);
      }
    }

    /** `_connect(timeout, progress)` at time now. */
    method Connect(now: int, timeout: int, progress: bool, env: seq<Sample>) returns (polls: nat)
      requires Valid()
      modifies this, radio
      ensures Valid()
      ensures var a := AfterConnect(old(State()), now, timeout, progress, env);
        State() == a.link && polls == a.polls && radio.connects == old(radio.connects) + a.connects
    {
      if !radio.active {
        radio.SetActive(true);
      }
      radio.Connect();
      var deadline := now + timeout;
      expiresAt := Some(deadline);
      polls := 0;
      if progress {
        while polls < |env|
          invariant polls <= |env|
          invariant Valid() && radio.active && expiresAt == Some(deadline)
          invariant radio.connects == old(radio.connects) + 1
          invariant forall j :: 0 <= j < polls ==> !env[j].connected && !(deadline < env[j].time)
          invariant radio.connected == if polls == 0 then old(radio.connected) else env[polls - 1].connected
        {
          // the environment decides what `isconnected()` reports at this poll
          radio.connected := env[polls].connected;
          if radio.connected || IsTimeout(env[polls].time) {
            break;
          }
          polls := polls + 1;
        }
      }
      if radio.connected {
        expiresAt := None;
      }
    }

    /** `disconnect()` */
    method Disconnect()
      requires Valid()
      modifies this, radio
      ensures Valid()
      ensures State() == AfterDisconnect(old(State())) && radio.connects == old(radio.connects)
    {
      if radio.active {
        radio.Disconnect();
        radio.SetActive(false);
      }
      expiresAt := None;
    }

    /** `is_connected()` */
    method IsConnected() returns (connected: bool)
      requires Valid()
      modifies this
      ensures Valid()
      ensures connected == old(radio.connected)
      ensures State() == AfterIsConnected(old(State()))
    {
      connected := radio.connected;
      if connected {
        expiresAt := None;
      }
    }
  }

  /** A deadline that has passed stays passed as the clock moves on; at the deadline itself it has not. */
  lemma TimeoutIsStrictAndPersists(deadline: int, now: int, later: int)
    requires now <= later
    ensures !Expired(Some(deadline), deadline)
    ensures Expired(Some(deadline), now) ==> Expired(Some(deadline), later)
  {
  }

  /** `safe_connect` on a connected interface only clears the deadline. */
  lemma SafeConnectWhenConnected(s: Link, now: int, timeout: Option<int>, progress: bool, env: seq<Sample>)
    requires s.connected
    ensures var a := AfterSafeConnect(s, now, timeout, progress, env);
      a.link == Link(s.active, true, None) && a.connects == 0 && a.polls == 0
  {
  }

  /** `safe_connect` while an attempt is pending changes nothing. */
  lemma SafeConnectWhilePending(s: Link, now: int, timeout: Option<int>, progress: bool, env: seq<Sample>)
    requires !s.connected && s.expiresAt.Some?
    ensures AfterSafeConnect(s, now, timeout, progress, env) == Attempt(s, 0, 0)
  {
  }

  /**
   * `safe_connect` with nothing pending activates the interface, issues
   * exactly one connect and sets the deadline now + timeout, 30 seconds
   * when the timeout is missing or zero; the deadline is dropped again if
   * the interface connected.
   */
  lemma SafeConnectStarts(s: Link, now: int, timeout: Option<int>, progress: bool, env: seq<Sample>)
    requires !s.connected && s.expiresAt.None?
    ensures var a := AfterSafeConnect(s, now, timeout, progress, env);
      var t := if timeout == None || timeout == Some(0) then 30 else timeout.value;
      a.link.active && a.connects == 1 &&
      a.link.expiresAt == (if a.link.connected then None else Some(now + t))
    ensures !progress ==> AfterSafeConnect(s, now, timeout, progress, env).link.expiresAt == Some(now + ConnectTimeout(timeout))
  {
  }

  /**
   * The wait loop of `_connect` polls only while the interface is neither
   * connected nor past its deadline, and when it stops before the samples
   * run out, the interface is connected or the deadline has passed.
   */
  lemma WaitStopsOnlyWhenConnectedOrExpired(s: Link, now: int, timeout: int, env: seq<Sample>)
    ensures var a := AfterConnect(s, now, timeout, true, env);
      (forall j :: 0 <= j < a.polls ==> !env[j].connected && !Expired(Some(now + timeout), env[j].time)) &&
      (a.polls < |env| ==> a.link.connected || Expired(a.link.expiresAt, env[a.polls].time))
  {
  }

  /** After `_connect` the deadline is cleared exactly when the interface is connected. */
  lemma ConnectClearsDeadlineIffConnected(s: Link, now: int, timeout: int, progress: bool, env: seq<Sample>)
    ensures var l := AfterConnect(s, now, timeout, progress, env).link;
      l.expiresAt.None? <==> l.connected
  {
  }

  /** After `safe_connect` the interface is connected or an attempt is pending. */
  lemma SafeConnectLeavesConnectedOrPending(s: Link, now: int, timeout: Option<int>, progress: bool, env: seq<Sample>)
    ensures var l := AfterSafeConnect(s, now, timeout, progress, env).link;
      l.connected || l.expiresAt.Some?
  {
  }

  /** `disconnect()` leaves the interface inactive and nothing pending, whatever it was doing. */
  lemma DisconnectResets(s: Link)
    ensures var l := AfterDisconnect(s);
      !l.active && !l.connected && l.expiresAt.None? && !Expired(l.expiresAt, 0)
  {
  }

  /** `is_connected()` drops the deadline when connected, and otherwise leaves everything as it was. */
  lemma IsConnectedKeepsPendingAttempt(s: Link)
    ensures var l := AfterIsConnected(s);
      l.active == s.active && l.connected == s.connected &&
      (s.connected ==> l.expiresAt.None?) && (!s.connected ==> l.expiresAt == s.expiresAt)
  {
  }

  /** Every step keeps the link valid. */
  lemma StepsKeepLinkValid(s: Link, now: int, timeout: Option<int>, progress: bool, env: seq<Sample>)
    requires LinkValid(s)
    ensures LinkValid(AfterSafeConnect(s, now, timeout, progress, env).link)
    ensures LinkValid(AfterDisconnect(s)) && LinkValid(AfterIsConnected(s))
  {
  }
}
