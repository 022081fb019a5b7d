/**
 * What `serveMcpHttp` of packages/core/src/mcp/http.ts keeps for one client: the responses that
 * hold its session open, the idle timer that closes it once none does, and the pings of its
 * streams. `Client` and the functions on it are the specification; class `ClientSession` is
 * proved against them.
 */
module HttpClients {
  import opened Options

  const CLIENT_RECONNECT_GRACE_MS: int := 10_000

  /** A ping out on a stream: whether its stream's end voided it, and whether its answer is out of time. */
  datatype Ping = Ping(voided: bool, unanswered: bool)

  /**
   * `idleTimer` and `pingTimer` are the timers last armed; `idleTimers` and `pingTimers` those that
   * are to fire, each idle one with when it was armed. `cleaned` is whether `cleanupPromise` is set,
   * `serverClosed` whether the client's MCP server was closed, and its transport with it.
   */
  datatype Client = Client(
    initialized: bool,
    cleaned: bool,
    serverClosed: bool,
    released: nat,
    openResponses: int,
    lastResponseEndedAtMs: int,
    idleTimer: Option<nat>,
    idleTimers: map<nat, int>,
    openStreams: int,
    pingTimer: Option<nat>,
    pingTimers: set<nat>,
    outstanding: Option<Ping>,
    timers: nat)

  function Without<T>(timers: map<nat, T>, timer: Option<nat>): map<nat, T> {
    if timer.Some? then timers - {timer.value} else timers
  }

  function IdleCleared(c: Client): Client {
    c.(idleTimers := Without(c.idleTimers, c.idleTimer))
  }

  function PingCleared(c: Client): Client {
    c.(pingTimers := if c.pingTimer.Some? then c.pingTimers - {c.pingTimer.value} else c.pingTimers)
  }

  function Closed(c: Client): Client {
    if !c.initialized then c
    else
      var d := PingCleared(IdleCleared(c));
      if d.cleaned then d else d.(cleaned := true, released := d.released + 1)
  }

  /** `closeIdleClientSession`, and the cleanup of an initialization that failed. */
  function ClosedIdle(c: Client): Client {
    Closed(c.(serverClosed := true))
  }

  function IdleArmed(c: Client, now: int): Client {
    if c.openResponses > 0 || c.cleaned then c
    else c.(idleTimer := Some(c.timers), idleTimers := c.idleTimers[c.timers := now], timers := c.timers + 1)
  }

  function PingedLater(c: Client): Client {
    if c.pingTimer.Some? || c.outstanding.Some? || c.openStreams == 0 || c.cleaned then c
    else c.(pingTimer := Some(c.timers), pingTimers := c.pingTimers + {c.timers}, timers := c.timers + 1)
  }

  function Tracked(c: Client): Client {
    IdleCleared(c).(openResponses := c.openResponses + 1)
  }

  function StreamTracked(c: Client): Client {
    PingedLater(Tracked(c).(openStreams := c.openStreams + 1))
  }

  function ResponseEnded(c: Client, now: int): Client {
    IdleArmed(c.(openResponses := c.openResponses - 1, lastResponseEndedAtMs := now), now)
  }

  function StreamEnded(c: Client): Client {
    var d := c.(openStreams := c.openStreams - 1,
                outstanding := if c.outstanding.Some? then Some(c.outstanding.value.(voided := true)) else None);
    if d.openStreams > 0 then d else PingCleared(d).(pingTimer := None)
  }

  function Pinged(c: Client, timer: nat): Client {
    c.(pingTimers := c.pingTimers - {timer}, pingTimer := None, outstanding := Some(Ping(false, false)))
  }

  function AnswerTimedOut(c: Client): Client
    requires c.outstanding.Some?
  {
    c.(outstanding := Some(c.outstanding.value.(unanswered := true)))
  }

  /** The ping's request settled: answered, failed, or aborted by the end of its stream or of its time. */
  function PingSettled(c: Client): Client
    requires c.outstanding.Some?
  {
    var ping, d := c.outstanding.value, c.(outstanding := None);
    if ping.unanswered && !ping.voided && d.openStreams > 0 && !d.cleaned then ClosedIdle(d) else PingedLater(d)
  }

  function IdleFired(c: Client, timer: nat): Client {
    ClosedIdle(c.(idleTimers := c.idleTimers - {timer}))
  }

  function TimersRestarted(c: Client, now: int): Client {
    var d := IdleCleared(c);
    if d.openResponses > 0 then d else IdleArmed(d.(lastResponseEndedAtMs := now), now)
  }

  /** A client as it comes: the response of the request it comes with is tracked. */
  function Came(): Client {
    Tracked(Client(false, false, false, 0, 0, 0, None, map[], 0, None, {}, None, 0))
  }

  function Live(c: Client, now: int, saved: bool): bool {
    c.openResponses > 0 || saved || now - c.lastResponseEndedAtMs < CLIENT_RECONNECT_GRACE_MS
  }

  function ReconnectWindowMs(c: Client, now: int, saved: bool): int {
    if c.openResponses > 0 then 0
    else if saved then CLIENT_RECONNECT_GRACE_MS
    else
      var left := c.lastResponseEndedAtMs + CLIENT_RECONNECT_GRACE_MS - now;
      if left > 0 then left else 0
  }

  /** A client is live exactly while a response is open, or has a moment left to reconnect in. */
  lemma {:induction false} LiveExactly(c: Client, now: int, saved: bool)
    ensures Live(c, now, saved) <==> c.openResponses > 0 || ReconnectWindowMs(c, now, saved) > 0
    ensures ReconnectWindowMs(c, now, saved) >= 0
  {
  }

  /** The window is what is left of the grace: with nothing coming meanwhile, the client stays live for just as long. */
  lemma {:induction false} WindowIsWhatIsLeft(c: Client, now: int, later: nat)
    requires c.openResponses <= 0
    ensures Live(c, now + later, false) <==> later < ReconnectWindowMs(c, now, false)
    ensures Live(c, c.lastResponseEndedAtMs + later, false) <==> later < 10_000
    ensures Live(c, now, true) && ReconnectWindowMs(c, now, true) == 10_000
  {
  }

  class ClientSession {
    var initialized: bool
    var cleaned: bool
    var serverClosed: bool
    var released: nat
    var openResponses: int
    var lastResponseEndedAtMs: int
    var idleTimer: Option<nat>
    var idleTimers: map<nat, int>
    var openStreams: int
    var pingTimer: Option<nat>
    var pingTimers: set<nat>
    var outstanding: Option<Ping>
    var timers: nat

    function Now(): Client
      reads this
    {
      Client(initialized, cleaned, serverClosed, released, openResponses, lastResponseEndedAtMs, idleTimer,
             idleTimers, openStreams, pingTimer, pingTimers, outstanding, timers)
    }

    constructor ()
      ensures Now() == Came()
    {
      initialized, cleaned, serverClosed, released := false, false, false, 0;
      openResponses, lastResponseEndedAtMs, idleTimer, idleTimers := 0, 0, None, map[];
      openStreams, pingTimer, pingTimers, outstanding, timers := 0, None, {}, None, 0;
      new;
      Track();
    }

    method CloseClientSession()
      modifies this
      ensures Now() == Closed(old(Now()))
    {
      if !initialized { return; }
      ClearIdleTimer();
      ClearPingTimer();
      if !cleaned {
        cleaned := true;
        released := released + 1;
      }
    }

    method CloseIdleClientSession()
      modifies this
      ensures Now() == ClosedIdle(old(Now()))
    {
      serverClosed := true;
      CloseClientSession();
    }

    method ClearIdleTimer()
      modifies this`idleTimers
      ensures idleTimers == Without(old(idleTimers), idleTimer)
    {
      if idleTimer.Some? { idleTimers := idleTimers - {idleTimer.value}; }
    }

    method ClearPingTimer()
      modifies this`pingTimers
      ensures Now() == PingCleared(old(Now()))
    {
      if pingTimer.Some? { pingTimers := pingTimers - {pingTimer.value}; }
    }

    method ArmIdleTimer(now: int)
      modifies this`idleTimer, this`idleTimers, this`timers
      ensures Now() == IdleArmed(old(Now()), now)
    {
      if openResponses > 0 || cleaned { return; }
      idleTimer := Some(timers);
      idleTimers := idleTimers[timers := now];
      timers := timers + 1;
    }

    method PingLater()
      modifies this`pingTimer, this`pingTimers, this`timers
      ensures Now() == PingedLater(old(Now()))
    {
      if pingTimer.Some? || outstanding.Some? || openStreams == 0 || cleaned { return; }
      pingTimer := Some(timers);
      pingTimers := pingTimers + {timers};
      timers := timers + 1;
    }

    method Track()
      modifies this`idleTimers, this`openResponses
      ensures Now() == Tracked(old(Now()))
    {
      ClearIdleTimer();
      openResponses := openResponses + 1;
    }

    method TrackStream()
      modifies this
      ensures Now() == StreamTracked(old(Now()))
    {
      Track();
      openStreams := openStreams + 1;
      PingLater();
    }

    /** The callback of `track`'s `finished`. */
    method OnResponseEnd(now: int)
      modifies this
      ensures Now() == ResponseEnded(old(Now()), now)
    {
      openResponses := openResponses - 1;
      lastResponseEndedAtMs := now;
      ArmIdleTimer(now);
    }

    /** The callback of `trackStream`'s. */
    method OnStreamEnd()
      modifies this
      ensures Now() == StreamEnded(old(Now()))
    {
      openStreams := openStreams - 1;
      if outstanding.Some? { outstanding := Some(outstanding.value.(voided := true)); }
      if openStreams > 0 { return; }
      ClearPingTimer();
      pingTimer := None;
    }

    /** `pingTimer` fires: `ping`, up to its await. */
    method SendPing(timer: nat)
      modifies this
      ensures Now() == Pinged(old(Now()), timer)
    {
      pingTimers := pingTimers - {timer};
      pingTimer := None;
      outstanding := Some(Ping(false, false));
    }

    method OnAnswerTimeout()
      requires outstanding.Some?
      modifies this`outstanding
      ensures Now() == AnswerTimedOut(old(Now()))
    {
      outstanding := Some(outstanding.value.(unanswered := true));
    }

    /** `ping`, past its await. */
    method OnPingSettled()
      requires outstanding.Some?
      modifies this
      ensures Now() == PingSettled(old(Now()))
    {
      var ping := outstanding.value;
      outstanding := None;
      if ping.unanswered && !ping.voided && openStreams > 0 && !cleaned {
        CloseIdleClientSession();
        return;
      }
      PingLater();
    }

    method OnIdle(timer: nat)
      modifies this
      ensures Now() == IdleFired(old(Now()), timer)
    {
      idleTimers := idleTimers - {timer};
      CloseIdleClientSession();
    }

    method RestartTimers(now: int)
      modifies this
      ensures Now() == TimersRestarted(old(Now()), now)
    {
      ClearIdleTimer();
      if openResponses > 0 { return; }
      lastResponseEndedAtMs := now;
      ArmIdleTimer(now);
    }
  }
}
