/**
 * One client of `serveMcpHttp` (packages/core/src/mcp/http.ts:408-577) as a transition system: its
 * responses and streams come and end, its timers fire, its pings settle and its session closes in
 * any order. The theorems are about every run of it.
 */
module HttpClientRuns {
  import opened Options
  import opened HttpClients

  /**
   * `handling` is whether the request the client comes with is being handled, `reopens` whether
   * the transport, which is not the repository's, may initialize a session once closed. `lapsed`
   * is whether an idle timer fired with no session to close, and none was armed since.
   */
  datatype System = System(
    client: Client,
    responses: set<nat>,
    streams: set<nat>,
    came: nat,
    handling: bool,
    reopens: bool,
    lapsed: bool)

  datatype Event =
    | Initialize
    | Handled
    | InitializationFails
    | Track
    | TrackStream
    | ResponseEnds(response: nat, at: int)
    | StreamEnds(response: nat)
    | PingTimerFires(timer: nat)
    | AnswerTimesOut
    | PingSettles
    | IdleTimerFires(timer: nat)
    | Close
    | RestartTimers(at: int)

  function Initial(reopens: bool): System {
    System(Came(), {0}, {}, 1, true, reopens, false)
  }

  /** Whether `sessions` has the client, as what tracks or restarts it first looks up. */
  predicate Listed(c: Client) {
    c.initialized && !c.cleaned
  }

  predicate Enabled(s: System, e: Event) {
    match e
    case Initialize => s.handling && !s.client.initialized && (s.reopens || !s.client.serverClosed)
    case Handled => s.handling
    case InitializationFails => s.handling
    case Track => Listed(s.client)
    case TrackStream => Listed(s.client)
    case ResponseEnds(response, _) => response in s.responses
    case StreamEnds(response) => response in s.streams
    case PingTimerFires(timer) => timer in s.client.pingTimers
    case AnswerTimesOut => s.client.outstanding.Some?
    case PingSettles => s.client.outstanding.Some?
    case IdleTimerFires(timer) => timer in s.client.idleTimers
    case Close => true
    case RestartTimers(_) => Listed(s.client)
  }

  function Step(s: System, e: Event): System
    requires Enabled(s, e)
  {
    var c := s.client;
    match e
    case Initialize => s.(client := c.(initialized := true))
    case Handled => s.(handling := false)
    case InitializationFails => s.(client := ClosedIdle(c), handling := false)
    case Track => s.(client := Tracked(c), responses := s.responses + {s.came}, came := s.came + 1, lapsed := false)
    case TrackStream =>
      s.(client := StreamTracked(c), responses := s.responses + {s.came}, streams := s.streams + {s.came},
         came := s.came + 1, lapsed := false)
    case ResponseEnds(response, at) => s.(client := ResponseEnded(c, at), responses := s.responses - {response})
    case StreamEnds(response) => s.(client := StreamEnded(c), streams := s.streams - {response})
    case PingTimerFires(timer) => s.(client := Pinged(c, timer))
    case AnswerTimesOut => s.(client := AnswerTimedOut(c))
    case PingSettles => s.(client := PingSettled(c))
    case IdleTimerFires(timer) => s.(client := IdleFired(c, timer), lapsed := s.lapsed || !c.initialized)
    case Close => s.(client := Closed(c))
    case RestartTimers(at) => s.(client := TimersRestarted(c, at), lapsed := false)
  }

  /** No response is open, and no idle timer fired for nothing: one is to close the session. */
  predicate Idle(c: Client, lapsed: bool) {
    c.openResponses == 0 && !c.cleaned && !lapsed
  }

  /** One idle timer is to fire exactly while the client idles, armed as its last response ended. */
  predicate IdleInv(c: Client, lapsed: bool) {
    && (Idle(c, lapsed) ==> c.idleTimer.Some? && c.idleTimers == map[c.idleTimer.value := c.lastResponseEndedAtMs])
    && (!Idle(c, lapsed) ==> c.idleTimers == map[])
    && (lapsed ==> c.openResponses == 0)
    && (forall timer <- c.idleTimers :: timer < c.timers)
  }

  /**
   * While a stream is open, either one ping timer is to fire or one ping is out, never both;
   * while none is, no timer is, and a ping still out is void.
   */
  predicate PingInv(c: Client) {
    && (!c.cleaned ==> c.pingTimers == if c.pingTimer.Some? then {c.pingTimer.value} else {})
    && (c.cleaned ==> c.pingTimers == {})
    && !(c.pingTimer.Some? && c.outstanding.Some?)
    && (c.openStreams > 0 && !c.cleaned ==> c.pingTimer.Some? || c.outstanding.Some?)
    && (c.openStreams == 0 ==> c.pingTimer.None? && (c.outstanding.Some? ==> c.outstanding.value.voided))
    && (c.outstanding.Some? ==> c.initialized)
  }

  predicate ReleaseInv(c: Client) {
    && c.released == (if c.cleaned then 1 else 0)
    && (c.cleaned ==> c.initialized)
    && (c.openStreams > 0 ==> c.initialized)
  }

  /**
   * A timer that fired for nothing closed the server, and so did what abandoned a session: one
   * that is initialized all the same was by a transport that reopens.
   */
  predicate ServerInv(s: System) {
    && (s.lapsed ==> s.client.serverClosed)
    && (s.client.serverClosed && s.client.initialized && !s.client.cleaned ==> s.reopens)
    && (s.lapsed && s.client.initialized ==> s.reopens)
  }

  predicate CountInv(s: System) {
    && s.client.openResponses == |s.responses| && s.client.openStreams == |s.streams|
    && (forall response <- s.responses :: response < s.came)
    && (forall response <- s.streams :: response < s.came)
  }

  predicate Inv(s: System) {
    CountInv(s) && IdleInv(s.client, s.lapsed) && PingInv(s.client) && ReleaseInv(s.client) && ServerInv(s)
  }

  lemma {:induction false} OneMore(s: set<nat>, came: nat)
    requires forall response <- s :: response < came
    ensures |s + {came}| == |s| + 1 && forall response <- s + {came} :: response < came + 1
  {
    assert came !in s;
  }

  lemma {:induction false} TrackedCounts(c: Client)
    ensures Tracked(c).openResponses == c.openResponses + 1 && Tracked(c).openStreams == c.openStreams
    ensures StreamTracked(c).openResponses == c.openResponses + 1 && StreamTracked(c).openStreams == c.openStreams + 1
  {
  }

  lemma {:induction false} ComingKeepsCount(s: System, e: Event)
    requires CountInv(s) && Enabled(s, e) && (e.Track? || e.TrackStream?)
    ensures CountInv(Step(s, e))
  {
    OneMore(s.responses, s.came);
    OneMore(s.streams, s.came);
    TrackedCounts(s.client);
  }

  lemma {:induction false} EndingKeepsCount(s: System, e: Event)
    requires CountInv(s) && Enabled(s, e) && (e.ResponseEnds? || e.StreamEnds?)
    ensures CountInv(Step(s, e))
  {
  }

  lemma {:induction false} OthersKeepCount(s: System, e: Event)
    requires Enabled(s, e) && !e.Track? && !e.TrackStream? && !e.ResponseEnds? && !e.StreamEnds?
    ensures var t := Step(s, e);
      && t.responses == s.responses && t.streams == s.streams && t.came == s.came
      && t.client.openResponses == s.client.openResponses && t.client.openStreams == s.client.openStreams
  {
  }

  lemma {:induction false} CountKeeps(s: System, e: Event)
    requires CountInv(s) && Enabled(s, e)
    ensures CountInv(Step(s, e))
  {
    if e.Track? || e.TrackStream? {
      ComingKeepsCount(s, e);
    } else if e.ResponseEnds? || e.StreamEnds? {
      EndingKeepsCount(s, e);
    } else {
      OthersKeepCount(s, e);
    }
  }

  lemma {:induction false} EndingKeepsIdle(s: System, e: Event)
    requires CountInv(s) && IdleInv(s.client, s.lapsed) && Enabled(s, e) && e.ResponseEnds?
    ensures IdleInv(Step(s, e).client, Step(s, e).lapsed)
  {
    assert s.client.openResponses > 0;
  }

  lemma {:induction false} ComingKeepsIdle(s: System, e: Event)
    requires CountInv(s) && IdleInv(s.client, s.lapsed) && Enabled(s, e) && (e.Track? || e.TrackStream?)
    ensures IdleInv(Step(s, e).client, Step(s, e).lapsed)
  {
    assert s.client.openResponses >= 0;
  }

  lemma {:induction false} FiringKeepsIdle(s: System, e: Event)
    requires CountInv(s) && IdleInv(s.client, s.lapsed) && ReleaseInv(s.client) && Enabled(s, e)
    requires e.IdleTimerFires? || e.RestartTimers?
    ensures IdleInv(Step(s, e).client, Step(s, e).lapsed)
  {
  }

  lemma {:induction false} ClosedKeepsIdle(c: Client, lapsed: bool)
    requires IdleInv(c, lapsed)
    ensures IdleInv(Closed(c), lapsed)
  {
  }

  lemma {:induction false} ClosingKeepsIdle(s: System, e: Event)
    requires IdleInv(s.client, s.lapsed) && Enabled(s, e) && (e.Close? || e.InitializationFails? || e.PingSettles?)
    ensures IdleInv(Step(s, e).client, Step(s, e).lapsed)
  {
    ClosedKeepsIdle(s.client, s.lapsed);
    ClosedKeepsIdle(s.client.(serverClosed := true), s.lapsed);
    ClosedKeepsIdle(s.client.(outstanding := None, serverClosed := true), s.lapsed);
  }

  predicate TouchesIdle(e: Event) {
    || e.Track? || e.TrackStream? || e.ResponseEnds? || e.IdleTimerFires? || e.RestartTimers?
    || e.Close? || e.InitializationFails? || e.PingSettles?
  }

  /** What the idle timer goes by is alike, and no timer that was armed is armed again. */
  predicate IdlesAlike(c: Client, d: Client) {
    && d.openResponses == c.openResponses && d.cleaned == c.cleaned && d.timers >= c.timers
    && d.idleTimer == c.idleTimer && d.idleTimers == c.idleTimers
    && d.lastResponseEndedAtMs == c.lastResponseEndedAtMs
  }

  lemma {:induction false} BeginningIdlesAlike(s: System, e: Event)
    requires Enabled(s, e) && (e.Initialize? || e.Handled?)
    ensures IdlesAlike(s.client, Step(s, e).client) && Step(s, e).lapsed == s.lapsed
  {
  }

  lemma {:induction false} PingingIdlesAlike(s: System, e: Event)
    requires Enabled(s, e) && (e.StreamEnds? || e.PingTimerFires? || e.AnswerTimesOut?)
    ensures IdlesAlike(s.client, Step(s, e).client) && Step(s, e).lapsed == s.lapsed
  {
  }

  lemma {:induction false} OthersKeepIdle(s: System, e: Event)
    requires IdleInv(s.client, s.lapsed) && Enabled(s, e) && !TouchesIdle(e)
    ensures IdleInv(Step(s, e).client, Step(s, e).lapsed)
  {
    if e.Initialize? || e.Handled? { BeginningIdlesAlike(s, e); } else { PingingIdlesAlike(s, e); }
  }

  lemma {:induction false} IdleKeeps(s: System, e: Event)
    requires CountInv(s) && IdleInv(s.client, s.lapsed) && ReleaseInv(s.client) && Enabled(s, e)
    ensures IdleInv(Step(s, e).client, Step(s, e).lapsed)
  {
    if e.Track? || e.TrackStream? {
      ComingKeepsIdle(s, e);
    } else if e.ResponseEnds? {
      EndingKeepsIdle(s, e);
    } else if e.IdleTimerFires? || e.RestartTimers? {
      FiringKeepsIdle(s, e);
    } else if e.Close? || e.InitializationFails? || e.PingSettles? {
      ClosingKeepsIdle(s, e);
    } else {
      OthersKeepIdle(s, e);
    }
  }

  predicate MayClose(e: Event) {
    e.Close? || e.InitializationFails? || e.PingSettles? || e.IdleTimerFires?
  }

  lemma {:induction false} ClosedKeepsPing(c: Client)
    requires PingInv(c)
    ensures PingInv(Closed(c))
  {
  }

  /** A ping that settles closes the session, or the next one is timed. */
  lemma {:induction false} SettlingKeepsPing(c: Client)
    requires PingInv(c) && c.outstanding.Some? && c.openStreams >= 0
    ensures PingInv(PingSettled(c))
  {
  }

  lemma {:induction false} StreamingKeepsPing(s: System, e: Event)
    requires CountInv(s) && PingInv(s.client) && ReleaseInv(s.client) && Enabled(s, e)
    requires e.TrackStream? || e.StreamEnds?
    ensures PingInv(Step(s, e).client)
  {
  }

  lemma {:induction false} ClosingKeepsPing(s: System, e: Event)
    requires CountInv(s) && PingInv(s.client) && Enabled(s, e) && MayClose(e)
    ensures PingInv(Step(s, e).client)
  {
    var c := s.client;
    match e
    case Close => ClosedKeepsPing(c);
    case InitializationFails => ClosedKeepsPing(c.(serverClosed := true));
    case PingSettles => SettlingKeepsPing(c);
    case IdleTimerFires(timer) => ClosedKeepsPing(c.(idleTimers := c.idleTimers - {timer}, serverClosed := true));
  }

  lemma {:induction false} PingingKeepsPing(s: System, e: Event)
    requires CountInv(s) && PingInv(s.client) && ReleaseInv(s.client) && Enabled(s, e)
    requires e.PingTimerFires? || e.AnswerTimesOut?
    ensures PingInv(Step(s, e).client)
  {
  }

  lemma {:induction false} PingKeeps(s: System, e: Event)
    requires CountInv(s) && PingInv(s.client) && ReleaseInv(s.client) && Enabled(s, e)
    ensures PingInv(Step(s, e).client)
  {
    if MayClose(e) {
      ClosingKeepsPing(s, e);
    } else if e.TrackStream? || e.StreamEnds? {
      StreamingKeepsPing(s, e);
    } else if e.PingTimerFires? || e.AnswerTimesOut? {
      PingingKeepsPing(s, e);
    }
  }

  lemma {:induction false} ClosedKeepsRelease(c: Client)
    requires ReleaseInv(c)
    ensures ReleaseInv(Closed(c))
  {
  }

  lemma {:induction false} ClosingKeepsRelease(s: System, e: Event)
    requires ReleaseInv(s.client) && Enabled(s, e) && MayClose(e)
    ensures ReleaseInv(Step(s, e).client)
  {
    var c := s.client;
    match e
    case Close => ClosedKeepsRelease(c);
    case InitializationFails => ClosedKeepsRelease(c.(serverClosed := true));
    case PingSettles => ClosedKeepsRelease(c.(outstanding := None, serverClosed := true));
    case IdleTimerFires(timer) => ClosedKeepsRelease(c.(idleTimers := c.idleTimers - {timer}, serverClosed := true));
  }

  lemma {:induction false} StreamingKeepsRelease(s: System, e: Event)
    requires ReleaseInv(s.client) && Enabled(s, e) && (e.TrackStream? || e.StreamEnds?)
    ensures ReleaseInv(Step(s, e).client)
  {
  }

  lemma {:induction false} ReleaseKeeps(s: System, e: Event)
    requires ReleaseInv(s.client) && Enabled(s, e)
    ensures ReleaseInv(Step(s, e).client)
  {
    if MayClose(e) {
      ClosingKeepsRelease(s, e);
    } else if e.TrackStream? || e.StreamEnds? {
      StreamingKeepsRelease(s, e);
    }
  }

  lemma {:induction false} ServerKeeps(s: System, e: Event)
    requires ServerInv(s) && ReleaseInv(s.client) && Enabled(s, e)
    ensures ServerInv(Step(s, e)) && Step(s, e).reopens == s.reopens
  {
  }

  lemma {:induction false} StepKeeps(s: System, e: Event)
    requires Inv(s) && Enabled(s, e)
    ensures Inv(Step(s, e)) && Step(s, e).reopens == s.reopens
  {
    ServerKeeps(s, e);
    CountKeeps(s, e);
    IdleKeeps(s, e);
    PingKeeps(s, e);
    ReleaseKeeps(s, e);
  }

  predicate Possible(s: System, es: seq<Event>)
    decreases |es|
  {
    es == [] || (Enabled(s, es[0]) && Possible(Step(s, es[0]), es[1..]))
  }

  function After(s: System, es: seq<Event>): System
    requires Possible(s, es)
    decreases |es|
  {
    if es == [] then s else After(Step(s, es[0]), es[1..])
  }

  lemma {:induction false} InvKept(s: System, es: seq<Event>)
    requires Inv(s) && Possible(s, es)
    ensures Inv(After(s, es)) && After(s, es).reopens == s.reopens
    decreases |es|
  {
    if es != [] {
      StepKeeps(s, es[0]);
      InvKept(Step(s, es[0]), es[1..]);
    }
  }

  /** What holds in every state a run comes to. */
  lemma {:induction false} EveryReachableState(reopens: bool, es: seq<Event>)
    requires Possible(Initial(reopens), es)
    ensures Inv(After(Initial(reopens), es)) && After(Initial(reopens), es).reopens == reopens
  {
    InvKept(Initial(reopens), es);
  }

  /**
   * What closes a session, in a state a run comes to: the client or the server ends it, its idle
   * timer fires with no response open, its initialization fails past its id, or its answer to
   * the ping on a stream still open is out of time. A ping that a stream's end has voided never does.
   */
  predicate Closes(s: System, e: Event) {
    match e
    case Close => s.client.initialized
    case InitializationFails => s.client.initialized
    case IdleTimerFires(_) => s.client.initialized
    case PingSettles => s.client.outstanding == Some(Ping(false, true))
    case _ => false
  }

  lemma {:induction false} ClosingCloses(s: System, e: Event)
    requires ReleaseInv(s.client) && PingInv(s.client) && CountInv(s) && Enabled(s, e) && MayClose(e)
    ensures Step(s, e).client.cleaned <==> s.client.cleaned || Closes(s, e)
  {
  }

  lemma {:induction false} OthersLeaveOpen(s: System, e: Event)
    requires Enabled(s, e) && !MayClose(e)
    ensures Step(s, e).client.cleaned <==> s.client.cleaned
  {
  }

  lemma {:induction false} ClosesExactly(s: System, e: Event)
    requires Inv(s) && Enabled(s, e)
    ensures Step(s, e).client.cleaned <==> s.client.cleaned || Closes(s, e)
    ensures e.IdleTimerFires? ==> s.client.openResponses == 0
    ensures e.PingSettles? && Closes(s, e) ==> s.client.openStreams > 0
  {
    if MayClose(e) { ClosingCloses(s, e); } else { OthersLeaveOpen(s, e); }
  }

  /** Closed once, a session stays closed, its client's actor released that once, and no timer is left to fire. */
  lemma {:induction false} StaysClosed(s: System, es: seq<Event>)
    requires Inv(s) && Possible(s, es) && s.client.cleaned
    ensures After(s, es).client.cleaned && After(s, es).client.released == 1
    ensures After(s, es).client.idleTimers == map[] && After(s, es).client.pingTimers == {}
    decreases |es|
  {
    if es != [] {
      StepKeeps(s, es[0]);
      ClosesExactly(s, es[0]);
      StaysClosed(Step(s, es[0]), es[1..]);
    }
  }

  /** An open session that no response holds and no timer is to close. */
  predicate Untimed(c: Client) {
    c.initialized && !c.cleaned && c.openResponses == 0 && c.idleTimers == map[]
  }

  lemma {:induction false} UntimedHasLapsed(s: System)
    requires Inv(s)
    ensures Untimed(s.client) <==> s.client.initialized && !s.client.cleaned && s.lapsed
    ensures Untimed(s.client) ==> s.reopens
  {
    if s.client.openResponses == 0 && !s.client.cleaned && !s.lapsed {
      assert s.client.idleTimer.value in s.client.idleTimers;
    }
  }

  ghost predicate ComesUntimed(reopens: bool, es: seq<Event>) {
    Possible(Initial(reopens), es) && Untimed(After(Initial(reopens), es).client)
  }

  /** The idle timer fires before the session has its id, and the session is initialized only then. */
  lemma {:induction false} MayComeUntimed()
    ensures ComesUntimed(true, [ResponseEnds(0, 0), IdleTimerFires(0), Initialize])
  {
    var s := Initial(true);
    var s1 := Step(s, ResponseEnds(0, 0));
    assert s1.client.idleTimers == map[0 := 0];
    var s2 := Step(s1, IdleTimerFires(0));
    var es := [ResponseEnds(0, 0), IdleTimerFires(0), Initialize];
    assert es[1..] == [IdleTimerFires(0), Initialize] && es[1..][1..] == [Initialize] && [Initialize][1..] == [];
    assert Possible(s2, [Initialize]) && After(s2, [Initialize]) == Step(s2, Initialize);
    assert Possible(s1, es[1..]) && After(s1, es[1..]) == Step(s2, Initialize);
  }

  /**
   * An open session that no response holds has a timer to close it in every state of every run,
   * exactly if a transport closed initializes no session: a timer that fires before the session
   * has its id closes its server, and the transport with it.
   */
  lemma {:induction false} UntimedExactly(reopens: bool)
    ensures (exists es :: ComesUntimed(reopens, es)) <==> reopens
  {
    if reopens {
      MayComeUntimed();
    } else {
      forall es ensures !ComesUntimed(reopens, es) {
        if ComesUntimed(reopens, es) {
          EveryReachableState(reopens, es);
          UntimedHasLapsed(After(Initial(reopens), es));
        }
      }
    }
  }

  /** One that has its id as its idle timer fires, or none lapsed before, is never left so. */
  lemma {:induction false} NeverLapsesInitialized(s: System, es: seq<Event>)
    requires Possible(s, es) && s.client.initialized && !s.lapsed
    ensures After(s, es).client.initialized && !After(s, es).lapsed
    decreases |es|
  {
    if es != [] { NeverLapsesInitialized(Step(s, es[0]), es[1..]); }
  }
}
