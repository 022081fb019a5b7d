/**
 * The pings and the idle timer of one HTTP client (packages/core/src/mcp/http.ts:464-577), by the
 * events of a run alone: which pings close the session, and since when it idles.
 */
module HttpPings {
  import opened Options
  import opened HttpClients
  import opened HttpClientRuns

  predicate StreamEndsIn(es: seq<Event>) {
    exists e <- es :: e.StreamEnds?
  }

  /** A ping out stays so until it settles: its time may run out, and the end of any stream voids it. */
  lemma {:induction false} PingStaysOut(s: System, es: seq<Event>, ping: Ping)
    requires Inv(s) && s.client.outstanding == Some(ping) && Possible(s, es) && PingSettles !in es
    ensures Inv(After(s, es))
    ensures After(s, es).client.outstanding ==
      Some(Ping(ping.voided || StreamEndsIn(es), ping.unanswered || AnswerTimesOut in es))
    decreases |es|
  {
    if es != [] {
      var next := Ping(ping.voided || es[0].StreamEnds?, ping.unanswered || es[0] == AnswerTimesOut);
      StepKeeps(s, es[0]);
      PingStepsOn(s, es[0], ping);
      PingStaysOut(Step(s, es[0]), es[1..], next);
      assert es == [es[0]] + es[1..];
    }
  }

  lemma {:induction false} PingStepsOn(s: System, e: Event, ping: Ping)
    requires Inv(s) && s.client.outstanding == Some(ping) && Enabled(s, e) && e != PingSettles
    ensures Step(s, e).client.outstanding ==
      Some(Ping(ping.voided || e.StreamEnds?, ping.unanswered || e == AnswerTimesOut))
  {
    if e.StreamEnds? || e == AnswerTimesOut {
      PingIsMarked(s, e, ping);
    } else {
      assert !e.PingTimerFires? by { assert s.client.pingTimers == {}; }
      if MayClose(e) { ClosingLeavesPing(s, e); } else { OthersLeavePing(s, e); }
    }
  }

  lemma {:induction false} PingIsMarked(s: System, e: Event, ping: Ping)
    requires s.client.outstanding == Some(ping) && Enabled(s, e) && (e.StreamEnds? || e == AnswerTimesOut)
    ensures Step(s, e).client.outstanding ==
      Some(Ping(ping.voided || e.StreamEnds?, ping.unanswered || e == AnswerTimesOut))
  {
  }

  lemma {:induction false} ClosingLeavesPing(s: System, e: Event)
    requires Enabled(s, e) && (e.Close? || e.InitializationFails? || e.IdleTimerFires?)
    ensures Step(s, e).client.outstanding == s.client.outstanding
  {
  }

  lemma {:induction false} OthersLeavePing(s: System, e: Event)
    requires Enabled(s, e)
    requires e.Initialize? || e.Handled? || e.Track? || e.TrackStream? || e.ResponseEnds? || e.RestartTimers?
    ensures Step(s, e).client.outstanding == s.client.outstanding
  {
  }

  /**
   * A ping closes its session, and releases its actor, if and only if its time ran out before it
   * settled and no stream ended since it was sent: a client that answers nothing on its open stream is
   * closed, and one whose stream broke is not.
   */
  lemma {:induction false} PingClosesExactly(s: System, timer: nat, es: seq<Event>)
    requires Inv(s) && Possible(s, [PingTimerFires(timer)] + es) && PingSettles !in es
    requires !After(s, [PingTimerFires(timer)] + es).client.cleaned
    ensures var t := After(s, [PingTimerFires(timer)] + es);
      && Enabled(t, PingSettles)
      && (Step(t, PingSettles).client.cleaned <==> AnswerTimesOut in es && !StreamEndsIn(es))
      && (Step(t, PingSettles).client.cleaned ==>
          Step(t, PingSettles).client.released == 1 && Step(t, PingSettles).client.serverClosed)
  {
    var u := Step(s, PingTimerFires(timer));
    assert ([PingTimerFires(timer)] + es)[1..] == es;
    StepKeeps(s, PingTimerFires(timer));
    PingStaysOut(u, es, Ping(false, false));
    var t := After(u, es);
    StepKeeps(t, PingSettles);
    ClosesExactly(t, PingSettles);
    ServerClosesExactly(t, PingSettles);
  }

  /** A client's MCP server is closed by what closes an idle session, and by an initialization that fails. */
  lemma {:induction false} ServerClosesExactly(s: System, e: Event)
    requires Inv(s) && Enabled(s, e)
    ensures Step(s, e).client.serverClosed <==>
      || s.client.serverClosed || e.IdleTimerFires? || e.InitializationFails?
      || (e.PingSettles? && Closes(s, e) && !s.client.cleaned)
  {
    if MayClose(e) { ClosingsCloseServer(s, e); } else { OthersLeaveServer(s, e); }
  }

  lemma {:induction false} ClosingsCloseServer(s: System, e: Event)
    requires Inv(s) && Enabled(s, e) && MayClose(e)
    ensures Step(s, e).client.serverClosed <==>
      s.client.serverClosed || !(e.Close? || (e.PingSettles? && (s.client.cleaned || !Closes(s, e))))
  {
  }

  lemma {:induction false} OthersLeaveServer(s: System, e: Event)
    requires Enabled(s, e) && !MayClose(e)
    ensures Step(s, e).client.serverClosed == s.client.serverClosed
  {
  }

  /** When the last response ended, as of a step: where none is open, a restore counts as its end. */
  function EndedBy(s: System, e: Event, at: int): int {
    match e
    case ResponseEnds(_, ended) => ended
    case RestartTimers(restored) => if s.responses == {} then restored else at
    case _ => at
  }

  function LastEnd(s: System, es: seq<Event>, at: int): int
    requires Possible(s, es)
    decreases |es|
  {
    if es == [] then at else LastEnd(Step(s, es[0]), es[1..], EndedBy(s, es[0], at))
  }

  lemma {:induction false} StepEnds(s: System, e: Event)
    requires Inv(s) && Enabled(s, e)
    ensures Step(s, e).client.lastResponseEndedAtMs == EndedBy(s, e, s.client.lastResponseEndedAtMs)
  {
    if MayClose(e) {
      ClosingEndsNothing(s, e);
    } else if e.ResponseEnds? || e.RestartTimers? {
      EndIsNoted(s, e);
    } else {
      OthersEndNothing(s, e);
    }
  }

  lemma {:induction false} ClosedEndsNothing(c: Client)
    ensures Closed(c).lastResponseEndedAtMs == c.lastResponseEndedAtMs
  {
  }

  lemma {:induction false} ClosingEndsNothing(s: System, e: Event)
    requires Enabled(s, e) && MayClose(e)
    ensures Step(s, e).client.lastResponseEndedAtMs == s.client.lastResponseEndedAtMs
  {
    var c := s.client;
    match e
    case Close => ClosedEndsNothing(c);
    case InitializationFails => ClosedEndsNothing(c.(serverClosed := true));
    case PingSettles => ClosedEndsNothing(c.(outstanding := None, serverClosed := true));
    case IdleTimerFires(timer) => ClosedEndsNothing(c.(idleTimers := c.idleTimers - {timer}, serverClosed := true));
  }

  lemma {:induction false} EndIsNoted(s: System, e: Event)
    requires CountInv(s) && Enabled(s, e) && (e.ResponseEnds? || e.RestartTimers?)
    ensures Step(s, e).client.lastResponseEndedAtMs == EndedBy(s, e, s.client.lastResponseEndedAtMs)
  {
    assert s.responses == {} <==> s.client.openResponses == 0;
  }

  lemma {:induction false} OthersEndNothing(s: System, e: Event)
    requires Enabled(s, e) && (e.Initialize? || e.Handled? || e.Track? || e.TrackStream? || e.StreamEnds?
                               || e.PingTimerFires? || e.AnswerTimesOut?)
    ensures Step(s, e).client.lastResponseEndedAtMs == s.client.lastResponseEndedAtMs
  {
  }

  lemma {:induction false} RunEnds(s: System, es: seq<Event>)
    requires Inv(s) && Possible(s, es)
    ensures After(s, es).client.lastResponseEndedAtMs == LastEnd(s, es, s.client.lastResponseEndedAtMs)
    decreases |es|
  {
    if es != [] {
      StepEnds(s, es[0]);
      StepKeeps(s, es[0]);
      RunEnds(Step(s, es[0]), es[1..]);
    }
  }

  /** An open session that no response holds has its one idle timer armed as the last response of the run ended. */
  lemma {:induction false} IdlesSinceLastEnd(reopens: bool, es: seq<Event>)
    requires Possible(Initial(reopens), es)
    ensures var s := After(Initial(reopens), es);
      && s.client.lastResponseEndedAtMs == LastEnd(Initial(reopens), es, 0)
      && (s.responses == {} && !s.client.cleaned && !s.lapsed ==>
          exists timer :: s.client.idleTimers == map[timer := LastEnd(Initial(reopens), es, 0)])
  {
    EveryReachableState(reopens, []);
    EveryReachableState(reopens, es);
    RunEnds(Initial(reopens), es);
    var s := After(Initial(reopens), es);
    if s.responses == {} && !s.client.cleaned && !s.lapsed {
      assert s.client.idleTimers == map[s.client.idleTimer.value := LastEnd(Initial(reopens), es, 0)];
    }
  }
}
