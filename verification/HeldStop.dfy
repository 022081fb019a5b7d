/**
 * packages/core/src/mcp/held-stop.ts: the stop SIGTERM begins, held for a save of the sandbox.
 *
 * `State` and the functions on it are the specification; class `HeldStop` is proved against
 * them. Each call of `stop` is kept with what made it and whether the server was saved then.
 */
module HeldStops {
  import opened Options

  datatype Cause = Sigterm | Hook | WaitEnded

  datatype Call = Call(cause: Cause, whileSaved: bool)

  /** `timer` and `armedUntil` are times of the monotonic clock; `holds` and `releases` count
      what the sessions were told. */
  datatype State = State(
    waitMs: nat,
    held: bool,
    timer: Option<nat>,
    armedUntil: Option<nat>,
    calls: seq<Call>,
    holds: nat,
    releases: nat)

  function Start(waitMs: nat): State {
    State(waitMs, false, None, None, [], 0, 0)
  }

  function Stopped(s: State, cause: Cause, saved: bool): State {
    s.(calls := s.calls + [Call(cause, saved)])
  }

  function Cleared(s: State): State {
    s.(timer := None, held := false)
  }

  predicate Armed(s: State, now: nat) {
    s.armedUntil.Some? && now <= s.armedUntil.value
  }

  function Begun(s: State, now: nat, saved: bool): State {
    if s.held then s
    else if Armed(s, now) || s.waitMs == 0 then Stopped(s.(armedUntil := None), Sigterm, saved)
    else s.(armedUntil := None, held := true, holds := s.holds + 1, timer := Some(now + s.waitMs))
  }

  function Restored(s: State): State {
    var t := s.(armedUntil := None);
    if s.held then Cleared(t).(releases := s.releases + 1) else t
  }

  function WentOn(s: State, cause: Cause, now: nat, saved: bool): State {
    if s.held then Stopped(Cleared(s), cause, saved)
    else if s.waitMs > 0 then s.(armedUntil := Some(now + s.waitMs))
    else s
  }

  function Resumed(s: State, now: nat, saved: bool): State {
    var t := s.(armedUntil := None);
    if s.held then WentOn(t, Hook, now, saved) else t
  }

  function Waited(s: State, now: nat, saved: bool): State {
    var t := s.(timer := None);
    if !s.held || saved then t else WentOn(t, WaitEnded, now, saved)
  }

  /** How many of `calls` went on with a held stop, as every call but SIGTERM's own does. */
  function Went(calls: seq<Call>): nat {
    if calls == [] then 0
    else Went(calls[..|calls| - 1]) + if calls[|calls| - 1].cause == Sigterm then 0 else 1
  }

  /**
   * What every method keeps, `saved` being whether the server is saved: a timer is armed only
   * for a held stop; none is held or armed where the server waits for none; every stop ever
   * held was released, has gone on, or is held still; a held stop's timer is armed unless a
   * save decides; and only SIGTERM itself ever stops a saved server.
   */
  predicate Inv(s: State, saved: bool) {
    && (s.timer.Some? ==> s.held)
    && (s.waitMs == 0 ==> !s.held && s.armedUntil.None?)
    && s.holds == s.releases + Went(s.calls) + (if s.held then 1 else 0)
    && (s.held ==> s.timer.Some? || saved)
    && (forall call <- s.calls :: call.whileSaved ==> call.cause == Sigterm)
  }

  lemma {:induction false} WentAppend(calls: seq<Call>, call: Call)
    ensures Went(calls + [call]) == Went(calls) + if call.cause == Sigterm then 0 else 1
  {
    assert (calls + [call])[..|calls|] == calls;
  }

  lemma {:induction false} BegunKeeps(s: State, now: nat, saved: bool)
    requires Inv(s, saved)
    ensures Inv(Begun(s, now, saved), saved)
  {
    WentAppend(s.calls, Call(Sigterm, saved));
  }

  /** Going on, with the server running: a held stop is called, and none stays held. */
  lemma {:induction false} WentOnKeeps(s: State, cause: Cause, now: nat)
    requires Inv(s, true) && cause != Sigterm
    ensures Inv(WentOn(s, cause, now, false), false) && !WentOn(s, cause, now, false).held
  {
    WentAppend(s.calls, Call(cause, false));
  }

  lemma {:induction false} ResumedKeeps(s: State, now: nat)
    requires Inv(s, true)
    ensures Inv(Resumed(s, now, false), false) && !Resumed(s, now, false).held
  {
    WentAppend(s.calls, Call(Hook, false));
  }

  lemma {:induction false} WaitedKeeps(s: State, now: nat, saved: bool)
    requires Inv(s, saved)
    ensures Inv(Waited(s, now, saved), saved)
  {
    WentAppend(s.calls, Call(WaitEnded, saved));
  }

  class HeldStop {
    const waitMs: nat
    var held: bool
    var timer: Option<nat>
    var armedUntil: Option<nat>
    var calls: seq<Call>
    var holds: nat
    var releases: nat

    function Now(): State
      reads this
    {
      State(waitMs, held, timer, armedUntil, calls, holds, releases)
    }

    constructor (waitMs: nat)
      ensures Now() == Start(waitMs)
    {
      this.waitMs := waitMs;
      held, timer, armedUntil, calls, holds, releases := false, None, None, [], 0, 0;
    }

    /** SIGTERM. */
    method Begin(now: nat, saved: bool)
      modifies this
      ensures Now() == Begun(old(Now()), now, saved)
    {
      if held { return; }
      var armed := armedUntil.Some? && now <= armedUntil.value;
      armedUntil := None;
      if armed {
        calls := calls + [Call(Sigterm, saved)];
        return;
      }
      if waitMs == 0 {
        calls := calls + [Call(Sigterm, saved)];
        return;
      }
      held := true;
      holds := holds + 1;
      timer := Some(now + waitMs);
    }

    method Restore()
      modifies this
      ensures Now() == Restored(old(Now()))
    {
      armedUntil := None;
      if !held { return; }
      Clear();
      releases := releases + 1;
    }

    method Resume(now: nat, saved: bool)
      modifies this
      ensures Now() == Resumed(old(Now()), now, saved)
    {
      armedUntil := None;
      if held { GoOn(Hook, now, saved); }
    }

    method GoOn(cause: Cause, now: nat, saved: bool)
      modifies this
      ensures Now() == WentOn(old(Now()), cause, now, saved)
    {
      if !held {
        if waitMs > 0 { armedUntil := Some(now + waitMs); }
        return;
      }
      Clear();
      calls := calls + [Call(cause, saved)];
    }

    /** The timer fired. */
    method Wait(now: nat, saved: bool)
      modifies this
      ensures Now() == Waited(old(Now()), now, saved)
    {
      timer := None;
      if !held || saved { return; }
      GoOn(WaitEnded, now, saved);
    }

    method Clear()
      modifies this
      ensures Now() == Cleared(old(Now()))
    {
      timer := None;
      held := false;
    }
  }
}
