/**
 * `runningTimeout` and `resumesWithin` of packages/core/src/sandbox.ts: a timeout that counts only
 * while the server runs, and a wait for a saved server to run on. `State` and the functions on it
 * are the specification of class `RunningTimeout`.
 */
module RunningTimeouts {
  import opened Options

  /**
   * The timer is due at `timer`; `after` is whether the callback is to run past the next poll;
   * `awaiting` is the promise of a save whose end arms the timer anew. `armedAt` is when it was
   * armed last.
   */
  datatype State = State(
    ms: nat, timer: Option<nat>, after: bool, awaiting: Option<nat>, cleared: bool, calls: nat, armedAt: nat)

  function Armed(s: State, now: nat): State {
    s.(timer := Some(now + s.ms), armedAt := now)
  }

  function Start(ms: nat, now: nat): State {
    Armed(State(ms, None, false, None, false, 0, now), now)
  }

  function Fired(s: State, saved: Option<nat>): State {
    var t := s.(timer := None);
    if t.cleared then t else if saved.Some? then t.(awaiting := saved) else t.(after := true)
  }

  function Polled(s: State, saved: Option<nat>): State {
    var t := s.(after := false);
    if t.cleared then t else if saved.Some? then t.(awaiting := saved) else t.(calls := t.calls + 1)
  }

  function RanOn(s: State, now: nat): State {
    var t := s.(awaiting := None);
    if t.cleared then t else Armed(t, now)
  }

  function Cleared(s: State): State {
    s.(cleared := true, timer := None, after := false)
  }

  class RunningTimeout {
    const ms: nat
    var timer: Option<nat>
    var after: bool
    var awaiting: Option<nat>
    var cleared: bool
    var calls: nat
    ghost var armedAt: nat

    ghost function Now(): State
      reads this
    {
      State(ms, timer, after, awaiting, cleared, calls, armedAt)
    }

    constructor (ms: nat, now: nat)
      ensures Now() == Start(ms, now)
    {
      this.ms := ms;
      timer, after, awaiting, cleared, calls, armedAt := Some(now + ms), false, None, false, 0, now;
    }

    method Arm(now: nat)
      modifies this
      ensures Now() == Armed(old(Now()), now)
    {
      timer, armedAt := Some(now + ms), now;
    }

    /** `setTimeout`'s callback. */
    method OnTimer(saved: Option<nat>)
      modifies this
      ensures Now() == Fired(old(Now()), saved)
    {
      timer := None;
      if cleared { return; }
      if saved.Some? { awaiting := saved; } else { after := true; }
    }

    /** `setImmediate`'s. */
    method OnPolled(saved: Option<nat>)
      modifies this
      ensures Now() == Polled(old(Now()), saved)
    {
      after := false;
      if cleared { return; }
      if saved.Some? { awaiting := saved; } else { calls := calls + 1; }
    }

    /** The promise of the save resolved. */
    method OnResumed(now: nat)
      modifies this
      ensures Now() == RanOn(old(Now()), now)
    {
      awaiting := None;
      if !cleared { Arm(now); }
    }

    method Clear()
      modifies this
      ensures Now() == Cleared(old(Now()))
    {
      cleared, timer, after := true, None, false;
    }
  }

  /** The timeout and the server, which is saved by the promise `saved`, the `promises`-th one made. */
  datatype System = System(timeout: State, saved: Option<nat>, promises: nat, now: nat)

  datatype Event = Fire | Poll | RunOn | Save | Resume | Clear | Pass(ms: nat)

  predicate Enabled(s: System, e: Event) {
    match e
    case Fire => s.timeout.timer.Some? && s.timeout.timer.value <= s.now
    case Poll => s.timeout.after
    case RunOn => s.timeout.awaiting.Some? && s.timeout.awaiting != s.saved
    case _ => true
  }

  function Step(s: System, e: Event): System {
    match e
    case Fire => s.(timeout := Fired(s.timeout, s.saved))
    case Poll => s.(timeout := Polled(s.timeout, s.saved))
    case RunOn => s.(timeout := RanOn(s.timeout, s.now))
    case Save => if s.saved.Some? then s else s.(saved := Some(s.promises), promises := s.promises + 1)
    case Resume => s.(saved := None)
    case Clear => s.(timeout := Cleared(s.timeout))
    case Pass(ms) => s.(now := s.now + ms)
  }

  function One(b: bool): nat {
    if b then 1 else 0
  }

  /**
   * A timeout that is not cleared either has been called, once, or is timed, or is to be called
   * past the poll, or awaits the end of a save: never two of them and never none.
   */
  predicate Inv(s: System) {
    var t := s.timeout;
    && (!t.cleared ==> t.calls + One(t.timer.Some?) + One(t.after) + One(t.awaiting.Some?) == 1)
    && (t.cleared ==> t.calls + One(t.awaiting.Some?) <= 1 && t.timer.None? && !t.after)
    && (t.timer.Some? ==> t.timer.value == t.armedAt + t.ms)
    && (t.after ==> t.armedAt + t.ms <= s.now)
  }

  lemma {:induction false} StepKeeps(s: System, e: Event)
    requires Inv(s) && Enabled(s, e)
    ensures Inv(Step(s, e))
  {
  }

  predicate Possible(s: System, es: seq<Event>)
    decreases |es|
  {
    es == [] || (Enabled(s, es[0]) && Possible(Step(s, es[0]), es[1..]))
  }

  function After(s: System, es: seq<Event>): System
    requires Possible(s, es)
    decreases |es|
  {
    if es == [] then s else After(Step(s, es[0]), es[1..])
  }

  lemma {:induction false} InvKept(s: System, es: seq<Event>)
    requires Inv(s) && Possible(s, es)
    ensures Inv(After(s, es))
    decreases |es|
  {
    if es != [] {
      StepKeeps(s, es[0]);
      InvKept(Step(s, es[0]), es[1..]);
    }
  }

  /**
   * However saves, polls and time interleave, a timeout is called at most once, and is never left
   * with nothing to come.
   */
  lemma {:induction false} EveryReachableState(ms: nat, saved: Option<nat>, now: nat, es: seq<Event>)
    requires Possible(System(Start(ms, now), saved, 1, now), es)
    ensures var s := After(System(Start(ms, now), saved, 1, now), es); Inv(s) && s.timeout.calls <= 1
  {
    InvKept(System(Start(ms, now), saved, 1, now), es);
  }

  /**
   * It is called exactly as a poll passes with it not cleared and the server not saved, its time
   * gone since it was last armed.
   */
  lemma {:induction false} CalledExactly(s: System, e: Event)
    requires Inv(s) && Enabled(s, e)
    ensures Step(s, e).timeout.calls > s.timeout.calls <==> e.Poll? && s.saved.None?
    ensures e.Poll? ==> !s.timeout.cleared && s.timeout.armedAt + s.timeout.ms <= s.now
  {
  }

  /** Cleared, it is never called, nor armed again. */
  lemma {:induction false} StaysCleared(s: System, es: seq<Event>)
    requires Inv(s) && Possible(s, es) && s.timeout.cleared
    ensures After(s, es).timeout.cleared && After(s, es).timeout.calls == s.timeout.calls
      && After(s, es).timeout.timer.None?
    decreases |es|
  {
    if es != [] {
      StepKeeps(s, es[0]);
      StaysCleared(Step(s, es[0]), es[1..]);
    }
  }

  /**
   * How long it has been, by a run's events, since the timeout was armed: as it began, or as a save
   * it awaited ended.
   */
  function Since(es: seq<Event>, since: nat): nat
    decreases |es|
  {
    if es == [] then since
    else Since(es[1..], match es[0] case Pass(ms) => since + ms case RunOn => 0 case _ => since)
  }

  lemma {:induction false} ArmedSince(s: System, es: seq<Event>, since: nat)
    requires Inv(s) && Possible(s, es) && (!s.timeout.cleared ==> s.now == s.timeout.armedAt + since)
    ensures Inv(After(s, es)) && After(s, es).timeout.ms == s.timeout.ms
    ensures !After(s, es).timeout.cleared ==> After(s, es).now == After(s, es).timeout.armedAt + Since(es, since)
    decreases |es|
  {
    if es != [] {
      StepKeeps(s, es[0]);
      ArmedSince(Step(s, es[0]), es[1..], match es[0] case Pass(ms) => since + ms case RunOn => 0 case _ => since);
    }
  }

  /** Its timer fires once its time has passed since it was armed, and so its callback runs no sooner. */
  lemma {:induction false} TakesItsTime(ms: nat, saved: Option<nat>, now: nat, es: seq<Event>)
    requires Possible(System(Start(ms, now), saved, 1, now), es)
    ensures var s := After(System(Start(ms, now), saved, 1, now), es);
      && (Enabled(s, Fire) <==> s.timeout.timer.Some? && Since(es, 0) >= ms)
      && (Enabled(s, Poll) ==> Since(es, 0) >= ms)
  {
    ArmedSince(System(Start(ms, now), saved, 1, now), es, 0);
  }

  lemma {:induction false} AwaitsSave(s: System, es: seq<Event>)
    requires Inv(s) && Possible(s, es) && s.timeout.awaiting.Some? && RunOn !in es
    ensures After(s, es).timeout.calls == s.timeout.calls && After(s, es).timeout.awaiting.Some?
    decreases |es|
  {
    if es != [] {
      StepKeeps(s, es[0]);
      AwaitsSave(Step(s, es[0]), es[1..]);
    }
  }

  /**
   * Found saved as its timer fires, or at the poll past it, it is not called until it was armed
   * anew, once the server ran on.
   */
  lemma {:induction false} SavedStartsOver(s: System, e: Event, es: seq<Event>)
    requires Inv(s) && s.saved.Some? && (e == Fire || e == Poll) && Possible(s, [e] + es) && RunOn !in es
    ensures After(s, [e] + es).timeout.calls == s.timeout.calls
    ensures After(s, [e] + es).timeout.awaiting.Some?
  {
    assert ([e] + es)[1..] == es;
    StepKeeps(s, e);
    AwaitsSave(Step(s, e), es);
  }

  /** `resumesWithin`, once it waits: its ticker, and what it settled with first. */
  class ResumeWait {
    const ms: nat
    var seconds: nat
    var ticking: bool
    var settled: Option<bool>

    constructor (ms: nat)
      ensures this.ms == ms && seconds == 0 && ticking && settled.None?
    {
      this.ms := ms;
      seconds, ticking, settled := 0, true, None;
    }

    /** Whether it waits after `seconds` ticks: until they count its time, and a first one has come. */
    predicate Waits()
      reads this
    {
      && ticking == settled.None?
      && (ticking ==> seconds == 0 || seconds * 1000 < ms)
      && (settled == Some(false) ==>
          seconds > 0 && seconds * 1000 >= ms && (seconds - 1 == 0 || (seconds - 1) * 1000 < ms))
    }

    method Tick()
      requires Waits() && ticking
      modifies this
      ensures Waits() && seconds == old(seconds) + 1
      ensures settled == if seconds * 1000 < ms then None else Some(false)
    {
      seconds := seconds + 1;
      if seconds * 1000 < ms { return; }
      ticking := false;
      settled := Some(false);
    }

    /** The server ran on: it settles so, unless its time had gone. */
    method OnResumed()
      requires Waits()
      modifies this
      ensures Waits() && seconds == old(seconds)
      ensures settled == if old(settled).None? then Some(true) else old(settled)
    {
      ticking := false;
      if settled.None? { settled := Some(true); }
    }
  }
}
