/**
 * The stop SIGTERM begins (packages/core/src/mcp/held-stop.ts), as the hook and the server's signals
 * and timers drive it: what every step calls, holds, releases and arms, by what it is.
 */
module SandboxStops {
  import opened Options
  import H = HeldStops
  import opened SandboxHooks
  import opened SandboxRuns

  /** Whether a step begins a stop `sandbox-hook stop` asks for while the server is not saved. */
  predicate StopsUnsaved(s: System, e: Event) {
    var h := s.world.hook;
    e == Begin && h.queue != [] && h.queue[0] == Stop && h.savedAt.None?
  }

  /** Whether the server runs on at a step: asked to, after a save that failed, or as its expiry gives up on it. */
  predicate RunsOnAt(s: System, e: Event) {
    match e
    case Begin =>
      && s.world.hook.queue != []
      && (s.world.hook.queue[0] == Resume || (s.world.hook.savedAt.Some? && GivesUp(s, e)))
    case SaveSettles(ok, _) => !ok
    case CollectSettles(ok, _) => !ok
    case _ => false
  }

  predicate RestoredAt(e: Event) {
    e.RestoreSettles? && e.outcome != Outlived
  }

  predicate WaitEndsAt(s: System, e: Event) {
    e == WaitFires && !IsSaved(s)
  }

  /** Whether SIGTERM stops the server at once: with none held, it waits for none, or was asked to within the wait. */
  predicate StopsAtOnce(s: System, e: Event) {
    var stop := s.world.stop;
    && e == Sigterm && !stop.held
    && (stop.waitMs == 0 || (stop.armedUntil.Some? && s.now <= stop.armedUntil.value))
  }

  /** Whether a held stop goes on, so that none is held any more. */
  predicate GoesOn(s: System, e: Event) {
    s.world.stop.held && (StopsUnsaved(s, e) || RunsOnAt(s, e) || WaitEndsAt(s, e))
  }

  predicate IsReleased(s: System, e: Event) {
    s.world.stop.held && RestoredAt(e)
  }

  predicate IsHeld(s: System, e: Event) {
    e == Sigterm && !s.world.stop.held && !StopsAtOnce(s, e)
  }

  /** What a step makes of the stop's calls, releases and holds, and of whether one is held. */
  predicate Resolves(s: System, e: Event, after: H.State) {
    var before := s.world.stop;
    && after.calls == before.calls
         + (if StopsAtOnce(s, e) then [H.Call(H.Sigterm, IsSaved(s))] else [])
         + (if GoesOn(s, e) then [H.Call(if e == WaitFires then H.WaitEnded else H.Hook, false)] else [])
    && after.releases == before.releases + (if IsReleased(s, e) then 1 else 0)
    && after.holds == before.holds + (if IsHeld(s, e) then 1 else 0)
    && (after.held <==> IsHeld(s, e) || (before.held && !GoesOn(s, e) && !IsReleased(s, e)))
  }

  predicate Arms(s: System, e: Event, after: H.State) {
    var before := s.world.stop;
    var next := if before.waitMs > 0 then Some(s.now + before.waitMs) else None;
    && after.waitMs == before.waitMs
    && after.armedUntil ==
         (if StopsUnsaved(s, e) && !before.held then next
          else if RunsOnAt(s, e) then if s.world.hook.stopAsked then next else None
          else if RestoredAt(e) || (e == Sigterm && !before.held) then None
          else before.armedUntil)
    && after.timer ==
         (if IsHeld(s, e) then next
          else if GoesOn(s, e) || IsReleased(s, e) || e == WaitFires then None
          else before.timer)
  }

  lemma {:induction false} OthersLeaveStop(s: System, e: Event)
    requires Enabled(s, e) && !e.Begin? && !e.SaveSettles? && !e.CollectSettles? && !e.RestoreSettles?
    requires e != Sigterm && e != WaitFires
    ensures Step(s, e).world.stop == s.world.stop
  {
  }

  lemma {:induction false} SignalsStop(s: System, e: Event)
    requires SandboxRuns.Inv(s) && Enabled(s, e) && (e == Sigterm || e == WaitFires)
    ensures Resolves(s, e, Step(s, e).world.stop) && Arms(s, e, Step(s, e).world.stop)
  {
  }

  /** Running on, whatever it is for: a held stop is called, and one asked for meanwhile arms for the next SIGTERM. */
  lemma {:induction false} RunOnStops(w: World, now: nat)
    requires H.Inv(w.stop, true)
    ensures var before, after := w.stop, RunOn(w, now).stop;
      && after.calls == before.calls + (if before.held then [H.Call(H.Hook, false)] else [])
      && after.releases == before.releases && after.holds == before.holds && !after.held && after.timer.None?
      && after.waitMs == before.waitMs
      && after.armedUntil == if w.hook.stopAsked && before.waitMs > 0 then Some(now + before.waitMs) else None
  {
  }

  lemma {:induction false} RunsOnStop(s: System, e: Event, w: World)
    requires SandboxRuns.Inv(s) && Enabled(s, e) && RunsOnAt(s, e)
    requires w.stop == s.world.stop && w.hook.stopAsked == s.world.hook.stopAsked
    requires Step(s, e).world == RunOn(w, s.now)
    ensures Resolves(s, e, Step(s, e).world.stop) && Arms(s, e, Step(s, e).world.stop)
  {
    RunOnStops(w, s.now);
  }

  lemma {:induction false} StopBegins(s: System)
    requires SandboxRuns.Inv(s) && Enabled(s, Begin) && s.world.hook.queue[0] == Stop
    ensures Resolves(s, Begin, Step(s, Begin).world.stop) && Arms(s, Begin, Step(s, Begin).world.stop)
  {
  }

  lemma {:induction false} OtherBegins(s: System)
    requires SandboxRuns.Inv(s) && Enabled(s, Begin) && !StopsUnsaved(s, Begin) && !RunsOnAt(s, Begin)
    ensures Step(s, Begin).world.stop == s.world.stop
  {
  }

  lemma {:induction false} SameStop(s: System, e: Event)
    requires Enabled(s, e) && Step(s, e).world.stop == s.world.stop && e != Sigterm && e != WaitFires
    requires !StopsUnsaved(s, e) && !RunsOnAt(s, e) && !RestoredAt(e)
    ensures Resolves(s, e, Step(s, e).world.stop) && Arms(s, e, Step(s, e).world.stop)
  {
  }

  lemma {:induction false} BegunStop(s: System)
    requires SandboxRuns.Inv(s) && Enabled(s, Begin)
    ensures Resolves(s, Begin, Step(s, Begin).world.stop) && Arms(s, Begin, Step(s, Begin).world.stop)
  {
    if StopsUnsaved(s, Begin) {
      StopBegins(s);
    } else if RunsOnAt(s, Begin) {
      RunsOnStop(s, Begin, s.world.(hook := s.world.hook.(queue := s.world.hook.queue[1..])));
    } else {
      OtherBegins(s);
      SameStop(s, Begin);
    }
  }

  lemma {:induction false} RestoredStop(s: System, e: Event)
    requires SandboxRuns.Inv(s) && Enabled(s, e) && e.RestoreSettles?
    ensures Resolves(s, e, Step(s, e).world.stop) && Arms(s, e, Step(s, e).world.stop)
  {
  }

  lemma {:induction false} SavedStop(s: System, e: Event)
    requires SandboxRuns.Inv(s) && Enabled(s, e) && (e.SaveSettles? || e.CollectSettles?)
    ensures Resolves(s, e, Step(s, e).world.stop) && Arms(s, e, Step(s, e).world.stop)
  {
    if e.ok { SameStop(s, e); } else { RunsOnStop(s, e, At(s.world, Idle)); }
  }

  /**
   * Every step of every run, by what it is. `stop` is called by SIGTERM where it stops at once, and by
   * a held stop's going on, with the server running; a held stop is released by a restore that is not
   * refused, and by nothing else. SIGTERM arms the wait's timer, and a stop asked for with none held
   * has the next SIGTERM within the wait stop at once.
   */
  lemma {:induction false} StopsExactly(s: System, e: Event)
    requires SandboxRuns.Inv(s) && Enabled(s, e)
    ensures Resolves(s, e, Step(s, e).world.stop) && Arms(s, e, Step(s, e).world.stop)
  {
    match e {
      case Begin => BegunStop(s);
      case SaveSettles(_, _) => SavedStop(s, e);
      case CollectSettles(_, _) => SavedStop(s, e);
      case RestoreSettles(_) => RestoredStop(s, e);
      case Sigterm => SignalsStop(s, e);
      case WaitFires => SignalsStop(s, e);
      case _ =>
        OthersLeaveStop(s, e);
        SameStop(s, e);
    }
  }

  /** A stop asked for while the server is saved is kept for when it runs on, until it does or is restored. */
  lemma {:induction false} AsksExactly(s: System, e: Event)
    requires SandboxRuns.Inv(s) && Enabled(s, e)
    ensures Step(s, e).world.hook.stopAsked <==>
      || (e == Begin && s.world.hook.queue[0] == Stop && s.world.hook.savedAt.Some?)
      || (s.world.hook.stopAsked && !RunsOnAt(s, e) && !RestoredAt(e))
  {
  }

  lemma {:induction false} ThreeSteps(s: System, a: Event, b: Event, c: Event)
    requires Enabled(s, a) && Enabled(Step(s, a), b)
    ensures Possible(s, [a, b, c]) <==> Enabled(Step(Step(s, a), b), c)
    ensures Enabled(Step(Step(s, a), b), c) ==> After(s, [a, b, c]) == Step(Step(Step(s, a), b), c)
  {
    var t, u := Step(s, a), Step(Step(s, a), b);
    assert [a, b, c][1..] == [b, c] && [b, c][1..] == [c] && [c][1..] == [];
    assert Possible(u, [c]) <==> Enabled(u, c);
    assert Possible(t, [b, c]) <==> Enabled(u, c);
    if Enabled(u, c) {
      assert After(u, [c]) == Step(u, c);
      assert After(t, [b, c]) == Step(u, c);
    }
  }

  /** A server not saved, with no stop held or armed for, in any state of any run. */
  predicate Unasked(s: System) {
    SandboxRuns.Inv(s) && !IsSaved(s) && !s.world.stop.held && s.world.stop.armedUntil.None?
  }

  /**
   * SIGTERM with a wait, and no save: once the wait has passed, and not before, the timer fires, and
   * `stop` is called that once; nothing is released.
   */
  lemma {:induction false} WaitEndsInStop(s: System, ms: nat)
    requires Unasked(s) && s.world.stop.waitMs > 0
    ensures Possible(s, [Sigterm, Pass(ms), WaitFires]) <==> ms >= s.world.stop.waitMs
    ensures ms >= s.world.stop.waitMs ==>
      var after := After(s, [Sigterm, Pass(ms), WaitFires]).world.stop;
      && after.calls == s.world.stop.calls + [H.Call(H.WaitEnded, false)]
      && after.releases == s.world.stop.releases && !after.held
  {
    var t := Step(s, Sigterm);
    var u := Step(t, Pass(ms));
    StepKeeps(s, Sigterm);
    StepKeeps(t, Pass(ms));
    StopsExactly(s, Sigterm);
    StopsExactly(t, Pass(ms));
    ThreeSteps(s, Sigterm, Pass(ms), WaitFires);
    if Enabled(u, WaitFires) { StopsExactly(u, WaitFires); }
  }

  /**
   * A stop asked for with no SIGTERM yet: one that comes within the wait stops the server at once,
   * and one that comes later is held.
   */
  lemma {:induction false} AskedStopSparesTheWait(s: System, ms: nat)
    requires Unasked(s) && s.world.stop.waitMs > 0
    requires Enabled(s, Begin) && s.world.hook.queue[0] == Stop
    ensures Possible(s, [Begin, Pass(ms), Sigterm])
    ensures var after := After(s, [Begin, Pass(ms), Sigterm]).world.stop;
      if ms <= s.world.stop.waitMs
      then after.calls == s.world.stop.calls + [H.Call(H.Sigterm, false)] && !after.held
      else after.calls == s.world.stop.calls && after.held
  {
    var t := Step(s, Begin);
    var u := Step(t, Pass(ms));
    StepKeeps(s, Begin);
    StepKeeps(t, Pass(ms));
    StopsExactly(s, Begin);
    StopsExactly(t, Pass(ms));
    StopsExactly(u, Sigterm);
    ThreeSteps(s, Begin, Pass(ms), Sigterm);
  }
}
