/**
 * The expiry of a save (packages/core/src/mcp/sandbox-hook.ts:199-214), over every run: which save an
 * expiry gives up on, and after how many seconds that the server ran, saved.
 */
module SandboxExpiries {
  import opened Options
  import opened SandboxHooks
  import opened SandboxRuns

  /** An expiry that comes to its turn does nothing but for the newest save of a server saved and not outlived. */
  lemma {:induction false} ExpiryBegins(w: World, now: nat, save: nat)
    requires w.hook.phase == Idle && w.hook.queue != [] && w.hook.queue[0] == Expiry(save)
    ensures save != w.hook.saves || w.hook.outlived || w.hook.savedAt.None? ==>
      Begun(w, now) == w.(hook := w.hook.(queue := w.hook.queue[1..]))
    ensures save == w.hook.saves && !w.hook.outlived && w.hook.savedAt.Some? ==>
      Begun(w, now).files.saved.None? && Begun(w, now).hook.savedAt.None?
  {
  }

  /** Whether `e` ends a save that succeeded: the handler's own end, or that of the collection after it. */
  predicate EndsSave(s: System, e: Event) {
    match e
    case SaveSettles(ok, _) => ok && s.world.hook.phase == Saving(true)
    case CollectSettles(ok, _) => ok
    case _ => false
  }

  /** Saves are counted as they end, and `savedAtMs` is when the newest did. */
  lemma {:induction false} SavesCount(s: System, e: Event)
    requires Enabled(s, e)
    ensures Step(s, e).world.hook.saves == s.world.hook.saves + if EndsSave(s, e) then 1 else 0
    ensures EndsSave(s, e) ==> Step(s, e).world.hook.savedAt == Some(e.wall)
    ensures !EndsSave(s, e) && Step(s, e).world.hook.savedAt.Some? ==>
      Step(s, e).world.hook.savedAt == s.world.hook.savedAt
  {
  }

  /** How many seconds of a save a run counts. */
  function Seconds(es: seq<Event>, save: nat): nat {
    if es == [] then 0 else Seconds(es[1..], save) + if es[0] == Tick(save) then 1 else 0
  }

  lemma {:induction false} SecondsOn(before: seq<Event>, since: seq<Event>, save: nat)
    ensures Seconds(before + since, save) == Seconds(before, save) + Seconds(since, save)
    decreases |before|
  {
    if before == [] {
      assert before + since == since;
    } else {
      assert (before + since)[1..] == before[1..] + since;
      SecondsOn(before[1..], since, save);
    }
  }

  /**
   * What a save's seconds so far say: they are counted while they are fewer than 600, and the 600th
   * asks for its expiry.
   */
  predicate Counted(h: Hook, save: nat, seconds: nat) {
    && (save in h.tickers ==> h.tickers[save] == seconds < 600 && Expiry(save) !in h.queue)
    && (Expiry(save) in h.queue ==> seconds == 600)
    && (save > h.saves ==> seconds == 0 && save !in h.tickers && Expiry(save) !in h.queue)
    && seconds <= 600
  }

  lemma {:induction false} BeginCounts(w: World, now: nat, save: nat, seconds: nat)
    requires Counted(w.hook, save, seconds) && w.hook.phase == Idle && w.hook.queue != []
    ensures Counted(Begun(w, now).hook, save, seconds)
  {
    assert forall x <- Begun(w, now).hook.queue :: x in w.hook.queue;
  }

  lemma {:induction false} TickCounts(w: World, ticked: nat, save: nat, seconds: nat)
    requires Counted(w.hook, save, seconds) && ticked in w.hook.tickers
    ensures Counted(Ticked(w, ticked).hook, save, seconds + if ticked == save then 1 else 0)
  {
    assert forall x <- Ticked(w, ticked).hook.queue :: x in w.hook.queue || x == Expiry(ticked);
  }

  lemma {:induction false} SettlingCounts(s: System, e: Event, save: nat, seconds: nat)
    requires Counted(s.world.hook, save, seconds) && Enabled(s, e)
    requires e.SaveSettles? || e.CollectSettles? || e.RestoreSettles?
    ensures Counted(Step(s, e).world.hook, save, seconds)
  {
  }

  lemma {:induction false} StepCounts(s: System, e: Event, save: nat, seconds: nat)
    requires Counted(s.world.hook, save, seconds) && Enabled(s, e)
    ensures Counted(Step(s, e).world.hook, save, seconds + if e == Tick(save) then 1 else 0)
  {
    match e {
      case Begin => BeginCounts(s.world, s.now, save, seconds);
      case Tick(ticked) => TickCounts(s.world, ticked, save, seconds);
      case SaveSettles(_, _) => SettlingCounts(s, e, save, seconds);
      case CollectSettles(_, _) => SettlingCounts(s, e, save, seconds);
      case RestoreSettles(_) => SettlingCounts(s, e, save, seconds);
      case Ask(request) => assert forall x <- s.world.hook.queue + [request] :: x in s.world.hook.queue || x == request;
      case _ =>
    }
  }

  lemma {:induction false} RunCounts(s: System, es: seq<Event>, save: nat, seconds: nat)
    requires Counted(s.world.hook, save, seconds) && Possible(s, es)
    ensures Counted(After(s, es).world.hook, save, seconds + Seconds(es, save))
    decreases |es|
  {
    if es != [] {
      StepCounts(s, es[0], save, seconds);
      RunCounts(Step(s, es[0]), es[1..], save, seconds + if es[0] == Tick(save) then 1 else 0);
    }
  }

  /**
   * The expiry of the newest save is asked for exactly once 600 seconds were counted, all of them
   * since that save ended.
   */
  lemma {:induction false} ExpiryIsDueExactly(waitMs: nat, before: seq<Event>, since: seq<Event>)
    requires Possible(Initial(waitMs), before + since) && Possible(Initial(waitMs), before)
    requires var h := After(Initial(waitMs), before + since).world.hook;
      h.savedAt.Some? && !h.outlived && After(Initial(waitMs), before).world.hook.saves < h.saves
    ensures var h := After(Initial(waitMs), before + since).world.hook;
      && (Expiry(h.saves) in h.queue <==> Seconds(since, h.saves) == 600)
      && (h.saves in h.tickers <==> Seconds(since, h.saves) < 600)
  {
    var h := After(Initial(waitMs), before + since).world.hook;
    assert SandboxRuns.Inv(Initial(waitMs));
    InvKept(Initial(waitMs), before + since);
    RunCounts(Initial(waitMs), before + since, h.saves, 0);
    RunCounts(Initial(waitMs), before, h.saves, 0);
    SecondsOn(before, since, h.saves);
  }

  /**
   * A saved server leaves its save by an expiry exactly if that is the newest save's, and the server
   * is not outlived; and then it has run, saved, for 600 seconds since that save ended.
   */
  lemma {:induction false} GivesUpExactly(waitMs: nat, before: seq<Event>, since: seq<Event>)
    requires Possible(Initial(waitMs), before + since) && Possible(Initial(waitMs), before)
    requires var s := After(Initial(waitMs), before + since);
      && Enabled(s, Begin) && IsSaved(s) && s.world.hook.queue[0].Expiry?
      && After(Initial(waitMs), before).world.hook.saves < s.world.hook.saves
    ensures var s := After(Initial(waitMs), before + since);
      && (!IsSaved(Step(s, Begin)) <==> s.world.hook.queue[0].save == s.world.hook.saves && !s.world.hook.outlived)
      && (!IsSaved(Step(s, Begin)) ==> Seconds(since, s.world.hook.saves) == 600)
      && (IsSaved(Step(s, Begin)) ==>
          Step(s, Begin).world == s.world.(hook := s.world.hook.(queue := s.world.hook.queue[1..])))
  {
    var s := After(Initial(waitMs), before + since);
    assert SandboxRuns.Inv(Initial(waitMs));
    InvKept(Initial(waitMs), before + since);
    ExpiryBegins(s.world, s.now, s.world.hook.queue[0].save);
    if s.world.hook.queue[0].save == s.world.hook.saves && !s.world.hook.outlived {
      ExpiryIsDueExactly(waitMs, before, since);
    }
  }
}
