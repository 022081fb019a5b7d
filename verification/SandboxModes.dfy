/**
 * The modes of the sandbox's hook (packages/core/src/mcp/sandbox-hook.ts:116-120, 178-261) over whole
 * runs: they begin in the order they were asked for, and a save ends by what it was asked to be.
 */
module SandboxModes {
  import opened Options
  import opened SandboxHooks
  import opened SandboxRuns

  /** The modes of a queue, which expiries are none of. */
  function Modes(queue: seq<Work>): seq<Work> {
    if queue == [] then [] else (if queue[0].Expiry? then [] else [queue[0]]) + Modes(queue[1..])
  }

  /** The modes asked for in a run, and those begun in it, in order. */
  function Asked(es: seq<Event>): seq<Work> {
    if es == [] then [] else Asked(es[..|es| - 1]) + if es[|es| - 1].Ask? then [es[|es| - 1].request] else []
  }

  function BegunIn(s: System, es: seq<Event>): seq<Work>
    requires Possible(s, es)
    decreases |es|
  {
    if es == [] then [] else BegunAt(s, es[0]) + BegunIn(Step(s, es[0]), es[1..])
  }

  function BegunAt(s: System, e: Event): seq<Work> {
    if e == Begin && s.world.hook.queue != [] && !s.world.hook.queue[0].Expiry? then [s.world.hook.queue[0]] else []
  }

  function AskedAt(e: Event): seq<Work> {
    if e.Ask? then [e.request] else []
  }

  lemma {:induction false} AskedFirst(es: seq<Event>)
    requires es != []
    ensures Asked(es) == AskedAt(es[0]) + Asked(es[1..])
  {
    var last := |es| - 1;
    if last > 0 {
      AskedFirst(es[..last]);
      assert es[..last][1..] == es[1..][..last - 1];
    } else {
      assert es[..0] == [] && es[1..] == [];
    }
  }

  lemma {:induction false} ModesOn(queue: seq<Work>, work: Work)
    ensures Modes(queue + [work]) == Modes(queue) + if work.Expiry? then [] else [work]
  {
    if queue == [] {
      assert queue + [work] == [work] && [work][1..] == [];
    } else {
      ModesOn(queue[1..], work);
      FirstThenOn(queue, work);
      Reassociate(if queue[0].Expiry? then [] else [queue[0]], Modes(queue[1..]), if work.Expiry? then [] else [work]);
    }
  }

  lemma {:induction false} FirstThenOn(queue: seq<Work>, work: Work)
    requires queue != []
    ensures (queue + [work])[0] == queue[0] && (queue + [work])[1..] == queue[1..] + [work]
  {
  }

  lemma {:induction false} BeginTakesFirst(s: System)
    requires Enabled(s, Begin)
    ensures Step(s, Begin).world.hook.queue == s.world.hook.queue[1..]
  {
  }

  lemma {:induction false} TickMayAsk(s: System, save: nat)
    requires Enabled(s, Tick(save))
    ensures Modes(Step(s, Tick(save)).world.hook.queue) == Modes(s.world.hook.queue)
  {
    ModesOn(s.world.hook.queue, Expiry(save));
  }

  lemma {:induction false} OthersLeaveQueue(s: System, e: Event)
    requires Enabled(s, e) && !e.Ask? && !e.Begin? && !e.Tick?
    ensures Step(s, e).world.hook.queue == s.world.hook.queue
  {
  }

  lemma {:induction false} StepServes(s: System, e: Event)
    requires Enabled(s, e)
    ensures BegunAt(s, e) + Modes(Step(s, e).world.hook.queue) == Modes(s.world.hook.queue) + AskedAt(e)
  {
    match e {
      case Ask(request) => ModesOn(s.world.hook.queue, request);
      case Tick(save) => TickMayAsk(s, save);
      case Begin => BeginTakesFirst(s);
      case _ => OthersLeaveQueue(s, e);
    }
  }

  lemma {:induction false} Reassociate(a: seq<Work>, b: seq<Work>, c: seq<Work>)
    ensures (a + b) + c == a + (b + c)
  {
  }

  /**
   * The modes begun are those asked for, first come, first served: what was begun and what still
   * waits is what was asked.
   */
  lemma {:induction false} FirstComeFirstServed(s: System, es: seq<Event>)
    requires Possible(s, es)
    ensures BegunIn(s, es) + Modes(After(s, es).world.hook.queue) == Modes(s.world.hook.queue) + Asked(es)
    decreases |es|
  {
    if es != [] {
      var t := Step(s, es[0]);
      StepServes(s, es[0]);
      FirstComeFirstServed(t, es[1..]);
      AskedFirst(es);
      Reassociate(BegunAt(s, es[0]), BegunIn(t, es[1..]), Modes(After(s, es).world.hook.queue));
      Reassociate(BegunAt(s, es[0]), Modes(t.world.hook.queue), Asked(es[1..]));
      Reassociate(Modes(s.world.hook.queue), AskedAt(es[0]), Asked(es[1..]));
    }
  }

  /** Whether a save asked to leave the sandbox running, or not, is at its wait for files, or at its handler. */
  predicate Saves(h: Hook, leavesRunning: bool) {
    h.phase == Saving(leavesRunning) || (h.phase.Closing? && h.phase.leavesRunning == leavesRunning)
  }

  lemma {:induction false} SavesOn(s: System, es: seq<Event>, leavesRunning: bool)
    requires Possible(s, es) && Saves(s.world.hook, leavesRunning) && !exists e <- es :: e.SaveSettles?
    ensures Saves(After(s, es).world.hook, leavesRunning)
    decreases |es|
  {
    if es != [] {
      assert es == [es[0]] + es[1..];
      SavesOn(Step(s, es[0]), es[1..], leavesRunning);
    }
  }

  /**
   * A save that its handler caught collects garbage exactly if it is to end the sandbox, whatever
   * happens meanwhile; one that leaves it running is ended there.
   */
  lemma {:induction false} CollectsExactly(s: System, es: seq<Event>, leavesRunning: bool, wall: nat)
    requires Possible(s, [Begin] + es) && s.world.hook.queue[0] == Save(leavesRunning)
    requires !exists e <- es :: e.SaveSettles?
    requires Enabled(After(s, [Begin] + es), SaveSettles(true, wall))
    ensures var t := After(s, [Begin] + es);
      var h := Step(t, SaveSettles(true, wall)).world.hook;
      && (h.phase == Collecting <==> !leavesRunning)
      && h.saves == t.world.hook.saves + (if leavesRunning then 1 else 0)
      && (leavesRunning ==> h.phase == Idle && h.savedAt == Some(wall))
  {
    assert ([Begin] + es)[1..] == es;
    SavesOn(Step(s, Begin), es, leavesRunning);
  }
}
