/**
 * The hook, the held stop and the work that holds files open as one transition system: every
 * request, handler outcome, timer, SIGTERM and piece of work may come at any point between two
 * awaits. The theorems are about every run of it.
 */
module SandboxRuns {
  import opened Options
  import F = SandboxFiles
  import H = HeldStops
  import opened SandboxHooks

  /** A piece of work of `holdingFiles`: at its await of the promise, or running. */
  datatype Worker = Waiting(promise: nat, stoppable: bool) | Running(stoppable: bool)

  datatype System = System(world: World, workers: map<nat, Worker>, arrived: nat, now: nat)

  datatype Event =
    | Ask(request: Work)
    | Begin
    | FilesClose
    | SaveSettles(ok: bool, wall: nat)
    | CollectSettles(ok: bool, wall: nat)
    | RestoreSettles(outcome: Outcome)
    | Tick(save: nat)
    | Sigterm
    | WaitFires
    | Arrive(stoppable: bool)
    | Wake(work: nat)
    | End(work: nat)
    | Pass(ms: nat)

  function Initial(waitMs: nat): System {
    System(Start(waitMs), map[], 0, 0)
  }

  predicate Enabled(s: System, e: Event) {
    var h := s.world.hook;
    match e
    case Ask(request) => !request.Expiry?
    case Begin => h.phase == Idle && h.queue != []
    case FilesClose => h.phase.Closing? && h.phase.waiter in s.world.files.released
    case SaveSettles(_, _) => h.phase.Saving?
    case CollectSettles(_, _) => h.phase.Collecting?
    case RestoreSettles(_) => h.phase.Restoring?
    case Tick(save) => save in h.tickers
    case WaitFires => s.world.stop.timer.Some? && s.world.stop.timer.value <= s.now
    case Wake(work) =>
      work in s.workers && s.workers[work].Waiting? && s.world.files.saved != Some(s.workers[work].promise)
    case End(work) => work in s.workers && s.workers[work].Running? && s.world.files.holding > 0
    case _ => true
  }

  /** Work tries to start: `holdingFiles` looks at `saved` as it comes and each time it is woken. */
  function Tries(s: System, work: nat, stoppable: bool): System {
    var files := s.world.files;
    var phase := if files.saved.Some? then Waiting(files.saved.value, stoppable) else Running(stoppable);
    s.(world := s.world.(files := F.Entered(files, work, stoppable)), workers := s.workers[work := phase])
  }

  function Step(s: System, e: Event): System
    requires Enabled(s, e)
  {
    var w := s.world;
    match e
    case Ask(request) => s.(world := Queued(w, request))
    case Begin => s.(world := Begun(w, s.now))
    case FilesClose => s.(world := FilesClosed(w))
    case SaveSettles(ok, wall) => s.(world := SaveSettled(w, ok, s.now, wall))
    case CollectSettles(ok, wall) => s.(world := CollectSettled(w, ok, s.now, wall))
    case RestoreSettles(outcome) => s.(world := RestoreSettled(w, outcome))
    case Tick(save) => s.(world := Ticked(w, save))
    case Sigterm => s.(world := w.(stop := H.Begun(w.stop, s.now, w.files.saved.Some?)))
    case WaitFires => s.(world := w.(stop := H.Waited(w.stop, s.now, w.files.saved.Some?)))
    case Arrive(stoppable) => Tries(s.(arrived := s.arrived + 1), s.arrived, stoppable)
    case Wake(work) => Tries(s, work, s.workers[work].stoppable)
    case End(work) => s.(world := w.(files := F.Left(w.files, work)), workers := s.workers - {work})
    case Pass(ms) => s.(now := s.now + ms)
  }

  /** Whether `es` can happen, one after the other, from `s`. */
  predicate Possible(s: System, es: seq<Event>)
    decreases |es|
  {
    es == [] || (Enabled(s, es[0]) && Possible(Step(s, es[0]), es[1..]))
  }

  function After(s: System, es: seq<Event>): System
    requires Possible(s, es)
    decreases |es|
  {
    if es == [] then s else After(Step(s, es[0]), es[1..])
  }

  function RunningWork(workers: map<nat, Worker>): set<nat> {
    set work | work in workers && workers[work].Running?
  }

  function StoppableWork(workers: map<nat, Worker>): set<nat> {
    set work | work in workers && workers[work] == Running(true)
  }

  predicate IsSaved(s: System) {
    s.world.files.saved.Some?
  }

  /** What the count of the work that holds files open keeps, and what a save asks of it. */
  predicate WorkInv(f: F.State, workers: map<nat, Worker>, arrived: nat) {
    && f.holding == |RunningWork(workers)|
    && f.stopping == StoppableWork(workers)
    && (f.saved.Some? ==> f.stopping <= f.told && f.saved.value < f.promises)
    && (forall work <- workers :: work < arrived)
  }

  predicate Inv(s: System) {
    SandboxHooks.Inv(s.world) && WorkInv(s.world.files, s.workers, s.arrived)
  }

  /** The hook changes what holds files open in three ways only. */
  lemma {:induction false} HookChanges(s: System, e: Event)
    requires Enabled(s, e) && !e.Arrive? && !e.Wake? && !e.End?
    ensures var f, g := s.world.files, Step(s, e).world.files;
      g == f || g == F.Resumed(f) || g == F.Closing(F.Saved(f), s.world.hook.waiters)
    ensures Step(s, e).workers == s.workers && Step(s, e).arrived == s.arrived
  {
  }

  lemma {:induction false} HookKeepsWork(f: F.State, waiter: nat, workers: map<nat, Worker>, arrived: nat)
    requires WorkInv(f, workers, arrived)
    ensures WorkInv(F.Resumed(f), workers, arrived)
    ensures WorkInv(F.Closing(F.Saved(f), waiter), workers, arrived)
  {
  }

  lemma {:induction false} WorkPut(workers: map<nat, Worker>, work: nat, phase: Worker)
    requires work in workers ==> workers[work].Waiting?
    ensures var more := workers[work := phase];
      && RunningWork(more) == RunningWork(workers) + (if phase.Running? then {work} else {})
      && StoppableWork(more) == StoppableWork(workers) + (if phase == Running(true) then {work} else {})
      && work !in RunningWork(workers)
  {
  }

  lemma {:induction false} WorkTaken(workers: map<nat, Worker>, work: nat)
    requires work in workers && workers[work].Running?
    ensures RunningWork(workers - {work}) == RunningWork(workers) - {work}
    ensures StoppableWork(workers - {work}) == StoppableWork(workers) - {work}
    ensures work in RunningWork(workers)
  {
  }

  lemma {:induction false} TriesKeeps(s: System, work: nat, stoppable: bool)
    requires Inv(s) && work < s.arrived
    requires work in s.workers ==> s.workers[work].Waiting?
    ensures Inv(Tries(s, work, stoppable))
  {
    EnteredKeeps(s.world, work, stoppable);
    var phase := Tries(s, work, stoppable).workers[work];
    WorkPut(s.workers, work, phase);
  }

  lemma {:induction false} EndKeeps(s: System, work: nat)
    requires Inv(s) && Enabled(s, End(work))
    ensures Inv(Step(s, End(work)))
  {
    WorkTaken(s.workers, work);
  }

  /** Every step but those of the work that holds files open keeps what the hook does. */
  lemma {:induction false} HookStepKeeps(s: System, e: Event)
    requires SandboxHooks.Inv(s.world) && Enabled(s, e) && !e.Arrive? && !e.Wake? && !e.End?
    ensures SandboxHooks.Inv(Step(s, e).world)
  {
    var w := s.world;
    match e {
      case Ask(request) => QueuedKeeps(w, request);
      case Begin => BegunKeeps(w, s.now);
      case FilesClose => FilesClosedKeeps(w);
      case SaveSettles(ok, wall) => SaveSettledKeeps(w, ok, s.now, wall);
      case CollectSettles(ok, wall) => SaveSettledKeeps(w, ok, s.now, wall);
      case RestoreSettles(outcome) => RestoreSettledKeeps(w, outcome);
      case Tick(save) => TickedKeeps(w, save);
      case Sigterm => H.BegunKeeps(w.stop, s.now, IsSaved(s));
      case WaitFires => H.WaitedKeeps(w.stop, s.now, IsSaved(s));
      case Pass(_) =>
    }
  }

  lemma {:induction false} StepKeeps(s: System, e: Event)
    requires Inv(s) && Enabled(s, e)
    ensures Inv(Step(s, e))
  {
    match e {
      case Arrive(stoppable) =>
        assert Inv(s.(arrived := s.arrived + 1));
        TriesKeeps(s.(arrived := s.arrived + 1), s.arrived, stoppable);
      case Wake(work) => TriesKeeps(s, work, s.workers[work].stoppable);
      case End(work) => EndKeeps(s, work);
      case _ =>
        HookStepKeeps(s, e);
        HookChanges(s, e);
        HookKeepsWork(s.world.files, s.world.hook.waiters, s.workers, s.arrived);
    }
  }

  /** Whether `e` is an outcome a request has the server run on with: a resume, a save that
      fails, or a restore that is not refused as outlived. */
  predicate Requested(s: System, e: Event) {
    match e
    case Begin => s.world.hook.queue != [] && s.world.hook.queue[0] == Resume
    case SaveSettles(ok, _) => !ok
    case CollectSettles(ok, _) => !ok
    case RestoreSettles(outcome) => outcome != Outlived
    case _ => false
  }

  /** Whether `e` gives up on the newest save, that neither a restore nor a resume followed. */
  predicate GivesUp(s: System, e: Event) {
    var h := s.world.hook;
    e == Begin && h.queue != [] && h.queue[0] == Expiry(h.saves) && !h.outlived
  }

  /** Whether `s` stays saved through every step of `es`. */
  predicate StaysSaved(s: System, es: seq<Event>)
    requires Possible(s, es)
    decreases |es|
  {
    IsSaved(s) && (es == [] || StaysSaved(Step(s, es[0]), es[1..]))
  }

  /** Whether no step of `es` is one `p` is of. */
  predicate Never(s: System, es: seq<Event>, p: (System, Event) -> bool)
    requires Possible(s, es)
    decreases |es|
  {
    es == [] || (!p(s, es[0]) && Never(Step(s, es[0]), es[1..], p))
  }

  /** A saved server leaves the save at exactly the steps that are asked to, or give up on it. */
  lemma {:induction false} LeavesExactly(s: System, e: Event)
    requires Inv(s) && Enabled(s, e) && IsSaved(s)
    ensures IsSaved(Step(s, e)) <==> !Requested(s, e) && !GivesUp(s, e)
    ensures s.world.hook.outlived ==> Step(s, e).world.hook.outlived && !GivesUp(s, e)
  {
  }

  /**
   * No held stop is stranded as the server leaves a save: a restore lets it go, and drops one
   * asked or armed before; anything else goes on with it, with the server running, and where
   * none was held has a stop asked meanwhile arm the next SIGTERM within the wait.
   */
  lemma {:induction false} LeavingResolvesStops(s: System, e: Event)
    requires Inv(s) && Enabled(s, e) && IsSaved(s) && !IsSaved(Step(s, e))
    ensures var h, before, after := s.world.hook, s.world.stop, Step(s, e).world.stop;
      && !after.held && !Step(s, e).world.hook.stopAsked
      && if e.RestoreSettles?
         then after.calls == before.calls && after.armedUntil.None?
              && after.releases == before.releases + if before.held then 1 else 0
         else after.calls == before.calls + (if before.held then [H.Call(H.Hook, false)] else [])
              && after.releases == before.releases
              && after.armedUntil == if h.stopAsked && before.waitMs > 0 then Some(s.now + before.waitMs) else None
  {
    LeavesExactly(s, e);
  }

  /** A stop asked while saved, once the server runs on: the SIGTERM that follows within the wait stops it. */
  lemma {:induction false} AskedStopTakesNextSigterm(s: System, e: Event, ms: nat)
    requires Inv(s) && Enabled(s, e) && IsSaved(s) && !IsSaved(Step(s, e))
    requires s.world.hook.stopAsked && !e.RestoreSettles? && ms <= s.world.stop.waitMs
    ensures Possible(s, [e, Pass(ms), Sigterm])
    ensures var calls := After(s, [e, Pass(ms), Sigterm]).world.stop.calls;
      |calls| > |s.world.stop.calls| && calls[|calls| - 1] == H.Call(H.Sigterm, false)
  {
    LeavingResolvesStops(s, e);
    var t := Step(s, e);
    var u := Step(t, Pass(ms));
    StepKeeps(s, e);
    Runs(u, Sigterm, []);
    Runs(t, Pass(ms), [Sigterm]);
    Runs(s, e, [Pass(ms), Sigterm]);
    assert [e] + [Pass(ms), Sigterm] == [e, Pass(ms), Sigterm] && [Pass(ms)] + [Sigterm] == [Pass(ms), Sigterm];
    assert [Sigterm] + [] == [Sigterm];
  }

  lemma {:induction false} InvKept(s: System, es: seq<Event>)
    requires Inv(s) && Possible(s, es)
    ensures Inv(After(s, es))
    decreases |es|
  {
    if es != [] {
      StepKeeps(s, es[0]);
      InvKept(Step(s, es[0]), es[1..]);
    }
  }

  /** What holds in every state of every run of the server. */
  lemma {:induction false} EveryReachableState(waitMs: nat, es: seq<Event>)
    requires Possible(Initial(waitMs), es)
    ensures var s := After(Initial(waitMs), es);
      var h, f, stop := s.world.hook, s.world.files, s.world.stop;
      // A held stop's timer is armed, or a save decides: none is stranded, none resolved twice.
      && (stop.held ==> stop.timer.Some? || IsSaved(s))
      && stop.holds == stop.releases + H.Went(stop.calls) + (if stop.held then 1 else 0)
      // Only SIGTERM itself stops a saved server.
      && (forall call <- stop.calls :: call.whileSaved ==> call.cause == H.Sigterm)
      // Between two modes, the server is saved exactly while `savedAtMs` is set.
      && (h.phase == Idle ==> (IsSaved(s) <==> h.savedAt.Some?))
      && (h.stopAsked ==> IsSaved(s))
      // No save is left waiting: its expiry is counted to or asked for, but for an outlived one.
      && (h.savedAt.Some? ==> h.outlived || h.saves in h.tickers || Expiry(h.saves) in h.queue)
      // No work holds files open once a save's wait settled; every waiter is released at zero.
      && (Settled(s.world) ==> RunningWork(s.workers) == {})
      && (RunningWork(s.workers) == {} ==> f.closing == [])
      // A save asked every piece of work that still runs to stop, where it can.
      && (IsSaved(s) ==> forall work <- s.workers :: s.workers[work] == Running(true) ==> work in f.told)
  {
    var s := After(Initial(waitMs), es);
    assert Inv(Initial(waitMs));
    InvKept(Initial(waitMs), es);
    assert forall work <- s.workers :: s.workers[work] == Running(true) ==> work in StoppableWork(s.workers);
  }

  /** From where a save's wait for files settled until the server runs on, no such work runs. */
  lemma {:induction false} QuietUntilRunOn(s: System, es: seq<Event>)
    requires Inv(s) && Settled(s.world) && Possible(s, es) && StaysSaved(s, es)
    ensures Settled(After(s, es).world) && RunningWork(After(s, es).workers) == {}
    ensures After(s, es).world.files.saved == s.world.files.saved
    decreases |es|
  {
    if es != [] {
      StepKeeps(s, es[0]);
      StaysSettled(s, es[0]);
      QuietUntilRunOn(Step(s, es[0]), es[1..]);
    }
  }

  lemma {:induction false} StaysSettled(s: System, e: Event)
    requires Inv(s) && Settled(s.world) && Enabled(s, e) && IsSaved(Step(s, e))
    ensures Settled(Step(s, e).world) && Step(s, e).world.files.saved == s.world.files.saved
  {
  }

  /** A run stays saved exactly where no step of it is asked to run on or gives up on the save. */
  lemma {:induction false} SavedRunsExactly(s: System, es: seq<Event>)
    requires Inv(s) && IsSaved(s) && Possible(s, es)
    ensures StaysSaved(s, es) <==> Never(s, es, Requested) && Never(s, es, GivesUp)
    ensures s.world.hook.outlived ==> (StaysSaved(s, es) <==> Never(s, es, Requested))
    decreases |es|
  {
    if es != [] {
      StepKeeps(s, es[0]);
      LeavesExactly(s, es[0]);
      if IsSaved(Step(s, es[0])) {
        SavedRunsExactly(Step(s, es[0]), es[1..]);
      }
    }
  }

  /**
   * A server saved, with nothing at work or queued: refused as outlived as it is restored, and then
   * asked to resume.
   */
  lemma {:induction false} ResumesOutlived(s: System)
    requires s.world.hook.phase == Idle && s.world.hook.queue == [] && s.world.hook.savedAt.Some?
    ensures var es := [Ask(Restore), Begin, RestoreSettles(Outlived), Ask(Resume), Begin];
      Possible(s, es) && After(s, es).world.hook.outlived && !IsSaved(After(s, es))
  {
    var s1 := Step(s, Ask(Restore));
    var s2 := Step(s1, Begin);
    var s3 := Step(s2, RestoreSettles(Outlived));
    var s4 := Step(s3, Ask(Resume));
    Runs(s4, Begin, []);
    Runs(s3, Ask(Resume), [Begin]);
    Runs(s2, RestoreSettles(Outlived), [Ask(Resume), Begin]);
    Runs(s1, Begin, [RestoreSettles(Outlived), Ask(Resume), Begin]);
    Runs(s, Ask(Restore), [Begin, RestoreSettles(Outlived), Ask(Resume), Begin]);
  }

  lemma {:induction false} SavesAtFirst(waitMs: nat, wall: nat)
    ensures var es := [Ask(Save(true)), Begin, FilesClose, SaveSettles(true, wall)];
      && Possible(Initial(waitMs), es)
      && var h := After(Initial(waitMs), es).world.hook; h.phase == Idle && h.queue == [] && h.savedAt.Some?
  {
    var s0 := Initial(waitMs);
    var s1 := Step(s0, Ask(Save(true)));
    var s2 := Step(s1, Begin);
    var s3 := Step(s2, FilesClose);
    Runs(s3, SaveSettles(true, wall), []);
    Runs(s2, FilesClose, [SaveSettles(true, wall)]);
    Runs(s1, Begin, [FilesClose, SaveSettles(true, wall)]);
    Runs(s0, Ask(Save(true)), [Begin, FilesClose, SaveSettles(true, wall)]);
  }

  /**
   * A server restored from an outlived save does not stay saved whatever is asked of it: a
   * resume has it run on, as the refused restore guards the expiry alone.
   */
  lemma {:induction false} OutlivedServerResumes(waitMs: nat, wall: nat)
    ensures var es := [Ask(Save(true)), Begin, FilesClose, SaveSettles(true, wall)]
                      + [Ask(Restore), Begin, RestoreSettles(Outlived), Ask(Resume), Begin];
      && Possible(Initial(waitMs), es)
      && After(Initial(waitMs), es).world.hook.outlived
      && !IsSaved(After(Initial(waitMs), es))
  {
    var before := [Ask(Save(true)), Begin, FilesClose, SaveSettles(true, wall)];
    SavesAtFirst(waitMs, wall);
    ResumesOutlived(After(Initial(waitMs), before));
    RunsJoin(Initial(waitMs), before, [Ask(Restore), Begin, RestoreSettles(Outlived), Ask(Resume), Begin]);
  }

  lemma {:induction false} RunsJoin(s: System, before: seq<Event>, since: seq<Event>)
    requires Possible(s, before) && Possible(After(s, before), since)
    ensures Possible(s, before + since) && After(s, before + since) == After(After(s, before), since)
    decreases |before|
  {
    if before == [] {
      assert before + since == since;
    } else {
      assert (before + since)[1..] == before[1..] + since;
      RunsJoin(Step(s, before[0]), before[1..], since);
    }
  }

  /** A run that goes on is its beginning, and what comes after it from there. */
  lemma {:induction false} RunGoesOn(s: System, before: seq<Event>, since: seq<Event>)
    requires Possible(s, before + since)
    ensures Possible(s, before) && Possible(After(s, before), since)
    ensures After(s, before + since) == After(After(s, before), since)
    decreases |before|
  {
    if before == [] {
      assert before + since == since;
    } else {
      assert (before + since)[1..] == before[1..] + since;
      RunGoesOn(Step(s, before[0]), before[1..], since);
    }
  }

  lemma {:induction false} Runs(s: System, e: Event, es: seq<Event>)
    requires Enabled(s, e) && Possible(Step(s, e), es)
    ensures Possible(s, [e] + es) && After(s, [e] + es) == After(Step(s, e), es)
  {
    assert ([e] + es)[1..] == es;
  }
}
