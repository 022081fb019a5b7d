/**
 * packages/core/src/mcp/sandbox-hook.ts: one mode at a time, in the order they came, each an
 * async handler. A handler is cut at its awaits: `Phase` says where the mode at work stands,
 * and each function below is one stretch between two awaits, which nothing interleaves with.
 *
 * `World` is the hook's variables with the two machines it drives; class `SandboxHook` holds
 * them as the program does and is proved against the functions on `World`.
 */
module SandboxHooks {
  import opened Options
  import F = SandboxFiles
  import H = HeldStops

  const SAVE_EXPIRY_MS: nat := 600_000

  datatype Work = Save(leavesRunning: bool) | Restore | Resume | Stop | Expiry(save: nat)

  /** The await the mode at work is at: `Closing` that of `filesClosed`, as its waiter `waiter`. */
  datatype Phase =
    | Idle
    | Closing(leavesRunning: bool, waiter: nat)
    | Saving(leavesRunning: bool)
    | Collecting
    | Restoring

  /** How `handlers.restore` settles: a save its state directory has moved on from is `Outlived`. */
  datatype Outcome = Done | Failed | Outlived

  /** `tickers` holds, for each save whose expiry is awaited, the seconds counted since. */
  datatype Hook = Hook(
    savedAt: Option<nat>,
    saves: nat,
    outlived: bool,
    stopAsked: bool,
    queue: seq<Work>,
    phase: Phase,
    waiters: nat,
    tickers: map<nat, nat>)

  datatype World = World(files: F.State, stop: H.State, hook: Hook)

  function Start(waitMs: nat): World {
    World(F.START, H.Start(waitMs), Hook(None, 0, false, false, [], Idle, 0, map[]))
  }

  /** `resume`: the promise it resolves ends every ticker that waits for the server to run on. */
  function RanOn(w: World): World {
    w.(files := F.Resumed(w.files), hook := w.hook.(savedAt := None, tickers := map[]))
  }

  /** `runOn`: after a save that failed or left the sandbox running. */
  function RunOn(w: World, now: nat): World {
    var t := RanOn(w);
    var u := t.(stop := H.Resumed(t.stop, now, t.files.saved.Some?));
    if w.hook.stopAsked
    then u.(hook := u.hook.(stopAsked := false), stop := H.WentOn(u.stop, H.Hook, now, u.files.saved.Some?))
    else u
  }

  /** What a restore does that was not refused as outlived, whether it failed or not. */
  function RunRestored(w: World): World {
    var t := RanOn(w.(hook := w.hook.(stopAsked := false)));
    t.(stop := H.Restored(t.stop))
  }

  function Queued(w: World, work: Work): World {
    w.(hook := w.hook.(queue := w.hook.queue + [work]))
  }

  function At(w: World, phase: Phase): World {
    w.(hook := w.hook.(phase := phase))
  }

  /** Whether the expiry of `save` gives up on it. */
  predicate Expires(h: Hook, save: nat) {
    h.savedAt.Some? && h.saves == save && !h.outlived
  }

  /** The queue's next work, up to its first await or its end. */
  function Begun(w: World, now: nat): World
    requires w.hook.phase == Idle && w.hook.queue != []
  {
    var work := w.hook.queue[0];
    var t := w.(hook := w.hook.(queue := w.hook.queue[1..]));
    match work
    case Save(leavesRunning) =>
      var waiter := t.hook.waiters;
      t.(files := F.Closing(F.Saved(t.files), waiter),
         hook := t.hook.(phase := Closing(leavesRunning, waiter), waiters := waiter + 1))
    case Restore => if t.hook.savedAt.None? then t else At(t, Restoring)
    case Resume => RunOn(t, now)
    case Stop =>
      if t.hook.savedAt.Some? then t.(hook := t.hook.(stopAsked := true))
      else t.(stop := H.WentOn(t.stop, H.Hook, now, t.files.saved.Some?))
    case Expiry(save) => if Expires(t.hook, save) then RunOn(t, now) else t
  }

  function FilesClosed(w: World): World
    requires w.hook.phase.Closing?
  {
    At(w, Saving(w.hook.phase.leavesRunning))
  }

  /** A save's end: it is the newest one, whose expiry a ticker counts to. */
  function SaveEnded(w: World, wall: nat): World {
    var save := w.hook.saves + 1;
    var tickers := if w.files.saved.Some? then w.hook.tickers[save := 0] else w.hook.tickers;
    w.(hook := w.hook.(savedAt := Some(wall), saves := save, tickers := tickers, phase := Idle))
  }

  function SaveFailed(w: World, now: nat): World {
    RunOn(At(w, Idle), now)
  }

  /** `handlers.save` settles. */
  function SaveSettled(w: World, ok: bool, now: nat, wall: nat): World
    requires w.hook.phase.Saving?
  {
    if !ok then SaveFailed(w, now)
    else if w.hook.phase.leavesRunning then SaveEnded(w, wall)
    else At(w, Collecting)
  }

  function CollectSettled(w: World, ok: bool, now: nat, wall: nat): World
    requires w.hook.phase.Collecting?
  {
    if ok then SaveEnded(w, wall) else SaveFailed(w, now)
  }

  function RestoreSettled(w: World, outcome: Outcome): World
    requires w.hook.phase.Restoring?
  {
    var t := At(w, Idle);
    if outcome == Outlived then t.(hook := t.hook.(outlived := true)) else RunRestored(t)
  }

  /** A second the server ran, saved, since `save`: the last one asks for its expiry. */
  function Ticked(w: World, save: nat): World
    requires save in w.hook.tickers
  {
    var seconds := w.hook.tickers[save] + 1;
    if seconds * 1000 < SAVE_EXPIRY_MS
    then w.(hook := w.hook.(tickers := w.hook.tickers[save := seconds]))
    else Queued(w.(hook := w.hook.(tickers := w.hook.tickers - {save})), Expiry(save))
  }

  /** Whether a save's wait for files has settled, and the server has not run on since. */
  predicate Settled(w: World) {
    || w.hook.savedAt.Some? || w.hook.phase.Saving? || w.hook.phase.Collecting?
    || (w.hook.phase.Closing? && w.hook.phase.waiter in w.files.released)
  }

  /** A save no expiry is coming for would wait for good. */
  predicate ExpiryComes(h: Hook) {
    h.outlived || h.saves in h.tickers || Expiry(h.saves) in h.queue
  }

  predicate HookInv(w: World) {
    var h := w.hook;
    && (w.files.saved.Some? <==> h.savedAt.Some? || h.phase.Closing? || h.phase.Saving? || h.phase.Collecting?)
    && (h.phase.Restoring? || h.stopAsked || h.tickers != map[] ==> h.savedAt.Some?)
    && (forall save <- h.tickers :: 1 <= save <= h.saves && h.tickers[save] * 1000 < SAVE_EXPIRY_MS)
    && (h.savedAt.Some? ==> ExpiryComes(h))
  }

  /** The one waiter of `filesClosed` there can be is the save at work's, while work runs. */
  predicate ClosingInv(w: World) {
    var f, h := w.files, w.hook;
    && (forall waiter <- f.released :: waiter < h.waiters)
    && (if h.phase.Closing? && h.phase.waiter !in f.released
        then f.closing == [h.phase.waiter] && f.holding > 0 && h.phase.waiter < h.waiters
        else f.closing == [])
    && (Settled(w) ==> f.holding == 0)
  }

  predicate Inv(w: World) {
    HookInv(w) && ClosingInv(w) && H.Inv(w.stop, w.files.saved.Some?)
  }

  /** What holds as the mode at work is about to run the server on, be it at its start or end. */
  predicate Leavable(w: World) {
    && w.hook.phase == Idle && w.files.closing == [] && H.Inv(w.stop, true)
    && (forall waiter <- w.files.released :: waiter < w.hook.waiters)
  }

  lemma {:induction false} RunOnKeeps(w: World, now: nat)
    requires Leavable(w)
    ensures Inv(RunOn(w, now)) && !RunOn(w, now).stop.held
  {
    H.ResumedKeeps(w.stop, now);
    H.WentOnKeeps(H.Resumed(w.stop, now, false), H.Hook, now);
  }

  lemma {:induction false} QueuedKeeps(w: World, work: Work)
    requires Inv(w)
    ensures Inv(Queued(w, work))
  {
    assert forall x <- w.hook.queue :: x in w.hook.queue + [work];
  }

  lemma {:induction false} SaveBegins(w: World, now: nat)
    requires Inv(w) && w.hook.phase == Idle && w.hook.queue != [] && w.hook.queue[0].Save?
    ensures Inv(Begun(w, now))
  {
    assert forall x <- w.hook.queue :: x == w.hook.queue[0] || x in w.hook.queue[1..];
  }

  lemma {:induction false} BegunKeeps(w: World, now: nat)
    requires Inv(w) && w.hook.phase == Idle && w.hook.queue != []
    ensures Inv(Begun(w, now))
  {
    var work := w.hook.queue[0];
    var t := w.(hook := w.hook.(queue := w.hook.queue[1..]));
    assert forall x <- w.hook.queue :: x == work || x in t.hook.queue;
    match work {
      case Save(_) => SaveBegins(w, now);
      case Restore =>
      case Resume => RunOnKeeps(t, now);
      case Stop => H.WentOnKeeps(w.stop, H.Hook, now);
      case Expiry(save) => RunOnKeeps(t, now);
    }
  }

  lemma {:induction false} FilesClosedKeeps(w: World)
    requires Inv(w) && w.hook.phase.Closing? && w.hook.phase.waiter in w.files.released
    ensures Inv(FilesClosed(w))
  {
  }

  lemma {:induction false} SaveEndedKeeps(w: World, wall: nat)
    requires Inv(w) && (w.hook.phase.Saving? || w.hook.phase.Collecting?)
    ensures Inv(SaveEnded(w, wall))
  {
  }

  lemma {:induction false} SaveSettledKeeps(w: World, ok: bool, now: nat, wall: nat)
    requires Inv(w)
    ensures w.hook.phase.Saving? ==> Inv(SaveSettled(w, ok, now, wall))
    ensures w.hook.phase.Collecting? ==> Inv(CollectSettled(w, ok, now, wall))
  {
    if w.hook.phase.Saving? || w.hook.phase.Collecting? {
      SaveEndedKeeps(w, wall);
      RunOnKeeps(At(w, Idle), now);
    }
  }

  lemma {:induction false} RestoreSettledKeeps(w: World, outcome: Outcome)
    requires Inv(w) && w.hook.phase.Restoring?
    ensures Inv(RestoreSettled(w, outcome))
  {
  }

  lemma {:induction false} TickedKeeps(w: World, save: nat)
    requires Inv(w) && save in w.hook.tickers
    ensures Inv(Ticked(w, save))
  {
    assert forall x <- w.hook.queue :: x in w.hook.queue + [Expiry(save)];
    assert Expiry(save) in w.hook.queue + [Expiry(save)];
  }

  /** No work starts while the server is saved: what a save waited for stays so. */
  lemma {:induction false} EnteredKeeps(w: World, work: nat, stoppable: bool)
    requires Inv(w)
    ensures Inv(w.(files := F.Entered(w.files, work, stoppable)))
  {
  }

  class SandboxHook {
    const files: F.Sandbox
    const stop: H.HeldStop
    var savedAt: Option<nat>
    var saves: nat
    var outlived: bool
    var stopAsked: bool
    var queue: seq<Work>
    var phase: Phase
    var waiters: nat
    var tickers: map<nat, nat>

    function Now(): World
      reads this, files, stop
    {
      World(files.Now(), stop.Now(), Hook(savedAt, saves, outlived, stopAsked, queue, phase, waiters, tickers))
    }

    constructor (files: F.Sandbox, stop: H.HeldStop)
      requires files.Now() == F.START && stop.Now() == H.Start(stop.waitMs)
      ensures this.files == files && this.stop == stop && Now() == Start(stop.waitMs)
    {
      this.files, this.stop := files, stop;
      savedAt, saves, outlived, stopAsked := None, 0, false, false;
      queue, phase, waiters, tickers := [], Idle, 0, map[];
    }

    method Queue(work: Work)
      modifies this
      ensures Now() == Queued(old(Now()), work)
    {
      queue := queue + [work];
    }

    method RunsAgain()
      modifies this, files
      ensures Now() == RanOn(old(Now()))
    {
      savedAt := None;
      files.MarkResumed();
      tickers := map[];
    }

    method RunsOn(now: nat)
      modifies this, files, stop
      ensures Now() == RunOn(old(Now()), now)
    {
      RunsAgain();
      stop.Resume(now, files.saved.Some?);
      if stopAsked {
        stopAsked := false;
        stop.GoOn(H.Hook, now, files.saved.Some?);
      }
    }

    method Begin(now: nat)
      requires phase == Idle && queue != []
      modifies this, files, stop
      ensures Now() == Begun(old(Now()), now)
    {
      var work := queue[0];
      queue := queue[1..];
      match work {
        case Save(leavesRunning) =>
          files.MarkSaved();
          files.FilesClosed(waiters);
          phase := Closing(leavesRunning, waiters);
          waiters := waiters + 1;
        case Restore =>
          if savedAt.Some? { phase := Restoring; }
        case Resume =>
          RunsOn(now);
        case Stop =>
          if savedAt.Some? { stopAsked := true; }
          else { stop.GoOn(H.Hook, now, files.saved.Some?); }
        case Expiry(save) =>
          if savedAt.None? || saves != save || outlived { return; }
          RunsOn(now);
      }
    }

    method OnFilesClosed()
      requires phase.Closing?
      modifies this
      ensures Now() == FilesClosed(old(Now()))
    {
      phase := Saving(phase.leavesRunning);
    }

    method EndSave(wall: nat)
      modifies this
      ensures Now() == SaveEnded(old(Now()), wall)
    {
      savedAt := Some(wall);
      saves := saves + 1;
      if files.saved.Some? { tickers := tickers[saves := 0]; }
      phase := Idle;
    }

    method FailSave(now: nat)
      modifies this, files, stop
      ensures Now() == SaveFailed(old(Now()), now)
    {
      phase := Idle;
      RunsOn(now);
    }

    method OnSave(ok: bool, now: nat, wall: nat)
      requires phase.Saving?
      modifies this, files, stop
      ensures Now() == SaveSettled(old(Now()), ok, now, wall)
    {
      if !ok { FailSave(now); }
      else if phase.leavesRunning { EndSave(wall); }
      else { phase := Collecting; }
    }

    method OnCollect(ok: bool, now: nat, wall: nat)
      requires phase.Collecting?
      modifies this, files, stop
      ensures Now() == CollectSettled(old(Now()), ok, now, wall)
    {
      if ok { EndSave(wall); } else { FailSave(now); }
    }

    method OnRestore(outcome: Outcome)
      requires phase.Restoring?
      modifies this, files, stop
      ensures Now() == RestoreSettled(old(Now()), outcome)
    {
      phase := Idle;
      if outcome == Outlived {
        outlived := true;
        return;
      }
      stopAsked := false;
      RunsAgain();
      stop.Restore();
    }

    method OnTick(save: nat)
      requires save in tickers
      modifies this
      ensures Now() == Ticked(old(Now()), save)
    {
      var seconds := tickers[save] + 1;
      tickers := tickers[save := seconds];
      if seconds * 1000 < SAVE_EXPIRY_MS { return; }
      tickers := tickers - {save};
      Queue(Expiry(save));
    }
  }
}
