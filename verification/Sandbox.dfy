/**
 * What packages/core/src/sandbox.ts keeps of a save of the sandbox: whether the server is
 * saved, and how many pieces of work hold files open, which a save waits out.
 *
 * `State` and the functions on it are the specification; class `Sandbox` updates the
 * module's variables in place and is proved against them.
 */
module SandboxFiles {
  import opened Options

  /**
   * `saved` names the promise that resolves as the server runs on: the `saves`-th one made.
   * `told` is every piece of work a save asked to stop. A waiter of `filesClosed` stays in
   * `closing` until its promise resolves, which puts it in `released`.
   */
  datatype State = State(
    saved: Option<nat>,
    promises: nat,
    holding: nat,
    stopping: set<nat>,
    told: set<nat>,
    closing: seq<nat>,
    released: set<nat>)

  const START := State(None, 0, 0, {}, {}, [], {})

  function Saved(s: State): State {
    if s.saved.Some? then s
    else s.(saved := Some(s.promises), promises := s.promises + 1, told := s.told + s.stopping)
  }

  function Resumed(s: State): State {
    s.(saved := None)
  }

  /** Work passes the `while (saved)` of `holdingFiles` and runs, or awaits the promise there. */
  function Entered(s: State, work: nat, stoppable: bool): State {
    if s.saved.Some? then s
    else s.(holding := s.holding + 1, stopping := s.stopping + if stoppable then {work} else {})
  }

  function Left(s: State, work: nat): State
    requires s.holding > 0
  {
    var t := s.(holding := s.holding - 1, stopping := s.stopping - {work});
    if t.holding == 0
    then t.(closing := [], released := t.released + set w | w in t.closing)
    else t
  }

  /** A waiter of `filesClosed`: resolved at once where no work runs. */
  function Closing(s: State, waiter: nat): State {
    if s.holding == 0 then s.(released := s.released + {waiter})
    else s.(closing := s.closing + [waiter])
  }

  class Sandbox {
    var saved: Option<nat>
    var promises: nat
    var holding: nat
    var stopping: set<nat>
    var told: set<nat>
    var closing: seq<nat>
    var released: set<nat>

    function Now(): State
      reads this
    {
      State(saved, promises, holding, stopping, told, closing, released)
    }

    constructor ()
      ensures Now() == START
    {
      saved, promises, holding := None, 0, 0;
      stopping, told, closing, released := {}, {}, [], {};
    }

    method MarkSaved()
      modifies this
      ensures Now() == Saved(old(Now()))
    {
      if saved.Some? { return; }
      saved := Some(promises);
      promises := promises + 1;
      var rest := stopping;
      while rest != {}
        invariant rest <= stopping
        invariant told == old(told) + (stopping - rest)
        invariant Now() == old(Now()).(saved := Some(old(promises)), promises := old(promises) + 1, told := told)
      {
        var work :| work in rest;
        told := told + {work};
        rest := rest - {work};
      }
      assert stopping - rest == stopping;
    }

    method MarkResumed()
      modifies this
      ensures Now() == Resumed(old(Now()))
    {
      saved := None;
    }

    /** One pass of `holdingFiles` up to its await, or into the work. */
    method Enter(work: nat, stoppable: bool) returns (runs: bool)
      modifies this
      ensures Now() == Entered(old(Now()), work, stoppable)
      ensures runs == old(saved).None?
    {
      if saved.Some? { return false; }
      holding := holding + 1;
      if stoppable { stopping := stopping + {work}; }
      return true;
    }

    /** What `holdingFiles` does as its work settles, however it does. */
    method Leave(work: nat)
      requires holding > 0
      modifies this
      ensures Now() == Left(old(Now()), work)
    {
      stopping := stopping - {work};
      holding := holding - 1;
      if holding == 0 {
        var waiters := closing;
        closing := [];
        for i := 0 to |waiters|
          invariant released == old(released) + set w | w in waiters[..i]
          invariant Now() == old(Now()).(holding := 0, stopping := stopping, closing := [], released := released)
          invariant stopping == old(stopping) - {work}
        {
          released := released + {waiters[i]};
        }
        assert waiters[..|waiters|] == waiters;
      }
    }

    method FilesClosed(waiter: nat)
      modifies this
      ensures Now() == Closing(old(Now()), waiter)
    {
      if holding == 0 { released := released + {waiter}; }
      else { closing := closing + [waiter]; }
    }
  }
}
