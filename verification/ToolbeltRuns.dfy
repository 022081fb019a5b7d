/**
 * How one install of the toolbelt ends, in any run of any number of them
 * (packages/core/src/runtime/toolbelt.ts:205-242), by what was done in it.
 */
module ToolbeltRuns {
  import opened Options
  import opened Toolbelts

  /** Whether a step renames an install's own copy into place. */
  predicate Renames(s: System, e: Event, i: nat) {
    e == Go(i) && i in s.installs && s.installs[i].phase.Renaming?
  }

  predicate RenamesIn(s: System, es: seq<Event>, i: nat)
    requires Possible(s, es)
    decreases |es|
  {
    es != [] && (Renames(s, es[0], i) || RenamesIn(Step(s, es[0]), es[1..], i))
  }

  /** What an install is to end as, by whether it failed, and whether it renamed its copy into place. */
  predicate EndsAs(phase: Phase, failed: bool, renamed: bool) {
    if phase.Cleaning? || phase.Unlocking? || phase.Done?
    then (phase.outcome == Threw <==> failed) && (phase.outcome == Installed <==> renamed)
    else !failed && !renamed
  }

  lemma {:induction false} GoingEndsAs(s: System, i: nat, failed: bool, renamed: bool)
    requires Enabled(s, Go(i)) && EndsAs(s.installs[i].phase, failed, renamed)
    ensures EndsAs(Gone(s, i).installs[i].phase, failed, renamed || Renames(s, Go(i), i))
  {
  }

  lemma {:induction false} FailingEndsAs(s: System, i: nat, failed: bool, renamed: bool)
    requires Enabled(s, Fail(i)) && EndsAs(s.installs[i].phase, failed, renamed)
    ensures EndsAs(Failed(s, i).installs[i].phase, true, renamed)
  {
  }

  lemma {:induction false} RemovingEndsAs(s: System, i: nat, name: Name, rest: Option<Tree>, failed: bool,
      renamed: bool)
    requires Enabled(s, Remove(i, name, rest)) && EndsAs(s.installs[i].phase, failed, renamed)
    ensures EndsAs(RemovedBy(s, i, name, rest).installs[i].phase, failed, renamed)
  {
  }

  lemma {:induction false} OthersLeaveInstall(s: System, e: Event, i: nat)
    requires Enabled(s, e) && i in s.installs && !Acts(e, i)
    ensures i in Step(s, e).installs && Step(s, e).installs[i] == s.installs[i]
  {
  }

  lemma {:induction false} StepEndsAs(s: System, e: Event, i: nat, failed: bool, renamed: bool)
    requires Enabled(s, e) && i in s.installs && e != Die(i) && EndsAs(s.installs[i].phase, failed, renamed)
    ensures i in Step(s, e).installs
    ensures EndsAs(Step(s, e).installs[i].phase, failed || e == Fail(i), renamed || Renames(s, e, i))
  {
    if !Acts(e, i) {
      OthersLeaveInstall(s, e, i);
    } else {
      match e
      case Go(_) => GoingEndsAs(s, i, failed, renamed);
      case Fail(_) => FailingEndsAs(s, i, failed, renamed);
      case Remove(_, name, rest) => RemovingEndsAs(s, i, name, rest, failed, renamed);
      case _ =>
    }
  }

  lemma {:induction false} RunEndsAs(s: System, es: seq<Event>, i: nat, failed: bool, renamed: bool)
    requires Possible(s, es) && i in s.installs && Die(i) !in es && EndsAs(s.installs[i].phase, failed, renamed)
    ensures i in After(s, es).installs
    ensures EndsAs(After(s, es).installs[i].phase, failed || Fail(i) in es, renamed || RenamesIn(s, es, i))
    decreases |es|
  {
    if es != [] {
      StepEndsAs(s, es[0], i, failed, renamed);
      RunEndsAs(Step(s, es[0]), es[1..], i, failed || es[0] == Fail(i), renamed || Renames(s, es[0], i));
      assert es == [es[0]] + es[1..];
    }
  }

  /**
   * An install that ends throws if and only if a step of its failed, its wait for the lock among them;
   * it says that it installed if and only if it renamed its copy into place; and else its version was
   * there already.
   */
  lemma {:induction false} EndsExactly(s: System, es: seq<Event>, i: nat)
    requires Possible(s, es) && i in s.installs && s.installs[i].phase == Reading && Die(i) !in es
    ensures i in After(s, es).installs
    ensures After(s, es).installs[i].phase.Done? ==>
      var outcome := After(s, es).installs[i].phase.outcome;
      && (outcome == Threw <==> Fail(i) in es)
      && (outcome == Installed <==> RenamesIn(s, es, i))
      && (outcome == Current <==> !(Fail(i) in es) && !RenamesIn(s, es, i))
  {
    RunEndsAs(s, es, i, false, false);
  }

  /**
   * The two renames move whole trees: what was at the path lies beside it then, under the name it was
   * moved to, and what was staged is at the path and nowhere else; all else stays as it was.
   */
  lemma {:induction false} RenamesMove(s: System, i: nat, name: Name)
    requires Enabled(s, Go(i)) && (s.installs[i].phase.MovingAside? || s.installs[i].phase.Renaming?)
    ensures var t, id := Step(s, Go(i)), s.installs[i].phase.id;
      if s.installs[i].phase.MovingAside? && s.target.Some?
      then && t.target.None? && Replaced(id) in t.beside && t.beside[Replaced(id)] == s.target.value
           && (name != Replaced(id) ==> (name in t.beside <==> name in s.beside))
           && (name != Replaced(id) && name in s.beside ==> t.beside[name] == s.beside[name])
      else if s.installs[i].phase.MovingAside?
      then t.target == s.target && t.beside == s.beside
      else && Staged(id) in s.beside && t.target == Some(s.beside[Staged(id)])
           && (name in t.beside <==> name in s.beside && name != Staged(id))
           && (name in t.beside ==> t.beside[name] == s.beside[name])
  {
  }

  /** A removal leaves what it could not remove of a tree, under its name, and the install knows of it; else nothing. */
  lemma {:induction false} RemovesExactly(s: System, i: nat, name: Name, rest: Option<Tree>)
    requires Enabled(s, Remove(i, name, rest)) && name in s.beside
    ensures var t := Step(s, Remove(i, name, rest));
      && t.beside == (if rest.Some? then s.beside[name := rest.value] else s.beside - {name})
      && t.installs[i].phase.left == s.installs[i].phase.left - {name}
      && t.installs[i].phase.kept == s.installs[i].phase.kept + (if rest.Some? then {name} else {})
  {
  }
}
