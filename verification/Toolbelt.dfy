/**
 * `installToolbelt` and `stageToolbelt` of packages/core/src/runtime/toolbelt.ts: any number of
 * baymas install their own versions of the toolbelt at one path, each of whose steps may be its
 * last. A rename is one step; a lock is held by one bayma, until it closes it or dies.
 */
module Toolbelts {
  import opened Options

  /**
   * What a directory holds: the payload's files copied to it, whether it runs from where it is, and
   * its version file.
   */
  datatype Tree = Tree(files: set<string>, relocated: bool, version: Option<string>)

  /** What may lie beside the path: `toolbelt.XXXXXX`, and what was moved aside to `toolbelt.XXXXXX.replaced`. */
  datatype Name = Staged(id: nat) | Replaced(id: nat)

  datatype Outcome = Installed | Current | Threw

  /**
   * What an install is to do next. From `Removing` to `Unlocking` it holds the lock; `kept` is what
   * it could not remove.
   */
  datatype Phase =
    | Reading
    | Looking
    | Locking
    | Removing(left: set<Name>, kept: set<Name>)
    | Staging(kept: set<Name>)
    | Copying(id: nat, kept: set<Name>)
    | Versioning(id: nat, kept: set<Name>)
    | MovingAside(id: nat, kept: set<Name>)
    | Renaming(id: nat, kept: set<Name>)
    | Cleaning(left: set<Name>, outcome: Outcome, kept: set<Name>)
    | Unlocking(outcome: Outcome, kept: set<Name>)
    | Done(outcome: Outcome)

  datatype Install = Install(version: string, phase: Phase)

  /** `payloads` has the files each version's payload holds. */
  datatype System = System(
    payloads: map<string, set<string>>,
    target: Option<Tree>,
    beside: map<Name, Tree>,
    lock: Option<nat>,
    installs: map<nat, Install>)

  datatype Event =
    | Arrive(install: nat, version: string)
    | Go(install: nat)
    | MakeDirectory(install: nat, id: nat)
    | Copy(install: nat, file: string)
    | Remove(install: nat, name: Name, rest: Option<Tree>)
    | Fail(install: nat)
    | Die(install: nat)

  function Whole(files: set<string>, version: string): Tree {
    Tree(files, true, Some(version))
  }

  function VersionOf(tree: Option<Tree>): Option<string> {
    if tree.Some? then tree.value.version else None
  }

  predicate Locked(phase: Phase) {
    !phase.Reading? && !phase.Looking? && !phase.Locking? && !phase.Done?
  }

  /** Whether an install throws from where it is, its `finally` taking over where it has one. */
  predicate MayFail(phase: Phase) {
    phase.Locking? || phase.Staging? || phase.Copying? || phase.Versioning? || phase.MovingAside? || phase.Renaming?
  }

  function FilesOf(payloads: map<string, set<string>>, version: string): set<string> {
    if version in payloads then payloads[version] else {}
  }

  /** Whether an install's next step is its own to take: it waits for the lock, and renames over nothing. */
  predicate MayGo(s: System, i: Install) {
    match i.phase
    case Locking => s.lock.None?
    case Removing(left, _) => left == {}
    case Staging(_) => false
    case Copying(id, _) => Staged(id) in s.beside && s.beside[Staged(id)].files == FilesOf(s.payloads, i.version)
    case Versioning(id, _) => Staged(id) in s.beside
    case MovingAside(id, _) => s.target.None? || Replaced(id) !in s.beside
    case Renaming(id, _) => Staged(id) in s.beside && s.target.None?
    case Cleaning(left, _, _) => left == {}
    case Done(_) => false
    case _ => true
  }

  predicate Enabled(s: System, e: Event) {
    match e
    case Arrive(i, version) => i !in s.installs && version in s.payloads
    case Go(i) => i in s.installs && MayGo(s, s.installs[i])
    case MakeDirectory(i, id) => i in s.installs && s.installs[i].phase.Staging? && Staged(id) !in s.beside
    case Copy(i, file) =>
      && i in s.installs && s.installs[i].phase.Copying? && Staged(s.installs[i].phase.id) in s.beside
      && file in FilesOf(s.payloads, s.installs[i].version)
    case Remove(i, name, _) =>
      && i in s.installs && (s.installs[i].phase.Removing? || s.installs[i].phase.Cleaning?)
      && name in s.installs[i].phase.left
    case Fail(i) => i in s.installs && MayFail(s.installs[i].phase)
    case Die(i) => i in s.installs
  }

  function Now(s: System, i: nat, phase: Phase): System
    requires i in s.installs
  {
    s.(installs := s.installs[i := s.installs[i].(phase := phase)])
  }

  /** What `removeTreeAsync` leaves where it fails: the name, with some of what it held. */
  function Removed(beside: map<Name, Tree>, name: Name, rest: Option<Tree>): map<Name, Tree> {
    if rest.Some? then beside[name := rest.value] else beside - {name}
  }

  function Cleanup(id: nat, outcome: Outcome, kept: set<Name>): Phase {
    Cleaning({Staged(id), Replaced(id)}, outcome, kept)
  }

  function Gone(s: System, i: nat): System
    requires i in s.installs
  {
    var version, phase := s.installs[i].version, s.installs[i].phase;
    match phase
    case Reading => Now(s, i, if VersionOf(s.target) == Some(version) then Looking else Locking)
    case Looking => Now(s, i, if s.beside == map[] then Done(Current) else Locking)
    case Locking => Now(s, i, Removing(s.beside.Keys, {})).(lock := Some(i))
    case Removing(_, kept) =>
      Now(s, i, if VersionOf(s.target) == Some(version) then Unlocking(Current, kept) else Staging(kept))
    case Copying(id, kept) =>
      if Staged(id) !in s.beside then s
      else Now(s, i, Versioning(id, kept)).(beside := s.beside[Staged(id) := s.beside[Staged(id)].(relocated := true)])
    case Versioning(id, kept) =>
      if Staged(id) !in s.beside then s
      else
        var staged := s.beside[Staged(id)].(version := Some(version));
        Now(s, i, MovingAside(id, kept)).(beside := s.beside[Staged(id) := staged])
    case MovingAside(id, kept) =>
      if s.target.None? then Now(s, i, Renaming(id, kept))
      else Now(s, i, Renaming(id, kept)).(beside := s.beside[Replaced(id) := s.target.value], target := None)
    case Renaming(id, kept) =>
      if Staged(id) !in s.beside then s
      else
        Now(s, i, Cleanup(id, Installed, kept)).(
          target := Some(s.beside[Staged(id)]), beside := s.beside - {Staged(id)})
    case Cleaning(_, outcome, kept) => Now(s, i, Unlocking(outcome, kept))
    case Unlocking(outcome, _) => Now(s, i, Done(outcome)).(lock := None)
    case Staging(_) => s
    case Done(_) => s
  }

  function Failed(s: System, i: nat): System
    requires i in s.installs
  {
    match s.installs[i].phase
    case Locking => Now(s, i, Done(Threw))
    case Staging(kept) => Now(s, i, Unlocking(Threw, kept))
    case Copying(id, kept) => Now(s, i, Cleanup(id, Threw, kept))
    case Versioning(id, kept) => Now(s, i, Cleanup(id, Threw, kept))
    case MovingAside(id, kept) => Now(s, i, Cleanup(id, Threw, kept))
    case Renaming(id, kept) => Now(s, i, Cleanup(id, Threw, kept))
    case _ => s
  }

  function RemovedBy(s: System, i: nat, name: Name, rest: Option<Tree>): System
    requires i in s.installs
  {
    var t := s.(beside := if name in s.beside then Removed(s.beside, name, rest) else s.beside);
    var failed: set<Name> := if name in t.beside then {name} else {};
    match s.installs[i].phase
    case Removing(left, kept) => Now(t, i, Removing(left - {name}, kept + failed))
    case Cleaning(left, outcome, kept) => Now(t, i, Cleaning(left - {name}, outcome, kept + failed))
    case _ => s
  }

  function Step(s: System, e: Event): System
    requires Enabled(s, e)
  {
    match e
    case Arrive(i, version) => s.(installs := s.installs[i := Install(version, Reading)])
    case Go(i) => Gone(s, i)
    case MakeDirectory(i, id) =>
      Now(s, i, Copying(id, s.installs[i].phase.kept)).(beside := s.beside[Staged(id) := Tree({}, false, None)])
    case Copy(i, file) =>
      var name := Staged(s.installs[i].phase.id);
      s.(beside := s.beside[name := s.beside[name].(files := s.beside[name].files + {file})])
    case Remove(i, name, rest) => RemovedBy(s, i, name, rest)
    case Fail(i) => Failed(s, i)
    case Die(i) => s.(installs := s.installs - {i}, lock := if s.lock == Some(i) then None else s.lock)
  }

  /** A data root, with the installs at work on it, each step of which changes it in place. */
  class DataRoot {
    const payloads: map<string, set<string>>
    var target: Option<Tree>
    var beside: map<Name, Tree>
    var lock: Option<nat>
    var installs: map<nat, Install>

    function State(): System
      reads this
    {
      System(payloads, target, beside, lock, installs)
    }

    constructor (payloads: map<string, set<string>>, target: Option<Tree>, beside: map<Name, Tree>)
      ensures State() == System(payloads, target, beside, None, map[])
    {
      this.payloads, this.target, this.beside, lock, installs := payloads, target, beside, None, map[];
    }

    method Proceed(i: nat, phase: Phase)
      requires i in installs
      modifies this`installs
      ensures State() == Now(old(State()), i, phase)
    {
      installs := installs[i := installs[i].(phase := phase)];
    }

    method Arrive(i: nat, version: string)
      requires Enabled(State(), Event.Arrive(i, version))
      modifies this`installs
      ensures State() == Step(old(State()), Event.Arrive(i, version))
    {
      installs := installs[i := Install(version, Reading)];
    }

    /** `installed()`, before the lock is held or as it is. */
    method Check(i: nat)
      requires i in installs && (installs[i].phase.Reading? || installs[i].phase.Removing?)
      modifies this`installs
      ensures State() == Gone(old(State()), i)
    {
      var current := target.Some? && target.value.version == Some(installs[i].version);
      var phase := installs[i].phase;
      if phase.Reading? {
        Proceed(i, if current then Looking else Locking);
      } else {
        Proceed(i, if current then Unlocking(Current, phase.kept) else Staging(phase.kept));
      }
    }

    /** `leftovers`, for a toolbelt that is current. */
    method Look(i: nat)
      requires i in installs && installs[i].phase.Looking?
      modifies this`installs
      ensures State() == Gone(old(State()), i)
    {
      Proceed(i, if beside == map[] then Done(Current) else Locking);
    }

    method Lock(i: nat)
      requires i in installs && installs[i].phase.Locking?
      modifies this`lock, this`installs
      ensures State() == Gone(old(State()), i)
    {
      lock := Some(i);
      Proceed(i, Removing(beside.Keys, {}));
    }

    /** `removeTreeAsync`, of what was left or of what was staged. */
    method RemoveTree(i: nat, name: Name, rest: Option<Tree>)
      requires Enabled(State(), Remove(i, name, rest))
      modifies this`beside, this`installs
      ensures State() == Step(old(State()), Remove(i, name, rest))
    {
      if name in beside { beside := if rest.Some? then beside[name := rest.value] else beside - {name}; }
      var failed: set<Name> := if name in beside then {name} else {};
      match installs[i].phase {
        case Removing(left, kept) => Proceed(i, Removing(left - {name}, kept + failed));
        case Cleaning(left, outcome, kept) => Proceed(i, Cleaning(left - {name}, outcome, kept + failed));
      }
    }

    method MakeStaging(i: nat, id: nat)
      requires Enabled(State(), MakeDirectory(i, id))
      modifies this`beside, this`installs
      ensures State() == Step(old(State()), MakeDirectory(i, id))
    {
      beside := beside[Staged(id) := Tree({}, false, None)];
      Proceed(i, Copying(id, installs[i].phase.kept));
    }

    method CopyFile(i: nat, file: string)
      requires Enabled(State(), Copy(i, file))
      modifies this`beside
      ensures State() == Step(old(State()), Copy(i, file))
    {
      var name := Staged(installs[i].phase.id);
      beside := beside[name := beside[name].(files := beside[name].files + {file})];
    }

    method Relocate(i: nat)
      requires Enabled(State(), Go(i)) && installs[i].phase.Copying?
      modifies this`beside, this`installs
      ensures State() == Gone(old(State()), i)
    {
      var phase := installs[i].phase;
      beside := beside[Staged(phase.id) := beside[Staged(phase.id)].(relocated := true)];
      Proceed(i, Versioning(phase.id, phase.kept));
    }

    method WriteVersion(i: nat)
      requires Enabled(State(), Go(i)) && installs[i].phase.Versioning?
      modifies this`beside, this`installs
      ensures State() == Gone(old(State()), i)
    {
      var phase := installs[i].phase;
      beside := beside[Staged(phase.id) := beside[Staged(phase.id)].(version := Some(installs[i].version))];
      Proceed(i, MovingAside(phase.id, phase.kept));
    }

    method MoveAside(i: nat)
      requires i in installs && installs[i].phase.MovingAside?
      modifies this`target, this`beside, this`installs
      ensures State() == Gone(old(State()), i)
    {
      var phase := installs[i].phase;
      if target.Some? {
        beside := beside[Replaced(phase.id) := target.value];
        target := None;
      }
      Proceed(i, Renaming(phase.id, phase.kept));
    }

    method RenameIntoPlace(i: nat)
      requires Enabled(State(), Go(i)) && installs[i].phase.Renaming?
      modifies this`target, this`beside, this`installs
      ensures State() == Gone(old(State()), i)
    {
      var phase := installs[i].phase;
      target := Some(beside[Staged(phase.id)]);
      beside := beside - {Staged(phase.id)};
      Proceed(i, Cleanup(phase.id, Installed, phase.kept));
    }

    /** The end of what was staged, and that of the lock. */
    method Close(i: nat)
      requires i in installs && (installs[i].phase.Cleaning? || installs[i].phase.Unlocking?)
      modifies this`lock, this`installs
      ensures State() == Gone(old(State()), i)
    {
      match installs[i].phase {
        case Cleaning(_, outcome, kept) => Proceed(i, Unlocking(outcome, kept));
        case Unlocking(outcome, _) =>
          lock := None;
          Proceed(i, Done(outcome));
      }
    }

    /** An operation throws, or the signal aborts. */
    method Throw(i: nat)
      requires Enabled(State(), Fail(i))
      modifies this`installs
      ensures State() == Step(old(State()), Fail(i))
    {
      var phase := installs[i].phase;
      if phase.Locking? {
        Proceed(i, Done(Threw));
      } else if phase.Staging? {
        Proceed(i, Unlocking(Threw, phase.kept));
      } else {
        Proceed(i, Cleanup(phase.id, Threw, phase.kept));
      }
    }

    /** The process dies, and the operating system releases what it held. */
    method Die(i: nat)
      requires i in installs
      modifies this`lock, this`installs
      ensures State() == Step(old(State()), Event.Die(i))
    {
      installs := installs - {i};
      if lock == Some(i) { lock := None; }
    }
  }

  /** A version file says that all of that version's files are there, and run from there. */
  predicate Sound(payloads: map<string, set<string>>, target: Option<Tree>) {
    VersionOf(target).Some? ==>
      target == Some(Whole(FilesOf(payloads, VersionOf(target).value), VersionOf(target).value))
  }

  predicate LockInv(s: System) {
    && (forall i <- s.installs :: Locked(s.installs[i].phase) <==> s.lock == Some(i))
    && (s.lock.Some? ==> s.lock.value in s.installs)
  }

  /** What the install that holds the lock has come to, in its own directory and at the path. */
  predicate HolderInv(files: set<string>, version: string, phase: Phase, target: Option<Tree>,
      beside: map<Name, Tree>) {
    match phase
    case Removing(left, kept) => beside.Keys <= left + kept
    case Staging(kept) => VersionOf(target) != Some(version) && beside.Keys <= kept
    case Copying(id, kept) =>
      && VersionOf(target) != Some(version)
      && Staged(id) in beside && beside[Staged(id)].files <= files && beside[Staged(id)].version.None?
      && beside.Keys <= kept + {Staged(id)}
    case Versioning(id, kept) =>
      && VersionOf(target) != Some(version)
      && Staged(id) in beside && beside[Staged(id)] == Tree(files, true, None)
      && beside.Keys <= kept + {Staged(id)}
    case MovingAside(id, kept) =>
      && VersionOf(target) != Some(version)
      && Staged(id) in beside && beside[Staged(id)] == Whole(files, version)
      && beside.Keys <= kept + {Staged(id)}
    case Renaming(id, kept) =>
      && Staged(id) in beside && beside[Staged(id)] == Whole(files, version) && target.None?
      && beside.Keys <= kept + {Staged(id), Replaced(id)}
    case Cleaning(left, outcome, kept) =>
      && (outcome != Threw ==> target == Some(Whole(files, version)))
      && beside.Keys <= kept + left
    case Unlocking(outcome, kept) =>
      && (outcome != Threw ==> target == Some(Whole(files, version)))
      && beside.Keys <= kept
    case _ => true
  }

  predicate Held(s: System) {
    s.lock.Some? && s.lock.value in s.installs ==>
      var i := s.installs[s.lock.value];
      HolderInv(FilesOf(s.payloads, i.version), i.version, i.phase, s.target, s.beside)
  }

  predicate Inv(s: System) {
    LockInv(s) && Sound(s.payloads, s.target) && Held(s)
  }

  lemma {:induction false} GoingKeepsLock(s: System, i: nat)
    requires LockInv(s) && Enabled(s, Go(i))
    ensures LockInv(Gone(s, i))
  {
  }

  lemma {:induction false} LockKeeps(s: System, e: Event)
    requires LockInv(s) && Enabled(s, e)
    ensures LockInv(Step(s, e))
  {
    if e.Go? { GoingKeepsLock(s, e.install); }
  }

  predicate Acts(e: Event, i: nat) {
    !e.Arrive? && e.install == i
  }

  /**
   * An install that does not hold the lock changes nothing at the path or beside it, nor what the
   * holder has come to.
   */
  lemma {:induction false} OthersKeep(s: System, e: Event)
    requires LockInv(s) && Enabled(s, e) && (s.lock.Some? ==> !Acts(e, s.lock.value))
    ensures Step(s, e).target == s.target && Step(s, e).beside == s.beside
    ensures s.lock.Some? ==>
      Step(s, e).lock == s.lock && s.lock.value in Step(s, e).installs
        && Step(s, e).installs[s.lock.value] == s.installs[s.lock.value]
  {
  }

  /** What one that holds it takes on as it locks. */
  lemma {:induction false} LockingHolds(s: System, e: Event)
    requires LockInv(s) && Enabled(s, e) && s.lock.None?
    ensures Held(Step(s, e))
  {
  }

  lemma {:induction false} HolderGoes(s: System, i: nat)
    requires Inv(s) && s.lock == Some(i) && Enabled(s, Go(i))
    ensures Held(Gone(s, i)) && Sound(s.payloads, Gone(s, i).target)
  {
  }

  lemma {:induction false} HolderKeeps(s: System, e: Event)
    requires Inv(s) && s.lock.Some? && Acts(e, s.lock.value) && Enabled(s, e)
    ensures Held(Step(s, e)) && Sound(s.payloads, Step(s, e).target)
  {
    if e.Go? { HolderGoes(s, e.install); }
  }

  lemma {:induction false} StepKeeps(s: System, e: Event)
    requires Inv(s) && Enabled(s, e)
    ensures Inv(Step(s, e))
  {
    LockKeeps(s, e);
    if s.lock.Some? && Acts(e, s.lock.value) {
      HolderKeeps(s, e);
    } else {
      OthersKeep(s, e);
      if s.lock.None? { LockingHolds(s, e); }
    }
  }

  predicate Possible(s: System, es: seq<Event>)
    decreases |es|
  {
    es == [] || (Enabled(s, es[0]) && Possible(Step(s, es[0]), es[1..]))
  }

  function After(s: System, es: seq<Event>): System
    requires Possible(s, es)
    decreases |es|
  {
    if es == [] then s else After(Step(s, es[0]), es[1..])
  }

  /** A data root as bayma finds it: no install runs, what is at the path is sound, and anything lies beside it. */
  predicate Initial(s: System) {
    s.lock.None? && s.installs == map[] && Sound(s.payloads, s.target)
  }

  lemma {:induction false} InvKept(s: System, es: seq<Event>)
    requires Inv(s) && Possible(s, es)
    ensures Inv(After(s, es))
    decreases |es|
  {
    if es != [] {
      StepKeeps(s, es[0]);
      InvKept(Step(s, es[0]), es[1..]);
    }
  }

  /** Wherever installs are and die, the path holds nothing, or a toolbelt whose version file speaks true. */
  lemma {:induction false} EveryReachableState(s: System, es: seq<Event>)
    requires Initial(s) && Possible(s, es)
    ensures Inv(After(s, es))
  {
    InvKept(s, es);
  }

  /**
   * What changes the path: the install that holds the lock moves aside what is not its version,
   * or renames its own whole toolbelt to where nothing is.
   */
  lemma {:induction false} PathChangesExactly(s: System, e: Event)
    requires Inv(s) && Enabled(s, e) && Step(s, e).target != s.target
    ensures e.Go? && s.lock == Some(e.install) && e.install in s.installs
    ensures var i := s.installs[e.install];
      || (i.phase.MovingAside? && VersionOf(s.target) != Some(i.version) && Step(s, e).target.None?)
      || (i.phase.Renaming? && s.target.None?
          && Step(s, e).target == Some(Whole(FilesOf(s.payloads, i.version), i.version)))
  {
    if s.lock != Some(e.install) { OthersKeep(s, e); }
  }

  /**
   * An install that comes to its end without throwing leaves its whole version at the path,
   * whatever the installs before it died leaving, and beside it only what it could not remove.
   */
  lemma {:induction false} CompletedIsCurrent(s: System, i: nat)
    requires Inv(s) && i in s.installs && s.installs[i].phase.Unlocking? && s.installs[i].phase.outcome != Threw
    ensures Enabled(s, Go(i)) && Step(s, Go(i)).installs[i].phase.Done? && Step(s, Go(i)).lock.None?
    ensures Step(s, Go(i)).target == Some(Whole(FilesOf(s.payloads, s.installs[i].version), s.installs[i].version))
    ensures Step(s, Go(i)).beside.Keys <= s.installs[i].phase.kept
  {
  }

  /**
   * One that goes on without the lock read its version, and whole; it ends there exactly if it
   * then finds nothing beside the path, and changes nothing.
   */
  lemma {:induction false} FoundCurrent(s: System, i: nat)
    requires Inv(s) && i in s.installs && (s.installs[i].phase.Reading? || s.installs[i].phase.Looking?)
    ensures Enabled(s, Go(i)) && Step(s, Go(i)) == s.(installs := Step(s, Go(i)).installs)
    ensures Step(s, Go(i)).installs[i].phase.Looking? <==>
      s.installs[i].phase.Reading? && VersionOf(s.target) == Some(s.installs[i].version)
    ensures Step(s, Go(i)).installs[i].phase.Looking? ==>
      s.target == Some(Whole(FilesOf(s.payloads, s.installs[i].version), s.installs[i].version))
    ensures Step(s, Go(i)).installs[i].phase.Done? <==> s.installs[i].phase.Looking? && s.beside == map[]
    ensures Step(s, Go(i)).installs[i].phase.Done? ==> Step(s, Go(i)).installs[i].phase.outcome == Current
  {
  }

  /**
   * So, with no other's step between the two, exactly one whose version is at the path with nothing
   * beside ends there.
   */
  lemma {:induction false} FoundAlone(s: System, i: nat)
    requires Inv(s) && i in s.installs && s.installs[i].phase.Reading?
    ensures var t := Step(s, Go(i));
      (t.installs[i].phase.Looking? && Step(t, Go(i)).installs[i].phase == Done(Current)) <==>
        VersionOf(s.target) == Some(s.installs[i].version) && s.beside == map[]
  {
    var t := Step(s, Go(i));
    FoundCurrent(s, i);
    if t.installs[i].phase.Looking? {
      StepKeeps(s, Go(i));
      FoundCurrent(t, i);
    }
  }

  /** An install that is to take its steps alone, and has not failed at any. */
  predicate Ready(s: System, i: nat) {
    && Inv(s) && i in s.installs
    && var phase := s.installs[i].phase;
      && (if Locked(phase) then s.lock == Some(i) && phase.kept == {} else s.lock.None?)
      && (phase.Looking? ==> VersionOf(s.target) == Some(s.installs[i].version))
      && (phase.Removing? ==> phase.left <= s.beside.Keys)
      && (phase.Cleaning? || phase.Unlocking? ==> phase.outcome != Threw)
      && (phase.Done? ==>
          s.target == Some(Whole(FilesOf(s.payloads, s.installs[i].version), s.installs[i].version))
            && s.beside.Keys == {})
  }

  function Missing(s: System, i: Install): set<string> {
    if i.phase.Copying? && Staged(i.phase.id) in s.beside
    then FilesOf(s.payloads, i.version) - s.beside[Staged(i.phase.id)].files else {}
  }

  function Rank(phase: Phase): nat {
    match phase
    case Reading => 11
    case Looking => 10
    case Locking => 9
    case Removing(_, _) => 8
    case Staging(_) => 7
    case Copying(_, _) => 6
    case Versioning(_, _) => 5
    case MovingAside(_, _) => 4
    case Renaming(_, _) => 3
    case Cleaning(_, _, _) => 2
    case Unlocking(_, _) => 1
    case Done(_) => 0
  }

  /** How much of its phase an install has yet to do: what to remove, or what to copy. */
  function Left(s: System, i: Install): nat {
    if i.phase.Removing? || i.phase.Cleaning? then |i.phase.left| else |Missing(s, i)|
  }

  ghost predicate Proceeds(s: System, i: nat, e: Event) {
    && Enabled(s, e) && i in s.installs && i in Step(s, e).installs && Ready(Step(s, e), i)
    && Step(s, e).installs[i].version == s.installs[i].version && Step(s, e).payloads == s.payloads
    && var before, after := s.installs[i], Step(s, e).installs[i];
      || Rank(after.phase) < Rank(before.phase)
      || (Rank(after.phase) == Rank(before.phase) && Left(Step(s, e), after) < Left(s, before))
  }

  lemma {:induction false} RemovesOne(s: System, i: nat, name: Name)
    requires Ready(s, i) && (s.installs[i].phase.Removing? || s.installs[i].phase.Cleaning?)
      && name in s.installs[i].phase.left
    ensures Proceeds(s, i, Remove(i, name, None))
  {
    StepKeeps(s, Remove(i, name, None));
  }

  lemma {:induction false} CopiesOne(s: System, i: nat, file: string)
    requires Ready(s, i) && s.installs[i].phase.Copying? && file in Missing(s, s.installs[i])
    ensures Proceeds(s, i, Copy(i, file))
  {
    StepKeeps(s, Copy(i, file));
    var t := Step(s, Copy(i, file));
    assert Missing(t, t.installs[i]) == Missing(s, s.installs[i]) - {file};
  }

  predicate Stuck(s: System, i: Install) {
    i.phase.Done? || i.phase.Staging? || Left(s, i) > 0
  }

  lemma {:induction false} MayGoOn(s: System, i: nat)
    requires Ready(s, i) && !Stuck(s, s.installs[i])
    ensures Enabled(s, Go(i))
  {
  }

  lemma {:induction false} GoesToLocking(s: System, i: nat)
    requires Ready(s, i) && (s.installs[i].phase.Reading? || s.installs[i].phase.Looking?)
    ensures Proceeds(s, i, Go(i))
  {
    StepKeeps(s, Go(i));
  }

  lemma {:induction false} Locks(s: System, i: nat)
    requires Ready(s, i) && s.installs[i].phase.Locking?
    ensures Proceeds(s, i, Go(i))
  {
    MayGoOn(s, i);
    StepKeeps(s, Go(i));
  }

  lemma {:induction false} GoesToCopy(s: System, i: nat)
    requires Ready(s, i) && !Stuck(s, s.installs[i])
    requires s.installs[i].phase.Removing? || s.installs[i].phase.Copying? || s.installs[i].phase.Versioning?
    ensures Proceeds(s, i, Go(i))
  {
    MayGoOn(s, i);
    StepKeeps(s, Go(i));
  }

  lemma {:induction false} GoesToEnd(s: System, i: nat)
    requires Ready(s, i) && !Stuck(s, s.installs[i]) && Rank(s.installs[i].phase) <= 4
    ensures Proceeds(s, i, Go(i))
  {
    MayGoOn(s, i);
    StepKeeps(s, Go(i));
  }

  lemma {:induction false} GoesOn(s: System, i: nat)
    requires Ready(s, i) && !Stuck(s, s.installs[i])
    ensures Proceeds(s, i, Go(i))
  {
    var phase := s.installs[i].phase;
    if phase.Locking? {
      Locks(s, i);
    } else if !Locked(phase) {
      GoesToLocking(s, i);
    } else if Rank(phase) <= 4 {
      GoesToEnd(s, i);
    } else {
      GoesToCopy(s, i);
    }
  }

  lemma {:induction false} Stages(s: System, i: nat)
    requires Ready(s, i) && s.installs[i].phase.Staging?
    ensures Proceeds(s, i, MakeDirectory(i, 0))
  {
    StepKeeps(s, MakeDirectory(i, 0));
  }

  /**
   * Alone, and with nothing failing, an install comes to its end, with its version whole at the
   * path and nothing beside it: from where it is, so also from its start, whatever others that
   * died left.
   */
  lemma {:induction false} Completes(s: System, i: nat) returns (es: seq<Event>)
    requires Ready(s, i)
    ensures Possible(s, es) && i in After(s, es).installs && After(s, es).installs[i].phase.Done?
    ensures Ready(After(s, es), i) && After(s, es).payloads == s.payloads
    ensures After(s, es).installs[i].version == s.installs[i].version
    decreases Rank(s.installs[i].phase), Left(s, s.installs[i])
  {
    var phase := s.installs[i].phase;
    if phase.Done? { return []; }
    var e := Go(i);
    if phase.Staging? {
      e := MakeDirectory(i, 0);
      Stages(s, i);
    } else if (phase.Removing? || phase.Cleaning?) && phase.left != {} {
      var name :| name in phase.left;
      e := Remove(i, name, None);
      RemovesOne(s, i, name);
    } else if Missing(s, s.installs[i]) != {} {
      var file :| file in Missing(s, s.installs[i]);
      e := Copy(i, file);
      CopiesOne(s, i, file);
    } else {
      GoesOn(s, i);
    }
    var rest := Completes(Step(s, e), i);
    es := [e] + rest;
    assert es[1..] == rest;
  }
}
