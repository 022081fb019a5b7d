/**
 * What a run of `copyTree` (packages/core/src/runtime/toolbelt.ts:284-320) has done, by the operations
 * that ended well in it: what each entry takes, in order, and whether all of the tree was copied.
 */
module CopyRuns {
  import opened Basics
  import L = Limiters
  import opened CopyTrees

  /** The operations of an entry's copy, in order: the root directory is there already. */
  function Takes(kind: Kind, root: bool): seq<Op> {
    match kind
    case Directory => (if root then [] else [MakeDirectory]) + [ReadDirectory, Stat, ChangeMode]
    case Link => [ReadLink, MakeLink]
    case File => [CopyFile]
    case Special => []
  }

  /** The operations of an entry that end well at a step, and in a run. */
  function OpsAt(s: System, e: Event, c: nat): seq<Op>
    requires Enabled(s, e)
  {
    if e == End(c, true) then [s.entries[c].op] else []
  }

  function OpsIn(s: System, es: seq<Event>, c: nat): seq<Op>
    requires Possible(s, es)
    decreases |es|
  {
    if es == [] then [] else OpsAt(s, es[0], c) + OpsIn(Step(s, es[0]), es[1..], c)
  }

  /** Whether what an entry has done is what its copy takes so far, and its next operation the next of it. */
  predicate HasDone(kind: Kind, root: bool, e: Entry, done: seq<Op>) {
    match e
    case Ready(op) => done + [op] <= Takes(kind, root)
    case At(op) => done + [op] <= Takes(kind, root)
    case Gathering => kind == Directory && done + [Stat] <= Takes(kind, root) && |done| > 0
      && done[|done| - 1] == ReadDirectory
    case Settled(ok) => ok ==> done == Takes(kind, root) && kind != Special
  }

  predicate Did(s: System, c: nat, done: seq<Op>) {
    if c in s.entries then c in s.tree.kinds && HasDone(s.tree.kinds[c], c == 0, s.entries[c], done) else done == []
  }

  lemma {:induction false} NextDoes(kind: Kind, root: bool, op: Op, done: seq<Op>, ok: bool)
    requires HasDone(kind, root, At(op), done)
    ensures HasDone(kind, root, Next(op, ok), if ok then done + [op] else done)
  {
    var takes := Takes(kind, root);
    assert takes[|done|] == op && done == takes[..|done|];
    if |done| + 1 < |takes| { assert done + [op] + [takes[|done| + 1]] <= takes; }
  }

  lemma {:induction false} BegunDoes(kind: Kind)
    ensures HasDone(kind, false, Begun(kind), [])
  {
  }

  lemma {:induction false} ReadDoes(s: System, c: nat, of: nat, done: seq<Op>)
    requires Inv(s) && Enabled(s, End(of, true)) && s.entries[of].op == ReadDirectory && c != of && Did(s, c, done)
    ensures Did(Step(s, End(of, true)), c, done)
  {
    OpensAll(s, of);
    if c !in s.entries && c in Step(s, End(of, true)).entries {
      assert Child(s.tree, c, of) && Placed(s.tree, c);
      BegunDoes(s.tree.kinds[c]);
    }
  }

  lemma {:induction false} EndDoes(s: System, c: nat, ok: bool, of: nat, done: seq<Op>)
    requires Inv(s) && Enabled(s, End(of, ok)) && Did(s, c, done)
    ensures Did(Step(s, End(of, ok)), c, done + OpsAt(s, End(of, ok), c))
  {
    if c == of {
      NextDoes(s.tree.kinds[c], c == 0, s.entries[c].op, done, ok);
    } else if s.entries[of].op == ReadDirectory && ok {
      ReadDoes(s, c, of, done);
    }
  }

  lemma {:induction false} ToldDoes(s: System, c: nat, of: nat, l: L.System, done: seq<Op>)
    requires Did(s, c, done) && of in s.entries && (s.entries[of].Ready? || s.entries[of].At?)
    ensures Did(Told(s, of, s.entries[of].op, l), c, done)
  {
  }

  lemma {:induction false} GatherDoes(s: System, c: nat, of: nat, done: seq<Op>)
    requires Inv(s) && Enabled(s, Gather(of)) && Did(s, c, done)
    ensures Did(Step(s, Gather(of)), c, done)
  {
    if c in s.entries { assert Keeping(s.tree, s.entries, c); }
  }

  lemma {:induction false} StepDoes(s: System, e: Event, c: nat, done: seq<Op>)
    requires Inv(s) && Enabled(s, e) && Did(s, c, done)
    ensures Did(Step(s, e), c, done + OpsAt(s, e, c))
  {
    match e
    case Ask(of) => ToldDoes(s, c, of, L.Step(s.limiter, L.Call(WorkOf(of, s.entries[of].op))), done);
    case Wake(of) => ToldDoes(s, c, of, L.Step(s.limiter, L.Wake(WorkOf(of, s.entries[of].op))), done);
    case End(of, ok) => EndDoes(s, c, ok, of, done);
    case Gather(of) => GatherDoes(s, c, of, done);
    case Abort =>
  }

  lemma {:induction false} Reassociate(a: seq<Op>, b: seq<Op>, c: seq<Op>)
    ensures (a + b) + c == a + (b + c)
  {
  }

  lemma {:induction false} RunDoes(s: System, es: seq<Event>, c: nat, done: seq<Op>)
    requires Inv(s) && Possible(s, es) && Did(s, c, done)
    ensures Did(After(s, es), c, done + OpsIn(s, es, c))
    decreases |es|
  {
    if es != [] {
      StepDoes(s, es[0], c, done);
      StepKeeps(s, es[0]);
      RunDoes(Step(s, es[0]), es[1..], c, done + OpsAt(s, es[0], c));
      Reassociate(done, OpsAt(s, es[0], c), OpsIn(Step(s, es[0]), es[1..], c));
    } else {
      assert done + [] == done;
    }
  }

  /** An entry that settles without failing has done exactly what its kind takes, each operation once and in order. */
  lemma {:induction false} SettledHasDone(tree: Tree, limit: pos, es: seq<Event>, c: nat)
    requires IsTree(tree) && Possible(Initial(tree, limit), es)
    requires var s := After(Initial(tree, limit), es); c in s.entries && s.entries[c] == Settled(true)
    ensures c in tree.kinds && OpsIn(Initial(tree, limit), es, c) == Takes(tree.kinds[c], c == 0)
  {
    var s := Initial(tree, limit);
    EveryReachableState(tree, limit, []);
    assert Placed(tree, 0);
    RunDoes(s, es, c, []);
    TreeStays(s, es);
    assert [] + OpsIn(s, es, c) == OpsIn(s, es, c);
  }

  lemma {:induction false} TreeStays(s: System, es: seq<Event>)
    requires Possible(s, es)
    ensures After(s, es).tree == s.tree
    decreases |es|
  {
    if es != [] { TreeStays(Step(s, es[0]), es[1..]); }
  }

  /** Whether the copy has settled, without failing. */
  predicate Copied(s: System) {
    0 in s.entries && s.entries[0] == Settled(true)
  }

  /** A copy that settles without failing has done what every entry of the tree takes. */
  lemma {:induction false} AllIsCopied(tree: Tree, limit: pos, es: seq<Event>)
    requires IsTree(tree) && Possible(Initial(tree, limit), es)
    requires Copied(After(Initial(tree, limit), es))
    ensures forall c <- tree.kinds :: OpsIn(Initial(tree, limit), es, c) == Takes(tree.kinds[c], c == 0)
    ensures forall c <- tree.kinds :: tree.kinds[c] != Special
  {
    var s := After(Initial(tree, limit), es);
    EveryReachableState(tree, limit, es);
    TreeStays(Initial(tree, limit), es);
    forall c <- tree.kinds
      ensures OpsIn(Initial(tree, limit), es, c) == Takes(tree.kinds[c], c == 0) && tree.kinds[c] != Special
    {
      AllSettleWell(s, c);
      SettledHasDone(tree, limit, es, c);
      assert Keeping(s.tree, s.entries, c);
    }
  }

  lemma {:induction false} SettledStays(s: System, e: Event, c: nat)
    requires Inv(s) && Enabled(s, e) && c in s.entries && s.entries[c].Settled?
    ensures c in Step(s, e).entries && Step(s, e).entries[c] == s.entries[c]
  {
    if e.End? && e.ok && s.entries[e.entry].op == ReadDirectory { OpensAll(s, e.entry); }
  }

  /** A copy with an operation that fails in it does not settle well. */
  lemma {:induction false} FailureIsKept(s: System, es: seq<Event>, c: nat)
    requires Inv(s) && Possible(s, es) && c in s.entries && s.entries[c] == Settled(false)
    ensures !Copied(After(s, es))
    decreases |es|
  {
    if es == [] {
      if s.entries[0] == Settled(true) { SettledWithin(s, c); }
    } else {
      StepKeeps(s, es[0]);
      SettledStays(s, es[0], c);
      FailureIsKept(Step(s, es[0]), es[1..], c);
    }
  }

  predicate Fails(e: Event) {
    e.End? && !e.ok
  }

  lemma {:induction false} FailureFails(s: System, es: seq<Event>)
    requires Inv(s) && Possible(s, es) && exists e <- es :: Fails(e)
    ensures !Copied(After(s, es))
    decreases |es|
  {
    StepKeeps(s, es[0]);
    if Fails(es[0]) {
      FailureIsKept(Step(s, es[0]), es[1..], es[0].entry);
    } else {
      assert es == [es[0]] + es[1..];
      FailureFails(Step(s, es[0]), es[1..]);
    }
  }

  /** Whether nothing of a copy has failed, and it has nothing to fail at by itself. */
  predicate Well(s: System) {
    && !s.limiter.aborted && (forall c <- s.tree.kinds :: s.tree.kinds[c] != Special)
    && (forall c <- s.entries :: s.entries[c] != Settled(false))
  }

  lemma {:induction false} EndsWell(s: System, of: nat)
    requires Inv(s) && Well(s) && Enabled(s, End(of, true))
    ensures Well(Step(s, End(of, true)))
  {
    assert Keeping(s.tree, s.entries, of);
    if s.entries[of].op == ReadDirectory { OpensAll(s, of); }
  }

  lemma {:induction false} AsksWell(s: System, e: Event)
    requires Inv(s) && Well(s) && Enabled(s, e) && (e.Ask? || e.Wake?)
    ensures Well(Step(s, e))
  {
  }

  lemma {:induction false} StepWell(s: System, e: Event)
    requires Inv(s) && Well(s) && Enabled(s, e) && !Fails(e) && e != Abort
    ensures Well(Step(s, e))
  {
    match e
    case End(of, _) => EndsWell(s, of);
    case Gather(of) => assert forall c <- s.entries | Child(s.tree, c, of) :: s.entries[c].Settled?;
    case Ask(of) => AsksWell(s, e);
    case Wake(of) => AsksWell(s, e);
  }

  /** With no operation that fails, no abort, and nothing but directories, links and files, no entry fails. */
  lemma {:induction false} RunsWell(s: System, es: seq<Event>)
    requires Inv(s) && Well(s) && Possible(s, es) && Abort !in es && !exists e <- es :: Fails(e)
    ensures Well(After(s, es))
    decreases |es|
  {
    if es != [] {
      assert es == [es[0]] + es[1..];
      StepWell(s, es[0]);
      StepKeeps(s, es[0]);
      RunsWell(Step(s, es[0]), es[1..]);
    }
  }

  /**
   * A copy that settles, with no abort, does so without failing if and only if none of its operations
   * failed and nothing in the tree is other than a directory, a link or a file.
   */
  lemma {:induction false} CopiesExactly(tree: Tree, limit: pos, es: seq<Event>)
    requires IsTree(tree) && Possible(Initial(tree, limit), es) && Abort !in es
    requires var s := After(Initial(tree, limit), es); 0 in s.entries && s.entries[0].Settled?
    ensures Copied(After(Initial(tree, limit), es)) <==>
      (!exists e <- es :: Fails(e)) && forall c <- tree.kinds :: tree.kinds[c] != Special
  {
    EveryReachableState(tree, limit, []);
    if Copied(After(Initial(tree, limit), es)) {
      AllIsCopied(tree, limit, es);
      if exists e <- es :: Fails(e) { FailureFails(Initial(tree, limit), es); }
    } else if (!exists e <- es :: Fails(e)) && forall c <- tree.kinds :: tree.kinds[c] != Special {
      RunsWell(Initial(tree, limit), es);
    }
  }
}
