/**
 * `copyTree` of packages/core/src/runtime/toolbelt.ts: every entry of a tree is copied at once,
 * each operation of its copy as work of the one limiter. The theorems are about every run, however
 * the operations end and whenever the signal aborts.
 */
module CopyTrees {
  import opened Basics
  import L = Limiters

  datatype Kind = Directory | Link | File | Special

  datatype Op = MakeDirectory | ReadDirectory | Stat | ChangeMode | ReadLink | MakeLink | CopyFile

  /**
   * Where an entry's copy is: about to ask for a slot for an operation, at it, waiting for what its
   * directory holds, or settled.
   */
  datatype Entry = Ready(op: Op) | At(op: Op) | Gathering | Settled(ok: bool)

  /** The tree copied: what each entry is, and the directory it is in; entry 0 is the root. */
  datatype Tree = Tree(kinds: map<nat, Kind>, parent: map<nat, nat>)

  datatype System = System(tree: Tree, limiter: L.System, entries: map<nat, Entry>)

  datatype Event = Ask(entry: nat) | Wake(entry: nat) | End(entry: nat, ok: bool) | Gather(entry: nat) | Abort

  predicate Child(tree: Tree, c: nat, of: nat) {
    c in tree.parent && tree.parent[c] == of
  }

  /**
   * The root is a directory in none, and every other entry is in a directory; entries are numbered
   * from the root down.
   */
  predicate Placed(tree: Tree, c: nat) {
    && c in tree.kinds
    && (c == 0 ==> c !in tree.parent && tree.kinds[c] == Directory)
    && (c != 0 ==> c in tree.parent && tree.parent[c] < c)
    && (c != 0 ==> tree.parent[c] in tree.kinds && tree.kinds[tree.parent[c]] == Directory)
  }

  predicate IsTree(tree: Tree) {
    && 0 in tree.kinds && (forall c <- tree.kinds {:trigger Placed(tree, c)} :: Placed(tree, c))
    && tree.parent.Keys <= tree.kinds.Keys
  }

  /** An operation's place in its entry's copy. */
  function Place(op: Op): nat {
    match op
    case MakeDirectory => 0
    case ReadDirectory => 1
    case Stat => 2
    case ChangeMode => 3
    case ReadLink => 0
    case MakeLink => 1
    case CopyFile => 0
  }

  function Begun(kind: Kind): Entry {
    match kind
    case Directory => Ready(MakeDirectory)
    case Link => Ready(ReadLink)
    case File => Ready(CopyFile)
    case Special => Settled(false)
  }

  function Next(op: Op, ok: bool): Entry {
    if !ok then Settled(false)
    else match op
      case MakeDirectory => Ready(ReadDirectory)
      case ReadDirectory => Gathering
      case Stat => Ready(ChangeMode)
      case ReadLink => Ready(MakeLink)
      case _ => Settled(true)
  }

  /** The copy of what a directory was read to hold begins. */
  function Opened(s: System, of: nat): map<nat, Entry> {
    s.entries + map c | c in s.tree.kinds && Child(s.tree, c, of) :: Begun(s.tree.kinds[c])
  }

  function Initial(tree: Tree, limit: pos): System {
    System(tree, L.Initial(limit), map[0 := Ready(ReadDirectory)])
  }

  function WorkOf(entry: nat, op: Op): L.Work {
    L.Work(entry, Place(op))
  }

  predicate AllSettled(s: System, of: nat) {
    forall c <- s.entries :: Child(s.tree, c, of) ==> s.entries[c].Settled?
  }

  predicate AllCopied(s: System, of: nat) {
    forall c <- s.entries :: Child(s.tree, c, of) ==> s.entries[c] == Settled(true)
  }

  predicate Enabled(s: System, e: Event) {
    match e
    case Ask(c) => c in s.entries && s.entries[c].Ready? && L.Enabled(s.limiter, L.Call(WorkOf(c, s.entries[c].op)))
    case Wake(c) => c in s.entries && s.entries[c].At? && L.Enabled(s.limiter, L.Wake(WorkOf(c, s.entries[c].op)))
    case End(c, _) => c in s.entries && s.entries[c].At? && L.Enabled(s.limiter, L.Settle(WorkOf(c, s.entries[c].op)))
    case Gather(c) => c in s.entries && s.entries[c].Gathering? && AllSettled(s, c)
    case Abort => true
  }

  /** An entry whose operation the limiter threw at, for the signal, fails. */
  function Told(s: System, c: nat, op: Op, l: L.System): System {
    var work := WorkOf(c, op);
    System(s.tree, l, s.entries[c := if work in l.works && l.works[work] == L.Ended then Settled(false) else At(op)])
  }

  function Step(s: System, e: Event): System
    requires Enabled(s, e)
  {
    match e
    case Ask(c) => Told(s, c, s.entries[c].op, L.Step(s.limiter, L.Call(WorkOf(c, s.entries[c].op))))
    case Wake(c) => Told(s, c, s.entries[c].op, L.Step(s.limiter, L.Wake(WorkOf(c, s.entries[c].op))))
    case End(c, ok) =>
      var op := s.entries[c].op;
      var entries := if op == ReadDirectory && ok then Opened(s, c) else s.entries;
      System(s.tree, L.Step(s.limiter, L.Settle(WorkOf(c, op))), entries[c := Next(op, ok)])
    case Gather(c) => s.(entries := s.entries[c := if AllCopied(s, c) then Ready(Stat) else Settled(false)])
    case Abort => s.(limiter := L.Step(s.limiter, L.Abort))
  }

  /** How many of its operations an entry may have asked a slot for. */
  function Asked(e: Entry): nat {
    match e
    case Ready(op) => Place(op)
    case At(op) => Place(op) + 1
    case Gathering => 2
    case Settled(_) => 4
  }

  /** The limiter's work is that of the entries at an operation, one piece each. */
  predicate WorkInv(works: map<L.Work, L.Phase>, entries: map<nat, Entry>) {
    && (forall w <- works :: w.of in entries && w.step < Asked(entries[w.of]))
    && (forall w <- works :: works[w] != L.Ended ==> entries[w.of].At? && WorkOf(w.of, entries[w.of].op) == w)
    && (forall c <- entries :: entries[c].At? ==>
        WorkOf(c, entries[c].op) in works && works[WorkOf(c, entries[c].op)] != L.Ended)
  }

  /** Whether an entry's directory was read, and what it holds is copied. */
  predicate Filled(e: Entry) {
    (e.Ready? && (e.op == Stat || e.op == ChangeMode)) || (e.At? && (e.op == Stat || e.op == ChangeMode))
      || e == Settled(true)
  }

  predicate OpOf(kind: Kind, op: Op) {
    match kind
    case Directory => op == MakeDirectory || op == ReadDirectory || op == Stat || op == ChangeMode
    case Link => op == ReadLink || op == MakeLink
    case File => op == CopyFile
    case Special => false
  }

  predicate EntryOf(kind: Kind, e: Entry) {
    match e
    case Ready(op) => OpOf(kind, op)
    case At(op) => OpOf(kind, op)
    case Gathering => kind == Directory
    case Settled(ok) => kind == Special ==> !ok
  }

  /**
   * What a directory holds begins to be copied only once it was read; it is all copied before its
   * directory's mode is set; and none of it is still being copied once its directory has settled.
   */
  predicate ChildInv(e: Entry, child: Entry) {
    && (e.Gathering? || Filled(e) || e.Settled?)
    && (Filled(e) ==> child == Settled(true))
    && (e.Settled? ==> child.Settled?)
  }

  predicate Keeping(tree: Tree, entries: map<nat, Entry>, c: nat)
    requires c in entries
  {
    && c in tree.kinds && EntryOf(tree.kinds[c], entries[c])
    && (c != 0 ==> c in tree.parent && tree.parent[c] in entries && ChildInv(entries[tree.parent[c]], entries[c]))
  }

  predicate Reached(tree: Tree, entries: map<nat, Entry>, c: nat)
    requires c in tree.parent
  {
    var of := tree.parent[c];
    of in entries && (entries[of].Gathering? || Filled(entries[of])) ==> c in entries
  }

  predicate TreeInv(tree: Tree, entries: map<nat, Entry>) {
    && 0 in entries
    && (forall c <- entries {:trigger Keeping(tree, entries, c)} :: Keeping(tree, entries, c))
    && (forall c <- tree.parent {:trigger Reached(tree, entries, c)} :: Reached(tree, entries, c))
  }

  predicate Inv(s: System) {
    && IsTree(s.tree) && L.Inv(s.limiter)
    && WorkInv(s.limiter.works, s.entries) && TreeInv(s.tree, s.entries)
  }

  /** Whether a step of the limiter changed of its works, but for `work`, at most which of them have slots. */
  predicate OnlyOf(before: map<L.Work, L.Phase>, after: map<L.Work, L.Phase>, work: L.Work) {
    && after.Keys == before.Keys + {work}
    && (forall w <- before :: w != work ==> (after[w] == L.Ended <==> before[w] == L.Ended))
  }

  lemma {:induction false} FreesOnly(l: L.System, work: L.Work)
    requires L.Inv(l) && work in l.works && work !in l.state.waiting
    ensures OnlyOf(l.works, L.Frees(l, work).works, work) && L.Frees(l, work).works[work] == L.Ended
  {
    if l.state.waiting != [] { assert l.state.waiting[0] in l.state.waiting; }
  }

  lemma {:induction false} StepsOnly(l: L.System, e: L.Event, work: L.Work)
    requires L.Inv(l) && L.Enabled(l, e) && (e == L.Call(work) || e == L.Wake(work) || e == L.Settle(work))
    ensures OnlyOf(l.works, L.Step(l, e).works, work) && L.Inv(L.Step(l, e))
    ensures e.Settle? ==> L.Step(l, e).works[work] == L.Ended
  {
    L.StepKeeps(l, e);
    if e.Call? && l.state.running < l.state.limit {
      L.TakesKeeps(l, work);
      if l.aborted { FreesOnly(L.Takes(l, work), work); }
    } else if !e.Call? {
      FreesOnly(l, work);
    }
  }

  /** What an entry's step does to the works, where the entry ends up being at `work` or past it. */
  lemma {:induction false} WorkKeeps(before: map<L.Work, L.Phase>, after: map<L.Work, L.Phase>,
      entries: map<nat, Entry>, c: nat, e: Entry, op: Op)
    requires WorkInv(before, entries) && c in entries && OnlyOf(before, after, WorkOf(c, op))
    requires entries[c] == Ready(op) || entries[c] == At(op)
    requires if after[WorkOf(c, op)] == L.Ended then !e.At? && Asked(e) > Place(op) else e == At(op)
    ensures WorkInv(after, entries[c := e])
  {
    forall w <- after ensures after[w] != L.Ended ==>
      w.of in entries && entries[c := e][w.of].At? && WorkOf(w.of, entries[c := e][w.of].op) == w {
      if w != WorkOf(c, op) { assert w in before; }
    }
    forall w <- after ensures w.of in entries && w.step < Asked(entries[c := e][w.of]) {
      if w != WorkOf(c, op) { assert w in before; }
    }
  }

  /** Entries that have asked for nothing yet bring no work. */
  lemma {:induction false} WorkOpens(works: map<L.Work, L.Phase>, entries: map<nat, Entry>, more: map<nat, Entry>)
    requires WorkInv(works, entries) && forall c <- more :: c !in entries && !more[c].At?
    ensures WorkInv(works, entries + more)
  {
  }

  /** Whether an entry may come to be `e` for what its directory holds. */
  predicate HoldsFor(tree: Tree, entries: map<nat, Entry>, c: nat, e: Entry) {
    && (forall d <- entries :: Child(tree, d, c) ==> ChildInv(e, entries[d]))
    && (e.Gathering? || Filled(e) ==> forall d <- tree.parent :: Child(tree, d, c) ==> d in entries)
  }

  /** An entry that has not settled may move, as what is above it gathers. */
  lemma {:induction false} MoveKeeps(tree: Tree, entries: map<nat, Entry>, c: nat, e: Entry)
    requires IsTree(tree) && TreeInv(tree, entries) && c in entries && !entries[c].Settled?
    requires c in tree.kinds && EntryOf(tree.kinds[c], e) && HoldsFor(tree, entries, c, e)
    ensures TreeInv(tree, entries[c := e])
  {
    var moved := entries[c := e];
    forall d <- moved ensures Keeping(tree, moved, d) {
      assert Keeping(tree, entries, d) && Placed(tree, d);
      if d != 0 { assert Child(tree, d, tree.parent[d]); }
    }
    forall d <- tree.parent ensures Reached(tree, moved, d) {
      assert Reached(tree, entries, d) && Child(tree, d, tree.parent[d]);
    }
  }

  /** A directory that is yet to be read holds nothing being copied; another kind never does. */
  lemma {:induction false} HoldsNothing(tree: Tree, entries: map<nat, Entry>, c: nat)
    requires IsTree(tree) && TreeInv(tree, entries) && c in entries
    requires c in tree.kinds
      && (tree.kinds[c] != Directory || !(entries[c].Gathering? || Filled(entries[c]) || entries[c].Settled?))
    ensures forall d <- entries :: !Child(tree, d, c)
  {
    forall d <- entries ensures !Child(tree, d, c) {
      assert Keeping(tree, entries, d) && Placed(tree, d);
    }
  }

  lemma {:induction false} NextHolds(tree: Tree, entries: map<nat, Entry>, c: nat, op: Op, e: Entry)
    requires IsTree(tree) && TreeInv(tree, entries) && c in entries && (entries[c] == At(op) || entries[c] == Ready(op))
    requires e == At(op) || e == Settled(false) || (e == Next(op, true) && op != ReadDirectory)
    ensures c in tree.kinds && HoldsFor(tree, entries, c, e) && EntryOf(tree.kinds[c], e)
  {
    assert Keeping(tree, entries, c);
    if Filled(entries[c]) {
      forall d <- entries | Child(tree, d, c) ensures ChildInv(e, entries[d]) {
        assert Keeping(tree, entries, d) && Placed(tree, d);
      }
      forall d <- tree.parent | Child(tree, d, c) ensures d in entries {
        assert Reached(tree, entries, d);
      }
    } else {
      HoldsNothing(tree, entries, c);
      if tree.kinds[c] != Directory {
        forall d <- tree.parent ensures !Child(tree, d, c) { assert Placed(tree, d); }
      }
    }
  }

  /** Whether `open` is `entries` with `c` gathering, and all that is in it begun. */
  predicate Opens(tree: Tree, entries: map<nat, Entry>, c: nat, open: map<nat, Entry>) {
    && c in entries && c in open && open[c] == Gathering
    && (forall d <- entries :: d in open && (d != c ==> open[d] == entries[d]) && !Child(tree, d, c))
    && (forall d <- open :: d in entries || (d in tree.kinds && Child(tree, d, c) && open[d] == Begun(tree.kinds[d])))
    && (forall d <- tree.kinds :: Child(tree, d, c) ==> d in open)
  }

  lemma {:induction false} OpensAll(s: System, c: nat)
    requires IsTree(s.tree) && TreeInv(s.tree, s.entries) && c in s.entries && s.entries[c] == At(ReadDirectory)
    ensures Opens(s.tree, s.entries, c, Opened(s, c)[c := Gathering])
    ensures forall d <- Opened(s, c) :: d !in s.entries ==> !Opened(s, c)[d].At?
    ensures forall d <- s.entries :: d in Opened(s, c) && Opened(s, c)[d] == s.entries[d]
  {
    assert Keeping(s.tree, s.entries, c);
    HoldsNothing(s.tree, s.entries, c);
  }

  lemma {:induction false} OpenKeeps(tree: Tree, entries: map<nat, Entry>, c: nat, open: map<nat, Entry>)
    requires IsTree(tree) && TreeInv(tree, entries) && Opens(tree, entries, c, open) && entries[c] == At(ReadDirectory)
    ensures TreeInv(tree, open)
  {
    assert Keeping(tree, entries, c);
    forall d <- open ensures Keeping(tree, open, d) {
      if d in entries { assert Keeping(tree, entries, d) && !Child(tree, d, c); }
      assert Placed(tree, d);
    }
    forall d <- tree.parent ensures Reached(tree, open, d) {
      assert Reached(tree, entries, d) && Child(tree, d, tree.parent[d]);
    }
  }

  lemma {:induction false} AskKeeps(s: System, c: nat, l: L.Event)
    requires Inv(s) && c in s.entries && (s.entries[c].Ready? || s.entries[c].At?) && L.Enabled(s.limiter, l)
    requires l == if s.entries[c].Ready? then L.Call(WorkOf(c, s.entries[c].op)) else L.Wake(WorkOf(c, s.entries[c].op))
    ensures Inv(Told(s, c, s.entries[c].op, L.Step(s.limiter, l)))
  {
    var op := s.entries[c].op;
    var after := L.Step(s.limiter, l);
    var e := if after.works[WorkOf(c, op)] == L.Ended then Settled(false) else At(op);
    StepsOnly(s.limiter, l, WorkOf(c, op));
    WorkKeeps(s.limiter.works, after.works, s.entries, c, e, op);
    NextHolds(s.tree, s.entries, c, op, e);
    MoveKeeps(s.tree, s.entries, c, e);
  }

  lemma {:induction false} ReadKeeps(s: System, c: nat)
    requires Inv(s) && Enabled(s, End(c, true)) && s.entries[c].op == ReadDirectory
    ensures Inv(Step(s, End(c, true)))
  {
    var work := WorkOf(c, ReadDirectory);
    var after := L.Step(s.limiter, L.Settle(work));
    StepsOnly(s.limiter, L.Settle(work), work);
    OpensAll(s, c);
    OpenKeeps(s.tree, s.entries, c, Opened(s, c)[c := Gathering]);
    var more := map d | d in Opened(s, c) && d !in s.entries :: Opened(s, c)[d];
    assert Opened(s, c) == s.entries + more;
    WorkOpens(s.limiter.works, s.entries, more);
    WorkKeeps(s.limiter.works, after.works, s.entries + more, c, Gathering, ReadDirectory);
  }

  lemma {:induction false} EndKeeps(s: System, c: nat, ok: bool)
    requires Inv(s) && Enabled(s, End(c, ok)) && !(s.entries[c].op == ReadDirectory && ok)
    ensures Inv(Step(s, End(c, ok)))
  {
    var op := s.entries[c].op;
    var work := WorkOf(c, op);
    StepsOnly(s.limiter, L.Settle(work), work);
    WorkKeeps(s.limiter.works, L.Step(s.limiter, L.Settle(work)).works, s.entries, c, Next(op, ok), op);
    NextHolds(s.tree, s.entries, c, op, Next(op, ok));
    MoveKeeps(s.tree, s.entries, c, Next(op, ok));
  }

  lemma {:induction false} GatherKeeps(s: System, c: nat)
    requires Inv(s) && Enabled(s, Gather(c))
    ensures Inv(Step(s, Gather(c)))
  {
    var e := if AllCopied(s, c) then Ready(Stat) else Settled(false);
    assert Keeping(s.tree, s.entries, c);
    forall d <- s.tree.parent | Child(s.tree, d, c) ensures d in s.entries { assert Reached(s.tree, s.entries, d); }
    assert HoldsFor(s.tree, s.entries, c, e);
    MoveKeeps(s.tree, s.entries, c, e);
  }

  lemma {:induction false} StepKeeps(s: System, e: Event)
    requires Inv(s) && Enabled(s, e)
    ensures Inv(Step(s, e))
  {
    match e
    case Ask(c) => AskKeeps(s, c, L.Call(WorkOf(c, s.entries[c].op)));
    case Wake(c) => AskKeeps(s, c, L.Wake(WorkOf(c, s.entries[c].op)));
    case End(c, ok) => if s.entries[c].op == ReadDirectory && ok { ReadKeeps(s, c); } else { EndKeeps(s, c, ok); }
    case Gather(c) => GatherKeeps(s, c);
    case Abort => L.StepKeeps(s.limiter, L.Abort);
  }

  predicate Possible(s: System, es: seq<Event>)
    decreases |es|
  {
    es == [] || (Enabled(s, es[0]) && Possible(Step(s, es[0]), es[1..]))
  }

  function After(s: System, es: seq<Event>): System
    requires Possible(s, es)
    decreases |es|
  {
    if es == [] then s else After(Step(s, es[0]), es[1..])
  }

  lemma {:induction false} InvKept(s: System, es: seq<Event>)
    requires Inv(s) && Possible(s, es)
    ensures Inv(After(s, es))
    decreases |es|
  {
    if es != [] {
      StepKeeps(s, es[0]);
      InvKept(Step(s, es[0]), es[1..]);
    }
  }

  lemma {:induction false} EveryReachableState(tree: Tree, limit: pos, es: seq<Event>)
    requires IsTree(tree) && Possible(Initial(tree, limit), es)
    ensures Inv(After(Initial(tree, limit), es))
  {
    assert L.Holding(map[]) == {} && Placed(tree, 0);
    forall c <- tree.parent ensures Reached(tree, map[0 := Ready(ReadDirectory)], c) {}
    assert Keeping(tree, map[0 := Ready(ReadDirectory)], 0);
    InvKept(Initial(tree, limit), es);
  }

  /**
   * An entry settles only after all that is in it, so once the root has, nothing is being copied,
   * and no work is left.
   */
  lemma {:induction false} SettledWithin(s: System, c: nat)
    requires Inv(s) && s.entries[0].Settled? && c in s.entries
    ensures s.entries[c].Settled?
    ensures s.entries[0].ok ==> s.entries[c].ok
    decreases c
  {
    assert Keeping(s.tree, s.entries, c) && Placed(s.tree, c);
    if c != 0 { SettledWithin(s, s.tree.parent[c]); }
  }

  lemma {:induction false} NothingIsLeftRunning(s: System)
    requires Inv(s) && s.entries[0].Settled?
    ensures forall w <- s.limiter.works :: s.limiter.works[w] == L.Ended
    ensures s.limiter.state.running == 0 && s.limiter.state.waiting == []
  {
    forall w <- s.limiter.works ensures s.limiter.works[w] == L.Ended {
      assert w.of in s.entries;
      SettledWithin(s, w.of);
    }
    assert L.Holding(s.limiter.works) == {};
  }

  /** Settled without failing, the root has every entry of the tree so settled in it. */
  lemma {:induction false} AllSettleWell(s: System, c: nat)
    requires Inv(s) && s.entries[0] == Settled(true) && c in s.tree.kinds
    ensures c in s.entries && s.entries[c] == Settled(true)
    decreases c
  {
    assert Placed(s.tree, c);
    if c != 0 {
      AllSettleWell(s, s.tree.parent[c]);
      assert Reached(s.tree, s.entries, c);
      assert Keeping(s.tree, s.entries, c);
    }
  }

  /**
   * A copy never waits for ever: while its root has not settled, some entry has a step to take.
   * An entry waits for a slot with none of its own, and a directory for what it holds likewise.
   */
  lemma {:induction false} NeverDeadlocks(s: System, c: nat) returns (e: Event)
    requires Inv(s) && c in s.entries && !s.entries[c].Settled?
    ensures Enabled(s, e) && !e.Abort?
    decreases Highest(s.tree.parent.Keys) - c
  {
    match s.entries[c]
    case Ready(op) =>
      var work := WorkOf(c, op);
      assert work !in s.limiter.works;
      e := Ask(c);
    case At(op) =>
      var l := L.SomeWorkGoesOn(s.limiter, WorkOf(c, op));
      e := if l.Wake? then Wake(l.work.of) else End(l.work.of, true);
    case Gathering =>
      if AllSettled(s, c) {
        e := Gather(c);
      } else {
        var d :| d in s.entries && Child(s.tree, d, c) && !s.entries[d].Settled?;
        assert d in s.tree.parent.Keys && Placed(s.tree, d);
        e := NeverDeadlocks(s, d);
      }
  }

  ghost function Highest(ns: set<nat>): (n: nat)
    ensures forall m <- ns :: m <= n
  {
    if ns == {} then 0
    else
      var m :| m in ns;
      var rest := Highest(ns - {m});
      assert forall k <- ns :: k == m || k in ns - {m};
      if m > rest then m else rest
  }
}
