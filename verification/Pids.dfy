/**
 * packages/core/src/runtime/process-snapshots.ts: how far ahead a PID lies on a counter that
 * wraps, and which PID a server's start moves the counter past for the snapshots it holds.
 */
module Pids {
  import opened Options

  const LOWEST_WRAPPED_PID: int := 300

  /** The last PID handed out, and the pid_max PIDs end below. */
  datatype Counter = Counter(last: int, max: int)

  /**
   * A count of PIDs, `Infinity` where it is never reached; negative where a pid_max lowered since
   * lies behind the counter.
   */
  datatype Count = Finite(n: int) | Infinity

  datatype Snapshot = Snapshot(pid: int, maxPid: int)

  datatype Advance = Advance(past: int, wrapping: bool)

  datatype Beyond = Beyond(count: nat, nearest: Count)

  datatype Reservation = Reservation(advance: Option<Advance>, beyond: Option<Beyond>)

  /** What a kernel's counter is: below its pid_max, which lies above the PIDs it reserves. */
  predicate Valid(c: Counter) {
    0 <= c.last < c.max && LOWEST_WRAPPED_PID < c.max
  }

  /** The counter once it handed out its next PID, where every PID is free. */
  function Next(c: Counter): Counter {
    c.(last := if c.last + 1 < c.max then c.last + 1 else LOWEST_WRAPPED_PID)
  }

  /** The PID handed out after `k` others. */
  function Handed(c: Counter, k: nat): int
    decreases k
  {
    if k == 0 then Next(c).last else Handed(Next(c), k - 1)
  }

  function PidsBefore(c: Counter, pid: int): Count
  {
    if pid >= c.max then Infinity
    else if pid > c.last then Finite(pid - c.last - 1)
    else if pid < LOWEST_WRAPPED_PID then Infinity
    else Finite(c.max - c.last - 1 + (pid - LOWEST_WRAPPED_PID))
  }

  function More(c: Count): Count {
    if c.Finite? then Finite(c.n + 1) else Infinity
  }

  predicate Within(c: Count, budget: nat) {
    c.Finite? && c.n <= budget
  }

  predicate AtMost(a: Count, b: Count) {
    b.Infinity? || (a.Finite? && a.n <= b.n)
  }

  /** The PIDs handed out up to and with `pid`. */
  function Need(c: Counter, pid: int): Count
  {
    More(PidsBefore(c, pid))
  }

  /** How many of `snapshots` lie further ahead than `budget`. */
  function BeyondCount(c: Counter, snapshots: seq<Snapshot>, budget: nat): nat
  {
    if snapshots == [] then 0
    else BeyondCount(c, snapshots[..|snapshots| - 1], budget)
         + if Within(Need(c, snapshots[|snapshots| - 1].maxPid), budget) then 0 else 1
  }

  /** What the counter hands out before it wraps, and in its first turn after. */
  lemma {:induction false} HandedInFirstTurn(c: Counter, k: nat)
    requires Valid(c) && k < c.max - 1 - c.last + (c.max - LOWEST_WRAPPED_PID)
    ensures Handed(c, k) == if k < c.max - 1 - c.last then c.last + 1 + k
                            else LOWEST_WRAPPED_PID + (k - (c.max - 1 - c.last))
    decreases k
  {
    if k > 0 { HandedInFirstTurn(Next(c), k - 1); }
  }

  lemma {:induction false} HandedAboveOrWrapped(c: Counter, k: nat)
    requires Valid(c)
    ensures Handed(c, k) < c.max && (Handed(c, k) > c.last || Handed(c, k) >= LOWEST_WRAPPED_PID)
    decreases k
  {
    if k > 0 { HandedAboveOrWrapped(Next(c), k - 1); }
  }

  /** `PidsBefore` is what handing out PIDs one by one comes to: `pid` comes first after that many. */
  lemma {:induction false} PidsBeforeCountsHandedPids(c: Counter, pid: int)
    requires Valid(c)
    ensures match PidsBefore(c, pid)
            case Finite(n) => n >= 0 && Handed(c, n) == pid && forall k: nat | k < n :: Handed(c, k) != pid
            case Infinity => forall k: nat :: Handed(c, k) != pid
  {
    match PidsBefore(c, pid)
    case Finite(n) =>
      HandedInFirstTurn(c, n);
      forall k: nat | k < n ensures Handed(c, k) != pid { HandedInFirstTurn(c, k); }
    case Infinity =>
      forall k: nat ensures Handed(c, k) != pid { HandedAboveOrWrapped(c, k); }
  }

  /** A PID is within a budget exactly if the counter hands it out in that many. */
  lemma {:induction false} WithinIsHandedOut(c: Counter, pid: int, budget: nat)
    requires Valid(c)
    ensures Within(Need(c, pid), budget) <==> exists k: nat :: k < budget && Handed(c, k) == pid
  {
    PidsBeforeCountsHandedPids(c, pid);
    match PidsBefore(c, pid)
    case Finite(n) => assert Handed(c, n) == pid;
    case Infinity =>
  }

  /** The counter is moved past the furthest snapshot within `budget`, round its wrap where that lies behind it. */
  ghost predicate MovesPastFurthest(c: Counter, snapshots: seq<Snapshot>, budget: nat, advance: Option<Advance>) {
    match advance
    case None => forall s <- snapshots :: !Within(Need(c, s.maxPid), budget)
    case Some(a) =>
      && Within(Need(c, a.past), budget)
      && (exists s <- snapshots :: s.maxPid == a.past)
      && (forall s <- snapshots :: Within(Need(c, s.maxPid), budget) ==> AtMost(Need(c, s.maxPid), Need(c, a.past)))
      && (a.wrapping <==> a.past <= c.last)
  }

  /** The snapshots beyond `budget` are counted, and the nearest of them found. */
  ghost predicate CountsBeyond(c: Counter, snapshots: seq<Snapshot>, budget: nat, beyond: Option<Beyond>) {
    match beyond
    case None => forall s <- snapshots :: Within(Need(c, s.maxPid), budget)
    case Some(b) =>
      && b.count == BeyondCount(c, snapshots, budget)
      && (exists s <- snapshots :: Need(c, s.maxPid) == b.nearest && !Within(b.nearest, budget))
      && (forall s <- snapshots :: !Within(Need(c, s.maxPid), budget) ==> AtMost(b.nearest, Need(c, s.maxPid)))
  }

  method PidReservation(counter: Counter, snapshots: seq<Snapshot>, budget: nat) returns (r: Reservation)
    ensures MovesPastFurthest(counter, snapshots, budget, r.advance)
    ensures CountsBeyond(counter, snapshots, budget, r.beyond)
  {
    var advance: Option<(int, int)> := None;
    var beyond: Option<Beyond> := None;
    for i := 0 to |snapshots|
      invariant advance.None? ==> forall s <- snapshots[..i] :: !Within(Need(counter, s.maxPid), budget)
      invariant advance.Some? ==>
        && Need(counter, advance.value.0) == Finite(advance.value.1) && advance.value.1 <= budget
        && (exists s <- snapshots[..i] :: s.maxPid == advance.value.0)
        && (forall s <- snapshots[..i] :: Within(Need(counter, s.maxPid), budget) ==>
              AtMost(Need(counter, s.maxPid), Finite(advance.value.1)))
      invariant beyond.None? ==> forall s <- snapshots[..i] :: Within(Need(counter, s.maxPid), budget)
      invariant BeyondCount(counter, snapshots[..i], budget) == if beyond.None? then 0 else beyond.value.count
      invariant beyond.Some? ==>
        && (exists s <- snapshots[..i] ::
            Need(counter, s.maxPid) == beyond.value.nearest && !Within(beyond.value.nearest, budget))
        && (forall s <- snapshots[..i] :: !Within(Need(counter, s.maxPid), budget) ==>
              AtMost(beyond.value.nearest, Need(counter, s.maxPid)))
    {
      var maxPid := snapshots[i].maxPid;
      var need := More(PidsBefore(counter, maxPid));
      if Within(need, budget) {
        if advance.None? || need.n > advance.value.1 { advance := Some((maxPid, need.n)); }
      } else {
        var count := if beyond.None? then 0 else beyond.value.count;
        var nearest := if beyond.None? || AtMost(need, beyond.value.nearest) then need else beyond.value.nearest;
        beyond := Some(Beyond(count + 1, nearest));
      }
      assert snapshots[..i + 1] == snapshots[..i] + [snapshots[i]];
    }
    assert snapshots[..|snapshots|] == snapshots;
    r := Reservation(
      if advance.None? then None else Some(Advance(advance.value.0, advance.value.0 <= counter.last)),
      beyond);
  }

  /**
   * Whether `pid` is not handed out within a whole turn of the counter less the budget, once the
   * counter moved to `past`: it is behind for good, comes no later than `past`, or lies further
   * ahead of it than that.
   */
  predicate StaysFree(c: Counter, past: int, pid: int, budget: nat) {
    var need, moved := Need(c, pid), Need(c, past);
    need.Infinity? || AtMost(need, moved) || (moved.Finite? && need.n - moved.n > c.max - LOWEST_WRAPPED_PID - budget)
  }

  /** Whether the next `n` PIDs leave `pid` out. */
  ghost predicate NotHandedWithin(c: Counter, pid: int, n: int) {
    forall k: nat | k < n :: Handed(c, k) != pid
  }

  /** Moved to any PID within the budget, the counter leaves a PID free so long exactly where that holds. */
  lemma {:induction false} MovedPastExactly(c: Counter, past: int, pid: int, budget: nat)
    requires Valid(c) && Within(Need(c, past), budget)
    ensures NotHandedWithin(Counter(past, c.max), pid, c.max - LOWEST_WRAPPED_PID - budget) <==>
      StaysFree(c, past, pid, budget)
  {
    PidsBeforeCountsHandedPids(Counter(past, c.max), pid);
  }

  /**
   * Once the counter moved to where a reservation has it, every PID of a tree stays free so long
   * exactly where none of them lies ahead of what it moved past, and near.
   */
  lemma {:induction false} TreeStaysFreeExactly(c: Counter, snapshots: seq<Snapshot>, budget: nat, a: Advance,
      tree: set<int>)
    requires Valid(c) && MovesPastFurthest(c, snapshots, budget, Some(a))
    ensures (forall pid <- tree :: NotHandedWithin(Counter(a.past, c.max), pid, c.max - LOWEST_WRAPPED_PID - budget))
        <==> forall pid <- tree :: StaysFree(c, a.past, pid, budget)
  {
    forall pid <- tree
      ensures NotHandedWithin(Counter(a.past, c.max), pid, c.max - LOWEST_WRAPPED_PID - budget)
          <==> StaysFree(c, a.past, pid, budget)
    {
      MovedPastExactly(c, a.past, pid, budget);
    }
  }

  /** The move to `past` hands out as many PIDs as it needs, and crosses pid_max where `past` lies behind. */
  lemma {:induction false} MoveNeeds(c: Counter, past: int)
    requires Valid(c) && Need(c, past).Finite?
    ensures Need(c, past).n > 0 && Handed(c, Need(c, past).n - 1) == past
    ensures past <= c.last <==> c.last + Need(c, past).n >= c.max
  {
    PidsBeforeCountsHandedPids(c, past);
  }

  /**
   * Once the counter moved to where a reservation has it, the highest PID of a snapshot within
   * the budget comes again at the earliest after a whole turn of the counter less the budget.
   */
  lemma {:induction false} ReservedPidsStayFree(c: Counter, snapshots: seq<Snapshot>, budget: nat, a: Advance,
      s: Snapshot)
    requires Valid(c) && MovesPastFurthest(c, snapshots, budget, Some(a))
    requires s in snapshots && Within(Need(c, s.maxPid), budget)
    ensures NotHandedWithin(Counter(a.past, c.max), s.maxPid, c.max - LOWEST_WRAPPED_PID - budget)
  {
    MovedPastExactly(c, a.past, s.maxPid, budget);
  }

  /** Every snapshot is reserved for or counted: none is forgotten. */
  lemma {:induction false} EverySnapshotIsAnswered(c: Counter, snapshots: seq<Snapshot>, budget: nat, r: Reservation)
    requires MovesPastFurthest(c, snapshots, budget, r.advance) && CountsBeyond(c, snapshots, budget, r.beyond)
    ensures r.advance.None? <==> BeyondCount(c, snapshots, budget) == |snapshots|
    ensures r.beyond.None? <==> BeyondCount(c, snapshots, budget) == 0
  {
    BeyondCountsAll(c, snapshots, budget);
  }

  lemma {:induction false} BeyondCountsAll(c: Counter, snapshots: seq<Snapshot>, budget: nat)
    ensures BeyondCount(c, snapshots, budget) <= |snapshots|
    ensures BeyondCount(c, snapshots, budget) == |snapshots| <==>
      forall s <- snapshots :: !Within(Need(c, s.maxPid), budget)
    ensures BeyondCount(c, snapshots, budget) == 0 <==> forall s <- snapshots :: Within(Need(c, s.maxPid), budget)
    decreases |snapshots|
  {
    if snapshots != [] {
      var rest, s := snapshots[..|snapshots| - 1], snapshots[|snapshots| - 1];
      BeyondCountsAll(c, rest, budget);
      assert snapshots == rest + [s];
    }
  }

  /**
   * The bound is the highest PID's: another of the tree's, behind the counter already, comes
   * sooner where it lies near ahead. Here 10,000 of a tree up to 20,001 comes after 22,466 PIDs,
   * while the bound for 20,001 is a turn of 32,468 less the budget of 100.
   */
  lemma {:induction false} LowerPidsOfTheTreeComeSooner()
    ensures var c, tree := Counter(20_000, 32_768), Snapshot(10_000, 20_001);
      && MovesPastFurthest(c, [tree], 100, Some(Advance(20_001, false)))
      && StaysFree(c, 20_001, tree.maxPid, 100) && !StaysFree(c, 20_001, tree.pid, 100)
      && !NotHandedWithin(Counter(20_001, c.max), tree.pid, c.max - LOWEST_WRAPPED_PID - 100)
  {
    var c, tree := Counter(20_000, 32_768), Snapshot(10_000, 20_001);
    assert tree in [tree] && tree.maxPid == 20_001;
    MovedPastExactly(c, 20_001, tree.pid, 100);
  }
}
