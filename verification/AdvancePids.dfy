/**
 * packages/core/native/advance-pids.c, the helper that moves a PID namespace's counter to a
 * target, and `advancePidsPast` of packages/core/src/runtime/process-snapshots.ts, which runs
 * it. A fork hands out the next free PID; nothing else forks meanwhile.
 */
module AdvancePids {
  import opened Options
  import opened Pids

  /** The namespace: its pid_max, and the PIDs live processes hold. */
  datatype Kernel = Kernel(max: int, taken: set<int>)

  predicate Free(k: Kernel, pid: int) {
    pid < k.max && pid !in k.taken
  }

  function LeastFree(k: Kernel, low: int): (r: Option<int>)
    ensures r.Some? ==> low <= r.value && Free(k, r.value) && forall pid | low <= pid && Free(k, pid) :: r.value <= pid
    ensures r.None? ==> forall pid | low <= pid :: !Free(k, pid)
    decreases k.max - low
  {
    if low >= k.max then None else if low !in k.taken then Some(low) else LeastFree(k, low + 1)
  }

  /** The PID a fork is handed: the first free one past the last, or past the wrap. */
  function Fork(k: Kernel, last: int): Option<int> {
    var ahead := LeastFree(k, last + 1);
    if ahead.Some? then ahead else LeastFree(k, LOWEST_WRAPPED_PID)
  }

  /** The climb's variables at the head of its loop: `previous` is negative where none is known. */
  datatype Climb = Climb(last: int, previous: int, wrapped: bool)

  predicate Known(c: Climb) {
    c.previous < 0 || c.previous == c.last
  }

  /** One turn of the loop. */
  function Turned(k: Kernel, c: Climb): Climb
    requires Fork(k, c.last).Some?
  {
    var pid := Fork(k, c.last).value;
    Climb(pid, pid, c.wrapped || (c.previous >= 0 && pid < c.previous))
  }

  predicate There(c: Climb, target: int, wrap: bool) {
    c.last >= target && (!wrap || c.wrapped)
  }

  /** Whether the loop returns in its turn `n`, counted from 0. */
  predicate ReturnsIn(k: Kernel, c: Climb, target: int, wrap: bool, n: nat)
    decreases n
  {
    && Fork(k, c.last).Some?
    && var t := Turned(k, c);
       if There(t, target, wrap) then n == 0 else n > 0 && ReturnsIn(k, t, target, wrap, n - 1)
  }

  ghost predicate Returns(k: Kernel, c: Climb, target: int, wrap: bool) {
    exists n: nat :: ReturnsIn(k, c, target, wrap, n)
  }

  /**
   * Whether a climb from `c` gets to `pid` or another at or above the target: `pid` is free
   * and ahead, and where the climb must see the counter wrap first, it does, as `pid` or
   * another comes below the PID before it.
   */
  ghost predicate Leads(k: Kernel, c: Climb, target: int, wrap: bool, pid: int) {
    && target <= pid && Free(k, pid)
    && if !wrap || c.wrapped then pid > c.last || pid >= LOWEST_WRAPPED_PID
       else LOWEST_WRAPPED_PID <= pid && (pid < c.previous || exists other :: IsOther(k, pid, other))
  }

  predicate IsOther(k: Kernel, pid: int, other: int) {
    other != pid && LOWEST_WRAPPED_PID <= other && Free(k, other)
  }

  ghost predicate Comes(k: Kernel, c: Climb, target: int, wrap: bool) {
    exists pid :: Leads(k, c, target, wrap, pid)
  }

  /** Whether a turn from `c` to `t` brings the climb nearer seeing the wrap, and then `pid`. */
  predicate Nearer(k: Kernel, c: Climb, t: Climb, wrap: bool, pid: int) {
    if wrap && !c.wrapped then t.wrapped || (t.previous >= 0 && c.previous < 0) || t.last > c.last
    else Distance(k, t, pid) < Distance(k, c, pid)
  }

  /** How many PIDs lie between the last and `pid`, round the wrap. */
  function Distance(k: Kernel, c: Climb, pid: int): int {
    if c.last < pid then pid - c.last else k.max - c.last + pid
  }

  lemma {:induction false} TurnNears(k: Kernel, c: Climb, target: int, wrap: bool, pid: int)
    requires Known(c) && 0 <= c.last < k.max && Leads(k, c, target, wrap, pid) && target >= 1
    ensures Fork(k, c.last).Some?
    ensures var t := Turned(k, c);
      && Known(t) && 0 < t.last < k.max
      && (There(t, target, wrap) || (Leads(k, t, target, wrap, pid) && Nearer(k, c, t, wrap, pid)))
  {
  }

  /** A climb that gets there returns, after finitely many turns. */
  lemma {:induction false} ComesReturns(k: Kernel, c: Climb, target: int, wrap: bool, pid: int) returns (n: nat)
    requires Known(c) && 0 <= c.last < k.max && Leads(k, c, target, wrap, pid) && target >= 1
    ensures ReturnsIn(k, c, target, wrap, n)
    decreases wrap && !c.wrapped, c.previous < 0, if wrap && !c.wrapped then k.max - c.last else Distance(k, c, pid)
  {
    TurnNears(k, c, target, wrap, pid);
    var t := Turned(k, c);
    if There(t, target, wrap) {
      n := 0;
    } else {
      var m := ComesReturns(k, t, target, wrap, pid);
      n := m + 1;
    }
  }

  /** A climb that returns was to get there: with no such PID it fails or goes on for ever. */
  lemma {:induction false} ReturnsComes(k: Kernel, c: Climb, target: int, wrap: bool, n: nat)
    requires Known(c) && ReturnsIn(k, c, target, wrap, n)
    ensures Comes(k, c, target, wrap)
    decreases n
  {
    var t := Turned(k, c);
    if There(t, target, wrap) {
      assert Leads(k, c, target, wrap, t.last);
    } else {
      ReturnsComes(k, t, target, wrap, n - 1);
      var pid :| Leads(k, t, target, wrap, pid);
      if pid != t.last { assert LOWEST_WRAPPED_PID <= t.last ==> IsOther(k, pid, t.last); }
      assert Leads(k, c, target, wrap, pid);
    }
  }

  /** The helper's climb returns exactly where a free PID at or above the target is to come. */
  lemma {:induction false} ClimbReturnsExactly(k: Kernel, c: Climb, target: int, wrap: bool)
    requires Known(c) && 0 <= c.last < k.max && target >= 1
    ensures Comes(k, c, target, wrap) <==> Returns(k, c, target, wrap)
  {
    if Comes(k, c, target, wrap) {
      var pid :| Leads(k, c, target, wrap, pid);
      var n := ComesReturns(k, c, target, wrap, pid);
    } else if Returns(k, c, target, wrap) {
      var n: nat :| ReturnsIn(k, c, target, wrap, n);
      ReturnsComes(k, c, target, wrap, n);
    }
  }

  /**
   * Asked to wrap, with one PID alone free past the wrap and the last PID not above it, the
   * climb is handed that PID for ever, and never sees the counter go back.
   */
  lemma {:induction false} OneFreePidNeverWraps(k: Kernel, last: int, pid: int, n: nat)
    requires LOWEST_WRAPPED_PID <= pid && Free(k, pid) && 0 <= last <= pid
    requires forall other :: LOWEST_WRAPPED_PID <= other && Free(k, other) ==> other == pid
    ensures !ReturnsIn(k, Climb(last, last, false), pid, true, n)
  {
    if ReturnsIn(k, Climb(last, last, false), pid, true, n) {
      ReturnsComes(k, Climb(last, last, false), pid, true, n);
    }
  }

  /** What the helper has come to: its exit, or climbing on. */
  datatype Outcome = Exited(status: int) | Climbing

  /** What the first `turns` turns of the climb come to. */
  function Climbs(k: Kernel, c: Climb, target: int, wrap: bool, turns: nat): (Climb, Outcome)
    decreases turns
  {
    if turns == 0 then (c, Climbing)
    else if Fork(k, c.last).None? then (c, Exited(1))
    else
      var t := Turned(k, c);
      if There(t, target, wrap) then (t, Exited(0)) else Climbs(k, t, target, wrap, turns - 1)
  }

  lemma {:induction false} ReturnsInTurn(k: Kernel, c: Climb, target: int, wrap: bool, turns: nat, n: nat)
    requires n < turns && ReturnsIn(k, c, target, wrap, n)
    ensures Climbs(k, c, target, wrap, turns).1 == Exited(0)
    decreases n
  {
    if n > 0 { ReturnsInTurn(k, Turned(k, c), target, wrap, turns - 1, n - 1); }
  }

  /** Turns that return do so in one of them, with a free PID at or above the target handed out. */
  lemma {:induction false} TurnReturns(k: Kernel, c: Climb, target: int, wrap: bool, turns: nat) returns (n: nat)
    requires Climbs(k, c, target, wrap, turns).1 == Exited(0)
    ensures n < turns && ReturnsIn(k, c, target, wrap, n)
    ensures There(Climbs(k, c, target, wrap, turns).0, target, wrap)
      && Free(k, Climbs(k, c, target, wrap, turns).0.last)
    decreases turns
  {
    var t := Turned(k, c);
    if There(t, target, wrap) {
      n := 0;
    } else {
      var m := TurnReturns(k, t, target, wrap, turns - 1);
      n := m + 1;
    }
  }

  /**
   * The climb ends, given turns enough, exactly where a free PID at or above the target is to
   * come, past a wrap where one is asked for.
   */
  lemma {:induction false} ClimbEndsExactly(k: Kernel, c: Climb, target: int, wrap: bool)
    requires Known(c) && 0 <= c.last < k.max && target >= 1
    ensures Comes(k, c, target, wrap) <==> exists turns: nat :: Climbs(k, c, target, wrap, turns).1 == Exited(0)
  {
    ClimbReturnsExactly(k, c, target, wrap);
    if Returns(k, c, target, wrap) {
      var n: nat :| ReturnsIn(k, c, target, wrap, n);
      ReturnsInTurn(k, c, target, wrap, n + 1, n);
    }
    if turns: nat :| Climbs(k, c, target, wrap, turns).1 == Exited(0) {
      var n := TurnReturns(k, c, target, wrap, turns);
    }
  }

  /** The PID before the `i`-th handed out past `last`. */
  function PidBefore(last: int, handed: seq<int>, i: nat): int
    requires i <= |handed|
  {
    if i == 0 then last else handed[i - 1]
  }

  predicate IsHanded(k: Kernel, last: int, handed: seq<int>, i: nat)
    requires i < |handed|
  {
    Fork(k, PidBefore(last, handed, i)) == Some(handed[i])
  }

  /**
   * Whether the `i`-th of the PIDs handed out is below the one before it, the first compared with
   * the last that was read.
   */
  predicate IsBelow(read: int, handed: seq<int>, i: nat)
    requires i < |handed|
  {
    handed[i] < PidBefore(read, handed, i) && PidBefore(read, handed, i) >= 0
  }

  /** Whether the counter was seen to go back by the `i`-th. */
  predicate WentBack(read: int, handed: seq<int>, i: nat)
    requires i < |handed|
  {
    exists j | 0 <= j <= i :: IsBelow(read, handed, j)
  }

  /**
   * Whether the `i`-th is one to stop at: at or above the target, and, where a wrap is asked for, past one
   * that was seen, unless the counter had wrapped to below the target before.
   */
  predicate Fits(read: int, handed: seq<int>, i: nat, target: int, wrap: bool)
    requires i < |handed|
  {
    handed[i] >= target && (!wrap || 0 <= read < target || WentBack(read, handed, i))
  }

  /** What up to so many turns of a climb come to, by the PIDs handed out in them. */
  ghost predicate ClimbedBy(
      k: Kernel, last: int, read: int, target: int, wrap: bool, turns: nat, handed: seq<int>, outcome: Outcome) {
    && |handed| <= turns && (forall i | 0 <= i < |handed| :: IsHanded(k, last, handed, i))
    && (forall i | 0 <= i < |handed| - 1 :: !Fits(read, handed, i, target, wrap))
    && match outcome
       case Climbing => |handed| == turns && NoneFits(read, handed, target, wrap)
       case Exited(status) =>
         || (status == 0 && handed != [] && Fits(read, handed, |handed| - 1, target, wrap))
         || (status == 1 && Fork(k, PidBefore(last, handed, |handed|)).None? && NoneFits(read, handed, target, wrap))
  }

  predicate NoneFits(read: int, handed: seq<int>, target: int, wrap: bool) {
    forall i | 0 <= i < |handed| :: !Fits(read, handed, i, target, wrap)
  }

  lemma {:induction false} HandedOn(k: Kernel, last: int, read: int, handed: seq<int>, pid: int, i: nat)
    requires i < |handed|
    ensures var more := handed + [pid];
      && (IsHanded(k, last, more, i) <==> IsHanded(k, last, handed, i))
      && (IsBelow(read, more, i) <==> IsBelow(read, handed, i))
  {
    assert (handed + [pid])[i] == handed[i];
  }

  lemma {:induction false} BackOn(read: int, handed: seq<int>, pid: int, i: nat)
    requires i < |handed|
    ensures WentBack(read, handed + [pid], i) <==> WentBack(read, handed, i)
  {
    forall j | 0 <= j <= i
      ensures IsBelow(read, handed + [pid], j) <==> IsBelow(read, handed, j)
    {
      HandedOn(Kernel(0, {}), 0, read, handed, pid, j);
    }
  }

  lemma {:induction false} NoneFitsOn(read: int, handed: seq<int>, pid: int, target: int, wrap: bool)
    requires NoneFits(read, handed, target, wrap)
    ensures forall i | 0 <= i < |handed| :: !Fits(read, handed + [pid], i, target, wrap)
  {
    forall i | 0 <= i < |handed| ensures !Fits(read, handed + [pid], i, target, wrap) {
      BackOn(read, handed, pid, i);
      assert !Fits(read, handed, i, target, wrap);
    }
  }

  /** Whether the counter was seen to go back by any. */
  predicate Back(read: int, handed: seq<int>) {
    handed != [] && WentBack(read, handed, |handed| - 1)
  }

  lemma {:induction false} LastBack(read: int, handed: seq<int>, pid: int)
    ensures Back(read, handed + [pid]) <==> Back(read, handed) || IsBelow(read, handed + [pid], |handed|)
  {
    if handed != [] { BackOn(read, handed, pid, |handed| - 1); }
    if Back(read, handed + [pid]) {
      var j :| 0 <= j <= |handed| && IsBelow(read, handed + [pid], j);
      if j < |handed| { assert WentBack(read, handed + [pid], |handed| - 1); }
    }
    if handed != [] && WentBack(read, handed + [pid], |handed| - 1) {
      var j :| 0 <= j <= |handed| - 1 && IsBelow(read, handed + [pid], j);
    }
  }

  /** What a loop's head keeps of a climb: which PIDs it was handed, and what it knows of them. */
  ghost predicate Climbed(
      k: Kernel, last: int, read: int, target: int, wrap: bool, handed: seq<int>, c: Climb) {
    && (forall i | 0 <= i < |handed| :: IsHanded(k, last, handed, i)) && NoneFits(read, handed, target, wrap)
    && c.last == PidBefore(last, handed, |handed|) && c.previous == PidBefore(read, handed, |handed|)
    && (c.wrapped <==> (wrap && 0 <= read < target) || Back(read, handed))
  }

  lemma {:induction false} ClimbsOn(
      k: Kernel, last: int, read: int, target: int, wrap: bool, handed: seq<int>, c: Climb, pid: int)
    requires Climbed(k, last, read, target, wrap, handed, c) && Fork(k, c.last) == Some(pid)
    ensures var more, wrapped := handed + [pid], c.wrapped || (c.previous >= 0 && pid < c.previous);
      && (pid >= target && (!wrap || wrapped) <==> Fits(read, more, |handed|, target, wrap))
      && (forall i | 0 <= i < |more| :: IsHanded(k, last, more, i))
      && (forall i | 0 <= i < |handed| :: !Fits(read, more, i, target, wrap))
      && (wrapped <==> (wrap && 0 <= read < target) || Back(read, more))
  {
    var more := handed + [pid];
    LastBack(read, handed, pid);
    NoneFitsOn(read, handed, pid, target, wrap);
    forall i | 0 <= i < |more| ensures IsHanded(k, last, more, i) {
      if i < |handed| { HandedOn(k, last, read, handed, pid, i); }
    }
  }

  /** A turn ends the climb well, or keeps what its head keeps. */
  lemma {:induction false} TurnOn(
      k: Kernel, last: int, read: int, target: int, wrap: bool, turns: nat, handed: seq<int>, c: Climb, pid: int)
    requires Climbed(k, last, read, target, wrap, handed, c) && Fork(k, c.last) == Some(pid) && |handed| < turns
    ensures var more, t := handed + [pid], Climb(pid, pid, c.wrapped || (c.previous >= 0 && pid < c.previous));
      && (There(t, target, wrap) ==> ClimbedBy(k, last, read, target, wrap, turns, more, Exited(0)))
      && (!There(t, target, wrap) ==> Climbed(k, last, read, target, wrap, more, t))
  {
    ClimbsOn(k, last, read, target, wrap, handed, c, pid);
  }

  /**
   * Asked to wrap, a climb ends well only once it was handed a PID below the one before it, and at one at
   * or above the target; unless it began at a last PID that was read to be below the target already.
   */
  lemma {:induction false} WrapIsSeen(
      k: Kernel, last: int, read: int, target: int, turns: nat, handed: seq<int>)
    requires ClimbedBy(k, last, read, target, true, turns, handed, Exited(0)) && !(0 <= read < target)
    ensures handed != [] && handed[|handed| - 1] >= target
    ensures exists j | 0 <= j < |handed| :: handed[j] < PidBefore(read, handed, j)
  {
    var j :| 0 <= j <= |handed| - 1 && IsBelow(read, handed, j);
  }

  /** A namespace's counter, and which of its kernel settings a process may read and write. */
  class Namespace {
    const kernel: Kernel
    const maxReadable: bool
    const lastReadable: bool
    const writable: bool
    var last: int

    function ReadLast(): int
      reads this
    {
      if lastReadable then last else -1
    }

    /** Where the helper's climb starts. */
    function Start(target: int, wrap: bool): Climb
      reads this
    {
      Climb(last, ReadLast(), wrap && 0 <= ReadLast() < target)
    }

    /** Whether the helper sets the counter or climbs: its target is one, and not reached. */
    predicate Moves(target: int, wrap: bool)
      reads this
    {
      1 <= target < kernel.max && maxReadable && (wrap || ReadLast() < target)
    }

    constructor (kernel: Kernel, maxReadable: bool, lastReadable: bool, writable: bool, last: int)
      ensures this.kernel == kernel && this.last == last
      ensures this.maxReadable == maxReadable && this.lastReadable == lastReadable && this.writable == writable
    {
      this.kernel, this.maxReadable, this.lastReadable, this.writable := kernel, maxReadable, lastReadable, writable;
      this.last := last;
    }

    method SetLastPid(target: int) returns (done: bool)
      modifies this
      ensures done == writable && last == if writable then target - 1 else old(last)
    {
      if !writable { return false; }
      last := target - 1;
      return true;
    }

    /** A process made and reaped: the PID it had, or none where none is free. */
    method MakeProcess() returns (pid: Option<int>)
      modifies this
      ensures pid == Fork(kernel, old(last)) && last == if pid.Some? then pid.value else old(last)
    {
      pid := Fork(kernel, last);
      if pid.Some? { last := pid.value; }
    }

    /** The first `turns` turns of the helper's climb, a process a PID. */
    method ClimbTo(target: int, wrap: bool, turns: nat) returns (outcome: Outcome, ghost handed: seq<int>)
      modifies this
      ensures outcome == Climbs(kernel, old(Start(target, wrap)), target, wrap, turns).1
      ensures last == Climbs(kernel, old(Start(target, wrap)), target, wrap, turns).0.last
      ensures ClimbedBy(kernel, old(last), if lastReadable then old(last) else -1, target, wrap, turns, handed, outcome)
      ensures last == PidBefore(old(last), handed, |handed|)
    {
      var read := if lastReadable then last else -1;
      var wrapped := wrap && read >= 0 && read < target;
      var previous := read;
      handed := [];
      for turn := 0 to turns
        invariant Climbs(kernel, old(Start(target, wrap)), target, wrap, turns)
               == Climbs(kernel, Climb(last, previous, wrapped), target, wrap, turns - turn)
        invariant |handed| == turn && read == old(ReadLast())
        invariant Climbed(kernel, old(last), read, target, wrap, handed, Climb(last, previous, wrapped))
      {
        ghost var c := Climb(last, previous, wrapped);
        var made := MakeProcess();
        if made.None? { return Exited(1), handed; }
        var pid := made.value;
        TurnOn(kernel, old(last), read, target, wrap, turns, handed, c, pid);
        handed := handed + [pid];
        if previous >= 0 && pid < previous { wrapped := true; }
        previous := pid;
        if pid >= target && (!wrap || wrapped) { return Exited(0), handed; }
      }
      outcome := Climbing;
    }

    /** The helper, up to so many turns of its climb where it climbs. */
    method AdvanceTo(target: int, wrap: bool, turns: nat) returns (outcome: Outcome, ghost handed: seq<int>)
      modifies this
      ensures target < 1 ==> outcome == Exited(2)
      ensures target >= 1 && (!maxReadable || target >= kernel.max) ==> outcome == Exited(1)
      ensures !old(Moves(target, wrap)) ==>
        last == old(last) && (1 <= target < kernel.max && maxReadable ==> outcome == Exited(0))
      ensures old(Moves(target, wrap)) && writable ==> outcome == Exited(0) && last == target - 1
      ensures old(Moves(target, wrap)) && !writable ==>
        var climbed := Climbs(kernel, old(Start(target, wrap)), target, wrap, turns);
        outcome == climbed.1 && last == climbed.0.last
          && (outcome == Exited(0) ==> target <= last && Free(kernel, last))
      ensures 1 <= target < kernel.max && maxReadable && !wrap && lastReadable && old(last) >= target ==>
        outcome == Exited(0) && last == old(last)
      ensures 1 <= target < kernel.max && maxReadable && (wrap || !lastReadable || old(last) < target) ==>
        if writable then outcome == Exited(0) && last == target - 1
        else
          && ClimbedBy(kernel, old(last), if lastReadable then old(last) else -1, target, wrap, turns, handed, outcome)
          && last == PidBefore(old(last), handed, |handed|)
    {
      handed := [];
      if target < 1 { return Exited(2), handed; }
      if !maxReadable { return Exited(1), handed; }
      if target >= kernel.max { return Exited(1), handed; }
      var read := if lastReadable then last else -1;
      if !wrap && read >= target { return Exited(0), handed; }
      var done := SetLastPid(target);
      if done { return Exited(0), handed; }
      ghost var start := Start(target, wrap);
      outcome, handed := ClimbTo(target, wrap, turns);
      if outcome == Exited(0) { ghost var n := TurnReturns(kernel, start, target, wrap, turns); }
    }

    /** `pidsPast`, where the counter can be read. */
    predicate PidsPast(pid: int)
      reads this
    {
      lastReadable && maxReadable && last >= pid && last < kernel.max - 1
    }

    /** The target `advancePidsPast` gives the helper: the namespace's last PID itself, as none lies past it. */
    function Target(pid: int): int {
      if maxReadable && pid == kernel.max - 1 then pid else pid + 1
    }

    /** Whether the helper is run, and to a target it takes. */
    predicate Runs(pid: int, wrapping: bool)
      reads this
    {
      wrapping || !PidsPast(pid)
    }

    predicate Takes(pid: int) {
      maxReadable && 1 <= Target(pid) < kernel.max
    }

    /** Whether it is to climb, as the counter cannot be set. */
    predicate ClimbsTo(pid: int, wrapping: bool)
      reads this
    {
      Runs(pid, wrapping) && Moves(Target(pid), wrapping) && !writable
    }

    /** Whether it sets the counter just below pid_max's last PID. */
    predicate SetsBelowLast(pid: int, wrapping: bool)
      reads this
    {
      pid == kernel.max - 1 && writable && Moves(pid, wrapping) && Runs(pid, wrapping)
    }

    /**
     * `advancePidsPast`, up to so many turns of the climb: it resolves, rejects, or waits on.
     * Where it resolves, the counter is at or past `pid`, unless that is pid_max's last PID and
     * the counter could be set: that sets it just below.
     */
    method AdvancePidsPast(pid: int, wrapping: bool, turns: nat) returns (ok: Option<bool>, ghost handed: seq<int>)
      modifies this
      ensures !old(Runs(pid, wrapping)) ==> ok == Some(true) && last == old(last)
      ensures old(Runs(pid, wrapping)) && !Takes(pid) ==> ok == Some(false) && last == old(last)
      ensures old(Runs(pid, wrapping)) && Takes(pid) && !old(ClimbsTo(pid, wrapping)) ==> ok == Some(true)
      ensures old(ClimbsTo(pid, wrapping)) ==>
        var outcome := Climbs(kernel, old(Start(Target(pid), wrapping)), Target(pid), wrapping, turns).1;
        ok == if outcome == Climbing then None else Some(outcome == Exited(0))
      ensures ok == Some(true) ==> (last >= pid <==> !old(SetsBelowLast(pid, wrapping)))
      ensures ok == Some(true) ==> last >= pid || (pid == kernel.max - 1 && writable && last == pid - 1)
      ensures maxReadable && 0 <= pid < kernel.max && kernel.max > 1 && writable ==> ok == Some(true)
      ensures !(maxReadable && 0 <= pid < kernel.max && kernel.max > 1) ==>
        || (ok == Some(false) && last == old(last))
        || (ok == Some(true) && last == old(last) && !wrapping && lastReadable && old(last) >= pid)
      ensures maxReadable && 0 <= pid < kernel.max && kernel.max > 1 && !writable && wrapping ==>
        var read, target := if lastReadable then old(last) else -1, if pid == kernel.max - 1 then pid else pid + 1;
        var outcome := if ok.None? then Climbing else Exited(if ok.value then 0 else 1);
        && ClimbedBy(kernel, old(last), read, target, true, turns, handed, outcome)
        && last == PidBefore(old(last), handed, |handed|)
        && (ok == Some(true) && !(0 <= read < target) ==>
            exists j | 0 <= j < |handed| :: handed[j] < PidBefore(read, handed, j))
      ensures maxReadable && 0 <= pid < kernel.max && kernel.max > 1 && !writable && !wrapping
              && (!lastReadable || old(last) < pid) ==>
        var read, target := if lastReadable then old(last) else -1, if pid == kernel.max - 1 then pid else pid + 1;
        var outcome := if ok.None? then Climbing else Exited(if ok.value then 0 else 1);
        ClimbedBy(kernel, old(last), read, target, false, turns, handed, outcome)
    {
      handed := [];
      if !wrapping && PidsPast(pid) { return Some(true), handed; }
      ghost var read := ReadLast();
      var outcome;
      outcome, handed := AdvanceTo(Target(pid), wrapping, turns);
      if old(ClimbsTo(pid, wrapping)) && outcome == Exited(0) && wrapping && !(0 <= read < Target(pid)) {
        WrapIsSeen(kernel, old(last), read, Target(pid), turns, handed);
      }
      ok := if outcome == Climbing then None else Some(outcome == Exited(0));
    }
  }
}
