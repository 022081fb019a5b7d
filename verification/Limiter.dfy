/**
 * `limiter` of packages/core/src/runtime/toolbelt.ts: at most `limit` pieces of work run at once,
 * and none starts once its signal aborts. `State` and the functions on it are the specification;
 * class `Limiter` is proved against them.
 */
module Limiters {
  import opened Basics
  import opened Options

  /** A piece of work, by what it is of and which step of that it is. */
  datatype Work = Work(of: nat, step: nat)

  datatype State = State(limit: pos, running: int, waiting: seq<Work>)

  function Called(s: State, work: Work): State {
    if s.running < s.limit then s.(running := s.running + 1) else s.(waiting := s.waiting + [work])
  }

  /** What `finally` does: the slot passes to whoever waits longest. */
  function Released(s: State): State {
    if s.waiting != [] then s.(waiting := s.waiting[1..]) else s.(running := s.running - 1)
  }

  class Limiter {
    const limit: pos
    var running: int
    var waiting: seq<Work>

    function Now(): State
      reads this
    {
      State(limit, running, waiting)
    }

    constructor (limit: pos)
      ensures Now() == State(limit, 0, [])
    {
      this.limit := limit;
      running, waiting := 0, [];
    }

    method Call(work: Work) returns (granted: bool)
      modifies this
      ensures Now() == Called(old(Now()), work) && granted == (old(running) < limit)
    {
      granted := running < limit;
      if granted { running := running + 1; } else { waiting := waiting + [work]; }
    }

    method Release() returns (next: Option<Work>)
      modifies this
      ensures Now() == Released(old(Now()))
      ensures next == if old(waiting) == [] then None else Some(old(waiting[0]))
    {
      if waiting != [] {
        next := Some(waiting[0]);
        waiting := waiting[1..];
      } else {
        next := None;
        running := running - 1;
      }
    }
  }

  /** Where a piece of work is: `Granted` has a slot, and is to look at the signal before it starts. */
  datatype Phase = Waiting | Granted | Active | Ended

  /** `calls` are the works as they were called, and `slots` as they were given slots. */
  datatype System = System(state: State, aborted: bool, works: map<Work, Phase>, calls: seq<Work>, slots: seq<Work>)

  datatype Event = Call(work: Work) | Wake(work: Work) | Settle(work: Work) | Abort

  function Initial(limit: pos): System {
    System(State(limit, 0, []), false, map[], [], [])
  }

  predicate Enabled(s: System, e: Event) {
    match e
    case Call(work) => work !in s.works
    case Wake(work) => work in s.works && s.works[work] == Granted
    case Settle(work) => work in s.works && s.works[work] == Active
    case Abort => true
  }

  /** A piece of work that has its slot starts, or throws where the signal has aborted. */
  function Starts(s: System, work: Work): System {
    if s.aborted then Frees(s, work) else s.(works := s.works[work := Active])
  }

  /** It ends, and whoever waits longest is to wake with its slot. */
  function Frees(s: System, work: Work): System {
    var t := s.(state := Released(s.state), works := s.works[work := Ended]);
    if s.state.waiting == [] then t
    else t.(works := t.works[s.state.waiting[0] := Granted], slots := t.slots + [s.state.waiting[0]])
  }

  function Takes(s: System, work: Work): System {
    s.(state := Called(s.state, work), works := s.works[work := Granted],
       calls := s.calls + [work], slots := s.slots + [work])
  }

  function Waits(s: System, work: Work): System {
    s.(state := Called(s.state, work), works := s.works[work := Waiting], calls := s.calls + [work])
  }

  function Step(s: System, e: Event): System {
    match e
    case Call(work) => if s.state.running < s.state.limit then Starts(Takes(s, work), work) else Waits(s, work)
    case Wake(work) => Starts(s, work)
    case Settle(work) => Frees(s, work)
    case Abort => s.(aborted := true)
  }

  function Holding(works: map<Work, Phase>): set<Work> {
    set work | work in works && (works[work] == Granted || works[work] == Active)
  }

  /**
   * Every slot is held by a piece of work that has yet to give it back; none waits while one is
   * free; and slots are given in the order of the calls.
   */
  predicate Inv(s: System) {
    && s.state.running == |Holding(s.works)| && s.state.running <= s.state.limit
    && (s.state.waiting != [] ==> s.state.running == s.state.limit)
    && Queued(s.works, s.state.waiting)
    && s.calls == s.slots + s.state.waiting
  }

  /** Whether those that wait are queued, each once. */
  predicate Queued(works: map<Work, Phase>, waiting: seq<Work>) {
    && (forall work <- works :: works[work] == Waiting <==> work in waiting)
    && (forall work <- waiting :: work in works)
    && (forall i, j | 0 <= i < j < |waiting| :: waiting[i] != waiting[j])
  }

  lemma {:induction false} LeavesQueue(works: map<Work, Phase>, waiting: seq<Work>)
    requires Queued(works, waiting) && waiting != []
    ensures waiting[0] in works && works[waiting[0]] == Waiting
    ensures Queued(works[waiting[0] := Granted], waiting[1..])
  {
    assert waiting == [waiting[0]] + waiting[1..];
    assert waiting[0] in waiting;
  }

  lemma {:induction false} HoldingOn(works: map<Work, Phase>, work: Work, phase: Phase)
    ensures Holding(works[work := phase]) ==
      if phase == Granted || phase == Active then Holding(works) + {work} else Holding(works) - {work}
  {
  }

  lemma {:induction false} FreesKeeps(s: System, work: Work)
    requires Inv(s) && work in Holding(s.works)
    ensures Inv(Frees(s, work))
  {
    HoldingOn(s.works, work, Ended);
    var waiting := s.state.waiting;
    if waiting != [] {
      HoldingOn(s.works[work := Ended], waiting[0], Granted);
      assert Queued(s.works[work := Ended], waiting);
      LeavesQueue(s.works[work := Ended], waiting);
      assert s.calls == s.slots + [waiting[0]] + waiting[1..];
    }
  }

  lemma {:induction false} StartsKeeps(s: System, work: Work)
    requires Inv(s) && work in s.works && s.works[work] == Granted
    ensures Inv(Starts(s, work))
  {
    if s.aborted {
      FreesKeeps(s, work);
    } else {
      HoldingOn(s.works, work, Active);
      assert Holding(s.works) + {work} == Holding(s.works);
    }
  }

  lemma {:induction false} TakesKeeps(s: System, work: Work)
    requires Inv(s) && work !in s.works && s.state.running < s.state.limit
    ensures Inv(Takes(s, work))
  {
    HoldingOn(s.works, work, Granted);
    assert s.state.waiting == [];
  }

  lemma {:induction false} WaitsKeeps(s: System, work: Work)
    requires Inv(s) && work !in s.works && s.state.running >= s.state.limit
    ensures Inv(Waits(s, work))
  {
    HoldingOn(s.works, work, Waiting);
    assert work !in s.state.waiting;
    assert s.calls + [work] == s.slots + (s.state.waiting + [work]);
  }

  lemma {:induction false} StepKeeps(s: System, e: Event)
    requires Inv(s) && Enabled(s, e)
    ensures Inv(Step(s, e))
  {
    match e
    case Call(work) =>
      if s.state.running < s.state.limit {
        TakesKeeps(s, work);
        StartsKeeps(Takes(s, work), work);
      } else {
        WaitsKeeps(s, work);
      }
    case Wake(work) => StartsKeeps(s, work);
    case Settle(work) => FreesKeeps(s, work);
    case Abort =>
  }

  predicate Possible(s: System, es: seq<Event>)
    decreases |es|
  {
    es == [] || (Enabled(s, es[0]) && Possible(Step(s, es[0]), es[1..]))
  }

  function After(s: System, es: seq<Event>): System
    requires Possible(s, es)
    decreases |es|
  {
    if es == [] then s else After(Step(s, es[0]), es[1..])
  }

  lemma {:induction false} InvKept(s: System, es: seq<Event>)
    requires Inv(s) && Possible(s, es)
    ensures Inv(After(s, es))
    decreases |es|
  {
    if es != [] {
      StepKeeps(s, es[0]);
      InvKept(Step(s, es[0]), es[1..]);
    }
  }

  function Started(works: map<Work, Phase>): set<Work> {
    set work | work in works && works[work] == Active
  }

  /** Whether a piece of work comes to look at the signal: called with a slot free, or woken with one passed to it. */
  predicate Looks(s: System, e: Event, work: Work) {
    e == Wake(work) || (e == Call(work) && s.state.running < s.state.limit)
  }

  /**
   * A piece of work starts exactly as it comes to look at the signal and finds no abort, and ends as
   * it settles, or finds one.
   */
  lemma {:induction false} StartsExactly(s: System, e: Event, work: Work)
    requires Inv(s) && Enabled(s, e)
    ensures work in Started(Step(s, e).works) <==>
      (work in Started(s.works) && e != Settle(work)) || (Looks(s, e, work) && !s.aborted)
    ensures work in Step(s, e).works && Step(s, e).works[work] == Ended <==>
      || (work in s.works && s.works[work] == Ended)
      || e == Settle(work) || (Looks(s, e, work) && s.aborted)
    ensures Step(s, e).aborted <==> s.aborted || e == Abort
  {
    if s.state.waiting != [] { assert s.state.waiting[0] in s.state.waiting; }
  }

  /** In every state a run comes to, no more works run than the limit, and slots were given first come, first served. */
  lemma {:induction false} EveryReachableState(limit: pos, es: seq<Event>)
    requires Possible(Initial(limit), es)
    ensures var s := After(Initial(limit), es);
      && Inv(s) && |Started(s.works)| <= s.state.limit && s.slots <= s.calls
      && (s.state.running < s.state.limit ==> s.state.waiting == [] && s.slots == s.calls)
  {
    assert Holding(map[]) == {};
    InvKept(Initial(limit), es);
    var s := After(Initial(limit), es);
    FewerWithin(Started(s.works), Holding(s.works));
  }

  /** Once the signal has aborted, no more work starts. */
  lemma {:induction false} NoneStartsAborted(s: System, es: seq<Event>)
    requires s.aborted && Possible(s, es)
    ensures After(s, es).aborted && Started(After(s, es).works) <= Started(s.works)
    decreases |es|
  {
    if es != [] { NoneStartsAborted(Step(s, es[0]), es[1..]); }
  }

  /** While any work has yet to end, one has a step to take: none waits but for works that hold slots. */
  lemma {:induction false} SomeWorkGoesOn(s: System, work: Work) returns (e: Event)
    requires Inv(s) && work in s.works && s.works[work] != Ended
    ensures Enabled(s, e) && (e.Wake? || e.Settle?)
  {
    var holder := work;
    if s.works[work] == Waiting {
      assert work in s.state.waiting;
      assert Holding(s.works) != {};
      holder :| holder in Holding(s.works);
    }
    e := if s.works[holder] == Granted then Wake(holder) else Settle(holder);
  }
}
