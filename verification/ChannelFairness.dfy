/**
 * When the bytes `allocateChannelBytes` of packages/core/src/mcp/exec-snapshot.ts gives are no
 * fewer for a longer channel, and when they are shared as evenly as can be: exactly, for all
 * channels and budgets.
 */
module ChannelFairness {
  import opened Basics
  import opened ChannelBytes

  /** A longer channel is given no less than a shorter. */
  predicate Monotone(lengths: seq<nat>, bytes: seq<nat>)
    requires |lengths| == |bytes|
  {
    forall c: nat, d: nat | c < |lengths| && d < |lengths| && lengths[c] < lengths[d] :: bytes[c] <= bytes[d]
  }

  /** No channel short of its length could take a byte from another that would still have no less than it. */
  predicate MaxMinFair(lengths: seq<nat>, bytes: seq<nat>)
    requires |lengths| == |bytes|
  {
    forall c: nat, d: nat | c < |lengths| && d < |lengths| && bytes[c] < lengths[c] :: bytes[d] <= bytes[c] + 1
  }

  /** Whether a channel is no longer than an equal share of a budget among `n`. */
  predicate WithinShare(lengths: seq<nat>, c: nat, n: nat, budget: nat) {
    At(lengths, c) * n <= budget
  }

  /** What water-filling comes to: what pends is longer than an equal share of what is left, and nothing else is. */
  ghost predicate Filling(lengths: seq<nat>, pending: seq<nat>, left: nat) {
    && Channels(ByLength(lengths), pending, |lengths|)
    && (forall c <- pending :: At(lengths, c) > 0)
    && (forall c: nat | c !in pending :: WithinShare(lengths, c, |pending|, left))
    && (pending != [] ==> !WithinShare(lengths, pending[0], |pending|, left))
  }

  /** What each step of water-filling keeps: all that does not pend is no longer than what does, or an equal share. */
  ghost predicate FillingOn(lengths: seq<nat>, pending: seq<nat>, budget: nat) {
    && Channels(ByLength(lengths), pending, |lengths|) && (forall c <- pending :: At(lengths, c) > 0)
    && (forall c: nat | c !in pending :: WithinShare(lengths, c, |pending|, budget))
    && (forall c: nat, d <- pending | c !in pending :: At(lengths, c) <= At(lengths, d))
  }

  lemma {:induction false} FillsFrom(lengths: seq<nat>, pending: seq<nat>, budget: nat)
    requires FillingOn(lengths, pending, budget)
    ensures Filling(lengths, Fill(lengths, pending, budget).0, Fill(lengths, pending, budget).1)
  {
    if pending != [] && At(lengths, pending[0]) * |pending| <= budget {
      FillsFirst(lengths, pending[0], pending[1..], pending, budget);
      FillsFrom(lengths, pending[1..], budget - At(lengths, pending[0]));
    }
  }

  lemma {:induction false} FillsFirst(lengths: seq<nat>, first: nat, rest: seq<nat>, pending: seq<nat>, budget: nat)
    requires FillingOn(lengths, pending, budget) && pending == [first] + rest
    requires WithinShare(lengths, first, |pending|, budget)
    ensures At(lengths, first) <= budget && FillingOn(lengths, rest, budget - At(lengths, first))
  {
    ProductAtLeast(At(lengths, first), |pending|);
    FirstIsShortest(lengths, first, rest);
    forall c: nat | c !in rest ensures WithinShare(lengths, c, |rest|, budget - At(lengths, first)) {
      assert first in pending && (c in pending ==> c == first);
      ShorterFills(At(lengths, c), At(lengths, first), |rest|, budget);
    }
    forall c: nat, d <- rest | c !in rest ensures At(lengths, c) <= At(lengths, d) {
      assert d in pending && (c in pending ==> c == first);
    }
  }

  lemma {:induction false} FirstIsShortest(lengths: seq<nat>, first: nat, rest: seq<nat>)
    requires Channels(ByLength(lengths), [first] + rest, |lengths|)
    ensures Channels(ByLength(lengths), rest, |lengths|)
    ensures forall d <- rest :: At(lengths, first) <= At(lengths, d)
  {
    var pending := [first] + rest;
    forall i | 0 <= i < |rest| ensures Before(ByLength(lengths), first, rest[i]) && rest[i] < |lengths| {
      assert pending[i + 1] == rest[i] && Before(ByLength(lengths), pending[0], pending[i + 1]);
    }
    forall i, j | 0 <= i < j < |rest| ensures Before(ByLength(lengths), rest[i], rest[j]) {
      assert pending[i + 1] == rest[i] && pending[j + 1] == rest[j];
    }
  }

  lemma {:induction false} ShorterFills(short: nat, first: nat, others: nat, budget: nat)
    requires short <= first && first * (others + 1) <= budget
    ensures short * others <= budget - first
  {
    assert first * (others + 1) == first * others + first;
    assert (first - short) * others >= 0;
  }

  lemma {:induction false} PendingFills(lengths: seq<nat>, budget: nat)
    ensures Filling(lengths, Pending(lengths, budget).0, Pending(lengths, budget).1)
  {
    StartsFilling(lengths, budget);
    FillsFrom(lengths, Sort(ByLength(lengths), Filled(lengths)), budget);
  }

  lemma {:induction false} StartsFilling(lengths: seq<nat>, budget: nat)
    ensures FillingOn(lengths, Sort(ByLength(lengths), Filled(lengths)), budget)
  {
    SortedChannels(lengths);
    EmptyNeedsNothing(lengths, Sort(ByLength(lengths), Filled(lengths)), budget);
  }

  lemma {:induction false} EmptyNeedsNothing(lengths: seq<nat>, pending: seq<nat>, budget: nat)
    requires Channels(ByLength(lengths), pending, |lengths|) && forall c: nat :: c in pending <==> c in Filled(lengths)
    ensures FillingOn(lengths, pending, budget)
  {
    forall c: nat | c !in pending ensures At(lengths, c) == 0 && WithinShare(lengths, c, |pending|, budget) {
      assert c !in Filled(lengths);
    }
    forall c <- pending ensures At(lengths, c) > 0 { assert c in Filled(lengths); }
  }

  lemma {:induction false} FilledAreShorter(lengths: seq<nat>, pending: seq<nat>, left: nat, c: nat, d: nat)
    requires Filling(lengths, pending, left) && c !in pending && d in pending
    ensures At(lengths, c) < At(lengths, d)
  {
    var j :| 0 <= j < |pending| && pending[j] == d;
    assert j > 0 ==> Before(ByLength(lengths), pending[0], pending[j]);
    LessOfProducts(At(lengths, c), At(lengths, pending[0]), |pending|);
  }

  lemma {:induction false} LessOfProducts(a: nat, b: nat, n: nat)
    requires a * n < b * n
    ensures a < b
  {
    assert a >= b ==> (a - b) * n >= 0;
  }

  /** Of two pending channels, the longer gets no less, and of two of one length, the one before. */
  lemma {:induction false} PendingFollowLengths(lengths: seq<nat>, pending: seq<nat>, left: nat, a: nat, b: nat)
    requires Filling(lengths, pending, left) && a in pending && b in pending
    requires At(lengths, a) < At(lengths, b) || (At(lengths, a) == At(lengths, b) && b <= a)
    ensures Gets(lengths, pending, left, a) <= Gets(lengths, pending, left, b)
  {
    PendingTotal(lengths, pending, left);
    var total: pos := SumAt(lengths, pending);
    SharesFollow(At(lengths, a), At(lengths, b), left, total);
    if a in RaisedOf(lengths, pending, left) && b !in RaisedOf(lengths, pending, left)
       && Floor(lengths, left, total, a) == Floor(lengths, left, total, b) {
      RaisedBefore(lengths, pending, left, a, b);
      RaisedNeedLeft(lengths, pending, left, a);
      SharesDiffer(At(lengths, a), At(lengths, b), left, total);
    }
  }

  lemma {:induction false} PendingTotal(lengths: seq<nat>, pending: seq<nat>, left: nat)
    requires Filling(lengths, pending, left) && pending != []
    ensures SumAt(lengths, pending) > left
  {
    PendingHoldMore(lengths, pending, left);
  }

  lemma {:induction false} SharesFollow(a: nat, b: nat, left: nat, total: pos)
    requires a <= b
    ensures a * left / total <= b * left / total
    ensures a * left / total == b * left / total ==> a * left % total <= b * left % total
  {
    assert (b - a) * left >= 0;
    assert a * left <= b * left;
    DivisionFollows(a * left, b * left, total);
  }

  lemma {:induction false} DivisionFollows(m: nat, n: nat, total: pos)
    requires m <= n
    ensures m / total <= n / total
  {
    LessThanNext(n, total);
    assert m == m / total * total + m % total;
    LessOfMultiples(m / total, n / total + 1, total, m);
  }

  lemma {:induction false} LessThanNext(n: nat, total: pos)
    ensures n < (n / total + 1) * total
  {
    assert n == n / total * total + n % total;
  }

  /** Two lengths with one remainder and one floor are one length, unless nothing is left to share. */
  lemma {:induction false} SharesDiffer(a: nat, b: nat, left: nat, total: pos)
    requires a <= b && left > 0
    requires a * left / total == b * left / total && a * left % total == b * left % total
    ensures a == b
  {
    assert a * left == a * left / total * total + a * left % total;
    assert b * left == b * left / total * total + b * left % total;
    assert a < b ==> (b - a) * left > 0;
  }

  lemma {:induction false} RaisedBefore(lengths: seq<nat>, pending: seq<nat>, left: nat, a: nat, b: nat)
    requires Filling(lengths, pending, left) && a in pending && b in pending && SumAt(lengths, pending) > 0
    requires a in RaisedOf(lengths, pending, left) && b !in RaisedOf(lengths, pending, left)
    ensures Before(ByRemainder(lengths, left, SumAt(lengths, pending)), a, b)
  {
    SharesAreSorted(lengths, pending, left);
    var sorted, raised := ByShare(lengths, pending, left), RaisedOf(lengths, pending, left);
    var i :| 0 <= i < |raised| && raised[i] == a;
    var j :| 0 <= j < |sorted| && sorted[j] == b;
    assert forall k | 0 <= k < |raised| :: raised[k] == sorted[k] && raised[k] in raised;
  }

  lemma {:induction false} RaisedNeedLeft(lengths: seq<nat>, pending: seq<nat>, left: nat, a: nat)
    requires a in RaisedOf(lengths, pending, left)
    ensures left > 0
  {
  }

  /** Of the shortest channels pending, the last: none pending gets less. */
  function Least(lengths: seq<nat>, pending: seq<nat>): (c: nat)
    requires pending != []
    ensures c in pending
  {
    if |pending| > 1 && At(lengths, pending[1]) == At(lengths, pending[0])
    then Least(lengths, pending[1..])
    else pending[0]
  }

  /** Of the longest, the first: none gets more. */
  function Most(lengths: seq<nat>, pending: seq<nat>): (c: nat)
    requires pending != []
    ensures c in pending
  {
    var last := |pending| - 1;
    if |pending| > 1 && At(lengths, pending[last - 1]) == At(lengths, pending[last]) then Most(lengths, pending[..last])
    else pending[last]
  }

  lemma {:induction false} LeastIsLast(lengths: seq<nat>, pending: seq<nat>, c: nat)
    requires Sorted(ByLength(lengths), pending) && c in pending
    ensures var least := Least(lengths, pending);
      At(lengths, least) < At(lengths, c) || (At(lengths, least) == At(lengths, c) && c <= least)
  {
    var i :| 0 <= i < |pending| && pending[i] == c;
    assert i > 0 ==> Before(ByLength(lengths), pending[0], pending[i]);
    if |pending| > 1 {
      assert Before(ByLength(lengths), pending[0], pending[1]);
      assert i > 1 ==> Before(ByLength(lengths), pending[1], pending[i]);
      if At(lengths, pending[1]) == At(lengths, pending[0]) {
        LeastIsLast(lengths, pending[1..], if i == 0 then pending[1] else c);
        assert i > 0 ==> pending[1..][i - 1] == c;
      }
    }
  }

  lemma {:induction false} MostIsFirst(lengths: seq<nat>, pending: seq<nat>, c: nat)
    requires Sorted(ByLength(lengths), pending) && c in pending
    ensures var most := Most(lengths, pending);
      At(lengths, c) < At(lengths, most) || (At(lengths, c) == At(lengths, most) && most <= c)
  {
    var last := |pending| - 1;
    var i :| 0 <= i < |pending| && pending[i] == c;
    assert i < last ==> Before(ByLength(lengths), pending[i], pending[last]);
    if |pending| > 1 {
      assert Before(ByLength(lengths), pending[last - 1], pending[last]);
      assert i < last - 1 ==> Before(ByLength(lengths), pending[i], pending[last - 1]);
      if At(lengths, pending[last - 1]) == At(lengths, pending[last]) {
        MostIsFirst(lengths, pending[..last], if i == last then pending[last - 1] else c);
        assert i < last ==> pending[..last][i] == c;
      }
    }
  }

  /** The length of the longest channel given all of its own. */
  function LongestFilled(lengths: seq<nat>, pending: seq<nat>, count: nat): (length: nat)
    ensures forall c: nat | c < count && c !in pending :: At(lengths, c) <= length
    ensures length == 0 || exists c: nat :: c < count && c !in pending && At(lengths, c) == length
  {
    if count == 0 then 0
    else
      var rest := LongestFilled(lengths, pending, count - 1);
      if count - 1 !in pending && At(lengths, count - 1) > rest then At(lengths, count - 1) else rest
  }

  /** Whether the longest channel filled is no longer than what the last of the shortest pending gets. */
  predicate FilledWithinLeast(lengths: seq<nat>, pending: seq<nat>, left: nat) {
    pending == [] || LongestFilled(lengths, pending, |lengths|) <= Gets(lengths, pending, left, Least(lengths, pending))
  }

  /** Whether what the pending channels get spreads over a byte at most. */
  predicate PendingSpreadLittle(lengths: seq<nat>, pending: seq<nat>, left: nat) {
    pending == []
    || Gets(lengths, pending, left, Most(lengths, pending)) <= Gets(lengths, pending, left, Least(lengths, pending)) + 1
  }

  /** Whether the channels are each given what they get. */
  predicate Got(lengths: seq<nat>, pending: seq<nat>, left: nat, bytes: seq<nat>) {
    |bytes| == |lengths| && forall c: nat | c < |lengths| :: bytes[c] == Gets(lengths, pending, left, c)
  }

  /**
   * A longer channel is given no less than a shorter exactly where the shortest pending gets as
   * much as the longest filled: the pending follow their lengths among themselves.
   */
  lemma {:induction false} MonotoneExactly(lengths: seq<nat>, budget: nat)
    ensures var (pending, left) := Pending(lengths, budget);
      Monotone(lengths, Allocation(lengths, budget)) <==> FilledWithinLeast(lengths, pending, left)
  {
    var (pending, left) := Pending(lengths, budget);
    PendingFills(lengths, budget);
    FollowsExactly(lengths, pending, left, Allocation(lengths, budget));
  }

  lemma {:induction false} FollowsExactly(lengths: seq<nat>, pending: seq<nat>, left: nat, bytes: seq<nat>)
    requires Filling(lengths, pending, left) && Got(lengths, pending, left, bytes)
    ensures Monotone(lengths, bytes) <==> FilledWithinLeast(lengths, pending, left)
  {
    if FilledWithinLeast(lengths, pending, left) {
      FollowsLengths(lengths, pending, left, bytes);
    } else {
      FilledPassesLeast(lengths, pending, left, bytes);
    }
  }

  lemma {:induction false} FilledPassesLeast(lengths: seq<nat>, pending: seq<nat>, left: nat, bytes: seq<nat>)
    requires Filling(lengths, pending, left) && Got(lengths, pending, left, bytes)
    requires !FilledWithinLeast(lengths, pending, left)
    ensures !Monotone(lengths, bytes)
  {
    var length := LongestFilled(lengths, pending, |lengths|);
    var c: nat :| c < |lengths| && c !in pending && At(lengths, c) == length;
    var d := Least(lengths, pending);
    FilledAreShorter(lengths, pending, left, c, d);
    assert d < |lengths| && lengths[c] < lengths[d] && bytes[c] > bytes[d];
  }

  lemma {:induction false} FollowsLengths(lengths: seq<nat>, pending: seq<nat>, left: nat, bytes: seq<nat>)
    requires Filling(lengths, pending, left) && FilledWithinLeast(lengths, pending, left)
    requires Got(lengths, pending, left, bytes)
    ensures Monotone(lengths, bytes)
  {
    forall c: nat, d: nat | c < |lengths| && d < |lengths| && lengths[c] < lengths[d] ensures bytes[c] <= bytes[d] {
      if c in pending && d in pending {
        PendingFollowLengths(lengths, pending, left, c, d);
      } else if d in pending {
        LeastGetsLeast(lengths, pending, left, d);
      } else if c in pending {
        FilledAreShorter(lengths, pending, left, d, c);
      }
    }
  }

  lemma {:induction false} LeastGetsLeast(lengths: seq<nat>, pending: seq<nat>, left: nat, c: nat)
    requires Filling(lengths, pending, left) && c in pending
    ensures Gets(lengths, pending, left, Least(lengths, pending)) <= Gets(lengths, pending, left, c)
  {
    LeastIsLast(lengths, pending, c);
    PendingFollowLengths(lengths, pending, left, Least(lengths, pending), c);
  }

  lemma {:induction false} MostGetsMost(lengths: seq<nat>, pending: seq<nat>, left: nat, c: nat)
    requires Filling(lengths, pending, left) && c in pending
    ensures Gets(lengths, pending, left, c) <= Gets(lengths, pending, left, Most(lengths, pending))
  {
    MostIsFirst(lengths, pending, c);
    PendingFollowLengths(lengths, pending, left, c, Most(lengths, pending));
  }

  /** The pending channels get all that is left between them. */
  lemma {:induction false} PendingGetAll(lengths: seq<nat>, pending: seq<nat>, left: nat, bytes: seq<nat>)
    requires Filling(lengths, pending, left) && pending != [] && Got(lengths, pending, left, bytes)
    ensures SumAt(bytes, ByShare(lengths, pending, left)) == left
    ensures |ByShare(lengths, pending, left)| == |pending|
    ensures forall c :: c in ByShare(lengths, pending, left) <==> c in pending
  {
    PendingTotal(lengths, pending, left);
    SharesAreSorted(lengths, pending, left);
    FewerLeftThanShares(lengths, left, pending);
    GotFrom(lengths, pending, left, bytes, 0);
    assert ByShare(lengths, pending, left)[0..] == ByShare(lengths, pending, left);
  }

  lemma {:induction false} GotFrom(lengths: seq<nat>, pending: seq<nat>, left: nat, bytes: seq<nat>, i: nat)
    requires Filling(lengths, pending, left) && SumAt(lengths, pending) > 0 && Got(lengths, pending, left, bytes)
    requires i <= |ByShare(lengths, pending, left)| == |pending|
    requires 0 <= left - Floors(lengths, left, SumAt(lengths, pending), pending) < |pending|
    ensures var total, sorted := SumAt(lengths, pending), ByShare(lengths, pending, left);
      var more := left - Floors(lengths, left, total, pending);
      SumAt(bytes, sorted[i..]) == Floors(lengths, left, total, sorted[i..]) + if i < more then more - i else 0
    decreases |ByShare(lengths, pending, left)| - i
  {
    var total, sorted := SumAt(lengths, pending), ByShare(lengths, pending, left);
    SharesAreSorted(lengths, pending, left);
    if i < |sorted| {
      GotFrom(lengths, pending, left, bytes, i + 1);
      GotAtPlace(lengths, pending, left, bytes, i);
      assert sorted[i..][1..] == sorted[i + 1..];
    }
  }

  lemma {:induction false} GotAtPlace(lengths: seq<nat>, pending: seq<nat>, left: nat, bytes: seq<nat>, i: nat)
    requires Filling(lengths, pending, left) && SumAt(lengths, pending) > 0 && Got(lengths, pending, left, bytes)
    requires i < |ByShare(lengths, pending, left)| == |pending|
    requires 0 <= left - Floors(lengths, left, SumAt(lengths, pending), pending) < |pending|
    ensures var total, sorted := SumAt(lengths, pending), ByShare(lengths, pending, left);
      var more := left - Floors(lengths, left, total, pending);
      At(bytes, sorted[i]) == Floor(lengths, left, total, sorted[i]) + if i < more then 1 else 0
  {
    var total, sorted := SumAt(lengths, pending), ByShare(lengths, pending, left);
    SharesAreSorted(lengths, pending, left);
    assert sorted[i] in sorted;
    RaisedAreFirst(ByRemainder(lengths, left, total), sorted, left - Floors(lengths, left, total, pending), i);
  }

  lemma {:induction false} SumAtMost(s: seq<nat>, channels: seq<nat>, most: nat)
    requires forall i | 0 <= i < |channels| :: At(s, channels[i]) <= most
    ensures SumAt(s, channels) <= most * |channels|
    decreases |channels|
  {
    if channels != [] { SumAtMost(s, channels[1..], most); }
  }

  /** The one that gets least is always short of its length. */
  lemma {:induction false} LeastIsShort(lengths: seq<nat>, pending: seq<nat>, left: nat, bytes: seq<nat>)
    requires Filling(lengths, pending, left) && pending != [] && Got(lengths, pending, left, bytes)
    ensures At(bytes, Least(lengths, pending)) < At(lengths, Least(lengths, pending))
  {
    var least, sorted := Least(lengths, pending), ByShare(lengths, pending, left);
    PendingGetAll(lengths, pending, left, bytes);
    LeastIsLast(lengths, pending, pending[0]);
    forall i | 0 <= i < |sorted| ensures At(bytes, sorted[i]) >= At(bytes, least) {
      assert sorted[i] in sorted;
      LeastGetsLeast(lengths, pending, left, sorted[i]);
    }
    SumAtLeast(bytes, sorted, At(bytes, least));
    LessOfProducts(At(bytes, least), At(lengths, pending[0]), |pending|);
    var j :| 0 <= j < |pending| && pending[j] == least;
    assert j > 0 ==> Before(ByLength(lengths), pending[0], pending[j]);
  }

  /** The one that gets most gets as much as any channel filled holds. */
  lemma {:induction false} MostPassesFilled(lengths: seq<nat>, pending: seq<nat>, left: nat, bytes: seq<nat>, c: nat)
    requires Filling(lengths, pending, left) && pending != [] && Got(lengths, pending, left, bytes) && c !in pending
    ensures At(lengths, c) <= At(bytes, Most(lengths, pending))
  {
    var most, sorted := Most(lengths, pending), ByShare(lengths, pending, left);
    PendingGetAll(lengths, pending, left, bytes);
    forall i | 0 <= i < |sorted| ensures At(bytes, sorted[i]) <= At(bytes, most) {
      assert sorted[i] in sorted;
      MostGetsMost(lengths, pending, left, sorted[i]);
    }
    SumAtMost(bytes, sorted, At(bytes, most));
    NoMoreOfProducts(At(lengths, c), At(bytes, most), |pending|);
  }

  lemma {:induction false} NoMoreOfProducts(a: nat, b: nat, n: nat)
    requires a * n <= b * n && n > 0
    ensures a <= b
  {
    assert a > b ==> (a - b) * n > 0;
  }

  /**
   * The bytes are shared as evenly as can be exactly where what the pending channels get spreads
   * over a byte at most.
   */
  lemma {:induction false} MaxMinFairExactly(lengths: seq<nat>, budget: nat)
    ensures var (pending, left) := Pending(lengths, budget);
      MaxMinFair(lengths, Allocation(lengths, budget)) <==> PendingSpreadLittle(lengths, pending, left)
  {
    var (pending, left) := Pending(lengths, budget);
    PendingFills(lengths, budget);
    FairExactly(lengths, pending, left, Allocation(lengths, budget));
  }

  lemma {:induction false} FairExactly(lengths: seq<nat>, pending: seq<nat>, left: nat, bytes: seq<nat>)
    requires Filling(lengths, pending, left) && Got(lengths, pending, left, bytes)
    ensures MaxMinFair(lengths, bytes) <==> PendingSpreadLittle(lengths, pending, left)
  {
    if pending != [] {
      LeastIsShort(lengths, pending, left, bytes);
      if PendingSpreadLittle(lengths, pending, left) {
        SharesEvenly(lengths, pending, left, bytes);
      } else {
        var c, d := Least(lengths, pending), Most(lengths, pending);
        assert c < |lengths| && d < |lengths| && bytes[c] < lengths[c] && bytes[d] > bytes[c] + 1;
      }
    }
  }

  lemma {:induction false} SharesEvenly(lengths: seq<nat>, pending: seq<nat>, left: nat, bytes: seq<nat>)
    requires Filling(lengths, pending, left) && Got(lengths, pending, left, bytes)
    requires pending != [] && PendingSpreadLittle(lengths, pending, left)
    ensures MaxMinFair(lengths, bytes)
  {
    forall c: nat, d: nat | c < |lengths| && d < |lengths| && bytes[c] < lengths[c] ensures bytes[d] <= bytes[c] + 1 {
      assert c in pending;
      LeastGetsLeast(lengths, pending, left, c);
      if d in pending {
        MostGetsMost(lengths, pending, left, d);
      } else {
        MostPassesFilled(lengths, pending, left, bytes, d);
      }
    }
  }

  lemma {:induction false} FillsTheThree()
    ensures Pending([9, 11, 1_000], 30) == ([1, 2], 21)
  {
    var lengths: seq<nat> := [9, 11, 1_000];
    HoldsTheThree();
    SortsTheThree();
    assert [0, 1, 2][1..] == [1, 2] && Fill(lengths, [1, 2], 21) == ([1, 2], 21);
  }

  lemma {:induction false} HoldsTheThree()
    ensures Filled([9, 11, 1_000]) == [0, 1, 2]
  {
    assert [9, 11, 1_000][..2] == [9, 11] && [9, 11][..1] == [9] && [9][..0] == [];
    assert Filled([9]) == [0] && Filled([9, 11]) == [0, 1];
  }

  lemma {:induction false} SortsTheThree()
    ensures Sort(ByLength([9, 11, 1_000]), [0, 1, 2]) == [0, 1, 2]
  {
    var rank := ByLength([9, 11, 1_000]);
    assert [0, 1, 2][1..] == [1, 2] && [1, 2][1..] == [2];
    assert Sort(rank, [2]) == [2] && Sort(rank, [1, 2]) == [1, 2];
  }

  lemma {:induction false} RaisesTheLast()
    ensures SumAt([9, 11, 1_000], [1, 2]) == 1_011 && RaisedOf([9, 11, 1_000], [1, 2], 21) == [2]
  {
    var lengths: seq<nat> := [9, 11, 1_000];
    assert [1, 2][1..] == [2] && SumAt(lengths, [2]) == 1_000;
    var rank := ByRemainder(lengths, 21, 1_011);
    assert Remainder(lengths, 21, 1_011, 1) == 231 && Remainder(lengths, 21, 1_011, 2) == 780;
    assert Sort(rank, [2]) == [2] && Sort(rank, [1, 2]) == [2, 1];
    assert Floors(lengths, 21, 1_011, [2]) == 20 && Floors(lengths, 21, 1_011, [1, 2]) == 20;
    assert [2, 1][..1] == [2];
  }

  lemma {:induction false} GetsTheThree()
    ensures Gets([9, 11, 1_000], [1, 2], 21, 0) == 9
    ensures Gets([9, 11, 1_000], [1, 2], 21, 1) == 0
    ensures Gets([9, 11, 1_000], [1, 2], 21, 2) == 21
  {
    RaisesTheLast();
    assert 1 in [1, 2] && 2 in [1, 2] && 1 !in [2] && 2 in [2];
  }

  lemma {:induction false} GotTheThree()
    ensures Got([9, 11, 1_000], [1, 2], 21, [9, 0, 21])
  {
    GetsTheThree();
    forall c: nat | c < 3 ensures [9, 0, 21][c] == Gets([9, 11, 1_000], [1, 2], 21, c) {
      assert c == 0 || c == 1 || c == 2;
    }
  }

  lemma {:induction false} AllocationIs(lengths: seq<nat>, budget: nat, pending: seq<nat>, left: nat, bytes: seq<nat>)
    requires Pending(lengths, budget) == (pending, left) && Got(lengths, pending, left, bytes)
    ensures Allocation(lengths, budget) == bytes
  {
  }

  lemma {:induction false} GivesTheThree()
    ensures Allocation([9, 11, 1_000], 30) == [9, 0, 21]
  {
    FillsTheThree();
    GotTheThree();
    AllocationIs([9, 11, 1_000], 30, [1, 2], 21, [9, 0, 21]);
  }

  /**
   * Neither holds always: of 9, 11 and 1,000 with 30 to give, the 9 are given whole, the 11
   * nothing, and the 1,000 what is left.
   */
  lemma {:induction false} SharingByLengthMayStarve()
    ensures Allocation([9, 11, 1_000], 30) == [9, 0, 21]
    ensures !Monotone([9, 11, 1_000], Allocation([9, 11, 1_000], 30))
    ensures !MaxMinFair([9, 11, 1_000], Allocation([9, 11, 1_000], 30))
  {
    GivesTheThree();
    var lengths: seq<nat>, bytes: seq<nat> := [9, 11, 1_000], [9, 0, 21];
    assert lengths[0] < lengths[1] && bytes[0] > bytes[1];
    assert bytes[1] < lengths[1] && bytes[2] > bytes[1] + 1;
  }
}
