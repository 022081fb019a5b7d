/**
 * `allocateChannelBytes` of packages/core/src/mcp/exec-snapshot.ts: the bytes a snapshot gives
 * each output channel, out of a budget they may not all fit in. The shortest channels are
 * given all of their own while that is no more than an equal share, and the others share what
 * is left by length, the largest remainders rounded up first. Shares are exact fractions.
 */
module ChannelBytes {
  import opened Basics

  function Sum(s: seq<nat>): nat {
    if s == [] then 0 else Sum(s[..|s| - 1]) + s[|s| - 1]
  }

  /** What `s` holds for `channels`, together. */
  function SumAt(s: seq<nat>, channels: seq<nat>): nat {
    if channels == [] then 0 else At(s, channels[0]) + SumAt(s, channels[1..])
  }

  function At(s: seq<nat>, channel: nat): nat {
    if channel < |s| then s[channel] else 0
  }

  /** A share's floor and what the division leaves: `length * left / total`, exactly. */
  function Floor(lengths: seq<nat>, left: nat, total: pos, channel: nat): nat
  {
    At(lengths, channel) * left / total
  }

  function Remainder(lengths: seq<nat>, left: nat, total: pos, channel: nat): nat
  {
    At(lengths, channel) * left % total
  }

  /** What channels are sorted by: their length, or the remainder of their share, largest first. */
  datatype Rank = ByLength(lengths: seq<nat>) | ByRemainder(lengths: seq<nat>, left: nat, total: pos)

  function Key(rank: Rank, channel: nat): int {
    match rank
    case ByLength(lengths) => At(lengths, channel)
    case ByRemainder(lengths, left, total) => 0 - Remainder(lengths, left, total, channel)
  }

  /** Whether `a` sorts before `b`: by rank, then by place. */
  predicate Before(rank: Rank, a: nat, b: nat) {
    Key(rank, a) < Key(rank, b) || (Key(rank, a) == Key(rank, b) && a < b)
  }

  function Insert(rank: Rank, c: nat, sorted: seq<nat>): seq<nat> {
    if sorted == [] || Before(rank, c, sorted[0]) then [c] + sorted
    else [sorted[0]] + Insert(rank, c, sorted[1..])
  }

  function Sort(rank: Rank, channels: seq<nat>): seq<nat> {
    if channels == [] then [] else Insert(rank, channels[0], Sort(rank, channels[1..]))
  }

  predicate Sorted(rank: Rank, channels: seq<nat>) {
    forall i, j | 0 <= i < j < |channels| :: Before(rank, channels[i], channels[j])
  }

  predicate Distinct(channels: seq<nat>) {
    forall i, j | 0 <= i < j < |channels| :: channels[i] != channels[j]
  }

  /** The channels that hold something. */
  function Filled(lengths: seq<nat>): (channels: seq<nat>)
    ensures forall c <- channels :: c < |lengths| && lengths[c] > 0
    ensures forall c: nat | c < |lengths| && lengths[c] > 0 :: c in channels
    ensures Distinct(channels)
  {
    if lengths == [] then []
    else
      var rest, last := lengths[..|lengths| - 1], |lengths| - 1;
      assert forall c: nat | c < |rest| :: rest[c] == lengths[c];
      var filled := Filled(rest);
      assert forall i | 0 <= i < |filled| :: filled[i] in filled && filled[i] < last;
      if lengths[last] > 0 then filled + [last] else filled
  }

  /** Water-filling: what stays pending of sorted channels, and what is left of the budget for it. */
  function Fill(lengths: seq<nat>, pending: seq<nat>, budget: nat): (seq<nat>, nat) {
    if pending != [] && At(lengths, pending[0]) * |pending| <= budget
    then
      assert At(lengths, pending[0]) <= budget;
      Fill(lengths, pending[1..], budget - At(lengths, pending[0]))
    else (pending, budget)
  }

  lemma {:induction false} InsertKeeps(rank: Rank, c: nat, sorted: seq<nat>)
    requires Sorted(rank, sorted) && c !in sorted
    ensures Sorted(rank, Insert(rank, c, sorted))
    ensures forall d :: d in Insert(rank, c, sorted) <==> d == c || d in sorted
  {
    if sorted == [] || Before(rank, c, sorted[0]) {
      assert forall j | 0 < j < |sorted| :: Before(rank, sorted[0], sorted[j]);
    } else {
      InsertKeeps(rank, c, sorted[1..]);
      var rest := Insert(rank, c, sorted[1..]);
      forall j | 0 <= j < |rest| ensures Before(rank, sorted[0], rest[j]) {
        assert rest[j] in rest;
      }
    }
  }

  lemma {:induction false} SortKeeps(rank: Rank, channels: seq<nat>)
    requires Distinct(channels)
    ensures Sorted(rank, Sort(rank, channels)) && |Sort(rank, channels)| == |channels|
    ensures forall d :: d in Sort(rank, channels) <==> d in channels
  {
    if channels != [] {
      SortKeeps(rank, channels[1..]);
      InsertKeeps(rank, channels[0], Sort(rank, channels[1..]));
      InsertGrows(rank, channels[0], Sort(rank, channels[1..]));
    }
  }

  lemma {:induction false} InsertGrows(rank: Rank, c: nat, sorted: seq<nat>)
    ensures |Insert(rank, c, sorted)| == |sorted| + 1
  {
    if sorted != [] && !Before(rank, c, sorted[0]) { InsertGrows(rank, c, sorted[1..]); }
  }

  lemma {:induction false} SortSums(rank: Rank, channels: seq<nat>, s: seq<nat>)
    ensures SumAt(s, Sort(rank, channels)) == SumAt(s, channels)
  {
    if channels != [] {
      SortSums(rank, channels[1..], s);
      InsertSums(rank, channels[0], Sort(rank, channels[1..]), s);
    }
  }

  lemma {:induction false} InsertSums(rank: Rank, c: nat, sorted: seq<nat>, s: seq<nat>)
    ensures SumAt(s, Insert(rank, c, sorted)) == At(s, c) + SumAt(s, sorted)
  {
    if sorted != [] && !Before(rank, c, sorted[0]) { InsertSums(rank, c, sorted[1..], s); }
  }

  lemma {:induction false} SumAtOn(s: seq<nat>, a: seq<nat>, b: seq<nat>)
    ensures SumAt(s, a + b) == SumAt(s, a) + SumAt(s, b)
    decreases |a|
  {
    if a == [] {
      assert a + b == b;
    } else {
      SumAtOn(s, a[1..], b);
      assert (a + b)[1..] == a[1..] + b;
    }
  }

  lemma {:induction false} SumAtOfLonger(s: seq<nat>, last: nat, channels: seq<nat>)
    requires forall i | 0 <= i < |channels| :: channels[i] < |s|
    ensures SumAt(s + [last], channels) == SumAt(s, channels)
  {
    if channels != [] {
      SumAtOfLonger(s, last, channels[1..]);
    }
  }

  lemma {:induction false} FilledSums(lengths: seq<nat>)
    ensures SumAt(lengths, Filled(lengths)) == Sum(lengths)
  {
    if lengths != [] {
      var rest, last := lengths[..|lengths| - 1], |lengths| - 1;
      FilledSums(rest);
      assert lengths == rest + [lengths[last]];
      assert forall i | 0 <= i < |Filled(rest)| :: Filled(rest)[i] in Filled(rest);
      SumAtOfLonger(rest, lengths[last], Filled(rest));
      SumAtOn(lengths, Filled(rest), if lengths[last] > 0 then [last] else []);
    }
  }

  lemma {:induction false} SumOfUpdate(s: seq<nat>, c: nat, value: nat)
    requires c < |s|
    ensures Sum(s[c := value]) == Sum(s) - s[c] + value
  {
    var n := |s| - 1;
    if c == n {
      assert s[c := value][..n] == s[..n];
    } else {
      SumOfUpdate(s[..n], c, value);
      assert s[c := value][..n] == s[..n][c := value];
    }
  }

  function Floors(lengths: seq<nat>, left: nat, total: pos, channels: seq<nat>): nat
  {
    if channels == [] then 0 else Floor(lengths, left, total, channels[0]) + Floors(lengths, left, total, channels[1..])
  }

  function Remainders(lengths: seq<nat>, left: nat, total: pos, channels: seq<nat>): nat
  {
    if channels == [] then 0
    else Remainder(lengths, left, total, channels[0]) + Remainders(lengths, left, total, channels[1..])
  }

  /** One more share divides as it does alone. */
  lemma {:induction false} OneMoreShare(length: nat, left: nat, total: pos, lengths: nat, floors: nat, remainders: nat)
    requires lengths * left == floors * total + remainders
    ensures (length + lengths) * left == (length * left / total + floors) * total + (length * left % total + remainders)
  {
    var n := length * left;
    assert n == n / total * total + n % total;
    assert (length + lengths) * left == n + lengths * left;
    assert (n / total + floors) * total == n / total * total + floors * total;
  }

  lemma {:induction false} SharesDivide(lengths: seq<nat>, left: nat, total: pos, channels: seq<nat>)
    ensures SumAt(lengths, channels) * left ==
            Floors(lengths, left, total, channels) * total + Remainders(lengths, left, total, channels)
    decreases |channels|
  {
    if channels != [] {
      var rest := channels[1..];
      SharesDivide(lengths, left, total, rest);
      OneMoreShare(At(lengths, channels[0]), left, total, SumAt(lengths, rest),
                   Floors(lengths, left, total, rest), Remainders(lengths, left, total, rest));
    }
  }

  /** Each remainder is below the total, and none of what follows a channel left with nothing is above it. */
  lemma {:induction false} RemaindersBelow(lengths: seq<nat>, left: nat, total: pos, channels: seq<nat>, k: nat)
    requires k <= |channels|
    requires forall i | k <= i < |channels| :: Remainder(lengths, left, total, channels[i]) == 0
    ensures Remainders(lengths, left, total, channels) <= k * total
    ensures k > 0 ==> Remainders(lengths, left, total, channels) < k * total
    decreases |channels|
  {
    if channels != [] {
      RemaindersBelow(lengths, left, total, channels[1..], if k == 0 then 0 else k - 1);
      if k > 0 { assert k * total == total + (k - 1) * total; }
    }
  }

  /** What the floors leave of the budget is fewer bytes than there are channels to share them. */
  lemma {:induction false} FewerLeftThanShares(lengths: seq<nat>, left: nat, channels: seq<nat>)
    requires SumAt(lengths, channels) > 0
    ensures Floors(lengths, left, SumAt(lengths, channels), channels) <= left
    ensures left - Floors(lengths, left, SumAt(lengths, channels), channels) < |channels|
  {
    var total := SumAt(lengths, channels);
    SharesDivide(lengths, left, total, channels);
    RemaindersBelow(lengths, left, total, channels, |channels|);
    LeftIsRemainders(total, left, Floors(lengths, left, total, channels), Remainders(lengths, left, total, channels));
    BetweenMultiples(left - Floors(lengths, left, total, channels), total, Remainders(lengths, left, total, channels),
      |channels|);
  }

  lemma {:induction false} LeftIsRemainders(total: pos, left: int, floors: int, remainders: int)
    requires total * left == floors * total + remainders
    ensures (left - floors) * total == remainders
  {
    assert (left - floors) * total == left * total - floors * total;
  }

  lemma {:induction false} BetweenMultiples(n: int, total: pos, remainders: nat, count: nat)
    requires n * total == remainders < count * total
    ensures 0 <= n < count
  {
  }

  lemma {:induction false} SumAtLeast(s: seq<nat>, channels: seq<nat>, least: nat)
    requires forall i | 0 <= i < |channels| :: At(s, channels[i]) >= least
    ensures SumAt(s, channels) >= least * |channels|
    decreases |channels|
  {
    if channels != [] { SumAtLeast(s, channels[1..], least); }
  }

  /** Sorted channels the shortest of which is longer than an equal share hold more than is left. */
  lemma {:induction false} PendingHoldMore(lengths: seq<nat>, pending: seq<nat>, left: nat)
    requires Sorted(ByLength(lengths), pending) && pending != []
    requires At(lengths, pending[0]) * |pending| > left
    ensures SumAt(lengths, pending) > left
  {
    assert forall i | 0 < i < |pending| :: Before(ByLength(lengths), pending[0], pending[i]);
    SumAtLeast(lengths, pending, At(lengths, pending[0]));
  }

  /** The floors leave no more bytes than there are channels with a remainder. */
  lemma {:induction false} LeftForRemainders(lengths: seq<nat>, left: nat, channels: seq<nat>, k: nat)
    requires SumAt(lengths, channels) > 0 && k <= |channels|
    requires forall i | k <= i < |channels| :: Remainder(lengths, left, SumAt(lengths, channels), channels[i]) == 0
    ensures left - Floors(lengths, left, SumAt(lengths, channels), channels) <= k
  {
    var total := SumAt(lengths, channels);
    SharesDivide(lengths, left, total, channels);
    RemaindersBelow(lengths, left, total, channels, k);
    var floors, remainders := Floors(lengths, left, total, channels), Remainders(lengths, left, total, channels);
    LeftIsRemainders(total, left, floors, remainders);
    assert (k + 1) * total == k * total + total;
    LessOfMultiples(left - floors, k + 1, total, remainders);
  }

  /** As many channels as bytes the floors leave are left with a remainder: none is rounded up past its ceiling. */
  lemma {:induction false} RoundedUpHaveRemainders(lengths: seq<nat>, left: nat, channels: seq<nat>, k: nat)
    requires SumAt(lengths, channels) > 0
    requires Sorted(ByRemainder(lengths, left, SumAt(lengths, channels)), channels)
    requires k < left - Floors(lengths, left, SumAt(lengths, channels), channels) && k < |channels|
    ensures Remainder(lengths, left, SumAt(lengths, channels), channels[k]) > 0
  {
    var rank := ByRemainder(lengths, left, SumAt(lengths, channels));
    if Key(rank, channels[k]) == 0 {
      forall i | k < i < |channels| ensures Key(rank, channels[i]) == 0 {
        assert Before(rank, channels[k], channels[i]);
      }
      LeftForRemainders(lengths, left, channels, k);
    }
  }

  lemma {:induction false} FloorsSort(rank: Rank, channels: seq<nat>, lengths: seq<nat>, left: nat, total: pos)
    ensures Floors(lengths, left, total, Sort(rank, channels)) == Floors(lengths, left, total, channels)
  {
    if channels != [] {
      FloorsSort(rank, channels[1..], lengths, left, total);
      FloorsInsert(rank, channels[0], Sort(rank, channels[1..]), lengths, left, total);
    }
  }

  lemma {:induction false} FloorsInsert(rank: Rank, c: nat, sorted: seq<nat>, lengths: seq<nat>, left: nat, total: pos)
    ensures Floors(lengths, left, total, Insert(rank, c, sorted)) ==
            Floor(lengths, left, total, c) + Floors(lengths, left, total, sorted)
  {
    if sorted != [] && !Before(rank, c, sorted[0]) { FloorsInsert(rank, c, sorted[1..], lengths, left, total); }
  }

  lemma {:induction false} LessOfMultiples(a: int, b: int, total: pos, n: int)
    requires a * total <= n < b * total
    ensures a < b
  {
  }

  /** A share of less than the channels hold together is less than the channel, rounded up too. */
  lemma {:induction false} ShareIsLess(length: nat, left: nat, total: pos)
    requires left < total && 0 < length
    ensures length * left / total < length
  {
    LessOfMultiples(length * left / total, length, total, length * left);
  }

  /** The sorted channels, and what water-filling leaves pending of them, with what budget. */
  function Pending(lengths: seq<nat>, budget: nat): (seq<nat>, nat) {
    Fill(lengths, Sort(ByLength(lengths), Filled(lengths)), budget)
  }

  /** The pending channels' shares: each the floor of its own, or its ceiling, the largest remainders first. */
  ghost predicate Shares(lengths: seq<nat>, pending: seq<nat>, left: nat, bytes: seq<nat>) {
    var total := SumAt(lengths, pending);
    pending == [] ||
    (&& left < total
     && (forall c <- pending ::
           || At(bytes, c) == Floor(lengths, left, total, c)
           || (At(bytes, c) == Floor(lengths, left, total, c) + 1 && Remainder(lengths, left, total, c) > 0))
     && (forall c, d | c in pending && d in pending ::
           At(bytes, c) > Floor(lengths, left, total, c) && At(bytes, d) == Floor(lengths, left, total, d)
           ==> Before(ByRemainder(lengths, left, total), c, d)))
  }

  predicate PartlyAllocated(lengths: seq<nat>, pending: seq<nat>, bytes: seq<nat>) {
    && |bytes| == |lengths|
    && (forall c: nat | c < |lengths| :: c !in pending ==> bytes[c] == lengths[c])
  }

  /** Sorted channels of those given. */
  predicate Channels(rank: Rank, channels: seq<nat>, count: nat) {
    Sorted(rank, channels) && forall i | 0 <= i < |channels| :: channels[i] < count
  }

  /** What is pending is given nothing yet, and with what is given, is what there is. */
  predicate Given(lengths: seq<nat>, pending: seq<nat>, bytes: seq<nat>) {
    && PartlyAllocated(lengths, pending, bytes)
    && (forall i | 0 <= i < |pending| :: At(bytes, pending[i]) == 0)
    && Sum(lengths) == Sum(bytes) + SumAt(lengths, pending)
  }

  lemma {:induction false} SortedChannels(lengths: seq<nat>)
    ensures var pending := Sort(ByLength(lengths), Filled(lengths));
      && Channels(ByLength(lengths), pending, |lengths|)
      && SumAt(lengths, pending) == Sum(lengths)
      && forall c :: c in pending <==> c in Filled(lengths)
  {
    var pending := Sort(ByLength(lengths), Filled(lengths));
    SortKeeps(ByLength(lengths), Filled(lengths));
    SortSums(ByLength(lengths), Filled(lengths), lengths);
    FilledSums(lengths);
    forall i | 0 <= i < |pending| ensures pending[i] < |lengths| { assert pending[i] in pending; }
  }

  lemma {:induction false} SumOfZeros(n: nat)
    ensures Sum(seq(n, i => 0)) == 0
  {
    if n > 0 {
      SumOfZeros(n - 1);
      assert seq(n, i => 0)[..n - 1] == seq(n - 1, i => 0);
    }
  }

  lemma {:induction false} GivenNothing(lengths: seq<nat>)
    ensures Given(lengths, Sort(ByLength(lengths), Filled(lengths)), seq(|lengths|, i => 0))
  {
    SortedChannels(lengths);
    SumOfZeros(|lengths|);
  }

  /** The shortest channel pending is given all of its own. */
  lemma {:induction false} GivesShortest(lengths: seq<nat>, pending: seq<nat>, bytes: seq<nat>)
    requires Channels(ByLength(lengths), pending, |lengths|) && Given(lengths, pending, bytes) && pending != []
    ensures var more := bytes[pending[0] := lengths[pending[0]]];
      && Channels(ByLength(lengths), pending[1..], |lengths|)
      && Given(lengths, pending[1..], more)
      && Sum(more) == Sum(bytes) + lengths[pending[0]]
  {
    var c, rest := pending[0], pending[1..];
    SumOfUpdate(bytes, c, lengths[c]);
    assert forall i | 0 <= i < |rest| :: Before(ByLength(lengths), c, rest[i]);
    assert pending == [c] + rest;
  }

  /** The pending channels' floors are given, those of the first `k` of them. */
  predicate Floored(lengths: seq<nat>, pending: seq<nat>, left: nat, total: pos, k: nat, bytes: seq<nat>) {
    && k <= |pending| && PartlyAllocated(lengths, pending, bytes)
    && (forall i | 0 <= i < |pending| ::
        At(bytes, pending[i]) == if i < k then Floor(lengths, left, total, pending[i]) else 0)
  }

  /** Of sorted channels, the first `k` are given a byte more than their floors. */
  predicate RoundedUp(lengths: seq<nat>, sorted: seq<nat>, left: nat, total: pos, k: nat, bytes: seq<nat>) {
    && k <= |sorted| && PartlyAllocated(lengths, sorted, bytes)
    && (forall i | 0 <= i < |sorted| ::
        At(bytes, sorted[i]) == Floor(lengths, left, total, sorted[i]) + if i < k then 1 else 0)
  }

  /** The pending channels are given their floors. */
  method GiveFloors(lengths: seq<nat>, pending: seq<nat>, left: nat, total: pos, given: seq<nat>)
    returns (bytes: seq<nat>)
    requires Channels(ByLength(lengths), pending, |lengths|) && Given(lengths, pending, given)
    ensures Floored(lengths, pending, left, total, |pending|, bytes)
    ensures Sum(bytes) == Sum(given) + Floors(lengths, left, total, pending)
  {
    bytes := given;
    for k := 0 to |pending|
      invariant Floored(lengths, pending, left, total, k, bytes)
      invariant Sum(bytes) + Floors(lengths, left, total, pending[k..]) ==
        Sum(given) + Floors(lengths, left, total, pending)
    {
      var c := pending[k];
      SumOfUpdate(bytes, c, Floor(lengths, left, total, c));
      FloorsFrom(lengths, left, total, pending, k);
      bytes := bytes[c := Floor(lengths, left, total, c)];
    }
  }

  lemma {:induction false} FloorsFrom(lengths: seq<nat>, left: nat, total: pos, channels: seq<nat>, k: nat)
    requires k < |channels|
    ensures Floors(lengths, left, total, channels[k..]) ==
            Floor(lengths, left, total, channels[k]) + Floors(lengths, left, total, channels[k + 1..])
  {
    assert channels[k..][1..] == channels[k + 1..];
  }

  /** The first `remainder` of the sorted channels are given a byte more. */
  method RoundUp(lengths: seq<nat>, sorted: seq<nat>, left: nat, total: pos, given: seq<nat>, bytesLeft: nat)
    returns (bytes: seq<nat>)
    requires Channels(ByRemainder(lengths, left, total), sorted, |lengths|) && bytesLeft <= |sorted|
    requires RoundedUp(lengths, sorted, left, total, 0, given)
    ensures RoundedUp(lengths, sorted, left, total, bytesLeft, bytes)
    ensures Sum(bytes) == Sum(given) + bytesLeft
  {
    bytes := given;
    var remainder := bytesLeft;
    for k := 0 to |sorted|
      invariant 0 <= remainder == bytesLeft - k && RoundedUp(lengths, sorted, left, total, k, bytes)
      invariant Sum(bytes) == Sum(given) + k
    {
      if remainder == 0 { break; }
      var c := sorted[k];
      SumOfUpdate(bytes, c, bytes[c] + 1);
      bytes := bytes[c := bytes[c] + 1];
      remainder := remainder - 1;
    }
  }

  /** The pending channels by the remainders of their shares, largest first. */
  function ByShare(lengths: seq<nat>, pending: seq<nat>, left: nat): seq<nat>
    requires SumAt(lengths, pending) > 0
  {
    Sort(ByRemainder(lengths, left, SumAt(lengths, pending)), pending)
  }

  lemma {:induction false} SharesAreSorted(lengths: seq<nat>, pending: seq<nat>, left: nat)
    requires Channels(ByLength(lengths), pending, |lengths|) && SumAt(lengths, pending) > 0
    ensures var total, sorted := SumAt(lengths, pending), ByShare(lengths, pending, left);
      && Channels(ByRemainder(lengths, left, total), sorted, |lengths|) && |sorted| == |pending|
      && (forall c :: c in sorted <==> c in pending)
      && Floors(lengths, left, total, sorted) == Floors(lengths, left, total, pending)
      && SumAt(lengths, sorted) == total
  {
    var rank := ByRemainder(lengths, left, SumAt(lengths, pending));
    var sorted := ByShare(lengths, pending, left);
    SortKeeps(rank, pending);
    SortSums(rank, pending, lengths);
    FloorsSort(rank, pending, lengths, left, SumAt(lengths, pending));
    forall i | 0 <= i < |sorted| ensures sorted[i] < |lengths| { assert sorted[i] in sorted; }
  }

  /** The pending channels given a byte more than their floors: as many as the floors leave bytes. */
  function RaisedOf(lengths: seq<nat>, pending: seq<nat>, left: nat): seq<nat> {
    var total := SumAt(lengths, pending);
    if total == 0 then []
    else
      var sorted, more := ByShare(lengths, pending, left), left - Floors(lengths, left, total, pending);
      if 0 <= more <= |sorted| then sorted[..more] else []
  }

  /** What a channel gets: all of its own, or, pending, its share's floor and a byte more where it is raised. */
  function Gets(lengths: seq<nat>, pending: seq<nat>, left: nat, c: nat): nat {
    if c !in pending then At(lengths, c)
    else if SumAt(lengths, pending) == 0 then 0
    else Floor(lengths, left, SumAt(lengths, pending), c) + if c in RaisedOf(lengths, pending, left) then 1 else 0
  }

  /** What the channels are given, in closed form. */
  function Allocation(lengths: seq<nat>, budget: nat): (bytes: seq<nat>)
    ensures |bytes| == |lengths|
  {
    var (pending, left) := Pending(lengths, budget);
    seq(|lengths|, c requires 0 <= c < |lengths| => Gets(lengths, pending, left, c))
  }

  lemma {:induction false} RaisedAreFirst(rank: Rank, sorted: seq<nat>, k: nat, i: nat)
    requires Sorted(rank, sorted) && k <= |sorted| && i < |sorted|
    ensures sorted[i] in sorted[..k] <==> i < k
  {
    if i < k { assert sorted[..k][i] == sorted[i]; }
    if sorted[i] in sorted[..k] {
      var j :| 0 <= j < k && sorted[..k][j] == sorted[i];
      assert j < i ==> Before(rank, sorted[j], sorted[i]);
    }
  }

  /** Rounded up so, the channels are given what each gets. */
  lemma {:induction false} RoundedUpGets(lengths: seq<nat>, pending: seq<nat>, left: nat, bytes: seq<nat>)
    requires Channels(ByLength(lengths), pending, |lengths|) && SumAt(lengths, pending) > 0
    requires var total, sorted := SumAt(lengths, pending), ByShare(lengths, pending, left);
      && 0 <= left - Floors(lengths, left, total, sorted) < |sorted|
      && RoundedUp(lengths, sorted, left, total, left - Floors(lengths, left, total, sorted), bytes)
    ensures forall c: nat | c < |lengths| :: bytes[c] == Gets(lengths, pending, left, c)
  {
    var total, sorted := SumAt(lengths, pending), ByShare(lengths, pending, left);
    SharesAreSorted(lengths, pending, left);
    forall c: nat | c < |lengths| ensures bytes[c] == Gets(lengths, pending, left, c) {
      if c in sorted {
        var i :| 0 <= i < |sorted| && sorted[i] == c;
        RaisedAreFirst(ByRemainder(lengths, left, total), sorted, left - Floors(lengths, left, total, sorted), i);
      }
    }
  }

  /** The shares of what water-filling left pending: floors, and a byte more for the largest remainders. */
  method ShareOut(lengths: seq<nat>, pending: seq<nat>, left: nat, given: seq<nat>) returns (bytes: seq<nat>)
    requires Channels(ByLength(lengths), pending, |lengths|) && Given(lengths, pending, given)
    requires pending != [] && SumAt(lengths, pending) > left
    ensures var total, sorted := SumAt(lengths, pending), ByShare(lengths, pending, left);
      && 0 <= left - Floors(lengths, left, total, sorted) < |sorted|
      && RoundedUp(lengths, sorted, left, total, left - Floors(lengths, left, total, sorted), bytes)
    ensures Sum(bytes) == Sum(given) + left
  {
    var total: pos := SumAt(lengths, pending);
    bytes := GiveFloors(lengths, pending, left, total, given);
    FewerLeftThanShares(lengths, left, pending);
    SharesAreSorted(lengths, pending, left);
    var remainder := left - Floors(lengths, left, total, pending);
    FlooredSorted(lengths, pending, left, bytes);
    bytes := RoundUp(lengths, ByShare(lengths, pending, left), left, total, bytes, remainder);
  }

  lemma {:induction false} FlooredSorted(lengths: seq<nat>, pending: seq<nat>, left: nat, bytes: seq<nat>)
    requires Channels(ByLength(lengths), pending, |lengths|) && SumAt(lengths, pending) > 0
    requires Floored(lengths, pending, left, SumAt(lengths, pending), |pending|, bytes)
    ensures RoundedUp(lengths, ByShare(lengths, pending, left), left, SumAt(lengths, pending), 0, bytes)
  {
    var sorted := ByShare(lengths, pending, left);
    SharesAreSorted(lengths, pending, left);
    forall i | 0 <= i < |sorted|
      ensures At(bytes, sorted[i]) == Floor(lengths, left, SumAt(lengths, pending), sorted[i])
    {
      assert sorted[i] in sorted && sorted[i] in pending;
    }
  }

  /**
   * Shares so rounded up are each the floor or ceiling, the largest remainders first, and no longer
   * than the channel.
   */
  lemma {:induction false} RoundedUpAreShares(lengths: seq<nat>, pending: seq<nat>, left: nat, bytes: seq<nat>)
    requires Channels(ByLength(lengths), pending, |lengths|) && pending != [] && SumAt(lengths, pending) > left
    requires forall i | 0 <= i < |pending| :: At(lengths, pending[i]) > 0
    requires var total, sorted := SumAt(lengths, pending), ByShare(lengths, pending, left);
      && 0 <= left - Floors(lengths, left, total, sorted) < |sorted|
      && RoundedUp(lengths, sorted, left, total, left - Floors(lengths, left, total, sorted), bytes)
    ensures Shares(lengths, pending, left, bytes) && PartlyAllocated(lengths, pending, bytes)
    ensures forall c <- pending :: At(bytes, c) <= At(lengths, c)
  {
    var total, sorted := SumAt(lengths, pending), ByShare(lengths, pending, left);
    SharesAreSorted(lengths, pending, left);
    var more := left - Floors(lengths, left, total, sorted);
    forall c <- pending
      ensures At(bytes, c) <= At(lengths, c)
      ensures At(bytes, c) == Floor(lengths, left, total, c)
              || (At(bytes, c) == Floor(lengths, left, total, c) + 1 && Remainder(lengths, left, total, c) > 0)
    {
      var i :| 0 <= i < |sorted| && sorted[i] == c;
      ShareIsLess(At(lengths, c), left, total);
      if i < more { RoundedUpHaveRemainders(lengths, left, sorted, i); }
    }
    forall c, d | c in pending && d in pending && At(bytes, c) > Floor(lengths, left, total, c)
                  && At(bytes, d) == Floor(lengths, left, total, d)
      ensures Before(ByRemainder(lengths, left, total), c, d)
    {
      var i :| 0 <= i < |sorted| && sorted[i] == c;
      var j :| 0 <= j < |sorted| && sorted[j] == d;
      assert i < j;
    }
  }

  lemma {:induction false} WholeWhereNothingPends(lengths: seq<nat>, bytes: seq<nat>)
    requires Given(lengths, [], bytes)
    ensures bytes == lengths
  {
  }

  lemma {:induction false} NoSharesOfNothing(lengths: seq<nat>, pending: seq<nat>, bytes: seq<nat>)
    requires SumAt(lengths, pending) > 0 && forall c :: At(bytes, c) == 0
    ensures Shares(lengths, pending, 0, bytes)
  {
    forall c: nat ensures Floor(lengths, 0, SumAt(lengths, pending), c) == 0 {}
  }

  /** A budget of nothing gives nothing, as every share of it is. */
  lemma {:induction false} NothingToShare(lengths: seq<nat>, bytes: seq<nat>)
    requires bytes == seq(|lengths|, i => 0)
    ensures Pending(lengths, 0).1 == 0
    ensures PartlyAllocated(lengths, Pending(lengths, 0).0, bytes) && Shares(lengths, Pending(lengths, 0).0, 0, bytes)
  {
    AllPendOfNothing(lengths);
    var pending := Pending(lengths, 0).0;
    SortedChannels(lengths);
    if pending != [] {
      PendingHoldMore(lengths, pending, 0);
      NoSharesOfNothing(lengths, pending, bytes);
    }
  }

  lemma {:induction false} FloorsOfNothing(lengths: seq<nat>, total: pos, channels: seq<nat>)
    ensures Floors(lengths, 0, total, channels) == 0
  {
    if channels != [] { FloorsOfNothing(lengths, total, channels[1..]); }
  }

  lemma {:induction false} NothingIsGot(lengths: seq<nat>)
    ensures Allocation(lengths, 0) == seq(|lengths|, i => 0)
  {
    AllPendOfNothing(lengths);
    SortedChannels(lengths);
    var pending := Pending(lengths, 0).0;
    forall c: nat | c < |lengths| ensures Gets(lengths, pending, 0, c) == 0 {
      if SumAt(lengths, pending) > 0 { FloorsOfNothing(lengths, SumAt(lengths, pending), pending); }
    }
  }

  lemma {:induction false} AllPendOfNothing(lengths: seq<nat>)
    ensures Pending(lengths, 0) == (Sort(ByLength(lengths), Filled(lengths)), 0)
    ensures Pending(lengths, 0).0 != [] ==> At(lengths, Pending(lengths, 0).0[0]) * |Pending(lengths, 0).0| > 0
  {
    SortedChannels(lengths);
    var pending := Sort(ByLength(lengths), Filled(lengths));
    if pending != [] {
      assert pending[0] in pending && At(lengths, pending[0]) > 0;
      ProductAtLeast(At(lengths, pending[0]), |pending|);
    }
  }

  /** Whether a filling of the channels has come to `pending` and what is `left`. */
  predicate FilledTo(lengths: seq<nat>, budget: nat, pending: seq<nat>, left: nat, bytes: seq<nat>) {
    && Pending(lengths, budget) == Fill(lengths, pending, left)
    && Channels(ByLength(lengths), pending, |lengths|) && Given(lengths, pending, bytes)
    && Sum(bytes) + left == budget
    && (forall i | 0 <= i < |pending| :: At(lengths, pending[i]) > 0)
  }

  lemma {:induction false} StartsFilled(lengths: seq<nat>, budget: nat)
    ensures FilledTo(lengths, budget, Sort(ByLength(lengths), Filled(lengths)), budget, seq(|lengths|, i => 0))
  {
    var pending := Sort(ByLength(lengths), Filled(lengths));
    SumOfZeros(|lengths|);
    SortedChannels(lengths);
    GivenNothing(lengths);
    forall i | 0 <= i < |pending| ensures At(lengths, pending[i]) > 0 { assert pending[i] in pending; }
  }

  lemma {:induction false} FillsShortest(lengths: seq<nat>, budget: nat, pending: seq<nat>, left: nat, bytes: seq<nat>)
    requires FilledTo(lengths, budget, pending, left, bytes)
    requires pending != [] && At(lengths, pending[0]) * |pending| <= left
    ensures lengths[pending[0]] <= left
    ensures FilledTo(lengths, budget, pending[1..], left - lengths[pending[0]],
      bytes[pending[0] := lengths[pending[0]]])
  {
    GivesShortest(lengths, pending, bytes);
    ProductAtLeast(At(lengths, pending[0]), |pending|);
  }

  lemma {:induction false} ProductAtLeast(n: nat, times: nat)
    requires times > 0
    ensures n <= n * times
  {
  }

  /** Water-filling: the shortest channel is given its length while that is no more than an equal share. */
  method FillUp(lengths: seq<nat>, totalBudget: nat) returns (pending: seq<nat>, left: nat, bytes: seq<nat>)
    ensures FilledTo(lengths, totalBudget, pending, left, bytes)
    ensures Pending(lengths, totalBudget) == (pending, left)
    ensures pending != [] ==> At(lengths, pending[0]) * |pending| > left
  {
    bytes := seq(|lengths|, i => 0);
    pending := Sort(ByLength(lengths), Filled(lengths));
    left := totalBudget;
    StartsFilled(lengths, totalBudget);
    while pending != [] && At(lengths, pending[0]) * |pending| <= left
      invariant FilledTo(lengths, totalBudget, pending, left, bytes)
    {
      FillsShortest(lengths, totalBudget, pending, left, bytes);
      bytes := bytes[pending[0] := lengths[pending[0]]];
      left := left - lengths[pending[0]];
      pending := pending[1..];
    }
  }

  /**
   * No channel is given more than its length, and together they are given all the budget, or
   * all they hold where that is less. Water-filling gives all but the pending channels all of
   * theirs, and those their shares of what it leaves.
   */
  method AllocateChannelBytes(lengths: seq<nat>, totalBudget: nat) returns (bytes: seq<nat>)
    ensures PartlyAllocated(lengths, Pending(lengths, totalBudget).0, bytes)
    ensures Shares(lengths, Pending(lengths, totalBudget).0, Pending(lengths, totalBudget).1, bytes)
    ensures Sum(bytes) == if Sum(lengths) <= totalBudget then Sum(lengths) else totalBudget
    ensures forall c: nat | c < |lengths| :: bytes[c] <= lengths[c]
    ensures bytes == Allocation(lengths, totalBudget)
  {
    if totalBudget == 0 {
      bytes := seq(|lengths|, i => 0);
      NothingToShare(lengths, bytes);
      NothingIsGot(lengths);
      SumOfZeros(|lengths|);
      return;
    }
    var pending, left;
    pending, left, bytes := FillUp(lengths, totalBudget);
    if pending == [] {
      WholeWhereNothingPends(lengths, bytes);
      return;
    }
    PendingHoldMore(lengths, pending, left);
    bytes := ShareOut(lengths, pending, left, bytes);
    RoundedUpAreShares(lengths, pending, left, bytes);
    RoundedUpGets(lengths, pending, left, bytes);
    assert forall c: nat | c < |lengths| && c !in pending :: bytes[c] == lengths[c];
  }
}
