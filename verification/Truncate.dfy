/**
 * packages/core/src/mcp/truncate.ts: a text over its budget keeps the longest start and end of
 * whole characters that fit half of it each. A text is its UTF-16 code units, whose length in
 * bytes is that of its UTF-8.
 */
module Truncate {
  type unit = u: int | 0 <= u < 0x1_0000

  const APPROX_BYTES_PER_TOKEN: nat := 4

  predicate High(u: unit) { 0xD800 <= u < 0xDC00 }

  predicate Low(u: unit) { 0xDC00 <= u < 0xE000 }

  /** How many units the first character of a text has: two where they pair. */
  function Units(s: seq<unit>): (n: nat)
    requires s != []
    ensures 1 <= n <= 2 && n <= |s|
  {
    if |s| > 1 && High(s[0]) && Low(s[1]) then 2 else 1
  }

  /** How many bytes it has: a surrogate that pairs with none is written as U+FFFD. */
  function Bytes(s: seq<unit>): (n: nat)
    requires s != []
    ensures 1 <= n <= 4
  {
    if Units(s) == 2 then 4 else if s[0] < 0x80 then 1 else if s[0] < 0x800 then 2 else 3
  }

  /** `Buffer.byteLength`. */
  function ByteLength(s: seq<unit>): nat {
    if s == [] then 0 else Bytes(s) + ByteLength(s[Units(s)..])
  }

  /** Whether a text may be cut at `i` between whole characters. */
  predicate Cut(s: seq<unit>, i: nat)
    decreases |s|
  {
    i == 0 || (s != [] && Units(s) <= i && Cut(s[Units(s)..], i - Units(s)))
  }

  /** What a text is cut at is within it, and the bytes before and after are the text's. */
  lemma {:induction false} CutDivides(s: seq<unit>, i: nat)
    requires Cut(s, i)
    ensures i <= |s| && ByteLength(s) == ByteLength(s[..i]) + ByteLength(s[i..])
    decreases |s|
  {
    if i == 0 {
      assert s[..0] == [] && s[0..] == s;
    } else {
      var n := Units(s);
      CutDivides(s[n..], i - n);
      assert s[..i][n..] == s[n..][..i - n];
      assert s[i..] == s[n..][i - n..];
      assert Units(s[..i]) == n;
    }
  }

  lemma {:induction false} NextCut(s: seq<unit>, i: nat)
    requires Cut(s, i) && i < |s|
    ensures Cut(s, i + Units(s[i..])) && forall k | i < k < i + Units(s[i..]) :: !Cut(s, k)
    decreases |s|
  {
    var n := Units(s);
    if i == 0 {
      assert s[0..] == s && Cut(s[n..], 0);
    } else {
      NextCut(s[n..], i - n);
      assert s[n..][i - n..] == s[i..];
    }
  }

  /** One more character than a cut has is cut too, with its bytes. */
  lemma {:induction false} CutOn(s: seq<unit>, i: nat)
    requires Cut(s, i) && i < |s|
    ensures var j := i + Units(s[i..]);
      && Cut(s, j) && j <= |s| && ByteLength(s[..j]) == ByteLength(s[..i]) + Bytes(s[i..])
      && forall k | i < k < j :: !Cut(s, k)
  {
    var j := i + Units(s[i..]);
    NextCut(s, i);
    CutDivides(s, i);
    CutDivides(s, j);
    assert s[i..][Units(s[i..])..] == s[j..];
    assert ByteLength(s[i..]) == Bytes(s[i..]) + ByteLength(s[j..]);
  }

  lemma {:induction false} CutAtEnd(s: seq<unit>)
    ensures Cut(s, |s|)
    decreases |s|
  {
    if s != [] { CutAtEnd(s[Units(s)..]); }
  }

  /** A text may be cut everywhere but within a pair of surrogates. */
  lemma {:induction false} CutsExactly(s: seq<unit>, i: nat)
    requires i <= |s|
    ensures Cut(s, i) <==> !(0 < i < |s| && 0xD800 <= s[i - 1] < 0xDC00 && 0xDC00 <= s[i] < 0xE000)
    decreases |s|
  {
    if i > 0 {
      var n := Units(s);
      if i >= n { CutsExactly(s[n..], i - n); }
    }
  }

  datatype Boundary = Boundary(codeUnitIndex: nat, codeUnitLength: nat, byteStart: nat, byteEnd: nat)

  function Before(s: seq<unit>, i: nat): nat
    requires i <= |s|
  {
    ByteLength(s[..i])
  }

  /** Whether a boundary is that of the character `s` has at its unit, in units and in bytes. */
  predicate IsBoundary(s: seq<unit>, b: Boundary) {
    var at := b.codeUnitIndex;
    && at < |s| && Cut(s, at) && b.codeUnitLength == Units(s[at..])
    && b.byteStart == Before(s, at) && b.byteEnd == Before(s, at) + Bytes(s[at..])
  }

  /** The unit the first `k` boundaries end at. */
  function UnitEnd(b: seq<Boundary>, k: nat): nat
    requires k <= |b|
  {
    if k == 0 then 0 else b[k - 1].codeUnitIndex + b[k - 1].codeUnitLength
  }

  function ByteEnd(b: seq<Boundary>): nat {
    if b == [] then 0 else b[|b| - 1].byteEnd
  }

  predicate Joined(b: seq<Boundary>, k: nat)
    requires k < |b|
  {
    b[k].codeUnitIndex == UnitEnd(b, k)
  }

  /** Whether `b` are the boundaries of the characters up to its end, each starting where the one before ends. */
  predicate Bounds(s: seq<unit>, b: seq<Boundary>) {
    && (forall k | 0 <= k < |b| :: IsBoundary(s, b[k]))
    && (forall k: nat | k < |b| :: Joined(b, k))
  }

  lemma {:induction false} BoundsOn(s: seq<unit>, b: seq<Boundary>, more: Boundary)
    requires Bounds(s, b) && IsBoundary(s, more) && more.codeUnitIndex == UnitEnd(b, |b|)
    ensures Bounds(s, b + [more])
  {
    var longer := b + [more];
    forall k: nat | k < |longer| ensures Joined(longer, k) {
      assert k < |b| ==> Joined(b, k);
    }
  }

  method CollectCharacterBoundaries(content: seq<unit>) returns (boundaries: seq<Boundary>)
    ensures Bounds(content, boundaries) && UnitEnd(boundaries, |boundaries|) == |content|
      && ByteEnd(boundaries) == ByteLength(content)
  {
    boundaries := [];
    var codeUnitIndex, byteIndex := 0, 0;
    while codeUnitIndex < |content|
      invariant codeUnitIndex <= |content| && Cut(content, codeUnitIndex) && byteIndex == Before(content, codeUnitIndex)
      invariant Bounds(content, boundaries) && UnitEnd(boundaries, |boundaries|) == codeUnitIndex
        && ByteEnd(boundaries) == byteIndex
    {
      var character := content[codeUnitIndex..];
      CutOn(content, codeUnitIndex);
      var more := Boundary(codeUnitIndex, Units(character), byteIndex, byteIndex + Bytes(character));
      BoundsOn(content, boundaries, more);
      boundaries := boundaries + [more];
      codeUnitIndex := codeUnitIndex + Units(character);
      byteIndex := byteIndex + Bytes(character);
    }
    assert content[..|content|] == content;
  }

  /** Of the cuts up to `i`, `p` is the last whose bytes before it are at most `max`. */
  ghost predicate LastWithin(s: seq<unit>, i: nat, max: nat, p: nat)
    requires i <= |s|
  {
    && Cut(s, p) && p <= i && Before(s, p) <= max
    && (forall c | p < c <= i && Cut(s, c) :: Before(s, c) > max)
  }

  /** Of the cuts from `p` to below `i`, `q` is the first with `min` bytes before it, or none is and `q` is the end. */
  ghost predicate FirstFrom(s: seq<unit>, p: nat, i: nat, min: nat, q: nat, found: bool)
    requires p <= i <= |s|
  {
    && (if found then Cut(s, q) && p <= q < i && Before(s, q) >= min else q == |s|)
    && (forall c | p <= c < i && c < q && Cut(s, c) :: Before(s, c) < min)
  }

  /** What a character from `i` on does to the start kept. */
  lemma {:induction false} PrefixStep(s: seq<unit>, i: nat, max: nat, p: nat)
    requires Cut(s, i) && i < |s| && LastWithin(s, i, max, p)
    ensures var j := i + Units(s[i..]);
      && j <= |s| && Cut(s, j) && Before(s, j) == Before(s, i) + Bytes(s[i..])
      && LastWithin(s, j, max, if Before(s, j) <= max then j else p)
      && (Before(s, j) <= max ==> p == i)
  {
    CutOn(s, i);
  }

  /** What it does to the end kept, where it is none of the start's. */
  lemma {:induction false} SuffixStep(s: seq<unit>, p: nat, i: nat, min: nat, q: nat, found: bool)
    requires Cut(s, i) && p <= i < |s| && FirstFrom(s, p, i, min, q, found)
    ensures var j := i + Units(s[i..]);
      && j <= |s|
      && if !found && Before(s, i) >= min then FirstFrom(s, p, j, min, i, true) else FirstFrom(s, p, j, min, q, found)
  {
    CutOn(s, i);
  }

  /**
   * The text before and after what is dropped: `p` is the last cut with at most
   * `beginningBytes` before it, and `q` the first from there on with at most `endBytes` after.
   */
  ghost predicate Splits(s: seq<unit>, beginningBytes: nat, endBytes: nat, p: nat, q: nat) {
    && LastWithin(s, |s|, beginningBytes, p)
    && p <= q <= |s| && Cut(s, q) && ByteLength(s[q..]) <= endBytes
    && (forall c | p <= c < q && Cut(s, c) :: c <= |s| && ByteLength(s[c..]) > endBytes)
  }

  /** What the loop below has found once it has passed the first `i` units. */
  ghost predicate Found(s: seq<unit>, i: nat, max: nat, min: nat, p: nat, q: nat, found: bool) {
    i <= |s| && LastWithin(s, i, max, p) && FirstFrom(s, p, i, min, q, found)
  }

  /** The loop of `splitString`: where the start kept ends, and the end kept starts. */
  method FindCuts(content: seq<unit>, boundaries: seq<Boundary>, beginningBytes: nat, tailStartTarget: nat)
    returns (prefixEnd: nat, suffixStart: nat, suffixStarted: bool)
    requires Bounds(content, boundaries) && UnitEnd(boundaries, |boundaries|) == |content|
    ensures LastWithin(content, |content|, beginningBytes, prefixEnd)
    ensures FirstFrom(content, prefixEnd, |content|, tailStartTarget, suffixStart, suffixStarted)
  {
    prefixEnd, suffixStart, suffixStarted := 0, |content|, false;
    ghost var at := 0;
    for k := 0 to |boundaries|
      invariant at == UnitEnd(boundaries, k)
      invariant Found(content, at, beginningBytes, tailStartTarget, prefixEnd, suffixStart, suffixStarted)
    {
      var boundary := boundaries[k];
      assert IsBoundary(content, boundary) && Joined(boundaries, k);
      CutStep(content, boundary, beginningBytes, tailStartTarget, prefixEnd, suffixStart, suffixStarted);
      if boundary.byteEnd <= beginningBytes {
        prefixEnd := boundary.codeUnitIndex + boundary.codeUnitLength;
      } else if boundary.byteStart >= tailStartTarget {
        if !suffixStarted {
          suffixStart := boundary.codeUnitIndex;
          suffixStarted := true;
        }
      }
      at := at + boundary.codeUnitLength;
    }
  }

  /** What the loop makes of its next character. */
  lemma {:induction false} CutStep(s: seq<unit>, b: Boundary, max: nat, min: nat, p: nat, q: nat, found: bool)
    requires IsBoundary(s, b) && Found(s, b.codeUnitIndex, max, min, p, q, found)
    ensures var i, j := b.codeUnitIndex, b.codeUnitIndex + b.codeUnitLength;
      if b.byteEnd <= max then Found(s, j, max, min, j, q, found)
      else if !found && b.byteStart >= min then Found(s, j, max, min, p, i, true)
      else Found(s, j, max, min, p, q, found)
  {
    var i := b.codeUnitIndex;
    PrefixStep(s, i, max, p);
    SuffixStep(s, p, i, min, q, found);
    if b.byteEnd <= max {
      EmptyRange(s, i, i + b.codeUnitLength, min, q, found);
    }
  }

  /** Where the start kept goes on to `j`, no end is found yet. */
  lemma {:induction false} EmptyRange(s: seq<unit>, i: nat, j: nat, min: nat, q: nat, found: bool)
    requires i <= j <= |s| && FirstFrom(s, i, i, min, q, found)
    ensures FirstFrom(s, j, j, min, q, found)
  {
  }

  /** Whether `before` and `after` are a text's start and end, so split. */
  ghost predicate Ends(s: seq<unit>, before: seq<unit>, after: seq<unit>, beginningBytes: nat, endBytes: nat) {
    exists p: nat, q: nat :: EndsAt(s, before, after, beginningBytes, endBytes, p, q)
  }

  ghost predicate EndsAt(
      s: seq<unit>, before: seq<unit>, after: seq<unit>, beginningBytes: nat, endBytes: nat, p: nat, q: nat) {
    p <= |s| && q <= |s| && before == s[..p] && after == s[q..] && Splits(s, beginningBytes, endBytes, p, q)
  }

  /** `splitString`, whose last check, that the end starts past the start, never finds it does not. */
  method SplitString(content: seq<unit>, beginningBytes: nat, endBytes: nat)
    returns (before: seq<unit>, after: seq<unit>)
    ensures Ends(content, before, after, beginningBytes, endBytes)
  {
    var boundaries := CollectCharacterBoundaries(content);
    var totalBytes := if boundaries == [] then 0 else boundaries[|boundaries| - 1].byteEnd;
    var tailStartTarget := if totalBytes > endBytes then totalBytes - endBytes else 0;
    var prefixEnd, suffixStart, suffixStarted := FindCuts(content, boundaries, beginningBytes, tailStartTarget);
    assert suffixStart >= prefixEnd;
    if suffixStart < prefixEnd { suffixStart := prefixEnd; }
    SplitsWhereFound(content, beginningBytes, endBytes, prefixEnd, suffixStart, suffixStarted);
    before, after := content[..prefixEnd], content[suffixStart..];
    assert EndsAt(content, before, after, beginningBytes, endBytes, prefixEnd, suffixStart);
  }

  lemma {:induction false} SplitsWhereFound(s: seq<unit>, beginningBytes: nat, endBytes: nat, p: nat, q: nat,
      found: bool)
    requires LastWithin(s, |s|, beginningBytes, p) && p <= q
    requires FirstFrom(s, p, |s|, if ByteLength(s) > endBytes then ByteLength(s) - endBytes else 0, q, found)
    ensures Splits(s, beginningBytes, endBytes, p, q)
  {
    CutAtEnd(s);
    CutDivides(s, q);
    assert s[|s|..] == [];
    forall c | p <= c < q && Cut(s, c) ensures c <= |s| && ByteLength(s[c..]) > endBytes {
      CutDivides(s, c);
    }
  }

  function Trimmed(bytes: int): nat {
    if bytes <= 0 then 0 else (bytes + APPROX_BYTES_PER_TOKEN - 1) / APPROX_BYTES_PER_TOKEN
  }

  function Digits(n: nat): seq<unit> {
    (if n < 10 then [] else Digits(n / 10)) + [0x30 + n % 10]
  }

  function Ascii(text: string): seq<unit> {
    seq(|text|, i requires 0 <= i < |text| => text[i] as int % 0x80)
  }

  /** `formatTruncationMarker`: "…", the tokens dropped, and " tokens truncated…". */
  function Marker(tokens: nat): seq<unit> {
    [0x2026] + Digits(tokens) + Ascii(" tokens truncated") + [0x2026]
  }

  /** The number that decimal digits say. */
  function NumberIn(digits: seq<unit>): int {
    if digits == [] then 0 else NumberIn(digits[..|digits| - 1]) * 10 + (digits[|digits| - 1] as int - 0x30)
  }

  lemma {:induction false} DigitsSay(n: nat)
    ensures NumberIn(Digits(n)) == n && |Digits(n)| > 0
    ensures forall i | 0 <= i < |Digits(n)| :: 0x30 <= Digits(n)[i] < 0x3A
    ensures n > 0 ==> Digits(n)[0] != 0x30
  {
    if n >= 10 {
      DigitsSay(n / 10);
      assert Digits(n)[..|Digits(n)| - 1] == Digits(n / 10);
    } else {
      assert Digits(n) == [0x30 + n] && Digits(n)[..0] == [];
    }
  }

  /**
   * A marker says how many tokens were dropped, in decimal digits, between its ellipses: the fewest
   * the bytes fit in.
   */
  lemma {:induction false} MarkerSays(dropped: int) returns (digits: seq<unit>)
    ensures MarkerOf(dropped) == [0x2026] + digits + Ascii(" tokens truncated") + [0x2026]
    ensures |digits| > 0 && forall i | 0 <= i < |digits| :: 0x30 <= digits[i] < 0x3A
    ensures dropped > 0 ==>
      4 * (NumberIn(digits) - 1) < dropped <= 4 * NumberIn(digits)
    ensures dropped <= 0 ==> NumberIn(digits) == 0
  {
    digits := Digits(Trimmed(dropped));
    DigitsSay(Trimmed(dropped));
  }

  /** The marker in place of so many bytes. */
  function MarkerOf(dropped: int): seq<unit> {
    Marker(Trimmed(dropped))
  }

  /**
   * A text over its budget: what is kept of it before `p` and from `q` on, the longest start
   * and end of whole characters within half the budget each.
   */
  ghost predicate Drops(s: seq<unit>, maxBytes: nat, p: nat, q: nat) {
    && p <= q <= |s| && Cut(s, p) && Cut(s, q)
    && Before(s, p) <= maxBytes / 2 && ByteLength(s[q..]) <= maxBytes - maxBytes / 2
    && (forall c | p < c <= |s| && Cut(s, c) :: Before(s, c) > maxBytes / 2)
    && (forall c | 0 <= c < q && Cut(s, c) :: c <= |s| && ByteLength(s[c..]) > maxBytes - maxBytes / 2)
  }

  /** Whether a text is another with what lies from `p` to `q` dropped, and a marker in its place. */
  predicate Around(text: seq<unit>, s: seq<unit>, p: nat, q: nat, marker: seq<unit>) {
    p <= |s| && q <= |s| && text == s[..p] + marker + s[q..]
  }

  ghost predicate TruncatedAt(s: seq<unit>, maxBytes: nat, text: seq<unit>, kept: nat, p: nat, q: nat) {
    && Drops(s, maxBytes, p, q)
    && kept == Before(s, p) + ByteLength(s[q..])
    && Around(text, s, p, q, MarkerOf(ByteLength(s) - kept))
  }

  /** Whether a text is what a budget leaves of another. */
  ghost predicate TruncatesTo(s: seq<unit>, maxBytes: nat, text: seq<unit>) {
    if ByteLength(s) <= maxBytes then text == s
    else exists p: nat, q: nat, kept: nat :: TruncatedAt(s, maxBytes, text, kept, p, q)
  }

  /** How many of its bytes that keeps. */
  ghost function Kept(s: seq<unit>, maxBytes: nat, text: seq<unit>): nat
    requires TruncatesTo(s, maxBytes, text)
  {
    if ByteLength(s) <= maxBytes then ByteLength(s)
    else var p: nat, q: nat, kept: nat :| TruncatedAt(s, maxBytes, text, kept, p, q); kept
  }

  /** The bytes before a cut are the first character's, and those of the text past it. */
  lemma {:induction false} BeforePastFirst(s: seq<unit>, c: nat)
    requires s != [] && Cut(s, c) && c > 0
    ensures var n := Units(s);
      n <= c <= |s| && Cut(s[n..], c - n) && c - n <= |s[n..]| && Before(s, c) == Bytes(s) + Before(s[n..], c - n)
  {
    CutDivides(s, c);
    var n := Units(s);
    assert s[..c][n..] == s[n..][..c - n];
    assert Units(s[..c]) == n;
  }

  lemma {:induction false} LaterCutHasMore(s: seq<unit>, c: nat, d: nat)
    requires Cut(s, c) && Cut(s, d) && c <= d
    ensures d <= |s| && Before(s, c) <= Before(s, d)
    decreases |s|
  {
    CutDivides(s, d);
    if c > 0 {
      BeforePastFirst(s, c);
      BeforePastFirst(s, d);
      LaterCutHasMore(s[Units(s)..], c - Units(s), d - Units(s));
    }
  }

  /** Split at its two halves, a text over its budget keeps the longest end of all, not only past the start kept. */
  lemma {:induction false} SplitsDrop(s: seq<unit>, maxBytes: nat, p: nat, q: nat)
    requires ByteLength(s) > maxBytes && Splits(s, maxBytes / 2, maxBytes - maxBytes / 2, p, q)
    ensures Drops(s, maxBytes, p, q)
  {
    forall c | 0 <= c < q && Cut(s, c) ensures c <= |s| && ByteLength(s[c..]) > maxBytes - maxBytes / 2 {
      if c < p {
        LaterCutHasMore(s, c, p);
        CutDivides(s, c);
      }
    }
  }

  /** The start kept is at most a character short of its half. */
  lemma {:induction false} KeepsStart(s: seq<unit>, half: nat, p: nat)
    requires LastWithin(s, |s|, half, p) && p < |s|
    ensures half <= Before(s, p) + 3
  {
    CutOn(s, p);
  }

  /** The end kept is at most a character short of its half. */
  lemma {:induction false} KeepsEnd(s: seq<unit>, half: nat, q: nat)
    requires Cut(s, q) && 0 < q <= |s|
    requires forall c | 0 <= c < q && Cut(s, c) :: c <= |s| && ByteLength(s[c..]) > half
    ensures half <= ByteLength(s[q..]) + 3
  {
    var b := PreviousCut(s, q);
    CutDivides(s, b);
    CutDivides(s, q);
  }

  /** Of a text over its budget something is dropped. */
  lemma {:induction false} SomethingIsDropped(s: seq<unit>, maxBytes: nat, p: nat, q: nat)
    requires ByteLength(s) > maxBytes && Drops(s, maxBytes, p, q)
    ensures p < q
  {
    CutDivides(s, p);
  }

  /** What is kept is no more than the budget, and neither half more than a character short. */
  lemma {:induction false} DropsKeepNearlyAll(s: seq<unit>, maxBytes: nat, p: nat, q: nat)
    requires ByteLength(s) > maxBytes && Drops(s, maxBytes, p, q)
    ensures maxBytes - 6 <= Before(s, p) + ByteLength(s[q..]) <= maxBytes
  {
    SomethingIsDropped(s, maxBytes, p, q);
    KeepsStart(s, maxBytes / 2, p);
    KeepsEnd(s, maxBytes - maxBytes / 2, q);
  }

  lemma {:induction false} PreviousCut(s: seq<unit>, q: nat) returns (b: nat)
    requires Cut(s, q) && 0 < q <= |s|
    ensures b < q && Cut(s, b) && Before(s, q) <= Before(s, b) + 4
    decreases |s|
  {
    var n := Units(s);
    BeforePastFirst(s, q);
    if q == n {
      b := 0;
      assert s[n..][..0] == [];
    } else {
      b := PreviousCut(s[n..], q - n);
      assert Cut(s, n + b);
      BeforePastFirst(s, n + b);
      b := n + b;
    }
  }

  lemma {:induction false} KeptEnds(s: seq<unit>, maxBytes: nat, p: nat, q: nat, kept: nat)
    requires p <= |s| && q <= |s| && Drops(s, maxBytes, p, q)
    requires kept == Before(s, p) + ByteLength(s[q..])
    ensures TruncatedAt(s, maxBytes, s[..p] + MarkerOf(ByteLength(s) - kept) + s[q..], kept, p, q)
  {
  }

  lemma {:induction false} CutsTruncate(s: seq<unit>, maxBytes: nat, p: nat, q: nat, kept: nat)
    requires ByteLength(s) > maxBytes && p <= |s| && q <= |s| && Splits(s, maxBytes / 2, maxBytes - maxBytes / 2, p, q)
    requires kept == Before(s, p) + ByteLength(s[q..])
    ensures TruncatesTo(s, maxBytes, s[..p] + MarkerOf(ByteLength(s) - kept) + s[q..])
  {
    SplitsDrop(s, maxBytes, p, q);
    KeptEnds(s, maxBytes, p, q, kept);
  }

  /** What the two ends kept make of a text. */
  lemma {:induction false} EndsTruncate(s: seq<unit>, maxBytes: nat, before: seq<unit>, after: seq<unit>, kept: nat)
    requires ByteLength(s) > maxBytes && Ends(s, before, after, maxBytes / 2, maxBytes - maxBytes / 2)
    requires kept == ByteLength(before) + ByteLength(after)
    ensures TruncatesTo(s, maxBytes, before + MarkerOf(ByteLength(s) - kept) + after)
  {
    var p: nat, q: nat :| EndsAt(s, before, after, maxBytes / 2, maxBytes - maxBytes / 2, p, q);
    CutsTruncate(s, maxBytes, p, q, kept);
  }

  method TruncateWithByteBudget(content: seq<unit>, maxBytes: nat) returns (text: seq<unit>)
    ensures TruncatesTo(content, maxBytes, text)
  {
    if content == [] { return []; }
    if maxBytes == 0 {
      text := MarkerOf(ByteLength(content));
      KeepsNothing(content, text);
      return;
    }
    if ByteLength(content) <= maxBytes { return content; }
    text := KeepEnds(content, maxBytes);
  }

  /** Its end, for a text over its budget. */
  method KeepEnds(content: seq<unit>, maxBytes: nat) returns (text: seq<unit>)
    requires ByteLength(content) > maxBytes
    ensures TruncatesTo(content, maxBytes, text)
  {
    var before, after := SplitString(content, maxBytes / 2, maxBytes - maxBytes / 2);
    var retainedBytes := ByteLength(before) + ByteLength(after);
    EndsTruncate(content, maxBytes, before, after, retainedBytes);
    text := AssembleTruncated(content, maxBytes, before, after, retainedBytes);
  }

  method AssembleTruncated(content: seq<unit>, ghost maxBytes: nat, before: seq<unit>, after: seq<unit>, kept: nat)
    returns (text: seq<unit>)
    requires TruncatesTo(content, maxBytes, before + MarkerOf(ByteLength(content) - kept) + after)
    ensures TruncatesTo(content, maxBytes, text)
  {
    text := before + MarkerOf(ByteLength(content) - kept) + after;
  }

  /** A text over its budget keeps no more than it, and at most six bytes less. */
  lemma {:induction false} KeptWithin(s: seq<unit>, maxBytes: nat, text: seq<unit>)
    requires TruncatesTo(s, maxBytes, text)
    ensures Kept(s, maxBytes, text) <= maxBytes
    ensures ByteLength(s) > maxBytes ==> maxBytes <= Kept(s, maxBytes, text) + 6
  {
    if ByteLength(s) > maxBytes {
      var kept := Kept(s, maxBytes, text);
      var p: nat, q: nat :| TruncatedAt(s, maxBytes, text, kept, p, q);
      DropsKeepNearlyAll(s, maxBytes, p, q);
    }
  }

  lemma {:induction false} KeepsNothing(s: seq<unit>, marker: seq<unit>)
    requires ByteLength(s) > 0 && marker == MarkerOf(ByteLength(s))
    ensures TruncatedAt(s, 0, marker, 0, 0, |s|)
  {
    DropsAll(s);
    AloneBetween(s, marker);
  }

  lemma {:induction false} AloneBetween(s: seq<unit>, marker: seq<unit>)
    ensures Around(marker, s, 0, |s|, marker)
  {
  }

  lemma {:induction false} DropsAll(s: seq<unit>)
    requires ByteLength(s) > 0
    ensures Drops(s, 0, 0, |s|) && ByteLength(s[|s|..]) == 0 && Before(s, 0) == 0
  {
    CutAtEnd(s);
    assert s[|s|..] == [] && s[..0] == [];
    assert forall t: seq<unit> :: t != [] ==> ByteLength(t) > 0;
    forall c | 0 < c <= |s| && Cut(s, c) ensures Before(s, c) > 0 { assert s[..c] != []; }
    forall c | 0 <= c < |s| && Cut(s, c) ensures ByteLength(s[c..]) > 0 { assert s[c..] != []; }
  }
}
