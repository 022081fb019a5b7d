/**
 * `onData` of packages/core/src/runtime/process-transport.ts: the prompts a runtime printed
 * are counted, and a probe's answer looked for, chunk by chunk, with only a tail kept. The
 * text is escape-free; a prompt is one of a list of literals at the text's start or past a
 * line's end, as every runtime's expression has it.
 */
module PromptScan {
  import opened Chunks

  const TAIL: nat := 1024

  predicate EndsLine(c: char) {
    c == '\r' || c == '\n'
  }

  /** The runtimes' prompts: neither empty nor longer than the tail, and of one line. */
  predicate Prompts(ps: seq<string>) {
    forall p <- ps :: 0 < |p| <= TAIL && forall c <- p :: !EndsLine(c)
  }

  predicate Opens(ps: seq<string>, s: string) {
    exists p <- ps :: p <= s
  }

  /** The first of the expression's alternatives `s` opens with. */
  function FirstOf(ps: seq<string>, s: string): (p: string)
    requires Opens(ps, s)
    ensures p in ps && p <= s
  {
    if ps[0] <= s then ps[0]
    else assert Opens(ps[1..], s) by { var p :| p in ps && p <= s; assert p in ps[1..]; } FirstOf(ps[1..], s)
  }

  /** `matchAll`, from left to right and past each match; `^` matches at the string's start alone. */
  function Matches(ps: seq<string>, s: string, atStart: bool): nat
    requires Prompts(ps)
    decreases |s|
  {
    if s == [] then 0
    else if atStart && Opens(ps, s) then 1 + Matches(ps, s[|FirstOf(ps, s)|..], false)
    else if EndsLine(s[0]) && Opens(ps, s[1..]) then 1 + Matches(ps, s[1 + |FirstOf(ps, s[1..])|..], false)
    else Matches(ps, s[1..], false)
  }

  /** `countPromptMatches`. */
  function Count(ps: seq<string>, s: string): nat
    requires Prompts(ps)
  {
    Matches(ps, s, true)
  }

  /** How many line ends of `s` a prompt follows. */
  function Inner(ps: seq<string>, s: string): nat {
    if s == [] then 0
    else Inner(ps, s[1..]) + if EndsLine(s[0]) && Opens(ps, s[1..]) then 1 else 0
  }

  lemma {:induction false} InnerSkips(ps: seq<string>, s: string, n: nat)
    requires n <= |s| && forall i | 0 <= i < n :: !EndsLine(s[i])
    ensures Inner(ps, s) == Inner(ps, s[n..])
    decreases n
  {
    if n > 0 {
      InnerSkips(ps, s[1..], n - 1);
      assert s[1..][n - 1..] == s[n..];
    }
  }

  /** No match hides another: matches are the prompts at the start and past the line ends. */
  lemma {:induction false} MatchesAreLineStarts(ps: seq<string>, s: string, atStart: bool)
    requires Prompts(ps)
    ensures Matches(ps, s, atStart) == Inner(ps, s) + if atStart && Opens(ps, s) then 1 else 0
    decreases |s|
  {
    if s == [] {
    } else if atStart && Opens(ps, s) {
      var n := |FirstOf(ps, s)|;
      MatchesAreLineStarts(ps, s[n..], false);
      InnerSkips(ps, s, n);
    } else if EndsLine(s[0]) && Opens(ps, s[1..]) {
      var n := |FirstOf(ps, s[1..])|;
      MatchesAreLineStarts(ps, s[1 + n..], false);
      InnerSkips(ps, s[1..], n);
      assert s[1..][n..] == s[1 + n..];
    } else {
      MatchesAreLineStarts(ps, s[1..], false);
    }
  }

  /** The places past a line's end that a prompt stands at. */
  function InnerPlaces(ps: seq<string>, s: string): set<nat> {
    set i: nat | 0 < i < |s| && (s[i - 1] == '\r' || s[i - 1] == '\n') && Opens(ps, s[i..])
  }

  predicate Shifts(a: set<nat>, b: set<nat>, i: nat) {
    i + 1 in b <==> i in a
  }

  lemma {:induction false} ShiftedSize(a: set<nat>, b: set<nat>)
    requires 0 !in b && forall i: nat :: Shifts(a, b, i)
    ensures |b| == |a|
    decreases |a|
  {
    if a == {} {
      forall i: nat ensures i !in b { assert i > 0 ==> Shifts(a, b, i - 1); }
    } else {
      var i :| i in a;
      assert Shifts(a, b, i);
      var fewer, others := a - {i}, b - {i + 1};
      forall j: nat ensures Shifts(fewer, others, j) { assert Shifts(a, b, j); }
      ShiftedSize(fewer, others);
    }
  }

  lemma {:induction false} PlacesOn(ps: seq<string>, s: string, i: nat)
    requires s != []
    ensures i + 1 in InnerPlaces(ps, s) <==>
      i in InnerPlaces(ps, s[1..]) || (i == 0 && |s| > 1 && EndsLine(s[0]) && Opens(ps, s[1..]))
  {
    if i < |s| - 1 { assert s[1..][i..] == s[i + 1..]; }
    if 0 < i < |s| - 1 { assert s[1..][i - 1] == s[i]; }
  }

  lemma {:induction false} NothingOpens(ps: seq<string>)
    requires Prompts(ps)
    ensures !Opens(ps, [])
  {
  }

  lemma {:induction false} InnerCountsPlaces(ps: seq<string>, s: string)
    requires Prompts(ps)
    ensures Inner(ps, s) == |InnerPlaces(ps, s)|
    decreases |s|
  {
    if s == [] {
      assert InnerPlaces(ps, s) == {};
    } else {
      InnerCountsPlaces(ps, s[1..]);
      NothingOpens(ps);
      var all, rest := InnerPlaces(ps, s), InnerPlaces(ps, s[1..]);
      forall i: nat ensures Shifts(rest, all - {1}, i) { PlacesOn(ps, s, i); }
      PlacesOn(ps, s, 0);
      ShiftedSize(rest, all - {1});
      assert 1 in all ==> all == all - {1} + {1};
      assert 1 !in all ==> all - {1} == all;
    }
  }

  /** The count is of the places at a line's start, past "\r" or "\n" or at the text's own, that a prompt stands at. */
  lemma {:induction false} CountsLineStarts(ps: seq<string>, s: string)
    requires Prompts(ps)
    ensures Count(ps, s) ==
      |set i: nat | i < |s| && (i == 0 || s[i - 1] == '\r' || s[i - 1] == '\n') && Opens(ps, s[i..])|
  {
    var all := set i: nat | i < |s| && (i == 0 || s[i - 1] == '\r' || s[i - 1] == '\n') && Opens(ps, s[i..]);
    MatchesAreLineStarts(ps, s, true);
    InnerCountsPlaces(ps, s);
    assert s[0..] == s;
    if Opens(ps, s) {
      assert all == InnerPlaces(ps, s) + {0};
    } else {
      assert all == InnerPlaces(ps, s);
    }
  }

  /** Whether a prompt opens a text is settled once it is as long as one may be. */
  lemma {:induction false} OpensOn(ps: seq<string>, s: string, more: string)
    requires Prompts(ps) && |s| >= TAIL
    ensures Opens(ps, s + more) <==> Opens(ps, s)
  {
    forall p <- ps | p <= s + more ensures p <= s { assert p == (s + more)[..|p|]; }
  }

  lemma {:induction false} InnerOnlyGrows(ps: seq<string>, s: string, more: string)
    ensures Inner(ps, s) <= Inner(ps, s + more)
    decreases |s|
  {
    if s != [] {
      InnerOnlyGrows(ps, s[1..], more);
      assert (s + more)[1..] == s[1..] + more;
      if Opens(ps, s[1..]) {
        var p :| p in ps && p <= s[1..];
        assert p <= s[1..] + more;
      }
    }
  }

  /** What more text adds to the count past the line ends shows in a tail as long as a prompt. */
  lemma {:induction false} TailShowsMore(ps: seq<string>, before: string, tail: string, more: string)
    requires Prompts(ps) && |tail| >= TAIL
    ensures Inner(ps, before + tail + more) - Inner(ps, before + tail) == Inner(ps, tail + more) - Inner(ps, tail)
    ensures Inner(ps, tail) <= Inner(ps, before + tail)
    decreases |before|
  {
    if before == [] {
      assert before + tail == tail && before + tail + more == tail + more;
    } else {
      var rest := before[1..] + tail;
      TailShowsMore(ps, before[1..], tail, more);
      assert (before + tail)[1..] == rest && (before + tail + more)[1..] == rest + more;
      OpensOn(ps, rest, more);
    }
  }

  /** A count by the prompts at line starts, for a text and the text read on. */
  lemma {:induction false} CountsByLineStarts(ps: seq<string>, text: string, more: string)
    requires Prompts(ps)
    ensures Count(ps, text) == Inner(ps, text) + if Opens(ps, text) then 1 else 0
    ensures Count(ps, text + more) == Inner(ps, text + more) + if Opens(ps, text + more) then 1 else 0
    ensures Inner(ps, text) <= Inner(ps, text + more) && (Opens(ps, text) ==> Opens(ps, text + more))
  {
    MatchesAreLineStarts(ps, text, true);
    MatchesAreLineStarts(ps, text + more, true);
    InnerOnlyGrows(ps, text, more);
    if Opens(ps, text) {
      var p :| p in ps && p <= text;
      assert p <= text + more;
    }
  }

  /** The prompts a chunk adds are those its window shows beyond the tail's own. */
  lemma {:induction false} WindowCountsMore(ps: seq<string>, text: string, more: string)
    requires Prompts(ps)
    ensures var tail := Tail(text, TAIL);
      && Count(ps, text + more) - Count(ps, text) == Count(ps, tail + more) - Count(ps, tail)
      && Count(ps, tail) <= Count(ps, tail + more)
  {
    var tail := Tail(text, TAIL);
    CountsByLineStarts(ps, text, more);
    CountsByLineStarts(ps, tail, more);
    if |text| > TAIL {
      assert text == text[..|text| - TAIL] + tail;
      TailShowsMore(ps, text[..|text| - TAIL], tail, more);
      OpensOn(ps, text, more);
      OpensOn(ps, tail, more);
    }
  }

  /** What waits for a prompt past those it saw. `heard` is all the text read so far. */
  class PromptCounter {
    const prompts: seq<string>
    var promptScanTail: string
    var promptCount: nat
    var waiters: map<nat, nat>
    var resolved: set<nat>
    ghost var heard: string

    /** The count is the whole text's, and nothing waits for a prompt that has come. */
    ghost predicate Valid()
      reads this
    {
      && Prompts(prompts)
      && promptScanTail == Tail(heard, TAIL)
      && promptCount == Count(prompts, heard)
      && (forall waiter <- waiters :: promptCount <= waiters[waiter])
    }

    constructor (prompts: seq<string>)
      requires Prompts(prompts)
      ensures Valid() && this.prompts == prompts && heard == "" && waiters == map[]
    {
      this.prompts := prompts;
      promptScanTail, promptCount, waiters, resolved, heard := "", 0, map[], {}, "";
    }

    /** A wait for a prompt past `seen`, which one already past it does not begin. */
    method Wait(waiter: nat, seen: nat)
      requires Valid() && waiter !in waiters
      modifies this
      ensures Valid() && heard == old(heard)
      ensures waiters == if Count(prompts, heard) > seen then old(waiters) else old(waiters)[waiter := seen]
      ensures resolved == if Count(prompts, heard) > seen then old(resolved) + {waiter} else old(resolved)
    {
      if promptCount > seen {
        resolved := resolved + {waiter};
        return;
      }
      waiters := waiters[waiter := seen];
    }

    /** A chunk: every waiter the whole text's count is now past is resolved, and no other. */
    method OnText(text: string)
      requires Valid()
      modifies this
      ensures Valid() && heard == old(heard) + text
      ensures waiters.Keys == old(waiters).Keys - (set w <- old(waiters) | old(waiters)[w] < Count(prompts, heard))
      ensures resolved == old(resolved) + (set w <- old(waiters) | old(waiters)[w] < Count(prompts, heard))
    {
      WindowCountsMore(prompts, heard, text);
      TailOn(heard, text, TAIL);
      heard := heard + text;
      var promptWindow := promptScanTail + text;
      var more := Count(prompts, promptWindow) - Count(prompts, promptScanTail);
      var newPromptCount := if more > 0 then more else 0;
      promptScanTail := Tail(promptWindow, TAIL);
      if newPromptCount > 0 {
        promptCount := promptCount + newPromptCount;
        Resolve();
      }
    }

    /** The loop over a copy of the waiters. */
    method Resolve()
      modifies `waiters, `resolved
      ensures waiters == map w | w in old(waiters) && old(waiters)[w] >= promptCount :: old(waiters)[w]
      ensures resolved == old(resolved) + (set w <- old(waiters) | old(waiters)[w] < promptCount)
    {
      var rest := waiters.Keys;
      while rest != {}
        invariant rest <= old(waiters).Keys
        invariant waiters ==
          map w | w in old(waiters) && (w in rest || old(waiters)[w] >= promptCount) :: old(waiters)[w]
        invariant resolved == old(resolved) + (set w <- old(waiters) | w !in rest && old(waiters)[w] < promptCount)
      {
        var waiter :| waiter in rest;
        if promptCount > waiters[waiter] {
          waiters := waiters - {waiter};
          resolved := resolved + {waiter};
        }
        rest := rest - {waiter};
      }
    }
  }

  lemma {:induction false} OpensFar(s: string, more: string, e: string)
    requires |e| <= |s|
    ensures e <= s + more <==> e <= s
    ensures s != [] ==> (s + more)[1..] == s[1..] + more
  {
    if e <= s + more { assert e == (s + more)[..|e|]; }
  }

  /** A text `e` does not occur in, read on: `e` first occurs where it does past all but the end that could open it. */
  lemma {:induction false} FoundInWindow(s: string, more: string, e: string)
    requires e != [] && IndexOf(s, e) == -1
    ensures var tail := Tail(s, |e| - 1);
      IndexOf(s + more, e) == if IndexOf(tail + more, e) == -1 then -1 else |s| - |tail| + IndexOf(tail + more, e)
    decreases |s|
  {
    if |s| >= |e| {
      OpensFar(s, more, e);
      FoundInWindow(s[1..], more, e);
      assert Tail(s, |e| - 1) == Tail(s[1..], |e| - 1);
    }
  }

  /** More text leaves where `e` first occurs. */
  lemma {:induction false} IndexStays(s: string, more: string, e: string)
    requires IndexOf(s, e) >= 0
    ensures IndexOf(s + more, e) == IndexOf(s, e)
    decreases |s|
  {
    OpensFar(s, more, e);
    if !(e <= s) { IndexStays(s[1..], more, e); }
  }

  /**
   * What has come since a probe was written, and of it what has come since its answer was
   * found: everything past the first place the expected text stands at.
   */
  function PastAnswer(heard: string, expected: string): string
    requires IndexOf(heard, expected) >= 0
  {
    heard[IndexOf(heard, expected) + |expected|..]
  }

  /** More text leaves the answer where it first stood. */
  lemma {:induction false} ReadOnPastAnswer(heard: string, more: string, expected: string)
    requires IndexOf(heard, expected) >= 0
    ensures IndexOf(heard + more, expected) == IndexOf(heard, expected)
    ensures PastAnswer(heard + more, expected) == PastAnswer(heard, expected) + more
  {
    IndexStays(heard, more, expected);
    var past := IndexOf(heard, expected) + |expected|;
    assert (heard + more)[past..] == heard[past..] + more;
  }

  /**
   * Whether the cut of the tail shows a prompt that is not at a line's start: one that stands
   * where `^` takes the kept tail to open.
   */
  predicate CutShowsPrompt(ps: seq<string>, text: string, more: string) {
    |text| > TAIL && Opens(ps, (text + more)[|text| - TAIL..])
  }

  /** With no prompt in a text, a chunk's window shows one where the text read on has one, or the cut shows one. */
  lemma {:induction false} WindowShowsPrompt(ps: seq<string>, text: string, more: string)
    requires Prompts(ps) && Count(ps, text) == 0
    ensures Count(ps, Tail(text, TAIL) + more) > 0 <==> Count(ps, text + more) > 0 || CutShowsPrompt(ps, text, more)
  {
    var tail := Tail(text, TAIL);
    CountsByLineStarts(ps, text, more);
    CountsByLineStarts(ps, tail, more);
    if |text| > TAIL {
      assert text == text[..|text| - TAIL] + tail;
      FromInTail(text, more, TAIL, 0);
      TailShowsMore(ps, text[..|text| - TAIL], tail, more);
      OpensOn(ps, text, more);
    }
  }

  /** The cut does show one that no line starts with, whatever comes next: here past the first of 1,025 characters. */
  lemma {:induction false} CutMayShowWhatIsNoPrompt(p: string, rest: string, more: string)
    requires Prompts([p]) && p[0] != 'x' && |p| + |rest| == TAIL && Inner([p], rest + more) == 0
    ensures var text := ['x'] + p + rest;
      && Count([p], text) == 0 && Count([p], text + more) == 0
      && CutShowsPrompt([p], text, more) && Count([p], Tail(text, TAIL) + more) > 0
  {
    var text := ['x'] + p + rest;
    assert text + more == ['x'] + (p + (rest + more)) && Tail(text, TAIL) == p + rest;
    NoLineStartsWithIt(p, rest + more);
    CountsByLineStarts([p], text, more);
    assert (text + more)[|text| - TAIL..] == p + (rest + more) && p in [p];
    WindowShowsPrompt([p], text, more);
  }

  lemma {:induction false} NoLineStartsWithIt(p: string, rest: string)
    requires Prompts([p]) && p[0] != 'x' && Inner([p], rest) == 0
    ensures var text := ['x'] + (p + rest);
      Inner([p], text) == 0 && !Opens([p], text)
  {
    var text := ['x'] + (p + rest);
    assert text[1..] == p + rest && (p + rest)[|p|..] == rest;
    InnerSkips([p], p + rest, |p|);
  }

  /**
   * Whether a chunk ends the wait for a probe, once its answer stands in what has come: with
   * a prompt past the answer, or where the cut of the tail shows one.
   */
  predicate EndsWait(ps: seq<string>, heard: string, more: string, expected: string)
    requires Prompts(ps) && IndexOf(heard + more, expected) >= 0
  {
    || Count(ps, PastAnswer(heard + more, expected)) > 0
    || (IndexOf(heard, expected) >= 0 && CutShowsPrompt(ps, PastAnswer(heard, expected), more))
  }

  /** Whether an answer is not found yet, and the end is kept that could open it. */
  predicate Unanswered(heard: string, expected: string, tail: string) {
    expected != "" && IndexOf(heard, expected) == -1 && tail == Tail(heard, |expected| - 1)
  }

  /** What the window kept for an answer not yet found finds. */
  lemma {:induction false} AnswerInWindow(heard: string, more: string, expected: string, tail: string)
    requires Unanswered(heard, expected, tail)
    ensures var index := IndexOf(tail + more, expected);
      && (index == -1 ==> Unanswered(heard + more, expected, Tail(tail + more, |expected| - 1)))
      && (index != -1 ==> IndexOf(heard + more, expected) >= 0)
      && (index != -1 ==> (tail + more)[index + |expected|..] == PastAnswer(heard + more, expected))
  {
    FoundInWindow(heard, more, expected);
    var index := IndexOf(tail + more, expected);
    if index == -1 {
      TailOn(heard, more, |expected| - 1);
    } else {
      FromInTail(heard, more, |expected| - 1, index + |expected|);
    }
  }

  /** What the tail kept past the answer shows, and keeps. */
  lemma {:induction false} PromptInWindow(ps: seq<string>, heard: string, more: string, expected: string)
    requires Prompts(ps) && IndexOf(heard, expected) >= 0 && Count(ps, PastAnswer(heard, expected)) == 0
    ensures IndexOf(heard + more, expected) >= 0
    ensures var window := Tail(PastAnswer(heard, expected), TAIL) + more;
      && (Count(ps, window) > 0 <==> EndsWait(ps, heard, more, expected))
      && Tail(window, TAIL) == Tail(PastAnswer(heard + more, expected), TAIL)
  {
    ReadOnPastAnswer(heard, more, expected);
    WindowShowsPrompt(ps, PastAnswer(heard, expected), more);
    TailOn(PastAnswer(heard, expected), more, TAIL);
  }

  /** `heard` is the text read since the probe; `Valid` holds until it is answered and prompted. */
  class ReadinessWaiter {
    const prompts: seq<string>
    const expectedText: string
    var scanTail: string
    var acknowledged: bool
    ghost var heard: string

    ghost predicate Valid()
      reads this
    {
      && Prompts(prompts) && expectedText != ""
      && (acknowledged <==> IndexOf(heard, expectedText) >= 0)
      && if acknowledged
         then scanTail == Tail(PastAnswer(heard, expectedText), TAIL)
           && Count(prompts, PastAnswer(heard, expectedText)) == 0
         else Unanswered(heard, expectedText, scanTail)
    }

    constructor (prompts: seq<string>, expectedText: string)
      requires Prompts(prompts) && expectedText != ""
      ensures Valid() && this.prompts == prompts && this.expectedText == expectedText && heard == ""
    {
      this.prompts, this.expectedText := prompts, expectedText;
      scanTail, acknowledged, heard := "", false, "";
    }

    /**
     * A chunk: the answer is found as it first occurs in what has come, and the wait ends with
     * the chunk that has a prompt past it, or where the cut of the tail shows one.
     */
    method OnText(text: string) returns (ready: bool)
      requires Valid()
      modifies this
      ensures heard == old(heard) + text
      ensures acknowledged <==> IndexOf(heard, expectedText) >= 0
      ensures ready <==> acknowledged && EndsWait(prompts, old(heard), text, expectedText)
      ensures !ready ==> Valid()
    {
      var scanWindow := scanTail + text;
      if !acknowledged {
        var found, past := FindAnswer(text);
        if !found { return false; }
        scanWindow := past;
      } else {
        PromptInWindow(prompts, heard, text, expectedText);
        heard := heard + text;
      }
      if Count(prompts, scanWindow) > 0 { return true; }
      scanTail := Tail(scanWindow, TAIL);
      return false;
    }

    /** The part of a chunk's scan before the answer is found: what stands past it, once it is. */
    method FindAnswer(text: string) returns (found: bool, past: string)
      requires !acknowledged && Unanswered(heard, expectedText, scanTail)
      modifies this
      ensures heard == old(heard) + text && found == acknowledged
      ensures !found ==> Unanswered(heard, expectedText, scanTail)
      ensures found ==> IndexOf(heard, expectedText) >= 0 && past == PastAnswer(heard, expectedText)
    {
      AnswerInWindow(heard, text, expectedText, scanTail);
      heard := heard + text;
      var scanWindow := scanTail + text;
      var index := IndexOf(scanWindow, expectedText);
      if index == -1 {
        scanTail := Tail(scanWindow, |expectedText| - 1);
        return false, "";
      }
      acknowledged := true;
      return true, scanWindow[index + |expectedText|..];
    }
  }
}
