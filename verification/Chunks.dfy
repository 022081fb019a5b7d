/** A stream cut into chunks, and what of a text is looked for however it is cut. */
module Chunks {
  function Concat<T>(chunks: seq<seq<T>>): seq<T> {
    if chunks == [] then [] else Concat(chunks[..|chunks| - 1]) + chunks[|chunks| - 1]
  }

  lemma {:induction false} ConcatNext<T>(chunks: seq<seq<T>>, i: nat)
    requires i < |chunks|
    ensures Concat(chunks[..i + 1]) == Concat(chunks[..i]) + chunks[i]
  {
    assert chunks[..i + 1][..i] == chunks[..i];
  }

  lemma {:induction false} ConcatAll<T>(chunks: seq<seq<T>>)
    ensures chunks[..|chunks|] == chunks
  {
  }

  /** The last `n` elements at most: JavaScript's `slice(-n)`, for `n` above 0. */
  function Tail<T>(s: seq<T>, n: nat): seq<T> {
    if |s| <= n then s else s[|s| - n..]
  }

  /** A tail read on from is the tail of the text read on. */
  lemma {:induction false} TailOn<T>(s: seq<T>, more: seq<T>, n: nat)
    ensures Tail(Tail(s, n) + more, n) == Tail(s + more, n)
  {
  }

  /** What stands from `at` on in a tail read on stands that far past the tail's start in the text. */
  lemma {:induction false} FromInTail<T>(s: seq<T>, more: seq<T>, n: nat, at: nat)
    requires at <= |Tail(s, n) + more|
    ensures (Tail(s, n) + more)[at..] == (s + more)[|s| - |Tail(s, n)| + at..]
  {
  }

  /** `indexOf`: where `e` first occurs in `s`, or -1. */
  function IndexOf(s: string, e: string): (at: int)
    ensures at == -1 || (0 <= at && at + |e| <= |s|)
  {
    if e <= s then 0
    else if s == [] then -1
    else
      var rest := IndexOf(s[1..], e);
      if rest == -1 then -1 else rest + 1
  }

  /** It is the first place `e` stands at, or `e` stands at none. */
  lemma {:induction false} IndexOfIsFirst(s: string, e: string, i: nat)
    requires i <= |s|
    ensures i == IndexOf(s, e) ==> e <= s[i..]
    ensures IndexOf(s, e) == -1 || i < IndexOf(s, e) ==> !(e <= s[i..])
    decreases |s|
  {
    if i > 0 {
      IndexOfIsFirst(s[1..], e, i - 1);
      assert s[1..][i - 1..] == s[i..];
    }
  }
}
