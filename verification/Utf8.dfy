/**
 * UTF-8, as sections 3 and 4 of RFC 3629 give it: which bytes are well formed, and where they
 * may be cut.
 */
module Utf8 {
  import opened Basics
  import opened Truncate

  /** `(byte & 0xc0) === 0x80`: the top two bits are 1 and 0. */
  predicate IsContinuation(b: byte) {
    0x80 <= b < 0xC0
  }

  /** The byte at `i`, or one that is no continuation where there is none. */
  function At(s: seq<byte>, i: nat): byte {
    if i < |s| then s[i] else 0
  }

  /** How many bytes a first byte starts a character of, and none where it starts none. */
  function Length(first: byte): (n: nat)
    ensures n <= 4
  {
    if first < 0x80 then 1
    else if 0xC2 <= first < 0xE0 then 2
    else if 0xE0 <= first < 0xF0 then 3
    else if 0xF0 <= first < 0xF5 then 4
    else 0
  }

  /** What may follow a first byte: some leave out overlong forms, surrogates or what is past U+10FFFF. */
  predicate MayFollow(first: byte, second: byte) {
    && IsContinuation(second)
    && (first == 0xE0 ==> second >= 0xA0) && (first == 0xED ==> second < 0xA0)
    && (first == 0xF0 ==> second >= 0x90) && (first == 0xF4 ==> second < 0x90)
  }

  /** How many bytes the character has that `s` starts with, and none where it starts with none. */
  function CharLen(s: seq<byte>): (n: nat)
    ensures n <= 4 && n <= |s|
  {
    if s == [] then 0
    else
      var n := Length(s[0]);
      if && n <= |s| && (n > 1 ==> MayFollow(s[0], s[1]))
         && (n > 2 ==> IsContinuation(s[2])) && (n > 3 ==> IsContinuation(s[3]))
      then n else 0
  }

  predicate WellFormed(s: seq<byte>) {
    s == [] || (CharLen(s) > 0 && WellFormed(s[CharLen(s)..]))
  }

  /** Where a cut at `n` is moved back to, past continuations. */
  function Back(s: seq<byte>, n: nat): (cut: nat)
    ensures cut <= n
  {
    if n == 0 || !IsContinuation(At(s, n)) then n else Back(s, n - 1)
  }

  /** And where it is moved on to. */
  function Forward(s: seq<byte>, n: nat): (cut: nat)
    ensures n <= cut && (n <= |s| ==> cut <= |s|) && !IsContinuation(At(s, cut))
    decreases |s| - n
  {
    if n < |s| && IsContinuation(At(s, n)) then Forward(s, n + 1) else n
  }

  /** Only a byte that starts no character is a continuation of one. */
  lemma {:induction false} CharBytes(s: seq<byte>)
    ensures CharLen(s) > 0 ==> !IsContinuation(s[0])
    ensures forall k | 0 < k < CharLen(s) :: IsContinuation(s[k])
    ensures forall k | 0 < k < CharLen(s) :: CharLen(s[..k]) == 0
    ensures forall m | CharLen(s) <= m <= |s| && CharLen(s) > 0 :: CharLen(s[..m]) == CharLen(s)
  {
  }

  /** Where a character starts, or the bytes end, both sides are well formed. */
  lemma {:induction false} SidesWellFormed(s: seq<byte>, i: nat)
    requires WellFormed(s) && i <= |s| && !IsContinuation(At(s, i))
    ensures WellFormed(s[..i]) && WellFormed(s[i..])
    decreases |s|
  {
    if i == 0 {
      assert s[..0] == [] && s[0..] == s;
    } else {
      var n := CharLen(s);
      CharBytes(s);
      SidesWellFormed(s[n..], i - n);
      assert s[..i][n..] == s[n..][..i - n];
      assert s[i..] == s[n..][i - n..];
      assert CharLen(s[..i]) == n;
    }
  }

  lemma {:induction false} BackPastContinuations(s: seq<byte>, n: nat)
    ensures Back(s, n) == 0 || !IsContinuation(At(s, Back(s, n)))
    ensures forall k | Back(s, n) < k <= n :: IsContinuation(At(s, k))
  {
    if n > 0 && IsContinuation(At(s, n)) { BackPastContinuations(s, n - 1); }
  }

  lemma {:induction false} ForwardPastContinuations(s: seq<byte>, n: nat)
    ensures forall k | n <= k < Forward(s, n) :: IsContinuation(At(s, k))
    decreases |s| - n
  {
    if n < |s| && IsContinuation(At(s, n)) { ForwardPastContinuations(s, n + 1); }
  }

  lemma {:induction false} StartsNoContinuation(s: seq<byte>)
    requires WellFormed(s)
    ensures !IsContinuation(At(s, 0))
  {
    CharBytes(s);
  }

  /** Well-formed bytes that start others like them end where a character does. */
  lemma {:induction false} NoPrefixEndsWithin(s: seq<byte>, m: nat)
    requires WellFormed(s) && m <= |s| && WellFormed(s[..m])
    ensures !IsContinuation(At(s, m))
    decreases |s|
  {
    StartsNoContinuation(s);
    if m > 0 {
      var c := CharLen(s);
      CharBytes(s);
      assert c <= m;
      assert s[..m][c..] == s[c..][..m - c];
      NoPrefixEndsWithin(s[c..], m - c);
      assert At(s, m) == At(s[c..], m - c);
    }
  }

  /** Of well-formed bytes, what is before a cut moved back is the most of its first `n` that is well formed. */
  lemma {:induction false} BackIsLongest(s: seq<byte>, n: nat)
    requires WellFormed(s) && n <= |s|
    ensures WellFormed(s[..Back(s, n)]) && WellFormed(s[Back(s, n)..])
    ensures forall m | Back(s, n) < m <= n :: !WellFormed(s[..m])
  {
    StartsNoContinuation(s);
    BackPastContinuations(s, n);
    SidesWellFormed(s, Back(s, n));
    forall m | Back(s, n) < m <= n ensures !WellFormed(s[..m]) {
      if WellFormed(s[..m]) { NoPrefixEndsWithin(s, m); }
    }
  }

  /** And what is after one moved on is the most from `n` that is. */
  lemma {:induction false} ForwardIsLongest(s: seq<byte>, n: nat)
    requires WellFormed(s) && n <= |s|
    ensures WellFormed(s[Forward(s, n)..])
    ensures forall m | n <= m < Forward(s, n) :: !WellFormed(s[m..])
  {
    SidesWellFormed(s, Forward(s, n));
    ForwardPastContinuations(s, n);
    forall m | n <= m < Forward(s, n) ensures !WellFormed(s[m..]) {
      assert At(s[m..], 0) == At(s, m);
      if WellFormed(s[m..]) { StartsNoContinuation(s[m..]); }
    }
  }

  /** A cut that is moved back is within the character it is moved to the start of. */
  lemma {:induction false} CutsWithin(s: seq<byte>, n: nat)
    requires WellFormed(s) && n <= |s| && Back(s, n) < n
    ensures var b := Back(s, n); var c := CharLen(s[b..]);
      n < b + c <= |s| && !IsContinuation(At(s, b + c))
  {
    var b := Back(s, n);
    BackIsLongest(s, n);
    BackPastContinuations(s, n);
    NoContinuationPast(s[b..]);
    var c := CharLen(s[b..]);
    assert At(s[b..], c) == At(s, b + c);
  }

  lemma {:induction false} NoContinuationPast(s: seq<byte>)
    requires WellFormed(s)
    ensures !IsContinuation(At(s, CharLen(s))) && (s != [] ==> CharLen(s) > 0)
  {
    if s != [] {
      StartsNoContinuation(s[CharLen(s)..]);
      assert At(s[CharLen(s)..], 0) == At(s, CharLen(s));
    }
  }

  /** A character is at most four bytes, so neither cut is more than three off. */
  lemma {:induction false} CutsAreNear(s: seq<byte>, n: nat)
    requires WellFormed(s) && n <= |s|
    ensures n <= Back(s, n) + 3 && Forward(s, n) <= n + 3
  {
    if Back(s, n) < n {
      CutsWithin(s, n);
      ForwardPastContinuations(s, n);
    }
  }

  lemma {:induction false} CharLenOn(s: seq<byte>, more: seq<byte>)
    requires CharLen(s) > 0
    ensures CharLen(s + more) == CharLen(s)
  {
    assert (s + more)[..|s|] == s;
  }

  lemma {:induction false} DropsFrom(s: seq<byte>, more: seq<byte>, c: nat)
    requires c <= |s|
    ensures (s + more)[..c] == s[..c] && (s + more)[c..] == s[c..] + more
  {
  }

  lemma {:induction false} ConcatWellFormed(a: seq<byte>, b: seq<byte>)
    requires WellFormed(a) && WellFormed(b)
    ensures WellFormed(a + b)
    decreases |a|
  {
    if a == [] {
      assert a + b == b;
    } else {
      CharLenOn(a, b);
      ConcatWellFormed(a[CharLen(a)..], b);
      DropsFrom(a, b, CharLen(a));
    }
  }

  /** What a decoder told to ignore errors makes of bytes: a byte that starts no character is skipped. */
  function Ignoring(s: seq<byte>): seq<byte> {
    if s == [] then []
    else if CharLen(s) > 0 then s[..CharLen(s)] + Ignoring(s[CharLen(s)..])
    else Ignoring(s[1..])
  }

  lemma {:induction false} IgnoringContinuations(s: seq<byte>, k: nat)
    requires k <= |s| && forall i | 0 <= i < k :: IsContinuation(s[i])
    ensures Ignoring(s) == Ignoring(s[k..])
  {
    if k == 0 {
      assert s[0..] == s;
    } else {
      CharBytes(s);
      IgnoringContinuations(s[1..], k - 1);
      assert s[1..][k - 1..] == s[k..];
    }
  }

  lemma {:induction false} IgnoringWellFormed(s: seq<byte>)
    requires WellFormed(s)
    ensures Ignoring(s) == s
    decreases |s|
  {
    if s != [] { IgnoringWellFormed(s[CharLen(s)..]); }
  }

  lemma {:induction false} IgnoringAfter(s: seq<byte>, more: seq<byte>)
    requires WellFormed(s)
    ensures Ignoring(s + more) == s + Ignoring(more)
    decreases |s|
  {
    if s == [] {
      assert s + more == more;
    } else {
      var c := CharLen(s);
      CharLenOn(s, more);
      IgnoringAfter(s[c..], more);
      DropsFrom(s, more, c);
      Reassociate(s, c, Ignoring(more));
    }
  }

  lemma {:induction false} Reassociate(s: seq<byte>, c: nat, more: seq<byte>)
    requires c <= |s|
    ensures s[..c] + (s[c..] + more) == s + more
  {
  }

  /** Cut anywhere, well-formed bytes decode to their whole characters before the cut. */
  lemma {:induction false} IgnoringBeforeCut(s: seq<byte>, n: nat)
    requires WellFormed(s) && n <= |s|
    ensures Ignoring(s[..n]) == s[..Back(s, n)]
  {
    var b := Back(s, n);
    BackIsLongest(s, n);
    IgnoringPart(s, n);
    assert s[..n] == s[..b] + s[b..n];
    IgnoringRest(s[..b], s[b..n], s[..n]);
  }

  lemma {:induction false} IgnoringRest(before: seq<byte>, rest: seq<byte>, all: seq<byte>)
    requires WellFormed(before) && Ignoring(rest) == [] && all == before + rest
    ensures Ignoring(all) == before
  {
    IgnoringAfter(before, rest);
  }

  lemma {:induction false} IgnoringPart(s: seq<byte>, n: nat)
    requires WellFormed(s) && n <= |s|
    ensures Ignoring(s[Back(s, n)..n]) == []
  {
    var b := Back(s, n);
    if b < n {
      CutsWithin(s, n);
      PartStartsNone(s[b..], n - b);
      assert s[b..n] == s[b..][..n - b];
      BackPastContinuations(s, n);
      var rest := s[b + 1..n];
      forall i | 0 <= i < |rest| ensures IsContinuation(rest[i]) {
        assert rest[i] == At(s, b + 1 + i);
      }
      assert s[b..n][1..] == rest;
      IgnoringContinuations(rest, |rest|);
    }
  }

  lemma {:induction false} PartStartsNone(s: seq<byte>, n: nat)
    requires 0 < n < CharLen(s)
    ensures CharLen(s[..n]) == 0
  {
    CharBytes(s);
  }

  /** And to those that start at the cut or past it. */
  lemma {:induction false} IgnoringFromCut(s: seq<byte>, n: nat)
    requires WellFormed(s) && n <= |s|
    ensures Ignoring(s[n..]) == s[Forward(s, n)..]
  {
    ForwardPastContinuations(s, n);
    var start, rest := Forward(s, n), s[n..];
    forall i | 0 <= i < start - n ensures IsContinuation(rest[i]) {
      assert rest[i] == At(s, n + i);
    }
    assert rest[start - n..] == s[start..];
    SidesWellFormed(s, start);
    IgnoringToCut(rest, start - n);
  }

  lemma {:induction false} IgnoringToCut(s: seq<byte>, k: nat)
    requires k <= |s| && (forall i | 0 <= i < k :: IsContinuation(s[i])) && WellFormed(s[k..])
    ensures Ignoring(s) == s[k..]
  {
    IgnoringContinuations(s, k);
    IgnoringWellFormed(s[k..]);
  }

  /** The code point of a text's first character: U+FFFD for a surrogate that pairs with none. */
  function CodePoint(s: seq<unit>): (c: nat)
    requires s != []
    ensures c < 0x11_0000 && !(0xD800 <= c < 0xE000)
  {
    if Units(s) == 2 then 0x1_0000 + (s[0] as int - 0xD800) * 0x400 + (s[1] as int - 0xDC00)
    else if High(s[0]) || Low(s[0]) then 0xFFFD
    else s[0]
  }

  function EncodeOne(c: nat): seq<byte>
    requires c < 0x11_0000
  {
    if c < 0x80 then [c]
    else if c < 0x800 then [0xC0 + c / 0x40, 0x80 + c % 0x40]
    else if c < 0x1_0000 then [0xE0 + c / 0x1000, 0x80 + c / 0x40 % 0x40, 0x80 + c % 0x40]
    else [0xF0 + c / 0x4_0000, 0x80 + c / 0x1000 % 0x40, 0x80 + c / 0x40 % 0x40, 0x80 + c % 0x40]
  }

  /** `Buffer.from` of a text. */
  function Encode(s: seq<unit>): seq<byte> {
    if s == [] then [] else EncodeOne(CodePoint(s)) + Encode(s[Units(s)..])
  }

  /** What the first two of three bytes have: neither an overlong form nor a surrogate. */
  lemma {:induction false} ThreeBytes(c: nat)
    requires 0x800 <= c < 0x1_0000 && !(0xD800 <= c < 0xE000)
    ensures var first, second := 0xE0 + c / 0x1000, 0x80 + c / 0x40 % 0x40;
      0xE0 <= first < 0xF0 && MayFollow(first, second)
  {
  }

  /** And of four: neither an overlong form nor past U+10FFFF. */
  lemma {:induction false} FourBytes(c: nat)
    requires 0x1_0000 <= c < 0x11_0000
    ensures var first, second := 0xF0 + c / 0x4_0000, 0x80 + c / 0x1000 % 0x40;
      0xF0 <= first < 0xF5 && MayFollow(first, second)
  {
  }

  lemma {:induction false} WholeChar(s: seq<byte>)
    requires 1 < |s| == Length(s[0]) && MayFollow(s[0], s[1])
    requires forall k | 1 < k < |s| :: IsContinuation(s[k])
    ensures CharLen(s) == |s|
  {
  }

  lemma {:induction false} EncodesOne(c: nat)
    requires c < 0x11_0000 && !(0xD800 <= c < 0xE000)
    ensures CharLen(EncodeOne(c)) == |EncodeOne(c)|
  {
    if c >= 0x80 {
      if c >= 0x1_0000 {
        FourBytes(c);
      } else if c >= 0x800 {
        ThreeBytes(c);
      }
      WholeChar(EncodeOne(c));
    }
  }

  lemma {:induction false} EncodesLength(s: seq<unit>)
    ensures |Encode(s)| == ByteLength(s)
    decreases |s|
  {
    if s != [] { EncodesLength(s[Units(s)..]); }
  }

  /** What a text is encoded to is well formed, and as long as `ByteLength` has it, whatever surrogates it has. */
  lemma {:induction false} EncodesWellFormed(s: seq<unit>)
    ensures WellFormed(Encode(s)) && |Encode(s)| == ByteLength(s)
    decreases |s|
  {
    EncodesLength(s);
    if s != [] {
      var first := EncodeOne(CodePoint(s));
      EncodesOne(CodePoint(s));
      EncodesWellFormed(s[Units(s)..]);
      assert first[|first|..] == [];
      ConcatWellFormed(first, Encode(s[Units(s)..]));
    }
  }
}
