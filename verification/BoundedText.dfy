/**
 * packages/core/src/runtime/output-capture.ts: a runtime's message over its bound keeps its
 * start and end around a marker. What each runtime's own harness does for it makes the same
 * text: `__baymaBoundText` of Bun's, `BoundText` of C#'s and `bound_text` of Python's.
 */
module BoundedText {
  import opened Basics
  import opened Truncate
  import opened Utf8

  const MAX_MESSAGE_BYTES: nat := 65_536
  const ELLIPSIS: seq<byte> := [0xE2, 0x80, 0xA6]

  function Clamped(n: int, most: nat): (r: nat)
    ensures r <= most
  {
    if n < 0 then 0 else if n < most then n else most
  }

  /** A message's start and end of so many bytes, by whole characters, around a marker. */
  function EndsAround(bytes: seq<byte>, start: nat, end: nat, marker: seq<byte>): seq<byte>
    requires start + end <= |bytes|
  {
    bytes[..Back(bytes, start)] + marker + bytes[Forward(bytes, |bytes| - end)..]
  }

  /** Those its marker leaves room for. */
  function Around(bytes: seq<byte>, payload: nat, marker: seq<byte>): seq<byte>
    requires payload <= |bytes|
  {
    EndsAround(bytes, payload / 2, payload - payload / 2, marker)
  }

  function Bounded(bytes: seq<byte>, maxBytes: nat, marker: seq<byte>): seq<byte> {
    if |bytes| <= maxBytes then bytes
    else if |marker| >= maxBytes then marker[..Back(marker, maxBytes)]
    else Around(bytes, maxBytes - |marker|, marker)
  }

  lemma {:induction false} KeepsAround(bytes: seq<byte>, maxBytes: nat, marker: seq<byte>, left: nat, right: nat)
    requires |bytes| > maxBytes > |marker|
    requires left == Back(bytes, (maxBytes - |marker|) / 2)
    requires right == Forward(bytes, |bytes| - (maxBytes - |marker| - (maxBytes - |marker|) / 2))
    ensures right <= |bytes| && bytes[..left] + marker + bytes[right..] == Bounded(bytes, maxBytes, marker)
  {
  }

  /** Whether a text is well formed, and within a bound by less than seven bytes. */
  predicate Fits(text: seq<byte>, maxBytes: nat) {
    WellFormed(text) && |text| <= maxBytes <= |text| + 6
  }

  /** What a bound leaves of a text over it is well formed and within it, whatever the bound. */
  lemma {:induction false} BoundedFits(bytes: seq<byte>, maxBytes: nat, marker: seq<byte>)
    requires WellFormed(bytes) && WellFormed(marker) && |bytes| > maxBytes
    ensures Fits(Bounded(bytes, maxBytes, marker), maxBytes)
  {
    if |marker| >= maxBytes {
      MarkerFits(bytes, maxBytes, marker);
    } else {
      AroundFits(bytes, maxBytes, marker);
      BoundedAround(bytes, maxBytes, marker);
    }
  }

  lemma {:induction false} MarkerFits(bytes: seq<byte>, maxBytes: nat, marker: seq<byte>)
    requires WellFormed(marker) && |bytes| > maxBytes && |marker| >= maxBytes
    ensures Fits(Bounded(bytes, maxBytes, marker), maxBytes)
  {
    KeepsStart(marker, maxBytes);
  }

  lemma {:induction false} AroundFits(bytes: seq<byte>, maxBytes: nat, marker: seq<byte>)
    requires WellFormed(bytes) && WellFormed(marker) && |bytes| > maxBytes > |marker|
    ensures Fits(Around(bytes, maxBytes - |marker|, marker), maxBytes)
  {
    EndsFit(bytes, maxBytes, marker, (maxBytes - |marker|) / 2, maxBytes - |marker| - (maxBytes - |marker|) / 2);
  }

  lemma {:induction false} BoundedAround(bytes: seq<byte>, maxBytes: nat, marker: seq<byte>)
    requires |bytes| > maxBytes > |marker| && Fits(Around(bytes, maxBytes - |marker|, marker), maxBytes)
    ensures Fits(Bounded(bytes, maxBytes, marker), maxBytes)
  {
  }

  lemma {:induction false} EndsFit(bytes: seq<byte>, maxBytes: nat, marker: seq<byte>, start: nat, end: nat)
    requires WellFormed(bytes) && WellFormed(marker) && start + end == maxBytes - |marker| && maxBytes < |bytes|
    ensures Fits(EndsAround(bytes, start, end, marker), maxBytes)
  {
    KeepsStart(bytes, start);
    KeepsEnd(bytes, end);
    BothSidesFit(bytes[..Back(bytes, start)], marker, bytes[Forward(bytes, |bytes| - end)..], maxBytes);
  }

  lemma {:induction false} BothSidesFit(before: seq<byte>, marker: seq<byte>, after: seq<byte>, maxBytes: nat)
    requires WellFormed(before) && WellFormed(marker) && WellFormed(after)
    requires |before| + |marker| + |after| <= maxBytes <= |before| + |marker| + |after| + 6
    ensures Fits(before + marker + after, maxBytes)
  {
    BothSidesWellFormed(before, marker, after);
  }

  lemma {:induction false} BothSidesWellFormed(before: seq<byte>, marker: seq<byte>, after: seq<byte>)
    requires WellFormed(before) && WellFormed(marker) && WellFormed(after)
    ensures WellFormed(before + marker + after)
  {
    ConcatWellFormed(before, marker);
    ConcatWellFormed(before + marker, after);
  }

  lemma {:induction false} KeepsStart(bytes: seq<byte>, most: nat)
    requires WellFormed(bytes) && most <= |bytes|
    ensures WellFormed(bytes[..Back(bytes, most)]) && Back(bytes, most) <= most <= Back(bytes, most) + 3
  {
    BackIsLongest(bytes, most);
    CutsAreNear(bytes, most);
  }

  lemma {:induction false} KeepsEnd(bytes: seq<byte>, most: nat)
    requires WellFormed(bytes) && most <= |bytes|
    ensures var start := Forward(bytes, |bytes| - most);
      WellFormed(bytes[start..]) && |bytes| - start <= most <= |bytes| - start + 3
  {
    ForwardIsLongest(bytes, |bytes| - most);
    CutsAreNear(bytes, |bytes| - most);
  }

  method PreviousUtf8Boundary(bytes: seq<byte>, target: int) returns (boundary: nat)
    ensures boundary == Back(bytes, Clamped(target, |bytes|))
  {
    boundary := Clamped(target, |bytes|);
    while boundary > 0 && boundary < |bytes| && IsContinuation(bytes[boundary])
      invariant Back(bytes, boundary) == Back(bytes, Clamped(target, |bytes|))
    {
      assert IsContinuation(At(bytes, boundary));
      boundary := boundary - 1;
    }
  }

  method NextUtf8Boundary(bytes: seq<byte>, target: int) returns (boundary: nat)
    ensures boundary == Forward(bytes, Clamped(target, |bytes|))
  {
    boundary := Clamped(target, |bytes|);
    while boundary < |bytes| && IsContinuation(bytes[boundary])
      invariant Forward(bytes, boundary) == Forward(bytes, Clamped(target, |bytes|))
    {
      assert IsContinuation(At(bytes, boundary));
      boundary := boundary + 1;
    }
  }

  method Utf8Prefix(bytes: seq<byte>, maxBytes: nat) returns (prefix: seq<byte>)
    ensures prefix == bytes[..Back(bytes, Clamped(maxBytes, |bytes|))]
  {
    var boundary := PreviousUtf8Boundary(bytes, maxBytes);
    prefix := bytes[..boundary];
  }

  function AtLeast0(n: int): nat {
    if n < 0 then 0 else n
  }

  /** `boundRuntimeText`, whose text is given by its bytes. */
  method BoundRuntimeText(value: seq<unit>, maxBytes: int, marker: seq<byte>)
    returns (text: seq<byte>, truncated: bool, originalByteLength: nat)
    ensures text == Bounded(Encode(value), AtLeast0(maxBytes), marker)
    ensures truncated <==> originalByteLength > AtLeast0(maxBytes)
    ensures originalByteLength == ByteLength(value)
  {
    var bytes := Encode(value);
    EncodesLength(value);
    originalByteLength := |bytes|;
    text, truncated := BoundBytes(bytes, AtLeast0(maxBytes), marker);
  }

  method BoundBytes(bytes: seq<byte>, boundedBytes: nat, marker: seq<byte>) returns (text: seq<byte>, truncated: bool)
    ensures text == Bounded(bytes, boundedBytes, marker)
    ensures truncated <==> |bytes| > boundedBytes
  {
    if |bytes| <= boundedBytes { return bytes, false; }
    truncated := true;
    if boundedBytes == 0 {
      text := [];
    } else if |marker| >= boundedBytes {
      text := BoundMarker(bytes, boundedBytes, marker);
    } else {
      text := KeepAround(bytes, boundedBytes, marker);
    }
  }

  method BoundMarker(bytes: seq<byte>, boundedBytes: nat, marker: seq<byte>) returns (text: seq<byte>)
    requires |bytes| > boundedBytes && |marker| >= boundedBytes
    ensures text == Bounded(bytes, boundedBytes, marker)
  {
    text := Utf8Prefix(marker, boundedBytes);
  }

  method KeepAround(bytes: seq<byte>, boundedBytes: nat, marker: seq<byte>) returns (text: seq<byte>)
    requires |bytes| > boundedBytes > |marker|
    ensures text == Bounded(bytes, boundedBytes, marker)
  {
    var payloadBytes := boundedBytes - |marker|;
    var leftTarget := payloadBytes / 2;
    var rightTarget := |bytes| - (payloadBytes - leftTarget);
    var left := PreviousUtf8Boundary(bytes, leftTarget);
    var right := NextUtf8Boundary(bytes, rightTarget);
    KeepsAround(bytes, boundedBytes, marker, left, right);
    text := bytes[..left] + marker + bytes[right..];
  }

  /** `__baymaBoundText`, whose loops have no other guard than a byte past the end being no continuation. */
  method BunBoundText(bytes: seq<byte>, maxBytes: nat, marker: seq<byte>) returns (text: seq<byte>)
    requires |marker| < maxBytes
    ensures text == Bounded(bytes, maxBytes, marker)
  {
    if |bytes| <= maxBytes { return bytes; }
    var payloadBytes := maxBytes - |marker|;
    var leftTarget := payloadBytes / 2;
    var rightTarget := |bytes| - (payloadBytes - leftTarget);
    var left := leftTarget;
    while left > 0 && IsContinuation(At(bytes, left))
      invariant 0 <= left <= leftTarget && Back(bytes, left) == Back(bytes, leftTarget)
    {
      left := left - 1;
    }
    assert left == Back(bytes, leftTarget);
    var right := rightTarget;
    while right < |bytes| && IsContinuation(At(bytes, right))
      invariant 0 <= right <= |bytes| && Forward(bytes, right) == Forward(bytes, rightTarget)
    {
      right := right + 1;
    }
    assert right == Forward(bytes, rightTarget);
    KeepsAround(bytes, maxBytes, marker, left, right);
    text := bytes[..left] + marker + bytes[right..];
  }

  /** C#'s `BoundText`. */
  method CSharpBoundText(bytes: seq<byte>, maxBytes: nat, marker: seq<byte>) returns (text: seq<byte>)
    requires |marker| < maxBytes
    ensures text == Bounded(bytes, maxBytes, marker)
  {
    if |bytes| <= maxBytes { return bytes; }
    var payloadBytes := maxBytes - |marker|;
    var left := payloadBytes / 2;
    var right := |bytes| - (payloadBytes - left);
    ghost var leftTarget, rightTarget := left, right;
    while left > 0 && left < |bytes| && IsContinuation(bytes[left])
      invariant 0 <= left <= leftTarget && Back(bytes, left) == Back(bytes, leftTarget)
    {
      left := left - 1;
    }
    assert left == Back(bytes, leftTarget);
    while right < |bytes| && IsContinuation(bytes[right])
      invariant 0 <= right <= |bytes| && Forward(bytes, right) == Forward(bytes, rightTarget)
    {
      right := right + 1;
    }
    assert right == Forward(bytes, rightTarget);
    KeepsAround(bytes, maxBytes, marker, left, right);
    text := bytes[..left] + marker + bytes[right..];
  }

  type Decoder = seq<byte> -> seq<byte>

  /** Python's `bound_text`, by its decoder, which is told to ignore errors. */
  function PythonBoundText(encoded: seq<byte>, maxBytes: nat, marker: seq<byte>, decode: Decoder): seq<byte>
    requires |marker| < maxBytes
  {
    if |encoded| <= maxBytes then encoded
    else
      var payloadBytes := maxBytes - |marker|;
      var leftBytes := payloadBytes / 2;
      var rightBytes := payloadBytes - leftBytes;
      decode(encoded[..leftBytes]) + marker + decode(encoded[|encoded| - rightBytes..])
  }

  ghost predicate IgnoresErrors(decode: Decoder) {
    forall s :: decode(s) == Ignoring(s)
  }

  /** Decoding around a cut with errors ignored comes to the same as moving the cut to a character. */
  lemma {:induction false} PythonBoundsAlike(encoded: seq<byte>, maxBytes: nat, marker: seq<byte>, decode: Decoder)
    requires WellFormed(encoded) && |marker| < maxBytes && IgnoresErrors(decode)
    ensures PythonBoundText(encoded, maxBytes, marker, decode) == Bounded(encoded, maxBytes, marker)
  {
    if |encoded| > maxBytes { PythonCutsAlike(encoded, maxBytes, marker, decode); }
  }

  lemma {:induction false} PythonCutsAlike(encoded: seq<byte>, maxBytes: nat, marker: seq<byte>, decode: Decoder)
    requires WellFormed(encoded) && |encoded| > maxBytes > |marker| && IgnoresErrors(decode)
    ensures PythonBoundText(encoded, maxBytes, marker, decode) == Bounded(encoded, maxBytes, marker)
  {
    var payloadBytes := maxBytes - |marker|;
    var leftBytes := payloadBytes / 2;
    var from := |encoded| - (payloadBytes - leftBytes);
    PythonDecodes(encoded, maxBytes, marker, decode, leftBytes, from);
    DecodesSides(encoded, marker, decode, leftBytes, from);
    KeepsAround(encoded, maxBytes, marker, Back(encoded, leftBytes), Forward(encoded, from));
  }

  lemma {:induction false} DecodesSides(bytes: seq<byte>, marker: seq<byte>, decode: Decoder, left: nat, from: nat)
    requires WellFormed(bytes) && left <= |bytes| && from <= |bytes| && IgnoresErrors(decode)
    ensures decode(bytes[..left]) + marker + decode(bytes[from..])
         == bytes[..Back(bytes, left)] + marker + bytes[Forward(bytes, from)..]
  {
    IgnoringBeforeCut(bytes, left);
    IgnoringFromCut(bytes, from);
  }

  lemma {:induction false} PythonDecodes(encoded: seq<byte>, maxBytes: nat, marker: seq<byte>, decode: Decoder,
      left: nat, from: nat)
    requires |encoded| > maxBytes > |marker|
    requires left == (maxBytes - |marker|) / 2 && from == |encoded| - (maxBytes - |marker| - left)
    ensures PythonBoundText(encoded, maxBytes, marker, decode) ==
      decode(encoded[..left]) + marker + decode(encoded[from..])
  {
  }

  /** "…Bayma truncated runtime message…". */
  function Marker(): seq<byte> {
    ELLIPSIS + Ascii("Bayma truncated runtime message") + ELLIPSIS
  }

  lemma {:induction false} MarkerWellFormed()
    ensures WellFormed(Marker()) && |Marker()| == 37 < MAX_MESSAGE_BYTES
  {
    BetweenEllipses(Ascii("Bayma truncated runtime message"));
  }

  lemma {:induction false} BetweenEllipses(words: seq<byte>)
    requires forall i | 0 <= i < |words| :: words[i] < 0x80
    ensures WellFormed(ELLIPSIS + words + ELLIPSIS)
  {
    AsciiWellFormed(words);
    assert ELLIPSIS[3..] == [];
    BothSidesWellFormed(ELLIPSIS, words, ELLIPSIS);
  }

  lemma {:induction false} AsciiWellFormed(s: seq<byte>)
    requires forall i | 0 <= i < |s| :: s[i] < 0x80
    ensures WellFormed(s)
  {
    if s != [] { AsciiWellFormed(s[1..]); }
  }
}
