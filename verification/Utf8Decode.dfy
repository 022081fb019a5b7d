/**
 * Decoding UTF-8, as section 3 of RFC 3629 has it, and a text's UTF-16, as section 2.2 of RFC 2781
 * does: what `Buffer.from` encodes a text to decodes to it.
 */
module Utf8Decoding {
  import opened Basics
  import opened Truncate
  import opened Utf8

  /** The code point of the character that bytes start with. */
  function DecodeOne(s: seq<byte>): (c: nat)
    requires CharLen(s) > 0
    ensures c < 0x11_0000
  {
    match CharLen(s)
    case 1 => s[0]
    case 2 => (s[0] as int - 0xC0) * 0x40 + (s[1] as int - 0x80)
    case 3 => (s[0] as int - 0xE0) * 0x1000 + (s[1] as int - 0x80) * 0x40 + (s[2] as int - 0x80)
    case _ =>
      (s[0] as int - 0xF0) * 0x4_0000 + (s[1] as int - 0x80) * 0x1000
      + (s[2] as int - 0x80) * 0x40 + (s[3] as int - 0x80)
  }

  function UnitsOf(c: nat): seq<unit>
    requires c < 0x11_0000
  {
    if c < 0x1_0000 then [c] else [0xD800 + (c - 0x1_0000) / 0x400, 0xDC00 + (c - 0x1_0000) % 0x400]
  }

  /** The text that well-formed bytes are of. */
  function Decode(s: seq<byte>): seq<unit>
    requires WellFormed(s)
  {
    if s == [] then [] else UnitsOf(DecodeOne(s)) + Decode(s[CharLen(s)..])
  }

  /** A text with U+FFFD for each surrogate that pairs with none. */
  function Paired(s: seq<unit>): seq<unit> {
    if s == [] then []
    else if Units(s) == 2 then s[..2] + Paired(s[2..])
    else [if 0xD800 <= s[0] < 0xE000 then 0xFFFD else s[0]] + Paired(s[1..])
  }

  lemma {:induction false} DecodesTwo(c: nat)
    requires 0x80 <= c < 0x800
    ensures c / 0x40 * 0x40 + c % 0x40 == c
  {
  }

  lemma {:induction false} DecodesThree(c: nat)
    requires c < 0x1_0000
    ensures c / 0x1000 * 0x1000 + c / 0x40 % 0x40 * 0x40 + c % 0x40 == c
  {
    assert c / 0x40 / 0x40 == c / 0x1000;
  }

  lemma {:induction false} DecodesFour(c: nat)
    requires c < 0x11_0000
    ensures c / 0x4_0000 * 0x4_0000 + c / 0x1000 % 0x40 * 0x1000 + c / 0x40 % 0x40 * 0x40 + c % 0x40 == c
  {
    assert c / 0x40 / 0x40 == c / 0x1000 && c / 0x1000 / 0x40 == c / 0x4_0000;
  }

  /** Each code point is decoded from what it is encoded to. */
  lemma {:induction false} DecodesOne(c: nat)
    requires c < 0x11_0000 && !(0xD800 <= c < 0xE000)
    ensures CharLen(EncodeOne(c)) > 0 && DecodeOne(EncodeOne(c)) == c
  {
    EncodesOne(c);
    if c >= 0x1_0000 {
      DecodesFour(c);
    } else if c >= 0x800 {
      DecodesThree(c);
    } else if c >= 0x80 {
      DecodesTwo(c);
    }
  }

  /** A pair of surrogates is that of its code point. */
  lemma {:induction false} PairIsOfItsPoint(s: seq<unit>)
    requires s != [] && Units(s) == 2
    ensures UnitsOf(CodePoint(s)) == s[..2]
  {
    var high, low := s[0] as int - 0xD800, s[1] as int - 0xDC00;
    assert (high * 0x400 + low) / 0x400 == high && (high * 0x400 + low) % 0x400 == low;
  }

  /** Every code point's UTF-16 is encoded to its UTF-8, one past U+FFFF as the pair it is. */
  lemma {:induction false} EncodesEveryPoint(c: nat)
    requires c < 0x11_0000 && !(0xD800 <= c < 0xE000)
    ensures Encode(UnitsOf(c)) == EncodeOne(c)
  {
    var s := UnitsOf(c);
    assert s[Units(s)..] == [] && EncodeOne(c) + [] == EncodeOne(c);
    assert c >= 0x1_0000 ==> (c - 0x1_0000) / 0x400 * 0x400 + (c - 0x1_0000) % 0x400 == c - 0x1_0000;
  }

  lemma {:induction false} FirstDecodes(c: nat, rest: seq<byte>)
    requires c < 0x11_0000 && !(0xD800 <= c < 0xE000)
    ensures var s := EncodeOne(c) + rest;
      CharLen(s) == |EncodeOne(c)| > 0 && DecodeOne(s) == c && s[CharLen(s)..] == rest
  {
    var s, first := EncodeOne(c) + rest, EncodeOne(c);
    EncodesOne(c);
    DecodesOne(c);
    assert s[..|first|] == first;
    CharBytes(s);
    FirstAlike(s, |first|);
  }

  /** A character is decoded alike whatever comes after it. */
  lemma {:induction false} FirstAlike(s: seq<byte>, n: nat)
    requires n <= |s| && CharLen(s[..n]) == n > 0
    ensures CharLen(s) == n && DecodeOne(s) == DecodeOne(s[..n])
  {
  }

  /** What a text is encoded to decodes to it, but for surrogates that pair with none, which come to U+FFFD. */
  lemma {:induction false} DecodesEncoded(s: seq<unit>)
    ensures WellFormed(Encode(s)) && Decode(Encode(s)) == Paired(s)
    decreases |s|
  {
    EncodesWellFormed(s);
    if s != [] {
      FirstDecodes(CodePoint(s), Encode(s[Units(s)..]));
      DecodesEncoded(s[Units(s)..]);
      if Units(s) == 2 { PairIsOfItsPoint(s); }
    }
  }
}
