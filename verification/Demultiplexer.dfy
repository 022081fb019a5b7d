/**
 * `demultiplexer` of packages/cli/src/docker.ts: the frames of an attached container's
 * output, out of chunks that may cut one anywhere.
 */
module Demultiplexers {
  import opened Basics
  import opened Chunks

  datatype Stream = Stdout | Stderr

  datatype Frame = Frame(stream: Stream, data: seq<byte>)

  /** A frame as Docker sends it: `pad` are the three bytes of its header that say nothing. */
  datatype Sent = Sent(frame: Frame, pad: seq<byte>)

  const HEADER: nat := 8

  /** The big-endian number of the four bytes at `at`. */
  function Size(bytes: seq<byte>, at: nat): nat
    requires at + 4 <= |bytes|
  {
    bytes[at] as int * 0x100_0000 + bytes[at + 1] as int * 0x1_0000 + bytes[at + 2] as int * 0x100
      + bytes[at + 3] as int
  }

  /** Whether `bytes` opens with a whole frame. */
  predicate Whole(bytes: seq<byte>) {
    HEADER <= |bytes| && HEADER + Size(bytes, 4) <= |bytes|
  }

  function First(bytes: seq<byte>): Frame
    requires Whole(bytes)
  {
    Frame(if bytes[0] == 2 then Stderr else Stdout, bytes[HEADER..HEADER + Size(bytes, 4)])
  }

  function Past(bytes: seq<byte>): seq<byte>
    requires Whole(bytes)
  {
    bytes[HEADER + Size(bytes, 4)..]
  }

  /** The whole frames a stream opens with. */
  function Frames(bytes: seq<byte>): seq<Frame> {
    if Whole(bytes) then [First(bytes)] + Frames(Past(bytes)) else []
  }

  /** What is left of a stream past its whole frames. */
  function Left(bytes: seq<byte>): seq<byte> {
    if Whole(bytes) then Left(Past(bytes)) else bytes
  }

  /** Reading on from what is left of a stream is reading on in the stream. */
  lemma {:induction false} ReadsOn(bytes: seq<byte>, more: seq<byte>)
    ensures Frames(bytes + more) == Frames(bytes) + Frames(Left(bytes) + more)
    ensures Left(bytes + more) == Left(Left(bytes) + more)
    decreases |bytes|
  {
    if Whole(bytes) {
      assert Whole(bytes + more) && First(bytes + more) == First(bytes);
      assert Past(bytes + more) == Past(bytes) + more;
      ReadsOn(Past(bytes), more);
    }
  }

  function End(bytes: seq<byte>, offset: nat): nat
    requires offset + HEADER <= |bytes|
  {
    offset + HEADER + Size(bytes, offset + 4)
  }

  function FrameAt(bytes: seq<byte>, offset: nat): Frame
    requires offset + HEADER <= |bytes| && End(bytes, offset) <= |bytes|
  {
    Frame(if bytes[offset] == 2 then Stderr else Stdout, bytes[offset + HEADER..End(bytes, offset)])
  }

  /** A frame at `offset` is the first one of what starts there. */
  lemma {:induction false} FirstAt(bytes: seq<byte>, offset: nat)
    requires offset + HEADER <= |bytes|
    ensures Whole(bytes[offset..]) <==> End(bytes, offset) <= |bytes|
    ensures Whole(bytes[offset..]) ==>
      First(bytes[offset..]) == FrameAt(bytes, offset) && Past(bytes[offset..]) == bytes[End(bytes, offset)..]
  {
    var rest, size := bytes[offset..], Size(bytes, offset + 4);
    assert Size(rest, 4) == size;
    if Whole(rest) {
      assert rest[HEADER..HEADER + size] == bytes[offset + HEADER..offset + HEADER + size];
      assert rest[HEADER + size..] == bytes[offset + HEADER + size..];
    }
  }

  /** Taking the frame at `offset` leaves the same frames to take, and the same left. */
  lemma {:induction false} Takes(bytes: seq<byte>, offset: nat, taken: seq<Frame>)
    requires offset + HEADER <= |bytes| && End(bytes, offset) <= |bytes|
    ensures taken + Frames(bytes[offset..]) == taken + [FrameAt(bytes, offset)] + Frames(bytes[End(bytes, offset)..])
    ensures Left(bytes[offset..]) == Left(bytes[End(bytes, offset)..])
  {
    FirstAt(bytes, offset);
  }

  lemma {:induction false} TakesNone(bytes: seq<byte>, offset: nat)
    requires offset <= |bytes| && (offset + HEADER <= |bytes| ==> End(bytes, offset) > |bytes|)
    ensures Frames(bytes[offset..]) == [] && Left(bytes[offset..]) == bytes[offset..]
  {
    if offset + HEADER <= |bytes| { FirstAt(bytes, offset); }
  }

  class Demultiplexer {
    var pending: seq<byte>

    constructor ()
      ensures pending == []
    {
      pending := [];
    }

    method Push(chunk: seq<byte>) returns (frames: seq<Frame>)
      modifies this
      ensures frames == Frames(old(pending) + chunk)
      ensures pending == Left(old(pending) + chunk)
    {
      var buffer := if |pending| > 0 then pending + chunk else chunk;
      assert buffer == old(pending) + chunk;
      var offset;
      frames, offset := WholeFrames(buffer);
      pending := buffer[offset..];
    }
  }

  /** The loop of a push: the whole frames `buffer` opens with, and where they end. */
  method WholeFrames(buffer: seq<byte>) returns (frames: seq<Frame>, offset: nat)
    ensures frames == Frames(buffer) && offset <= |buffer| && buffer[offset..] == Left(buffer)
  {
    frames, offset := [], 0;
    assert buffer[0..] == buffer;
    while offset + HEADER <= |buffer|
      invariant offset <= |buffer|
      invariant Frames(buffer) == frames + Frames(buffer[offset..])
      invariant Left(buffer) == Left(buffer[offset..])
    {
      var end := End(buffer, offset);
      if end > |buffer| { break; }
      Takes(buffer, offset, frames);
      frames := frames + [FrameAt(buffer, offset)];
      offset := end;
    }
    TakesNone(buffer, offset);
  }

  /** Every chunk of a stream pushed in turn: the frames handed out, and what then is pending. */
  method PushAll(chunks: seq<seq<byte>>) returns (frames: seq<Frame>, pending: seq<byte>)
    ensures frames == Frames(Concat(chunks)) && pending == Left(Concat(chunks))
  {
    var demultiplexer := new Demultiplexer();
    frames := [];
    for i := 0 to |chunks|
      invariant frames == Frames(Concat(chunks[..i])) && demultiplexer.pending == Left(Concat(chunks[..i]))
    {
      var more := demultiplexer.Push(chunks[i]);
      frames := frames + more;
      ConcatNext(chunks, i);
      ReadsOn(Concat(chunks[..i]), chunks[i]);
    }
    ConcatAll(chunks);
    pending := demultiplexer.pending;
  }

  /** What Docker sends: a frame's stream, its size in four bytes, and its data. */
  predicate Sendable(s: Sent) {
    |s.pad| == 3 && |s.frame.data| < 0x1_0000_0000
  }

  function SizeBytes(size: nat): (bytes: seq<byte>)
    requires size < 0x1_0000_0000
    ensures |bytes| == 4 && Size(bytes, 0) == size
  {
    [size / 0x100_0000, size / 0x1_0000 % 0x100, size / 0x100 % 0x100, size % 0x100]
  }

  function Header(s: Sent): (header: seq<byte>)
    requires Sendable(s)
    ensures |header| == HEADER && Size(header, 4) == |s.frame.data|
  {
    var size := SizeBytes(|s.frame.data|);
    var header := [if s.frame.stream == Stderr then 2 else 1] + s.pad + size;
    assert header[4..] == size;
    header
  }

  function Encoded(s: Sent): seq<byte>
    requires Sendable(s)
  {
    Header(s) + s.frame.data
  }

  function EncodedAll(sent: seq<Sent>): seq<byte>
    requires forall s <- sent :: Sendable(s)
  {
    if sent == [] then [] else Encoded(sent[0]) + EncodedAll(sent[1..])
  }

  function FramesOf(sent: seq<Sent>): seq<Frame> {
    seq(|sent|, i requires 0 <= i < |sent| => sent[i].frame)
  }

  lemma {:induction false} EncodedIsFirst(s: Sent, more: seq<byte>)
    requires Sendable(s)
    ensures Whole(Encoded(s) + more) && First(Encoded(s) + more) == s.frame && Past(Encoded(s) + more) == more
  {
    var bytes := Encoded(s) + more;
    assert bytes[..HEADER] == Header(s);
    assert Size(bytes, 4) == Size(Header(s), 4);
    assert bytes[HEADER..HEADER + |s.frame.data|] == s.frame.data;
  }

  /** The frames of an encoding are what was encoded, with nothing left, and so however it is cut. */
  lemma {:induction false} DecodesEncoded(sent: seq<Sent>)
    requires forall s <- sent :: Sendable(s)
    ensures Frames(EncodedAll(sent)) == FramesOf(sent)
    ensures Left(EncodedAll(sent)) == []
    decreases |sent|
  {
    if sent == [] {
      assert !Whole(EncodedAll(sent));
    } else {
      EncodedIsFirst(sent[0], EncodedAll(sent[1..]));
      DecodesEncoded(sent[1..]);
      assert FramesOf(sent) == [sent[0].frame] + FramesOf(sent[1..]);
    }
  }

  method DecodeCutAnywhere(sent: seq<Sent>, chunks: seq<seq<byte>>) returns (frames: seq<Frame>, pending: seq<byte>)
    requires (forall s <- sent :: Sendable(s)) && Concat(chunks) == EncodedAll(sent)
    ensures frames == FramesOf(sent) && pending == []
  {
    frames, pending := PushAll(chunks);
    DecodesEncoded(sent);
  }
}
