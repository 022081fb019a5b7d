/**
 * `appendRecentOutput` of packages/core/src/runtime/process-transport.ts: the chunks of a process's
 * output that are kept for a failure's message are the end of all it printed.
 */
module RecentOutputs {
  import opened Basics
  import opened Chunks

  const MAX_RECENT_OUTPUT_BYTES: nat := 0x40_0000

  lemma {:induction false} FirstOf(chunks: seq<seq<byte>>)
    requires chunks != []
    ensures Concat(chunks) == chunks[0] + Concat(chunks[1..])
  {
    if |chunks| > 1 {
      var last := |chunks| - 1;
      FirstOf(chunks[..last]);
      assert chunks[..last][1..] == chunks[1..][..last - 1] && chunks[1..][last - 1] == chunks[last];
    } else {
      assert chunks[..0] == [] && chunks[1..] == [];
    }
  }

  class RecentOutput {
    var rawChunks: seq<seq<byte>>
    var rawByteLength: nat

    ghost predicate Valid()
      reads this
    {
      rawByteLength == |Concat(rawChunks)| <= MAX_RECENT_OUTPUT_BYTES
    }

    constructor ()
      ensures Valid() && Concat(rawChunks) == []
    {
      rawChunks, rawByteLength := [], 0;
    }

    method Append(bytes: seq<byte>)
      requires Valid()
      modifies this
      ensures Valid() && Concat(rawChunks) == Tail(old(Concat(rawChunks)) + bytes, MAX_RECENT_OUTPUT_BYTES)
    {
      ghost var all := Concat(rawChunks) + bytes;
      assert (rawChunks + [bytes])[..|rawChunks|] == rawChunks;
      rawChunks := rawChunks + [bytes];
      rawByteLength := rawByteLength + |bytes|;
      Trim(all);
    }

    /** The loop, which lets go of the oldest chunks and the start of the one that is next. */
    method Trim(ghost all: seq<byte>)
      requires Concat(rawChunks) == all && rawByteLength == |all|
      modifies this
      ensures Valid() && Concat(rawChunks) == Tail(all, MAX_RECENT_OUTPUT_BYTES)
    {
      while rawByteLength > MAX_RECENT_OUTPUT_BYTES && |rawChunks| > 0
        invariant rawByteLength == |Concat(rawChunks)| <= |all| && Concat(rawChunks) == all[|all| - rawByteLength..]
        invariant rawByteLength >= MAX_RECENT_OUTPUT_BYTES || rawByteLength == |all|
        decreases rawByteLength, |rawChunks|
      {
        var first := rawChunks[0];
        var excess := rawByteLength - MAX_RECENT_OUTPUT_BYTES;
        FirstOf(rawChunks);
        if |first| <= excess {
          rawChunks := rawChunks[1..];
          rawByteLength := rawByteLength - |first|;
        } else {
          FirstOf(rawChunks[0 := first[excess..]]);
          rawChunks := rawChunks[0 := first[excess..]];
          rawByteLength := rawByteLength - excess;
        }
      }
    }
  }

  /** However its output came, what is kept is the last 4 MiB of it, and all of it where that is less. */
  method AppendAll(chunks: seq<seq<byte>>) returns (kept: seq<byte>)
    ensures kept == Tail(Concat(chunks), MAX_RECENT_OUTPUT_BYTES)
  {
    var output := new RecentOutput();
    for i := 0 to |chunks|
      invariant output.Valid() && Concat(output.rawChunks) == Tail(Concat(chunks[..i]), MAX_RECENT_OUTPUT_BYTES)
    {
      ConcatNext(chunks, i);
      TailOn(Concat(chunks[..i]), chunks[i], MAX_RECENT_OUTPUT_BYTES);
      output.Append(chunks[i]);
    }
    ConcatAll(chunks);
    kept := Concat(output.rawChunks);
  }
}
