/**
 * `projectExecText` of packages/core/src/mcp/exec-snapshot.ts, and `truncateTextToByteBudget`
 * of packages/core/src/mcp/truncate.ts: the channels of an exec, each with its lines ending in
 * "\n", cut to what the budget allows them together.
 */
module ExecTexts {
  import opened Options
  import opened Truncate
  import C = ChannelBytes

  const CR: unit := 0x0D
  const LF: unit := 0x0A
  const MAX_SNAPSHOT_OUTPUT_TOKENS := 1_048_576

  datatype TruncatedText = TruncatedText(text: seq<unit>, truncated: bool, originalTokenCount: Option<nat>)

  datatype Projection = Projection(rendered: seq<seq<unit>>, truncated: bool, originalTokenCount: Option<nat>)

  /** `replace(/\r\n/g, "\n")`. */
  function CrLfReplaced(s: seq<unit>): seq<unit> {
    if s == [] then []
    else if |s| > 1 && s[0] == CR && s[1] == LF then [LF] + CrLfReplaced(s[2..])
    else [s[0]] + CrLfReplaced(s[1..])
  }

  /** `replace(/\r/g, "\n")`. */
  function CrReplaced(s: seq<unit>): seq<unit> {
    if s == [] then [] else [if s[0] == CR then LF else s[0]] + CrReplaced(s[1..])
  }

  function NormalizeNewlines(s: seq<unit>): seq<unit> {
    CrReplaced(CrLfReplaced(s))
  }

  /** The lines a text has when "\r\n", "\r" and "\n" each end one, without their ends. */
  function Lines(s: seq<unit>): (lines: seq<seq<unit>>)
    ensures lines != []
  {
    if s == [] then [[]]
    else if |s| > 1 && s[0] == CR && s[1] == LF then [[]] + Lines(s[2..])
    else if s[0] == CR || s[0] == LF then [[]] + Lines(s[1..])
    else var rest := Lines(s[1..]); [[s[0]] + rest[0]] + rest[1..]
  }

  /** What is left of a text as it is written has no "\r", and the same lines. */
  lemma {:induction false} NormalizedKeepsLines(s: seq<unit>)
    ensures CR !in NormalizeNewlines(s) && Lines(NormalizeNewlines(s)) == Lines(s)
    decreases |s|
  {
    if s != [] {
      var pair := |s| > 1 && s[0] == CR && s[1] == LF;
      var rest := if pair then s[2..] else s[1..];
      var first := if pair then LF else s[0];
      NormalizedKeepsLines(rest);
      assert CrLfReplaced(s) == [first] + CrLfReplaced(rest);
      assert ([first] + CrLfReplaced(rest))[1..] == CrLfReplaced(rest);
      var head := if first == CR then LF else first;
      assert NormalizeNewlines(s) == [head] + NormalizeNewlines(rest);
      assert ([head] + NormalizeNewlines(rest))[1..] == NormalizeNewlines(rest);
    }
  }

  /** Only a text with a "\r" is changed, so what is written is never changed again. */
  lemma {:induction false} UnchangedWithoutReturns(s: seq<unit>)
    ensures NormalizeNewlines(s) == s <==> CR !in s
    ensures NormalizeNewlines(NormalizeNewlines(s)) == NormalizeNewlines(s)
  {
    NormalizedKeepsLines(s);
    if CR !in s { StaysWithoutReturns(s); }
    StaysWithoutReturns(NormalizeNewlines(s));
  }

  lemma {:induction false} StaysWithoutReturns(s: seq<unit>)
    requires CR !in s
    ensures CrLfReplaced(s) == s && CrReplaced(s) == s
  {
    if s != [] {
      assert s[0] in s;
      StaysWithoutReturns(s[1..]);
      assert s == [s[0]] + s[1..];
    }
  }

  /** `approxTokenCount`: the fewest tokens of four bytes that a text's bytes fit in. */
  function ApproxTokenCount(text: seq<unit>): (tokens: nat)
    ensures 4 * (tokens - 1) < ByteLength(text) <= 4 * tokens
  {
    (ByteLength(text) + APPROX_BYTES_PER_TOKEN - 1) / APPROX_BYTES_PER_TOKEN
  }

  method TruncateTextToByteBudget(content: seq<unit>, maxBytes: int) returns (r: TruncatedText)
    ensures TruncatesTo(NormalizeNewlines(content), if maxBytes > 0 then maxBytes else 0, r.text)
    ensures r.truncated <==> ByteLength(NormalizeNewlines(content)) > if maxBytes > 0 then maxBytes else 0
    ensures r.originalTokenCount ==
      if r.truncated then Some(ApproxTokenCount(NormalizeNewlines(content))) else None
  {
    var normalized := NormalizeNewlines(content);
    var boundedBytes := if maxBytes > 0 then maxBytes else 0;
    if ByteLength(normalized) <= boundedBytes {
      return TruncatedText(normalized, false, None);
    }
    var text := TruncateWithByteBudget(normalized, boundedBytes);
    r := TruncatedText(text, true, Some(ApproxTokenCount(normalized)));
  }

  /** `join("\n")`. */
  function Join(lines: seq<seq<unit>>): seq<unit> {
    if lines == [] then []
    else if |lines| == 1 then lines[0]
    else lines[0] + [LF] + Join(lines[1..])
  }

  /** A segment's lines, the last of them left out where it is empty. */
  function Parts(segment: seq<unit>): seq<seq<unit>> {
    var parts := Lines(NormalizeNewlines(segment));
    var kept := if parts[|parts| - 1] == [] then parts[..|parts| - 1] else parts;
    if kept == [] then [[]] else kept
  }

  /** The parts of all the segments that hold anything. */
  function AllParts(channels: seq<seq<unit>>): seq<seq<unit>> {
    if channels == [] then []
    else (if channels[0] == [] then [] else Parts(channels[0])) + AllParts(channels[1..])
  }

  /** `renderExecTextContent`. */
  function RenderExecTextContent(channels: seq<seq<unit>>): seq<unit> {
    Join(AllParts(channels))
  }

  /** A segment without the newline it may end with. */
  function Unended(segment: seq<unit>): seq<unit> {
    if segment != [] && segment[|segment| - 1] == LF then segment[..|segment| - 1] else segment
  }

  /** The segments that hold anything, as written and without their last newline. */
  function Segments(channels: seq<seq<unit>>): seq<seq<unit>> {
    if channels == [] then []
    else (if channels[0] == [] then [] else [Unended(NormalizeNewlines(channels[0]))]) + Segments(channels[1..])
  }

  lemma {:induction false} JoinOn(a: seq<seq<unit>>, b: seq<seq<unit>>)
    requires a != [] && b != []
    ensures Join(a + b) == Join(a) + [LF] + Join(b)
  {
    assert (a + b)[1..] == a[1..] + b;
    if |a| > 1 {
      JoinOn(a[1..], b);
      assert Join(a + b) == a[0] + [LF] + (Join(a[1..]) + [LF] + Join(b));
    } else {
      assert a[1..] + b == b;
    }
  }

  /** Splitting a text and joining its lines gives it back. */
  lemma {:induction false} JoinsLines(s: seq<unit>)
    requires CR !in s
    ensures Join(Lines(s)) == s
  {
    if s != [] {
      assert s[0] in s;
      JoinsLines(s[1..]);
      var rest := Lines(s[1..]);
      if s[0] == LF {
        assert ([[]] + rest)[1..] == rest;
      } else {
        JoinsFirst(s[0], rest);
      }
      assert s == [s[0]] + s[1..];
    }
  }

  lemma {:induction false} JoinsFirst(first: unit, lines: seq<seq<unit>>)
    requires lines != []
    ensures Join([[first] + lines[0]] + lines[1..]) == [first] + Join(lines)
  {
    var more := [[first] + lines[0]] + lines[1..];
    assert more[1..] == lines[1..];
    if |lines| > 1 {
      assert Join(more) == [first] + (lines[0] + [LF] + Join(lines[1..]));
    }
  }

  /** A text's last line is empty exactly where it is, or ends with a newline. */
  lemma {:induction false} LastLine(s: seq<unit>)
    requires CR !in s
    ensures var lines := Lines(s); lines[|lines| - 1] == [] <==> s == [] || s[|s| - 1] == LF
    ensures |Lines(s)| == 1 ==> LF !in s
  {
    if s != [] {
      assert s[0] in s;
      LastLine(s[1..]);
    }
  }

  lemma {:induction false} JoinsAllButLast(s: seq<unit>, lines: seq<seq<unit>>)
    requires CR !in s && lines == Lines(s) && lines[|lines| - 1] == [] && |lines| > 1
    ensures s == Join(lines[..|lines| - 1]) + [LF]
  {
    JoinsLines(s);
    JoinOn(lines[..|lines| - 1], [[]]);
    assert lines[..|lines| - 1] + [[]] == lines;
  }

  /** A segment's parts, joined, are the segment without its last newline. */
  lemma {:induction false} PartsJoin(segment: seq<unit>)
    requires segment != []
    ensures Join(Parts(segment)) == Unended(NormalizeNewlines(segment))
  {
    var s := NormalizeNewlines(segment);
    var lines := Lines(s);
    assert s != [];
    NormalizedKeepsLines(segment);
    LastLine(s);
    JoinsLines(s);
    if lines[|lines| - 1] == [] { JoinsAllButLast(s, lines); }
  }

  /** The content is its segments, each without its last newline, with one between each two. */
  lemma {:induction false} ContentJoinsSegments(channels: seq<seq<unit>>)
    ensures RenderExecTextContent(channels) == Join(Segments(channels))
    ensures AllParts(channels) == [] <==> Segments(channels) == []
  {
    if channels != [] {
      ContentJoinsSegments(channels[1..]);
      var parts, segments := AllParts(channels[1..]), Segments(channels[1..]);
      if channels[0] == [] {
        assert [] + parts == parts && [] + segments == segments;
      } else {
        var first := [Unended(NormalizeNewlines(channels[0]))];
        PartsJoin(channels[0]);
        if parts == [] {
          assert Parts(channels[0]) + parts == Parts(channels[0]) && first + segments == first;
        } else {
          JoinOn(Parts(channels[0]), parts);
          JoinOn(first, segments);
        }
      }
    }
  }

  function Normalized(channels: seq<seq<unit>>): seq<seq<unit>> {
    seq(|channels|, i requires 0 <= i < |channels| => NormalizeNewlines(channels[i]))
  }

  lemma {:induction false} StaysNormalized(channels: seq<seq<unit>>, i: nat)
    requires i < |channels|
    ensures NormalizeNewlines(Normalized(channels)[i]) == Normalized(channels)[i]
  {
    UnchangedWithoutReturns(channels[i]);
  }

  function ByteLengths(channels: seq<seq<unit>>): seq<nat> {
    seq(|channels|, i requires 0 <= i < |channels| => ByteLength(channels[i]))
  }

  /** Whether the channels so far are cut to their parts of the budget. */
  ghost predicate Projected(channels: seq<seq<unit>>, budgets: seq<nat>, texts: seq<seq<unit>>) {
    && |texts| <= |channels| && |channels| == |budgets|
    && (forall i | 0 <= i < |texts| ::
        budgets[i] <= ByteLength(channels[i]) && TruncatesTo(channels[i], budgets[i], texts[i]))
  }

  lemma {:induction false} ProjectedOn(channels: seq<seq<unit>>, budgets: seq<nat>, texts: seq<seq<unit>>,
      text: seq<unit>)
    requires Projected(channels, budgets, texts) && |texts| < |channels|
    requires budgets[|texts|] <= ByteLength(channels[|texts|]) && TruncatesTo(channels[|texts|], budgets[|texts|], text)
    ensures Projected(channels, budgets, texts + [text])
  {
  }

  /** How many bytes of each channel that keeps. */
  ghost function KeptBytes(channels: seq<seq<unit>>, budgets: seq<nat>, texts: seq<seq<unit>>): seq<nat>
    requires Projected(channels, budgets, texts)
  {
    seq(|texts|, i requires 0 <= i < |texts| => Kept(channels[i], budgets[i], texts[i]))
  }

  /** What a projection of over `maxBytes` bytes keeps: at most so many, and at most six a channel less. */
  ghost predicate KeepsWithin(channels: seq<seq<unit>>, budgets: seq<nat>, texts: seq<seq<unit>>, maxBytes: nat) {
    && Projected(channels, budgets, texts) && |texts| == |channels| && C.Sum(budgets) == maxBytes
    && var kept := C.Sum(KeptBytes(channels, budgets, texts));
      kept <= maxBytes <= kept + 6 * |channels|
  }

  /**
   * No limit but of 1 to 1,048,576 tokens is taken. All channels together keep at most the bytes
   * of the budget, and at most six each less than it; a channel that is given all its bytes is
   * kept whole. What all of it was is counted as its rendered content.
   */
  method ProjectExecText(channels: seq<seq<unit>>, maxOutputTokens: int)
    returns (r: Option<Projection>, ghost budgets: seq<nat>)
    ensures r.Some? <==> 1 <= maxOutputTokens <= 1_048_576
    ensures r.Some? ==>
      && (r.value.truncated <==> C.Sum(ByteLengths(Normalized(channels))) > 4 * maxOutputTokens)
      && (!r.value.truncated ==> r.value == Projection(Normalized(channels), false, None))
      && (r.value.truncated ==>
          && KeepsWithin(Normalized(channels), budgets, r.value.rendered, 4 * maxOutputTokens)
          && r.value.originalTokenCount == Some(ApproxTokenCount(RenderExecTextContent(Normalized(channels)))))
  {
    budgets := [];
    if maxOutputTokens < 1 || maxOutputTokens > MAX_SNAPSHOT_OUTPUT_TOKENS { return None, budgets; }
    var normalized := Normalized(channels);
    var byteLengths := ByteLengths(normalized);
    var maxBytes := APPROX_BYTES_PER_TOKEN * maxOutputTokens;
    if C.Sum(byteLengths) <= maxBytes {
      return Some(Projection(normalized, false, None)), budgets;
    }
    var projected, allocations := ProjectChannels(channels, normalized, byteLengths, maxBytes);
    budgets := allocations;
    r := Some(Projection(projected, true, Some(ApproxTokenCount(RenderExecTextContent(normalized)))));
  }

  method ProjectChannel(ghost channels: seq<seq<unit>>, normalized: seq<seq<unit>>, i: nat, budget: nat)
    returns (text: seq<unit>)
    requires normalized == Normalized(channels) && i < |normalized|
    ensures TruncatesTo(normalized[i], budget, text)
  {
    StaysNormalized(channels, i);
    var truncated := TruncateTextToByteBudget(normalized[i], budget);
    text := truncated.text;
  }

  /** Its end, for channels over their budget. */
  method ProjectChannels(
      ghost channels: seq<seq<unit>>, normalized: seq<seq<unit>>, byteLengths: seq<nat>, maxBytes: nat)
    returns (texts: seq<seq<unit>>, ghost budgets: seq<nat>)
    requires normalized == Normalized(channels) && byteLengths == ByteLengths(normalized)
    requires C.Sum(byteLengths) > maxBytes
    ensures KeepsWithin(normalized, budgets, texts, maxBytes)
  {
    var allocations := C.AllocateChannelBytes(byteLengths, maxBytes);
    texts, budgets := [], allocations;
    for i := 0 to |normalized|
      invariant |texts| == i && Projected(normalized, allocations, texts)
    {
      var text := ProjectChannel(channels, normalized, i, allocations[i]);
      ProjectedOn(normalized, allocations, texts, text);
      texts := texts + [text];
    }
    KeptSums(normalized, allocations, texts);
  }

  lemma {:induction false} KeptSums(channels: seq<seq<unit>>, budgets: seq<nat>, texts: seq<seq<unit>>)
    requires Projected(channels, budgets, texts) && |texts| == |channels|
    ensures var kept := C.Sum(KeptBytes(channels, budgets, texts));
      kept <= C.Sum(budgets) <= kept + 6 * |channels|
  {
    var kept := KeptBytes(channels, budgets, texts);
    forall i | 0 <= i < |kept| ensures kept[i] <= budgets[i] <= kept[i] + 6 {
      KeptWithin(channels[i], budgets[i], texts[i]);
    }
    SumWithin(kept, budgets);
  }

  lemma {:induction false} SumWithin(a: seq<nat>, b: seq<nat>)
    requires |a| == |b| && forall i | 0 <= i < |a| :: a[i] <= b[i] <= a[i] + 6
    ensures C.Sum(a) <= C.Sum(b) <= C.Sum(a) + 6 * |a|
  {
    if a != [] { SumWithin(a[..|a| - 1], b[..|b| - 1]); }
  }
}
