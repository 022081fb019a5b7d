/**
 * packages/core/src/runtime/exec-markers.ts: what an exec prints, read line by line as it
 * comes, against the same read of the whole of it. The text holds no ANSI escape.
 */
module ExecMarkers {
  import opened Options
  import opened Chunks

  const MAX_REMAINDER: nat := 65_536 * 6 + 4_096

  datatype Envelope = Done | Message(payload: string)

  /** What marks an envelope's line, what its payload decodes to, and the prompts, trimmed. */
  datatype Protocol = Protocol(eventPrefix: string, decode: string -> Option<Envelope>, prompts: set<string>)

  /** JavaScript's white space and line terminators. */
  predicate IsSpace(c: char) {
    var code := c as int;
    9 <= code <= 13 || code == 32 || code == 160 || code == 0x1680 || 0x2000 <= code <= 0x200A
    || code == 0x2028 || code == 0x2029 || code == 0x202F || code == 0x205F || code == 0x3000 || code == 0xFEFF
  }

  function TrimEnd(s: string): string {
    if s == [] || !IsSpace(s[|s| - 1]) then s else TrimEnd(s[..|s| - 1])
  }

  function TrimStart(s: string): string {
    if s == [] || !IsSpace(s[0]) then s else TrimStart(s[1..])
  }

  function Trim(s: string): string {
    TrimStart(TrimEnd(s))
  }

  /** `parseEnvelopeLine`. */
  function Parse(p: Protocol, line: string): Option<Envelope> {
    var prefixIndex := IndexOf(line, p.eventPrefix);
    if prefixIndex == -1 then None else p.decode(Trim(line[prefixIndex + |p.eventPrefix|..]))
  }

  /** The mark is of one word, and of no prompt. */
  predicate Marked(p: Protocol) {
    && p.eventPrefix != "" && (forall c <- p.eventPrefix :: !IsSpace(c))
    && (forall prompt <- p.prompts :: IndexOf(prompt, p.eventPrefix) == -1)
  }

  predicate IsHex(c: char) {
    '0' <= c <= '9' || 'a' <= c <= 'f'
  }

  /** `buildMarkers`, of the 32 digits of its nonce. */
  function Marker(nonce: string): string {
    "__BAYMA_EVENT_" + nonce + "__"
  }

  lemma {:induction false} TrimShortens(s: string)
    ensures |TrimStart(s)| <= |s| && |TrimEnd(s)| <= |s|
    decreases |s|
  {
    if s != [] {
      TrimShortens(s[1..]);
      TrimShortens(s[..|s| - 1]);
    }
  }

  lemma {:induction false} MarkerIsWord(nonce: string)
    requires |nonce| == 32 && forall c <- nonce :: IsHex(c)
    ensures |Marker(nonce)| == 48 && forall c <- Marker(nonce) :: !IsSpace(c)
  {
    var head, tail := "__BAYMA_EVENT_", "__";
    assert |head| == 14 && |tail| == 2;
    forall c <- Marker(nonce) ensures !IsSpace(c) {
      assert c in head || c in nonce || c in tail;
      if c in nonce { assert IsHex(c); }
    }
  }

  /** A nonce's mark is of no prompt token shorter than it, and every runtime's is. */
  lemma {:induction false} MarkersMark(nonce: string, decode: string -> Option<Envelope>, tokens: set<string>)
    requires |nonce| == 32 && (forall c <- nonce :: IsHex(c)) && (forall token <- tokens :: |token| < 48)
    ensures Marked(Protocol(Marker(nonce), decode, set token <- tokens :: Trim(token)))
  {
    MarkerIsWord(nonce);
    forall token <- tokens ensures IndexOf(Trim(token), Marker(nonce)) == -1 {
      TrimShortens(token);
      TrimShortens(TrimEnd(token));
    }
  }

  /** Trimming cuts no word. */
  lemma {:induction false} WordStays(s: string, word: string)
    requires word != "" && (forall c <- word :: !IsSpace(c)) && IndexOf(s, word) >= 0
    ensures IndexOf(Trim(s), word) >= 0
  {
    WordStaysAtEnd(s, word);
    WordStaysAtStart(TrimEnd(s), word);
  }

  lemma {:induction false} WordStaysAtStart(s: string, word: string)
    requires word != "" && (forall c <- word :: !IsSpace(c)) && IndexOf(s, word) >= 0
    ensures IndexOf(TrimStart(s), word) >= 0
    decreases |s|
  {
    if s != [] && IsSpace(s[0]) {
      assert word[0] in word;
      assert !(word <= s);
      WordStaysAtStart(s[1..], word);
    }
  }

  lemma {:induction false} WordStaysAtEnd(s: string, word: string)
    requires word != "" && (forall c <- word :: !IsSpace(c)) && IndexOf(s, word) >= 0
    ensures IndexOf(TrimEnd(s), word) >= 0
    decreases |s|
  {
    if s != [] && IsSpace(s[|s| - 1]) {
      var i, before := IndexOf(s, word), s[..|s| - 1];
      IndexOfIsFirst(s, word, i);
      assert word == s[i..i + |word|] && word[|word| - 1] in word;
      assert i + |word| < |s|;
      assert before[i..i + |word|] == word;
      IndexOfIsFirst(before, word, i);
      WordStaysAtEnd(before, word);
    }
  }

  /** So no line is both an envelope's and a prompt. */
  lemma {:induction false} EnvelopesAreNoPrompts(p: Protocol, line: string)
    requires Marked(p) && Parse(p, line).Some?
    ensures !IsPrompt(p, line)
  {
    WordStays(line, p.eventPrefix);
  }

  /** `sanitizeTerminalText` on text without escapes. */
  function Sanitized(text: string): string {
    seq(|text|, i requires 0 <= i < |text| => if text[i] == '\r' then '\n' else text[i])
  }

  /** The lines of a text a newline ends. */
  function Ended(text: string): seq<string> {
    if text == [] then []
    else
      var before, last := text[..|text| - 1], text[|text| - 1];
      Ended(before) + if last == '\n' then [Unended(before)] else []
  }

  /** What follows a text's last newline. */
  function Unended(text: string): string {
    if text == [] then []
    else
      var before, last := text[..|text| - 1], text[|text| - 1];
      if last == '\n' then [] else Unended(before) + [last]
  }

  /** JavaScript's `split("\n")`. */
  function Split(text: string): seq<string> {
    Ended(text) + [Unended(text)]
  }

  /** Lines with a newline after each. */
  function AllEnded(lines: seq<string>): string {
    if lines == [] then [] else AllEnded(lines[..|lines| - 1]) + lines[|lines| - 1] + ['\n']
  }

  /** A text is its ended lines, each with its newline, and the unended one; no line holds a newline. */
  lemma {:induction false} TextIsItsLines(text: string)
    ensures AllEnded(Ended(text)) + Unended(text) == text
    ensures '\n' !in Unended(text) && forall line <- Ended(text) :: '\n' !in line
  {
    if text == [] {
      assert AllEnded([]) + [] == [];
    } else {
      var before, last := text[..|text| - 1], text[|text| - 1];
      TextIsItsLines(before);
      assert text == before + [last];
      if last == '\n' {
        assert (Ended(before) + [Unended(before)])[..|Ended(before)|] == Ended(before);
        assert AllEnded(Ended(text)) + [] == AllEnded(Ended(before)) + Unended(before) + ['\n'];
      } else {
        assert Ended(before) + [] == Ended(before);
        assert AllEnded(Ended(before)) + (Unended(before) + [last]) ==
          AllEnded(Ended(before)) + Unended(before) + [last];
      }
    }
  }

  /** A carriage return ends a line as a newline does, and all else is as it was. */
  lemma {:induction false} ReturnsEndLines(text: string)
    ensures |Sanitized(text)| == |text|
    ensures forall i | 0 <= i < |text| :: Sanitized(text)[i] == if text[i] in {'\r', '\n'} then '\n' else text[i]
    ensures forall line <- Split(Sanitized(text)) :: '\r' !in line && '\n' !in line
  {
    TextIsItsLines(Sanitized(text));
    forall line <- Split(Sanitized(text)) ensures '\r' !in line {
      LineIsOfText(Sanitized(text), line);
    }
  }

  lemma {:induction false} LineIsOfText(text: string, line: string)
    requires line in Split(text)
    ensures forall c <- line :: c in text
  {
    if text != [] {
      var before := text[..|text| - 1];
      assert forall c <- before :: c in text;
      LineIsOfText(before, Unended(before));
      if line in Ended(before) { LineIsOfText(before, line); }
    }
  }

  predicate AllSpace(s: string) {
    forall c <- s :: IsSpace(c)
  }

  /** Trimming takes all the white space there is at either end, and nothing else. */
  lemma {:induction false} TrimTakesSpace(s: string)
    ensures TrimEnd(s) <= s && AllSpace(s[|TrimEnd(s)|..])
    ensures TrimEnd(s) != "" ==> !IsSpace(TrimEnd(s)[|TrimEnd(s)| - 1])
  {
    if s != [] && IsSpace(s[|s| - 1]) {
      var before := s[..|s| - 1];
      TrimTakesSpace(before);
      assert s[|TrimEnd(s)|..] == before[|TrimEnd(s)|..] + [s[|s| - 1]];
    }
  }

  lemma {:induction false} TrimStartTakesSpace(s: string) returns (n: nat)
    ensures n <= |s| && TrimStart(s) == s[n..] && AllSpace(s[..n])
    ensures TrimStart(s) != "" ==> !IsSpace(TrimStart(s)[0])
  {
    if s == [] || !IsSpace(s[0]) {
      n := 0;
    } else {
      var m := TrimStartTakesSpace(s[1..]);
      n := m + 1;
      assert s[..n] == [s[0]] + s[1..][..m] && s[1..][m..] == s[n..];
    }
  }

  /** Lines trimmed at their end, but for those nothing is left of. */
  function Kept(lines: seq<string>): seq<string> {
    if lines == [] then []
    else Kept(lines[..|lines| - 1]) + One(lines[|lines| - 1])
  }

  function One(line: string): seq<string> {
    if TrimEnd(line) == "" then [] else [TrimEnd(line)]
  }

  /** The lines of a whole text. */
  function Lines(text: string): seq<string> {
    Kept(Split(Sanitized(text)))
  }

  predicate Fits(text: string) {
    forall line <- Split(Sanitized(text)) :: |line| <= MAX_REMAINDER
  }

  lemma {:induction false} UnendedHasNoLine(text: string)
    ensures Ended(Unended(text)) == [] && Unended(Unended(text)) == Unended(text)
    ensures |Unended(text)| <= |text|
  {
    if text != [] {
      UnendedHasNoLine(text[..|text| - 1]);
      var before, last := Unended(text[..|text| - 1]), text[|text| - 1];
      assert (before + [last])[..|before|] == before;
    }
  }

  /** Splitting on from the line no newline ends yet is splitting on in the text. */
  lemma {:induction false} SplitOn(a: string, b: string)
    ensures Ended(a + b) == Ended(a) + Ended(Unended(a) + b)
    ensures Unended(a + b) == Unended(Unended(a) + b)
    decreases |b|
  {
    if b == [] {
      assert a + b == a && Unended(a) + b == Unended(a);
      UnendedHasNoLine(a);
    } else {
      var before, last := b[..|b| - 1], b[|b| - 1];
      SplitOn(a, before);
      EndedOn(a, b);
      EndedOn(Unended(a), b);
      Reassociate(Ended(a), Ended(Unended(a) + before), if last == '\n' then [Unended(a + before)] else []);
    }
  }

  lemma {:induction false} Reassociate<T>(a: seq<T>, b: seq<T>, c: seq<T>)
    ensures (a + b) + c == a + (b + c)
  {
  }

  /** What one more character does to the lines of a text. */
  lemma {:induction false} EndedOn(a: string, b: string)
    requires b != []
    ensures var before, last := a + b[..|b| - 1], b[|b| - 1];
      && Ended(a + b) == Ended(before) + (if last == '\n' then [Unended(before)] else [])
      && Unended(a + b) == if last == '\n' then [] else Unended(before) + [last]
  {
    assert (a + b)[..|a + b| - 1] == a + b[..|b| - 1];
  }

  lemma {:induction false} KeptOn(a: seq<string>, b: seq<string>)
    ensures Kept(a + b) == Kept(a) + Kept(b)
    decreases |b|
  {
    if b == [] {
      assert a + b == a;
    } else {
      KeptOn(a, b[..|b| - 1]);
      assert (a + b)[..|a + b| - 1] == a + b[..|b| - 1];
      Reassociate(Kept(a), Kept(b[..|b| - 1]), One(b[|b| - 1]));
    }
  }

  lemma {:induction false} SanitizedOn(a: string, b: string)
    ensures Sanitized(a + b) == Sanitized(a) + Sanitized(b)
  {
  }

  /** A text's lines so far are lines of the longer text, but the last, which may go on. */
  lemma {:induction false} FitsSoFar(a: string, b: string)
    requires forall line <- Split(a + b) :: |line| <= MAX_REMAINDER
    ensures forall line <- Split(a) :: |line| <= MAX_REMAINDER
    decreases |b|
  {
    if b == [] {
      assert a + b == a;
    } else {
      var before := b[..|b| - 1];
      assert (a + b)[..|a + b| - 1] == a + before;
      assert forall line <- Ended(a + before) :: line in Split(a + b);
      var last := Unended(a + before);
      assert last in Split(a + b) || last + [b[|b| - 1]] in Split(a + b);
      FitsSoFar(a, before);
    }
  }

  predicate IsDone(p: Protocol, line: string) {
    Parse(p, line) == Some(Done)
  }

  predicate IsPrompt(p: Protocol, line: string) {
    Trim(line) in p.prompts
  }

  function MessageOf(p: Protocol, line: string): seq<Envelope> {
    var envelope := Parse(p, line);
    if envelope.Some? && envelope.value.Message? then [envelope.value] else []
  }

  /** The messages of `lines`, in order. */
  function Messages(p: Protocol, lines: seq<string>): seq<Envelope> {
    if lines == [] then []
    else Messages(p, lines[..|lines| - 1]) + MessageOf(p, lines[|lines| - 1])
  }

  /** A message is one line's, and a done line's envelope none. */
  lemma {:induction false} MessagesExactly(p: Protocol, line: string, payload: string)
    ensures Message(payload) in MessageOf(p, line) <==> Parse(p, line) == Some(Message(payload))
    ensures Done !in MessageOf(p, line) && |MessageOf(p, line)| <= 1
  {
  }

  predicate SawDone(p: Protocol, lines: seq<string>) {
    exists line <- lines :: IsDone(p, line)
  }

  /** Whether a prompt follows a done line: all that the whole window is asked. */
  predicate PromptAfterDone(p: Protocol, lines: seq<string>) {
    exists j :: 0 <= j < |lines| && IsPrompt(p, lines[j]) && SawDone(p, lines[..j])
  }

  /** Whether one that is no done line itself does: the collector takes a done line for no prompt. */
  predicate PlainPromptAfterDone(p: Protocol, lines: seq<string>) {
    exists j :: 0 <= j < |lines| && IsPrompt(p, lines[j]) && !IsDone(p, lines[j]) && SawDone(p, lines[..j])
  }

  /** What the collector answers, having read `lines` and with `unended` not yet a line. */
  predicate Answer(p: Protocol, lines: seq<string>, unended: string) {
    || PlainPromptAfterDone(p, lines)
    || (SawDone(p, lines) && TrimEnd(unended) != "" && IsPrompt(p, TrimEnd(unended)))
  }

  lemma {:induction false} SawDoneOn(p: Protocol, lines: seq<string>, line: string)
    ensures SawDone(p, lines + [line]) <==> SawDone(p, lines) || IsDone(p, line)
  {
    if IsDone(p, line) { assert line in lines + [line]; }
    if SawDone(p, lines) {
      var l :| l in lines && IsDone(p, l);
      assert l in lines + [line];
    }
  }

  lemma {:induction false} PromptsOn(p: Protocol, lines: seq<string>, line: string)
    ensures PromptAfterDone(p, lines + [line]) <==>
      PromptAfterDone(p, lines) || (IsPrompt(p, line) && SawDone(p, lines))
    ensures PlainPromptAfterDone(p, lines + [line]) <==>
      PlainPromptAfterDone(p, lines) || (IsPrompt(p, line) && !IsDone(p, line) && SawDone(p, lines))
  {
    var more := lines + [line];
    assert more[|lines|] == line && more[..|lines|] == lines;
    assert forall j | 0 <= j < |lines| :: more[j] == lines[j] && more[..j] == lines[..j];
  }

  lemma {:induction false} MessagesOfOne(p: Protocol, line: string)
    ensures Messages(p, [line]) == MessageOf(p, line)
  {
    assert [line][..0] == [] && Messages(p, []) == [];
  }

  /** Whether a done line, or none where it is -1, is the first of some lines. */
  predicate FirstDone(p: Protocol, lines: seq<string>, doneIndex: int) {
    if doneIndex == -1 then !SawDone(p, lines)
    else 0 <= doneIndex < |lines| && IsDone(p, lines[doneIndex]) && !SawDone(p, lines[..doneIndex])
  }

  lemma {:induction false} FirstDoneOn(p: Protocol, lines: seq<string>, line: string, doneIndex: int)
    requires FirstDone(p, lines, doneIndex)
    ensures FirstDone(p, lines + [line], if doneIndex == -1 && IsDone(p, line) then |lines| else doneIndex)
  {
    SawDoneOn(p, lines, line);
    assert (lines + [line])[..|lines|] == lines;
    if doneIndex >= 0 { assert (lines + [line])[..doneIndex] == lines[..doneIndex]; }
  }

  lemma {:induction false} MessagesOn(p: Protocol, a: seq<string>, b: seq<string>)
    ensures Messages(p, a + b) == Messages(p, a) + Messages(p, b)
    decreases |b|
  {
    if b == [] {
      assert a + b == a;
    } else {
      MessagesOn(p, a, b[..|b| - 1]);
      assert (a + b)[..|a + b| - 1] == a + b[..|b| - 1];
    }
  }

  lemma {:induction false} MessagesNext(p: Protocol, lines: seq<string>, i: nat)
    requires i < |lines|
    ensures lines[..i + 1] == lines[..i] + [lines[i]]
    ensures Messages(p, lines[..i + 1]) == Messages(p, lines[..i]) + Messages(p, [lines[i]])
  {
    assert lines[..i + 1] == lines[..i] + [lines[i]];
    MessagesOn(p, lines[..i], [lines[i]]);
  }

  lemma {:induction false} LinesOn(p: Protocol, lines: seq<string>, i: nat, doneIndex: int)
    requires i < |lines| && FirstDone(p, lines[..i], doneIndex)
    ensures FirstDone(p, lines[..i + 1], if doneIndex == -1 && IsDone(p, lines[i]) then i else doneIndex)
    ensures Messages(p, lines[..i + 1]) == Messages(p, lines[..i]) + MessageOf(p, lines[i])
  {
    MessagesNext(p, lines, i);
    FirstDoneOn(p, lines[..i], lines[i], doneIndex);
    MessagesOfOne(p, lines[i]);
  }

  /** What the window's loop makes of a line. */
  method ReadEnvelope(p: Protocol, line: string, index: nat, last: int, before: seq<Envelope>)
    returns (doneIndex: int, envelopes: seq<Envelope>)
    ensures doneIndex == if last == -1 && IsDone(p, line) then index else last
    ensures envelopes == before + MessageOf(p, line)
  {
    doneIndex, envelopes := last, before;
    var envelope := Parse(p, line);
    if envelope.None? { return; }
    if envelope.value.Done? {
      if doneIndex == -1 { doneIndex := index; }
      return;
    }
    envelopes := envelopes + [envelope.value];
  }

  /** The first done line's index, and the messages, of all the lines. */
  method ReadEnvelopes(p: Protocol, lines: seq<string>) returns (doneIndex: int, envelopes: seq<Envelope>)
    ensures FirstDone(p, lines, doneIndex)
    ensures envelopes == Messages(p, lines)
  {
    envelopes := [];
    doneIndex := -1;
    for i := 0 to |lines|
      invariant envelopes == Messages(p, lines[..i])
      invariant FirstDone(p, lines[..i], doneIndex)
    {
      LinesOn(p, lines, i, doneIndex);
      doneIndex, envelopes := ReadEnvelope(p, lines[i], i, doneIndex, envelopes);
    }
    assert lines[..|lines|] == lines;
  }

  /** The first prompt past an index, or -1. */
  method FindPrompt(p: Protocol, lines: seq<string>, doneIndex: nat) returns (index: int)
    requires doneIndex < |lines|
    ensures index == -1 || (doneIndex < index < |lines| && IsPrompt(p, lines[index]))
    ensures index == -1 ==> forall j | doneIndex < j < |lines| :: !IsPrompt(p, lines[j])
  {
    index := doneIndex + 1;
    while index < |lines|
      invariant doneIndex < index <= |lines|
      invariant forall j | doneIndex < j < index :: !IsPrompt(p, lines[j])
    {
      if IsPrompt(p, lines[index]) { return; }
      index := index + 1;
    }
    index := -1;
  }

  /** Prompts past the first done line are all that count. */
  lemma {:induction false} PastFirstDone(p: Protocol, lines: seq<string>, doneIndex: nat)
    requires FirstDone(p, lines, doneIndex)
    ensures PromptAfterDone(p, lines) <==> exists j :: doneIndex < j < |lines| && IsPrompt(p, lines[j])
  {
    forall j | 0 <= j < |lines|
      ensures SawDone(p, lines[..j]) <==> doneIndex < j
    {
      if doneIndex < j {
        assert lines[doneIndex] in lines[..j];
      } else {
        assert forall line <- lines[..j] :: line in lines[..doneIndex];
      }
    }
  }

  /** `parseExecWindow`, over all the lines of a window. */
  method ParseExecWindow(p: Protocol, lines: seq<string>) returns (done: bool, envelopes: seq<Envelope>)
    ensures done <==> PromptAfterDone(p, lines)
    ensures envelopes == Messages(p, lines)
  {
    var doneIndex, promptAfterDone := -1, -1;
    doneIndex, envelopes := ReadEnvelopes(p, lines);
    if doneIndex == -1 {
      assert forall j, line | 0 <= j < |lines| && line in lines[..j] :: line in lines;
      return false, envelopes;
    }
    promptAfterDone := FindPrompt(p, lines, doneIndex);
    PastFirstDone(p, lines, doneIndex);
    done := promptAfterDone != -1;
  }

  /** What one more line makes of what the collector goes by. */
  lemma {:induction false} LineReadOn(p: Protocol, read: seq<string>, line: string)
    ensures SawDone(p, read + [line]) == (SawDone(p, read) || IsDone(p, line))
    ensures PlainPromptAfterDone(p, read + [line]) ==
      (PlainPromptAfterDone(p, read) || (SawDone(p, read) && !IsDone(p, line) && IsPrompt(p, line)))
    ensures Messages(p, [line]) == MessageOf(p, line)
  {
    SawDoneOn(p, read, line);
    PromptsOn(p, read, line);
    MessagesOfOne(p, line);
  }

  class Utf8LineProjector {
    var remainder: string

    constructor ()
      ensures remainder == ""
    {
      remainder := "";
    }

    method Push(text: string) returns (lines: seq<string>)
      modifies this
      ensures lines == Kept(Ended(old(remainder) + Sanitized(text)))
      ensures remainder == Tail(Unended(old(remainder) + Sanitized(text)), MAX_REMAINDER)
    {
      remainder := remainder + Sanitized(text);
      var split := Split(remainder);
      remainder := split[|split| - 1];
      if |remainder| > MAX_REMAINDER { remainder := remainder[|remainder| - MAX_REMAINDER..]; }
      lines := Kept(split[..|split| - 1]);
    }

    method PreviewLines() returns (lines: seq<string>)
      ensures lines == One(remainder)
    {
      var tail := TrimEnd(remainder);
      lines := if tail == "" then [] else [tail];
    }

    method Finish() returns (lines: seq<string>)
      modifies this
      ensures lines == One(old(remainder)) && remainder == ""
    {
      lines := PreviewLines();
      remainder := "";
    }
  }

  /** `read` is every line the collector consumed. */
  class Collector {
    const protocol: Protocol
    const projector: Utf8LineProjector
    var sawDone: bool
    var sawPromptAfterDone: bool
    var pending: seq<Envelope>
    ghost var read: seq<string>

    ghost predicate Valid()
      reads this
    {
      && sawDone == SawDone(protocol, read)
      && sawPromptAfterDone == PlainPromptAfterDone(protocol, read)
    }

    constructor (protocol: Protocol)
      ensures Valid() && this.protocol == protocol && read == [] && pending == []
      ensures fresh(projector) && projector.remainder == ""
    {
      this.protocol := protocol;
      projector := new Utf8LineProjector();
      sawDone, sawPromptAfterDone, pending, read := false, false, [], [];
    }

    /** `consumeLine`. */
    method Consume(line: string)
      modifies this`sawDone, this`sawPromptAfterDone, this`pending
      ensures sawDone == (old(sawDone) || IsDone(protocol, line))
      ensures sawPromptAfterDone ==
        (old(sawPromptAfterDone) || (old(sawDone) && !IsDone(protocol, line) && IsPrompt(protocol, line)))
      ensures pending == old(pending) + MessageOf(protocol, line)
    {
      var envelope := Parse(protocol, line);
      if envelope.Some? && envelope.value.Done? {
        sawDone := true;
        return;
      }
      if envelope.Some? { pending := pending + [envelope.value]; }
      if sawDone && Trim(line) in protocol.prompts { sawPromptAfterDone := true; }
    }

    method ConsumeLine(line: string)
      requires Valid()
      modifies this
      ensures Valid() && read == old(read) + [line]
      ensures pending == old(pending) + Messages(protocol, [line])
    {
      LineReadOn(protocol, read, line);
      Consume(line);
      read := read + [line];
    }

    method ConsumeLines(lines: seq<string>)
      requires Valid()
      modifies this
      ensures Valid() && read == old(read) + lines
      ensures pending == old(pending) + Messages(protocol, lines)
    {
      for i := 0 to |lines|
        invariant Valid() && read == old(read) + lines[..i]
        invariant pending == old(pending) + Messages(protocol, lines[..i])
      {
        MessagesNext(protocol, lines, i);
        ConsumeLine(lines[i]);
      }
      assert lines[..|lines|] == lines;
    }

    /** What a push or the end answers: what is pending, and whether the exec is done. */
    method Snapshot(preview: seq<string>) returns (done: bool, envelopes: seq<Envelope>)
      requires Valid()
      modifies this
      ensures Valid() && read == old(read) && pending == [] && envelopes == old(pending)
      ensures done <==>
        || PlainPromptAfterDone(protocol, read)
        || (SawDone(protocol, read) && exists line <- preview :: IsPrompt(protocol, line))
    {
      envelopes := pending;
      pending := [];
      done := sawPromptAfterDone || (sawDone && exists line <- preview :: Trim(line) in protocol.prompts);
    }

    method Push(text: string) returns (done: bool, envelopes: seq<Envelope>)
      requires Valid() && pending == []
      modifies this, projector
      ensures Valid() && pending == []
      ensures read == old(read) + Kept(Ended(old(projector.remainder) + Sanitized(text)))
      ensures projector.remainder == Tail(Unended(old(projector.remainder) + Sanitized(text)), MAX_REMAINDER)
      ensures envelopes == Messages(protocol, Kept(Ended(old(projector.remainder) + Sanitized(text))))
      ensures done <==> Answer(protocol, read, projector.remainder)
    {
      var lines := projector.Push(text);
      ConsumeLines(lines);
      var preview := projector.PreviewLines();
      done, envelopes := Snapshot(preview);
    }

    method Finish() returns (done: bool, envelopes: seq<Envelope>)
      requires Valid() && pending == []
      modifies this, projector
      ensures Valid() && pending == [] && read == old(read) + One(old(projector.remainder))
      ensures envelopes == Messages(protocol, One(old(projector.remainder)))
      ensures done <==> PlainPromptAfterDone(protocol, read)
    {
      var lines := projector.Finish();
      ConsumeLines(lines);
      done, envelopes := Snapshot([]);
    }
  }

  /** The lines a text ends, and what a push of it so far answers. */
  function EndedLines(text: string): seq<string> {
    Kept(Ended(Sanitized(text)))
  }

  predicate DoneSoFar(p: Protocol, text: string) {
    Answer(p, EndedLines(text), Unended(Sanitized(text)))
  }

  lemma {:induction false} LinesAreEndedAndLast(text: string)
    ensures Lines(text) == EndedLines(text) + One(Unended(Sanitized(text)))
  {
    var last := Unended(Sanitized(text));
    KeptOn(Ended(Sanitized(text)), [last]);
    assert Kept([]) == [] && Kept([last]) == One(last);
  }

  /** One more chunk, read on from the line no newline ended, ends the lines the text then has. */
  lemma {:induction false} ReadsOn(a: string, b: string)
    ensures var read := Unended(Sanitized(a)) + Sanitized(b);
      && EndedLines(a + b) == EndedLines(a) + Kept(Ended(read))
      && Unended(Sanitized(a + b)) == Unended(read)
  {
    SanitizedOn(a, b);
    SplitOn(Sanitized(a), Sanitized(b));
    KeptOn(Ended(Sanitized(a)), Ended(Unended(Sanitized(a)) + Sanitized(b)));
  }

  lemma {:induction false} FitsBefore(a: string, b: string)
    requires Fits(a + b)
    ensures Fits(a) && |Unended(Sanitized(a))| <= MAX_REMAINDER
  {
    SanitizedOn(a, b);
    FitsSoFar(Sanitized(a), Sanitized(b));
    assert Unended(Sanitized(a)) in Split(Sanitized(a));
  }

  lemma {:induction false} FitsSoFarOf(chunks: seq<string>, i: nat)
    requires i <= |chunks| && Fits(Concat(chunks))
    ensures Fits(Concat(chunks[..i])) && |Unended(Sanitized(Concat(chunks[..i])))| <= MAX_REMAINDER
    decreases |chunks| - i
  {
    ConcatAll(chunks);
    if i < |chunks| {
      FitsSoFarOf(chunks, i + 1);
      ConcatNext(chunks, i);
      FitsBefore(Concat(chunks[..i]), chunks[i]);
    } else {
      assert Concat(chunks[..i]) + [] == Concat(chunks);
      FitsBefore(Concat(chunks), []);
    }
  }

  /** Whether the collector has read a text, its last line not yet ended. */
  ghost predicate HasRead(c: Collector, text: string)
    reads c, c.projector
  {
    && c.Valid() && c.pending == [] && c.read == EndedLines(text)
    && c.projector.remainder == Unended(Sanitized(text))
  }

  method ReadMore(c: Collector, ghost before: string, text: string) returns (done: bool, envelopes: seq<Envelope>)
    requires HasRead(c, before) && Fits(before + text)
    modifies c, c.projector
    ensures HasRead(c, before + text)
    ensures done <==> DoneSoFar(c.protocol, before + text)
    ensures Messages(c.protocol, EndedLines(before + text)) == Messages(c.protocol, EndedLines(before)) + envelopes
  {
    ghost var read := c.projector.remainder + Sanitized(text);
    ReadsOn(before, text);
    MessagesOn(c.protocol, EndedLines(before), Kept(Ended(read)));
    assert before + text + [] == before + text;
    FitsBefore(before + text, []);
    done, envelopes := c.Push(text);
  }

  method ReadEnd(c: Collector, ghost before: string) returns (done: bool, envelopes: seq<Envelope>)
    requires HasRead(c, before)
    modifies c, c.projector
    ensures done <==> PlainPromptAfterDone(c.protocol, Lines(before))
    ensures Messages(c.protocol, Lines(before)) == Messages(c.protocol, EndedLines(before)) + envelopes
  {
    LinesAreEndedAndLast(before);
    MessagesOn(c.protocol, EndedLines(before), One(c.projector.remainder));
    done, envelopes := c.Finish();
  }

  /** Whether each of `dones` is the answer of the stream's lines up to its chunk. */
  ghost predicate Answered(p: Protocol, chunks: seq<string>, dones: seq<bool>) {
    |dones| <= |chunks| && forall i | 0 <= i < |dones| :: AnsweredAt(p, chunks, dones, i)
  }

  ghost predicate AnsweredAt(p: Protocol, chunks: seq<string>, dones: seq<bool>, i: nat)
    requires i < |dones| <= |chunks|
  {
    dones[i] <==> DoneSoFar(p, Concat(chunks[..i + 1]))
  }

  /** Whether each of `dones` is what the whole window of what came so far is asked. */
  ghost predicate AnsweredAsWindows(p: Protocol, chunks: seq<string>, dones: seq<bool>) {
    |dones| <= |chunks| && forall i | 0 <= i < |dones| :: AnsweredAsWindow(p, chunks, dones, i)
  }

  ghost predicate AnsweredAsWindow(p: Protocol, chunks: seq<string>, dones: seq<bool>, i: nat)
    requires i < |dones| <= |chunks|
  {
    dones[i] <==> PromptAfterDone(p, Lines(Concat(chunks[..i + 1])))
  }

  /** What the first `i` chunks of a stream come to: the envelopes handed out, and the answers. */
  ghost predicate Collected(p: Protocol, chunks: seq<string>, i: nat, handed: seq<Envelope>, dones: seq<bool>) {
    && i <= |chunks| && handed == Messages(p, EndedLines(Concat(chunks[..i])))
    && |dones| == i && Answered(p, chunks, dones)
  }

  lemma {:induction false} AnsweredOn(p: Protocol, chunks: seq<string>, dones: seq<bool>, done: bool)
    requires Answered(p, chunks, dones) && |dones| < |chunks|
    requires done <==> DoneSoFar(p, Concat(chunks[..|dones| + 1]))
    ensures Answered(p, chunks, dones + [done])
  {
    forall i | 0 <= i < |dones| + 1 ensures AnsweredAt(p, chunks, dones + [done], i) {
      if i < |dones| { assert AnsweredAt(p, chunks, dones, i); }
    }
  }

  lemma {:induction false} CollectedOn(p: Protocol, chunks: seq<string>, i: nat,
                                       handed: seq<Envelope>, dones: seq<bool>, done: bool, more: seq<Envelope>)
    requires Collected(p, chunks, i, handed, dones) && i < |chunks|
    requires done <==> DoneSoFar(p, Concat(chunks[..i + 1]))
    requires Messages(p, EndedLines(Concat(chunks[..i + 1]))) == Messages(p, EndedLines(Concat(chunks[..i]))) + more
    ensures Collected(p, chunks, i + 1, handed + more, dones + [done])
  {
    AnsweredOn(p, chunks, dones, done);
  }

  /** Every answer is that of the whole window of what came so far. */
  lemma {:induction false} AnswersAreTheWindows(p: Protocol, text: string)
    requires Marked(p)
    ensures PlainPromptAfterDone(p, Lines(text)) <==> PromptAfterDone(p, Lines(text))
    ensures DoneSoFar(p, text) <==> PromptAfterDone(p, Lines(text))
  {
    LinesAreEndedAndLast(text);
    var last := One(Unended(Sanitized(text)));
    if last != [] {
      assert Lines(text) == EndedLines(text) + [last[0]];
      PromptsOn(p, EndedLines(text), last[0]);
    } else {
      assert Lines(text) == EndedLines(text);
    }
    PromptsArePlain(p, EndedLines(text));
    PromptsArePlain(p, Lines(text));
  }

  lemma {:induction false} PromptsArePlain(p: Protocol, lines: seq<string>)
    requires Marked(p)
    ensures PlainPromptAfterDone(p, lines) <==> PromptAfterDone(p, lines)
  {
    if PromptAfterDone(p, lines) {
      var j :| 0 <= j < |lines| && IsPrompt(p, lines[j]) && SawDone(p, lines[..j]);
      if IsDone(p, lines[j]) { EnvelopesAreNoPrompts(p, lines[j]); }
    }
  }

  lemma {:induction false} AllAnswersAreTheWindows(p: Protocol, chunks: seq<string>, dones: seq<bool>)
    requires Marked(p) && Answered(p, chunks, dones)
    ensures AnsweredAsWindows(p, chunks, dones)
  {
    forall i | 0 <= i < |dones| ensures AnsweredAsWindow(p, chunks, dones, i) {
      assert AnsweredAt(p, chunks, dones, i);
      AnswersAreTheWindows(p, Concat(chunks[..i + 1]));
    }
  }

  /**
   * Every chunk of a stream collected in turn, and its end: however the stream is cut, the
   * envelopes handed out are its lines' messages, each once and in order, and every answer is
   * the whole window's of what came so far.
   */
  method CollectAll(p: Protocol, chunks: seq<string>) returns (handed: seq<Envelope>, dones: seq<bool>, done: bool)
    requires Fits(Concat(chunks))
    ensures handed == Messages(p, Lines(Concat(chunks)))
    ensures |dones| == |chunks| && Answered(p, chunks, dones)
    ensures done <==> PlainPromptAfterDone(p, Lines(Concat(chunks)))
    ensures Marked(p) ==> AnsweredAsWindows(p, chunks, dones) && (done <==> PromptAfterDone(p, Lines(Concat(chunks))))
  {
    var collector := new Collector(p);
    handed, dones := [], [];
    for i := 0 to |chunks|
      invariant fresh(collector) && fresh(collector.projector) && collector.protocol == p
      invariant HasRead(collector, Concat(chunks[..i])) && Collected(p, chunks, i, handed, dones)
    {
      ConcatNext(chunks, i);
      FitsSoFarOf(chunks, i + 1);
      var answer, more := ReadMore(collector, Concat(chunks[..i]), chunks[i]);
      CollectedOn(p, chunks, i, handed, dones, answer, more);
      handed, dones := handed + more, dones + [answer];
    }
    ConcatAll(chunks);
    var last, more := ReadEnd(collector, Concat(chunks));
    handed, done := handed + more, last;
    if Marked(p) {
      AllAnswersAreTheWindows(p, chunks, dones);
      AnswersAreTheWindows(p, Concat(chunks));
    }
  }
}
