/**
 * The grammar of versions (packages/runtime-dotnet-script/src/paths.ts:13-41): which texts parse, and
 * to what, by how a version is written.
 */
module VersionGrammar {
  import opened Options
  import opened Versions

  /** Parts with a separator between each two. */
  function Joined(parts: seq<string>, separator: char): string
    requires parts != []
  {
    if |parts| == 1 then parts[0] else parts[0] + [separator] + Joined(parts[1..], separator)
  }

  predicate AreNumeric(parts: seq<string>) {
    parts != [] && forall part <- parts :: IsNumeric(part)
  }

  predicate AreAll(parts: seq<string>) {
    parts != [] && forall part <- parts :: IsIdentifier(part)
  }

  /** A version's core, its prerelease past a "-", and its build metadata past a "+". */
  function Written(core: seq<string>, prerelease: Option<seq<string>>, build: Option<seq<string>>): string
    requires core != [] && (prerelease.Some? ==> prerelease.value != []) && (build.Some? ==> build.value != [])
  {
    Joined(core, '.')
    + (if prerelease.Some? then ['-'] + Joined(prerelease.value, '.') else [])
    + (if build.Some? then ['+'] + Joined(build.value, '.') else [])
  }

  lemma {:induction false} IndexAfter(a: string, separator: char, b: string)
    requires separator !in a
    ensures IndexOf(a + [separator] + b, separator) == |a|
    ensures (a + [separator] + b)[..|a|] == a && (a + [separator] + b)[|a| + 1..] == b
  {
    var s := a + [separator] + b;
    assert s[|a|] == separator;
    forall k | 0 <= k < |a| ensures s[k] != separator { assert s[k] == a[k] && a[k] in a; }
  }

  lemma {:induction false} IndexNone(a: string, separator: char)
    requires separator !in a
    ensures IndexOf(a, separator) == |a| && Split(a, separator) == [a]
  {
    forall k | 0 <= k < |a| ensures a[k] != separator { assert a[k] in a; }
  }

  lemma {:induction false} SplitsFirst(a: string, separator: char, b: string)
    requires separator !in a
    ensures Split(a + [separator] + b, separator) == [a] + Split(b, separator)
  {
    IndexAfter(a, separator, b);
  }

  /** Splitting what is joined gives the parts. */
  lemma {:induction false} SplitsJoined(parts: seq<string>, separator: char)
    requires parts != [] && forall part <- parts :: separator !in part
    ensures Split(Joined(parts, separator), separator) == parts
  {
    if |parts| == 1 {
      IndexNone(parts[0], separator);
    } else {
      var rest := parts[1..];
      SplitsJoined(rest, separator);
      SplitsFirst(parts[0], separator, Joined(rest, separator));
      assert parts == [parts[0]] + rest;
    }
  }

  lemma {:induction false} JoinedOn(part: string, parts: seq<string>, separator: char)
    requires parts != []
    ensures Joined([part] + parts, separator) == part + [separator] + Joined(parts, separator)
  {
    assert ([part] + parts)[1..] == parts;
  }

  lemma {:induction false} CutAt(s: string, i: nat)
    requires i < |s|
    ensures s == s[..i] + [s[i]] + s[i + 1..]
  {
  }

  /** And joining what is split gives the text. */
  lemma {:induction false} JoinsSplit(s: string, separator: char)
    ensures Joined(Split(s, separator), separator) == s
    decreases |s|
  {
    var i := IndexOf(s, separator);
    if i < |s| {
      JoinsSplit(s[i + 1..], separator);
      JoinedOn(s[..i], Split(s[i + 1..], separator), separator);
      CutAt(s, i);
    }
  }

  lemma {:induction false} JoinedHas(parts: seq<string>, separator: char, c: char)
    requires parts != [] && c != separator && forall part <- parts :: c !in part
    ensures c !in Joined(parts, separator)
  {
    if |parts| > 1 { JoinedHas(parts[1..], separator, c); }
  }

  lemma {:induction false} NumericHas(part: string)
    requires IsNumeric(part)
    ensures '.' !in part && '-' !in part && '+' !in part
  {
    assert forall i | 0 <= i < |part| :: IsDigit(part[i]);
  }

  lemma {:induction false} IdentifierHas(part: string)
    requires IsIdentifier(part)
    ensures '.' !in part && '+' !in part
  {
    assert forall i | 0 <= i < |part| :: IsIdentifierChar(part[i]);
  }

  lemma {:induction false} CoreReads(core: seq<string>)
    requires AreNumeric(core)
    ensures var text := Joined(core, '.');
      Split(text, '.') == core && IsCore(text) && '-' !in text && '+' !in text
  {
    forall part <- core ensures '.' !in part && '-' !in part && '+' !in part { NumericHas(part); }
    SplitsJoined(core, '.');
    JoinedHas(core, '.', '-');
    JoinedHas(core, '.', '+');
  }

  lemma {:induction false} IdentifiersRead(parts: seq<string>)
    requires AreAll(parts)
    ensures var text := Joined(parts, '.');
      Split(text, '.') == parts && AreIdentifiers(text) && '+' !in text
  {
    forall part <- parts ensures '.' !in part && '+' !in part { IdentifierHas(part); }
    SplitsJoined(parts, '.');
    JoinedHas(parts, '.', '+');
  }

  /** A version as it is written without its build metadata. */
  function Unbuilt(core: seq<string>, prerelease: Option<seq<string>>): string
    requires core != [] && (prerelease.Some? ==> prerelease.value != [])
  {
    Joined(core, '.') + if prerelease.Some? then ['-'] + Joined(prerelease.value, '.') else []
  }

  /** What `parseVersion` makes of a version without its build metadata. */
  function ParsedUnbuilt(text: string): Option<Parsed> {
    var i := IndexOf(text, '-');
    if i == |text| then if IsCore(text) then Some(Parsed(Split(text, '.'), None)) else None
    else if IsCore(text[..i]) && AreIdentifiers(text[i + 1..])
      then Some(Parsed(Split(text[..i], '.'), Some(Split(text[i + 1..], '.')))) else None
  }

  lemma {:induction false} ParsesUnbuilt(core: seq<string>, prerelease: Option<seq<string>>)
    requires AreNumeric(core) && (prerelease.Some? ==> AreAll(prerelease.value))
    ensures ParsedUnbuilt(Unbuilt(core, prerelease)) == Some(Parsed(core, prerelease))
    ensures '+' !in Unbuilt(core, prerelease)
  {
    CoreReads(core);
    var text := Joined(core, '.');
    if prerelease.Some? {
      IdentifiersRead(prerelease.value);
      IndexAfter(text, '-', Joined(prerelease.value, '.'));
      assert Unbuilt(core, prerelease) == text + ['-'] + Joined(prerelease.value, '.');
    } else {
      IndexNone(text, '-');
      assert Unbuilt(core, prerelease) == text;
    }
  }

  lemma {:induction false} ParsesByParts(version: string, parts: seq<string>)
    requires parts == Split(version, '+')
    ensures ParseVersion(version) ==
      if |parts| > 2 || (|parts| == 2 && !AreIdentifiers(parts[1])) then None else ParsedUnbuilt(parts[0])
  {
  }

  lemma {:induction false} SplitsBuilt(unbuilt: string, text: string)
    requires '+' !in unbuilt && '+' !in text
    ensures Split(unbuilt + ['+'] + text, '+') == [unbuilt, text]
  {
    SplitsFirst(unbuilt, '+', text);
    IndexNone(text, '+');
  }

  lemma {:induction false} WrittenAsUnbuilt(core: seq<string>, prerelease: Option<seq<string>>,
      build: Option<seq<string>>)
    requires core != [] && (prerelease.Some? ==> prerelease.value != []) && (build.Some? ==> build.value != [])
    ensures Written(core, prerelease, build) ==
      if build.Some? then Unbuilt(core, prerelease) + ['+'] + Joined(build.value, '.') else Unbuilt(core, prerelease)
  {
    if build.Some? {
      assert Unbuilt(core, prerelease) + ['+'] + Joined(build.value, '.')
          == Unbuilt(core, prerelease) + (['+'] + Joined(build.value, '.'));
    } else {
      assert Unbuilt(core, prerelease) + [] == Unbuilt(core, prerelease);
    }
  }

  /** What is written as a version parses to its core and prerelease, whatever its build metadata. */
  lemma {:induction false} ParsesWritten(core: seq<string>, prerelease: Option<seq<string>>, build: Option<seq<string>>)
    requires AreNumeric(core) && (prerelease.Some? ==> AreAll(prerelease.value))
      && (build.Some? ==> AreAll(build.value))
    ensures ParseVersion(Written(core, prerelease, build)) == Some(Parsed(core, prerelease))
  {
    ParsesUnbuilt(core, prerelease);
    WrittenAsUnbuilt(core, prerelease, build);
    if build.Some? {
      IdentifiersRead(build.value);
      SplitsBuilt(Unbuilt(core, prerelease), Joined(build.value, '.'));
      ParsesByParts(Written(core, prerelease, build), [Unbuilt(core, prerelease), Joined(build.value, '.')]);
    } else {
      IndexNone(Unbuilt(core, prerelease), '+');
      ParsesByParts(Written(core, prerelease, build), [Unbuilt(core, prerelease)]);
    }
  }

  lemma {:induction false} UnbuiltIsWritten(text: string)
    requires ParsedUnbuilt(text).Some?
    ensures var p := ParsedUnbuilt(text).value;
      && AreNumeric(p.core) && (p.prerelease.Some? ==> AreAll(p.prerelease.value))
      && text == Unbuilt(p.core, p.prerelease)
  {
    var i := IndexOf(text, '-');
    if i < |text| {
      JoinsSplit(text[..i], '.');
      JoinsSplit(text[i + 1..], '.');
      assert text == text[..i] + (['-'] + text[i + 1..]);
    } else {
      JoinsSplit(text, '.');
      assert text + [] == text;
    }
  }

  /** And what parses is so written, so the versions are exactly the texts of that form. */
  lemma {:induction false} ParsedIsWritten(version: string) returns (build: Option<seq<string>>)
    requires ParseVersion(version).Some?
    ensures var p := ParseVersion(version).value;
      && AreNumeric(p.core) && (p.prerelease.Some? ==> AreAll(p.prerelease.value))
      && (build.Some? ==> AreAll(build.value)) && version == Written(p.core, p.prerelease, build)
  {
    var parts := Split(version, '+');
    ParsesByParts(version, parts);
    UnbuiltIsWritten(parts[0]);
    JoinsSplit(version, '+');
    build := BuildOf(parts);
    WrittenAsUnbuilt(ParseVersion(version).value.core, ParseVersion(version).value.prerelease, build);
  }

  lemma {:induction false} BuildOf(parts: seq<string>) returns (build: Option<seq<string>>)
    requires 1 <= |parts| <= 2 && (|parts| == 2 ==> AreIdentifiers(parts[1]))
    ensures build.Some? <==> |parts| == 2
    ensures build.Some? ==> AreAll(build.value) && Joined(parts, '+') == parts[0] + ['+'] + Joined(build.value, '.')
  {
    build := None;
    if |parts| == 2 {
      build := Some(Split(parts[1], '.'));
      JoinsSplit(parts[1], '.');
      assert parts[1..] == [parts[1]];
    }
  }
}
