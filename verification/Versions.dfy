/**
 * The version order of packages/runtime-dotnet-script/src/paths.ts, and what it refines: precedence
 * as section 11 of Semantic Versioning 2.0.0 has it, for any number of core parts and with
 * leading zeros. `localeCompare` is a parameter, as its order is the platform's.
 */
module Versions {
  import opened Options

  type Compare = (string, string) -> int

  datatype Parsed = Parsed(core: seq<string>, prerelease: Option<seq<string>>)

  predicate IsDigit(c: char) {
    '0' <= c <= '9'
  }

  predicate IsIdentifierChar(c: char) {
    IsDigit(c) || 'A' <= c <= 'Z' || 'a' <= c <= 'z' || c == '-'
  }

  /** `/^\d+$/`. */
  predicate IsNumeric(s: string) {
    s != "" && forall i | 0 <= i < |s| :: IsDigit(s[i])
  }

  predicate IsIdentifier(s: string) {
    s != "" && forall i | 0 <= i < |s| :: IsIdentifierChar(s[i])
  }

  function IndexOf(s: string, c: char): (i: nat)
    ensures i <= |s| && (i < |s| ==> s[i] == c) && forall k | 0 <= k < i :: s[k] != c
  {
    if s == "" || s[0] == c then 0 else 1 + IndexOf(s[1..], c)
  }

  function Split(s: string, separator: char): (parts: seq<string>)
    ensures parts != []
    decreases |s|
  {
    var i := IndexOf(s, separator);
    if i == |s| then [s] else [s[..i]] + Split(s[i + 1..], separator)
  }

  /** `/^\d+(?:\.\d+)*$/`. */
  predicate IsCore(text: string) {
    forall part <- Split(text, '.') :: IsNumeric(part)
  }

  /** `/^[0-9A-Za-z-]+(?:\.[0-9A-Za-z-]+)*$/`. */
  predicate AreIdentifiers(text: string) {
    forall part <- Split(text, '.') :: IsIdentifier(part)
  }

  function ParseVersion(version: string): (parsed: Option<Parsed>)
    ensures parsed.Some? ==> forall part <- parsed.value.core :: IsNumeric(part)
  {
    var buildParts := Split(version, '+');
    if |buildParts| > 2 || (|buildParts| == 2 && !AreIdentifiers(buildParts[1])) then None
    else
      var withoutBuild := buildParts[0];
      var prereleaseIndex := IndexOf(withoutBuild, '-');
      if prereleaseIndex == |withoutBuild| then
        if IsCore(withoutBuild) then Some(Parsed(Split(withoutBuild, '.'), None)) else None
      else
        var coreText, prereleaseText := withoutBuild[..prereleaseIndex], withoutBuild[prereleaseIndex + 1..];
        if IsCore(coreText) && AreIdentifiers(prereleaseText)
        then Some(Parsed(Split(coreText, '.'), Some(Split(prereleaseText, '.')))) else None
  }

  predicate IsValid(version: string) {
    ParseVersion(version).Some?
  }

  function Sign(n: int): int {
    if n < 0 then -1 else if n > 0 then 1 else 0
  }

  /** `localeCompare`, of different strings, decides. */
  ghost predicate IsTotalOrder(locale: Compare) {
    && (forall a, b :: Sign(locale(a, b)) == -Sign(locale(b, a)))
    && (forall a, b :: locale(a, b) == 0 ==> a == b)
    && (forall a, b, c :: locale(a, b) <= 0 && locale(b, c) <= 0 ==> locale(a, c) <= 0)
  }

  /** The order of two strings of one length by their characters. */
  function CharOrder(a: string, b: string): int {
    if a == "" || b == "" then Sign(|a| - |b|)
    else if a[0] != b[0] then Sign(a[0] as int - b[0] as int)
    else CharOrder(a[1..], b[1..])
  }

  /** And it has digits in their order. */
  ghost predicate OrdersDigits(locale: Compare) {
    forall a, b :: IsNumeric(a) && IsNumeric(b) && |a| == |b| ==> Sign(locale(a, b)) == CharOrder(a, b)
  }

  /** `replace(/^0+(?=\d)/, "")`. */
  function Stripped(s: string): string {
    if |s| > 1 && s[0] == '0' && IsDigit(s[1]) then Stripped(s[1..]) else s
  }

  function CompareNumericIdentifiers(left: string, right: string, locale: Compare): int {
    var normalizedLeft, normalizedRight := Stripped(left), Stripped(right);
    if |normalizedLeft| != |normalizedRight| then |normalizedLeft| - |normalizedRight|
    else locale(normalizedLeft, normalizedRight)
  }

  function DigitOf(c: char): nat {
    if IsDigit(c) then c as nat - '0' as nat else 0
  }

  /** 10 to the power of `n`. */
  function Power(n: nat): (p: nat)
    ensures p > 0
  {
    if n == 0 then 1 else 10 * Power(n - 1)
  }

  function NumberOf(s: string): nat {
    if s == "" then 0 else DigitOf(s[0]) * Power(|s| - 1) + NumberOf(s[1..])
  }

  lemma {:induction false} NumberBelow(s: string)
    ensures NumberOf(s) < Power(|s|)
  {
    if s != "" {
      NumberBelow(s[1..]);
      DigitBelow(DigitOf(s[0]), Power(|s| - 1));
    }
  }

  lemma {:induction false} DigitBelow(digit: nat, power: nat)
    requires digit < 10
    ensures digit * power + power <= 10 * power
  {
    assert (9 - digit) * power >= 0;
  }

  lemma {:induction false} StripKeeps(s: string)
    requires IsNumeric(s)
    ensures Bare(Stripped(s)) && NumberOf(s) == NumberOf(Stripped(s))
  {
    if |s| > 1 && s[0] == '0' && IsDigit(s[1]) { StripKeeps(s[1..]); }
  }

  /** Without leading zeros, the longer number is the greater. */
  lemma {:induction false} LongerIsGreater(a: string, b: string)
    requires IsNumeric(a) && IsNumeric(b) && |a| < |b| && b[0] != '0'
    ensures NumberOf(a) < NumberOf(b)
  {
    NumberBelow(a);
    PowerGrows(|a|, |b| - 1);
    assert DigitOf(b[0]) >= 1;
    AtLeastOnce(DigitOf(b[0]), Power(|b| - 1));
  }

  lemma {:induction false} AtLeastOnce(digit: nat, power: nat)
    requires digit >= 1
    ensures digit * power >= power
  {
    assert (digit - 1) * power >= 0;
  }

  lemma {:induction false} PowerGrows(m: nat, n: nat)
    requires m <= n
    ensures Power(m) <= Power(n)
  {
    if m < n { PowerGrows(m, n - 1); }
  }

  /** Of one length, numbers are in the order of their digits. */
  lemma {:induction false} DigitsOrderNumbers(a: string, b: string)
    requires |a| == |b| && (forall i | 0 <= i < |a| :: IsDigit(a[i]) && IsDigit(b[i]))
    ensures CharOrder(a, b) == Sign(NumberOf(a) - NumberOf(b))
  {
    if a != "" {
      if a[0] == b[0] {
        DigitsOrderNumbers(a[1..], b[1..]);
      } else {
        NumberBelow(a[1..]);
        NumberBelow(b[1..]);
        FirstDigitDecides(DigitOf(a[0]), DigitOf(b[0]), Power(|a| - 1));
      }
    }
  }

  lemma {:induction false} FirstDigitDecides(a: nat, b: nat, power: nat)
    ensures a < b ==> a * power + power <= b * power
    ensures b < a ==> b * power + power <= a * power
  {
    if a < b {
      AtLeastOnce(b - a, power);
      assert b * power == a * power + (b - a) * power;
    } else if b < a {
      AtLeastOnce(a - b, power);
      assert a * power == b * power + (a - b) * power;
    }
  }

  /** Whether a digit string has no leading zero to strip. */
  predicate Bare(s: string) {
    IsNumeric(s) && (|s| > 1 ==> s[0] != '0')
  }

  lemma {:induction false} ComparesLonger(a: string, b: string)
    requires Bare(a) && Bare(b) && |a| != |b|
    ensures Sign(|a| - |b|) == Sign(NumberOf(a) - NumberOf(b))
  {
    if |a| < |b| { LongerIsGreater(a, b); } else { LongerIsGreater(b, a); }
  }

  lemma {:induction false} ComparesAlike(a: string, b: string, locale: Compare)
    requires IsNumeric(a) && IsNumeric(b) && |a| == |b| && OrdersDigits(locale)
    ensures Sign(locale(a, b)) == Sign(NumberOf(a) - NumberOf(b))
  {
    DigitsOrderNumbers(a, b);
  }

  lemma {:induction false} ComparesBare(a: string, b: string, m: nat, n: nat, locale: Compare)
    requires Bare(a) && Bare(b) && m == NumberOf(a) && n == NumberOf(b) && OrdersDigits(locale)
    ensures Sign(if |a| != |b| then |a| - |b| else locale(a, b)) == Sign(m - n)
  {
    if |a| == |b| { ComparesAlike(a, b, locale); } else { ComparesLonger(a, b); }
  }

  /** Compared by their stripped lengths and then their digits, unbounded digit strings are compared as numbers. */
  lemma {:induction false} ComparesNumbers(left: string, right: string, locale: Compare)
    requires IsNumeric(left) && IsNumeric(right) && OrdersDigits(locale)
    ensures Sign(CompareNumericIdentifiers(left, right, locale)) == Sign(NumberOf(left) - NumberOf(right))
  {
    StripKeeps(left);
    StripKeeps(right);
    ComparesBare(Stripped(left), Stripped(right), NumberOf(left), NumberOf(right), locale);
  }

  datatype Identifier = Number(value: nat) | Word(text: string)

  function IdentifierOf(s: string): Identifier {
    if IsNumeric(s) then Number(NumberOf(s)) else Word(s)
  }

  function Numbers(parts: seq<string>): seq<nat> {
    seq(|parts|, i requires 0 <= i < |parts| => NumberOf(parts[i]))
  }

  function Identifiers(parts: seq<string>): seq<Identifier> {
    seq(|parts|, i requires 0 <= i < |parts| => IdentifierOf(parts[i]))
  }

  /** The order of two cores, the shorter filled up with zeros. */
  function CoreOrder(a: seq<nat>, b: seq<nat>): int
    decreases |a| + |b|
  {
    if a == [] && b == [] then 0
    else
      var x: int, y: int := if a == [] then 0 else a[0], if b == [] then 0 else b[0];
      if x != y then Sign(x - y)
      else CoreOrder(if a == [] then [] else a[1..], if b == [] then [] else b[1..])
  }

  function IdentifierOrder(a: Identifier, b: Identifier, words: Compare): int {
    if a.Number? && b.Number? then Sign(a.value - b.value)
    else if a.Number? then -1
    else if b.Number? then 1
    else Sign(words(a.text, b.text))
  }

  function IdentifiersOrder(a: seq<Identifier>, b: seq<Identifier>, words: Compare): int {
    if a == [] || b == [] then Sign(|a| - |b|)
    else if IdentifierOrder(a[0], b[0], words) != 0 then IdentifierOrder(a[0], b[0], words)
    else IdentifiersOrder(a[1..], b[1..], words)
  }

  function PrereleaseOrder(a: Option<seq<string>>, b: Option<seq<string>>, words: Compare): int {
    if a.None? && b.None? then 0
    else if a.None? then 1
    else if b.None? then -1
    else IdentifiersOrder(Identifiers(a.value), Identifiers(b.value), words)
  }

  /** Precedence as section 11 has it, where `words` is the order of characters, `CharOrder`. */
  function Precedence(a: Parsed, b: Parsed, words: Compare): int {
    var core := CoreOrder(Numbers(a.core), Numbers(b.core));
    if core != 0 then core else PrereleaseOrder(a.prerelease, b.prerelease, words)
  }

  /**
   * Versions in the order of their precedence, and those of one precedence in that of their text, as
   * what is no version is.
   */
  function VersionOrder(left: string, right: string, locale: Compare): int {
    var a, b := ParseVersion(left), ParseVersion(right);
    if a.Some? && b.Some? && Precedence(a.value, b.value, locale) != 0 then Precedence(a.value, b.value, locale)
    else Sign(locale(left, right))
  }

  function From<T>(s: seq<T>, i: nat): seq<T> {
    if i <= |s| then s[i..] else []
  }

  function Part(parts: seq<string>, i: nat): string {
    if i < |parts| then parts[i] else "0"
  }

  lemma {:induction false} CoreStep(a: seq<string>, b: seq<string>, i: nat)
    requires i < |a| || i < |b|
    ensures CoreOrder(Numbers(From(a, i)), Numbers(From(b, i))) ==
      if NumberOf(Part(a, i)) != NumberOf(Part(b, i)) then Sign(NumberOf(Part(a, i)) - NumberOf(Part(b, i)))
      else CoreOrder(Numbers(From(a, i + 1)), Numbers(From(b, i + 1)))
  {
    if i < |a| { assert Numbers(From(a, i))[1..] == Numbers(From(a, i + 1)); }
    if i < |b| { assert Numbers(From(b, i))[1..] == Numbers(From(b, i + 1)); }
    assert NumberOf("0") == 0 by { assert "0"[1..] == ""; }
  }

  /** What a turn of the loop over the cores finds: the order, or that it is that of the parts past this one. */
  lemma {:induction false} CoreTurn(a: seq<string>, b: seq<string>, i: nat, locale: Compare)
    requires OrdersDigits(locale) && (forall part <- a :: IsNumeric(part)) && (forall part <- b :: IsNumeric(part))
    requires i < |a| || i < |b|
    ensures var delta := CompareNumericIdentifiers(Part(a, i), Part(b, i), locale);
      CoreOrder(Numbers(From(a, i)), Numbers(From(b, i))) ==
        if delta != 0 then Sign(delta) else CoreOrder(Numbers(From(a, i + 1)), Numbers(From(b, i + 1)))
  {
    assert IsNumeric(Part(a, i)) && IsNumeric(Part(b, i));
    ComparesNumbers(Part(a, i), Part(b, i), locale);
    CoreStep(a, b, i);
  }

  lemma {:induction false} IdentifierStep(a: seq<string>, b: seq<string>, i: nat, words: Compare)
    requires i < |a| && i < |b|
    ensures IdentifiersOrder(Identifiers(a[i..]), Identifiers(b[i..]), words) ==
      var order := IdentifierOrder(IdentifierOf(a[i]), IdentifierOf(b[i]), words);
      if order != 0 then order else IdentifiersOrder(Identifiers(a[i + 1..]), Identifiers(b[i + 1..]), words)
  {
    assert Identifiers(a[i..])[1..] == Identifiers(a[i + 1..]) && Identifiers(b[i..])[1..] == Identifiers(b[i + 1..]);
  }

  /** The loop over the cores: the first difference, or none. */
  method CompareCores(left: seq<string>, right: seq<string>, locale: Compare) returns (delta: int)
    requires OrdersDigits(locale)
    requires (forall part <- left :: IsNumeric(part)) && forall part <- right :: IsNumeric(part)
    ensures Sign(delta) == CoreOrder(Numbers(left), Numbers(right))
  {
    var maxLength := if |left| > |right| then |left| else |right|;
    for index := 0 to maxLength
      invariant CoreOrder(Numbers(left), Numbers(right)) ==
        CoreOrder(Numbers(From(left, index)), Numbers(From(right, index)))
    {
      var l, r := Part(left, index), Part(right, index);
      delta := CompareNumericIdentifiers(l, r, locale);
      CoreTurn(left, right, index, locale);
      if delta != 0 { return; }
    }
    delta := 0;
  }

  /** The loop over the identifiers of two prereleases. */
  method ComparePrereleases(left: seq<string>, right: seq<string>, locale: Compare) returns (delta: int)
    requires OrdersDigits(locale)
    ensures Sign(delta) == IdentifiersOrder(Identifiers(left), Identifiers(right), locale)
  {
    var maxLength := if |left| > |right| then |left| else |right|;
    assert left[0..] == left && right[0..] == right;
    for index := 0 to maxLength
      invariant index <= |left| && index <= |right|
      invariant IdentifiersOrder(Identifiers(left), Identifiers(right), locale)
             == IdentifiersOrder(Identifiers(left[index..]), Identifiers(right[index..]), locale)
    {
      if index == |left| || index == |right| {
        return if index == |left| then -1 else 1;
      }
      IdentifierStep(left, right, index, locale);
      delta := CompareIdentifiers(left[index], right[index], locale);
      if delta != 0 { return; }
    }
    delta := 0;
  }

  /** Its body, for one identifier of each. */
  method CompareIdentifiers(left: string, right: string, locale: Compare) returns (delta: int)
    requires OrdersDigits(locale)
    ensures Sign(delta) == IdentifierOrder(IdentifierOf(left), IdentifierOf(right), locale)
  {
    var leftNumeric, rightNumeric := IsNumeric(left), IsNumeric(right);
    if leftNumeric && rightNumeric {
      delta := CompareNumericIdentifiers(left, right, locale);
      ComparesNumbers(left, right, locale);
    } else if leftNumeric != rightNumeric {
      delta := if leftNumeric then -1 else 1;
    } else {
      delta := locale(left, right);
    }
  }

  method CompareVersionPrecedence(left: string, right: string, locale: Compare) returns (delta: int)
    requires OrdersDigits(locale)
    ensures Sign(delta) == VersionOrder(left, right, locale)
  {
    var parsedLeft, parsedRight := ParseVersion(left), ParseVersion(right);
    if parsedLeft.None? || parsedRight.None? { return locale(left, right); }
    delta := CompareCores(parsedLeft.value.core, parsedRight.value.core, locale);
    if delta != 0 { return; }
    var a, b := parsedLeft.value.prerelease, parsedRight.value.prerelease;
    if a.None? || b.None? {
      if a == b { return locale(left, right); }
      return if a.None? then 1 else -1;
    }
    delta := ComparePrereleases(a.value, b.value, locale);
    if delta != 0 { return; }
    delta := locale(left, right);
  }

  /** Two orders one way, whose third follows, strictly where one of them is strict. */
  predicate Follows(ab: int, bc: int, ac: int) {
    ab <= 0 && bc <= 0 ==> ac <= 0 && (ac == 0 ==> ab == 0 && bc == 0)
  }

  lemma {:induction false} CoreOrdersTotally(a: seq<nat>, b: seq<nat>, c: seq<nat>)
    ensures CoreOrder(a, b) == -CoreOrder(b, a)
    ensures Follows(CoreOrder(a, b), CoreOrder(b, c), CoreOrder(a, c))
    decreases |a| + |b| + |c|
  {
    if a != [] || b != [] || c != [] {
      CoreOrdersTotally(From(a, 1), From(b, 1), From(c, 1));
    }
  }

  lemma {:induction false} IdentifierOrdersTotally(a: Identifier, b: Identifier, c: Identifier, words: Compare)
    requires IsTotalOrder(words)
    ensures IdentifierOrder(a, b, words) == -IdentifierOrder(b, a, words)
    ensures Follows(IdentifierOrder(a, b, words), IdentifierOrder(b, c, words), IdentifierOrder(a, c, words))
  {
    if a.Word? && b.Word? && c.Word? {
      LocaleFollows(a.text, b.text, c.text, words);
    }
  }

  lemma {:induction false} LocaleFollows(a: string, b: string, c: string, locale: Compare)
    requires IsTotalOrder(locale)
    ensures Sign(locale(a, b)) == -Sign(locale(b, a))
    ensures Follows(Sign(locale(a, b)), Sign(locale(b, c)), Sign(locale(a, c)))
  {
    if locale(a, b) <= 0 && locale(b, c) <= 0 && locale(a, c) == 0 {
      assert a == c && Sign(locale(a, b)) == -Sign(locale(b, a));
    }
  }

  lemma {:induction false} IdentifiersOrderTotally(a: seq<Identifier>, b: seq<Identifier>, c: seq<Identifier>,
      words: Compare)
    requires IsTotalOrder(words)
    ensures IdentifiersOrder(a, b, words) == -IdentifiersOrder(b, a, words)
    ensures Follows(IdentifiersOrder(a, b, words), IdentifiersOrder(b, c, words), IdentifiersOrder(a, c, words))
    decreases |a| + |b| + |c|
  {
    if a != [] && b != [] {
      IdentifierOrdersTotally(a[0], b[0], if c == [] then a[0] else c[0], words);
      IdentifiersOrderTotally(a[1..], b[1..], From(c, 1), words);
    }
  }

  lemma {:induction false} PrecedenceOrdersTotally(a: Parsed, b: Parsed, c: Parsed, words: Compare)
    requires IsTotalOrder(words)
    ensures Precedence(a, b, words) == -Precedence(b, a, words)
    ensures Follows(Precedence(a, b, words), Precedence(b, c, words), Precedence(a, c, words))
  {
    CoreOrdersTotally(Numbers(a.core), Numbers(b.core), Numbers(c.core));
    PrereleasesOrderTotally(a.prerelease, b.prerelease, c.prerelease, words);
  }

  lemma {:induction false} PrereleasesOrderTotally(a: Option<seq<string>>, b: Option<seq<string>>,
      c: Option<seq<string>>, words: Compare)
    requires IsTotalOrder(words)
    ensures PrereleaseOrder(a, b, words) == -PrereleaseOrder(b, a, words)
    ensures Follows(PrereleaseOrder(a, b, words), PrereleaseOrder(b, c, words), PrereleaseOrder(a, c, words))
  {
    var x := if a.Some? then Identifiers(a.value) else [];
    var y := if b.Some? then Identifiers(b.value) else [];
    var z := if c.Some? then Identifiers(c.value) else [];
    IdentifiersOrderTotally(x, y, z, words);
  }

  /** Valid versions are ordered totally, none the same as another. */
  lemma {:induction false} VersionsOrderTotally(a: string, b: string, c: string, locale: Compare)
    requires IsTotalOrder(locale) && IsValid(a) && IsValid(b) && IsValid(c)
    ensures VersionOrder(a, b, locale) == -VersionOrder(b, a, locale)
    ensures VersionOrder(a, b, locale) == 0 <==> a == b
    ensures VersionOrder(a, b, locale) <= 0 && VersionOrder(b, c, locale) <= 0 ==> VersionOrder(a, c, locale) <= 0
  {
    PrecedenceOrdersTotally(ParseVersion(a).value, ParseVersion(b).value, ParseVersion(c).value, locale);
    LocaleFollows(a, b, c, locale);
    LocaleFollows(a, a, a, locale);
    if a == b { PrecedenceOrdersTotally(ParseVersion(a).value, ParseVersion(a).value, ParseVersion(a).value, locale); }
  }

  /** The words two prereleases first differ at, where they first differ at words. */
  function FirstWords(a: seq<Identifier>, b: seq<Identifier>): Option<(string, string)> {
    if a == [] || b == [] then None
    else if a[0] == b[0] then FirstWords(a[1..], b[1..])
    else if a[0].Word? && b[0].Word? then Some((a[0].text, b[0].text))
    else None
  }

  /** Only they are ordered by the order of words. */
  lemma {:induction false} FirstWordsDecide(a: seq<Identifier>, b: seq<Identifier>, words: Compare)
    requires IsTotalOrder(words)
    ensures match FirstWords(a, b)
            case Some((x, y)) =>
              && IdentifiersOrder(a, b, words) == Sign(words(x, y)) != 0
              && IdentifiersOrder(a, b, CharOrder) == CharOrder(x, y)
            case None => IdentifiersOrder(a, b, words) == IdentifiersOrder(a, b, CharOrder)
  {
    if a != [] && b != [] {
      if a[0] == b[0] {
        SameIsSame(a[0], words);
        FirstWordsDecide(a[1..], b[1..], words);
      } else if a[0].Word? && b[0].Word? {
        CharOrderIsSign(a[0].text, b[0].text);
      }
    }
  }

  lemma {:induction false} SameIsSame(a: Identifier, words: Compare)
    requires IsTotalOrder(words)
    ensures IdentifierOrder(a, a, words) == 0 && IdentifierOrder(a, a, CharOrder) == 0
  {
    if a.Word? {
      LocaleFollows(a.text, a.text, a.text, words);
      CharOrderIsSign(a.text, a.text);
    }
  }

  /** Its characters order a text before another or after it, or it is the other. */
  lemma {:induction false} CharOrderIsSign(a: string, b: string)
    ensures Sign(CharOrder(a, b)) == CharOrder(a, b) && (CharOrder(a, b) == 0 <==> a == b)
  {
    if a != "" && b != "" && a[0] == b[0] {
      CharOrderIsSign(a[1..], b[1..]);
      assert a == [a[0]] + a[1..] && b == [b[0]] + b[1..];
    }
  }

  /** The words the prereleases of two valid versions of one core first differ at, where they do. */
  function DecidingWords(left: string, right: string): Option<(string, string)>
    requires IsValid(left) && IsValid(right)
  {
    var a, b := ParseVersion(left).value, ParseVersion(right).value;
    if CoreOrder(Numbers(a.core), Numbers(b.core)) != 0 || a.prerelease.None? || b.prerelease.None? then None
    else FirstWords(Identifiers(a.prerelease.value), Identifiers(b.prerelease.value))
  }

  /**
   * Valid versions of different precedence are ordered as section 11 has them if and only if the
   * platform has the words they first differ at in the order of their characters: always, where
   * they do not first differ at words.
   */
  lemma {:induction false} RefinesPrecedenceExactly(left: string, right: string, locale: Compare)
    requires IsTotalOrder(locale) && IsValid(left) && IsValid(right)
    ensures var order := Precedence(ParseVersion(left).value, ParseVersion(right).value, CharOrder);
      var words := DecidingWords(left, right);
      order != 0 ==>
        (VersionOrder(left, right, locale) == order
         <==> (words.Some? ==> Sign(locale(words.value.0, words.value.1)) == CharOrder(words.value.0, words.value.1)))
  {
    var a, b := ParseVersion(left).value.prerelease, ParseVersion(right).value.prerelease;
    if a.Some? && b.Some? { FirstWordsDecide(Identifiers(a.value), Identifiers(b.value), locale); }
  }

  /**
   * Where they do first differ at words, those decide, by the platform's order: where it ignores
   * case, "alpha" comes before "Beta".
   */
  lemma {:induction false} WordsDecide(left: string, right: string, locale: Compare)
    requires IsTotalOrder(locale) && IsValid(left) && IsValid(right) && DecidingWords(left, right).Some?
    ensures var (x, y) := DecidingWords(left, right).value;
      && VersionOrder(left, right, locale) == Sign(locale(x, y)) != 0
      && Precedence(ParseVersion(left).value, ParseVersion(right).value, CharOrder) == CharOrder(x, y)
  {
    var a, b := ParseVersion(left).value.prerelease, ParseVersion(right).value.prerelease;
    FirstWordsDecide(Identifiers(a.value), Identifiers(b.value), locale);
  }

  /** Whether three texts go round, each before the next. */
  predicate GoRound(a: string, b: string, c: string, locale: Compare) {
    VersionOrder(a, b, locale) < 0 && VersionOrder(b, c, locale) < 0 && VersionOrder(c, a, locale) < 0
  }

  /** Whether two versions have between them, the other way by their text, one that is no version. */
  predicate HaveBetween(v: string, w: string, x: string, locale: Compare) {
    && IsValid(v) && IsValid(w) && !IsValid(x)
    && VersionOrder(v, w, locale) < 0 && locale(w, x) < 0 && locale(x, v) < 0
  }

  /**
   * Any three texts go round if and only if one of them is no version, and has its place by its text
   * between the other two, which are versions ordered the other way. Callers sort versions only.
   */
  lemma {:induction false} GoRoundExactly(a: string, b: string, c: string, locale: Compare)
    requires IsTotalOrder(locale)
    ensures GoRound(a, b, c, locale)
       <==> HaveBetween(a, b, c, locale) || HaveBetween(b, c, a, locale) || HaveBetween(c, a, b, locale)
  {
    if IsValid(a) && IsValid(b) && IsValid(c) {
      ValidNeverGoRound(a, b, c, locale);
    } else {
      LocaleNeverGoesRound(a, b, c, locale);
    }
  }

  lemma {:induction false} ValidNeverGoRound(a: string, b: string, c: string, locale: Compare)
    requires IsTotalOrder(locale) && IsValid(a) && IsValid(b) && IsValid(c)
    ensures !GoRound(a, b, c, locale)
  {
    VersionsOrderTotally(a, b, c, locale);
    VersionsOrderTotally(c, a, b, locale);
  }

  lemma {:induction false} LocaleNeverGoesRound(a: string, b: string, c: string, locale: Compare)
    requires IsTotalOrder(locale)
    ensures !(locale(a, b) < 0 && locale(b, c) < 0 && locale(c, a) < 0)
  {
    LocaleFollows(a, b, c, locale);
    LocaleFollows(c, a, b, locale);
  }

  /** Such are "9", "10" and "5x", where a digit comes before a greater and the text before a longer. */
  lemma {:induction false} OtherTextMayCycle(locale: Compare)
    requires IsTotalOrder(locale) && locale("10", "5x") < 0 && locale("5x", "9") < 0
    ensures HaveBetween("9", "10", "5x", locale) && GoRound("9", "10", "5x", locale)
  {
    NineThenTen(locale);
    FiveXIsNone();
    ByTheirText("10", "5x", locale);
    ByTheirText("5x", "9", locale);
  }

  lemma {:induction false} ByTheirText(v: string, w: string, locale: Compare)
    requires !IsValid(v) || !IsValid(w)
    ensures Sign(VersionOrder(v, w, locale)) == Sign(locale(v, w))
  {
  }

  lemma {:induction false} NineThenTen(locale: Compare)
    ensures IsValid("9") && IsValid("10") && VersionOrder("9", "10", locale) < 0
  {
    ParsesNumber("9");
    ParsesNumber("10");
    NineIsLess();
  }

  lemma {:induction false} FiveXIsNone()
    ensures !IsValid("5x")
  {
    assert !IsDigit("5x"[1]);
    ParsesNoWord("5x");
  }

  lemma {:induction false} NineIsLess()
    ensures CoreOrder(Numbers(["9"]), Numbers(["10"])) == -1
  {
    assert NumberOf("9") == 9 by { assert "9"[1..] == ""; }
    assert NumberOf("10") == 10 by { assert "10"[1..] == "0" && "0"[1..] == ""; }
    assert Numbers(["9"]) == [9] && Numbers(["10"]) == [10];
  }

  lemma {:induction false} SplitsToOne(s: string, separator: char)
    requires separator !in s
    ensures IndexOf(s, separator) == |s| && Split(s, separator) == [s]
  {
  }

  lemma {:induction false} ParsesNumber(s: string)
    requires IsNumeric(s)
    ensures ParseVersion(s) == Some(Parsed([s], None))
  {
    SplitsToOne(s, '+');
    SplitsToOne(s, '-');
    SplitsToOne(s, '.');
  }

  lemma {:induction false} ParsesNoWord(s: string)
    requires IsIdentifier(s) && !IsNumeric(s) && '-' !in s
    ensures ParseVersion(s).None?
  {
    SplitsToOne(s, '+');
    SplitsToOne(s, '-');
    SplitsToOne(s, '.');
    assert s in Split(s, '.');
  }
}
