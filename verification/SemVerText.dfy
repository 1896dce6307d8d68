// Which strings the version parser of the client accepts (upgrade.go).
module SemVerText {
  import opened SemVer
  import opened Strings
  import opened TaskTypes

  // ---- the text of a version ------------------------------------------------------

  ghost predicate Printable(v: Version) {
    Proper(v) && forall i :: 0 <= i < 3 ==> v.numbers[i] <= MAX_UINT64
  }

  function Core(v: Version): string
    requires |v.numbers| == 3
  {
    Join([Decimal(v.numbers[0]), Decimal(v.numbers[1]), Decimal(v.numbers[2])], '.')
  }

  function Suffix(mark: char, text: Option<string>): string {
    if text.None? then "" else [mark] + text.value
  }

  function Text(v: Version, build: Option<string>): string
    requires |v.numbers| == 3
  {
    Core(v) + Suffix('-', if v.prerelease == "" then None else Some(v.prerelease)) + Suffix('+', build)
  }

  predicate AllSpace(space: char -> bool, s: string) {
    forall c :: c in s ==> space(c)
  }

  ghost predicate Spelled(space: char -> bool, value: string, v: Version, lead: string, mark: string, build: Option<string>, trail: string) {
    && Printable(v) && value == lead + (mark + Text(v, build)) + trail
    && AllSpace(space, lead) && AllSpace(space, trail) && mark in {"", "v", "V", "vV"}
    && (build.Some? ==> ValidIdentifiers(build.value, true))
  }

  // Spaces, an optional "v" and "V", the version, an optional build, spaces.
  ghost predicate Spells(space: char -> bool, value: string, v: Version) {
    exists lead, mark, build, trail :: Spelled(space, value, v, lead, mark, build, trail)
  }

  predicate Inner(c: char) { IdentifierChar(c) || c == '.' || c == '+' }

  // `unicode.IsSpace` holds for no character of a version.
  ghost predicate Apart(space: char -> bool) {
    forall c :: Inner(c) ==> !space(c)
  }

  // ---- trimming and cutting ----------------------------------------------------------

  lemma {:induction false} TrimLeftTakes(space: char -> bool, lead: string, t: string)
    requires AllSpace(space, lead) && t != "" && !space(t[0])
    ensures TrimLeft(space, lead + t) == t
  {
    if lead == "" {
      assert lead + t == t;
    } else {
      assert lead[0] in lead && (lead + t)[1..] == lead[1..] + t;
      TrimLeftTakes(space, lead[1..], t);
    }
  }

  lemma {:induction false} TrimRightTakes(space: char -> bool, t: string, trail: string)
    requires AllSpace(space, trail) && t != "" && !space(t[|t|-1])
    ensures TrimRight(space, t + trail) == t
  {
    if trail == "" {
      assert t + trail == t;
    } else {
      var n := |trail| - 1;
      assert trail[n] in trail && (t + trail)[..|t + trail|-1] == t + trail[..n];
      TrimRightTakes(space, t, trail[..n]);
    }
  }

  lemma {:induction false} TrimLeftLeaves(space: char -> bool, s: string) returns (lead: string)
    ensures s == lead + TrimLeft(space, s) && AllSpace(space, lead)
  {
    if s != "" && space(s[0]) {
      var rest := TrimLeftLeaves(space, s[1..]);
      lead := [s[0]] + rest;
      assert s == [s[0]] + s[1..] == [s[0]] + (rest + TrimLeft(space, s[1..])) == lead + TrimLeft(space, s[1..]);
    } else {
      lead := "";
      assert s == "" + s;
    }
  }

  lemma {:induction false} TrimRightLeaves(space: char -> bool, s: string) returns (trail: string)
    ensures s == TrimRight(space, s) + trail && AllSpace(space, trail)
  {
    if s != "" && space(s[|s|-1]) {
      var rest := TrimRightLeaves(space, s[..|s|-1]);
      trail := rest + [s[|s|-1]];
      assert s == s[..|s|-1] + [s[|s|-1]];
    } else {
      trail := "";
    }
  }

  lemma {:induction false} CutTakes(a: string, text: Option<string>, c: char)
    requires c !in a
    ensures Cut(a + Suffix(c, text), c) == (a, text)
  {
    var s := a + Suffix(c, text);
    if a == "" {
      if text.Some? { assert s[1..] == text.value; }
    } else {
      assert s[1..] == a[1..] + Suffix(c, text) && a == [a[0]] + a[1..];
      CutTakes(a[1..], text, c);
    }
  }

  lemma {:induction false} CutLeaves(s: string, c: char)
    ensures var (before, after) := Cut(s, c); s == before + Suffix(c, after) && c !in before
  {
    if s != "" && s[0] != c {
      CutLeaves(s[1..], c);
      assert s == [s[0]] + s[1..];
    } else if s != "" {
      assert s == [c] + s[1..];
    }
  }

  lemma MarkTaken(mark: string, t: string)
    requires mark in {"", "v", "V", "vV"} && t != "" && t[0] != 'v' && t[0] != 'V'
    ensures TrimPrefix(TrimPrefix(mark + t, 'v'), 'V') == t
  {
    if mark == "v" || mark == "vV" { assert (mark + t)[1..] == mark[1..] + t; }
    if mark == "vV" { assert "vV"[1..] == "V"; }
    assert ("V" + t)[1..] == t && "" + t == t;
  }

  lemma MarkLeft(s: string) returns (mark: string)
    ensures mark in {"", "v", "V", "vV"} && s == mark + TrimPrefix(TrimPrefix(s, 'v'), 'V')
  {
    if s != "" && s[0] == 'v' {
      var t := s[1..];
      assert s == "v" + t;
      if t != "" && t[0] == 'V' {
        mark := "vV";
        assert s == "vV" + t[1..];
      } else {
        mark := "v";
      }
    } else if s != "" && s[0] == 'V' {
      mark := "V";
      assert s == "V" + s[1..];
    } else {
      mark := "";
      assert s == "" + s;
    }
  }

  // ---- characters ---------------------------------------------------------------------

  lemma {:induction false} SplitChars(s: string, sep: char, c: char)
    requires c in s
    ensures c == sep || exists part :: part in Split(s, sep) && c in part
  {
    var rest := Split(s[1..], sep);
    assert s == [s[0]] + s[1..];
    if s[0] == sep {
      if c != sep { SplitChars(s[1..], sep, c); }
    } else {
      assert ([s[0]] + rest[0]) in Split(s, sep);
      if c != s[0] {
        SplitChars(s[1..], sep, c);
        if c != sep {
          var part :| part in rest && c in part;
          assert part == rest[0] || part in rest[1..];
        }
      }
    }
  }

  lemma IdentifiersInner(value: string, leadingZero: bool)
    requires ValidIdentifiers(value, leadingZero)
    ensures value != "" && forall c :: c in value ==> IdentifierChar(c) || c == '.'
  {
    assert "" in Split("", '.');
    forall c | c in value ensures IdentifierChar(c) || c == '.' {
      SplitChars(value, '.', c);
    }
  }

  lemma CoreChars(v: Version)
    requires |v.numbers| == 3
    ensures Core(v) != "" && IsDigit(Core(v)[0]) && forall c :: c in Core(v) ==> IsDigit(c) || c == '.'
  {
    var a, b, d := Decimal(v.numbers[0]), Decimal(v.numbers[1]), Decimal(v.numbers[2]);
    DecimalValue(v.numbers[0]);
    DecimalValue(v.numbers[1]);
    DecimalValue(v.numbers[2]);
    CoreIs(a, b, d);
    assert a[0] in a;
    hide Decimal, Value;
  }

  lemma CoreIs(a: string, b: string, d: string)
    ensures Join([a, b, d], '.') == a + ['.'] + (b + ['.'] + d)
  {
    assert [a, b, d][1..] == [b, d] && [b, d][1..] == [d];
    assert Join([d], '.') == d;
    assert Join([b, d], '.') == b + ['.'] + d;
  }

  // ---- numbers --------------------------------------------------------------------------

  lemma DecimalParses(n: nat)
    requires n <= MAX_UINT64
    ensures ParseUint(Decimal(n)) == Some(n) && NoLeadingZero(Decimal(n))
  {
    DecimalValue(n);
  }

  lemma ParsedIsDecimal(s: string)
    requires ParseUint(s).Some? && NoLeadingZero(s)
    ensures s == Decimal(ParseUint(s).value)
  {
    DecimalValue(Value(s));
    ValueInjective(s, Decimal(Value(s)));
  }

  lemma {:induction false} NumbersAreDecimal(parts: seq<string>)
    requires ParseNumbers(parts).Some?
    ensures var n := ParseNumbers(parts).value;
            |n| == |parts| && forall i :: 0 <= i < |n| ==> parts[i] == Decimal(n[i]) && n[i] <= MAX_UINT64
  {
    if parts != [] {
      NumbersAreDecimal(parts[..|parts|-1]);
      ParsedIsDecimal(parts[|parts|-1]);
    }
  }

  lemma {:induction false} DecimalsAreNumbers(parts: seq<string>, n: seq<nat>)
    requires |parts| == |n| && forall i :: 0 <= i < |n| ==> parts[i] == Decimal(n[i]) && n[i] <= MAX_UINT64
    ensures ParseNumbers(parts) == Some(n)
  {
    if parts != [] {
      var k := |parts| - 1;
      DecimalsAreNumbers(parts[..k], n[..k]);
      DecimalParses(n[k]);
      assert n == n[..k] + [n[k]];
    }
  }

  lemma CoreSplits(v: Version)
    requires |v.numbers| == 3 && forall i :: 0 <= i < 3 ==> v.numbers[i] <= MAX_UINT64
    ensures |Split(Core(v), '.')| == 3 && ParseNumbers(Split(Core(v), '.')) == Some(v.numbers)
  {
    var parts := [Decimal(v.numbers[0]), Decimal(v.numbers[1]), Decimal(v.numbers[2])];
    forall p | p in parts ensures '.' !in p {
      DecimalValue(v.numbers[0]);
      DecimalValue(v.numbers[1]);
      DecimalValue(v.numbers[2]);
    }
    SplitJoin(parts, '.');
    DecimalsAreNumbers(parts, v.numbers);
    hide Decimal, Join, Split, ParseNumbers;
  }

  // ---- the parser accepts exactly the texts of versions ------------------------------------

  // What is left of the parser once spaces and marks are gone.
  function ParseTrimmed(trimmed: string): Option<Version> {
    var (release, build) := Cut(trimmed, '+');
    var (core, prerelease) := Cut(release, '-');
    if (build.Some? && !ValidIdentifiers(build.value, true)) || (prerelease.Some? && !ValidIdentifiers(prerelease.value, false)) then None
    else if |Split(core, '.')| != 3 || ParseNumbers(Split(core, '.')).None? then None
    else Some(Version(ParseNumbers(Split(core, '.')).value, if prerelease.None? then "" else prerelease.value))
  }

  lemma ParseIsTrimmed(space: char -> bool, value: string)
    ensures Parse(space, value) == ParseTrimmed(TrimPrefix(TrimPrefix(TrimRight(space, TrimLeft(space, value)), 'v'), 'V'))
  {
    var trimmed := TrimPrefix(TrimPrefix(TrimRight(space, TrimLeft(space, value)), 'v'), 'V');
    var (release, build) := Cut(trimmed, '+');
    var (core, prerelease) := Cut(release, '-');
    if build.Some? && ValidIdentifiers(build.value, true) { IdentifiersInner(build.value, true); }
    if prerelease.Some? && ValidIdentifiers(prerelease.value, false) { IdentifiersInner(prerelease.value, false); }
    hide ValidIdentifiers, Split, ParseNumbers, Cut, TrimPrefix, TrimLeft, TrimRight;
  }

  lemma TextParses(v: Version, build: Option<string>)
    requires Printable(v) && (build.Some? ==> ValidIdentifiers(build.value, true))
    ensures ParseTrimmed(Text(v, build)) == Some(v)
  {
    var pre := if v.prerelease == "" then None else Some(v.prerelease);
    var release := Core(v) + Suffix('-', pre);
    CoreChars(v);
    if pre.Some? { IdentifiersInner(v.prerelease, false); }
    assert '+' !in release && '-' !in Core(v);
    CutTakes(release, build, '+');
    CutTakes(Core(v), pre, '-');
    CoreSplits(v);
    assert v == Version(v.numbers, v.prerelease);
    hide Core, Cut, Suffix, ParseNumbers, Split, ValidIdentifiers;
  }

  lemma ParsedIsText(trimmed: string) returns (build: Option<string>)
    requires ParseTrimmed(trimmed).Some?
    ensures var v := ParseTrimmed(trimmed).value; Printable(v) && trimmed == Text(v, build)
    ensures build.Some? ==> ValidIdentifiers(build.value, true)
  {
    var v := ParseTrimmed(trimmed).value;
    var (release, b) := Cut(trimmed, '+');
    var (core, prerelease) := Cut(release, '-');
    build := b;
    CutLeaves(trimmed, '+');
    CutLeaves(release, '-');
    JoinSplit(core, '.');
    NumbersAreDecimal(Split(core, '.'));
    if prerelease.Some? { IdentifiersInner(prerelease.value, false); }
    assert Split(core, '.') == [Decimal(v.numbers[0]), Decimal(v.numbers[1]), Decimal(v.numbers[2])];
    hide Cut, ParseNumbers, Split, Join, ValidIdentifiers;
  }

  lemma TextEnds(space: char -> bool, v: Version, mark: string, build: Option<string>)
    requires Apart(space) && Printable(v) && mark in {"", "v", "V", "vV"} && (build.Some? ==> ValidIdentifiers(build.value, true))
    ensures var t := Text(v, build);
            && t != "" && t[0] != 'v' && t[0] != 'V'
            && !space((mark + t)[0]) && !space(t[|t|-1])
  {
    var t := Text(v, build);
    CoreChars(v);
    if v.prerelease != "" { IdentifiersInner(v.prerelease, false); }
    if build.Some? { IdentifiersInner(build.value, true); }
    hide Core, ValidIdentifiers;
    assert t[0] == Core(v)[0];
    forall c | c in t ensures Inner(c) {
    }
    assert t[|t|-1] in t;
    assert (mark + t)[0] == if mark == "" then t[0] else mark[0];
  }

  lemma Trims(space: char -> bool, lead: string, mark: string, text: string, trail: string)
    requires AllSpace(space, lead) && AllSpace(space, trail) && mark in {"", "v", "V", "vV"}
    requires text != "" && text[0] != 'v' && text[0] != 'V' && !space((mark + text)[0]) && !space(text[|text|-1])
    ensures TrimPrefix(TrimPrefix(TrimRight(space, TrimLeft(space, lead + (mark + text) + trail)), 'v'), 'V') == text
  {
    var t := mark + text;
    assert lead + t + trail == lead + (t + trail) && (t + trail)[0] == t[0] && t[|t|-1] == text[|text|-1];
    hide *;
    TrimLeftTakes(space, lead, t + trail);
    TrimRightTakes(space, t, trail);
    MarkTaken(mark, text);
  }

  lemma SpelledParses(space: char -> bool, value: string, v: Version, lead: string, mark: string, build: Option<string>, trail: string)
    requires Apart(space) && Spelled(space, value, v, lead, mark, build, trail)
    ensures Parse(space, value) == Some(v)
  {
    TextEnds(space, v, mark, build);
    TextParses(v, build);
    ParseIsTrimmed(space, value);
    hide *;
    Trims(space, lead, mark, Text(v, build), trail);
  }

  lemma ParsedSpells(space: char -> bool, value: string)
    requires Parse(space, value).Some?
    ensures Spells(space, value, Parse(space, value).value)
  {
    ParseIsTrimmed(space, value);
    var left := TrimLeft(space, value);
    var t := TrimRight(space, left);
    var lead := TrimLeftLeaves(space, value);
    var trail := TrimRightLeaves(space, left);
    var mark := MarkLeft(t);
    var build := ParsedIsText(TrimPrefix(TrimPrefix(t, 'v'), 'V'));
    hide Parse, ParseTrimmed, TrimPrefix, TrimLeft, TrimRight, Text, Printable, AllSpace, ValidIdentifiers;
    assert value == lead + t + trail;
    assert Spelled(space, value, Parse(space, value).value, lead, mark, build, trail);
  }

  lemma ParsesExactly(space: char -> bool, value: string, v: Version)
    requires Apart(space)
    ensures Parse(space, value) == Some(v) <==> Spells(space, value, v)
  {
    if Parse(space, value) == Some(v) { ParsedSpells(space, value); }
    hide Parse, Spelled, Apart;
    if lead, mark, build, trail :| Spelled(space, value, v, lead, mark, build, trail) {
      SpelledParses(space, value, v, lead, mark, build, trail);
    }
  }
}
