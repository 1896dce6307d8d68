// Version comparison of the client (upgrade.go). `space` is the set of
// characters `strings.TrimSpace` removes.
module SemVer {
  import opened Strings
  import opened TaskTypes

  // ---- numbers ------------------------------------------------------------------------

  const MAX_UINT64: int := 0xFFFF_FFFF_FFFF_FFFF

  // `strconv.ParseUint(s, 10, 64)`
  function ParseUint(s: string): Option<nat> {
    if s == "" || !AllDigits(s) || Value(s) > MAX_UINT64 then None else Some(Value(s))
  }

  lemma {:induction false} ValuePositive(s: string)
    requires s != "" && AllDigits(s) && s[0] != '0'
    ensures Value(s) > 0
  {
    assert s[0] in s;
    if |s| > 1 { ValuePositive(s[..|s|-1]); }
  }

  // Without leading zeros, equal values are equal strings.
  lemma {:induction false} ValueInjective(s: string, t: string)
    requires AllDigits(s) && AllDigits(t) && NoLeadingZero(s) && NoLeadingZero(t) && s != "" && t != "" && Value(s) == Value(t)
    ensures s == t
  {
    var a, b := s[..|s|-1], t[..|t|-1];
    assert s == a + [s[|s|-1]] && t == b + [t[|t|-1]];
    assert s[|s|-1] in s && t[|t|-1] in t;
    assert Value(a) == Value(b) && s[|s|-1] == t[|t|-1];
    if a != "" { ValuePositive(a); }
    if b != "" { ValuePositive(b); }
    if a != "" && b != "" { ValueInjective(a, b); }
  }

  function Power10(n: nat): nat {
    if n == 0 then 1 else 10 * Power10(n - 1)
  }

  lemma {:induction false} ValueBounds(s: string)
    requires AllDigits(s)
    ensures Value(s) < Power10(|s|)
    ensures s != "" && s[0] != '0' ==> Value(s) >= Power10(|s| - 1)
  {
    if s != "" {
      assert s[|s|-1] in s;
      ValueBounds(s[..|s|-1]);
    }
  }

  lemma {:induction false} PowerGrows(m: nat, n: nat)
    requires m <= n
    ensures Power10(m) <= Power10(n)
  {
    if m < n { PowerGrows(m, n - 1); }
  }

  function Times(n: nat, unit: nat): nat {
    if n == 0 then 0 else Times(n - 1, unit) + unit
  }

  lemma {:induction false} TimesTen(n: nat, unit: nat)
    ensures Times(n, 10 * unit) == 10 * Times(n, unit)
  {
    if n > 0 { TimesTen(n - 1, unit); }
  }

  lemma {:induction false} TimesGrows(m: nat, n: nat, unit: nat)
    requires m < n
    ensures Times(n, unit) >= Times(m, unit) + unit
  {
    if m < n - 1 { TimesGrows(m, n - 1, unit); }
  }

  lemma {:induction false} ValueFromLeft(s: string)
    requires s != ""
    ensures Value(s) == Times(DigitOf(s[0]), Power10(|s| - 1)) + Value(s[1..])
  {
    if |s| > 1 {
      var init := s[..|s|-1];
      ValueFromLeft(init);
      assert s[1..][..|s|-2] == init[1..];
      TimesTen(DigitOf(s[0]), Power10(|s| - 2));
    } else {
      assert s[..0] == "" && s[1..] == "";
      TimesOne(DigitOf(s[0]));
    }
  }

  lemma {:induction false} TimesOne(n: nat)
    ensures Times(n, 1) == n
  {
    if n > 0 { TimesOne(n - 1); }
  }

  // Digit strings of one length are spelled in the order of their values ...
  lemma {:induction false} SpelledByValue(s: string, t: string)
    requires AllDigits(s) && AllDigits(t) && |s| == |t|
    ensures Less(s, t) <==> Value(s) < Value(t)
  {
    if s != "" {
      assert s[0] in s && t[0] in t;
      var d, e, unit := DigitOf(s[0]), DigitOf(t[0]), Power10(|s| - 1);
      ValueFromLeft(s);
      ValueFromLeft(t);
      ValueBounds(s[1..]);
      ValueBounds(t[1..]);
      SpelledByValue(s[1..], t[1..]);
      if d < e { TimesGrows(d, e, unit); }
      if e < d { TimesGrows(e, d, unit); }
      hide Value, Power10, Times;
    }
  }

  // ... and a longer one without leading zeros is the greater number.
  lemma LongerIsGreater(s: string, t: string)
    requires AllDigits(s) && AllDigits(t) && NoLeadingZero(t) && 0 < |s| < |t|
    ensures Value(s) < Value(t)
  {
    ValueBounds(s);
    ValueBounds(t);
    PowerGrows(|s|, |t| - 1);
  }

  // ---- parsing ------------------------------------------------------------------------

  datatype Version = Version(numbers: seq<nat>, prerelease: string)

  predicate IdentifierChar(c: char) {
    'a' <= c <= 'z' || 'A' <= c <= 'Z' || IsDigit(c) || c == '-'
  }

  predicate ValidIdentifier(s: string, leadingZero: bool) {
    s != "" && (forall c :: c in s ==> IdentifierChar(c)) && (AllDigits(s) && !leadingZero ==> NoLeadingZero(s))
  }

  predicate ValidIdentifiers(value: string, leadingZero: bool) {
    forall s :: s in Split(value, '.') ==> ValidIdentifier(s, leadingZero)
  }

  method CheckIdentifiers(value: string, leadingZero: bool) returns (ok: bool)
    ensures ok <==> ValidIdentifiers(value, leadingZero)
  {
    var parts := Split(value, '.');
    for i := 0 to |parts|
      invariant forall s :: s in parts[..i] ==> ValidIdentifier(s, leadingZero)
    {
      assert parts[..i+1] == parts[..i] + [parts[i]] && parts[i] in parts;
      var identifier := parts[i];
      if identifier == "" { return false; }
      var numeric := true;
      for k := 0 to |identifier|
        invariant numeric <==> AllDigits(identifier[..k])
        invariant forall c :: c in identifier[..k] ==> IdentifierChar(c)
      {
        assert identifier[..k+1] == identifier[..k] + [identifier[k]] && identifier[k] in identifier;
        if !IsDigit(identifier[k]) { numeric := false; }
        if !IdentifierChar(identifier[k]) { return false; }
      }
      assert identifier[..|identifier|] == identifier;
      if numeric && !leadingZero && |identifier| > 1 && identifier[0] == '0' { return false; }
    }
    assert parts[..|parts|] == parts;
    ok := true;
  }

  function TrimLeft(space: char -> bool, s: string): string {
    if s != "" && space(s[0]) then TrimLeft(space, s[1..]) else s
  }

  function TrimRight(space: char -> bool, s: string): string {
    if s != "" && space(s[|s|-1]) then TrimRight(space, s[..|s|-1]) else s
  }

  function TrimPrefix(s: string, c: char): string {
    if s != "" && s[0] == c then s[1..] else s
  }

  // What comes before the first `c`, and after it.
  function Cut(s: string, c: char): (string, Option<string>) {
    if s == "" then ("", None)
    else if s[0] == c then ("", Some(s[1..]))
    else
      var (before, after) := Cut(s[1..], c);
      ([s[0]] + before, after)
  }

  function ParseNumbers(parts: seq<string>): Option<seq<nat>> {
    if parts == [] then Some([])
    else
      var init, last := ParseNumbers(parts[..|parts|-1]), parts[|parts|-1];
      if init.None? || !NoLeadingZero(last) || ParseUint(last).None? then None else Some(init.value + [ParseUint(last).value])
  }

  function Parse(space: char -> bool, value: string): Option<Version> {
    var trimmed := TrimPrefix(TrimPrefix(TrimRight(space, TrimLeft(space, value)), 'v'), 'V');
    var (release, build) := Cut(trimmed, '+');
    if build.Some? && (build.value == "" || '+' in build.value || !ValidIdentifiers(build.value, true)) then None else
    var (core, prerelease) := Cut(release, '-');
    var parts := Split(core, '.');
    if |parts| != 3 || prerelease == Some("") || ParseNumbers(parts).None? then None
    else if prerelease.Some? && !ValidIdentifiers(prerelease.value, false) then None
    else Some(Version(ParseNumbers(parts).value, if prerelease.None? then "" else prerelease.value))
  }

  method ParseVersion(space: char -> bool, value: string) returns (version: Option<Version>)
    ensures version == Parse(space, value)
  {
    var trimmed := TrimPrefix(TrimPrefix(TrimRight(space, TrimLeft(space, value)), 'v'), 'V');
    var (release, build) := Cut(trimmed, '+');
    if build.Some? {
      if build.value == "" || '+' in build.value { return None; }
      var ok := CheckIdentifiers(build.value, true);
      if !ok { return None; }
    }
    var (core, prerelease) := Cut(release, '-');
    var parts := Split(core, '.');
    if |parts| != 3 || prerelease == Some("") { return None; }
    var numbers: seq<nat> := [];
    for i := 0 to |parts|
      invariant ParseNumbers(parts[..i]) == Some(numbers)
    {
      assert parts[..i+1][..i] == parts[..i];
      if parts[i] == "" || (|parts[i]| > 1 && parts[i][0] == '0') || ParseUint(parts[i]).None? {
        NumbersStop(parts, i + 1);
        return None;
      }
      numbers := numbers + [ParseUint(parts[i]).value];
    }
    assert parts[..|parts|] == parts;
    if prerelease.Some? {
      var ok := CheckIdentifiers(prerelease.value, false);
      if !ok { return None; }
    }
    version := Some(Version(numbers, if prerelease.None? then "" else prerelease.value));
  }

  lemma {:induction false} NumbersStop(parts: seq<string>, k: nat)
    requires k <= |parts| && ParseNumbers(parts[..k]).None?
    ensures ParseNumbers(parts).None?
    decreases |parts| - k
  {
    if k < |parts| {
      assert parts[..k+1][..k] == parts[..k];
      NumbersStop(parts, k + 1);
    } else {
      assert parts[..k] == parts;
    }
  }

  // ---- comparison ------------------------------------------------------------------------

  function CompareNumbers(l: seq<nat>, r: seq<nat>): int {
    if l == [] || r == [] then 0
    else if l[0] < r[0] then -1 else if l[0] > r[0] then 1 else CompareNumbers(l[1..], r[1..])
  }

  // Two different prerelease identifiers.
  function CompareIdentifier(l: string, r: string): int {
    var a, b := ParseUint(l), ParseUint(r);
    if a.Some? && b.Some? then (if a.value < b.value then -1 else 1)
    else if a.Some? then -1
    else if b.Some? then 1
    else if Less(l, r) then -1 else 1
  }

  function CompareIdentifiers(l: seq<string>, r: seq<string>): int {
    if l == [] || r == [] then (if |l| < |r| then -1 else if |l| > |r| then 1 else 0)
    else if l[0] == r[0] then CompareIdentifiers(l[1..], r[1..])
    else CompareIdentifier(l[0], r[0])
  }

  function Compare(l: Version, r: Version): int {
    var core := CompareNumbers(l.numbers, r.numbers);
    if core != 0 then core
    else if l.prerelease == "" && r.prerelease != "" then 1
    else if l.prerelease != "" && r.prerelease == "" then -1
    else CompareIdentifiers(Split(l.prerelease, '.'), Split(r.prerelease, '.'))
  }

  function CompareVersions(space: char -> bool, left: string, right: string): Option<int> {
    var l, r := Parse(space, left), Parse(space, right);
    if l.None? || r.None? then None else Some(Compare(l.value, r.value))
  }

  method CompareVersionStrings(space: char -> bool, left: string, right: string) returns (result: Option<int>)
    ensures result == CompareVersions(space, left, right)
  {
    var l := ParseVersion(space, left);
    if l.None? { return None; }
    var r := ParseVersion(space, right);
    if r.None? { return None; }
    var index := 0;
    while index < |l.value.numbers| && index < |r.value.numbers|
      invariant index <= |l.value.numbers| && index <= |r.value.numbers|
      invariant CompareNumbers(l.value.numbers, r.value.numbers) == CompareNumbers(l.value.numbers[index..], r.value.numbers[index..])
    {
      if l.value.numbers[index] < r.value.numbers[index] { return Some(-1); }
      if l.value.numbers[index] > r.value.numbers[index] { return Some(1); }
      index := index + 1;
    }
    if l.value.prerelease == "" && r.value.prerelease != "" { return Some(1); }
    if l.value.prerelease != "" && r.value.prerelease == "" { return Some(-1); }
    var order := ComparePrerelease(l.value.prerelease, r.value.prerelease);
    result := Some(order);
  }

  method ComparePrerelease(left: string, right: string) returns (order: int)
    ensures order == CompareIdentifiers(Split(left, '.'), Split(right, '.'))
  {
    var l, r := Split(left, '.'), Split(right, '.');
    var index := 0;
    while index < |l| && index < |r|
      invariant index <= |l| && index <= |r|
      invariant CompareIdentifiers(l, r) == CompareIdentifiers(l[index..], r[index..])
    {
      if l[index] != r[index] {
        order := CompareIdentifier(l[index], r[index]);
        return;
      }
      index := index + 1;
    }
    order := if |l| < |r| then -1 else if |l| > |r| then 1 else 0;
  }

  // ---- a total preorder ----------------------------------------------------------------------

  ghost predicate Proper(v: Version) {
    |v.numbers| == 3 && (v.prerelease != "" ==> ValidIdentifiers(v.prerelease, false))
  }

  lemma {:induction false} NumbersCount(parts: seq<string>)
    ensures ParseNumbers(parts).Some? ==> |ParseNumbers(parts).value| == |parts|
  {
    if parts != [] { NumbersCount(parts[..|parts|-1]); }
  }

  lemma ParseProper(space: char -> bool, value: string)
    ensures Parse(space, value).Some? ==> Proper(Parse(space, value).value)
  {
    var trimmed := TrimPrefix(TrimPrefix(TrimRight(space, TrimLeft(space, value)), 'v'), 'V');
    NumbersCount(Split(Cut(Cut(trimmed, '+').0, '-').0, '.'));
  }

  // Identifiers: numbers that fit by value, before everything else by spelling.
  lemma IdentifierAntisymmetric(l: string, r: string)
    requires ValidIdentifier(l, false) && ValidIdentifier(r, false) && l != r
    ensures CompareIdentifier(l, r) == -CompareIdentifier(r, l) && CompareIdentifier(l, r) in {-1, 1}
  {
    if ParseUint(l).Some? && ParseUint(r).Some? && Value(l) == Value(r) { ValueInjective(l, r); }
    LessTotal(l, r);
  }

  lemma IdentifierTransitive(a: string, b: string, c: string)
    requires ValidIdentifier(a, false) && ValidIdentifier(b, false) && ValidIdentifier(c, false) && a != b && b != c
    requires CompareIdentifier(a, b) == -1 && CompareIdentifier(b, c) == -1
    ensures a != c && CompareIdentifier(a, c) == -1
  {
    if ParseUint(a).None? && ParseUint(b).None? && ParseUint(c).None? { LessTransitive(a, b, c); }
    IdentifierAntisymmetric(a, b);
  }

  ghost predicate AllValid(q: seq<string>) {
    forall s :: s in q ==> ValidIdentifier(s, false)
  }

  lemma {:induction false} IdentifiersAntisymmetric(l: seq<string>, r: seq<string>)
    requires AllValid(l) && AllValid(r)
    ensures CompareIdentifiers(l, r) == -CompareIdentifiers(r, l) && CompareIdentifiers(l, r) in {-1, 0, 1}
    ensures CompareIdentifiers(l, r) == 0 <==> l == r
  {
    if l != [] && r != [] {
      assert l == [l[0]] + l[1..] && r == [r[0]] + r[1..];
      if l[0] == r[0] { IdentifiersAntisymmetric(l[1..], r[1..]); } else { IdentifierAntisymmetric(l[0], r[0]); }
    }
  }

  lemma {:induction false} IdentifiersSame(q: seq<string>)
    ensures CompareIdentifiers(q, q) == 0
  {
    if q != [] { IdentifiersSame(q[1..]); }
  }

  lemma {:induction false} IdentifiersTransitive(a: seq<string>, b: seq<string>, c: seq<string>)
    requires AllValid(a) && AllValid(b) && AllValid(c)
    requires CompareIdentifiers(a, b) <= 0 && CompareIdentifiers(b, c) <= 0
    ensures CompareIdentifiers(a, c) <= 0
  {
    if a != [] && b != [] && c != [] {
      if a[0] == b[0] && b[0] == c[0] {
        IdentifiersTransitive(a[1..], b[1..], c[1..]);
      } else {
        if a[0] != b[0] { IdentifierAntisymmetric(a[0], b[0]); }
        if b[0] != c[0] { IdentifierAntisymmetric(b[0], c[0]); }
        if a[0] != b[0] && b[0] != c[0] { IdentifierTransitive(a[0], b[0], c[0]); }
      }
    }
  }

  lemma NumbersOrdered(a: seq<nat>, b: seq<nat>, c: seq<nat>)
    requires |a| == |b| == |c|
    ensures CompareNumbers(a, b) == -CompareNumbers(b, a) && CompareNumbers(a, b) in {-1, 0, 1}
    ensures CompareNumbers(a, b) == 0 <==> a == b
    ensures CompareNumbers(a, b) <= 0 && CompareNumbers(b, c) <= 0 ==> CompareNumbers(a, c) <= 0
    ensures CompareNumbers(a, b) <= 0 && CompareNumbers(b, c) <= 0 && CompareNumbers(a, c) == 0 ==> a == b == c
  {
    if a != [] {
      NumbersOrdered(a[1..], b[1..], c[1..]);
      assert a == [a[0]] + a[1..] && b == [b[0]] + b[1..] && c == [c[0]] + c[1..];
    }
  }

  lemma ProperIdentifiers(v: Version)
    requires Proper(v) && v.prerelease != ""
    ensures AllValid(Split(v.prerelease, '.'))
  {
  }

  lemma SplitInjective(s: string, t: string)
    requires Split(s, '.') == Split(t, '.')
    ensures s == t
  {
    JoinSplit(s, '.');
    JoinSplit(t, '.');
  }

  // Antisymmetric, and zero exactly when numbers and prerelease agree.
  lemma CompareAntisymmetric(l: Version, r: Version)
    requires Proper(l) && Proper(r)
    ensures Compare(l, r) == -Compare(r, l) && Compare(l, r) in {-1, 0, 1}
    ensures Compare(l, r) == 0 <==> l == r
  {
    NumbersOrdered(l.numbers, r.numbers, l.numbers);
    IdentifiersSame(Split("", '.'));
    if l.prerelease != "" && r.prerelease != "" {
      ProperIdentifiers(l);
      ProperIdentifiers(r);
      IdentifiersAntisymmetric(Split(l.prerelease, '.'), Split(r.prerelease, '.'));
      if Split(l.prerelease, '.') == Split(r.prerelease, '.') { SplitInjective(l.prerelease, r.prerelease); }
    }
  }

  lemma CompareTransitive(a: Version, b: Version, c: Version)
    requires Proper(a) && Proper(b) && Proper(c) && Compare(a, b) <= 0 && Compare(b, c) <= 0
    ensures Compare(a, c) <= 0
  {
    NumbersOrdered(a.numbers, b.numbers, c.numbers);
    NumbersOrdered(b.numbers, c.numbers, a.numbers);
    if a.prerelease != "" && b.prerelease != "" && c.prerelease != "" && a.numbers == b.numbers == c.numbers {
      ProperIdentifiers(a);
      ProperIdentifiers(b);
      ProperIdentifiers(c);
      IdentifiersTransitive(Split(a.prerelease, '.'), Split(b.prerelease, '.'), Split(c.prerelease, '.'));
    }
  }

  // On strings: any parseable versions, whatever the size of their identifiers.
  lemma TotalPreorder(space: char -> bool, a: string, b: string, c: string)
    requires Parse(space, a).Some? && Parse(space, b).Some? && Parse(space, c).Some?
    ensures CompareVersions(space, a, b).value == -CompareVersions(space, b, a).value
    ensures CompareVersions(space, a, b).value == 0 <==> Parse(space, a) == Parse(space, b)
    ensures CompareVersions(space, a, b).value <= 0 && CompareVersions(space, b, c).value <= 0 ==> CompareVersions(space, a, c).value <= 0
  {
    ParseProper(space, a);
    ParseProper(space, b);
    ParseProper(space, c);
    var x, y, z := Parse(space, a).value, Parse(space, b).value, Parse(space, c).value;
    hide Parse, Proper, Compare;
    CompareAntisymmetric(x, y);
    if Compare(x, y) <= 0 && Compare(y, z) <= 0 { CompareTransitive(x, y, z); }
  }

  // ---- precedence of SemVer 2.0.0 ---------------------------------------------------------------

  // Section 11: numeric identifiers compare as numbers of any size and come
  // before alphanumeric ones, which compare in ASCII order.
  datatype Identifier = Numeric(value: nat) | Alphanumeric(text: string)

  function Classify(s: string): Identifier {
    if AllDigits(s) then Numeric(Value(s)) else Alphanumeric(s)
  }

  predicate Precedes(a: Identifier, b: Identifier) {
    match (a, b)
    case (Numeric(x), Numeric(y)) => x < y
    case (Numeric(_), Alphanumeric(_)) => true
    case (Alphanumeric(_), Numeric(_)) => false
    case (Alphanumeric(x), Alphanumeric(y)) => Less(x, y)
  }

  // Left to right; a longer list wins when all earlier identifiers agree.
  predicate PrereleasePrecedes(l: seq<string>, r: seq<string>) {
    r != [] && (l == [] || Precedes(Classify(l[0]), Classify(r[0])) || (l[0] == r[0] && PrereleasePrecedes(l[1..], r[1..])))
  }

  predicate NumbersPrecede(l: seq<nat>, r: seq<nat>) {
    l != [] && r != [] && (l[0] < r[0] || (l[0] == r[0] && NumbersPrecede(l[1..], r[1..])))
  }

  predicate VersionPrecedes(l: Version, r: Version) {
    || NumbersPrecede(l.numbers, r.numbers)
    || (l.numbers == r.numbers && l.prerelease != "" && (r.prerelease == "" || PrereleasePrecedes(Split(l.prerelease, '.'), Split(r.prerelease, '.'))))
  }

  predicate Oversize(s: string) {
    AllDigits(s) && Value(s) > MAX_UINT64
  }

  // Beyond 64 bits an identifier is compared by its spelling: against another
  // one that is wrong when the longer is spelled first, against an alphanumeric
  // one when that is spelled before it.
  predicate Misordered(l: string, r: string) {
    || (Oversize(l) && Oversize(r) && |l| != |r| && (|l| > |r| <==> Less(l, r)))
    || (Oversize(l) && !AllDigits(r) && Less(r, l))
    || (Oversize(r) && !AllDigits(l) && Less(l, r))
  }

  lemma IdentifierFollowsPrecedence(l: string, r: string)
    requires ValidIdentifier(l, false) && ValidIdentifier(r, false) && l != r
    ensures (CompareIdentifier(l, r) == -1 <==> Precedes(Classify(l), Classify(r))) <==> !Misordered(l, r)
    ensures Precedes(Classify(l), Classify(r)) <==> !Precedes(Classify(r), Classify(l))
  {
    LessTotal(l, r);
    if AllDigits(l) && AllDigits(r) {
      if |l| == |r| { SpelledByValue(l, r); }
      else if |l| < |r| { LongerIsGreater(l, r); }
      else { LongerIsGreater(r, l); }
      if Value(l) == Value(r) { ValueInjective(l, r); }
    }
  }

  // Is the first difference between the lists misordered?
  predicate MisorderedAt(l: seq<string>, r: seq<string>) {
    l != [] && r != [] && if l[0] == r[0] then MisorderedAt(l[1..], r[1..]) else Misordered(l[0], r[0])
  }

  predicate MisorderedVersions(l: Version, r: Version) {
    && l.numbers == r.numbers && l.prerelease != "" && r.prerelease != ""
    && MisorderedAt(Split(l.prerelease, '.'), Split(r.prerelease, '.'))
  }

  lemma {:induction false} IdentifiersFollowPrecedence(l: seq<string>, r: seq<string>)
    requires AllValid(l) && AllValid(r)
    ensures (CompareIdentifiers(l, r) == -1 <==> PrereleasePrecedes(l, r)) <==> !MisorderedAt(l, r)
  {
    if l != [] && r != [] {
      if l[0] == r[0] {
        IdentifiersFollowPrecedence(l[1..], r[1..]);
        LessTotal(l[0], r[0]);
      } else {
        IdentifierFollowsPrecedence(l[0], r[0]);
      }
      hide CompareIdentifier, Misordered, ValidIdentifier;
    }
  }

  lemma {:induction false} NumbersFollowPrecedence(l: seq<nat>, r: seq<nat>)
    requires |l| == |r|
    ensures CompareNumbers(l, r) == -1 <==> NumbersPrecede(l, r)
  {
    if l != [] { NumbersFollowPrecedence(l[1..], r[1..]); }
  }

  lemma FollowsOneWay(l: Version, r: Version)
    requires Proper(l) && Proper(r)
    ensures (Compare(l, r) == -1 <==> VersionPrecedes(l, r)) <==> !MisorderedVersions(l, r)
  {
    NumbersOrdered(l.numbers, r.numbers, l.numbers);
    NumbersFollowPrecedence(l.numbers, r.numbers);
    IdentifiersSame(Split(l.prerelease, '.'));
    if l.prerelease != "" && r.prerelease != "" {
      ProperIdentifiers(l);
      ProperIdentifiers(r);
      IdentifiersFollowPrecedence(Split(l.prerelease, '.'), Split(r.prerelease, '.'));
    }
    hide NumbersPrecede, CompareNumbers, PrereleasePrecedes, CompareIdentifiers, MisorderedAt, Split;
  }

  // The precedence the comparison computes.
  ghost predicate FollowsSemVer(space: char -> bool, a: string, b: string)
    requires Parse(space, a).Some? && Parse(space, b).Some?
  {
    CompareVersions(space, a, b) == Some(-1) <==> VersionPrecedes(Parse(space, a).value, Parse(space, b).value)
  }

  // It is the precedence of SemVer exactly for versions whose first different
  // identifiers are not misordered.
  lemma CoincidesWithSemVer(space: char -> bool, a: string, b: string)
    requires Parse(space, a).Some? && Parse(space, b).Some?
    ensures FollowsSemVer(space, a, b) <==> !MisorderedVersions(Parse(space, a).value, Parse(space, b).value)
    ensures FollowsSemVer(space, a, b) <==> FollowsSemVer(space, b, a)
  {
    ParseProper(space, a);
    ParseProper(space, b);
    var l, r := Parse(space, a).value, Parse(space, b).value;
    FollowsOneWay(l, r);
    FollowsOneWay(r, l);
    MisorderedBothWays(Split(l.prerelease, '.'), Split(r.prerelease, '.'));
    hide Parse, Compare, VersionPrecedes, Split, MisorderedAt;
  }

  lemma {:induction false} MisorderedBothWays(l: seq<string>, r: seq<string>)
    ensures MisorderedAt(l, r) <==> MisorderedAt(r, l)
  {
    if l != [] && r != [] {
      if l[0] == r[0] { MisorderedBothWays(l[1..], r[1..]); } else { LessTotal(l[0], r[0]); }
    }
  }

  // So identifiers of 64 bits are enough.
  lemma {:induction false} FitsIsOrdered(l: seq<string>, r: seq<string>)
    requires forall s :: s in l || s in r ==> !Oversize(s)
    ensures !MisorderedAt(l, r)
  {
    if l != [] && r != [] { FitsIsOrdered(l[1..], r[1..]); }
  }

  // A misordered pair: twenty-one nines are the smaller number, but compare as
  // the greater spelling.
  lemma OversizeDiffers(l: string, r: string)
    requires l == seq(21, _ => '9') && r == ['1'] + seq(21, _ => '0')
    ensures ValidIdentifier(l, false) && ValidIdentifier(r, false) && Misordered(l, r)
    ensures Precedes(Classify(l), Classify(r)) && CompareIdentifier(l, r) == 1
  {
    ValueBounds(l);
    ValueBounds(r);
    OversizePowers();
    LongerIsGreater(l, r);
    LessTotal(l, r);
    assert |l| == 21 && |r| == 22 && Less(r, l);
    hide Value, Power10;
  }

  lemma OversizePowers()
    ensures Power10(20) > MAX_UINT64 && Power10(21) > MAX_UINT64
  {
    assert Power10(5) == 100_000;
    assert Power10(10) == 10_000_000_000;
    assert Power10(15) == 1_000_000_000_000_000;
    assert Power10(20) == 100_000_000_000_000_000_000;
  }
}
