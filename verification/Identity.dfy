// Artifact identities and artifact paths (identity.py). `blank` is Python's
// Unicode table: characters that are spaces or of a category starting with C.
module Identity {
  import opened TaskTypes
  import opened Encoding
  import opened Strings

  // ---- escaping one segment (section 2.1 of RFC 3986) ------------------------------

  function HexDigit(n: int): char
    requires 0 <= n < 16
  {
    if n < 10 then '0' + n as char else 'A' + (n - 10) as char
  }

  // Only upper-case digits are accepted.
  function HexValue(c: char): Option<nat> {
    if '0' <= c <= '9' then Some(c as int - '0' as int)
    else if 'A' <= c <= 'F' then Some(c as int - 'A' as int + 10)
    else None
  }

  function PercentBytes(b: seq<Byte>): string {
    if b == [] then [] else ['%', HexDigit(b[0] / 16), HexDigit(b[0] % 16)] + PercentBytes(b[1..])
  }

  predicate Unsafe(blank: char -> bool, c: char) {
    c == '/' || c == '\\' || c == '%' || blank(c)
  }

  function EscapeChar(blank: char -> bool, c: char): string {
    if Unsafe(blank, c) then PercentBytes(Utf8(c)) else [c]
  }

  function EscapeAll(blank: char -> bool, v: string): string {
    if v == [] then [] else EscapeAll(blank, v[..|v|-1]) + EscapeChar(blank, v[|v|-1])
  }

  function Escape(blank: char -> bool, v: string): Option<string> {
    if v == [] then None
    else
      var r := EscapeAll(blank, v);
      if r == "." then Some("%2E") else if r == ".." then Some("%2E%2E") else Some(r)
  }

  method EscapePathSegment(blank: char -> bool, value: string) returns (r: Option<string>)
    ensures r == Escape(blank, value)
  {
    if value == "" { return None; }
    var escaped: string := "";
    for i := 0 to |value|
      invariant escaped == EscapeAll(blank, value[..i])
    {
      assert value[..i+1][..i] == value[..i];
      if Unsafe(blank, value[i]) {
        escaped := escaped + PercentBytes(Utf8(value[i]));
      } else {
        escaped := escaped + [value[i]];
      }
    }
    assert value[..|value|] == value;
    if escaped == "." { return Some("%2E"); }
    if escaped == ".." { return Some("%2E%2E"); }
    r := Some(escaped);
  }

  // ---- unescaping ---------------------------------------------------------------------

  // A percent sequence or an ASCII character is a byte; other characters stay.
  datatype Item = Octet(byte: Byte) | Literal(letter: char)

  function ItemOf(c: char): Item {
    if c as int < 0x80 then Octet(c as int) else Literal(c)
  }

  // None when some `%` is not followed by two upper-case hexadecimal digits.
  function Items(s: string): Option<seq<Item>> {
    if s == [] then Some([])
    else if s[0] != '%' then
      var rest := Items(s[1..]);
      if rest.None? then None else Some([ItemOf(s[0])] + rest.value)
    else if |s| < 3 || HexValue(s[1]).None? || HexValue(s[2]).None? then None
    else
      var rest := Items(s[3..]);
      if rest.None? then None else Some([Octet(HexValue(s[1]).value * 16 + HexValue(s[2]).value)] + rest.value)
  }

  function OctetRun(items: seq<Item>): (b: seq<Byte>)
    ensures |b| <= |items|
  {
    if items == [] || items[0].Literal? then [] else [items[0].byte] + OctetRun(items[1..])
  }

  // Each maximal run of bytes must be strict UTF-8.
  function Decode(items: seq<Item>): Option<string> {
    if items == [] then Some("")
    else if items[0].Literal? then
      var rest := Decode(items[1..]);
      if rest.None? then None else Some([items[0].letter] + rest.value)
    else
      var c := FirstChar(OctetRun(items));
      if c.None? then None else
      var rest := Decode(items[|Utf8(c.value)|..]);
      if rest.None? then None else Some([c.value] + rest.value)
  }

  function Unescape(s: string): Option<string> {
    if s == "" || Items(s).None? then None else Decode(Items(s).value)
  }

  // ---- unescape inverts escape -----------------------------------------------------------

  lemma HexRoundTrip(b: Byte)
    ensures HexValue(HexDigit(b / 16)) == Some(b / 16) && HexValue(HexDigit(b % 16)) == Some(b % 16)
  {
  }

  function Octets(b: seq<Byte>): seq<Item> {
    seq(|b|, i requires 0 <= i < |b| => Octet(b[i]))
  }

  lemma ItemsOfByte(b: Byte, t: string)
    requires Items(t).Some?
    ensures Items(['%', HexDigit(b / 16), HexDigit(b % 16)] + t) == Some([Octet(b)] + Items(t).value)
  {
    var s := ['%', HexDigit(b / 16), HexDigit(b % 16)] + t;
    HexRoundTrip(b);
    assert s[3..] == t && s[1] == HexDigit(b / 16) && s[2] == HexDigit(b % 16);
    hide HexDigit, HexValue;
  }

  lemma {:induction false} ItemsOfPercent(b: seq<Byte>, t: string)
    requires Items(t).Some?
    ensures Items(PercentBytes(b) + t) == Some(Octets(b) + Items(t).value)
  {
    if b == [] {
      assert PercentBytes(b) + t == t && Octets(b) + Items(t).value == Items(t).value;
    } else {
      var u := PercentBytes(b[1..]) + t;
      ItemsOfPercent(b[1..], t);
      ItemsOfByte(b[0], u);
      assert PercentBytes(b) + t == ['%', HexDigit(b[0] / 16), HexDigit(b[0] % 16)] + u;
      assert Octets(b) + Items(t).value == [Octet(b[0])] + (Octets(b[1..]) + Items(t).value);
      hide Items, HexDigit;
    }
  }

  lemma RunOfOctet(b: Byte, t: seq<Item>)
    ensures OctetRun([Octet(b)] + t) == [b] + OctetRun(t)
  {
    assert ([Octet(b)] + t)[1..] == t;
  }

  lemma {:induction false} RunOfOctets(b: seq<Byte>, t: seq<Item>)
    ensures OctetRun(Octets(b) + t) == b + OctetRun(t)
  {
    if b == [] {
      assert Octets(b) + t == t;
    } else {
      assert Octets(b) + t == [Octet(b[0])] + (Octets(b[1..]) + t);
      assert b + OctetRun(t) == [b[0]] + (b[1..] + OctetRun(t));
      hide OctetRun, Octets;
      RunOfOctets(b[1..], t);
      RunOfOctet(b[0], Octets(b[1..]) + t);
    }
  }

  // What the escape of one character reads as.
  function ItemsOfChar(blank: char -> bool, c: char): seq<Item> {
    if Unsafe(blank, c) || c as int < 0x80 then Octets(Utf8(c)) else [Literal(c)]
  }

  lemma ItemsOfEscapedChar(blank: char -> bool, c: char, t: string)
    requires Items(t).Some?
    ensures Items(EscapeChar(blank, c) + t) == Some(ItemsOfChar(blank, c) + Items(t).value)
  {
    if Unsafe(blank, c) {
      ItemsOfPercent(Utf8(c), t);
    } else {
      assert ([c] + t)[1..] == t;
      if c as int < 0x80 { assert Octets(Utf8(c)) == [Octet(c as int)]; }
    }
  }

  lemma DecodeChar(blank: char -> bool, c: char, t: seq<Item>)
    requires Decode(t).Some?
    ensures Decode(ItemsOfChar(blank, c) + t) == Some([c] + Decode(t).value)
  {
    var items := ItemsOfChar(blank, c) + t;
    if items[0].Literal? {
      assert items[1..] == t;
    } else {
      var b := Utf8(c);
      RunOfOctets(b, t);
      FirstCharDecodes(c, OctetRun(t));
      assert items[|b|..] == t;
      hide Utf8, FirstChar, OctetRun;
    }
  }

  // The escaped text `s` stands for `v`.
  predicate Reads(s: string, v: string) {
    Items(s).Some? && Decode(Items(s).value) == Some(v)
  }

  lemma ReadsChar(blank: char -> bool, c: char, t: string, w: string)
    requires Reads(t, w)
    ensures Reads(EscapeChar(blank, c) + t, [c] + w)
  {
    ItemsOfEscapedChar(blank, c, t);
    DecodeChar(blank, c, Items(t).value);
    hide Items, Decode, EscapeChar;
  }

  lemma {:induction false} ReadsAll(blank: char -> bool, v: string, t: string, w: string)
    requires Reads(t, w)
    ensures Reads(EscapeAll(blank, v) + t, v + w)
    decreases |v|
  {
    if v == [] {
      assert EscapeAll(blank, v) + t == t && v + w == w;
    } else {
      var init, last := v[..|v|-1], v[|v|-1];
      assert EscapeAll(blank, v) == EscapeAll(blank, init) + EscapeChar(blank, last) && v == init + [last];
      Regroup(EscapeAll(blank, init), EscapeChar(blank, last), t);
      Regroup(init, [last], w);
      hide Reads, EscapeChar, EscapeAll;
      ReadsChar(blank, last, t, w);
      ReadsAll(blank, init, EscapeChar(blank, last) + t, [last] + w);
    }
  }

  lemma Regroup(a: string, b: string, c: string)
    ensures (a + b) + c == a + (b + c)
  {
  }

  lemma EscapedUnescapes(blank: char -> bool, v: string)
    requires v != []
    ensures Unescape(EscapeAll(blank, v)) == Some(v)
  {
    assert Reads("", "");
    ReadsAll(blank, v, "", "");
    assert EscapeAll(blank, v) + "" == EscapeAll(blank, v) && v + "" == v;
  }

  lemma DotsEscape(blank: char -> bool)
    ensures Unsafe(blank, '.') ==> EscapeAll(blank, ".") == "%2E" && EscapeAll(blank, "..") == "%2E%2E"
    ensures !Unsafe(blank, '.') ==> EscapeAll(blank, ".") == "." && EscapeAll(blank, "..") == ".."
  {
    assert "."[..0] == "" && ".."[..1] == ".";
    assert EscapeAll(blank, "") == "";
    assert EscapeAll(blank, ".") == EscapeAll(blank, "") + EscapeChar(blank, '.');
    assert EscapeAll(blank, "..") == EscapeAll(blank, ".") + EscapeChar(blank, '.');
    assert PercentBytes([0x2E]) == "%2E";
    assert "%2E" + "%2E" == "%2E%2E";
  }

  // Unescaping inverts escaping on every non-empty segment.
  lemma UnescapeEscape(blank: char -> bool, v: string)
    requires v != []
    ensures Escape(blank, v).Some? && Unescape(Escape(blank, v).value) == Some(v)
  {
    var all, none := (c: char) => true, (c: char) => c == '%';
    var r := EscapeAll(blank, v);
    EscapedUnescapes(blank, v);
    hide EscapeAll, Unescape, Items, Decode, Utf8, PercentBytes;
    if r in {".", ".."} {
      // An escape that reads "." or ".." is that of "." or "..".
      DotsEscape(none);
      EscapedUnescapes(none, r);
      DotsEscape(all);
      EscapedUnescapes(all, r);
    }
  }

  // ---- escaped segments are single path components ---------------------------------------

  lemma {:induction false} PercentNoSlash(b: seq<Byte>)
    ensures '/' !in PercentBytes(b)
  {
    if b != [] { PercentNoSlash(b[1..]); }
  }

  lemma {:induction false} EscapeAllNoSlash(blank: char -> bool, v: string)
    ensures '/' !in EscapeAll(blank, v) && |EscapeAll(blank, v)| >= |v|
  {
    if v != [] {
      EscapeAllNoSlash(blank, v[..|v|-1]);
      PercentNoSlash(Utf8(v[|v|-1]));
    }
  }

  // Neither empty, nor a dot component, nor split by the path syntax.
  predicate IsComponent(s: string) {
    s != "" && s != "." && s != ".." && '/' !in s
  }

  lemma EscapedIsComponent(blank: char -> bool, v: string)
    requires v != []
    ensures Escape(blank, v).Some? && IsComponent(Escape(blank, v).value)
  {
    EscapeAllNoSlash(blank, v);
  }

  // `PurePosixPath(s).parts`: empty and dot components vanish, a leading
  // slash is a part of its own.
  function Solid(parts: seq<string>): seq<string> {
    if parts == [] then []
    else if parts[0] == "" || parts[0] == "." then Solid(parts[1..]) else [parts[0]] + Solid(parts[1..])
  }

  function PathParts(s: string): seq<string> {
    (if s != "" && s[0] == '/' then ["/"] else []) + Solid(Split(s, '/'))
  }

  lemma {:induction false} SolidKeeps(parts: seq<string>)
    requires forall p :: p in parts ==> IsComponent(p)
    ensures Solid(parts) == parts
  {
    if parts != [] {
      assert parts == [parts[0]] + parts[1..] && IsComponent(parts[0]);
      SolidKeeps(parts[1..]);
    }
  }

  lemma JoinStarts(parts: seq<string>)
    requires |parts| > 0 && IsComponent(parts[0])
    ensures Join(parts, '/') != "" && Join(parts, '/')[0] == parts[0][0] != '/'
  {
  }

  lemma PartsOfPath(parts: seq<string>)
    requires |parts| > 0 && forall p :: p in parts ==> IsComponent(p)
    ensures PathParts(Join(parts, '/')) == parts
  {
    JoinStarts(parts);
    SplitJoin(parts, '/');
    SolidKeeps(parts);
  }

  // ---- identities and paths ------------------------------------------------------------------

  // What identifies an artifact; `digest` stands for its selected paths.
  datatype Source = Source(provider: Provider, id: string, revision: string, digest: Option<string>)

  function ProviderName(p: Provider): string {
    match p
    case HuggingFace => "huggingface"
    case ModelScopeCn => "modelscope-cn"
    case ModelScopeAi => "modelscope-ai"
    case GithubRelease => "github-release"
    case Kaggle => "kaggle"
    case Http => "http"
    case Filesystem => "filesystem"
  }

  function ProviderNamed(s: string): Option<Provider> {
    if s == "huggingface" then Some(HuggingFace)
    else if s == "modelscope-cn" then Some(ModelScopeCn)
    else if s == "modelscope-ai" then Some(ModelScopeAi)
    else if s == "github-release" then Some(GithubRelease)
    else if s == "kaggle" then Some(Kaggle)
    else if s == "http" then Some(Http)
    else if s == "filesystem" then Some(Filesystem)
    else None
  }

  lemma ProviderNames(p: Provider)
    ensures ProviderNamed(ProviderName(p)) == Some(p)
    ensures IsComponent(ProviderName(p)) && ':' !in ProviderName(p)
  {
  }

  // A SHA-256 in lower-case hexadecimal.
  predicate IsDigest(s: string) {
    |s| == 64 && forall c :: c in s ==> '0' <= c <= '9' || 'a' <= c <= 'f'
  }

  predicate Wellformed(s: Source) {
    s.digest.Some? ==> IsDigest(s.digest.value)
  }

  function ArtifactIdentity(s: Source): string {
    ProviderName(s.provider) + ":" + EncodeSegment(s.id) + ":"
    + (if s.digest.None? then EncodeSegment(s.revision) else EncodeSegment(s.revision) + ":files:" + s.digest.value)
  }

  const SUFFIX := "~files-"

  function RevisionSegment(s: Source): string {
    if s.digest.None? then s.revision else s.revision + SUFFIX + s.digest.value
  }

  // `_SELECTION_SUFFIX`: where the dot of the pattern stops at a newline.
  predicate HasSuffix(r: string) {
    |r| > 71 && IsDigest(r[|r|-64..]) && r[|r|-71..|r|-64] == SUFFIX && '\n' !in r[..|r|-71]
  }

  function EscapeEach(blank: char -> bool, values: seq<string>): Option<seq<string>> {
    if values == [] then Some([]) else
    var first, rest := Escape(blank, values[0]), EscapeEach(blank, values[1..]);
    if first.None? || rest.None? then None else Some([first.value] + rest.value)
  }

  function UnescapeEach(parts: seq<string>): Option<seq<string>> {
    if parts == [] then Some([]) else
    var first, rest := Unescape(parts[0]), UnescapeEach(parts[1..]);
    if first.None? || rest.None? then None else Some([first.value] + rest.value)
  }

  function SourceValues(s: Source): seq<string> {
    if s.provider.Http? then [s.id] else Split(s.id, '/')
  }

  // `artifact_relative_path`; None for its ValueError.
  function RelativePath(blank: char -> bool, s: Source): Option<string> {
    var segments, revision := EscapeEach(blank, SourceValues(s)), Escape(blank, RevisionSegment(s));
    if segments.None? || revision.None? then None
    else Some(Join([ProviderName(s.provider)] + segments.value + [revision.value], '/'))
  }

  // What `artifact_identity_from_relative_path` makes of the parts.
  function SourceOfParts(parts: seq<string>): Option<Source> {
    if |parts| < 3 || ProviderNamed(parts[0]).None? then None else
    var provider := ProviderNamed(parts[0]).value;
    var values, r := UnescapeEach(parts[1..|parts|-1]), Unescape(parts[|parts|-1]);
    if values.None? || r.None? || (provider.Http? && |values.value| != 1) then None else
    var id := if provider.Http? then values.value[0] else Join(values.value, '/');
    if HasSuffix(r.value) then Some(Source(provider, id, r.value[..|r.value|-71], Some(r.value[|r.value|-64..])))
    else Some(Source(provider, id, r.value, None))
  }

  // Only a path that prints back to itself is accepted.
  function SourceOfPath(blank: char -> bool, path: string): Option<Source> {
    var s := SourceOfParts(PathParts(path));
    if s.None? || RelativePath(blank, s.value) != Some(path) then None else s
  }

  function IdentityOfPath(blank: char -> bool, path: string): Option<string> {
    var s := SourceOfPath(blank, path);
    if s.None? then None else Some(ArtifactIdentity(s.value))
  }

  // ---- every accepted path is canonical, and identities tell paths apart -----------------------

  lemma SplitAtColon(a: string, b: string, x: string, y: string)
    requires ':' !in a && ':' !in b && a + ":" + x == b + ":" + y
    ensures a == b && x == y
  {
    SplitFirst(a, x, ':');
    SplitFirst(b, y, ':');
    assert a + ":" + x == a + [':'] + x && b + ":" + y == b + [':'] + y;
    assert ([a] + Split(x, ':'))[0] == ([b] + Split(y, ':'))[0];
    assert a == (a + ":" + x)[..|a|] && b == (b + ":" + y)[..|b|];
    assert x == (a + ":" + x)[|a|+1..] && y == (b + ":" + y)[|b|+1..];
  }

  lemma IdentityInjective(s: Source, t: Source)
    requires Wellformed(s) && Wellformed(t) && ArtifactIdentity(s) == ArtifactIdentity(t)
    ensures s == t
  {
    var a, b := EncodeSegment(s.id), EncodeSegment(t.id);
    var c, d := EncodeSegment(s.revision), EncodeSegment(t.revision);
    var x := if s.digest.None? then c else c + ":files:" + s.digest.value;
    var y := if t.digest.None? then d else d + ":files:" + t.digest.value;
    ProviderNames(s.provider);
    ProviderNames(t.provider);
    Base64NoColon(Utf8String(s.id));
    Base64NoColon(Utf8String(t.id));
    Base64NoColon(Utf8String(s.revision));
    Base64NoColon(Utf8String(t.revision));
    Regroups(ProviderName(s.provider), a, x);
    Regroups(ProviderName(t.provider), b, y);
    SplitAtColon(ProviderName(s.provider), ProviderName(t.provider), a + ":" + x, b + ":" + y);
    SplitAtColon(a, b, x, y);
    EncodeSegmentInjective(s.id, t.id);
    DigestTail(c, s.digest, d, t.digest);
    EncodeSegmentInjective(s.revision, t.revision);
  }

  lemma Regroups(a: string, b: string, c: string)
    ensures a + ":" + b + ":" + c == a + ":" + (b + ":" + c)
  {
  }

  lemma DigestTail(c: string, s: Option<string>, d: string, t: Option<string>)
    requires ':' !in c && ':' !in d
    requires (if s.None? then c else c + ":files:" + s.value) == (if t.None? then d else d + ":files:" + t.value)
    ensures c == d && s == t
  {
    if s.Some? { assert (c + ":files:" + s.value)[|c|] == ':'; }
    if t.Some? { assert (d + ":files:" + t.value)[|d|] == ':'; }
    if s.Some? && t.Some? {
      assert c + ":files:" + s.value == c + ":" + ("files:" + s.value);
      assert d + ":files:" + t.value == d + ":" + ("files:" + t.value);
      SplitAtColon(c, d, "files:" + s.value, "files:" + t.value);
      assert s.value == ("files:" + s.value)[6..] && t.value == ("files:" + t.value)[6..];
    }
  }

  lemma AcceptedIsCanonical(blank: char -> bool, path: string)
    requires SourceOfPath(blank, path).Some?
    ensures RelativePath(blank, SourceOfPath(blank, path).value) == Some(path) && Wellformed(SourceOfPath(blank, path).value)
  {
  }

  // No two accepted paths share an identity, and no other artifact has the
  // identity of an accepted path.
  lemma PathsHaveOwnIdentity(blank: char -> bool, path: string, s: Source)
    requires Wellformed(s) && IdentityOfPath(blank, path) == Some(ArtifactIdentity(s))
    ensures RelativePath(blank, s) == Some(path) && SourceOfPath(blank, path) == Some(s)
  {
    AcceptedIsCanonical(blank, path);
    IdentityInjective(SourceOfPath(blank, path).value, s);
  }

  // An accepted path is the one its source prints, and no other accepted path
  // has its identity.
  lemma AcceptedPathsDiffer(blank: char -> bool, path: string, other: string)
    requires IdentityOfPath(blank, path).Some? && IdentityOfPath(blank, path) == IdentityOfPath(blank, other)
    ensures path == other && RelativePath(blank, SourceOfPath(blank, other).value) == Some(path)
  {
    AcceptedIsCanonical(blank, other);
    PathsHaveOwnIdentity(blank, path, SourceOfPath(blank, other).value);
  }

  // ---- parsing a printed path --------------------------------------------------------------------

  lemma {:induction false} UnescapeEscapeEach(blank: char -> bool, values: seq<string>)
    requires EscapeEach(blank, values).Some?
    ensures var e := EscapeEach(blank, values).value;
            UnescapeEach(e) == Some(values) && |e| == |values| && forall p :: p in e ==> IsComponent(p)
  {
    if values != [] {
      UnescapeEscapeEach(blank, values[1..]);
      if values[0] != [] {
        UnescapeEscape(blank, values[0]);
        EscapedIsComponent(blank, values[0]);
      }
      assert EscapeEach(blank, values).value[1..] == EscapeEach(blank, values[1..]).value;
      assert values == [values[0]] + values[1..];
      hide Escape, Unescape;
    }
  }

  lemma PrintedParts(blank: char -> bool, s: Source)
    requires RelativePath(blank, s).Some?
    ensures var e, r := EscapeEach(blank, SourceValues(s)).value, Escape(blank, RevisionSegment(s)).value;
            PathParts(RelativePath(blank, s).value) == [ProviderName(s.provider)] + e + [r]
    ensures UnescapeEach(EscapeEach(blank, SourceValues(s)).value) == Some(SourceValues(s))
    ensures Unescape(Escape(blank, RevisionSegment(s)).value) == Some(RevisionSegment(s)) && RevisionSegment(s) != ""
  {
    UnescapeEscapeEach(blank, SourceValues(s));
    ProviderNames(s.provider);
    UnescapeEscape(blank, RevisionSegment(s));
    EscapedIsComponent(blank, RevisionSegment(s));
    var e, r := EscapeEach(blank, SourceValues(s)).value, Escape(blank, RevisionSegment(s)).value;
    PartsOfPath([ProviderName(s.provider)] + e + [r]);
    hide EscapeEach, Escape, Unescape, UnescapeEach, PathParts, Join;
  }

  // Does the printed revision read back as it was meant?
  predicate Plain(s: Source) {
    if s.digest.None? then !HasSuffix(s.revision) else s.revision != "" && '\n' !in s.revision
  }

  lemma SuffixOfSelection(s: Source)
    requires Wellformed(s) && s.digest.Some?
    ensures var r := RevisionSegment(s);
            && |r| == |s.revision| + 71 && r[..|r|-71] == s.revision && r[|r|-64..] == s.digest.value
            && (HasSuffix(r) <==> s.revision != "" && '\n' !in s.revision)
  {
    var r := RevisionSegment(s);
    assert r[..|r|-71] == s.revision && r[|r|-64..] == s.digest.value && r[|r|-71..|r|-64] == SUFFIX;
  }

  // The source of a revision segment: the whole segment is the revision when
  // the suffix is not recognised.
  function SourceRead(provider: Provider, id: string, r: string): Source {
    if HasSuffix(r) then Source(provider, id, r[..|r|-71], Some(r[|r|-64..])) else Source(provider, id, r, None)
  }

  lemma PartsRead(provider: Provider, e: seq<string>, r: string)
    requires UnescapeEach(e).Some? && Unescape(r).Some? && |e| >= 1 && (provider.Http? ==> |UnescapeEach(e).value| == 1)
    ensures var values := UnescapeEach(e).value;
            SourceOfParts([ProviderName(provider)] + e + [r])
            == Some(SourceRead(provider, if provider.Http? then values[0] else Join(values, '/'), Unescape(r).value))
  {
    ProviderNames(provider);
    var parts := [ProviderName(provider)] + e + [r];
    assert parts[1..|parts|-1] == e && parts[|parts|-1] == r && parts[0] == ProviderName(provider);
    hide UnescapeEach, Unescape, Join, HasSuffix, ProviderName, ProviderNamed;
  }

  lemma ReadBack(blank: char -> bool, s: Source)
    requires Wellformed(s) && RelativePath(blank, s).Some?
    ensures SourceOfParts(PathParts(RelativePath(blank, s).value)) == Some(SourceRead(s.provider, s.id, RevisionSegment(s)))
  {
    PrintedParts(blank, s);
    UnescapeEscapeEach(blank, SourceValues(s));
    if !s.provider.Http? { JoinSplit(s.id, '/'); }
    var e, r := EscapeEach(blank, SourceValues(s)).value, Escape(blank, RevisionSegment(s)).value;
    assert |SourceValues(s)| >= 1 && (s.provider.Http? ==> SourceValues(s) == [s.id]);
    assert s.id == if s.provider.Http? then SourceValues(s)[0] else Join(SourceValues(s), '/');
    hide *;
    PartsRead(s.provider, e, r);
  }

  lemma PrintsTheSame(blank: char -> bool, s: Source, t: Source)
    requires t.provider == s.provider && t.id == s.id && RevisionSegment(t) == RevisionSegment(s)
    ensures RelativePath(blank, t) == RelativePath(blank, s)
  {
  }

  lemma RejoinSuffix(r: string)
    requires HasSuffix(r)
    ensures r[..|r|-71] + SUFFIX + r[|r|-64..] == r
  {
  }

  // Every printed path is accepted, and its identity is the artifact's own
  // exactly when the revision reads back as it was meant.
  lemma PrintedIsAccepted(blank: char -> bool, s: Source)
    requires Wellformed(s) && RelativePath(blank, s).Some?
    ensures SourceOfPath(blank, RelativePath(blank, s).value).Some?
    ensures IdentityOfPath(blank, RelativePath(blank, s).value) == Some(ArtifactIdentity(s)) <==> Plain(s)
  {
    var path, r := RelativePath(blank, s).value, RevisionSegment(s);
    var t := SourceRead(s.provider, s.id, r);
    ReadBack(blank, s);
    if HasSuffix(r) { RejoinSuffix(r); }
    PrintsTheSame(blank, s, t);
    assert SourceOfPath(blank, path) == Some(t);
    if s.digest.Some? { SuffixOfSelection(s); }
    if ArtifactIdentity(t) == ArtifactIdentity(s) { IdentityInjective(t, s); }
    assert t == s <==> Plain(s);
  }

  // A revision that imitates a selection: the path reads back as the identity
  // of the selection.
  lemma ImitatedSelection(blank: char -> bool, digest: string, s: Source, t: Source)
    requires digest == seq(64, _ => '0')
    requires s == Source(HuggingFace, "m", "main" + SUFFIX + digest, None) && t == Source(HuggingFace, "m", "main", Some(digest))
    ensures RelativePath(blank, s).Some? && RelativePath(blank, s) == RelativePath(blank, t)
    ensures IdentityOfPath(blank, RelativePath(blank, s).value) == Some(ArtifactIdentity(t)) != Some(ArtifactIdentity(s))
  {
    SplitNone("m", '/');
    UnescapeEscape(blank, "m");
    UnescapeEscape(blank, RevisionSegment(s));
    assert EscapeEach(blank, []) == Some([]) && EscapeEach(blank, ["m"]).Some?;
    hide Escape, Unescape, ArtifactIdentity, HasSuffix, Plain, Join;
    PrintsTheSame(blank, s, t);
    PlainSelection(t);
    PrintedIsAccepted(blank, t);
    if ArtifactIdentity(s) == ArtifactIdentity(t) { IdentityInjective(s, t); }
  }

  lemma PlainSelection(t: Source)
    requires t.digest.Some? && t.revision == "main"
    ensures Plain(t)
  {
  }
}
