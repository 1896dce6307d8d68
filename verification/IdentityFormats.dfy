// The printed forms themselves: digits of base64url by their bits, what an
// escape leaves alone, and the layout of identities and paths.
module IdentityFormats {
  import opened TaskTypes
  import opened Encoding
  import opened Identity
  import opened Strings

  // ---- base64url (section 5 of RFC 4648) -----------------------------------------------

  function ByteAt(b: seq<Byte>, i: nat): Byte {
    if i < |b| then b[i] else 0
  }

  // Bits 6k to 6k+5 of the bytes, zero bits after the last one.
  function Sextet(b: seq<Byte>, k: nat): int {
    var pair := Pair(ByteAt(b, 6 * k / 8), ByteAt(b, 6 * k / 8 + 1));
    match 6 * k % 8
    case 0 => pair / 1024 % 64
    case 2 => pair / 256 % 64
    case 4 => pair / 64 % 64
    case _ => pair / 16 % 64
  }

  // The ends of the four ranges of digits.
  lemma DigitVectors()
    ensures Digit64(0) == 'A' && Digit64(25) == 'Z' && Digit64(26) == 'a' && Digit64(51) == 'z'
    ensures Digit64(52) == '0' && Digit64(61) == '9' && Digit64(62) == '-' && Digit64(63) == '_'
  {
  }

  lemma SextetInRange(b: seq<Byte>, k: nat)
    ensures 0 <= Sextet(b, k) < 64
  {
  }

  lemma FirstSextets(b: seq<Byte>)
    requires b != []
    ensures Sextet(b, 0) == b[0] / 4
    ensures Sextet(b, 1) == b[0] % 4 * 16 + ByteAt(b, 1) / 16
    ensures Sextet(b, 2) == ByteAt(b, 1) % 16 * 4 + ByteAt(b, 2) / 64
    ensures Sextet(b, 3) == ByteAt(b, 2) % 64
  {
    SextetPairs(b);
    FirstByte(b);
    HighBits(ByteAt(b, 0), ByteAt(b, 1));
    AcrossTwo(ByteAt(b, 0), ByteAt(b, 1));
    AcrossFour(ByteAt(b, 1), ByteAt(b, 2));
    LowBits(ByteAt(b, 2), ByteAt(b, 3));
    hide *;
  }

  function Pair(x: Byte, y: Byte): int { x * 256 + y }

  lemma SextetPairs(b: seq<Byte>)
    ensures Sextet(b, 0) == Pair(ByteAt(b, 0), ByteAt(b, 1)) / 1024 % 64 && Sextet(b, 1) == Pair(ByteAt(b, 0), ByteAt(b, 1)) / 16 % 64
    ensures Sextet(b, 2) == Pair(ByteAt(b, 1), ByteAt(b, 2)) / 64 % 64 && Sextet(b, 3) == Pair(ByteAt(b, 2), ByteAt(b, 3)) / 256 % 64
  {
    hide ByteAt;
  }

  lemma FirstByte(b: seq<Byte>)
    requires b != []
    ensures ByteAt(b, 0) == b[0]
  {
  }

  lemma HighBits(x: Byte, y: Byte)
    ensures Pair(x, y) / 1024 % 64 == x / 4
  {
    assert x * 256 + y == 1024 * (x / 4) + (256 * (x % 4) + y);
  }

  lemma LowBits(x: Byte, y: Byte)
    ensures Pair(x, y) / 256 % 64 == x % 64
  {
    assert (x * 256 + y) / 256 == x;
  }

  lemma AcrossTwo(x: Byte, y: Byte)
    ensures Pair(x, y) / 16 % 64 == x % 4 * 16 + y / 16
  {
    var high, mid := x / 4, x % 4 * 16 + y / 16;
    assert Pair(x, y) == (high * 64 + mid) * 16 + y % 16;
    Sixteenth(high * 64 + mid, y % 16);
    LowSix(high, mid);
  }

  lemma Sixteenth(q: int, r: int)
    requires 0 <= r < 16
    ensures (q * 16 + r) / 16 == q
  {
  }

  lemma LowSix(high: int, low: int)
    requires 0 <= low < 64
    ensures (high * 64 + low) % 64 == low && (high * 64 + low) / 64 == high
  {
  }

  lemma AcrossFour(x: Byte, y: Byte)
    ensures Pair(x, y) / 64 % 64 == x % 16 * 4 + y / 64
  {
    var high, mid := x / 16, x % 16 * 4 + y / 64;
    assert Pair(x, y) == (high * 64 + mid) * 64 + y % 64;
    LowSix(high * 64 + mid, y % 64);
    LowSix(high, mid);
  }

  lemma LaterSextet(b: seq<Byte>, k: nat)
    requires |b| >= 3
    ensures Sextet(b, k + 4) == Sextet(b[3..], k)
  {
    assert 6 * (k + 4) / 8 == 6 * k / 8 + 3 && 6 * (k + 4) % 8 == 6 * k % 8;
  }

  // Each digit is the one its six bits select, and there are as many as the
  // bits need.
  lemma {:induction false} Base64ByBits(b: seq<Byte>, k: nat)
    requires k < |Base64Url(b)|
    ensures 0 <= Sextet(b, k) < 64 && Base64Url(b)[k] == Digit64(Sextet(b, k)) && |Base64Url(b)| == (8 * |b| + 5) / 6
  {
    SextetInRange(b, k);
    Base64Length(b);
    hide Sextet, Digit64, ByteAt;
    if k < 4 {
      FirstDigits(b, k);
    } else {
      Base64ByBits(b[3..], k - 4);
      LaterSextet(b, k - 4);
    }
  }

  lemma FirstDigits(b: seq<Byte>, k: nat)
    requires k < |Base64Url(b)| && k < 4
    ensures 0 <= Sextet(b, k) < 64 && Base64Url(b)[k] == Digit64(Sextet(b, k))
  {
    SextetInRange(b, k);
    if k == 0 {
      FirstDigit(b);
    } else if k == 1 {
      SecondDigit(b);
    } else if k == 2 {
      ThirdDigit(b);
    } else {
      FourthDigit(b);
    }
    hide *;
  }

  lemma FirstDigit(b: seq<Byte>)
    requires |Base64Url(b)| > 0
    ensures Base64Url(b)[0] == Digit64(Sextet(b, 0))
  {
    FirstSextets(b);
    hide Sextet, Digit64, ByteAt;
  }

  lemma SecondDigit(b: seq<Byte>)
    requires |Base64Url(b)| > 1
    ensures Base64Url(b)[1] == Digit64(Sextet(b, 1))
  {
    FirstSextets(b);
    hide Sextet, Digit64;
  }

  lemma ThirdDigit(b: seq<Byte>)
    requires |Base64Url(b)| > 2
    ensures Base64Url(b)[2] == Digit64(Sextet(b, 2))
  {
    FirstSextets(b);
    hide Sextet, Digit64;
  }

  lemma FourthDigit(b: seq<Byte>)
    requires |Base64Url(b)| > 3
    ensures Base64Url(b)[3] == Digit64(Sextet(b, 3))
  {
    FirstSextets(b);
    hide Sextet, Digit64;
  }

  lemma {:induction false} Base64Length(b: seq<Byte>)
    ensures |Base64Url(b)| == (8 * |b| + 5) / 6
  {
    if |b| >= 3 { Base64Length(b[3..]); }
  }

  // One character of each length (RFC 3629).
  lemma Utf8Vectors()
    ensures Utf8('A') == [0x41] && Utf8('\U{E9}') == [0xC3, 0xA9]
    ensures Utf8('\U{20AC}') == [0xE2, 0x82, 0xAC] && Utf8('\U{1F600}') == [0xF0, 0x9F, 0x98, 0x80]
  {
  }

  // ---- escapes (section 2.1 of RFC 3986) --------------------------------------------------

  predicate Safe(blank: char -> bool, v: string) {
    forall c :: c in v ==> !Unsafe(blank, c)
  }

  lemma {:induction false} SafeEscapes(blank: char -> bool, v: string)
    ensures Safe(blank, v) ==> EscapeAll(blank, v) == v
    ensures |EscapeAll(blank, v)| >= |v| && (|EscapeAll(blank, v)| == |v| ==> Safe(blank, v))
  {
    if v != [] {
      var init, last := v[..|v|-1], v[|v|-1];
      assert v == init + [last];
      SafeEscapes(blank, init);
      PercentLength(Utf8(last));
      hide Utf8, PercentBytes;
    }
  }

  lemma {:induction false} PercentLength(b: seq<Byte>)
    ensures |PercentBytes(b)| == 3 * |b|
  {
    if b != [] { PercentLength(b[1..]); }
  }

  // A segment stays as it is exactly when nothing in it is unsafe and it is no
  // dot component.
  lemma EscapeKeeps(blank: char -> bool, v: string)
    ensures Escape(blank, v) == Some(v) <==> v !in {"", ".", ".."} && Safe(blank, v)
  {
    SafeEscapes(blank, v);
  }

  // An unsafe character becomes its byte, or bytes, in upper-case digits.
  lemma AsciiEscaped(blank: char -> bool, c: char)
    requires Unsafe(blank, c) && c as int < 0x80 && !blank('a') && !blank('b')
    ensures Escape(blank, ['a', c, 'b']) == Some(['a', '%', HexDigit(c as int / 16), HexDigit(c as int % 16), 'b'])
  {
    var e := ['%', HexDigit(c as int / 16), HexDigit(c as int % 16)];
    assert Utf8(c) == [c as int] && PercentBytes([c as int][1..]) == "";
    assert PercentBytes(Utf8(c)) == e;
    hide HexDigit, PercentBytes, Utf8;
    OneEscaped(blank, c, e);
    assert "a" + e + "b" == ['a', e[0], e[1], e[2], 'b'];
  }

  lemma TwoBytesEscaped(blank: char -> bool)
    requires blank('\U{E9}') && !blank('a') && !blank('b')
    ensures Escape(blank, "a\U{E9}b") == Some("a%C3%A9b")
  {
    assert PercentBytes([0xA9]) == "%A9" && [0xC3, 0xA9][1..] == [0xA9];
    assert PercentBytes([0xC3, 0xA9]) == "%C3" + "%A9";
    assert Utf8('\U{E9}') == [0xC3, 0xA9];
    hide PercentBytes, Utf8, EscapeAll;
    OneEscaped(blank, '\U{E9}', "%C3%A9");
    assert "a" + "%C3%A9" + "b" == "a%C3%A9b";
  }

  lemma HexDigits()
    ensures HexDigit(0) == '0' && HexDigit(9) == '9' && HexDigit(10) == 'A' && HexDigit(15) == 'F'
  {
  }

  // Dot components are escaped, the empty segment is refused.
  lemma DotsEscaped(blank: char -> bool)
    ensures Escape(blank, ".") == Some("%2E") && Escape(blank, "..") == Some("%2E%2E") && Escape(blank, "") == None
  {
    DotsEscape(blank);
    hide EscapeAll;
  }

  lemma OneEscaped(blank: char -> bool, c: char, e: string)
    requires !blank('a') && !blank('b') && EscapeChar(blank, c) == e && |e| >= 3
    ensures Escape(blank, ['a', c, 'b']) == Some("a" + e + "b")
  {
    var v := ['a', c, 'b'];
    assert v[..2] == ['a', c] && v[..2][..1] == ['a'] && ['a'][..0] == [];
    assert EscapeAll(blank, []) == "" && EscapeAll(blank, ['a']) == "a";
    assert EscapeAll(blank, ['a', c]) == "a" + e;
    assert EscapeAll(blank, v) == "a" + e + "b";
  }

  // ---- identities and paths ------------------------------------------------------------------

  // Provider, source and revision, with the selection at the end.
  lemma IdentityVector(digest: string)
    ensures ArtifactIdentity(Source(HuggingFace, "a/b", "main", None)) == "huggingface:YS9i:bWFpbg"
    ensures ArtifactIdentity(Source(HuggingFace, "a/b", "main", Some(digest))) == "huggingface:YS9i:bWFpbg:files:" + digest
  {
    MainEncoded();
    ModelEncoded();
    hide EncodeSegment;
    assert "huggingface" + ":" + "YS9i" + ":" == "huggingface:YS9i:";
    assert "huggingface:YS9i:" + "bWFpbg" == "huggingface:YS9i:bWFpbg";
    assert "huggingface:YS9i:" + ("bWFpbg" + ":files:" + digest) == "huggingface:YS9i:bWFpbg" + ":files:" + digest;
    assert "huggingface:YS9i:bWFpbg" + ":files:" == "huggingface:YS9i:bWFpbg:files:";
  }

  lemma {:induction false} AsciiBytes(s: string)
    requires forall i :: 0 <= i < |s| ==> s[i] as int < 0x80
    ensures |Utf8String(s)| == |s| && forall i :: 0 <= i < |s| ==> Utf8String(s)[i] == s[i] as int
  {
    if s != [] { AsciiBytes(s[1..]); }
  }

  lemma MainEncoded()
    ensures EncodeSegment("main") == "bWFpbg"
  {
    AsciiBytes("main");
    var b := Utf8String("main");
    assert b == [0x6D, 0x61, 0x69, 0x6E];
    assert b[3..] == [0x6E];
    assert Base64Url([0x6E]) == "bg";
    assert Base64Url(b) == "bWFp" + Base64Url(b[3..]);
  }

  lemma ModelEncoded()
    ensures EncodeSegment("a/b") == "YS9i"
  {
    AsciiBytes("a/b");
    var b := Utf8String("a/b");
    assert b == [0x61, 0x2F, 0x62];
    assert b[3..] == [];
  }

  lemma ThreeBytes(x: Byte, y: Byte, z: Byte, rest: seq<Byte>, e: string)
    requires e == [Digit64(x / 4), Digit64(x % 4 * 16 + y / 16), Digit64(y % 16 * 4 + z / 64), Digit64(z % 64)]
    ensures Base64Url([x, y, z] + rest) == e + Base64Url(rest)
  {
    assert ([x, y, z] + rest)[3..] == rest;
  }

  // Values that need no escape are the path.
  predicate PlainValues(blank: char -> bool, values: seq<string>) {
    forall i :: 0 <= i < |values| ==> values[i] !in {"", ".", ".."} && Safe(blank, values[i])
  }

  lemma PlainRest(blank: char -> bool, values: seq<string>)
    requires values != [] && PlainValues(blank, values)
    ensures PlainValues(blank, values[1..]) && Escape(blank, values[0]) == Some(values[0])
  {
    EscapeKeeps(blank, values[0]);
    hide Safe, Escape;
  }

  lemma {:induction false} PlainEach(blank: char -> bool, values: seq<string>)
    requires PlainValues(blank, values)
    ensures EscapeEach(blank, values) == Some(values)
  {
    hide Escape, PlainValues;
    if values != [] {
      PlainRest(blank, values);
      PlainEach(blank, values[1..]);
      assert values == [values[0]] + values[1..];
    }
  }

  lemma JoinEnds(first: string, values: seq<string>, last: string)
    requires values != []
    ensures Join([first] + values + [last], '/') == first + "/" + Join(values, '/') + "/" + last
  {
    JoinLast(values, last);
    assert [first] + values + [last] == [first] + (values + [last]);
    assert ([first] + (values + [last]))[1..] == values + [last];
  }

  lemma {:induction false} JoinLast(values: seq<string>, last: string)
    requires values != []
    ensures Join(values + [last], '/') == Join(values, '/') + "/" + last
  {
    assert (values + [last])[1..] == values[1..] + [last];
    if |values| > 1 { JoinLast(values[1..], last); }
  }

  // Below the provider come the source and the revision, in their own words
  // when nothing in them needs an escape.
  lemma PathLayout(blank: char -> bool, s: Source)
    requires PlainValues(blank, SourceValues(s)) && PlainValues(blank, [RevisionSegment(s)])
    ensures RelativePath(blank, s) == Some(ProviderName(s.provider) + "/" + s.id + "/" + RevisionSegment(s))
    ensures RevisionSegment(s) == s.revision + if s.digest.None? then "" else "~files-" + s.digest.value
  {
    var values, r, name := SourceValues(s), RevisionSegment(s), ProviderName(s.provider);
    PlainEach(blank, values);
    assert [r][0] == r;
    EscapeKeeps(blank, r);
    ValuesJoin(s);
    assert RelativePath(blank, s) == Some(Join([name] + values + [r], '/'));
    hide *;
    JoinEnds(name, values, r);
  }

  lemma ValuesJoin(s: Source)
    ensures SourceValues(s) != [] && Join(SourceValues(s), '/') == s.id
    ensures RevisionSegment(s) == s.revision + if s.digest.None? then "" else "~files-" + s.digest.value
  {
    JoinSplit(s.id, '/');
    assert s.digest.Some? ==> s.revision + SUFFIX + s.digest.value == s.revision + ("~files-" + s.digest.value);
  }
}
