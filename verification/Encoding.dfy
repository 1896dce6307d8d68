// UTF-8 (RFC 3629) and unpadded base64url (section 5 of RFC 4648).
module Encoding {
  import opened TaskTypes

  type Byte = n: int | 0 <= n < 256

  // ---- UTF-8 ---------------------------------------------------------------------

  predicate IsScalar(n: int) {
    0 <= n < 0xD800 || 0xE000 <= n < 0x11_0000
  }

  function Utf8(c: char): (b: seq<Byte>)
    ensures 1 <= |b| <= 4
    ensures c as int < 0x80 <==> b[0] < 0x80
  {
    var n := c as int;
    if n < 0x80 then [n]
    else if n < 0x800 then [0xC0 + n / 64, 0x80 + n % 64]
    else if n < 0x1_0000 then [0xE0 + n / 4096, 0x80 + n / 64 % 64, 0x80 + n % 64]
    else [0xF0 + n / 262144, 0x80 + n / 4096 % 64, 0x80 + n / 64 % 64, 0x80 + n % 64]
  }

  function Utf8String(s: string): seq<Byte> {
    if s == [] then [] else Utf8(s[0]) + Utf8String(s[1..])
  }

  // The length the first byte announces; 0 for a byte that starts nothing.
  function Width(b: Byte): nat {
    if b < 0x80 then 1 else if b < 0xC0 then 0 else if b < 0xE0 then 2 else if b < 0xF0 then 3 else if b < 0xF8 then 4 else 0
  }

  function CodePoint(b: seq<int>): int
    requires 1 <= |b| <= 4
  {
    if |b| == 1 then b[0]
    else if |b| == 2 then (b[0] - 0xC0) * 64 + (b[1] - 0x80)
    else if |b| == 3 then (b[0] - 0xE0) * 4096 + (b[1] - 0x80) * 64 + (b[2] - 0x80)
    else (b[0] - 0xF0) * 262144 + (b[1] - 0x80) * 4096 + (b[2] - 0x80) * 64 + (b[3] - 0x80)
  }

  // Strict decoding: the first character, if the bytes begin with exactly its
  // shortest encoding.
  function FirstChar(b: seq<Byte>): (c: Option<char>)
    ensures c.Some? ==> |Utf8(c.value)| <= |b| && b[..|Utf8(c.value)|] == Utf8(c.value)
  {
    if |b| == 0 || Width(b[0]) == 0 || Width(b[0]) > |b| then None else
    var head := b[..Width(b[0])];
    var n := CodePoint(head);
    if IsScalar(n) && Utf8(n as char) == head then Some(n as char) else None
  }

  lemma Digits(n: int)
    requires n >= 0
    ensures n == n / 64 * 64 + n % 64
    ensures n == n / 4096 * 4096 + n / 64 % 64 * 64 + n % 64
    ensures n == n / 262144 * 262144 + n / 4096 % 64 * 4096 + n / 64 % 64 * 64 + n % 64
  {
    var a := n / 64;
    var b := a / 64;
    assert n / 4096 == b && n / 262144 == b / 64;
  }

  lemma CodePointOf(c: char)
    ensures CodePoint(Utf8(c)) == c as int && Width(Utf8(c)[0]) == |Utf8(c)|
  {
    Digits(c as int);
  }

  lemma FirstCharDecodes(c: char, rest: seq<Byte>)
    ensures FirstChar(Utf8(c) + rest) == Some(c)
  {
    CodePointOf(c);
    assert (Utf8(c) + rest)[..|Utf8(c)|] == Utf8(c);
    hide Utf8, CodePoint, Width;
  }

  lemma {:induction false} Utf8Injective(s: string, t: string)
    requires Utf8String(s) == Utf8String(t)
    ensures s == t
  {
    if s == [] || t == [] {
    } else {
      FirstCharDecodes(s[0], Utf8String(s[1..]));
      FirstCharDecodes(t[0], Utf8String(t[1..]));
      assert Utf8String(s)[|Utf8(s[0])|..] == Utf8String(s[1..]);
      assert Utf8String(t)[|Utf8(t[0])|..] == Utf8String(t[1..]);
      Utf8Injective(s[1..], t[1..]);
    }
  }

  // ---- base64url -------------------------------------------------------------------

  predicate Alphabet64(c: char) {
    'A' <= c <= 'Z' || 'a' <= c <= 'z' || '0' <= c <= '9' || c == '-' || c == '_'
  }

  function Digit64(n: int): char
    requires 0 <= n < 64
  {
    if n < 26 then 'A' + n as char
    else if n < 52 then 'a' + (n - 26) as char
    else if n < 62 then '0' + (n - 52) as char
    else if n == 62 then '-' else '_'
  }

  function Value64(c: char): int {
    if 'A' <= c <= 'Z' then c as int - 'A' as int
    else if 'a' <= c <= 'z' then c as int - 'a' as int + 26
    else if '0' <= c <= '9' then c as int - '0' as int + 52
    else if c == '-' then 62 else 63
  }

  lemma ValueOfDigit(n: int)
    requires 0 <= n < 64
    ensures Value64(Digit64(n)) == n
  {
  }

  function Base64Url(b: seq<Byte>): string {
    if |b| == 0 then []
    else if |b| == 1 then [Digit64(b[0] / 4), Digit64(b[0] % 4 * 16)]
    else if |b| == 2 then [Digit64(b[0] / 4), Digit64(b[0] % 4 * 16 + b[1] / 16), Digit64(b[1] % 16 * 4)]
    else [Digit64(b[0] / 4), Digit64(b[0] % 4 * 16 + b[1] / 16), Digit64(b[1] % 16 * 4 + b[2] / 64), Digit64(b[2] % 64)]
         + Base64Url(b[3..])
  }

  function Unpack(n: int): Byte { if 0 <= n < 256 then n else 0 }

  function FromBase64Url(s: string): seq<Byte> {
    if |s| < 2 then []
    else if |s| == 2 then [Unpack(Value64(s[0]) * 4 + Value64(s[1]) / 16)]
    else if |s| == 3 then [Unpack(Value64(s[0]) * 4 + Value64(s[1]) / 16), Unpack(Value64(s[1]) % 16 * 16 + Value64(s[2]) / 4)]
    else [Unpack(Value64(s[0]) * 4 + Value64(s[1]) / 16), Unpack(Value64(s[1]) % 16 * 16 + Value64(s[2]) / 4),
          Unpack(Value64(s[2]) % 4 * 64 + Value64(s[3]))] + FromBase64Url(s[4..])
  }

  // Two bytes leave four bits for the third digit, one byte two for the second.
  lemma BitsRejoin(a: Byte, b: Byte, c: Byte)
    ensures a / 4 * 4 + (a % 4 * 16 + b / 16) / 16 == a
    ensures (a % 4 * 16 + b / 16) % 16 * 16 + (b % 16 * 4 + c / 64) / 4 == b
    ensures (b % 16 * 4 + c / 64) % 4 * 64 + c % 64 == c
  {
  }

  lemma {:induction false} Base64RoundTrip(b: seq<Byte>)
    ensures FromBase64Url(Base64Url(b)) == b
  {
    if |b| > 0 {
      var x, y, z := b[0], if |b| > 1 then b[1] else 0, if |b| > 2 then b[2] else 0;
      BitsRejoin(x, y, z);
      ValueOfDigit(x / 4);
      ValueOfDigit(x % 4 * 16 + y / 16);
      ValueOfDigit(y % 16 * 4 + z / 64);
      ValueOfDigit(z % 64);
      hide Digit64, Value64;
      if |b| >= 3 {
        Base64RoundTrip(b[3..]);
        assert Base64Url(b)[4..] == Base64Url(b[3..]);
      }
    }
  }

  lemma {:induction false} Base64NoColon(b: seq<Byte>)
    ensures ':' !in Base64Url(b) && |Base64Url(b)| <= 2 * |b|
    ensures forall c :: c in Base64Url(b) ==> Alphabet64(c)
  {
    if |b| >= 3 { Base64NoColon(b[3..]); }
  }

  // `encode_segment`
  function EncodeSegment(value: string): string {
    Base64Url(Utf8String(value))
  }

  lemma EncodeSegmentInjective(s: string, t: string)
    requires EncodeSegment(s) == EncodeSegment(t)
    ensures s == t
  {
    Base64RoundTrip(Utf8String(s));
    Base64RoundTrip(Utf8String(t));
    Utf8Injective(s, t);
  }
}
