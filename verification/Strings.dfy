// Strings: the order of Go and Python, decimal digits, joining and splitting.
module Strings {
  predicate Less(s: string, t: string) {
    t != "" && (s == "" || s[0] < t[0] || (s[0] == t[0] && Less(s[1..], t[1..])))
  }

  lemma {:induction false} LessTotal(s: string, t: string)
    ensures Less(s, t) || s == t || Less(t, s)
    ensures Less(s, t) ==> !Less(t, s) && s != t
  {
    if s != "" && t != "" {
      LessTotal(s[1..], t[1..]);
      assert s == [s[0]] + s[1..] && t == [t[0]] + t[1..];
    }
  }

  lemma {:induction false} LessTransitive(s: string, t: string, u: string)
    requires Less(s, t) && Less(t, u)
    ensures Less(s, u)
  {
    if s != "" && s[0] == t[0] == u[0] { LessTransitive(s[1..], t[1..], u[1..]); }
  }

  // A proper beginning comes first; otherwise the first difference decides.
  lemma {:induction false} LessExact(s: string, t: string)
    ensures Less(s, t) <==> exists i :: 0 <= i < |t| && i <= |s| && s[..i] == t[..i] && (i == |s| || s[i] < t[i])
  {
    if s != "" && t != "" {
      LessExact(s[1..], t[1..]);
      if Less(s, t) && s[0] == t[0] {
        var i :| 0 <= i < |t[1..]| && i <= |s[1..]| && s[1..][..i] == t[1..][..i] && (i == |s[1..]| || s[1..][i] < t[1..][i]);
        assert s[..i+1] == [s[0]] + s[1..][..i] && t[..i+1] == [t[0]] + t[1..][..i];
      }
      if i :| 0 <= i < |t| && i <= |s| && s[..i] == t[..i] && (i == |s| || s[i] < t[i]) {
        if i > 0 {
          assert s[0] == s[..i][0] == t[..i][0] == t[0];
          assert s[1..][..i-1] == s[..i][1..] && t[1..][..i-1] == t[..i][1..];
        }
      }
    } else if t != "" {
      assert s[..0] == t[..0];
    }
  }

  // ---- digits ------------------------------------------------------------------------

  predicate IsDigit(c: char) { '0' <= c <= '9' }

  predicate AllDigits(s: string) { forall c :: c in s ==> IsDigit(c) }

  function DigitOf(c: char): (d: nat)
    ensures d < 10
    ensures IsDigit(c) ==> d == c as int - '0' as int
  {
    if IsDigit(c) then c as int - '0' as int else 0
  }

  // The value of a digit string, without bound.
  function Value(s: string): nat {
    if s == "" then 0 else Value(s[..|s|-1]) * 10 + DigitOf(s[|s|-1])
  }

  predicate NoLeadingZero(s: string) { |s| > 1 ==> s[0] != '0' }

  // The decimal digits of a number.
  function Decimal(n: nat): string {
    if n < 10 then ['0' + n as char] else Decimal(n / 10) + ['0' + (n % 10) as char]
  }

  lemma {:induction false} DecimalValue(n: nat)
    ensures var s := Decimal(n); s != "" && AllDigits(s) && Value(s) == n && NoLeadingZero(s) && (n > 0 ==> s[0] != '0')
  {
    if n >= 10 {
      DecimalValue(n / 10);
      assert Decimal(n)[..|Decimal(n)|-1] == Decimal(n / 10);
    } else {
      assert Decimal(n)[..0] == "";
    }
  }

  // ---- joining and splitting at a separator --------------------------------------------

  function Join(parts: seq<string>, sep: char): string {
    if parts == [] then "" else if |parts| == 1 then parts[0] else parts[0] + [sep] + Join(parts[1..], sep)
  }

  // Python's `split(sep)`: never empty.
  function Split(s: string, sep: char): (parts: seq<string>)
    ensures |parts| > 0
  {
    if s == "" then [""]
    else
      var rest := Split(s[1..], sep);
      if s[0] == sep then [""] + rest else [[s[0]] + rest[0]] + rest[1..]
  }

  lemma {:induction false} JoinSplit(s: string, sep: char)
    ensures Join(Split(s, sep), sep) == s
  {
    if s != "" {
      JoinSplit(s[1..], sep);
      var rest := Split(s[1..], sep);
      if s[0] == sep {
        assert ([""] + rest)[1..] == rest;
      } else {
        assert ([[s[0]] + rest[0]] + rest[1..])[1..] == rest[1..];
      }
    }
  }

  lemma {:induction false} SplitFirst(a: string, s: string, sep: char)
    requires sep !in a
    ensures Split(a + [sep] + s, sep) == [a] + Split(s, sep)
  {
    if a == "" {
      assert (a + [sep] + s)[1..] == s;
    } else {
      SplitFirst(a[1..], s, sep);
      assert (a + [sep] + s)[1..] == a[1..] + [sep] + s && a == [a[0]] + a[1..];
    }
  }

  lemma {:induction false} SplitNone(a: string, sep: char)
    requires sep !in a
    ensures Split(a, sep) == [a]
  {
    if a != "" {
      SplitNone(a[1..], sep);
      assert a == [a[0]] + a[1..];
    }
  }

  lemma {:induction false} SplitJoin(parts: seq<string>, sep: char)
    requires |parts| > 0 && forall p :: p in parts ==> sep !in p
    ensures Split(Join(parts, sep), sep) == parts
  {
    if |parts| == 1 {
      SplitNone(parts[0], sep);
    } else {
      SplitFirst(parts[0], Join(parts[1..], sep), sep);
      SplitJoin(parts[1..], sep);
    }
  }
}
