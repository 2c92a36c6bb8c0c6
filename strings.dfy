/**
 * The few string operations of Go's standard library that the translation
 * engine relies on: strings.Contains, Split, HasPrefix/TrimPrefix, TrimSpace,
 * EqualFold (ASCII folding only) and the decimal formatting of fmt's %d.
 */
module Strings {

  /** A dictionary from source text to its translation, Go's map[string]string. */
  type Table = map<string, string>

  /** unicode.IsSpace: the ASCII white space plus the Unicode White_Space code points. */
  predicate IsSpace(c: char) {
    var n := c as int;
    || n == 0x20 || 0x09 <= n <= 0x0D || n == 0x85 || n == 0xA0 || n == 0x1680
    || 0x2000 <= n <= 0x200A || n == 0x2028 || n == 0x2029 || n == 0x202F || n == 0x205F || n == 0x3000
  }

  predicate AllSpace(s: string) {
    forall i :: 0 <= i < |s| ==> IsSpace(s[i])
  }

  /** s neither starts nor ends with white space. */
  predicate Trimmed(s: string) {
    s == [] || (!IsSpace(s[0]) && !IsSpace(s[|s| - 1]))
  }

  lemma AllSpaceConcat(a: string, b: string)
    requires AllSpace(a) && AllSpace(b)
    ensures AllSpace(a + b)
  {
    forall i | 0 <= i < |a + b|
      ensures IsSpace((a + b)[i])
    {
      if i < |a| {
        assert (a + b)[i] == a[i];
      } else {
        assert (a + b)[i] == b[i - |a|];
      }
    }
  }

  /** The length of the run of white space s starts with. */
  function LeadingSpaces(s: string): (n: nat)
    ensures n <= |s| && AllSpace(s[..n])
    ensures n == |s| || !IsSpace(s[n])
  {
    if |s| > 0 && IsSpace(s[0]) then
      var t := s[1..];
      var m := LeadingSpaces(t);
      assert s[..m + 1] == [s[0]] + t[..m];
      AllSpaceConcat([s[0]], t[..m]);
      assert m == |t| || s[m + 1] == t[m];
      m + 1
    else 0
  }

  /** The length of the run of white space s ends with. */
  function TrailingSpaces(s: string): (n: nat)
    ensures n <= |s| && AllSpace(s[|s| - n..])
    ensures n == |s| || !IsSpace(s[|s| - n - 1])
  {
    if |s| > 0 && IsSpace(s[|s| - 1]) then
      var t := s[..|s| - 1];
      var m := TrailingSpaces(t);
      assert s[|s| - (m + 1)..] == t[|t| - m..] + [s[|s| - 1]];
      AllSpaceConcat(t[|t| - m..], [s[|s| - 1]]);
      assert m == |t| || s[|s| - (m + 1) - 1] == t[|t| - m - 1];
      m + 1
    else 0
  }

  /** strings.TrimSpace: drops the white space at both ends. */
  function TrimSpace(s: string): (r: string)
    ensures Trimmed(r)
    ensures |r| <= |s|
  {
    var t := s[LeadingSpaces(s)..];
    t[..|t| - TrailingSpaces(t)]
  }

  /** What TrimSpace dropped is white space on either side of the result. */
  lemma TrimSpaceFrame(s: string) returns (a: string, b: string)
    ensures s == a + TrimSpace(s) + b
    ensures AllSpace(a) && AllSpace(b)
  {
    var i := LeadingSpaces(s);
    var t := s[i..];
    var j := |t| - TrailingSpaces(t);
    a, b := s[..i], t[j..];
    CutThree(s, i, j);
  }

  /** Cutting a string at i and then j characters later leaves three pieces that rebuild it. */
  lemma CutThree(s: string, i: nat, j: nat)
    requires i <= |s| && j <= |s| - i
    ensures s == s[..i] + s[i..][..j] + s[i..][j..]
  {
    var t := s[i..];
    assert t == t[..j] + t[j..];
    assert s == s[..i] + t;
  }

  lemma TrimSpaceOfTrimmed(s: string)
    requires Trimmed(s)
    ensures TrimSpace(s) == s
  {
  }

  predicate HasPrefix(s: string, prefix: string) {
    |prefix| <= |s| && s[..|prefix|] == prefix
  }

  /** strings.TrimPrefix, used only after HasPrefix succeeded. */
  function TrimPrefix(s: string, prefix: string): (r: string)
    requires HasPrefix(s, prefix)
    ensures prefix + r == s
  {
    s[|prefix|..]
  }

  /** strings.Split with a one-character separator: n separators give n + 1 parts. */
  function Split(s: string, sep: char): (r: seq<string>)
    ensures |r| >= 1
    ensures forall i :: 0 <= i < |r| ==> sep !in r[i]
    decreases |s|
  {
    if |s| == 0 then [""]
    else
      var rest := Split(s[1..], sep);
      if s[0] == sep then [""] + rest
      else [[s[0]] + rest[0]] + rest[1..]
  }

  /** strings.Join with a one-character separator. */
  function Join(parts: seq<string>, sep: char): string {
    if |parts| == 0 then ""
    else if |parts| == 1 then parts[0]
    else parts[0] + [sep] + Join(parts[1..], sep)
  }

  lemma {:induction false} SplitNoSeparator(s: string, sep: char)
    requires sep !in s
    ensures Split(s, sep) == [s]
    decreases |s|
  {
    if |s| > 0 {
      SplitNoSeparator(s[1..], sep);
      assert [s[0]] + s[1..] == s;
    }
  }

  lemma {:induction false} SplitAtSeparator(p: string, sep: char, rest: string)
    requires sep !in p
    ensures Split(p + [sep] + rest, sep) == [p] + Split(rest, sep)
    decreases |p|
  {
    var s := p + [sep] + rest;
    if |p| == 0 {
      assert s[1..] == rest;
    } else {
      assert s[1..] == p[1..] + [sep] + rest;
      SplitAtSeparator(p[1..], sep, rest);
      assert [p[0]] + p[1..] == p;
    }
  }

  /** Splitting undoes joining when no part holds the separator. */
  lemma {:induction false} SplitJoin(parts: seq<string>, sep: char)
    requires |parts| >= 1
    requires forall i :: 0 <= i < |parts| ==> sep !in parts[i]
    ensures Split(Join(parts, sep), sep) == parts
  {
    if |parts| == 1 {
      SplitNoSeparator(parts[0], sep);
    } else {
      SplitJoin(parts[1..], sep);
      SplitAtSeparator(parts[0], sep, Join(parts[1..], sep));
      assert [parts[0]] + parts[1..] == parts;
    }
  }

  /** Splitting three separator-free parts joined by the separator gives them back. */
  lemma SplitThree(a: string, b: string, c: string, sep: char)
    requires sep !in a && sep !in b && sep !in c
    ensures Split(a + [sep] + b + [sep] + c, sep) == [a, b, c]
  {
    var bc := b + [sep] + c;
    SplitNoSeparator(c, sep);
    SplitAtSeparator(b, sep, c);
    assert Split(bc, sep) == [b, c];
    SplitAtSeparator(a, sep, bc);
    assert a + [sep] + b + [sep] + c == a + [sep] + bc;
  }

  /** Lower-case folding of ASCII letters; other characters are left alone. */
  function AsciiLower(c: char): char {
    if 'A' <= c <= 'Z' then (c as int + 32) as char else c
  }

  /** strings.EqualFold restricted to ASCII case folding. */
  predicate EqualFold(a: string, b: string) {
    |a| == |b| && forall i :: 0 <= i < |a| ==> AsciiLower(a[i]) == AsciiLower(b[i])
  }

  function DigitChar(d: nat): char
    requires d < 10
  {
    ('0' as int + d) as char
  }

  predicate IsDigit(c: char) {
    '0' <= c <= '9'
  }

  predicate AllDigits(s: string) {
    forall i :: 0 <= i < |s| ==> IsDigit(s[i])
  }

  /** The number a string of decimal digits denotes. */
  function DecimalValue(s: string): nat
    requires AllDigits(s)
  {
    if |s| == 0 then 0 else DecimalValue(s[..|s| - 1]) * 10 + (s[|s| - 1] as int - '0' as int)
  }

  /** fmt's %d of a non-negative integer. */
  function NatToString(n: nat): (r: string)
    ensures |r| >= 1
  {
    if n < 10 then [DigitChar(n)] else NatToString(n / 10) + [DigitChar(n % 10)]
  }

  /** fmt's %d of an integer, with '-' before negative numbers. */
  function IntToString(i: int): string {
    if i < 0 then "-" + NatToString(-i) else NatToString(i)
  }

  /** %d is a faithful decimal rendering: its digits read back to the number. */
  lemma {:induction false} NatToStringDecimal(n: nat)
    ensures AllDigits(NatToString(n))
    ensures DecimalValue(NatToString(n)) == n
  {
    var s := NatToString(n);
    if n >= 10 {
      NatToStringDecimal(n / 10);
      assert s[..|s| - 1] == NatToString(n / 10);
    }
  }

  /** A %d rendering starts with '-' exactly for negative numbers. */
  lemma IntToStringSign(i: int)
    ensures |IntToString(i)| >= 1
    ensures IntToString(i)[0] == '-' <==> i < 0
  {
    if i >= 0 {
      NatToStringDecimal(i);
      assert IsDigit(IntToString(i)[0]);
    }
  }

  /** Distinct integers have distinct %d renderings. */
  lemma IntToStringInjective(a: int, b: int)
    requires IntToString(a) == IntToString(b)
    ensures a == b
  {
    IntToStringSign(a);
    IntToStringSign(b);
    if a < 0 {
      assert IntToString(a)[1..] == NatToString(-a);
      assert IntToString(b)[1..] == NatToString(-b);
      NatToStringDecimal(-a);
      NatToStringDecimal(-b);
    } else {
      NatToStringDecimal(a);
      NatToStringDecimal(b);
    }
  }
}
