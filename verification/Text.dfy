/** The text forms a link is made of: hexadecimal, UUIDs, decimal integers, and splitting on a
    separator. */
module Text {
  import opened Common

  // ---- hexadecimal ------------------------------------------------------------------------

  predicate IsHexDigit(c: char) {
    '0' <= c <= '9' || 'a' <= c <= 'f' || 'A' <= c <= 'F'
  }

  function HexValue(c: char): (v: int)
    requires IsHexDigit(c)
    ensures 0 <= v < 16 && c in {"0123456789abcdef"[v], "0123456789ABCDEF"[v]}
  {
    if c <= '9' then c as int - '0' as int
    else if c <= 'F' then c as int - 'A' as int + 10
    else c as int - 'a' as int + 10
  }

  function HexDigit(v: int): (c: char)
    requires 0 <= v < 16
    ensures IsHexDigit(c) && HexValue(c) == v && !('A' <= c <= 'F')
  {
    if v < 10 then ('0' as int + v) as char else ('a' as int + v - 10) as char
  }

  predicate AllHex(s: string) {
    forall i :: 0 <= i < |s| ==> IsHexDigit(s[i])
  }

  function Pow16(k: nat): nat {
    if k == 0 then 1 else 16 * Pow16(k - 1)
  }

  /** The number a string of hex digits stands for. */
  function HexNumber(s: string): (n: nat)
    requires AllHex(s)
    ensures n < Pow16(|s|)
  {
    if s == [] then 0 else 16 * HexNumber(s[..|s| - 1]) + HexValue(s[|s| - 1])
  }

  /** `n` in exactly `width` lower-case hex digits, high digits first. */
  function PrintHex(n: nat, width: nat): (s: string)
    ensures |s| == width && AllHex(s)
  {
    if width == 0 then [] else PrintHex(n / 16, width - 1) + [HexDigit(n % 16)]
  }

  lemma {:induction false} HexRoundTrip(n: nat, width: nat)
    requires n < Pow16(width)
    ensures HexNumber(PrintHex(n, width)) == n
  {
    if width > 0 {
      var s := PrintHex(n, width);
      assert s[..width - 1] == PrintHex(n / 16, width - 1);
      HexRoundTrip(n / 16, width - 1);
    }
  }

  /** High digits first: the number of two strings of digits in a row. */
  lemma {:induction false} HexJoins(a: string, b: string)
    requires AllHex(a) && AllHex(b)
    ensures HexNumber(a + b) == HexNumber(a) * Pow16(|b|) + HexNumber(b)
  {
    if b == [] {
      assert a + b == a;
    } else {
      var front := b[..|b| - 1];
      assert (a + b)[..|a + b| - 1] == a + front;
      HexJoins(a, front);
      HexJoinsStep(HexNumber(a), Pow16(|front|), HexNumber(front), HexValue(b[|b| - 1]));
    }
  }

  lemma HexJoinsStep(n: nat, power: nat, rest: nat, digit: int)
    ensures 16 * (n * power + rest) + digit == n * (16 * power) + (16 * rest + digit)
  {
  }

  // ---- UUIDs ------------------------------------------------------------------------------

  lemma UuidWidth()
    ensures Pow16(32) == UUID_LIMIT
  {
    assert Pow16(8) == 0x1_0000_0000;
    assert Pow16(16) == 0x1_0000_0000 * 0x1_0000_0000 by { Pow16Adds(8, 8); }
    assert Pow16(32) == Pow16(16) * Pow16(16) by { Pow16Adds(16, 16); }
  }

  lemma {:induction false} Pow16Adds(a: nat, b: nat)
    ensures Pow16(a + b) == Pow16(a) * Pow16(b)
  {
    if a > 0 {
      Pow16Adds(a - 1, b);
    }
  }

  /** Lower-case, hyphenated 8-4-4-4-12, as section 4 of RFC 9562 has it. */
  function PrintUuid(u: Uuid): (s: string)
    ensures |s| == 36
    ensures forall i :: 0 <= i < |s| ==> IsHexDigit(s[i]) || s[i] == '-'
  {
    var h := PrintHex(u, 32);
    h[..8] + "-" + h[8..12] + "-" + h[12..16] + "-" + h[16..20] + "-" + h[20..]
  }

  /** The 32 digits of the hyphenated form. */
  function WithoutHyphens(s: string): string
    requires |s| == 36
  {
    s[..8] + s[9..13] + s[14..18] + s[19..23] + s[24..]
  }

  function ParseSimpleUuid(s: string): Option<Uuid>
    requires |s| == 32
  {
    UuidWidth();
    if AllHex(s) then Some(HexNumber(s)) else None
  }

  function ParseHyphenatedUuid(s: string): Option<Uuid>
    requires |s| == 36
  {
    if s[8] == '-' && s[13] == '-' && s[18] == '-' && s[23] == '-' then ParseSimpleUuid(WithoutHyphens(s)) else None
  }

  const URN_PREFIX := "urn:uuid:"

  /** The four forms `Uuid::parse_str` takes: simple, hyphenated, braced and URN. */
  function ParseUuid(s: string): Option<Uuid> {
    if |s| == 32 then ParseSimpleUuid(s)
    else if |s| == 36 then ParseHyphenatedUuid(s)
    else if |s| == 38 && s[0] == '{' && s[37] == '}' then ParseHyphenatedUuid(s[1..37])
    else if |s| == 45 && s[..9] == URN_PREFIX then ParseHyphenatedUuid(s[9..])
    else None
  }

  /** A UUID prints as its 32 digits, high ones first, with hyphens after the 8th, 12th, 16th and 20th; and it
      reads back from that, from the bare digits, in braces, and as a URN. */
  lemma UuidRoundTrip(u: Uuid)
    ensures ParseUuid(PrintUuid(u)) == Some(u)
    ensures ParseUuid(PrintHex(u, 32)) == Some(u)
    ensures ParseUuid(['{'] + PrintUuid(u) + ['}']) == Some(u)
    ensures ParseUuid("urn:uuid:" + PrintUuid(u)) == Some(u)
  {
    UuidWidth();
    HexRoundTrip(u, 32);
    Rehyphenate(PrintHex(u, 32));
    var s := PrintUuid(u);
    assert (['{'] + s + ['}'])[1..37] == s;
    assert (URN_PREFIX + s)[..9] == URN_PREFIX && (URN_PREFIX + s)[9..] == s;
  }

  lemma Rehyphenate(h: string)
    requires |h| == 32
    ensures var s := h[..8] + "-" + h[8..12] + "-" + h[12..16] + "-" + h[16..20] + "-" + h[20..];
            s[8] == s[13] == s[18] == s[23] == '-' && WithoutHyphens(s) == h
  {
    var s := h[..8] + "-" + h[8..12] + "-" + h[12..16] + "-" + h[16..20] + "-" + h[20..];
    assert s[..8] == h[..8] && s[9..13] == h[8..12] && s[14..18] == h[12..16];
    assert s[19..23] == h[16..20] && s[24..] == h[20..];
  }

  /** The characters a readable UUID is made of. */
  predicate UuidChar(c: char) {
    IsHexDigit(c) || c in "-{}:urnid"
  }

  lemma UuidChars(s: string)
    requires ParseUuid(s).Some?
    ensures forall i :: 0 <= i < |s| ==> UuidChar(s[i])
  {
    if |s| == 36 {
      HyphenatedChars(s);
    } else if |s| == 38 {
      HyphenatedChars(s[1..37]);
      assert forall i :: 0 < i < 37 ==> s[i] == s[1..37][i - 1];
    } else if |s| == 45 {
      HyphenatedChars(s[9..]);
      assert forall i :: 9 <= i < 45 ==> s[i] == s[9..][i - 9];
      assert forall i :: 0 <= i < 9 ==> s[i] == s[..9][i] && URN_PREFIX[i] in "-{}:urnid";
    }
  }

  lemma HyphenatedChars(s: string)
    requires |s| == 36 && ParseHyphenatedUuid(s).Some?
    ensures forall i :: 0 <= i < |s| ==> IsHexDigit(s[i]) || s[i] == '-'
  {
    var h := WithoutHyphens(s);
    forall i | 0 <= i < |s|
      ensures IsHexDigit(s[i]) || s[i] == '-'
    {
      assert i < 8 ==> s[i] == h[i];
      assert 9 <= i < 13 ==> s[i] == h[i - 1];
      assert 14 <= i < 18 ==> s[i] == h[i - 2];
      assert 19 <= i < 23 ==> s[i] == h[i - 3];
      assert 24 <= i ==> s[i] == h[i - 4];
    }
  }

  // ---- decimal integers -------------------------------------------------------------------

  const I64_MIN: int := -0x8000_0000_0000_0000
  const I64_MAX: int := 0x7FFF_FFFF_FFFF_FFFF

  predicate InI64(n: int) {
    I64_MIN <= n <= I64_MAX
  }

  predicate IsDigit(c: char) {
    '0' <= c <= '9'
  }

  predicate AllDigits(s: string) {
    forall i :: 0 <= i < |s| ==> IsDigit(s[i])
  }

  function DigitValue(c: char): (v: int)
    requires IsDigit(c)
    ensures 0 <= v < 10 && c == "0123456789"[v]
  {
    c as int - '0' as int
  }

  function Digit(v: int): (c: char)
    requires 0 <= v < 10
    ensures IsDigit(c) && DigitValue(c) == v
  {
    ('0' as int + v) as char
  }

  function DigitsNumber(s: string): nat
    requires AllDigits(s)
  {
    if s == [] then 0 else 10 * DigitsNumber(s[..|s| - 1]) + DigitValue(s[|s| - 1])
  }

  function PrintNat(n: nat): (s: string)
    ensures s != [] && AllDigits(s)
  {
    var last := [Digit(n % 10)];
    if n < 10 then last else PrintNat(n / 10) + last
  }

  function PrintInt(n: int): (s: string)
    ensures s != [] && forall i :: 0 <= i < |s| ==> IsDigit(s[i]) || s[i] == '-'
  {
    if n < 0 then "-" + PrintNat(-n) else PrintNat(n)
  }

  /** `i64::from_str`: an optional sign, at least one digit, and a value in range. */
  function ParseI64(s: string): Option<int> {
    var signed := s != [] && (s[0] == '-' || s[0] == '+');
    var digits := if signed then s[1..] else s;
    if digits == [] || !AllDigits(digits) then None
    else
      var value: int := DigitsNumber(digits);
      var n := if signed && s[0] == '-' then -value else value;
      if InI64(n) then Some(n) else None
  }

  function Pow10(k: nat): nat {
    if k == 0 then 1 else 10 * Pow10(k - 1)
  }

  /** High digits first: a leading digit counts for as many tens as digits follow it. */
  lemma {:induction false} LeadingDigit(c: char, s: string)
    requires IsDigit(c) && AllDigits(s)
    ensures AllDigits([c] + s)
    ensures DigitsNumber([c] + s) == DigitValue(c) * Pow10(|s|) + DigitsNumber(s)
  {
    if s == [] {
      assert [c] + s == [c] && [c][..0] == [];
    } else {
      var front := s[..|s| - 1];
      assert ([c] + s)[..|s|] == [c] + front;
      LeadingDigit(c, front);
      LeadingDigitStep(DigitValue(c), Pow10(|front|), DigitsNumber(front), DigitValue(s[|s| - 1]));
    }
  }

  lemma LeadingDigitStep(digit: int, power: nat, rest: nat, last: int)
    ensures 10 * (digit * power + rest) + last == digit * (10 * power) + (10 * rest + last)
  {
  }

  lemma {:induction false} DigitsRoundTrip(n: nat)
    ensures DigitsNumber(PrintNat(n)) == n
  {
    if n >= 10 {
      DigitsRoundTrip(n / 10);
      assert PrintNat(n)[..|PrintNat(n)| - 1] == PrintNat(n / 10);
    }
  }

  /** Exactly the 64-bit values survive printing and parsing. */
  lemma IntRoundTrip(n: int)
    ensures ParseI64(PrintInt(n)) == if InI64(n) then Some(n) else None
  {
    hide DigitsNumber, PrintNat;
    if n < 0 {
      DigitsRoundTrip(-n);
      assert PrintInt(n)[1..] == PrintNat(-n);
    } else {
      DigitsRoundTrip(n);
      assert IsDigit(PrintNat(n)[0]);
    }
  }

  /** A leading plus sign is read over. */
  lemma PlusIsRead(s: string)
    requires s != [] && AllDigits(s)
    ensures ParseI64(['+'] + s) == ParseI64(s)
  {
    hide DigitsNumber;
    assert (['+'] + s)[1..] == s && IsDigit(s[0]);
  }

  // ---- splitting --------------------------------------------------------------------------

  /** `str::split` on one character: always at least one piece. */
  function Split(s: string, sep: char): (pieces: seq<string>)
    ensures pieces != []
  {
    if s == [] then [[]]
    else
      var rest := Split(s[1..], sep);
      if s[0] == sep then [[]] + rest else [[s[0]] + rest[0]] + rest[1..]
  }

  lemma {:induction false} SplitLast(a: string, sep: char)
    requires sep !in a
    ensures Split(a, sep) == [a]
  {
    if a != [] {
      assert a[0] in a && a == [a[0]] + a[1..];
      assert sep !in a[1..];
      SplitLast(a[1..], sep);
    }
  }

  lemma {:induction false} SplitFirst(a: string, rest: string, sep: char)
    requires sep !in a
    ensures Split(a + [sep] + rest, sep) == [a] + Split(rest, sep)
  {
    var s := a + [sep] + rest;
    if a == [] {
      assert s[1..] == rest;
    } else {
      assert a[0] in a && a == [a[0]] + a[1..];
      assert s[0] == a[0] && s[1..] == a[1..] + [sep] + rest;
      assert sep !in a[1..];
      SplitFirst(a[1..], rest, sep);
    }
  }

  /** Four pieces with the separator between them. */
  function Joined(a: string, b: string, c: string, d: string, sep: char): string {
    a + [sep] + (b + [sep] + (c + [sep] + d))
  }

  lemma JoinedSplits(a: string, b: string, c: string, d: string, sep: char)
    requires sep !in a && sep !in b && sep !in c && sep !in d
    ensures Split(Joined(a, b, c, d, sep), sep) == [a, b, c, d]
  {
    SplitLast(d, sep);
    SplitFirst(c, d, sep);
    SplitFirst(b, c + [sep] + d, sep);
    SplitFirst(a, b + [sep] + (c + [sep] + d), sep);
  }

  predicate InSomePiece(c: char, pieces: seq<string>) {
    exists k :: 0 <= k < |pieces| && c in pieces[k]
  }

  /** Every character of the text is the separator or comes from some piece. */
  lemma {:induction false} SplitCovers(s: string, sep: char, i: nat)
    requires i < |s|
    ensures s[i] == sep || InSomePiece(s[i], Split(s, sep))
  {
    var rest := Split(s[1..], sep);
    var all := Split(s, sep);
    if s[0] == sep {
      assert all == [[]] + rest;
      if i > 0 && s[i] != sep {
        SplitCovers(s[1..], sep, i - 1);
        var k :| 0 <= k < |rest| && s[i] in rest[k];
        assert all[k + 1] == rest[k];
      }
    } else if i == 0 {
      assert all[0][0] == s[0];
    } else if s[i] != sep {
      SplitCovers(s[1..], sep, i - 1);
      var k :| 0 <= k < |rest| && s[i] in rest[k];
      if k == 0 {
        assert all[0] == [s[0]] + rest[0];
        assert s[i] in all[0];
      } else {
        assert all[k] == rest[k];
      }
    }
  }
}
