/** The query of a URL, as a browser or mail client cuts it out and the service's extractor reads its
    fields: the fragment goes first, the query follows the first `?`, and its `&` parts are
    form-urlencoded (section 5.1 of the WHATWG URL Standard). */
module Query {
  import opened Common
  import opened Text

  /** What comes before the first `c`: all of it when there is none. */
  function Before(s: string, c: char): string {
    if s == [] || s[0] == c then [] else [s[0]] + Before(s[1..], c)
  }

  /** What follows the first `c`: nothing when there is none. */
  function After(s: string, c: char): string {
    if s == [] then [] else if s[0] == c then s[1..] else After(s[1..], c)
  }

  lemma {:induction false} BeforeOf(a: string, b: string, c: char)
    ensures Before(a + b, c) == if c in a then Before(a, c) else a + Before(b, c)
  {
    if a == [] {
      assert a + b == b;
      assert a + Before(b, c) == Before(b, c);
    } else {
      var rest := a[1..];
      assert (a + b)[1..] == rest + b && a == [a[0]] + rest;
      BeforeOf(rest, b, c);
      if a[0] != c && c !in rest {
        assert [a[0]] + (rest + Before(b, c)) == a + Before(b, c);
      }
    }
  }

  lemma {:induction false} AfterOf(a: string, b: string, c: char)
    ensures After(a + b, c) == if c in a then After(a, c) + b else After(b, c)
  {
    if a == [] {
      assert a + b == b;
    } else {
      assert (a + b)[1..] == a[1..] + b && a == [a[0]] + a[1..];
      AfterOf(a[1..], b, c);
    }
  }

  lemma {:induction false} BeforeAll(s: string, c: char)
    requires c !in s
    ensures Before(s, c) == s
  {
    BeforeOf(s, [], c);
    assert s + [] == s;
  }

  lemma {:induction false} BeforeWithin(s: string, c: char, x: char)
    ensures x in Before(s, c) ==> x in s
  {
    if s != [] && s[0] != c {
      BeforeWithin(s[1..], c, x);
    }
  }

  lemma {:induction false} BeforeBoth(s: string, c: char, d: char, x: char)
    ensures x in Before(Before(s, c), d) ==> x in Before(s, d)
  {
    if s != [] && s[0] != c && s[0] != d {
      assert Before(s, c)[1..] == Before(s[1..], c);
      BeforeBoth(s[1..], c, d, x);
    }
  }

  // ---- form decoding ----------------------------------------------------------------------

  predicate Escaped(s: string) {
    |s| >= 3 && s[0] == '%' && IsHexDigit(s[1]) && IsHexDigit(s[2])
  }

  /** The octet of an escape as a character. Octets outside ASCII, which no field name and no link is made
      of, all stand as the replacement character. */
  function Octet(n: nat): char {
    if n < 128 then n as char else '\U{FFFD}'
  }

  /** `+` is a space and a valid escape its octet; anything else stands for itself. */
  function Decode(s: string): string {
    if s == [] then []
    else if s[0] == '+' then " " + Decode(s[1..])
    else if Escaped(s) then [Octet(16 * HexValue(s[1]) + HexValue(s[2]))] + Decode(s[3..])
    else [s[0]] + Decode(s[1..])
  }

  lemma {:induction false} DecodePlain(s: string)
    requires '%' !in s && '+' !in s
    ensures Decode(s) == s
  {
    if s != [] {
      assert s == [s[0]] + s[1..];
      DecodePlain(s[1..]);
    }
  }

  /** Every ASCII character escaped. */
  function Escape(s: string): string
    requires forall i :: 0 <= i < |s| ==> s[i] < 128 as char
  {
    if s == [] then [] else ['%', HexDigit(s[0] as int / 16), HexDigit(s[0] as int % 16)] + Escape(s[1..])
  }

  lemma DecodeOneEscape(c: char, rest: string)
    requires c < 128 as char
    ensures Decode(['%', HexDigit(c as int / 16), HexDigit(c as int % 16)] + rest) == [c] + Decode(rest)
  {
    hide HexDigit, HexValue;
    var high, low := c as int / 16, c as int % 16;
    var s := ['%', HexDigit(high), HexDigit(low)] + rest;
    assert s[3..] == rest && Escaped(s);
    assert Octet(16 * high + low) == c;
  }

  /** Escaped text reads back as itself. */
  lemma {:induction false} DecodeInvertsEscape(s: string)
    requires forall i :: 0 <= i < |s| ==> s[i] < 128 as char
    ensures Decode(Escape(s)) == s
  {
    hide Decode;
    if s != [] {
      DecodeInvertsEscape(s[1..]);
      DecodeOneEscape(s[0], Escape(s[1..]));
      assert s == [s[0]] + s[1..];
    } else {
      DecodePlain(s);
    }
  }

  /** A character that no escape is made of comes through, whatever stands around it. */
  lemma {:induction false} DecodeKeeps(a: string, c: char, b: string)
    requires !IsHexDigit(c) && c != '%' && c != '+'
    ensures c in Decode(a + [c] + b)
  {
    var s := a + [c] + b;
    if a != [] {
      assert s[0] == a[0] && s[|a|] == c;
      if s[0] != '+' && Escaped(s) {
        assert |a| >= 3 && s[3..] == a[3..] + [c] + b;
        DecodeKeeps(a[3..], c, b);
      } else {
        assert s[1..] == a[1..] + [c] + b;
        DecodeKeeps(a[1..], c, b);
      }
    }
  }

  // ---- fields -----------------------------------------------------------------------------

  function FieldName(part: string): string {
    Decode(Before(part, '='))
  }

  function FieldValue(part: string): string {
    Decode(After(part, '='))
  }

  /** The values given for a field, in order. */
  function Values(parts: seq<string>, name: string): seq<string> {
    if parts == [] then []
    else
      var last := parts[|parts| - 1];
      Values(parts[..|parts| - 1], name) + if FieldName(last) == name then [FieldValue(last)] else []
  }

  /** The `t` of a query with fields `t` and `confirm`: neither may be given twice. */
  function QueryToken(query: string): Option<string> {
    var parts := Split(query, '&');
    if |Values(parts, "t")| == 1 && |Values(parts, "confirm")| <= 1 then Some(Values(parts, "t")[0]) else None
  }

  /** The query of a URL. */
  function QueryOf(url: string): string {
    After(Before(url, '#'), '?')
  }

  /** The query of a URL put together from two texts. */
  lemma QueryOfBoth(a: string, b: string)
    requires '#' !in b
    ensures QueryOf(a + b)
         == if '#' in a then QueryOf(a) else if '?' in a then After(a, '?') + b else After(b, '?')
  {
    BeforeOf(a, b, '#');
    BeforeAll(b, '#');
    AfterOf(a, b, '?');
  }

  /** The URL between angle brackets. */
  function HeaderUrl(header: string): string {
    Before(After(header, '<'), '>')
  }

  lemma BracketedUrl(url: string)
    ensures HeaderUrl("<" + url + ">") == Before(url, '>')
  {
    assert "<" + url + ">" == "<" + (url + ">");
    AfterOf("<", url + ">", '<');
    BeforeOf(url, ">", '>');
    if '>' !in url {
      BeforeAll(url, '>');
      assert url + [] == url;
    }
  }

  /** Text without the separator goes to the last part. */
  lemma {:induction false} SplitExtend(a: string, b: string, sep: char)
    requires sep !in b
    ensures var parts := Split(a, sep);
            Split(a + b, sep) == parts[..|parts| - 1] + [parts[|parts| - 1] + b]
  {
    if a == [] {
      assert a + b == b;
      SplitLast(b, sep);
    } else {
      assert (a + b)[1..] == a[1..] + b;
      SplitExtend(a[1..], b, sep);
      var rest, parts := Split(a[1..], sep), Split(a, sep);
      if a[0] != sep && |rest| == 1 {
        assert parts == [[a[0]] + rest[0]] && [a[0]] + (rest[0] + b) == [a[0]] + rest[0] + b;
      }
    }
  }

  lemma ValuesOfLast(parts: seq<string>, last: string, name: string)
    ensures Values(parts + [last], name)
         == Values(parts, name) + if FieldName(last) == name then [FieldValue(last)] else []
  {
    assert (parts + [last])[..|parts|] == parts;
  }

  /** A query that is one part reads as that part. */
  lemma OnePart(name: string, value: string)
    requires '&' !in name && '=' !in name && '%' !in name && '+' !in name
    requires '&' !in value && '%' !in value && '+' !in value
    ensures QueryToken(name + ['='] + value) == if name == "t" then Some(value) else None
  {
    hide Split, Decode;
    var part := name + ['='] + value;
    SplitLast(part, '&');
    FieldParts(name, value);
    assert [] + [part] == [part];
    ValuesOfLast([], part, "t");
    ValuesOfLast([], part, "confirm");
    assert |"t"| != |"confirm"|;
  }

  lemma FieldParts(name: string, value: string)
    requires '=' !in name && '%' !in name && '+' !in name && '%' !in value && '+' !in value
    ensures FieldName(name + ['='] + value) == name && FieldValue(name + ['='] + value) == value
  {
    hide Decode;
    var tail := ['='] + value;
    assert name + ['='] + value == name + tail;
    BeforeOf(name, tail, '=');
    AfterOf(name, tail, '=');
    assert Before(tail, '=') == [] && After(tail, '=') == tail[1..] == value && name + [] == name;
    DecodePlain(name);
    DecodePlain(value);
  }

  /** A token given twice is none. */
  lemma TwiceIsRefused(x: string, y: string)
    requires '&' !in x && '%' !in x && '+' !in x && '&' !in y && '%' !in y && '+' !in y
    ensures QueryToken(("t" + ['='] + x) + ['&'] + ("t" + ['='] + y)) == None
  {
    hide Split, FieldName, FieldValue;
    var first, second := "t" + ['='] + x, "t" + ['='] + y;
    SplitFirst(first, second, '&');
    SplitLast(second, '&');
    FieldParts("t", x);
    FieldParts("t", y);
    assert [] + [first] == [first] && [first] + [second] == [first, second];
    ValuesOfLast([], first, "t");
    ValuesOfLast([first], second, "t");
  }

  /** A URL without a query brings no token. */
  lemma NoQuery(url: string)
    requires '?' !in Before(url, '#')
    ensures QueryToken(QueryOf(url)) == None
  {
    AfterOf(Before(url, '#'), [], '?');
    assert Before(url, '#') + [] == Before(url, '#');
    SplitLast([], '&');
    ValuesOfLast([], "", "t");
    assert [] + [""] == [""];
  }

  /** What a `/` and any text after a fixed beginning do to a query: a text without `&` cannot become the
      token. Either it does not matter at all, or the token read has the `/` in it. */
  lemma SlashedQuery(start: string, x: string, y: string)
    requires '&' !in x && '&' !in y
    ensures var readX, readY := QueryToken(start + ['/'] + x), QueryToken(start + ['/'] + y);
            readX == readY || ((readX.Some? ==> '/' in readX.value) && (readY.Some? ==> '/' in readY.value))
  {
    hide Split, FieldName, FieldValue;
    var parts := Split(start, '&');
    var front, last := parts[..|parts| - 1], parts[|parts| - 1];
    SlashedParts(start, x);
    SlashedParts(start, y);
    SlashedField(last, x, "t");
    SlashedField(last, y, "t");
    SlashedField(last, x, "confirm");
    SlashedField(last, y, "confirm");
    ValuesOfLast(front, last + ['/'] + x, "t");
    ValuesOfLast(front, last + ['/'] + y, "t");
    ValuesOfLast(front, last + ['/'] + x, "confirm");
    ValuesOfLast(front, last + ['/'] + y, "confirm");
  }

  lemma SlashedParts(start: string, x: string)
    requires '&' !in x
    ensures var parts := Split(start, '&');
            Split(start + ['/'] + x, '&') == parts[..|parts| - 1] + [parts[|parts| - 1] + ['/'] + x]
  {
    SplitExtend(start, ['/'] + x, '&');
    assert start + ['/'] + x == start + (['/'] + x);
    var parts := Split(start, '&');
    assert parts[|parts| - 1] + (['/'] + x) == parts[|parts| - 1] + ['/'] + x;
  }

  /** Whether the part names the field is settled before the `/`, and its value has the `/` in it. */
  lemma SlashedField(last: string, x: string, name: string)
    requires '/' !in name
    ensures var part := last + ['/'] + x;
            FieldName(part) == name <==> '=' in last && FieldName(last) == name
    ensures var part := last + ['/'] + x;
            FieldName(part) == name ==> '/' in FieldValue(part)
  {
    hide Decode, Before, After;
    var part := last + ['/'] + x;
    assert part == last + (['/'] + x);
    BeforeOf(last, ['/'] + x, '=');
    AfterOf(last, ['/'] + x, '=');
    if '=' in last {
      assert After(last, '=') + (['/'] + x) == After(last, '=') + ['/'] + x;
      DecodeKeeps(After(last, '='), '/', x);
    } else {
      var tail := Before(x, '=');
      BeforeSlash(x);
      assert last + (['/'] + tail) == last + ['/'] + tail;
      DecodeKeeps(last, '/', tail);
    }
  }

  lemma BeforeSlash(x: string)
    ensures Before(['/'] + x, '=') == ['/'] + Before(x, '=')
  {
    assert (['/'] + x)[1..] == x;
  }
}
