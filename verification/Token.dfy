/** The unsubscribe capability: minting a link, reading it back, and its verdict. HMAC-SHA256
    (section 2 of RFC 2104) is any function from a secret and a message to 32 bytes. */
module Token {
  import opened Common
  import opened Calendar
  import opened Cadence
  import opened Text
  import opened Query

  type Byte = b: int | 0 <= b < 256

  type Mac = bytes: seq<Byte> | |bytes| == 32 witness seq(32, _ => 0)

  type Hmac = (seq<Byte>, string) -> Mac

  const TTL_SECONDS: int := 180 * DAY_SECONDS

  /** `{digest}.{user}.{exp}.{mac}` in its parts. */
  datatype UnsubscribeToken = UnsubscribeToken(digestId: Uuid, userId: Uuid, exp: int, mac: string)

  datatype Verdict = Valid | Expired | Refused

  // ---- hex MACs ---------------------------------------------------------------------------

  function PrintBytes(bytes: seq<Byte>): (s: string)
    ensures |s| == 2 * |bytes| && AllHex(s)
  {
    if bytes == [] then []
    else [HexDigit(bytes[0] / 16), HexDigit(bytes[0] % 16)] + PrintBytes(bytes[1..])
  }

  /** Pairs of hex digits as bytes. */
  function Bytes(s: string): (bytes: seq<Byte>)
    requires AllHex(s) && |s| % 2 == 0
    ensures |bytes| == |s| / 2
  {
    if s == [] then [] else [16 * HexValue(s[0]) + HexValue(s[1])] + Bytes(s[2..])
  }

  function HexBytes(s: string): Option<seq<Byte>> {
    if |s| != 64 || !AllHex(s) then None else Some(Bytes(s))
  }

  function LowerHex(c: char): char
    requires IsHexDigit(c)
  {
    HexDigit(HexValue(c))
  }

  /** Each byte is its two hex digits, the high one first, and they come in the order of the bytes. */
  lemma {:induction false} PrintsInOrder(bytes: seq<Byte>, k: nat)
    requires k < |bytes|
    ensures PrintBytes(bytes)[2 * k] == HexDigit(bytes[k] / 16)
    ensures PrintBytes(bytes)[2 * k + 1] == HexDigit(bytes[k] % 16)
  {
    hide HexDigit, PrintBytes;
    PrintsFirst(bytes);
    var rest := PrintBytes(bytes[1..]);
    if k > 0 {
      PrintsInOrder(bytes[1..], k - 1);
      PairAfter(HexDigit(bytes[0] / 16), HexDigit(bytes[0] % 16), rest, k - 1);
    }
  }

  lemma PrintsFirst(bytes: seq<Byte>)
    requires bytes != []
    ensures PrintBytes(bytes) == [HexDigit(bytes[0] / 16), HexDigit(bytes[0] % 16)] + PrintBytes(bytes[1..])
  {
    hide HexDigit;
  }

  lemma PairAfter(high: char, low: char, rest: string, k: nat)
    requires 2 * k + 1 < |rest|
    ensures ([high, low] + rest)[2 * (k + 1)] == rest[2 * k] && ([high, low] + rest)[2 * (k + 1) + 1] == rest[2 * k + 1]
  {
  }

  lemma {:induction false} BytesRoundTrip(bytes: seq<Byte>)
    ensures Bytes(PrintBytes(bytes)) == bytes
  {
    if bytes != [] {
      var s := PrintBytes(bytes);
      assert s[2..] == PrintBytes(bytes[1..]);
      BytesRoundTrip(bytes[1..]);
    }
  }

  /** The same digits in lower case. */
  function Lowered(s: string): (r: string)
    requires AllHex(s)
    ensures |r| == |s|
  {
    seq(|s|, i requires 0 <= i < |s| => LowerHex(s[i]))
  }

  lemma LoweredPair(s: string)
    requires AllHex(s) && |s| >= 2
    ensures Lowered(s) == [LowerHex(s[0]), LowerHex(s[1])] + Lowered(s[2..])
  {
  }

  lemma {:induction false} PrintOfBytes(s: string)
    requires AllHex(s) && |s| % 2 == 0
    ensures PrintBytes(Bytes(s)) == Lowered(s)
  {
    if s != [] {
      PrintOfBytes(s[2..]);
      var high, low := HexValue(s[0]), HexValue(s[1]);
      var bytes := Bytes(s);
      assert bytes[0] / 16 == high && bytes[0] % 16 == low;
      assert bytes[1..] == Bytes(s[2..]);
      LoweredPair(s);
    }
  }

  /** `hex_bytes` inverts the printer, and reads as a MAC exactly the spellings of it that differ in
      letter case at most. */
  lemma HexBytesInvertsPrinter(mac: Mac, s: string)
    ensures HexBytes(PrintBytes(mac)) == Some(mac)
    ensures HexBytes(s) == Some(mac) <==> |s| == 64 && AllHex(s) && Lowered(s) == PrintBytes(mac)
  {
    BytesRoundTrip(mac);
    if |s| == 64 && AllHex(s) {
      PrintOfBytes(s);
      BytesRoundTrip(Bytes(s));
    }
  }

  // ---- the message ------------------------------------------------------------------------

  const DOMAIN := "digest-unsubscribe"

  function MacMessage(digestId: Uuid, userId: Uuid, exp: int): string {
    Joined(DOMAIN, PrintUuid(digestId), PrintUuid(userId), PrintInt(exp), '|')
  }

  function ComputeMac(hmac: Hmac, secret: seq<Byte>, digestId: Uuid, userId: Uuid, exp: int): string {
    PrintBytes(hmac(secret, MacMessage(digestId, userId, exp)))
  }

  /** The message is the domain, the digest, the user and the expiry, in that order. */
  lemma MessageParts(d: Uuid, u: Uuid, e: int)
    ensures Split(MacMessage(d, u, e), '|') == ["digest-unsubscribe", PrintUuid(d), PrintUuid(u), PrintInt(e)]
  {
    JoinedSplits(DOMAIN, PrintUuid(d), PrintUuid(u), PrintInt(e), '|');
  }

  /** No two capabilities share a message: a MAC speaks for one digest, one user and one expiry. */
  lemma MessageBinds(d1: Uuid, u1: Uuid, e1: int, d2: Uuid, u2: Uuid, e2: int)
    requires InI64(e1) && InI64(e2)
    requires MacMessage(d1, u1, e1) == MacMessage(d2, u2, e2)
    ensures d1 == d2 && u1 == u2 && e1 == e2
  {
    JoinedSplits(DOMAIN, PrintUuid(d1), PrintUuid(u1), PrintInt(e1), '|');
    JoinedSplits(DOMAIN, PrintUuid(d2), PrintUuid(u2), PrintInt(e2), '|');
    var p1 := [DOMAIN, PrintUuid(d1), PrintUuid(u1), PrintInt(e1)];
    var p2 := [DOMAIN, PrintUuid(d2), PrintUuid(u2), PrintInt(e2)];
    assert p1[1] == p2[1] && p1[2] == p2[2] && p1[3] == p2[3];
    UuidRoundTrip(d1);
    UuidRoundTrip(d2);
    UuidRoundTrip(u1);
    UuidRoundTrip(u2);
    IntRoundTrip(e1);
    IntRoundTrip(e2);
  }

  // ---- printing and parsing ---------------------------------------------------------------

  function PrintToken(t: UnsubscribeToken): string {
    Joined(PrintUuid(t.digestId), PrintUuid(t.userId), PrintInt(t.exp), t.mac, '.')
  }

  function ParseToken(text: string): Option<UnsubscribeToken> {
    var parts := Split(text, '.');
    if |parts| != 4 then None
    else
      var d, u, e, mac := ParseUuid(parts[0]), ParseUuid(parts[1]), ParseI64(parts[2]), parts[3];
      if d.None? || u.None? || e.None? || |mac| != 64 || !AllHex(mac) then None
      else Some(UnsubscribeToken(d.value, u.value, e.value, mac))
  }

  lemma TokenRoundTrip(t: UnsubscribeToken)
    requires InI64(t.exp) && |t.mac| == 64 && AllHex(t.mac)
    ensures ParseToken(PrintToken(t)) == Some(t)
    ensures Split(PrintToken(t), '.') == [PrintUuid(t.digestId), PrintUuid(t.userId), PrintInt(t.exp), t.mac]
  {
    JoinedSplits(PrintUuid(t.digestId), PrintUuid(t.userId), PrintInt(t.exp), t.mac, '.');
    UuidRoundTrip(t.digestId);
    UuidRoundTrip(t.userId);
    IntRoundTrip(t.exp);
  }

  /** What can stand in a link the service reads: nothing that closes an attribute or opens a tag. */
  predicate LinkChar(c: char) {
    UuidChar(c) || c in "+."
  }

  lemma LinkCharIsPlain(c: char)
    requires LinkChar(c)
    ensures c !in "<>\"'&="
  {
  }

  lemma ReadLinksHoldNoMarkup(text: string)
    requires ParseToken(text).Some?
    ensures forall i :: 0 <= i < |text| ==> LinkChar(text[i]) && text[i] !in "<>\"'&="
  {
    forall i | 0 <= i < |text|
      ensures LinkChar(text[i]) && text[i] !in "<>\"'&="
    {
      if text[i] != '.' {
        PieceChars(text, i);
      }
      LinkCharIsPlain(text[i]);
    }
  }

  lemma PieceChars(text: string, i: nat)
    requires ParseToken(text).Some? && i < |text| && text[i] != '.'
    ensures LinkChar(text[i])
  {
    var parts := Split(text, '.');
    SplitCovers(text, '.', i);
    var k :| 0 <= k < |parts| && text[i] in parts[k];
    var j :| 0 <= j < |parts[k]| && parts[k][j] == text[i];
    match k
    case 0 => UuidChars(parts[0]);
    case 1 => UuidChars(parts[1]);
    case 2 => IntChars(parts[2]);
    case _ => assert k == 3;
  }

  lemma IntChars(s: string)
    requires ParseI64(s).Some?
    ensures forall i :: 0 <= i < |s| ==> LinkChar(s[i])
  {
    forall i | 0 <= i < |s|
      ensures LinkChar(s[i])
    {
      if s[0] == '-' || s[0] == '+' {
        assert i > 0 ==> s[i] == s[1..][i - 1];
      }
    }
  }

  // ---- minting and verdicts ---------------------------------------------------------------

  function Mint(hmac: Hmac, secret: seq<Byte>, digestId: Uuid, userId: Uuid, now: Instant): UnsubscribeToken {
    var exp := now + TTL_SECONDS;
    UnsubscribeToken(digestId, userId, exp, ComputeMac(hmac, secret, digestId, userId, exp))
  }

  predicate MacMatches(hmac: Hmac, secret: seq<Byte>, t: UnsubscribeToken) {
    HexBytes(t.mac) == Some(hmac(secret, MacMessage(t.digestId, t.userId, t.exp)))
  }

  function VerdictOf(hmac: Hmac, secret: seq<Byte>, t: UnsubscribeToken, now: Instant): Verdict {
    if secret == [] then Refused
    else if !MacMatches(hmac, secret, t) then Refused
    else if now <= t.exp then Valid
    else Expired
  }

  function VerdictOfText(hmac: Hmac, secret: seq<Byte>, text: string, now: Instant): Verdict {
    match ParseToken(text)
    case Some(t) => VerdictOf(hmac, secret, t, now)
    case None => Refused
  }

  /** A printed link is valid through 180 days from the mint and expired after, whatever else the
      service was asked before; with an empty secret nothing is. */
  lemma MintedLinkVerdict(hmac: Hmac, secret: seq<Byte>, d: Uuid, u: Uuid, minted: Instant, now: Instant)
    requires InI64(minted + TTL_SECONDS)
    ensures var text := PrintToken(Mint(hmac, secret, d, u, minted));
            && ParseToken(text) == Some(Mint(hmac, secret, d, u, minted))
            && VerdictOfText(hmac, secret, text, now)
               == if secret == [] then Refused else if now <= minted + 15_552_000 then Valid else Expired
  {
    var t := Mint(hmac, secret, d, u, minted);
    TokenRoundTrip(t);
    HexBytesInvertsPrinter(hmac(secret, MacMessage(d, u, t.exp)), t.mac);
  }

  /** A link counts exactly when its MAC is, in either letter case, the one the service would mint
      for the same digest, user and expiry. */
  lemma GenuineExactly(hmac: Hmac, secret: seq<Byte>, t: UnsubscribeToken, now: Instant)
    requires |t.mac| == 64 && AllHex(t.mac)
    ensures VerdictOf(hmac, secret, t, now) != Refused
       <==> && secret != []
            && Lowered(t.mac) == PrintBytes(hmac(secret, MacMessage(t.digestId, t.userId, t.exp)))
    ensures VerdictOf(hmac, secret, t, now) == Valid <==> VerdictOf(hmac, secret, t, now) != Refused && now <= t.exp
  {
    HexBytesInvertsPrinter(hmac(secret, MacMessage(t.digestId, t.userId, t.exp)), t.mac);
  }

  /** A link minted by a batch of day `sent`, on that day or later, still works at every moment
      through 87 days after the digest's next due day, by whichever cadence the batch advanced. */
  lemma LinkOutlivesCadence(
    hmac: Hmac, secret: seq<Byte>, d: Uuid, u: Uuid, p: Periodicity, sent: Day, minted: Instant, now: Instant)
    requires secret != [] && InI64(minted + TTL_SECONDS)
    requires sent <= DayOf(minted)
    requires DayOf(now) <= NextRun(p, sent) + 87
    ensures VerdictOfText(hmac, secret, PrintToken(Mint(hmac, secret, d, u, minted)), now) == Valid
  {
    MintedLinkVerdict(hmac, secret, d, u, minted, now);
    GapBounds(p, sent);
    var a, b := TimeOfDay(minted), TimeOfDay(now);
  }

  /** 87 is the most that holds for all: a quarterly digest mailed at midnight on 1 July is next due
      on 1 October, and one second into the 88th day after that the link has expired. */
  lemma LinkLifetimeIsTight(hmac: Hmac, secret: seq<Byte>, d: Uuid, u: Uuid)
    requires secret != []
    ensures var minted := Midnight(DayNumber(Date(1970, 7, 1)));
            var now := Midnight(NextRun(Quarterly, DayOf(minted)) + 88) + 1;
            VerdictOfText(hmac, secret, PrintToken(Mint(hmac, secret, d, u, minted)), now) == Expired
  {
    ThirdQuarter();
    var minted := Midnight(181);
    assert DayOf(minted) == 181;
    MintedLinkVerdict(hmac, secret, d, u, minted, Midnight(NextRun(Quarterly, 181) + 88) + 1);
  }

  lemma ThirdQuarter()
    ensures DayNumber(Date(1970, 7, 1)) == 181
    ensures NextRun(Quarterly, 181) == 273
  {
    MonthStepIn(1970, 1); MonthStepIn(1970, 2); MonthStepIn(1970, 3);
    MonthStepIn(1970, 4); MonthStepIn(1970, 5); MonthStepIn(1970, 6);
    MonthStepIn(1970, 7); MonthStepIn(1970, 8); MonthStepIn(1970, 9);
    var july, october := Date(1970, 7, 1), Date(1970, 10, 1);
    DateOfNumber(july);
    AddMonthsLands(july, 3);
    SameMonth(AddMonths(july, 3), october);
  }

  // ---- the mailed link --------------------------------------------------------------------

  /** `trim_end_matches('/')`. */
  function TrimSlashes(base: string): string {
    if base != [] && base[|base| - 1] == '/' then TrimSlashes(base[..|base| - 1]) else base
  }

  /** The path and query of every link. */
  const LINK_PATH := "/digest/unsubscribe"

  function LinkTo(base: string, text: string): string {
    TrimSlashes(base) + LinkTail(text)
  }

  function LinkTail(text: string): string {
    LINK_PATH + ['?'] + (['t'] + ['='] + text)
  }

  function UnsubscribeUrl(base: string, t: UnsubscribeToken): string {
    LinkTo(base, PrintToken(t))
  }

  /** The `List-Unsubscribe` value of section 3.1 of RFC 8058. */
  function ListUnsubscribe(url: string): string {
    "<" + url + ">"
  }

  /** What a one-click POST brings to the service: the `t` of the query of the header's URL. */
  function PostedToken(header: string): Option<string> {
    QueryToken(QueryOf(HeaderUrl(header)))
  }

  /** The token the service reads from a one-click POST. */
  function ReadBack(header: string): Option<UnsubscribeToken> {
    match PostedToken(header)
    case Some(text) => ParseToken(text)
    case None => None
  }

  predicate Names(read: Option<UnsubscribeToken>, d: Uuid, u: Uuid) {
    read.Some? && read.value.digestId == d && read.value.userId == u
  }

  /** A base URL without query, fragment or closing bracket. */
  predicate PlainBase(base: string) {
    '?' !in base && '#' !in base && '>' !in base
  }

  /** The trimmed base is the base without the slashes it ends in. */
  lemma {:induction false} TrimExactly(base: string)
    ensures var trimmed := TrimSlashes(base);
            && trimmed <= base && (trimmed != [] ==> trimmed[|trimmed| - 1] != '/')
            && forall i :: |trimmed| <= i < |base| ==> base[i] == '/'
  {
    if base != [] && base[|base| - 1] == '/' {
      TrimExactly(base[..|base| - 1]);
    }
  }

  lemma {:induction false} TrimKeeps(base: string, c: char)
    requires c != '/'
    ensures c in TrimSlashes(base) <==> c in base
  {
    if base != [] && base[|base| - 1] == '/' {
      assert base == base[..|base| - 1] + ['/'];
      TrimKeeps(base[..|base| - 1], c);
    }
  }

  /** Text that no step of reading a link back takes for anything else. */
  predicate PlainText(text: string) {
    forall c :: c in text ==> IsHexDigit(c) || c == '-' || c == '.'
  }

  lemma PrintedIsPlain(t: UnsubscribeToken)
    requires AllHex(t.mac)
    ensures PlainText(PrintToken(t))
  {
    var d, u, e := PrintUuid(t.digestId), PrintUuid(t.userId), PrintInt(t.exp);
    forall c | c in PrintToken(t)
      ensures IsHexDigit(c) || c == '-' || c == '.'
    {
      assert c in d || c in u || c in e || c in t.mac || c == '.';
    }
  }

  lemma PathChars(c: char)
    requires c in LINK_PATH
    ensures 'a' <= c <= 'z' || c == '/'
  {
  }

  lemma TailParts(text: string)
    requires PlainText(text)
    ensures '>' !in LinkTail(text) && '#' !in LinkTail(text) && '&' !in LinkTail(text)
    ensures After(LinkTail(text), '?') == "t" + ['='] + text
    ensures LinkTail(text) == ['/'] + LinkTail(text)[1..]
  {
    var field := ['t'] + ['='] + text;
    assert LinkTail(text) == LINK_PATH + (['?'] + field);
    forall c | c in LINK_PATH
      ensures c !in {'>', '#', '&', '?'}
    {
      PathChars(c);
    }
    AfterOf(LINK_PATH, ['?'] + field, '?');
    assert (['?'] + field)[1..] == field;
  }

  lemma RouteOf(base: string, text: string)
    requires '?' !in base
    ensures Before(LinkTo(base, text), '?') == TrimSlashes(base) + "/digest/unsubscribe"
  {
    hide TrimSlashes;
    TrimKeeps(base, '?');
    var head, tail := TrimSlashes(base) + LINK_PATH, ['?'] + (['t'] + ['='] + text);
    assert LinkTo(base, text) == head + tail;
    forall c | c in LINK_PATH
      ensures c != '?'
    {
      PathChars(c);
    }
    BeforeOf(head, tail, '?');
    assert Before(tail, '?') == [] && head + [] == head;
  }

  /** From a plain base the request goes to the service's route under the base, and the posted text is the
      text of the link. */
  lemma PlainLinkPosts(base: string, text: string)
    requires PlainBase(base) && PlainText(text)
    ensures Before(HeaderUrl(ListUnsubscribe(LinkTo(base, text))), '?') == TrimSlashes(base) + "/digest/unsubscribe"
    ensures PostedToken(ListUnsubscribe(LinkTo(base, text))) == Some(text)
  {
    RouteOf(base, text);
    var url := LinkTo(base, text);
    TrimKeeps(base, '?');
    TrimKeeps(base, '#');
    TrimKeeps(base, '>');
    TailParts(text);
    BracketedUrl(url);
    BeforeAll(url, '>');
    QueryOfBoth(TrimSlashes(base), LinkTail(text));
    OnePart("t", text);
  }

  /** From any other base the text read back is either the same for all links or holds a `/`: the link's
      own text is cut off, or ends up in a field that the base began. */
  lemma OtherLinksAreBlind(base: string, x: string, y: string)
    requires !PlainBase(base) && PlainText(x) && PlainText(y)
    ensures var px, py := PostedToken(ListUnsubscribe(LinkTo(base, x))), PostedToken(ListUnsubscribe(LinkTo(base, y)));
            px == py || ((px.Some? ==> '/' in px.value) && (py.Some? ==> '/' in py.value))
  {
    TrimKeeps(base, '?');
    TrimKeeps(base, '#');
    TrimKeeps(base, '>');
    OtherUrl(base, x);
    OtherUrl(base, y);
    var trimmed := TrimSlashes(base);
    if '>' !in trimmed && '#' !in trimmed {
      TailParts(x);
      TailParts(y);
      SlashedQuery(After(trimmed, '?'), LinkTail(x)[1..], LinkTail(y)[1..]);
    }
  }

  /** What is left of a link as a query, when the base has a `>`, a `#` or a `?`. */
  lemma OtherUrl(base: string, text: string)
    requires PlainText(text)
    ensures var trimmed, query := TrimSlashes(base), QueryOf(HeaderUrl(ListUnsubscribe(LinkTo(base, text))));
            && ('>' in trimmed ==> query == QueryOf(Before(trimmed, '>')))
            && ('>' !in trimmed && '#' in trimmed ==> query == QueryOf(trimmed))
            && ('>' !in trimmed && '#' !in trimmed && '?' in trimmed ==>
                  query == After(trimmed, '?') + ['/'] + LinkTail(text)[1..])
  {
    hide TrimSlashes, LinkTail, Before, After;
    var trimmed, tail := TrimSlashes(base), LinkTail(text);
    TailParts(text);
    BracketedUrl(trimmed + tail);
    BeforeOf(trimmed, tail, '>');
    BeforeAll(tail, '>');
    QueryOfBoth(trimmed, tail);
    assert After(trimmed, '?') + (['/'] + tail[1..]) == After(trimmed, '?') + ['/'] + tail[1..];
  }

  lemma LinksHoldNoSlash(text: string)
    requires ParseToken(text).Some?
    ensures '/' !in text
  {
    ReadLinksHoldNoMarkup(text);
    forall i | 0 <= i < |text|
      ensures text[i] != '/'
    {
      assert LinkChar(text[i]);
    }
  }

  /** The token that comes back from the `List-Unsubscribe` header is the one minted for the digest and
      user of the mail, whoever they are, exactly when the base URL has no `?`, no `#` and no `>`. */
  lemma HeaderNamesRecipient(hmac: Hmac, secret: seq<Byte>, base: string, now: Instant)
    requires InI64(now + TTL_SECONDS)
    ensures (forall d: Uuid, u: Uuid ::
               var t := Mint(hmac, secret, d, u, now);
               ReadBack(ListUnsubscribe(UnsubscribeUrl(base, t))) == Some(t))
       <==> PlainBase(base)
  {
    if PlainBase(base) {
      forall d: Uuid, u: Uuid
        ensures var t := Mint(hmac, secret, d, u, now);
                ReadBack(ListUnsubscribe(UnsubscribeUrl(base, t))) == Some(t)
      {
        PlainReadsBack(base, Mint(hmac, secret, d, u, now));
      }
    } else {
      OtherMissesOne(base, Mint(hmac, secret, 0, 0, now), Mint(hmac, secret, 1, 0, now));
    }
  }

  lemma PlainReadsBack(base: string, t: UnsubscribeToken)
    requires PlainBase(base) && InI64(t.exp) && |t.mac| == 64 && AllHex(t.mac)
    ensures ReadBack(ListUnsubscribe(UnsubscribeUrl(base, t))) == Some(t)
  {
    PrintedIsPlain(t);
    PlainLinkPosts(base, PrintToken(t));
    TokenRoundTrip(t);
  }

  /** From any other base, the links of two digests do not both come back with the digest they name. */
  lemma OtherMissesOne(base: string, s: UnsubscribeToken, t: UnsubscribeToken)
    requires !PlainBase(base) && AllHex(s.mac) && AllHex(t.mac) && s.digestId != t.digestId
    ensures !Names(ReadBack(ListUnsubscribe(UnsubscribeUrl(base, s))), s.digestId, s.userId)
            || !Names(ReadBack(ListUnsubscribe(UnsubscribeUrl(base, t))), t.digestId, t.userId)
  {
    PrintedIsPlain(s);
    PrintedIsPlain(t);
    OtherLinksAreBlind(base, PrintToken(s), PrintToken(t));
    var header := ListUnsubscribe(UnsubscribeUrl(base, s));
    if ReadBack(header).Some? {
      LinksHoldNoSlash(PostedToken(header).value);
    }
  }

  lemma {:induction false} TrimKeepsBefore(base: string, c: char)
    requires c != '/' && c in base
    ensures Before(TrimSlashes(base), c) == Before(base, c)
  {
    if base[|base| - 1] == '/' {
      var shorter := base[..|base| - 1];
      assert base == shorter + ['/'];
      BeforeOf(shorter, ['/'], c);
      TrimKeepsBefore(shorter, c);
    }
  }

  /** A base with a fragment, and no query before it, brings no token at all to the service. */
  lemma FragmentLosesToken(base: string, t: UnsubscribeToken)
    requires '#' in base && '?' !in Before(base, '#') && AllHex(t.mac)
    ensures PostedToken(ListUnsubscribe(UnsubscribeUrl(base, t))) == None
  {
    hide Before, TrimSlashes;
    TrimKeeps(base, '#');
    TrimKeepsBefore(base, '#');
    PrintedIsPlain(t);
    OtherUrl(base, PrintToken(t));
    var trimmed := TrimSlashes(base);
    BeforeBoth(trimmed, '>', '#', '?');
    NoQuery(trimmed);
    if '>' in trimmed {
      NoQuery(Before(trimmed, '>'));
    }
  }

  /** One such base. */
  lemma FragmentBase(t: UnsubscribeToken)
    requires AllHex(t.mac)
    ensures PostedToken(ListUnsubscribe(UnsubscribeUrl("https://h/#x", t))) == None
  {
    assert "https://h/#x"[10] == '#';
    BeforeWithin("https://h/#x", '#', '?');
    FragmentLosesToken("https://h/#x", t);
  }
}
