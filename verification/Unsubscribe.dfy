/** The one-click unsubscribe service: verify a link against the secret, keep the failure book, and
    apply a valid link to the one row it names. */
module Unsubscribe {
  import opened Common
  import opened Cadence
  import opened Text
  import opened Token
  import F = FailureBook
  import S = Subscriptions

  datatype UnsubscribeOutcome = Unsubscribed | AlreadyUnsubscribed | LinkExpired | LinkRefused

  /** The row a link acts on: the one a valid link names. */
  function ActsOn(hmac: Hmac, secret: seq<Byte>, text: string, now: Instant): Option<S.Key> {
    if VerdictOfText(hmac, secret, text, now) == Valid then
      Some((ParseToken(text).value.digestId, ParseToken(text).value.userId))
    else None
  }

  // ---- any interleaving of requests -------------------------------------------------------

  /** A posted link, genuine or not, or a verb of another service. */
  datatype Request = Post(text: string, now: Instant) | Verb(op: S.Op)

  function Serve(hmac: Hmac, secret: seq<Byte>, t: S.Table, r: Request): S.Table {
    match r
    case Verb(op) => S.Step(t, op)
    case Post(text, now) =>
      match ActsOn(hmac, secret, text, now)
      case Some(key) => S.Step(t, S.Op.Unsubscribe(key, now))
      case None => t
  }

  function ServeAll(hmac: Hmac, secret: seq<Byte>, t: S.Table, requests: seq<Request>): S.Table
    decreases requests
  {
    if requests == [] then t else ServeAll(hmac, secret, Serve(hmac, secret, t, requests[0]), requests[1..])
  }

  predicate Names(hmac: Hmac, secret: seq<Byte>, r: Request, key: S.Key) {
    match r
    case Verb(op) => op.key == key
    case Post(text, now) => ActsOn(hmac, secret, text, now) == Some(key)
  }

  lemma ServeLeavesOthers(hmac: Hmac, secret: seq<Byte>, t: S.Table, r: Request, key: S.Key)
    requires !Names(hmac, secret, r, key)
    ensures S.SameAt(t, Serve(hmac, secret, t, r), key)
  {
    match r
    case Verb(op) => S.StepLeavesOthers(t, op, key);
    case Post(text, now) =>
      var acted := ActsOn(hmac, secret, text, now);
      if acted.Some? {
        S.StepLeavesOthers(t, S.Op.Unsubscribe(acted.value, now), key);
      }
  }

  /** Whatever else is posted in between, a row changes only by a valid link that names it or a verb
      on it; forged, malformed and expired links change nothing. */
  lemma {:induction false} OnlyNamedRowsChange(
    hmac: Hmac, secret: seq<Byte>, t: S.Table, requests: seq<Request>, key: S.Key)
    requires forall i :: 0 <= i < |requests| ==> !Names(hmac, secret, requests[i], key)
    ensures S.SameAt(t, ServeAll(hmac, secret, t, requests), key)
    decreases requests
  {
    if requests != [] {
      assert !Names(hmac, secret, requests[0], key);
      ServeLeavesOthers(hmac, secret, t, requests[0], key);
      OnlyNamedRowsChange(hmac, secret, Serve(hmac, secret, t, requests[0]), requests[1..], key);
    }
  }

  /** A link mailed to a live subscriber unsubscribes exactly that subscriber, within 180 days of the
      mint, whatever was posted before. */
  lemma MailedLinkUnsubscribes(
    hmac: Hmac, secret: seq<Byte>, t: S.Table, d: Uuid, u: Uuid, minted: Instant, now: Instant)
    requires secret != [] && InI64(minted + TTL_SECONDS)
    requires S.IsSubscribed(t.rows, (d, u)) && !S.Tombstoned(t.rows[(d, u)].metadata)
    ensures var text := PrintToken(Mint(hmac, secret, d, u, minted));
            var after := Serve(hmac, secret, t, Post(text, now));
            && (S.IsUnsubscribed(after.rows, (d, u)) <==> now <= minted + 15_552_000)
            && after.rows - {(d, u)} == t.rows - {(d, u)}
  {
    MintedLinkVerdict(hmac, secret, d, u, minted, now);
  }

  // ---- the service ------------------------------------------------------------------------

  /** What judging a token adds to the failure book: a valid one a reset of its pair, a wrong MAC a failure
      of it, an expired one and an empty secret nothing. */
  function NoteOf(hmac: Hmac, secret: seq<Byte>, t: UnsubscribeToken, now: Instant, clock: int)
    : Option<(string, F.Event)>
  {
    var key := F.KeyOf(t.digestId, t.userId);
    match VerdictOf(hmac, secret, t, now)
    case Valid => Some((key, F.Event.Reset))
    case Expired => None
    case Refused => if secret == [] then None else Some((key, F.Failure(clock)))
  }

  /** A malformed text counts against the zero pair, under an empty secret too. */
  function NoteOfText(hmac: Hmac, secret: seq<Byte>, text: string, now: Instant, clock: int)
    : Option<(string, F.Event)>
  {
    match ParseToken(text)
    case Some(t) => NoteOf(hmac, secret, t, now, clock)
    case None => Some((F.KeyOf(NIL_UUID, NIL_UUID), F.Failure(clock)))
  }

  function Noted(history: map<string, seq<F.Event>>, note: Option<(string, F.Event)>): map<string, seq<F.Event>> {
    match note
    case None => history
    case Some((key, event)) => history[key := (if key in history then history[key] else []) + [event]]
  }

  /** A text that counts against a pair: a malformed one against the zero pair, and a token whose MAC does
      not match, under a secret, against the pair it names. */
  predicate CountsAgainst(hmac: Hmac, secret: seq<Byte>, text: string, d: Uuid, u: Uuid) {
    match ParseToken(text)
    case None => d == NIL_UUID && u == NIL_UUID
    case Some(t) => t.digestId == d && t.userId == u && secret != [] && !MacMatches(hmac, secret, t)
  }

  /** A text that clears a pair: a genuine, unexpired link of it. */
  predicate Clears(hmac: Hmac, secret: seq<Byte>, text: string, now: Instant, d: Uuid, u: Uuid) {
    match ParseToken(text)
    case None => false
    case Some(t) => t.digestId == d && t.userId == u && secret != [] && MacMatches(hmac, secret, t) && now <= t.exp
  }

  /** What each text does to the history of each pair: one failure at the clock, a reset, or nothing. */
  lemma TextsAndPairs(
    hmac: Hmac, secret: seq<Byte>, history: map<string, seq<F.Event>>, text: string, now: Instant, clock: int,
    d: Uuid, u: Uuid)
    ensures var after := Noted(history, NoteOfText(hmac, secret, text, now, clock));
            HistoryOf(after, d, u) == HistoryOf(history, d, u)
              + (if CountsAgainst(hmac, secret, text, d, u) then [F.Failure(clock)]
                 else if Clears(hmac, secret, text, now, d, u) then [F.Event.Reset] else [])
  {
    hide F.KeyOf, MacMatches;
    var named := match ParseToken(text) case None => (NIL_UUID, NIL_UUID) case Some(t) => (t.digestId, t.userId);
    if named != (d, u) && F.KeyOf(named.0, named.1) == F.KeyOf(d, u) {
      F.KeysTellPairsApart(named.0, named.1, d, u);
    }
    assert HistoryOf(history, d, u) + [] == HistoryOf(history, d, u);
  }

  function HistoryOf(history: map<string, seq<F.Event>>, d: Uuid, u: Uuid): seq<F.Event> {
    if F.KeyOf(d, u) in history then history[F.KeyOf(d, u)] else []
  }

  /** A text the service judges, at a wall-clock moment and a reading of the monotone clock. */
  datatype Judged = Judged(text: string, now: Instant, clock: int)

  function AllNoted(hmac: Hmac, secret: seq<Byte>, history: map<string, seq<F.Event>>, texts: seq<Judged>)
    : map<string, seq<F.Event>>
    decreases |texts|
  {
    if texts == [] then history
    else
      var last := texts[|texts| - 1];
      Noted(AllNoted(hmac, secret, history, texts[..|texts| - 1]),
            NoteOfText(hmac, secret, last.text, last.now, last.clock))
  }

  /** The clock readings of the texts that count against a pair, in order. */
  function Mismatches(hmac: Hmac, secret: seq<Byte>, texts: seq<Judged>, d: Uuid, u: Uuid): seq<int>
    decreases |texts|
  {
    if texts == [] then []
    else
      var last := texts[|texts| - 1];
      Mismatches(hmac, secret, texts[..|texts| - 1], d, u)
      + if CountsAgainst(hmac, secret, last.text, d, u) then [last.clock] else []
  }

  predicate NeverCleared(hmac: Hmac, secret: seq<Byte>, texts: seq<Judged>, d: Uuid, u: Uuid) {
    forall i :: 0 <= i < |texts| ==> !Clears(hmac, secret, texts[i].text, texts[i].now, d, u)
  }

  lemma {:induction false} MismatchesAreBooked(
    hmac: Hmac, secret: seq<Byte>, history: map<string, seq<F.Event>>, texts: seq<Judged>, d: Uuid, u: Uuid)
    requires NeverCleared(hmac, secret, texts, d, u)
    ensures HistoryOf(AllNoted(hmac, secret, history, texts), d, u)
         == HistoryOf(history, d, u) + F.Failures(Mismatches(hmac, secret, texts, d, u))
    decreases |texts|
  {
    hide CountsAgainst, Clears, HistoryOf;
    var h := HistoryOf(history, d, u);
    if texts == [] {
      assert h + F.Failures([]) == h;
    } else {
      var front, last := texts[..|texts| - 1], texts[|texts| - 1];
      MismatchesAreBooked(hmac, secret, history, front, d, u);
      TextsAndPairs(hmac, secret, AllNoted(hmac, secret, history, front), last.text, last.now, last.clock, d, u);
      var at := Mismatches(hmac, secret, front, d, u);
      assert F.Failures(at + [last.clock]) == F.Failures(at) + [F.Failure(last.clock)];
      assert at + [] == at;
      assert h + (F.Failures(at) + [F.Failure(last.clock)]) == h + F.Failures(at) + [F.Failure(last.clock)];
    }
  }

  /** What locks a pair, over any texts posted or checked for it and for others, none of them a valid link of
      it: five texts in a row that count against it, each less than 60 seconds after the one before. They lock
      it whatever the book held before, and nothing else locks a pair that had no history. */
  lemma FiveMismatchesLock(
    hmac: Hmac, secret: seq<Byte>, history: map<string, seq<F.Event>>, texts: seq<Judged>, d: Uuid, u: Uuid, now: int)
    requires NeverCleared(hmac, secret, texts, d, u)
    ensures var locked := F.LockedBy(HistoryOf(AllNoted(hmac, secret, history, texts), d, u), now);
            var five := F.FiveInARow(Mismatches(hmac, secret, texts, d, u), now);
            && (five ==> locked)
            && (HistoryOf(history, d, u) == [] ==> (locked <==> five))
  {
    hide AllNoted, Mismatches, NeverCleared, HistoryOf, F.LockedBy, F.FiveInARow;
    MismatchesAreBooked(hmac, secret, history, texts, d, u);
    var before, at := HistoryOf(history, d, u), Mismatches(hmac, secret, texts, d, u);
    if F.FiveInARow(at, now) {
      F.FiveFailuresLock(before, at, now);
    }
    if before == [] && F.LockedBy(before + F.Failures(at), now) {
      assert before + F.Failures(at) == F.Failures(at);
      F.OnlyFiveLock(at, now);
    }
  }

  /** A valid link unlocks its pair at once. */
  lemma ClearingUnlocks(
    hmac: Hmac, secret: seq<Byte>, history: map<string, seq<F.Event>>, text: string, now: Instant, clock: int,
    d: Uuid, u: Uuid, later: int)
    requires Clears(hmac, secret, text, now, d, u)
    ensures !F.LockedBy(HistoryOf(Noted(history, NoteOfText(hmac, secret, text, now, clock)), d, u), later)
  {
    TextsAndPairs(hmac, secret, history, text, now, clock, d, u);
  }

  class UnsubscribeService {
    const hmac: Hmac
    const secret: seq<Byte>
    const failures: F.VerifyFailureBook

    constructor (hmac: Hmac, secret: seq<Byte>, failures: F.VerifyFailureBook)
      ensures this.hmac == hmac && this.secret == secret && this.failures == failures
    {
      this.hmac, this.secret, this.failures := hmac, secret, failures;
    }

    /** The verdict never depends on the failure book. A valid link clears its pair's failures, a
        wrong MAC adds one, an expired link and an empty secret leave the book alone. `clock` is the
        monotone clock, `now` the wall clock in seconds. */
    method Verify(t: UnsubscribeToken, now: Instant, clock: int) returns (v: Verdict)
      requires failures.Valid() && failures.clock <= clock
      modifies failures
      ensures v == VerdictOf(hmac, secret, t, now)
      ensures failures.Valid() && failures.clock <= clock
      ensures failures.history == Noted(old(failures.history), NoteOf(hmac, secret, t, now, clock))
      ensures secret == [] ==> v == Refused && failures.history == old(failures.history)
      ensures secret != [] && !MacMatches(hmac, secret, t) ==>
                var key := F.KeyOf(t.digestId, t.userId);
                && v == Refused
                && failures.history == old(failures.history)[key := old(failures.History(key)) + [F.Failure(clock)]]
      ensures secret != [] && MacMatches(hmac, secret, t) && now <= t.exp ==>
                var key := F.KeyOf(t.digestId, t.userId);
                && v == Valid && !F.LockedBy(failures.History(key), clock)
                && failures.history == old(failures.history)[key := old(failures.History(key)) + [F.Event.Reset]]
      ensures secret != [] && MacMatches(hmac, secret, t) && now > t.exp ==>
                v == Expired && failures.history == old(failures.history)
    {
      if secret == [] {
        return Refused;
      }
      if MacMatches(hmac, secret, t) {
        if now <= t.exp {
          failures.Reset(t.digestId, t.userId);
          return Valid;
        }
        return Expired;
      }
      failures.RegisterFailure(t.digestId, t.userId, clock);
      return Refused;
    }

    /** What the confirm page shows; it changes no subscription. */
    method CheckToken(text: string, now: Instant, clock: int) returns (v: Verdict)
      requires failures.Valid() && failures.clock <= clock
      modifies failures
      ensures v == VerdictOfText(hmac, secret, text, now)
      ensures failures.Valid() && failures.clock <= clock
      ensures failures.history == Noted(old(failures.history), NoteOfText(hmac, secret, text, now, clock))
    {
      var t := ParseToken(text);
      if t.None? {
        failures.RegisterFailure(NIL_UUID, NIL_UUID, clock);
        return Refused;
      }
      v := Verify(t.value, now, clock);
    }

    /** The acting path. `applies` is false when the table's UPDATE fails: an error, and no change. */
    method UnsubscribeByToken(table: S.SubscriptionTable, text: string, now: Instant, clock: int, applies: bool)
      returns (r: Option<UnsubscribeOutcome>)
      requires failures.Valid() && failures.clock <= clock
      modifies failures, table
      ensures failures.Valid() && failures.clock <= clock
      ensures failures.history == Noted(old(failures.history), NoteOfText(hmac, secret, text, now, clock))
      ensures table.View() == if applies then Serve(hmac, secret, old(table.View()), Post(text, now))
                              else old(table.View())
      ensures var v := VerdictOfText(hmac, secret, text, now);
              r == if v == Expired then Some(LinkExpired)
                   else if v == Refused then Some(LinkRefused)
                   else if !applies then None
                   else if S.Performs(old(table.rows), S.Op.Unsubscribe(ActsOn(hmac, secret, text, now).value, now))
                     then Some(Unsubscribed)
                   else Some(AlreadyUnsubscribed)
    {
      var t := ParseToken(text);
      if t.None? {
        failures.RegisterFailure(NIL_UUID, NIL_UUID, clock);
        return Some(LinkRefused);
      }
      var v := Verify(t.value, now, clock);
      match v {
        case Valid =>
          if !applies {
            return None;
          }
          var performed := table.Apply(t.value.digestId, t.value.userId, now);
          return Some(if performed then Unsubscribed else AlreadyUnsubscribed);
        case Expired => return Some(LinkExpired);
        case Refused => return Some(LinkRefused);
      }
    }
  }
}
