/** The in-memory book of failed verifications: per (digest, user) a count and the moment of the
    latest failure, standing for the whole history of failures and resets. */
module FailureBook {
  import opened Common
  import opened Text

  const VERIFY_MAX_FAILURES := 5

  /** `VERIFY_LOCK_SECONDS` on the monotone clock, in nanoseconds. */
  const WINDOW := 60_000_000_000

  function KeyOf(digestId: Uuid, userId: Uuid): string {
    "digest-unsub" + ['|'] + (PrintUuid(digestId) + ['|'] + PrintUuid(userId))
  }

  /** Each pair has a key of its own. */
  lemma KeysTellPairsApart(d1: Uuid, u1: Uuid, d2: Uuid, u2: Uuid)
    requires KeyOf(d1, u1) == KeyOf(d2, u2)
    ensures d1 == d2 && u1 == u2
  {
    KeySplits(d1, u1);
    KeySplits(d2, u2);
    var p1, p2 := Split(KeyOf(d1, u1), '|'), Split(KeyOf(d2, u2), '|');
    assert p1[1] == p2[1] && p1[2] == p2[2];
    UuidRoundTrip(d1);
    UuidRoundTrip(d2);
    UuidRoundTrip(u1);
    UuidRoundTrip(u2);
  }

  lemma KeySplits(d: Uuid, u: Uuid)
    ensures Split(KeyOf(d, u), '|') == ["digest-unsub", PrintUuid(d), PrintUuid(u)]
  {
    SplitLast(PrintUuid(u), '|');
    SplitFirst(PrintUuid(d), PrintUuid(u), '|');
    SplitFirst("digest-unsub", PrintUuid(d) + ['|'] + PrintUuid(u), '|');
  }

  // ---- the history ------------------------------------------------------------------------

  datatype Event = Failure(at: int) | Reset

  /** The latest `k` events are failures, each less than a window after the one before. */
  predicate EndsInRun(h: seq<Event>, k: nat) {
    && k <= |h|
    && (forall i :: |h| - k <= i < |h| ==> h[i].Failure?)
    && (forall i :: |h| - k < i < |h| ==> h[i].at - h[i - 1].at < WINDOW)
  }

  /** What the lock means: five failures in a row, each within a window of the next, the latest
      still within its window. */
  predicate LockedBy(h: seq<Event>, now: int) {
    EndsInRun(h, VERIFY_MAX_FAILURES) && now - h[|h| - 1].at < WINDOW
  }

  function Failures(at: seq<int>): (h: seq<Event>)
    ensures |h| == |at|
  {
    seq(|at|, i requires 0 <= i < |at| => Failure(at[i]))
  }

  /** The last five moments lie less than 60 seconds apart, in nanoseconds, and the last less than that ago. */
  predicate FiveInARow(at: seq<int>, now: int) {
    && |at| >= 5 && now - at[|at| - 1] < 60_000_000_000
    && forall i :: |at| - 5 < i < |at| ==> at[i] - at[i - 1] < 60_000_000_000
  }

  /** Five failures in a row lock, after any history. */
  lemma FiveFailuresLock(before: seq<Event>, at: seq<int>, now: int)
    requires FiveInARow(at, now)
    ensures LockedBy(before + Failures(at), now)
  {
    var h := before + Failures(at);
    assert forall i :: |before| <= i < |h| ==> h[i] == Failure(at[i - |before|]);
  }

  /** Of failures alone, only five in a row do. */
  lemma OnlyFiveLock(at: seq<int>, now: int)
    requires LockedBy(Failures(at), now)
    ensures FiveInARow(at, now)
  {
    var h := Failures(at);
    forall i | |at| - 5 < i < |at|
      ensures at[i] - at[i - 1] < 60_000_000_000
    {
      assert h[i].at - h[i - 1].at < WINDOW;
    }
  }

  /** The failures counted at the end of a history. */
  function RunLength(h: seq<Event>): nat {
    if h == [] || h[|h| - 1].Reset? then 0
    else if |h| > 1 && h[|h| - 2].Failure? && h[|h| - 1].at - h[|h| - 2].at < WINDOW then RunLength(h[..|h| - 1]) + 1
    else 1
  }

  /** The count is the length of the longest run the history ends in. */
  lemma {:induction false} RunLengthIsLongest(h: seq<Event>, k: nat)
    ensures EndsInRun(h, k) <==> k <= RunLength(h)
  {
    if k > 1 && h != [] && h[|h| - 1].Failure? {
      var h0 := h[..|h| - 1];
      RunLengthIsLongest(h0, k - 1);
      if EndsInRun(h, k) {
        assert forall i :: 0 <= i < |h0| ==> h0[i] == h[i];
        assert h[|h| - 2].Failure?;
      }
    }
  }

  /** Failures are in the order of the clock, none after `now`. */
  predicate InOrder(h: seq<Event>, now: int) {
    && (forall i :: 0 <= i < |h| && h[i].Failure? ==> h[i].at <= now)
    && (forall i, j :: 0 <= i < j < |h| && h[i].Failure? && h[j].Failure? ==> h[i].at <= h[j].at)
  }

  datatype Entry = Entry(count: nat, at: int)

  /** An entry stands for a history that ends in a failure; a missing entry for one that does not,
      or whose latest failure is a window old. */
  predicate StandsFor(entry: Option<Entry>, h: seq<Event>, now: int) {
    match entry
    case Some(e) => h != [] && h[|h| - 1].Failure? && e == Entry(RunLength(h), h[|h| - 1].at)
    case None => h == [] || h[|h| - 1].Reset? || now - h[|h| - 1].at >= WINDOW
  }

  /** Registering a failure extends the run, or starts it anew when the entry has lapsed. */
  lemma OneMoreFailure(entry: Option<Entry>, h: seq<Event>, clock: int, now: int)
    requires InOrder(h, clock) && StandsFor(entry, h, clock) && clock <= now
    ensures var live := entry.Some? && now - entry.value.at < WINDOW;
            var bumped := Entry(if live then entry.value.count + 1 else 1, now);
            && StandsFor(Some(bumped), h + [Failure(now)], now)
            && InOrder(h + [Failure(now)], now)
  {
    assert (h + [Failure(now)])[..|h|] == h;
  }

  /** Time alone changes nothing that an entry, or a missing one, stands for. */
  lemma StandsOn(entry: Option<Entry>, h: seq<Event>, clock: int, now: int)
    requires InOrder(h, clock) && StandsFor(entry, h, clock) && clock <= now
    ensures InOrder(h, now) && StandsFor(entry, h, now)
  {
  }

  /** An entry answers for its history, and a lapsed one can be dropped. */
  lemma EntryAnswers(entry: Option<Entry>, h: seq<Event>, clock: int, now: int)
    requires InOrder(h, clock) && StandsFor(entry, h, clock) && clock <= now
    ensures var live := entry.Some? && now - entry.value.at < WINDOW;
            && (LockedBy(h, now) <==> live && entry.value.count >= VERIFY_MAX_FAILURES)
            && InOrder(h, now) && StandsFor(if live then entry else None, h, now)
  {
    RunLengthIsLongest(h, VERIFY_MAX_FAILURES);
  }

  // ---- the book ---------------------------------------------------------------------------

  class VerifyFailureBook {
    var entries: map<string, Entry>
    /** Everything registered and reset so far, by key, and the latest moment the book was used. */
    ghost var history: map<string, seq<Event>>
    ghost var clock: int

    constructor (now: int)
      ensures Valid() && clock == now && history == map[]
    {
      entries, history, clock := map[], map[], now;
    }

    ghost function History(key: string): seq<Event>
      reads this
    {
      if key in history then history[key] else []
    }

    function EntryOf(key: string): Option<Entry>
      reads this
    {
      if key in entries then Some(entries[key]) else None
    }

    ghost predicate KeyHolds(key: string)
      reads this
    {
      InOrder(History(key), clock) && StandsFor(EntryOf(key), History(key), clock)
    }

    ghost predicate Valid()
      reads this
    {
      forall key: string :: KeyHolds(key)
    }

    /** The answer is that of the full history; a lapsed entry is dropped, which nothing can tell. */
    method Locked(digestId: Uuid, userId: Uuid, now: int) returns (locked: bool)
      requires Valid() && clock <= now
      modifies this
      ensures Valid() && clock == now && history == old(history)
      ensures locked <==> LockedBy(History(KeyOf(digestId, userId)), now)
    {
      hide KeyOf, StandsFor, InOrder, LockedBy;
      var key := KeyOf(digestId, userId);
      assert KeyHolds(key);
      EntryAnswers(EntryOf(key), History(key), clock, now);
      clock := now;
      locked := false;
      if key in entries {
        if now - entries[key].at >= WINDOW {
          entries := entries - {key};
        } else {
          locked := entries[key].count >= VERIFY_MAX_FAILURES;
        }
      }
      forall k: string | k != key
        ensures KeyHolds(k)
      {
        assert old(KeyHolds(k));
        StandsOn(EntryOf(k), History(k), old(clock), now);
      }
    }

    method RegisterFailure(digestId: Uuid, userId: Uuid, now: int)
      requires Valid() && clock <= now
      modifies this
      ensures Valid() && clock == now
      ensures history == old(history)[KeyOf(digestId, userId) := old(History(KeyOf(digestId, userId))) + [Failure(now)]]
    {
      hide KeyOf, StandsFor, InOrder;
      var key := KeyOf(digestId, userId);
      assert KeyHolds(key);
      OneMoreFailure(EntryOf(key), History(key), clock, now);
      var entry := if key in entries then entries[key] else Entry(0, now);
      if now - entry.at >= WINDOW {
        entry := entry.(count := 0);
      }
      entries := entries[key := Entry(entry.count + 1, now)];
      history := history[key := History(key) + [Failure(now)]];
      clock := now;
      assert KeyHolds(key);
      forall k: string | k != key
        ensures KeyHolds(k)
      {
        assert old(KeyHolds(k));
        StandsOn(EntryOf(k), History(k), old(clock), now);
      }
    }

    method Reset(digestId: Uuid, userId: Uuid)
      requires Valid()
      modifies this
      ensures Valid() && clock == old(clock)
      ensures history == old(history)[KeyOf(digestId, userId) := old(History(KeyOf(digestId, userId))) + [Event.Reset]]
    {
      var key := KeyOf(digestId, userId);
      entries := entries - {key};
      history := history[key := History(key) + [Event.Reset]];
      forall k: string
        ensures KeyHolds(k)
      {
        assert old(KeyHolds(k));
      }
    }
  }
}
