/** The digest table's verbs and the daily sweep, as one process runs them: the sweep loop claims
    one due row at a time and refines "every due digest once, earliest first, each by itself". */
module Sweep {
  import opened Common
  import opened Calendar
  import opened Cadence
  import opened Batch

  datatype Outcome<+T> = Done(value: T) | Err(error: DigestError)

  datatype DigestError = Db | NotFound(id: Uuid) | PeriodicityRefused(value: string)

  datatype Mail = Mail(digest: Uuid, user: Uuid, day: Day)

  function MailsTo(id: Uuid, users: seq<Uuid>, day: Day): (mails: seq<Mail>)
    ensures |mails| == |users|
  {
    seq(|users|, i requires 0 <= i < |users| => Mail(id, users[i], day))
  }

  // ---- the tally --------------------------------------------------------------------------

  datatype Tally = Tally(
    claimed: nat, sentMails: nat,
    degraded: seq<Uuid>, mailDeliveryFailures: seq<Uuid>, isolatedFailures: seq<Uuid>)

  /** What one batch adds to the tally. The lists grow before the batch's last statement runs, so a
      batch that then rolls back has still added to them. */
  function BatchTally(t: Tally, id: Uuid, row: Row, env: Env, now: Instant): Tally {
    if env.recipients.None? then t
    else
      var users := env.recipients.value;
      var t1 := t.(sentMails := t.sentMails + SentCount(users, env.send));
      if AnyRefused(users, env.send) then t1.(mailDeliveryFailures := t1.mailDeliveryFailures + [id])
      else if !AllSent(users, env.send) then t1.(isolatedFailures := t1.isolatedFailures + [id])
      else if DegradeTo(row.periodicity, ReadSignal(row.periodicity, env, users, now)).Some? && env.rungWrite then
        t1.(degraded := t1.degraded + [id])
      else t1
  }

  /** What one claim adds to the tally. */
  function ClaimTally(t: Tally, id: Uuid, row: Row, env: Env, now: Instant): Tally {
    var t1 := BatchTally(t.(claimed := t.claimed + 1), id, row, env, now);
    if Commits(row, env, now) then t1 else t1.(isolatedFailures := t1.isolatedFailures + [id])
  }

  /** The tally after the digests of `order`, one after the other. */
  ghost function SweepTally(rows: map<Uuid, Row>, envs: Uuid -> Env, order: seq<Uuid>, now: Instant): Tally
    requires forall id :: id in order ==> id in rows
  {
    if order == [] then Tally(0, 0, [], [], [])
    else
      var id := order[|order| - 1];
      ClaimTally(SweepTally(rows, envs, order[..|order| - 1], now), id, rows[id], envs(id), now)
  }

  /** What a digest's batch is entered as; a batch that rolled back may be entered twice. */
  ghost predicate Told(t: Tally, id: Uuid, row: Row, env: Env, now: Instant) {
    if Commits(row, env, now) then
      && (id in t.degraded <==> AfterBatch(row, env, now).periodicity != row.periodicity)
      && (id in t.mailDeliveryFailures <==> AnyRefused(env.recipients.value, env.send))
      && (id in t.mailDeliveryFailures + t.isolatedFailures <==> !AllSent(env.recipients.value, env.send))
    else id in t.isolatedFailures
  }

  /** How many sends of all these batches succeeded. */
  ghost function TotalSent(envs: Uuid -> Env, order: seq<Uuid>): nat {
    if order == [] then 0
    else
      var env := envs(order[|order| - 1]);
      TotalSent(envs, order[..|order| - 1]) + |SentAt(UsersOf(env), env.send)|
  }

  ghost predicate Untold(t: Tally, id: Uuid) {
    id !in t.degraded && id !in t.mailDeliveryFailures && id !in t.isolatedFailures
  }

  /** For batches that commit the tally tells the truth: a digest is listed as degraded exactly when
      its committed cadence changed, and as failed exactly when some send did not succeed. A digest
      whose batch rolled back is listed as isolated, and no other digest is listed. The counts are those of
      the claims and of the sends that succeeded. */
  lemma {:induction false} TallyTells(
    rows: map<Uuid, Row>, envs: Uuid -> Env, order: seq<Uuid>, now: Instant, id: Uuid)
    requires forall x :: x in order ==> x in rows
    requires forall i, j :: 0 <= i < j < |order| ==> order[i] != order[j]
    ensures var t := SweepTally(rows, envs, order, now);
            && t.claimed == |order| && t.sentMails == TotalSent(envs, order)
            && if id in order then Told(t, id, rows[id], envs(id), now) else Untold(t, id)
    decreases |order|
  {
    if order != [] {
      var before, last := order[..|order| - 1], order[|order| - 1];
      hide ClaimTally, Told;
      assert order == before + [last];
      TallyTells(rows, envs, before, now, id);
      var t := SweepTally(rows, envs, before, now);
      ClaimTells(t, last, rows[last], envs(last), now, id);
      assert id == last ==> id !in before;
      assert id != last ==> (id in order <==> id in before);
    }
  }

  /** A claim enters its own digest as its batch went, and leaves every other digest's entries. */
  lemma ClaimTells(t: Tally, last: Uuid, row: Row, env: Env, now: Instant, id: Uuid)
    ensures var t1 := ClaimTally(t, last, row, env, now);
            && t1.claimed == t.claimed + 1 && t1.sentMails == t.sentMails + |SentAt(UsersOf(env), env.send)|
            && (id == last && Untold(t, id) ==> Told(t1, id, row, env, now))
            && (id != last ==>
                  && (id in t1.degraded <==> id in t.degraded)
                  && (id in t1.mailDeliveryFailures <==> id in t.mailDeliveryFailures)
                  && (id in t1.isolatedFailures <==> id in t.isolatedFailures))
  {
    hide BatchTally;
    var started := t.(claimed := t.claimed + 1);
    OthersUntouched(started, last, row, env, now, id);
    if id == last && Untold(t, id) {
      BatchTold(started, last, row, env, now);
    }
  }

  lemma BatchTold(t: Tally, id: Uuid, row: Row, env: Env, now: Instant)
    requires Untold(t, id)
    ensures Commits(row, env, now) ==> Told(BatchTally(t, id, row, env, now), id, row, env, now)
  {
    LadderStep(row.periodicity);
  }

  lemma OthersUntouched(t: Tally, id: Uuid, row: Row, env: Env, now: Instant, other: Uuid)
    ensures var t1 := BatchTally(t, id, row, env, now);
            && t1.claimed == t.claimed && t1.sentMails == t.sentMails + |SentAt(UsersOf(env), env.send)|
            && (other != id ==>
                  && (other in t1.degraded <==> other in t.degraded)
                  && (other in t1.mailDeliveryFailures <==> other in t.mailDeliveryFailures)
                  && (other in t1.isolatedFailures <==> other in t.isolatedFailures))
  {
    hide SentAt;
    SentCountIsExact(UsersOf(env), env.send);
    assert SentAt([], env.send) == {} by {
      NobodySent(env.send);
    }
  }

  lemma NobodySent(send: Uuid -> SendResult)
    ensures SentAt([], send) == {}
  {
  }

  // ---- the order of a sweep ---------------------------------------------------------------

  /** ORDER BY next_run_date, id. */
  predicate Before(rows: map<Uuid, Row>, a: Uuid, b: Uuid)
    requires a in rows && rows[a].nextRun.Some?
    requires b in rows && rows[b].nextRun.Some?
  {
    rows[a].nextRun.value < rows[b].nextRun.value
    || (rows[a].nextRun.value == rows[b].nextRun.value && a < b)
  }

  predicate IsDue(rows: map<Uuid, Row>, today: Day, id: Uuid) {
    id in rows && Due(rows[id], today)
  }

  /** The digests of `order` are due and come in the claim's order. */
  ghost predicate Ordered(rows: map<Uuid, Row>, today: Day, order: seq<Uuid>) {
    && (forall i :: 0 <= i < |order| ==> IsDue(rows, today, order[i]))
    && (forall i, j :: 0 <= i < j < |order| ==> Before(rows, order[i], order[j]))
  }

  /** `order` is every due digest once, earliest first. */
  ghost predicate SweepOrder(rows: map<Uuid, Row>, today: Day, order: seq<Uuid>) {
    && Ordered(rows, today, order)
    && (forall id :: IsDue(rows, today, id) ==> id in order)
  }

  /** There is only one such order. */
  lemma {:induction false} SweepOrderIsUnique(rows: map<Uuid, Row>, today: Day, a: seq<Uuid>, b: seq<Uuid>)
    requires Ordered(rows, today, a) && Ordered(rows, today, b)
    requires forall id :: id in a <==> id in b
    ensures a == b
    decreases |a|
  {
    if a == [] {
      if b != [] {
        NoMember(b);
      }
    } else {
      assert a[0] in b && b[0] in a;
      assert a[0] == b[0];
      assert a == [a[0]] + a[1..] && b == [b[0]] + b[1..];
      forall id: Uuid
        ensures id in a[1..] <==> id in b[1..]
      {
        assert a[0] !in a[1..] && b[0] !in b[1..];
        assert id in a <==> id == a[0] || id in a[1..];
        assert id in b <==> id == b[0] || id in b[1..];
      }
      SweepOrderIsUnique(rows, today, a[1..], b[1..]);
    }
  }

  lemma NoMember(b: seq<Uuid>)
    requires b != []
    ensures exists id :: id in b
  {
    assert b[0] in b;
  }

  predicate Earliest(rows: map<Uuid, Row>, ids: set<Uuid>, first: Uuid)
    requires forall id :: id in ids ==> id in rows && rows[id].nextRun.Some?
  {
    first in ids && forall id :: id in ids && id != first ==> Before(rows, first, id)
  }

  lemma {:induction false} EarliestExists(rows: map<Uuid, Row>, ids: set<Uuid>)
    requires ids != {}
    requires forall id :: id in ids ==> id in rows && rows[id].nextRun.Some?
    ensures exists id :: Earliest(rows, ids, id)
  {
    var x :| x in ids;
    var rest := ids - {x};
    if rest == {} {
      assert ids == {x};
      assert Earliest(rows, ids, x);
    } else {
      EarliestExists(rows, rest);
      var y :| Earliest(rows, rest, y);
      var first := if Before(rows, x, y) then x else y;
      forall j | j in ids && j != first
        ensures Before(rows, first, j)
      {
        if j != x && j != y {
          assert j in rest && Before(rows, y, j);
        }
      }
      assert Earliest(rows, ids, first);
    }
  }

  // ---- what a sweep leaves ----------------------------------------------------------------

  /** Every due row as its own batch leaves it, every other row as it was. */
  ghost function AfterSweep(rows: map<Uuid, Row>, envs: Uuid -> Env, now: Instant): map<Uuid, Row> {
    map id | id in rows :: if Due(rows[id], DayOf(now)) then AfterBatch(rows[id], envs(id), now) else rows[id]
  }

  /** The mail queue after the batches of `order`. */
  ghost function SweepMails(outbox0: seq<Mail>, envs: Uuid -> Env, order: seq<Uuid>, day: Day): seq<Mail> {
    if order == [] then outbox0
    else
      var id := order[|order| - 1];
      SweepMails(outbox0, envs, order[..|order| - 1], day) + MailsTo(id, BatchMailed(envs(id)), day)
  }

  /** A sweep mails each user once for each due digest that mails them, and nobody else. */
  lemma {:induction false} SweepMailCounts(
    outbox0: seq<Mail>, envs: Uuid -> Env, order: seq<Uuid>, day: Day, mail: Mail)
    requires forall i, j :: 0 <= i < j < |order| ==> order[i] != order[j]
    ensures multiset(SweepMails(outbox0, envs, order, day))[mail]
         == multiset(outbox0)[mail]
            + if mail.digest in order && mail.day == day then multiset(BatchMailed(envs(mail.digest)))[mail.user] else 0
  {
    if order != [] {
      var before, last := order[..|order| - 1], order[|order| - 1];
      assert order == before + [last];
      assert last !in before;
      SweepMailCounts(outbox0, envs, before, day, mail);
      MailsToCounts(last, BatchMailed(envs(last)), day, mail);
    }
  }

  lemma {:induction false} MailsToCounts(id: Uuid, users: seq<Uuid>, day: Day, mail: Mail)
    ensures multiset(MailsTo(id, users, day))[mail]
         == if mail.digest == id && mail.day == day then multiset(users)[mail.user] else 0
    decreases |users|
  {
    if users != [] {
      var before, last := users[..|users| - 1], users[|users| - 1];
      assert users == before + [last];
      MailsToCounts(id, before, day, mail);
      assert MailsTo(id, users, day) == MailsTo(id, before, day) + [Mail(id, last, day)];
    }
  }

  /** The claim finds no row. */
  ghost predicate NoneLeft(rows: map<Uuid, Row>, today: Day, processed: seq<Uuid>) {
    forall id :: IsDue(rows, today, id) ==> id in processed
  }

  /** The claim finds `id`. */
  ghost predicate IsNext(rows: map<Uuid, Row>, today: Day, processed: seq<Uuid>, id: Uuid) {
    && IsDue(rows, today, id) && id !in processed
    && forall j :: IsDue(rows, today, j) && j !in processed && j != id ==> Before(rows, id, j)
  }

  /** A sweep under way: `processed` so far, earlier than everything still due. */
  ghost predicate Progress(
    rows0: map<Uuid, Row>, rows: map<Uuid, Row>, envs: Uuid -> Env, now: Instant, processed: seq<Uuid>)
  {
    && Ordered(rows0, DayOf(now), processed)
    && (forall i, y :: 0 <= i < |processed| && y !in processed && IsDue(rows0, DayOf(now), y)
                       ==> Before(rows0, processed[i], y))
    && rows == map id | id in rows0 :: if id in processed then AfterBatch(rows0[id], envs(id), now) else rows0[id]
  }

  /** The whole state of a sweep under way: the table, the mails and the tally. */
  ghost predicate SweepSoFar(
    rows0: map<Uuid, Row>, rows: map<Uuid, Row>, outbox0: seq<Mail>, outbox: seq<Mail>, tally: Tally,
    envs: Uuid -> Env, now: Instant, processed: seq<Uuid>)
  {
    && Progress(rows0, rows, envs, now, processed)
    && outbox == SweepMails(outbox0, envs, processed, DayOf(now))
    && tally == SweepTally(rows0, envs, processed, now)
  }

  lemma ClaimExtends(
    rows0: map<Uuid, Row>, rows: map<Uuid, Row>, envs: Uuid -> Env, now: Instant, processed: seq<Uuid>, id: Uuid)
    requires Progress(rows0, rows, envs, now, processed)
    requires IsNext(rows, DayOf(now), processed, id)
    ensures rows[id] == rows0[id]
    ensures Progress(rows0, rows[id := AfterBatch(rows0[id], envs(id), now)], envs, now, processed + [id])
  {
    var today := DayOf(now);
    forall y | y !in processed + [id] && IsDue(rows0, today, y)
      ensures Before(rows0, id, y)
    {
      assert y !in processed && y != id;
      assert IsDue(rows, today, y);
    }
    assert forall x :: x in processed + [id] <==> x in processed || x == id;
  }

  lemma OneMore(
    rows: map<Uuid, Row>, outbox0: seq<Mail>, envs: Uuid -> Env, now: Instant, processed: seq<Uuid>, id: Uuid)
    requires id in rows && Ordered(rows, DayOf(now), processed)
    ensures SweepMails(outbox0, envs, processed + [id], DayOf(now))
         == SweepMails(outbox0, envs, processed, DayOf(now)) + MailsTo(id, BatchMailed(envs(id)), DayOf(now))
    ensures SweepTally(rows, envs, processed + [id], now)
         == ClaimTally(SweepTally(rows, envs, processed, now), id, rows[id], envs(id), now)
  {
    assert (processed + [id])[..|processed|] == processed;
  }

  ghost function Left(ids: set<Uuid>, processed: seq<Uuid>): set<Uuid> {
    set id | id in ids && id !in processed
  }

  lemma FewerLeft(ids: set<Uuid>, processed: seq<Uuid>, id: Uuid)
    requires id in ids && id !in processed
    ensures Left(ids, processed + [id]) < Left(ids, processed)
  {
    assert id in Left(ids, processed) && id !in Left(ids, processed + [id]);
  }

  lemma SweepStep(
    rows0: map<Uuid, Row>, rows: map<Uuid, Row>, outbox0: seq<Mail>, outbox: seq<Mail>, tally: Tally,
    envs: Uuid -> Env, now: Instant, processed: seq<Uuid>, id: Uuid)
    requires SweepSoFar(rows0, rows, outbox0, outbox, tally, envs, now, processed)
    requires IsNext(rows, DayOf(now), processed, id)
    ensures SweepSoFar(rows0, rows[id := AfterBatch(rows[id], envs(id), now)],
                       outbox0, outbox + MailsTo(id, BatchMailed(envs(id)), DayOf(now)),
                       ClaimTally(tally, id, rows[id], envs(id), now), envs, now, processed + [id])
  {
    ClaimExtends(rows0, rows, envs, now, processed, id);
    OneMore(rows0, outbox0, envs, now, processed, id);
  }

  lemma Drained(
    rows0: map<Uuid, Row>, rows: map<Uuid, Row>, envs: Uuid -> Env, now: Instant, processed: seq<Uuid>)
    requires Progress(rows0, rows, envs, now, processed)
    requires NoneLeft(rows, DayOf(now), processed)
    ensures SweepOrder(rows0, DayOf(now), processed)
    ensures rows == AfterSweep(rows0, envs, now)
  {
    forall id | IsDue(rows0, DayOf(now), id)
      ensures id in processed
    {
      assert id !in processed ==> IsDue(rows, DayOf(now), id);
    }
  }

  /** A second sweep of the same day finds only digests whose batch rolled back. */
  lemma SecondSweepRepeatsOnlyRollbacks(
    rows: map<Uuid, Row>, envs: Uuid -> Env, first: Instant, today: Day, order: seq<Uuid>)
    requires today <= DayOf(first)
    requires SweepOrder(AfterSweep(rows, envs, first), today, order)
    ensures forall id :: id in order <==> IsDue(rows, today, id) && !Commits(rows[id], envs(id), first)
  {
    var after := AfterSweep(rows, envs, first);
    forall id: Uuid
      ensures id in order <==> IsDue(rows, today, id) && !Commits(rows[id], envs(id), first)
    {
      if id in rows && Commits(rows[id], envs(id), first) {
        var users := envs(id).recipients.value;
        CommitMovesPastToday(rows[id], ReadSignal(rows[id].periodicity, envs(id), users, first),
                             AllSent(users, envs(id).send), DayOf(first));
      }
      assert id in order <==> IsDue(after, today, id);
    }
  }

  // ---- the engine -------------------------------------------------------------------------

  /** One run's tally as the sweep bumps it. */
  class SweepOutcome {
    var claimed: nat
    var sentMails: nat
    var degraded: seq<Uuid>
    var mailDeliveryFailures: seq<Uuid>
    var isolatedFailures: seq<Uuid>

    constructor ()
      ensures View() == Tally(0, 0, [], [], [])
    {
      claimed, sentMails := 0, 0;
      degraded, mailDeliveryFailures, isolatedFailures := [], [], [];
    }

    function View(): Tally
      reads this
    {
      Tally(claimed, sentMails, degraded, mailDeliveryFailures, isolatedFailures)
    }
  }

  class DigestEngine {
    /** `digest_digests`. */
    var rows: map<Uuid, Row>
    /** The mails handed to the mail queue, which no rollback recalls. */
    var outbox: seq<Mail>

    constructor ()
      ensures rows == map[] && outbox == []
    {
      rows, outbox := map[], [];
    }

    /** `id` is the fresh random UUID; the primary key refuses one already taken. */
    method CreateDigest(id: Uuid, p: Periodicity, today: Day) returns (r: Outcome<Uuid>)
      modifies this`rows
      ensures r == if id in old(rows) then Err(Db) else Done(id)
      ensures rows == if id in old(rows) then old(rows) else old(rows)[id := Row(p, Some(NextRun(p, today)), true)]
    {
      if id in rows {
        return Err(Db);
      }
      rows := rows[id := Row(p, Some(NextRun(p, today)), true)];
      return Done(id);
    }

    method SetPeriodicity(id: Uuid, value: string, today: Day) returns (r: Outcome<()>)
      modifies this`rows
      ensures r == match ParsePeriodicity(value)
                   case None => Err(PeriodicityRefused(value))
                   case Some(_) => if id in old(rows) then Done(()) else Err(NotFound(id))
      ensures r.Err? ==> rows == old(rows)
      ensures r.Done? ==> var p := ParsePeriodicity(value).value;
                          rows == old(rows)[id := Row(p, Some(NextRun(p, today)), old(rows)[id].activated)]
    {
      var p := ParsePeriodicity(value);
      if p.None? {
        return Err(PeriodicityRefused(value));
      }
      if id !in rows {
        return Err(NotFound(id));
      }
      rows := rows[id := rows[id].(periodicity := p.value, nextRun := Some(NextRun(p.value, today)))];
      return Done(());
    }

    method SetState(id: Uuid, activated: bool) returns (r: Outcome<()>)
      modifies this`rows
      ensures r == if id in old(rows) then Done(()) else Err(NotFound(id))
      ensures rows == if id in old(rows) then old(rows)[id := old(rows)[id].(activated := activated)] else old(rows)
    {
      if id !in rows {
        return Err(NotFound(id));
      }
      rows := rows[id := rows[id].(activated := activated)];
      return Done(());
    }

    /** The send loop of a batch and of a manual send. */
    method SendAll(id: Uuid, users: seq<Uuid>, send: Uuid -> SendResult, today: Day)
      returns (sent: nat, refused: nat, failed: nat)
      modifies this`outbox
      ensures outbox == old(outbox) + MailsTo(id, Mailed(users, send), today)
      ensures sent == |SentAt(users, send)| == SentCount(users, send)
      ensures refused == |RefusedAt(users, send)| && failed == |FailedAt(users, send)|
      ensures sent + refused + failed == |users|
      ensures refused > 0 <==> AnyRefused(users, send)
      ensures refused + failed == 0 <==> AllSent(users, send)
    {
      sent, refused, failed := 0, 0, 0;
      var i := 0;
      while i < |users|
        invariant 0 <= i <= |users|
        invariant outbox == old(outbox) + MailsTo(id, Mailed(users[..i], send), today)
        invariant sent == SentCount(users[..i], send) && sent + refused + failed == i
        invariant refused == |RefusedAt(users[..i], send)| && failed == |FailedAt(users[..i], send)|
        invariant refused > 0 <==> AnyRefused(users[..i], send)
        invariant refused + failed == 0 <==> AllSent(users[..i], send)
      {
        OneMoreRefused(users, send, i);
        OneMoreFailed(users, send, i);
        assert users[..i + 1][..i] == users[..i] && users[..i + 1][i] == users[i];
        assert forall k :: 0 <= k < i ==> users[..i + 1][k] == users[..i][k];
        match send(users[i]) {
          case Sent =>
            outbox := outbox + [Mail(id, users[i], today)];
            sent := sent + 1;
          case Refused =>
            refused := refused + 1;
          case Failed(enqueued) =>
            if enqueued {
              outbox := outbox + [Mail(id, users[i], today)];
            }
            failed := failed + 1;
        }
        i := i + 1;
      }
      assert users[..|users|] == users;
      SentCountIsExact(users, send);
    }

    /** One digest's batch inside the claim transaction: the row to commit, or None to roll back. */
    method ProcessDigest(id: Uuid, row: Row, env: Env, now: Instant, outcome: SweepOutcome)
      returns (committed: Option<Row>)
      modifies this`outbox, outcome
      ensures committed == if Commits(row, env, now) then Some(AfterBatch(row, env, now)) else None
      ensures outbox == old(outbox) + MailsTo(id, BatchMailed(env), DayOf(now))
      ensures outcome.View() == BatchTally(old(outcome.View()), id, row, env, now)
    {
      hide NextRun, LoginWindowSince, NextRung, Mailed, SentCount, AnyRefused, AllSent;
      if env.recipients.None? {
        return None;
      }
      var users := env.recipients.value;

      // The slowdown check: decided here, written only with the advance.
      var degradeTo: Option<Periodicity> := None;
      var signal := if users == [] then Answered(true)
                    else env.signal(users, LoginWindowSince(row.periodicity, now));
      match signal {
        case Answered(loggedIn) =>
          if !loggedIn {
            degradeTo := NextRung(row.periodicity);
          }
        case Unavailable =>
      }

      var sent, refused, failed := SendAll(id, users, env.send, DayOf(now));
      outcome.sentMails := outcome.sentMails + sent;

      if refused > 0 || failed > 0 {
        if refused > 0 {
          outcome.mailDeliveryFailures := outcome.mailDeliveryFailures + [id];
        } else {
          outcome.isolatedFailures := outcome.isolatedFailures + [id];
        }
        if !env.retryWrite {
          return None;
        }
        return Some(row.(nextRun := Some(DayOf(now) + 1)));
      }

      var updated := row;
      if degradeTo.Some? {
        if !env.rungWrite {
          return None;
        }
        updated := updated.(periodicity := degradeTo.value);
        outcome.degraded := outcome.degraded + [id];
      }
      updated := updated.(nextRun := Some(NextRun(updated.periodicity, DayOf(now))));
      if env.advanceWrite.None? || env.advanceWrite.value == 0 {
        return None;
      }
      return Some(updated);
    }

    /** The claim query: the earliest due row not yet processed. */
    method ClaimNext(today: Day, processed: seq<Uuid>) returns (claimed: Option<Uuid>)
      ensures claimed.None? <==> NoneLeft(rows, today, processed)
      ensures claimed.Some? ==> IsNext(rows, today, processed, claimed.value)
      ensures claimed.None? ==>
                forall id :: id in rows && rows[id].activated && id !in processed ==>
                  rows[id].nextRun.Some? ==> today < rows[id].nextRun.value
      ensures claimed.Some? ==>
                var id := claimed.value;
                && id in rows && rows[id].activated && id !in processed
                && rows[id].nextRun.Some? && rows[id].nextRun.value <= today
                && forall j :: j in rows && j != id && j !in processed && rows[j].activated ==>
                     rows[j].nextRun.Some? && rows[j].nextRun.value <= today ==>
                       || rows[id].nextRun.value < rows[j].nextRun.value
                       || (rows[id].nextRun.value == rows[j].nextRun.value && id < j)
    {
      var ids := set id | id in rows && Due(rows[id], today) && id !in processed;
      if ids == {} {
        assert forall id :: IsDue(rows, today, id) && id !in processed ==> id in ids;
        return None;
      }
      EarliestExists(rows, ids);
      var id :| id in ids && Earliest(rows, ids, id);
      assert forall j :: IsDue(rows, today, j) && j !in processed ==> j in ids;
      return Some(id);
    }

    /** One claimed digest: its batch, then commit or roll back, isolated from every other row. */
    method RunClaimed(id: Uuid, env: Env, now: Instant, outcome: SweepOutcome)
      requires id in rows
      modifies this, outcome
      ensures rows == old(rows)[id := AfterBatch(old(rows)[id], env, now)]
      ensures outbox == old(outbox) + MailsTo(id, BatchMailed(env), DayOf(now))
      ensures outcome.View() == ClaimTally(old(outcome.View()), id, old(rows)[id], env, now)
    {
      outcome.claimed := outcome.claimed + 1;
      var committed := ProcessDigest(id, rows[id], env, now, outcome);
      if committed.Some? {
        rows := rows[id := committed.value];
      } else {
        outcome.isolatedFailures := outcome.isolatedFailures + [id];
      }
    }

    /** The daily pull. Each due digest is claimed once, in order; its row becomes what its own batch
        makes of it, or stays when that batch rolls back; every other row stays as it was. */
    method RunDailyPull(now: Instant, envs: Uuid -> Env)
      returns (outcome: SweepOutcome, ghost order: seq<Uuid>)
      modifies this
      ensures fresh(outcome)
      ensures SweepOrder(old(rows), DayOf(now), order)
      ensures forall id :: id in order <==>
                && id in old(rows) && old(rows)[id].activated
                && old(rows)[id].nextRun.Some? && old(rows)[id].nextRun.value <= DayOf(now)
      ensures forall i, j :: 0 <= i < j < |order| ==>
                var a, b := old(rows)[order[i]].nextRun.value, old(rows)[order[j]].nextRun.value;
                a < b || (a == b && order[i] < order[j])
      ensures rows == AfterSweep(old(rows), envs, now)
      ensures outbox == SweepMails(old(outbox), envs, order, DayOf(now))
      ensures outcome.View() == SweepTally(old(rows), envs, order, now)
    {
      var today := DayOf(now);
      ghost var rows0, outbox0 := rows, outbox;
      outcome := new SweepOutcome();
      var processed: seq<Uuid> := [];
      while true
        invariant fresh(outcome)
        invariant SweepSoFar(rows0, rows, outbox0, outbox, outcome.View(), envs, now, processed)
        decreases Left(rows0.Keys, processed)
      {
        var claim := ClaimNext(today, processed);
        if claim.None? {
          break;
        }
        SweepStep(rows0, rows, outbox0, outbox, outcome.View(), envs, now, processed, claim.value);
        FewerLeft(rows0.Keys, processed, claim.value);
        RunClaimed(claim.value, envs(claim.value), now, outcome);
        processed := processed + [claim.value];
      }
      Drained(rows0, rows, envs, now, processed);
      order := processed;
    }

    /** Send Now mails every recipient and touches no row: it neither advances nor degrades. */
    method SendNow(id: Uuid, now: Instant, recipients: Option<seq<Uuid>>, send: Uuid -> SendResult)
      returns (r: Outcome<(nat, nat, nat)>)
      modifies this`outbox
      ensures id !in rows ==> r == Err(NotFound(id)) && outbox == old(outbox)
      ensures id in rows && recipients.None? ==> r == Err(Db) && outbox == old(outbox)
      ensures id in rows && recipients.Some? ==>
                && outbox == old(outbox) + MailsTo(id, Mailed(recipients.value, send), DayOf(now))
                && r == Done((|SentAt(recipients.value, send)|, |RefusedAt(recipients.value, send)|,
                              |FailedAt(recipients.value, send)|))
    {
      if id !in rows {
        return Err(NotFound(id));
      }
      if recipients.None? {
        return Err(Db);
      }
      var sent, refused, failed := SendAll(id, recipients.value, send, DayOf(now));
      return Done((sent, refused, failed));
    }
  }
}
