/** One digest's batch: the slowdown decision, the sends, and the row the batch commits. What a
    batch meets outside its own row (recipients, login signal, mail seam, database) is an oracle. */
module Batch {
  import opened Common
  import opened Calendar
  import opened Cadence

  /** The columns of a digest row that the engines read and write. */
  datatype Row = Row(periodicity: Periodicity, nextRun: Option<Day>, activated: bool)

  /** The claim's filter. */
  predicate Due(row: Row, today: Day) {
    row.activated && row.nextRun.Some? && row.nextRun.value <= today
  }

  /** The recipient port's answer to "did any of these log in since". */
  datatype Signal = Answered(loggedIn: bool) | Unavailable

  /** What one send came to: enqueued and recorded, refused by the mail seam with nothing
      enqueued, or failed otherwise, before or after the mail was enqueued. */
  datatype SendResult = Sent | Refused | Failed(enqueued: bool)

  /** What one batch meets. `recipients` is None when the subscription query fails; a write flag is
      false when that UPDATE fails; `advanceWrite` is the number of rows the advance matched, None
      when it failed. */
  datatype Env = Env(
    recipients: Option<seq<Uuid>>,
    signal: (seq<Uuid>, Instant) -> Signal,
    send: Uuid -> SendResult,
    retryWrite: bool,
    rungWrite: bool,
    advanceWrite: Option<nat>)

  predicate AllSent(users: seq<Uuid>, send: Uuid -> SendResult) {
    forall i :: 0 <= i < |users| ==> send(users[i]).Sent?
  }

  predicate AnyRefused(users: seq<Uuid>, send: Uuid -> SendResult) {
    exists i :: 0 <= i < |users| && send(users[i]).Refused?
  }

  predicate Enqueues(r: SendResult) {
    r.Sent? || (r.Failed? && r.enqueued)
  }

  /** The users whose mail was enqueued, in order. */
  function Mailed(users: seq<Uuid>, send: Uuid -> SendResult): seq<Uuid> {
    if users == [] then []
    else
      var last := users[|users| - 1];
      Mailed(users[..|users| - 1], send) + if Enqueues(send(last)) then [last] else []
  }

  function SentCount(users: seq<Uuid>, send: Uuid -> SendResult): nat {
    if users == [] then 0
    else SentCount(users[..|users| - 1], send) + if send(users[|users| - 1]).Sent? then 1 else 0
  }

  /** The users a batch tries: none when its recipient query fails, and the batch then rolls back. */
  function UsersOf(env: Env): seq<Uuid> {
    if env.recipients.Some? then env.recipients.value else []
  }

  /** Which of the recipients' sends came to each result. */
  function SentAt(users: seq<Uuid>, send: Uuid -> SendResult): set<int> {
    set i | 0 <= i < |users| && send(users[i]).Sent?
  }

  function RefusedAt(users: seq<Uuid>, send: Uuid -> SendResult): set<int> {
    set i | 0 <= i < |users| && send(users[i]).Refused?
  }

  function FailedAt(users: seq<Uuid>, send: Uuid -> SendResult): set<int> {
    set i | 0 <= i < |users| && send(users[i]).Failed?
  }

  lemma OneMoreSent(users: seq<Uuid>, send: Uuid -> SendResult, i: nat)
    requires i < |users|
    ensures |SentAt(users[..i + 1], send)| == |SentAt(users[..i], send)| + if send(users[i]).Sent? then 1 else 0
  {
    assert forall k :: 0 <= k < i ==> users[..i + 1][k] == users[..i][k];
    assert SentAt(users[..i + 1], send) == SentAt(users[..i], send) + if send(users[i]).Sent? then {i} else {};
  }

  lemma OneMoreRefused(users: seq<Uuid>, send: Uuid -> SendResult, i: nat)
    requires i < |users|
    ensures |RefusedAt(users[..i + 1], send)|
         == |RefusedAt(users[..i], send)| + if send(users[i]).Refused? then 1 else 0
  {
    assert forall k :: 0 <= k < i ==> users[..i + 1][k] == users[..i][k];
    assert RefusedAt(users[..i + 1], send) == RefusedAt(users[..i], send) + if send(users[i]).Refused? then {i} else {};
  }

  lemma OneMoreFailed(users: seq<Uuid>, send: Uuid -> SendResult, i: nat)
    requires i < |users|
    ensures |FailedAt(users[..i + 1], send)| == |FailedAt(users[..i], send)| + if send(users[i]).Failed? then 1 else 0
  {
    assert forall k :: 0 <= k < i ==> users[..i + 1][k] == users[..i][k];
    assert FailedAt(users[..i + 1], send) == FailedAt(users[..i], send) + if send(users[i]).Failed? then {i} else {};
  }

  lemma {:induction false} SentCountIsExact(users: seq<Uuid>, send: Uuid -> SendResult)
    ensures SentCount(users, send) == |SentAt(users, send)|
  {
    if users != [] {
      SentCountIsExact(users[..|users| - 1], send);
      OneMoreSent(users, send, |users| - 1);
      assert users[..|users|] == users;
    }
  }

  /** A user is mailed as often as listed when the send succeeds or fails only after enqueueing, and not at
      all otherwise; the count of sends tells whether all of them succeeded. */
  lemma {:induction false} MailedCounts(users: seq<Uuid>, send: Uuid -> SendResult, user: Uuid)
    ensures multiset(Mailed(users, send))[user]
         == match send(user)
            case Sent => multiset(users)[user]
            case Refused => 0
            case Failed(enqueued) => if enqueued then multiset(users)[user] else 0
    ensures SentCount(users, send) <= |Mailed(users, send)| <= |users|
    ensures SentCount(users, send) == |users| <==> AllSent(users, send)
  {
    if users != [] {
      var before, last := users[..|users| - 1], users[|users| - 1];
      assert users == before + [last];
      MailedCounts(before, send, user);
    }
  }

  /** Mails go out in the order of the recipients. */
  lemma {:induction false} MailedJoins(a: seq<Uuid>, b: seq<Uuid>, send: Uuid -> SendResult)
    ensures Mailed(a + b, send) == Mailed(a, send) + Mailed(b, send)
  {
    if b == [] {
      assert a + b == a && Mailed(a, send) + [] == Mailed(a, send);
    } else {
      var front, last := b[..|b| - 1], b[|b| - 1];
      assert (a + b)[..|a + b| - 1] == a + front && (a + b)[|a + b| - 1] == last;
      MailedJoins(a, front, send);
      var more := if Enqueues(send(last)) then [last] else [];
      assert Mailed(a, send) + Mailed(front, send) + more == Mailed(a, send) + (Mailed(front, send) + more);
    }
  }

  /** The signal as the batch reads it: with no recipient there is nobody to be disengaged. */
  function ReadSignal(p: Periodicity, env: Env, users: seq<Uuid>, now: Instant): Signal {
    if users == [] then Answered(true) else env.signal(users, LoginWindowSince(p, now))
  }

  /** The rung the batch decides to take, written only with an advance. */
  function DegradeTo(p: Periodicity, signal: Signal): Option<Periodicity> {
    if signal == Answered(false) then NextRung(p) else None
  }

  /** The row a batch commits. */
  function CommittedRow(row: Row, signal: Signal, allSent: bool, today: Day): Row {
    if !allSent then row.(nextRun := Some(today + 1))
    else
      var next := DegradeTo(row.periodicity, signal);
      var cadence := if next.Some? then next.value else row.periodicity;
      row.(periodicity := cadence, nextRun := Some(NextRun(cadence, today)))
  }

  /** Whether every statement of the batch went through. */
  predicate Commits(row: Row, env: Env, now: Instant) {
    && env.recipients.Some?
    && var users := env.recipients.value;
       if !AllSent(users, env.send) then env.retryWrite
       else
         && (DegradeTo(row.periodicity, ReadSignal(row.periodicity, env, users, now)).Some? ==> env.rungWrite)
         && env.advanceWrite.Some? && env.advanceWrite.value > 0
  }

  /** The row after the batch: the committed one, or the row as it was when the batch rolls back. */
  function AfterBatch(row: Row, env: Env, now: Instant): Row {
    if Commits(row, env, now) then
      var users := env.recipients.value;
      CommittedRow(row, ReadSignal(row.periodicity, env, users, now), AllSent(users, env.send), DayOf(now))
    else row
  }

  /** The users the batch mailed. Mails leave through the queue, so a rollback does not recall them. */
  function BatchMailed(env: Env): seq<Uuid> {
    if env.recipients.Some? then Mailed(env.recipients.value, env.send) else []
  }

  /** A batch that committed an advance. */
  predicate Healthy(row: Row, env: Env, now: Instant) {
    Commits(row, env, now) && AllSent(env.recipients.value, env.send)
  }

  // ---- one batch --------------------------------------------------------------------------

  /** Every committed batch moves the row strictly past the sweep's day, and not past the 92 days
      of the slowest cadence. */
  lemma CommitMovesPastToday(row: Row, signal: Signal, allSent: bool, today: Day)
    ensures var after := CommittedRow(row, signal, allSent, today);
            after.nextRun.Some? && today < after.nextRun.value <= today + 92
  {
    GapBounds(CommittedRow(row, signal, allSent, today).periodicity, today);
  }

  /** The ladder takes a rung exactly when a healthy batch had recipients, the port answered that
      none of them logged in, and the floor was not reached; it takes one rung, together with an
      advance by the new cadence. */
  lemma DegradesExactly(row: Row, env: Env, now: Instant)
    ensures AfterBatch(row, env, now).periodicity != row.periodicity
       <==> && Healthy(row, env, now)
            && env.recipients.value != []
            && env.signal(env.recipients.value, LoginWindowSince(row.periodicity, now)) == Answered(false)
            && row.periodicity != Quarterly
    ensures AfterBatch(row, env, now).periodicity != row.periodicity ==>
              && Rung(AfterBatch(row, env, now).periodicity) == Rung(row.periodicity) + 1
              && AfterBatch(row, env, now).nextRun
                 == Some(NextRun(AfterBatch(row, env, now).periodicity, DayOf(now)))
  {
    LadderStep(row.periodicity);
  }

  /** What a batch makes of a row, case by case. It never touches the activation. It leaves the row when the
      recipients cannot be read or a statement fails or an advance matches no row; puts it off to tomorrow
      when some send did not succeed; and otherwise advances it, by the cadence it has or, when nobody logged
      in and the floor is not reached, by the next slower one. */
  lemma BatchOutcome(row: Row, env: Env, now: Instant)
    ensures var users, p, today, after := UsersOf(env), row.periodicity, DayOf(now), AfterBatch(row, env, now);
            var someFailed := exists i :: 0 <= i < |users| && !env.send(users[i]).Sent?;
            var nobody := users != [] && env.signal(users, LoginWindowSince(p, now)) == Answered(false);
            var advances := env.recipients.Some? && !someFailed && env.advanceWrite.Some? && env.advanceWrite.value > 0;
            && after.activated == row.activated
            && (env.recipients.None? ==> after == row)
            && (someFailed ==> after == if env.retryWrite then Row(p, Some(today + 1), row.activated) else row)
            && (!someFailed && !advances ==> after == row)
            && (advances && (!nobody || p == Quarterly) ==> after == Row(p, Some(NextRun(p, today)), row.activated))
            && (advances && nobody && p != Quarterly && !env.rungWrite ==> after == row)
            && (advances && nobody && p != Quarterly && env.rungWrite ==>
                  && Rung(after.periodicity) == Rung(p) + 1
                  && after == Row(after.periodicity, Some(NextRun(after.periodicity, today)), row.activated))
  {
    hide NextRun, LoginWindowSince;
    LadderStep(row.periodicity);
  }

  // ---- failed days leave no trace ---------------------------------------------------------

  /** A sweep of one digest at one moment: its batch when it is due, nothing otherwise. */
  function AfterDay(row: Row, day: (Env, Instant)): Row {
    if Due(row, DayOf(day.1)) then AfterBatch(row, day.0, day.1) else row
  }

  function AfterDays(row: Row, days: seq<(Env, Instant)>): Row
    decreases days
  {
    if days == [] then row else AfterDays(AfterDay(row, days[0]), days[1..])
  }

  /** No day of the run brings a healthy batch. */
  predicate AllFail(row: Row, days: seq<(Env, Instant)>)
    decreases days
  {
    days != [] ==> !Healthy(row, days[0].0, days[0].1) && AllFail(AfterDay(row, days[0]), days[1..])
  }

  predicate DaysIncrease(days: seq<(Env, Instant)>) {
    forall i, j :: 0 <= i < j < |days| ==> DayOf(days[i].1) < DayOf(days[j].1)
  }

  lemma FailedDay(row: Row, day: (Env, Instant))
    requires Due(row, DayOf(day.1)) && !Healthy(row, day.0, day.1)
    ensures AfterDay(row, day) == row || AfterDay(row, day) == row.(nextRun := Some(DayOf(day.1) + 1))
  {
  }

  /** Since when a row has been due makes no difference to its batch. */
  lemma LaterDueRow(row: Row, due: Day, env: Env, now: Instant)
    requires Due(row, DayOf(now)) && due <= DayOf(now) && Healthy(row, env, now)
    ensures var row1 := row.(nextRun := Some(due));
            && Due(row1, DayOf(now)) && Healthy(row1, env, now)
            && AfterDay(row1, (env, now)) == AfterDay(row, (env, now))
  {
    hide NextRun;
  }

  lemma OneRungAtMost(row: Row, day: (Env, Instant))
    ensures Rung(AfterDay(row, day).periodicity) <= Rung(row.periodicity) + 1
  {
    hide NextRun;
    LadderStep(row.periodicity);
  }

  lemma LaterDays(days: seq<(Env, Instant)>, last: (Env, Instant))
    requires days != [] && DaysIncrease(days + [last])
    ensures DaysIncrease(days[1..] + [last])
    ensures DayOf(days[0].1) < DayOf((days[1..] + [last])[0].1) && DayOf(days[0].1) < DayOf(last.1)
  {
    var all, later := days + [last], days[1..] + [last];
    assert all[0] == days[0] && all[|days|] == last;
    assert forall i :: 0 <= i < |later| ==> later[i] == all[i + 1];
  }

  /** After any run of failed or rolled-back days, the first healthy day leaves exactly the row it
      would have made of the original row: the cadence was not touched, the digest is still due,
      and at most one rung is taken. */
  lemma {:induction false} FailedDaysLeaveNoTrace(row: Row, days: seq<(Env, Instant)>, env: Env, now: Instant)
    requires DaysIncrease(days + [(env, now)])
    requires Due(row, DayOf((days + [(env, now)])[0].1))
    requires AllFail(row, days)
    requires Healthy(row, env, now)
    ensures Due(AfterDays(row, days), DayOf(now))
    ensures AfterDays(row, days).periodicity == row.periodicity
    ensures AfterDay(AfterDays(row, days), (env, now)) == AfterDay(row, (env, now))
    ensures Rung(AfterDay(row, (env, now)).periodicity) <= Rung(row.periodicity) + 1
    decreases days
  {
    hide AfterDay, Healthy, DaysIncrease;
    OneRungAtMost(row, (env, now));
    if days != [] {
      var row1 := AfterDay(row, days[0]);
      LaterDays(days, (env, now));
      assert (days + [(env, now)])[0] == days[0];
      FailedDay(row, days[0]);
      LaterDueRow(row, DayOf(days[0].1) + 1, env, now);
      FailedDaysLeaveNoTrace(row1, days[1..], env, now);
    }
  }

  // ---- engagement keeps the cadence -------------------------------------------------------

  datatype Login = Login(user: Uuid, at: Instant)

  /** The port answers from the logins up to the moment it is asked, or not at all. */
  ghost predicate Faithful(env: Env, logins: set<Login>, asked: Instant) {
    forall users: seq<Uuid>, since: Instant ::
      env.signal(users, since) == Unavailable
      || env.signal(users, since)
         == Answered(exists l :: l in logins && l.user in users && since <= l.at <= asked)
  }

  /** Some recipient of the batch logged in between the two moments. */
  ghost predicate EngagedBetween(env: Env, logins: set<Login>, previous: Instant, asked: Instant) {
    env.recipients.Some? && env.recipients.value != [] ==>
      exists l :: l in logins && l.user in env.recipients.value && previous <= l.at <= asked
  }

  /** A batch at `now` of a digest with a recipient's login since `previous`: the port is asked at `now` or
      any time after. */
  ghost predicate Engaged(env: Env, logins: set<Login>, previous: Instant, now: Instant) {
    exists asked: Instant ::
      now <= asked && Faithful(env, logins, asked) && EngagedBetween(env, logins, previous, asked)
  }

  /** When a batch may come after the previous one: that day or the next, as a retry does, or on the day
      one cadence later, where a weekly batch comes no later in the day. */
  predicate OnTime(p: Periodicity, previous: Instant, now: Instant) {
    && previous <= now
    && (DayOf(now) <= DayOf(previous) + 1
        || (DayOf(now) == NextRun(p, DayOf(previous)) && (p == Weekly ==> TimeOfDay(now) <= TimeOfDay(previous))))
  }

  lemma OnTimeReaches(p: Periodicity, previous: Instant, now: Instant)
    requires OnTime(p, previous, now)
    ensures LoginWindowSince(p, now) <= previous
  {
    var a, b := TimeOfDay(previous), TimeOfDay(now);
    if DayOf(now) <= DayOf(previous) + 1 {
      WindowReachesRetry(p, previous, now);
    } else {
      WindowReachesPreviousSend(p, previous, now);
    }
  }

  /** A run of batches of one digest, each in time after the one before, with a recipient's login between
      the two. */
  ghost predicate EngagedRun(row: Row, previous: Instant, run: seq<(Env, Instant)>, logins: set<Login>)
    decreases run
  {
    run != [] ==>
      && OnTime(row.periodicity, previous, run[0].1)
      && Engaged(run[0].0, logins, previous, run[0].1)
      && EngagedRun(AfterBatch(row, run[0].0, run[0].1), run[0].1, run[1..], logins)
  }

  ghost function AfterRun(row: Row, run: seq<(Env, Instant)>): Row
    decreases run
  {
    if run == [] then row else AfterRun(AfterBatch(row, run[0].0, run[0].1), run[1..])
  }

  /** Engagement keeps the cadence: no batch of such a run degrades the digest, whatever became of
      the sends and of the transactions, because the login window reaches back past the previous
      batch at every cadence. */
  lemma {:induction false} EngagementKeepsCadence(
    row: Row, previous: Instant, run: seq<(Env, Instant)>, logins: set<Login>)
    requires EngagedRun(row, previous, run, logins)
    ensures forall k :: 0 <= k <= |run| ==> AfterRun(row, run[..k]).periodicity == row.periodicity
    decreases run
  {
    if run != [] {
      var env, now := run[0].0, run[0].1;
      var row1 := AfterBatch(row, env, now);
      OnTimeReaches(row.periodicity, previous, now);
      SeenLoginKeepsCadence(row, previous, env, now, logins);
      EngagementKeepsCadence(row1, now, run[1..], logins);
      forall k | 0 <= k <= |run|
        ensures AfterRun(row, run[..k]).periodicity == row.periodicity
      {
        if k > 0 {
          assert run[..k][0] == run[0] && run[..k][1..] == run[1..][..k - 1];
        }
      }
    }
  }

  lemma SeenLoginKeepsCadence(row: Row, previous: Instant, env: Env, now: Instant, logins: set<Login>)
    requires LoginWindowSince(row.periodicity, now) <= previous
    requires Engaged(env, logins, previous, now)
    ensures AfterBatch(row, env, now).periodicity == row.periodicity
  {
    var since := LoginWindowSince(row.periodicity, now);
    var asked: Instant :|
      now <= asked && Faithful(env, logins, asked) && EngagedBetween(env, logins, previous, asked);
    if env.recipients.Some? && env.recipients.value != [] {
      var l :| l in logins && l.user in env.recipients.value && previous <= l.at <= asked;
      assert since <= l.at;
      assert env.signal(env.recipients.value, since) != Answered(false);
    }
  }

  /** A digest with one recipient, who logged in once, at `at`; everything else goes well. */
  function OneReader(user: Uuid, at: Instant, now: Instant): Env {
    Env(Some([user]),
        (users: seq<Uuid>, since) => Answered(user in users && since <= at <= now),
        _ => Sent, true, true, Some(1))
  }

  lemma OneReaderIsEngaged(user: Uuid, at: Instant, env: Env, previous: Instant, now: Instant)
    requires previous <= at <= now && env.signal == OneReader(user, at, now).signal && env.recipients == Some([user])
    ensures Engaged(env, {Login(user, at)}, previous, now)
  {
    var logins, l := {Login(user, at)}, Login(user, at);
    forall users: seq<Uuid>, since: Instant
      ensures env.signal(users, since)
           == Answered(exists l :: l in logins && l.user in users && since <= l.at <= now)
    {
      if user in users && since <= at <= now {
        assert l in logins && l.user in users && since <= l.at <= now;
      } else {
        assert forall x :: x in logins ==> x == l;
      }
    }
    assert l in logins && l.user in env.recipients.value && previous <= l.at <= now;
    assert Faithful(env, logins, now) && EngagedBetween(env, logins, previous, now);
  }

  /** A batch whose window does not reach back to a login degrades a digest above the floor. */
  lemma UnseenLoginDegrades(row: Row, at: Instant, now: Instant, user: Uuid)
    requires row.periodicity != Quarterly && at < LoginWindowSince(row.periodicity, now)
    ensures Some(AfterBatch(row, OneReader(user, at, now), now).periodicity) == NextRung(row.periodicity)
  {
    assert Healthy(row, OneReader(user, at, now), now);
  }

  /** Whatever the recipients, the logins, the sends and the database, a batch at `now` keeps the cadence
      of a digest with a recipient's login since `previous`. */
  ghost predicate EngagementHolds(row: Row, previous: Instant, now: Instant) {
    forall env: Env, logins: set<Login> ::
      Engaged(env, logins, previous, now) ==>
        AfterBatch(row, env, now).periodicity == row.periodicity
  }

  /** The exact condition: engagement since the previous batch keeps the cadence if and only if the digest
      is at the floor or the window reaches back to that batch. On the due day, that is: unless the digest
      is weekly and its batch later in the day, by however little. */
  lemma EngagementExactly(row: Row, previous: Instant, now: Instant)
    requires previous <= now
    ensures EngagementHolds(row, previous, now)
       <==> row.periodicity == Quarterly || LoginWindowSince(row.periodicity, now) <= previous
    ensures DayOf(now) == NextRun(row.periodicity, DayOf(previous)) ==>
              (EngagementHolds(row, previous, now)
               <==> row.periodicity != Weekly || TimeOfDay(now) <= TimeOfDay(previous))
  {
    var p := row.periodicity;
    if p == Quarterly {
      FloorHolds(row, previous, now);
    } else if LoginWindowSince(p, now) <= previous {
      forall env: Env, logins: set<Login> | Engaged(env, logins, previous, now)
        ensures AfterBatch(row, env, now).periodicity == p
      {
        SeenLoginKeepsCadence(row, previous, env, now, logins);
      }
    } else {
      var env := OneReader(NIL_UUID, previous, now);
      OneReaderIsEngaged(NIL_UUID, previous, env, previous, now);
      UnseenLoginDegrades(row, previous, now, NIL_UUID);
      LadderStep(p);
    }
    if DayOf(now) == NextRun(p, DayOf(previous)) {
      WindowReachesPreviousSend(p, previous, now);
    }
  }

  lemma FloorHolds(row: Row, previous: Instant, now: Instant)
    requires row.periodicity == Quarterly
    ensures EngagementHolds(row, previous, now)
  {
  }

  /** So a due weekly batch any amount later in the day than the last one can degrade a digest whose
      recipient logged in right after the last mail. */
  lemma LaterWeeklySweepDegrades(row: Row, previous: Instant, now: Instant, user: Uuid)
    requires row.periodicity == Weekly && DayOf(now) == NextRun(Weekly, DayOf(previous))
    requires TimeOfDay(previous) < TimeOfDay(now)
    ensures var env := OneReader(user, previous, now);
            && Engaged(env, {Login(user, previous)}, previous, now)
            && AfterBatch(row, env, now).periodicity == Monthly
  {
    WindowReachesPreviousSend(Weekly, previous, now);
    var a, b := TimeOfDay(previous), TimeOfDay(now);
    GapBounds(Weekly, DayOf(previous));
    OneReaderIsEngaged(user, previous, OneReader(user, previous, now), previous, now);
    UnseenLoginDegrades(row, previous, now, user);
  }

  // ---- a retry against the last advance ---------------------------------------------------

  /** A batch after the due day looks back from that later day, so it can miss a login since the last
      advance. It never does at quarterly; at daily up to 48 hours after that advance; at weekly always; and
      at monthly unless the advance was on the last day of its month and the batch falls in the next. */
  lemma RetryExactly(row: Row, advanced: Instant, now: Instant)
    requires NextRun(row.periodicity, DayOf(advanced)) < DayOf(now)
    ensures EngagementHolds(row, advanced, now) <==>
              match row.periodicity
              case Daily => now <= advanced + 2 * DAY_SECONDS
              case Weekly => false
              case Monthly => LastDayThenNextMonth(DayOf(advanced), DayOf(now))
              case Quarterly => true
  {
    GapBounds(row.periodicity, DayOf(advanced));
    var a, b := TimeOfDay(advanced), TimeOfDay(now);
    EngagementExactly(row, advanced, now);
    if row.periodicity == Monthly {
      MonthBackReaches(DayOf(advanced), DayOf(now));
    }
  }

  /** A weekly digest whose due batch is refused by the mail seam is degraded by the next day's retry,
      though its recipient logged in within a day of the last advance. */
  lemma RetriedWeeklyDegrades(row: Row, advanced: Instant, at: Instant, user: Uuid)
    requires row.periodicity == Weekly && advanced <= at < advanced + DAY_SECONDS
    ensures var due, retry := advanced + 7 * DAY_SECONDS, advanced + 8 * DAY_SECONDS;
            var refused := OneReader(user, at, due).(send := _ => SendResult.Refused);
            var again := OneReader(user, at, retry);
            && DayOf(due) == NextRun(Weekly, DayOf(advanced))
            && AfterBatch(row, refused, due) == row.(nextRun := Some(DayOf(retry)))
            && Engaged(refused, {Login(user, at)}, advanced, due)
            && Engaged(again, {Login(user, at)}, advanced, retry)
            && AfterRun(row, [(refused, due), (again, retry)]).periodicity == Monthly
  {
    hide NextRun, DayOf, AfterBatch, Engaged, LoginWindowSince;
    var due, retry := advanced + 7 * DAY_SECONDS, advanced + 8 * DAY_SECONDS;
    var refused := OneReader(user, at, due).(send := _ => SendResult.Refused);
    var again := OneReader(user, at, retry);
    RetryDays(advanced);
    OneReaderIsEngaged(user, at, refused, advanced, due);
    OneReaderIsEngaged(user, at, again, advanced, retry);
    RefusedBatch(row, refused, due, user);
    var row1 := AfterBatch(row, refused, due);
    UnseenLoginDegrades(row1, at, retry, user);
    TwoBatches(row, (refused, due), (again, retry));
  }

  lemma RetryDays(advanced: Instant)
    ensures DayOf(advanced + 7 * DAY_SECONDS) == NextRun(Weekly, DayOf(advanced))
    ensures DayOf(advanced + 8 * DAY_SECONDS) == DayOf(advanced + 7 * DAY_SECONDS) + 1
    ensures LoginWindowSince(Weekly, advanced + 8 * DAY_SECONDS) == advanced + DAY_SECONDS
  {
    GapBounds(Weekly, DayOf(advanced));
  }

  lemma TwoBatches(row: Row, first: (Env, Instant), second: (Env, Instant))
    ensures AfterRun(row, [first, second]) == AfterBatch(AfterBatch(row, first.0, first.1), second.0, second.1)
  {
    hide AfterBatch;
    assert [first, second][1..] == [second] && [second][1..] == [];
    var row1 := AfterBatch(row, first.0, first.1);
    assert AfterRun(row1, [second]) == AfterRun(AfterBatch(row1, second.0, second.1), []);
  }

  lemma RefusedBatch(row: Row, env: Env, now: Instant, user: Uuid)
    requires env.recipients == Some([user]) && env.send(user).Refused? && env.retryWrite
    ensures AfterBatch(row, env, now) == row.(nextRun := Some(DayOf(now) + 1))
  {
    assert env.recipients.value[0] == user;
  }
}
