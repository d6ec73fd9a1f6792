/** Several sweeps at once over one digest table, interleaved with the operator's verbs: a state
    machine over atomic steps. A claim takes the row lock and holds it to the batch's commit or
    rollback. A verb's UPDATE, and the foreign-key check of an insert that names the digest, wait for
    that lock and hold one of their own to the end of their transaction; a claim does not wait but
    skips the row. Send results, the login signal and crashes are arbitrary.

    The machine claims any due free row, where the engine claims the earliest: what holds of every
    run here holds of the engine's. */
module Protocol {
  import opened Common
  import opened Calendar
  import opened Cadence
  import opened Batch
  import opened Sweep

  type Pid = nat

  /** A claimed digest under way: the row as claimed, the recipients, the login signal, how many
      recipients were tried and whether all of those were sent. */
  datatype InFlight = InFlight(id: Uuid, row: Row, users: seq<Uuid>, signal: Signal, tried: nat, allSent: bool)

  datatype Sweeper = Sweeper(day: Day, processed: set<Uuid>, batch: Option<InFlight>)

  datatype CommitRecord = CommitRecord(
    id: Uuid, day: Day, before: Row, after: Row, users: seq<Uuid>, allSent: bool)

  /** The table, its row locks and the sweeps, with the history of the run beside them: `locks` are the
      sweeps' own, `held` are the rows some other transaction has locked. `horizon` is at least the day of
      every sweep so far. */
  datatype State = State(
    rows: map<Uuid, Row>,
    locks: map<Uuid, Pid>,
    held: set<Uuid>,
    sweeps: map<Pid, Sweeper>,
    horizon: Day,
    commits: seq<CommitRecord>,
    rollbacks: multiset<(Uuid, Day)>,
    mails: multiset<Mail>)

  /** `Hold` and `LetGo` are a verb's transaction taking a row's lock and the last of them ending; what it
      changes there is a step of its own in between. */
  datatype Action =
    | StartSweep(pid: Pid, day: Day)
    | Claim(pid: Pid, id: Uuid, users: seq<Uuid>, signal: Signal)
    | SendNext(pid: Pid, result: SendResult)
    | Commit(pid: Pid)
    | Rollback(pid: Pid)
    | Create(id: Uuid, p: Periodicity, today: Day)
    | SetPeriodicity(id: Uuid, p: Periodicity, today: Day)
    | SetState(id: Uuid, activated: bool)
    | SendNow(id: Uuid)
    | Hold(id: Uuid)
    | LetGo(id: Uuid)

  function Empty(horizon: Day): State {
    State(map[], map[], {}, map[], horizon, [], multiset{}, multiset{})
  }

  predicate Distinct(users: seq<Uuid>) {
    forall i, j :: 0 <= i < j < |users| ==> users[i] != users[j]
  }

  predicate Busy(s: State, pid: Pid) {
    pid in s.sweeps && s.sweeps[pid].batch.Some?
  }

  /** The rows the claim query of an idle sweep can return: due, not yet processed, locked by nobody. */
  predicate Claimable(s: State, pid: Pid, id: Uuid)
    requires pid in s.sweeps
  {
    && id in s.rows && Due(s.rows[id], s.sweeps[pid].day) && id !in s.sweeps[pid].processed
    && id !in s.locks && id !in s.held
  }

  /** When a step can be taken. */
  predicate Enabled(s: State, a: Action) {
    match a
    case StartSweep(pid, day) => pid !in s.sweeps
    case Claim(pid, id, users, signal) =>
      && pid in s.sweeps && s.sweeps[pid].batch.None? && Claimable(s, pid, id)
      && Distinct(users)
      && (users == [] ==> signal == Answered(true))
    case SendNext(pid, result) => Busy(s, pid) && s.sweeps[pid].batch.value.tried < |s.sweeps[pid].batch.value.users|
    case Commit(pid) => Busy(s, pid) && s.sweeps[pid].batch.value.tried == |s.sweeps[pid].batch.value.users|
    case Rollback(pid) => Busy(s, pid)
    case Create(id, p, today) => id !in s.rows
    case SetPeriodicity(id, p, today) => id in s.rows && id !in s.locks
    case SetState(id, activated) => id in s.rows && id !in s.locks
    case SendNow(id) => true
    case Hold(id) => id in s.rows && id !in s.locks
    case LetGo(id) => true
  }

  /** Release the sweep's claim. */
  function Released(s: State, pid: Pid): State
    requires Busy(s, pid)
  {
    var sw := s.sweeps[pid];
    s.(locks := s.locks - {sw.batch.value.id}, sweeps := s.sweeps[pid := sw.(batch := None)])
  }

  function Apply(s: State, a: Action): State
    requires Enabled(s, a)
  {
    match a
    case StartSweep(pid, day) =>
      s.(sweeps := s.sweeps[pid := Sweeper(day, {}, None)], horizon := if s.horizon < day then day else s.horizon)
    case Claim(pid, id, users, signal) =>
      var sw := s.sweeps[pid];
      s.(locks := s.locks[id := pid],
         sweeps := s.sweeps[pid := Sweeper(sw.day, sw.processed + {id},
                                           Some(InFlight(id, s.rows[id], users, signal, 0, true)))])
    case SendNext(pid, result) =>
      var sw := s.sweeps[pid];
      var b := sw.batch.value;
      var b1 := b.(tried := b.tried + 1, allSent := b.allSent && result.Sent?);
      var mail := Mail(b.id, b.users[b.tried], sw.day);
      s.(sweeps := s.sweeps[pid := sw.(batch := Some(b1))],
         mails := if Enqueues(result) then s.mails + multiset{mail} else s.mails)
    case Commit(pid) =>
      var sw := s.sweeps[pid];
      var b := sw.batch.value;
      var after := CommittedRow(b.row, b.signal, b.allSent, sw.day);
      Released(s, pid).(
        rows := s.rows[b.id := after],
        commits := s.commits + [CommitRecord(b.id, sw.day, b.row, after, b.users, b.allSent)])
    case Rollback(pid) =>
      var sw := s.sweeps[pid];
      Released(s, pid).(rollbacks := s.rollbacks + multiset{(sw.batch.value.id, sw.day)})
    case Create(id, p, today) =>
      s.(rows := s.rows[id := Row(p, Some(NextRun(p, today)), true)])
    case SetPeriodicity(id, p, today) =>
      s.(rows := s.rows[id := Row(p, Some(NextRun(p, today)), s.rows[id].activated)])
    case SetState(id, activated) =>
      s.(rows := s.rows[id := s.rows[id].(activated := activated)])
    case SendNow(id) => s
    case Hold(id) => s.(held := s.held + {id})
    case LetGo(id) => s.(held := s.held - {id})
  }

  /** A cadence change that sets the digest's next due day past every day a batch of it committed. */
  predicate Safe(s: State, a: Action) {
    a.SetPeriodicity? ==>
      forall i :: 0 <= i < |s.commits| && s.commits[i].id == a.id ==> s.commits[i].day < NextRun(a.p, a.today)
  }

  /** A run: every step enabled, every cadence change safe. */
  predicate Legal(s: State, run: seq<Action>)
    decreases run
  {
    run != [] ==> Enabled(s, run[0]) && Safe(s, run[0]) && Legal(Apply(s, run[0]), run[1..])
  }

  /** A verb that sets the schedule works with a day no earlier than the sweeps': what a caller can
      see to without knowing the digest's batches. */
  predicate Fresh(s: State, a: Action) {
    (a.Create? || a.SetPeriodicity?) ==> s.horizon <= a.today
  }

  predicate FreshRun(s: State, run: seq<Action>)
    decreases run
  {
    run != [] ==> Enabled(s, run[0]) && Fresh(s, run[0]) && FreshRun(Apply(s, run[0]), run[1..])
  }

  function Run(s: State, run: seq<Action>): State
    requires Legal(s, run)
    decreases run
  {
    if run == [] then s else Run(Apply(s, run[0]), run[1..])
  }

  // ---- the invariant ----------------------------------------------------------------------

  predicate CommittedOn(s: State, id: Uuid, day: Day) {
    exists i :: 0 <= i < |s.commits| && s.commits[i].id == id && s.commits[i].day == day
  }

  /** Whether the digest's batch under way belongs to `day` and has tried `user`. */
  predicate TriedNow(s: State, id: Uuid, user: Uuid, day: Day) {
    && id in s.locks && Busy(s, s.locks[id])
    && var sw := s.sweeps[s.locks[id]];
       sw.day == day && sw.batch.value.tried <= |sw.batch.value.users|
       && user in sw.batch.value.users[..sw.batch.value.tried]
  }

  /** The lock of `id` is held for a batch of `id`, and by nobody else. */
  ghost predicate LockHolds(s: State, id: Uuid)
    requires id in s.locks
  {
    id !in s.held && Busy(s, s.locks[id]) && s.sweeps[s.locks[id]].batch.value.id == id
  }

  /** The batch of `pid` holds its row's lock, and nobody has changed the row since the claim. */
  ghost predicate BatchHolds(s: State, pid: Pid)
    requires Busy(s, pid)
  {
    var sw := s.sweeps[pid];
    var b := sw.batch.value;
    && b.id in s.locks && s.locks[b.id] == pid
    && b.id in s.rows && s.rows[b.id] == b.row && Due(b.row, sw.day)
    && b.tried <= |b.users| && Distinct(b.users)
    && (b.users == [] ==> b.signal == Answered(true))
  }

  ghost predicate LocksHold(s: State) {
    && (forall id :: id in s.locks ==> LockHolds(s, id))
    && (forall pid :: Busy(s, pid) ==> BatchHolds(s, pid))
  }

  /** A digest is due only after every day one of its batches committed on. */
  ghost predicate PastCommit(s: State, c: CommitRecord) {
    c.id in s.rows && c.day <= s.horizon && s.rows[c.id].nextRun.Some? && c.day < s.rows[c.id].nextRun.value
  }

  ghost predicate PastCommits(s: State) {
    forall i :: 0 <= i < |s.commits| ==> PastCommit(s, s.commits[i])
  }

  ghost predicate CommitDaysIncrease(s: State) {
    forall i, j :: 0 <= i < j < |s.commits| && s.commits[i].id == s.commits[j].id ==>
      s.commits[i].day < s.commits[j].day
  }

  /** The sweeps' mails to one user for one digest and day are accounted for by rolled-back
      batches, and at most one by the committed batch of the day or the batch under way. */
  ghost predicate Accounted(s: State, id: Uuid, user: Uuid, day: Day) {
    s.mails[Mail(id, user, day)]
    <= s.rollbacks[(id, day)] + if CommittedOn(s, id, day) || TriedNow(s, id, user, day) then 1 else 0
  }

  ghost predicate MailsAccounted(s: State) {
    forall id: Uuid, user: Uuid, day: Day :: Accounted(s, id, user, day)
  }

  ghost predicate SweepDays(s: State) {
    forall pid :: pid in s.sweeps ==> s.sweeps[pid].day <= s.horizon
  }

  /** Each of these users has been mailed for the digest and day. */
  ghost predicate AllMailed(s: State, id: Uuid, users: seq<Uuid>, day: Day) {
    forall i :: 0 <= i < |users| ==> s.mails[Mail(id, users[i], day)] >= 1
  }

  /** A batch that believes it sent to everyone so far, or that committed so, did. */
  ghost predicate MailsDelivered(s: State) {
    && (forall i :: 0 <= i < |s.commits| && s.commits[i].allSent ==>
          AllMailed(s, s.commits[i].id, s.commits[i].users, s.commits[i].day))
    && (forall pid :: Busy(s, pid) && BatchHolds(s, pid) && s.sweeps[pid].batch.value.allSent ==>
          var b := s.sweeps[pid].batch.value;
          AllMailed(s, b.id, b.users[..b.tried], s.sweeps[pid].day))
  }

  /** What became of a digest a sweep has processed: its batch is under way, or a batch of it
      committed or rolled back on the sweep's day. */
  ghost predicate Settled(s: State, pid: Pid, id: Uuid)
    requires pid in s.sweeps
  {
    || (Busy(s, pid) && s.sweeps[pid].batch.value.id == id)
    || CommittedOn(s, id, s.sweeps[pid].day)
    || s.rollbacks[(id, s.sweeps[pid].day)] > 0
  }

  ghost predicate ProcessedSettled(s: State) {
    forall pid, id :: pid in s.sweeps && id in s.sweeps[pid].processed ==> Settled(s, pid, id)
  }

  ghost predicate Inv(s: State) {
    && LocksHold(s) && PastCommits(s) && CommitDaysIncrease(s)
    && MailsAccounted(s) && SweepDays(s) && MailsDelivered(s) && ProcessedSettled(s)
  }

  lemma EmptyInv(horizon: Day)
    ensures Inv(Empty(horizon))
  {
  }

  lemma StepLocks(s: State, a: Action)
    requires LocksHold(s) && Enabled(s, a)
    ensures LocksHold(Apply(s, a))
  {
    var t := Apply(s, a);
    forall id | id in t.locks
      ensures LockHolds(t, id)
    {
      assert id in s.locks ==> LockHolds(s, id);
    }
    forall pid | Busy(t, pid)
      ensures BatchHolds(t, pid)
    {
      StepBatch(s, a, pid);
    }
  }

  lemma StepBatch(s: State, a: Action, pid: Pid)
    requires LocksHold(s) && Enabled(s, a) && Busy(Apply(s, a), pid)
    ensures BatchHolds(Apply(s, a), pid)
  {
    if Busy(s, pid) {
      assert BatchHolds(s, pid);
    }
    match a
    case Commit(p) => assert BatchHolds(s, p);
    case Rollback(p) => assert BatchHolds(s, p);
    case _ =>
  }

  lemma StepCommits(s: State, a: Action)
    requires LocksHold(s) && PastCommits(s) && CommitDaysIncrease(s) && SweepDays(s) && Enabled(s, a) && Safe(s, a)
    ensures PastCommits(Apply(s, a)) && CommitDaysIncrease(Apply(s, a)) && SweepDays(Apply(s, a))
  {
    hide CommittedRow, NextRun;
    var t := Apply(s, a);
    if a.Commit? {
      CommitIsPast(s, a.pid);
    } else {
      assert t.commits == s.commits;
      forall i | 0 <= i < |t.commits|
        ensures PastCommit(t, t.commits[i])
      {
        RowStaysPast(s, a, s.commits[i]);
      }
    }
  }

  lemma RowStaysPast(s: State, a: Action, c: CommitRecord)
    requires PastCommit(s, c) && c in s.commits && Enabled(s, a) && Safe(s, a) && !a.Commit?
    ensures PastCommit(Apply(s, a), c)
  {
    var i :| 0 <= i < |s.commits| && s.commits[i] == c;
  }

  lemma CommitIsPast(s: State, pid: Pid)
    requires LocksHold(s) && PastCommits(s) && CommitDaysIncrease(s) && SweepDays(s) && Enabled(s, Commit(pid))
    ensures PastCommits(Apply(s, Commit(pid))) && CommitDaysIncrease(Apply(s, Commit(pid)))
  {
    var t := Apply(s, Commit(pid));
    var b := s.sweeps[pid].batch.value;
    assert BatchHolds(s, pid);
    CommitMovesPastToday(b.row, b.signal, b.allSent, s.sweeps[pid].day);
    forall i | 0 <= i < |t.commits|
      ensures PastCommit(t, t.commits[i])
      ensures i < |s.commits| && s.commits[i].id == b.id ==> s.commits[i].day < s.sweeps[pid].day
    {
      if i < |s.commits| {
        assert PastCommit(s, s.commits[i]);
      }
    }
  }

  lemma StepMails(s: State, a: Action)
    requires LocksHold(s) && PastCommits(s) && MailsAccounted(s) && Enabled(s, a)
    ensures MailsAccounted(Apply(s, a))
  {
    forall id: Uuid, user: Uuid, day: Day
      ensures Accounted(Apply(s, a), id, user, day)
    {
      assert Accounted(s, id, user, day);
      StepMail(s, a, id, user, day);
    }
  }

  lemma StepMail(s: State, a: Action, id: Uuid, user: Uuid, day: Day)
    requires LocksHold(s) && PastCommits(s) && Accounted(s, id, user, day) && Enabled(s, a)
    ensures Accounted(Apply(s, a), id, user, day)
  {
    hide CommittedRow, NextRun;
    match a
    case SendNext(pid, result) => SendAccounted(s, pid, result, id, user, day);
    case Commit(pid) => CommitAccounted(s, pid, id, user, day);
    case Rollback(pid) =>
      assert BatchHolds(s, pid);
      assert Apply(s, a).commits == s.commits;
      assert id in s.locks ==> LockHolds(s, id);
    case _ =>
      assert Apply(s, a).commits == s.commits;
      assert id in s.locks ==> LockHolds(s, id);
  }

  lemma SendAccounted(s: State, pid: Pid, result: SendResult, id: Uuid, user: Uuid, day: Day)
    requires LocksHold(s) && PastCommits(s) && Accounted(s, id, user, day) && Enabled(s, SendNext(pid, result))
    ensures Accounted(Apply(s, SendNext(pid, result)), id, user, day)
  {
    var t := Apply(s, SendNext(pid, result));
    assert t.commits == s.commits;
    assert BatchHolds(s, pid);
    assert id in s.locks ==> LockHolds(s, id);
    var b := s.sweeps[pid].batch.value;
    assert b.users[..b.tried + 1] == b.users[..b.tried] + [b.users[b.tried]];
    if id == b.id && user == b.users[b.tried] && day == s.sweeps[pid].day {
      assert !CommittedOn(s, id, day);
      assert TriedNow(t, id, user, day);
    }
  }

  lemma CommitAccounted(s: State, pid: Pid, id: Uuid, user: Uuid, day: Day)
    requires LocksHold(s) && Accounted(s, id, user, day) && Enabled(s, Commit(pid))
    ensures Accounted(Apply(s, Commit(pid)), id, user, day)
  {
    var t := Apply(s, Commit(pid));
    var b := s.sweeps[pid].batch.value;
    assert BatchHolds(s, pid);
    assert id in s.locks ==> LockHolds(s, id);
    assert t.commits[|s.commits|].id == b.id && t.commits[|s.commits|].day == s.sweeps[pid].day;
    if CommittedOn(s, id, day) {
      var i :| 0 <= i < |s.commits| && s.commits[i].id == id && s.commits[i].day == day;
      assert t.commits[i] == s.commits[i];
    }
  }

  /** Mails are never taken back. */
  lemma MailedStays(s: State, a: Action, id: Uuid, users: seq<Uuid>, day: Day)
    requires Enabled(s, a) && AllMailed(s, id, users, day)
    ensures AllMailed(Apply(s, a), id, users, day)
  {
    assert forall m: Mail :: s.mails[m] <= Apply(s, a).mails[m];
  }

  lemma StepDelivered(s: State, a: Action)
    requires LocksHold(s) && MailsDelivered(s) && Enabled(s, a)
    ensures MailsDelivered(Apply(s, a))
  {
    var t := Apply(s, a);
    forall i | 0 <= i < |t.commits| && t.commits[i].allSent
      ensures AllMailed(t, t.commits[i].id, t.commits[i].users, t.commits[i].day)
    {
      if i < |s.commits| {
        assert t.commits[i] == s.commits[i];
        MailedStays(s, a, t.commits[i].id, t.commits[i].users, t.commits[i].day);
      } else {
        assert BatchHolds(s, a.pid);
        var b := s.sweeps[a.pid].batch.value;
        assert b.users[..b.tried] == b.users;
      }
    }
    forall pid | Busy(t, pid) && BatchHolds(t, pid) && t.sweeps[pid].batch.value.allSent
      ensures var b := t.sweeps[pid].batch.value;
              AllMailed(t, b.id, b.users[..b.tried], t.sweeps[pid].day)
    {
      BatchDelivered(s, a, pid);
    }
  }

  lemma BatchDelivered(s: State, a: Action, pid: Pid)
    requires LocksHold(s) && MailsDelivered(s) && Enabled(s, a)
    requires Busy(Apply(s, a), pid) && BatchHolds(Apply(s, a), pid) && Apply(s, a).sweeps[pid].batch.value.allSent
    ensures var b := Apply(s, a).sweeps[pid].batch.value;
            AllMailed(Apply(s, a), b.id, b.users[..b.tried], Apply(s, a).sweeps[pid].day)
  {
    if Busy(s, pid) {
      assert BatchHolds(s, pid);
      var b := s.sweeps[pid].batch.value;
      var day := s.sweeps[pid].day;
      MailedStays(s, a, b.id, b.users[..b.tried], day);
      if a.SendNext? && a.pid == pid {
        assert b.users[..b.tried + 1] == b.users[..b.tried] + [b.users[b.tried]];
      }
    }
  }

  lemma StepSettled(s: State, a: Action)
    requires LocksHold(s) && ProcessedSettled(s) && Enabled(s, a)
    ensures ProcessedSettled(Apply(s, a))
  {
    hide CommittedRow, NextRun;
    var t := Apply(s, a);
    forall pid, id | pid in t.sweeps && id in t.sweeps[pid].processed
      ensures Settled(t, pid, id)
    {
      if pid in s.sweeps {
        CommittedStays(s, a, id, s.sweeps[pid].day);
        assert id in s.sweeps[pid].processed ==> Settled(s, pid, id);
      }
      if a.Commit? {
        var c := t.commits[|s.commits|];
        assert CommittedOn(t, c.id, c.day);
      }
    }
  }

  lemma CommittedStays(s: State, a: Action, id: Uuid, day: Day)
    requires Enabled(s, a)
    ensures CommittedOn(s, id, day) ==> CommittedOn(Apply(s, a), id, day)
  {
    if CommittedOn(s, id, day) {
      var i :| 0 <= i < |s.commits| && s.commits[i].id == id && s.commits[i].day == day;
      assert Apply(s, a).commits[i] == s.commits[i];
    }
  }

  lemma StepInv(s: State, a: Action)
    requires Inv(s) && Enabled(s, a) && Safe(s, a)
    ensures Inv(Apply(s, a))
  {
    StepDelivered(s, a);
    StepSettled(s, a);
    StepLocks(s, a);
    StepCommits(s, a);
    StepMails(s, a);
  }

  lemma {:induction false} RunInv(s: State, run: seq<Action>)
    requires Inv(s) && Legal(s, run)
    ensures Inv(Run(s, run))
    decreases run
  {
    if run != [] {
      StepInv(s, run[0]);
      RunInv(Apply(s, run[0]), run[1..]);
    }
  }

  /** Fresh verbs are safe. */
  lemma FreshIsSafe(s: State, a: Action)
    requires PastCommits(s) && Fresh(s, a)
    ensures Safe(s, a)
  {
    if a.SetPeriodicity? {
      GapBounds(a.p, a.today);
      forall i | 0 <= i < |s.commits| && s.commits[i].id == a.id
        ensures s.commits[i].day < NextRun(a.p, a.today)
      {
        assert PastCommit(s, s.commits[i]);
      }
    }
  }

  lemma {:induction false} FreshRunIsLegal(s: State, run: seq<Action>)
    requires Inv(s) && FreshRun(s, run)
    ensures Legal(s, run)
    decreases run
  {
    if run != [] {
      FreshIsSafe(s, run[0]);
      StepInv(s, run[0]);
      FreshRunIsLegal(Apply(s, run[0]), run[1..]);
    }
  }

  // ---- what holds of every run ------------------------------------------------------------

  /** However many sweeps interleave with each other and with safe verbs, a digest has at most one
      committed batch a day, on ever later days, and the sweeps' mails to one user for one digest
      and day number at most one more than that digest's batches rolled back that day. */
  lemma OneBatchADay(horizon: Day, run: seq<Action>)
    requires Legal(Empty(horizon), run)
    ensures var s := Run(Empty(horizon), run);
            && (forall i, j :: 0 <= i < j < |s.commits| && s.commits[i].id == s.commits[j].id ==>
                  s.commits[i].day < s.commits[j].day)
            && (forall id: Uuid, user: Uuid, day: Day ::
                  s.mails[Mail(id, user, day)] <= 1 + s.rollbacks[(id, day)])
  {
    EmptyInv(horizon);
    RunInv(Empty(horizon), run);
    var s := Run(Empty(horizon), run);
    forall id: Uuid, user: Uuid, day: Day
      ensures s.mails[Mail(id, user, day)] <= 1 + s.rollbacks[(id, day)]
    {
      assert Accounted(s, id, user, day);
    }
  }

  /** An advance commits only after every recipient was mailed; so on a day without a rollback of the
      digest each recipient of an advanced digest got exactly one sweep mail. */
  lemma AdvancedIsMailedExactlyOnce(horizon: Day, run: seq<Action>, i: nat, user: Uuid)
    requires Legal(Empty(horizon), run) && i < |Run(Empty(horizon), run).commits|
    ensures var s := Run(Empty(horizon), run);
            var c := s.commits[i];
            c.allSent && user in c.users ==>
              && s.mails[Mail(c.id, user, c.day)] >= 1
              && (s.rollbacks[(c.id, c.day)] == 0 ==> s.mails[Mail(c.id, user, c.day)] == 1)
  {
    EmptyInv(horizon);
    RunInv(Empty(horizon), run);
    var s := Run(Empty(horizon), run);
    var c := s.commits[i];
    assert Accounted(s, c.id, user, c.day);
    if c.allSent && user in c.users {
      assert AllMailed(s, c.id, c.users, c.day);
      var j :| 0 <= j < |c.users| && c.users[j] == user;
    }
  }

  /** Why an idle sweep cannot claim a digest that is due on its day: exactly because the digest is in a
      batch of another sweep at this moment, or another transaction holds its row, or the sweep had a batch
      of it already, which then rolled back. */
  lemma NoDigestIsMissed(horizon: Day, run: seq<Action>, pid: Pid, id: Uuid)
    requires Legal(Empty(horizon), run)
    requires var s := Run(Empty(horizon), run);
             && pid in s.sweeps && s.sweeps[pid].batch.None?
             && id in s.rows && Due(s.rows[id], s.sweeps[pid].day)
    ensures var s := Run(Empty(horizon), run);
            && (!Claimable(s, pid, id)
                <==> || (exists other :: other != pid && Busy(s, other) && s.sweeps[other].batch.value.id == id)
                     || id in s.held
                     || id in s.sweeps[pid].processed)
            && (id in s.sweeps[pid].processed ==> s.rollbacks[(id, s.sweeps[pid].day)] > 0)
  {
    EmptyInv(horizon);
    RunInv(Empty(horizon), run);
    var s := Run(Empty(horizon), run);
    CommittedIsNotDue(s, id, s.sweeps[pid].day);
    assert id in s.sweeps[pid].processed ==> Settled(s, pid, id);
    if id in s.locks {
      assert LockHolds(s, id);
      assert s.locks[id] != pid;
    }
    forall other | other != pid && Busy(s, other) && s.sweeps[other].batch.value.id == id
      ensures id in s.locks
    {
      assert BatchHolds(s, other);
    }
  }

  /** A sweep starts while a transaction of another verb holds the one digest that is due. */
  function HeldRun(id: Uuid, day: Day): seq<Action> {
    [Create(id, Daily, day - 1), StartSweep(1, day), Hold(id)]
  }

  /** So a digest can be missed: the sweep ends without a claim, though the digest is due, nothing was
      rolled back and no other sweep exists. */
  lemma HeldDigestIsMissed(id: Uuid, day: Day)
    ensures Legal(Empty(day), HeldRun(id, day))
    ensures var s := Run(Empty(day), HeldRun(id, day));
            && s.sweeps.Keys == {1} && s.sweeps[1] == Sweeper(day, {}, None)
            && id in s.rows && Due(s.rows[id], day)
            && (forall other :: !Claimable(s, 1, other))
            && s.rollbacks == multiset{} && s.commits == [] && s.mails == multiset{}
  {
    hide NextRun;
    GapBounds(Daily, day - 1);
    var run := HeldRun(id, day);
    var s1 := Apply(Empty(day), run[0]);
    var s2 := Apply(s1, run[1]);
    OneStep(s2, run[2]);
    assert run[1..][1..] == [run[2]] && run[1..][0] == run[1];
    assert Legal(s1, run[1..]) && Run(s1, run[1..]) == Run(s2, [run[2]]);
  }

  lemma OneStep(s: State, a: Action)
    requires Enabled(s, a) && Safe(s, a)
    ensures Legal(s, [a]) && Run(s, [a]) == Apply(s, a)
  {
    assert [a][1..] == [];
  }

  lemma CommittedIsNotDue(s: State, id: Uuid, day: Day)
    requires PastCommits(s) && id in s.rows
    ensures CommittedOn(s, id, day) ==> !Due(s.rows[id], day)
  {
    forall i | 0 <= i < |s.commits| && s.commits[i].id == id && s.commits[i].day == day
      ensures !Due(s.rows[id], day)
    {
      assert PastCommit(s, s.commits[i]);
    }
  }

  // ---- the spine --------------------------------------------------------------------------

  /** What sets a digest's schedule: a verb, or a batch that commits. */
  datatype ScheduleEvent = VerbSet(id: Uuid, p: Periodicity, today: Day) | BatchCommitted(record: CommitRecord)

  /** The event a step is, if it is one. */
  function EventOf(s: State, a: Action): seq<ScheduleEvent>
    requires Enabled(s, a)
  {
    match a
    case Create(id, p, today) => [VerbSet(id, p, today)]
    case SetPeriodicity(id, p, today) => [VerbSet(id, p, today)]
    case Commit(pid) => [BatchCommitted(Apply(s, a).commits[|s.commits|])]
    case _ => []
  }

  /** The events of a run, in order. */
  function Events(s: State, run: seq<Action>): seq<ScheduleEvent>
    requires Legal(s, run)
    decreases run
  {
    if run == [] then [] else EventOf(s, run[0]) + Events(Apply(s, run[0]), run[1..])
  }

  predicate Sets(e: ScheduleEvent, id: Uuid) {
    match e
    case VerbSet(x, _, _) => x == id
    case BatchCommitted(c) => c.id == id
  }

  /** The latest event of a digest. */
  function LastEvent(events: seq<ScheduleEvent>, id: Uuid): Option<ScheduleEvent> {
    if events == [] then None
    else if Sets(events[|events| - 1], id) then Some(events[|events| - 1])
    else LastEvent(events[..|events| - 1], id)
  }

  function LastCommit(commits: seq<CommitRecord>, id: Uuid): Option<CommitRecord> {
    if commits == [] then None
    else if commits[|commits| - 1].id == id then Some(commits[|commits| - 1])
    else LastCommit(commits[..|commits| - 1], id)
  }

  /** The row's cadence and due day are those its latest event left: of a verb, one cadence after the
      verb's day; of a batch, the digest's latest commit, one cadence after its day when every send
      succeeded, and otherwise the day after, with the cadence it found. */
  ghost predicate ScheduledBy(s: State, id: Uuid, e: Option<ScheduleEvent>)
    requires id in s.rows
  {
    match e
    case None => false
    case Some(VerbSet(_, p, today)) => s.rows[id].periodicity == p && s.rows[id].nextRun == Some(NextRun(p, today))
    case Some(BatchCommitted(c)) =>
      && LastCommit(s.commits, id) == Some(c)
      && s.rows[id].periodicity == c.after.periodicity
      && (c.allSent ==> s.rows[id].nextRun == Some(NextRun(c.after.periodicity, c.day)))
      && (!c.allSent ==> s.rows[id].nextRun == Some(c.day + 1) && c.after.periodicity == c.before.periodicity)
  }

  ghost predicate AllScheduled(s: State, events: seq<ScheduleEvent>) {
    forall id :: id in s.rows ==> ScheduledBy(s, id, LastEvent(events, id))
  }

  lemma OneMoreEvent(events: seq<ScheduleEvent>, e: ScheduleEvent, id: Uuid)
    ensures LastEvent(events + [e], id) == if Sets(e, id) then Some(e) else LastEvent(events, id)
  {
    assert (events + [e])[..|events|] == events;
  }

  lemma OneMoreCommit(commits: seq<CommitRecord>, c: CommitRecord, id: Uuid)
    ensures LastCommit(commits + [c], id) == if c.id == id then Some(c) else LastCommit(commits, id)
  {
    assert (commits + [c])[..|commits|] == commits;
  }

  lemma StepScheduled(s: State, a: Action, events: seq<ScheduleEvent>)
    requires LocksHold(s) && AllScheduled(s, events) && Enabled(s, a)
    ensures AllScheduled(Apply(s, a), events + EventOf(s, a))
  {
    hide ScheduledBy, EventOf;
    forall id | id in Apply(s, a).rows
      ensures ScheduledBy(Apply(s, a), id, LastEvent(events + EventOf(s, a), id))
    {
      assert id in s.rows ==> ScheduledBy(s, id, LastEvent(events, id));
      match a
      case Commit(pid) =>
        assert BatchHolds(s, pid);
        CommitScheduled(s, pid, events, id);
      case _ => OtherScheduled(s, a, events, id);
    }
  }

  lemma OtherScheduled(s: State, a: Action, events: seq<ScheduleEvent>, id: Uuid)
    requires Enabled(s, a) && !a.Commit? && id in Apply(s, a).rows
    requires id in s.rows ==> ScheduledBy(s, id, LastEvent(events, id))
    ensures ScheduledBy(Apply(s, a), id, LastEvent(events + EventOf(s, a), id))
  {
    hide NextRun, LastEvent, LastCommit;
    if EventOf(s, a) == [] {
      assert events + [] == events;
    } else {
      OneMoreEvent(events, EventOf(s, a)[0], id);
    }
  }

  lemma CommitScheduled(s: State, pid: Pid, events: seq<ScheduleEvent>, id: Uuid)
    requires Enabled(s, Commit(pid)) && BatchHolds(s, pid) && id in s.rows
    requires ScheduledBy(s, id, LastEvent(events, id))
    ensures ScheduledBy(Apply(s, Commit(pid)), id, LastEvent(events + EventOf(s, Commit(pid)), id))
  {
    hide NextRun, LastEvent, LastCommit;
    var t := Apply(s, Commit(pid));
    var e := EventOf(s, Commit(pid))[0];
    OneMoreEvent(events, e, id);
    OneMoreCommit(s.commits, e.record, id);
  }

  lemma {:induction false} RunScheduled(s: State, run: seq<Action>, events: seq<ScheduleEvent>)
    requires Inv(s) && Legal(s, run) && AllScheduled(s, events)
    ensures AllScheduled(Run(s, run), events + Events(s, run))
    decreases run
  {
    hide AllScheduled, EventOf;
    if run == [] {
      assert events + [] == events;
    } else {
      var t := Apply(s, run[0]);
      var now, rest := EventOf(s, run[0]), Events(t, run[1..]);
      StepInv(s, run[0]);
      StepScheduled(s, run[0], events);
      RunScheduled(t, run[1..], events + now);
      assert events + (now + rest) == events + now + rest;
    }
  }

  /** The spine of every reachable row: the latest verb or committed batch of the digest in the run says
      what its cadence is and why it is due when it is, the day after a failed batch included; and the
      row is due past every day a batch of it committed on. */
  lemma Spine(horizon: Day, run: seq<Action>, id: Uuid)
    requires Legal(Empty(horizon), run) && id in Run(Empty(horizon), run).rows
    ensures var s := Run(Empty(horizon), run);
            && ScheduledBy(s, id, LastEvent(Events(Empty(horizon), run), id))
            && (forall day :: CommittedOn(s, id, day) ==> day < s.rows[id].nextRun.value)
  {
    EmptyInv(horizon);
    RunInv(Empty(horizon), run);
    RunScheduled(Empty(horizon), run, []);
    var s := Run(Empty(horizon), run);
    var events := Events(Empty(horizon), run);
    assert [] + events == events;
    assert ScheduledBy(s, id, LastEvent(events, id));
    forall day | CommittedOn(s, id, day)
      ensures day < s.rows[id].nextRun.value
    {
      var i :| 0 <= i < |s.commits| && s.commits[i].id == id && s.commits[i].day == day;
      assert PastCommit(s, s.commits[i]);
    }
  }

  /** The argument of a run's latest `set_state` of a digest, or true from its creation. */
  function LastSwitch(run: seq<Action>, id: Uuid): Option<bool> {
    if run == [] then None
    else
      match run[|run| - 1]
      case SetState(x, activated) => if x == id then Some(activated) else LastSwitch(run[..|run| - 1], id)
      case Create(x, _, _) => if x == id then Some(true) else LastSwitch(run[..|run| - 1], id)
      case _ => LastSwitch(run[..|run| - 1], id)
  }

  ghost predicate Switched(s: State, past: seq<Action>) {
    forall id :: id in s.rows ==> LastSwitch(past, id) == Some(s.rows[id].activated)
  }

  lemma StepSwitched(s: State, a: Action, past: seq<Action>)
    requires LocksHold(s) && Switched(s, past) && Enabled(s, a)
    ensures Switched(Apply(s, a), past + [a])
  {
    hide NextRun;
    assert (past + [a])[..|past|] == past;
    if a.Commit? {
      assert BatchHolds(s, a.pid);
    }
  }

  lemma {:induction false} RunSwitched(s: State, run: seq<Action>, past: seq<Action>)
    requires Inv(s) && Legal(s, run) && Switched(s, past)
    ensures Switched(Run(s, run), past + run)
    decreases run
  {
    if run == [] {
      assert past + run == past;
    } else {
      hide Switched;
      StepInv(s, run[0]);
      StepSwitched(s, run[0], past);
      RunSwitched(Apply(s, run[0]), run[1..], past + [run[0]]);
      assert past + [run[0]] + run[1..] == past + run;
    }
  }

  /** Only the switch switches: after any run a digest is activated as its latest `set_state` said, and from
      its creation on when there was none. No batch, advanced, degraded or failed, ever changes that. */
  lemma OnlyTheSwitchSwitches(horizon: Day, run: seq<Action>, id: Uuid)
    requires Legal(Empty(horizon), run) && id in Run(Empty(horizon), run).rows
    ensures LastSwitch(run, id) == Some(Run(Empty(horizon), run).rows[id].activated)
  {
    EmptyInv(horizon);
    RunSwitched(Empty(horizon), run, []);
    assert [] + run == run;
  }

  // ---- a verb with a stale day ------------------------------------------------------------

  /** The digest is let go and switched on, and a sweep of `day` that finds it due advances it without a
      recipient. */
  function SecondBatch(pid: Pid, id: Uuid, day: Day): seq<Action> {
    [LetGo(id), SetState(id, true), StartSweep(pid, day), Claim(pid, id, [], Answered(true)), Commit(pid)]
  }

  /** Safety is exactly what is needed: after any cadence change, a new sweep can commit another batch
      on the day of an earlier one of the same digest if and only if the change was not safe. */
  lemma SafeIsNeeded(s: State, id: Uuid, p: Periodicity, today: Day, pid: Pid)
    requires Inv(s) && pid !in s.sweeps
    requires Enabled(s, SetPeriodicity(id, p, today))
    ensures var t := Apply(s, SetPeriodicity(id, p, today));
            !Safe(s, SetPeriodicity(id, p, today))
            <==> exists day :: CommittedOn(s, id, day) && Legal(t, SecondBatch(pid, id, day))
    ensures today >= s.horizon ==> Safe(s, SetPeriodicity(id, p, today))
  {
    var verb := SetPeriodicity(id, p, today);
    var t := Apply(s, verb);
    if today >= s.horizon {
      FreshIsSafe(s, verb);
    }
    forall day
      ensures Legal(t, SecondBatch(pid, id, day)) <==> NextRun(p, today) <= day
    {
      SecondBatchWhenDue(t, pid, id, day);
    }
    if !Safe(s, verb) {
      var i :| 0 <= i < |s.commits| && s.commits[i].id == id && !(s.commits[i].day < NextRun(p, today));
      assert CommittedOn(s, id, s.commits[i].day);
    }
  }

  lemma SecondBatchWhenDue(t: State, pid: Pid, id: Uuid, day: Day)
    requires pid !in t.sweeps && id in t.rows && id !in t.locks && t.rows[id].nextRun.Some?
    ensures Legal(t, SecondBatch(pid, id, day)) <==> t.rows[id].nextRun.value <= day
  {
    hide NextRun, CommittedRow;
    var steps := SecondBatch(pid, id, day);
    var t1 := Apply(t, steps[0]);
    var t2 := Apply(t1, steps[1]);
    var t3 := Apply(t2, steps[2]);
    var claimed := [steps[3], steps[4]];
    assert steps[1..][1..][1..] == claimed && claimed[1..] == [steps[4]] && [steps[4]][1..] == [];
    assert Legal(t, steps) <==> Legal(t1, steps[1..]);
    assert Legal(t1, steps[1..]) <==> Legal(t2, steps[1..][1..]);
    assert Legal(t2, steps[1..][1..]) <==> Legal(t3, claimed);
    if t.rows[id].nextRun.value <= day {
      var t4 := Apply(t3, steps[3]);
      assert Legal(t4, [steps[4]]);
    }
  }

  /** One batch of one recipient, all of whose steps succeed. */
  function QuickBatch(s: State, pid: Pid, id: Uuid, user: Uuid): State
    requires Enabled(s, Claim(pid, id, [user], Answered(true)))
  {
    var s1 := Apply(s, Claim(pid, id, [user], Answered(true)));
    var s2 := Apply(s1, SendNext(pid, Sent));
    Apply(s2, Commit(pid))
  }

  /** Two sweeps of `day`, between them a cadence change whose day is the day before. */
  function StaleVerbRun(id: Uuid, user: Uuid, day: Day): State {
    var s1 := Apply(Empty(day), Create(id, Daily, day - 1));
    var s2 := Apply(Apply(s1, StartSweep(1, day)), StartSweep(2, day));
    var s3 := QuickBatch(s2, 1, id, user);
    var s4 := Apply(s3, SetPeriodicity(id, Daily, day - 1));
    QuickBatch(s4, 2, id, user)
  }

  lemma QuickBatchDoes(s: State, pid: Pid, id: Uuid, user: Uuid)
    requires Enabled(s, Claim(pid, id, [user], Answered(true)))
    ensures var t := QuickBatch(s, pid, id, user);
            && t.mails == s.mails + multiset{Mail(id, user, s.sweeps[pid].day)}
            && t.rollbacks == s.rollbacks && t.locks == s.locks && t.held == s.held
            && id in t.rows && t.rows[id].activated
            && (forall other :: other in s.sweeps && other != pid ==>
                  other in t.sweeps && t.sweeps[other] == s.sweeps[other])
  {
    hide NextRun;
  }

  lemma StaleVerbMailsTwice(id: Uuid, user: Uuid, day: Day)
    ensures StaleVerbRun(id, user, day).mails[Mail(id, user, day)] == 2
    ensures StaleVerbRun(id, user, day).rollbacks == multiset{}
  {
    hide QuickBatch, NextRun;
    GapBounds(Daily, day - 1);
    var s1 := Apply(Empty(day), Create(id, Daily, day - 1));
    var s2 := Apply(Apply(s1, StartSweep(1, day)), StartSweep(2, day));
    var s3 := QuickBatch(s2, 1, id, user);
    QuickBatchDoes(s2, 1, id, user);
    var s4 := Apply(s3, SetPeriodicity(id, Daily, day - 1));
    QuickBatchDoes(s4, 2, id, user);
  }

  // ---- termination ------------------------------------------------------------------------

  /** The rows a sweep may still have to claim. */
  function DueLeft(s: State, pid: Pid): set<Uuid>
    requires pid in s.sweeps
  {
    set id | id in s.rows && id !in s.sweeps[pid].processed
             && s.rows[id].nextRun.Some? && s.rows[id].nextRun.value <= s.sweeps[pid].day
  }

  predicate ClaimsFor(a: Action, pid: Pid) {
    a.Claim? && a.pid == pid
  }

  /** Every claim of a sweep leaves it one row less, and no step of another sweep, fresh verb or
      rollback gives it one back. */
  lemma StepDueLeft(s: State, a: Action, pid: Pid)
    requires LocksHold(s) && SweepDays(s) && Enabled(s, a) && Fresh(s, a) && pid in s.sweeps
    ensures DueLeft(Apply(s, a), pid) <= DueLeft(s, pid)
    ensures ClaimsFor(a, pid) ==> DueLeft(Apply(s, a), pid) == DueLeft(s, pid) - {a.id} && a.id in DueLeft(s, pid)
  {
    match a
    case Commit(p) =>
      assert BatchHolds(s, p);
      var b := s.sweeps[p].batch.value;
      CommitMovesPastToday(b.row, b.signal, b.allSent, s.sweeps[p].day);
    case Create(id, p, today) => GapBounds(p, today);
    case SetPeriodicity(id, p, today) => GapBounds(p, today);
    case _ =>
  }

  function Claims(run: seq<Action>, pid: Pid): nat {
    if run == [] then 0 else (if ClaimsFor(run[0], pid) then 1 else 0) + Claims(run[1..], pid)
  }

  lemma Fewer(a: set<Uuid>, b: set<Uuid>)
    requires a <= b
    ensures |a| <= |b|
  {
    assert b == a + (b - a);
  }

  /** A sweep claims no more often, whatever sweeps and fresh verbs run beside it, than it had due rows
      to begin with. */
  lemma {:induction false} SweepTerminates(s: State, run: seq<Action>, pid: Pid)
    requires Inv(s) && Legal(s, run) && FreshRun(s, run) && pid in s.sweeps
    ensures pid in Run(s, run).sweeps
    ensures Claims(run, pid) + |DueLeft(Run(s, run), pid)| <= |DueLeft(s, pid)|
    decreases run
  {
    if run != [] {
      var t := Apply(s, run[0]);
      StepInv(s, run[0]);
      StepDueLeft(s, run[0], pid);
      Fewer(DueLeft(t, pid), DueLeft(s, pid));
      SweepTerminates(t, run[1..], pid);
    }
  }

  // ---- the ladder over a run --------------------------------------------------------------

  predicate Degrades(c: CommitRecord, id: Uuid) {
    c.id == id && c.after.periodicity != c.before.periodicity
  }

  function Degradations(commits: seq<CommitRecord>, id: Uuid): nat {
    if commits == [] then 0
    else Degradations(commits[..|commits| - 1], id) + if Degrades(commits[|commits| - 1], id) then 1 else 0
  }

  /** A step other than `set_periodicity` changes a digest's cadence only by committing a batch that
      had recipients, was told that none logged in, and sent to all of them; then by one rung, with
      an advance by the new cadence. */
  lemma StepLadder(s: State, a: Action, id: Uuid)
    requires LocksHold(s) && Enabled(s, a) && id in s.rows
    requires !(a.SetPeriodicity? && a.id == id)
    ensures var before, after := s.rows[id], Apply(s, a).rows[id];
            after.periodicity != before.periodicity ==>
              && a.Commit?
              && var b := s.sweeps[a.pid].batch.value;
                 && b.id == id && b.users != [] && b.signal == Answered(false) && b.allSent
                 && Rung(after.periodicity) == Rung(before.periodicity) + 1
                 && after.nextRun == Some(NextRun(after.periodicity, s.sweeps[a.pid].day))
    ensures Degradations(Apply(s, a).commits, id) - Degradations(s.commits, id)
         == Rung(Apply(s, a).rows[id].periodicity) - Rung(s.rows[id].periodicity)
  {
    if a.Commit? {
      assert BatchHolds(s, a.pid);
      var b := s.sweeps[a.pid].batch.value;
      LadderStep(b.row.periodicity);
      assert Apply(s, a).commits[..|s.commits|] == s.commits;
    }
  }

  predicate NoCadenceChange(run: seq<Action>, id: Uuid) {
    forall i :: 0 <= i < |run| ==> !(run[i].SetPeriodicity? && run[i].id == id)
  }

  /** Over any run without `set_periodicity` the committed degradations of a digest are exactly the
      rungs between its first and its last cadence, so never more than three, and never back up. */
  lemma {:induction false} LadderConservation(s: State, run: seq<Action>, id: Uuid)
    requires Inv(s) && Legal(s, run) && id in s.rows && NoCadenceChange(run, id)
    ensures id in Run(s, run).rows
    ensures Degradations(Run(s, run).commits, id) - Degradations(s.commits, id)
         == Rung(Run(s, run).rows[id].periodicity) - Rung(s.rows[id].periodicity)
    ensures 0 <= Degradations(Run(s, run).commits, id) - Degradations(s.commits, id) <= 3
    decreases run
  {
    if run != [] {
      StepInv(s, run[0]);
      StepLadder(s, run[0], id);
      LadderConservation(Apply(s, run[0]), run[1..], id);
    }
  }

  // ---- the machine and the engine ---------------------------------------------------------

  /** The steps the engine's batch of `id` takes in the machine after its claim, from the `i`th
      recipient on. */
  function BatchSteps(pid: Pid, env: Env, commits: bool, i: nat): seq<Action>
    requires i <= |UsersOf(env)|
    decreases |UsersOf(env)| - i
  {
    if i == |UsersOf(env)| then [if commits then Commit(pid) else Rollback(pid)]
    else [SendNext(pid, env.send(UsersOf(env)[i]))] + BatchSteps(pid, env, commits, i + 1)
  }

  /** One batch run through the machine leaves the row, the mails and the other sweeps exactly as
      the engine's batch does. */
  lemma BatchRefines(s: State, pid: Pid, id: Uuid, env: Env, now: Instant)
    requires pid in s.sweeps && s.sweeps[pid].day == DayOf(now)
    requires Distinct(UsersOf(env))
    requires id in s.rows
    requires var users := UsersOf(env);
             Enabled(s, Claim(pid, id, users, ReadSignal(s.rows[id].periodicity, env, users, now)))
    ensures var users := UsersOf(env);
            var claim := Claim(pid, id, users, ReadSignal(s.rows[id].periodicity, env, users, now));
            var t := Apply(s, claim);
            var steps := BatchSteps(pid, env, Commits(s.rows[id], env, now), 0);
            && Legal(t, steps)
            && Run(t, steps).rows == s.rows[id := AfterBatch(s.rows[id], env, now)]
            && Run(t, steps).mails == s.mails + multiset(MailsTo(id, BatchMailed(env), DayOf(now)))
            && Run(t, steps).locks == s.locks
  {
    var users := UsersOf(env);
    var claim := Claim(pid, id, users, ReadSignal(s.rows[id].periodicity, env, users, now));
    var t := Apply(s, claim);
    assert users[..0] == [];
    BatchTail(s, t, pid, id, env, now, 0);
  }

  /** The engine's batch of `id`, claimed in `s`, after its first `i` sends. */
  ghost predicate Underway(s: State, t: State, pid: Pid, id: Uuid, env: Env, now: Instant, i: nat)
    requires i <= |UsersOf(env)| && id in s.rows
  {
    var users := UsersOf(env);
    && Busy(t, pid) && t.sweeps[pid].day == DayOf(now)
    && t.rows == s.rows && t.locks == s.locks[id := pid]
    && t.sweeps[pid].batch.value
       == InFlight(id, s.rows[id], users, ReadSignal(s.rows[id].periodicity, env, users, now), i,
                   AllSent(users[..i], env.send))
    && t.mails == s.mails + multiset(MailsTo(id, Mailed(users[..i], env.send), DayOf(now)))
  }

  lemma OneMoreUser(id: Uuid, users: seq<Uuid>, send: Uuid -> SendResult, day: Day, i: nat)
    requires i < |users|
    ensures multiset(MailsTo(id, Mailed(users[..i + 1], send), day))
         == multiset(MailsTo(id, Mailed(users[..i], send), day))
            + if Enqueues(send(users[i])) then multiset{Mail(id, users[i], day)} else multiset{}
    ensures AllSent(users[..i + 1], send) == (AllSent(users[..i], send) && send(users[i]).Sent?)
  {
    var before, after := users[..i], users[..i + 1];
    assert after[..|after| - 1] == before && after[i] == users[i];
    assert forall k :: 0 <= k < i ==> after[k] == before[k];
    var mailed := Mailed(before, send);
    assert MailsTo(id, mailed + [users[i]], day) == MailsTo(id, mailed, day) + [Mail(id, users[i], day)];
    assert mailed + [] == mailed;
  }

  lemma SendUnderway(s: State, t: State, pid: Pid, id: Uuid, env: Env, now: Instant, i: nat)
    requires i < |UsersOf(env)| && id in s.rows
    requires Underway(s, t, pid, id, env, now, i)
    ensures var a := SendNext(pid, env.send(UsersOf(env)[i]));
            Enabled(t, a) && Underway(s, Apply(t, a), pid, id, env, now, i + 1)
  {
    hide CommittedRow, ReadSignal, AllSent, Mailed, MailsTo, Distinct;
    OneMoreUser(id, UsersOf(env), env.send, DayOf(now), i);
  }

  lemma LastUnderway(s: State, t: State, pid: Pid, id: Uuid, env: Env, now: Instant)
    requires id in s.rows && id !in s.locks
    requires Underway(s, t, pid, id, env, now, |UsersOf(env)|)
    ensures var a := if Commits(s.rows[id], env, now) then Commit(pid) else Rollback(pid);
            && Enabled(t, a)
            && Apply(t, a).rows == s.rows[id := AfterBatch(s.rows[id], env, now)]
            && Apply(t, a).mails == s.mails + multiset(MailsTo(id, BatchMailed(env), DayOf(now)))
            && Apply(t, a).locks == s.locks
  {
    var users := UsersOf(env);
    assert users[..|users|] == users;
    assert s.locks[id := pid] - {id} == s.locks;
    assert s.rows[id := s.rows[id]] == s.rows;
  }

  lemma {:induction false} BatchTail(s: State, t: State, pid: Pid, id: Uuid, env: Env, now: Instant, i: nat)
    requires i <= |UsersOf(env)| && id in s.rows && id !in s.locks
    requires Underway(s, t, pid, id, env, now, i)
    ensures var steps := BatchSteps(pid, env, Commits(s.rows[id], env, now), i);
            && Legal(t, steps)
            && Run(t, steps).rows == s.rows[id := AfterBatch(s.rows[id], env, now)]
            && Run(t, steps).mails == s.mails + multiset(MailsTo(id, BatchMailed(env), DayOf(now)))
            && Run(t, steps).locks == s.locks
    decreases |UsersOf(env)| - i
  {
    var commits := Commits(s.rows[id], env, now);
    var steps := BatchSteps(pid, env, commits, i);
    if i == |UsersOf(env)| {
      LastUnderway(s, t, pid, id, env, now);
      assert steps[1..] == [];
    } else {
      SendUnderway(s, t, pid, id, env, now, i);
      assert steps[1..] == BatchSteps(pid, env, commits, i + 1);
      BatchTail(s, Apply(t, steps[0]), pid, id, env, now, i + 1);
    }
  }
}
