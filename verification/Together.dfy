/** Any number of sweeps of one moment, interleaved step by step, against the one sweep of the engine:
    when the digests' batches meet the same things in both, they leave the same table. */
module Together {
  import opened Common
  import opened Calendar
  import opened Cadence
  import opened Batch
  import opened Sweep
  import opened Protocol

  /** A step of a sweep at `now` whose batches meet `envs`, or one that changes no row: a manual send, or
      another transaction taking or leaving a row's lock. */
  ghost predicate Meets(s: State, a: Action, envs: Uuid -> Env, now: Instant)
    requires Enabled(s, a)
  {
    match a
    case StartSweep(pid, day) => day == DayOf(now)
    case Claim(pid, id, users, signal) =>
      && s.sweeps[pid].day == DayOf(now)
      && users == UsersOf(envs(id)) && signal == ReadSignal(s.rows[id].periodicity, envs(id), users, now)
    case SendNext(pid, result) =>
      var b := s.sweeps[pid].batch.value;
      result == envs(b.id).send(b.users[b.tried])
    case Commit(pid) =>
      var b := s.sweeps[pid].batch.value;
      Commits(b.row, envs(b.id), now)
    case Rollback(pid) =>
      var b := s.sweeps[pid].batch.value;
      !Commits(b.row, envs(b.id), now)
    case SendNow(id) => true
    case Hold(id) => true
    case LetGo(id) => true
    case _ => false
  }

  ghost predicate SweepsRun(s: State, run: seq<Action>, envs: Uuid -> Env, now: Instant)
    requires Legal(s, run)
    decreases run
  {
    run != [] ==> Meets(s, run[0], envs, now) && SweepsRun(Apply(s, run[0]), run[1..], envs, now)
  }

  // ---- the invariant ----------------------------------------------------------------------

  ghost predicate Advances(s0: State, id: Uuid, envs: Uuid -> Env, now: Instant) {
    id in s0.rows && Due(s0.rows[id], DayOf(now)) && Commits(s0.rows[id], envs(id), now)
  }

  /** The row is as it was, or as its batch leaves it. */
  ghost predicate RowMeets(s0: State, s: State, id: Uuid, envs: Uuid -> Env, now: Instant)
    requires id in s0.rows && id in s.rows
  {
    s.rows[id] == s0.rows[id]
    || (Advances(s0, id, envs, now) && s.rows[id] == AfterBatch(s0.rows[id], envs(id), now))
  }

  ghost predicate RowsMeet(s0: State, s: State, envs: Uuid -> Env, now: Instant) {
    s.rows.Keys == s0.rows.Keys && forall id :: id in s0.rows ==> RowMeets(s0, s, id, envs, now)
  }

  /** The batch under way found the row as it was and met what `envs` says. */
  ghost predicate BatchMeets(s0: State, s: State, pid: Pid, envs: Uuid -> Env, now: Instant)
    requires Busy(s, pid)
  {
    var b := s.sweeps[pid].batch.value;
    var users := UsersOf(envs(b.id));
    && s.sweeps[pid].day == DayOf(now) && b.id in s0.rows && b.row == s0.rows[b.id]
    && b.users == users && b.signal == ReadSignal(b.row.periodicity, envs(b.id), users, now)
    && b.tried <= |users| && b.allSent == AllSent(users[..b.tried], envs(b.id).send)
  }

  ghost predicate BatchesMeet(s0: State, s: State, envs: Uuid -> Env, now: Instant) {
    forall pid :: Busy(s, pid) ==> BatchMeets(s0, s, pid, envs, now)
  }

  /** What a sweep of the run has processed is in its batch or as its batch leaves it. */
  ghost predicate ProcessedMeets(s0: State, s: State, pid: Pid, id: Uuid, envs: Uuid -> Env, now: Instant)
    requires pid in s.sweeps
  {
    && id in s0.rows && id in s.rows
    && (|| (Busy(s, pid) && s.sweeps[pid].batch.value.id == id)
        || s.rows[id] == AfterBatch(s0.rows[id], envs(id), now))
  }

  ghost predicate AllProcessedMeet(s0: State, s: State, envs: Uuid -> Env, now: Instant) {
    forall pid, id :: pid in s.sweeps && pid !in s0.sweeps && id in s.sweeps[pid].processed ==>
      ProcessedMeets(s0, s, pid, id, envs, now)
  }

  /** The users mailed so far by the one batch of `id` that commits. */
  ghost function MailedSoFar(s0: State, s: State, id: Uuid, env: Env): seq<Uuid>
    requires id in s0.rows && id in s.rows
  {
    if s.rows[id] != s0.rows[id] then Mailed(UsersOf(env), env.send)
    else if id in s.locks && Busy(s, s.locks[id]) && s.sweeps[s.locks[id]].batch.value.tried <= |UsersOf(env)| then
      Mailed(UsersOf(env)[..s.sweeps[s.locks[id]].batch.value.tried], env.send)
    else []
  }

  ghost predicate MailMeets(s0: State, s: State, id: Uuid, user: Uuid, envs: Uuid -> Env, now: Instant) {
    Advances(s0, id, envs, now) && id in s.rows ==>
      var mail := Mail(id, user, DayOf(now));
      s.mails[mail] == s0.mails[mail] + multiset(MailedSoFar(s0, s, id, envs(id)))[user]
  }

  ghost predicate MailsMeet(s0: State, s: State, envs: Uuid -> Env, now: Instant) {
    forall id: Uuid, user: Uuid :: MailMeets(s0, s, id, user, envs, now)
  }

  ghost predicate SoFar(s0: State, s: State, envs: Uuid -> Env, now: Instant) {
    && Inv(s) && RowsMeet(s0, s, envs, now) && BatchesMeet(s0, s, envs, now)
    && AllProcessedMeet(s0, s, envs, now) && MailsMeet(s0, s, envs, now)
  }

  // ---- one step ---------------------------------------------------------------------------

  lemma AfterIsNotDue(row: Row, env: Env, now: Instant)
    requires Commits(row, env, now)
    ensures !Due(AfterBatch(row, env, now), DayOf(now))
  {
    var users := env.recipients.value;
    CommitMovesPastToday(row, ReadSignal(row.periodicity, env, users, now), AllSent(users, env.send), DayOf(now));
  }

  /** A row that a sweep can still claim is as it was. */
  lemma DueIsUntouched(s0: State, s: State, id: Uuid, envs: Uuid -> Env, now: Instant)
    requires id in s0.rows && id in s.rows && RowMeets(s0, s, id, envs, now)
    requires Due(s.rows[id], DayOf(now))
    ensures s.rows[id] == s0.rows[id]
  {
    if s.rows[id] != s0.rows[id] {
      AfterIsNotDue(s0.rows[id], envs(id), now);
    }
  }

  /** A batch that has tried everyone commits the row its environment says. */
  lemma CommitMeets(s0: State, s: State, pid: Pid, envs: Uuid -> Env, now: Instant)
    requires LocksHold(s) && BatchesMeet(s0, s, envs, now)
    requires Enabled(s, Commit(pid)) && Meets(s, Commit(pid), envs, now)
    ensures var b := s.sweeps[pid].batch.value;
            && b.id in s.rows && b.row == s0.rows[b.id] == s.rows[b.id] && Advances(s0, b.id, envs, now)
            && CommittedRow(b.row, b.signal, b.allSent, s.sweeps[pid].day) == AfterBatch(b.row, envs(b.id), now)
            && AfterBatch(b.row, envs(b.id), now) != b.row
  {
    hide CommittedRow, ReadSignal, AllSent;
    assert BatchHolds(s, pid) && BatchMeets(s0, s, pid, envs, now);
    var b := s.sweeps[pid].batch.value;
    assert b.users[..b.tried] == b.users;
    AfterIsNotDue(b.row, envs(b.id), now);
  }

  lemma StepRows(s0: State, s: State, a: Action, envs: Uuid -> Env, now: Instant)
    requires LocksHold(s) && RowsMeet(s0, s, envs, now) && BatchesMeet(s0, s, envs, now)
    requires Enabled(s, a) && Meets(s, a, envs, now)
    ensures RowsMeet(s0, Apply(s, a), envs, now)
  {
    hide CommittedRow, ReadSignal, AfterBatch, Commits, Due;
    var t := Apply(s, a);
    if a.Commit? {
      CommitMeets(s0, s, a.pid, envs, now);
    } else {
      assert t.rows == s.rows;
    }
    forall id | id in s0.rows
      ensures RowMeets(s0, t, id, envs, now)
    {
      assert RowMeets(s0, s, id, envs, now);
    }
  }

  lemma StepBatches(s0: State, s: State, a: Action, envs: Uuid -> Env, now: Instant)
    requires LocksHold(s) && RowsMeet(s0, s, envs, now) && BatchesMeet(s0, s, envs, now)
    requires Enabled(s, a) && Meets(s, a, envs, now)
    ensures BatchesMeet(s0, Apply(s, a), envs, now)
  {
    hide BatchMeets;
    forall pid | Busy(Apply(s, a), pid)
      ensures BatchMeets(s0, Apply(s, a), pid, envs, now)
    {
      StepBatchMeets(s0, s, a, pid, envs, now);
    }
  }

  lemma StepBatchMeets(s0: State, s: State, a: Action, pid: Pid, envs: Uuid -> Env, now: Instant)
    requires RowsMeet(s0, s, envs, now) && (Busy(s, pid) ==> BatchMeets(s0, s, pid, envs, now))
    requires Enabled(s, a) && Meets(s, a, envs, now) && Busy(Apply(s, a), pid)
    ensures BatchMeets(s0, Apply(s, a), pid, envs, now)
  {
    hide CommittedRow, BatchMeets, RowsMeet, Distinct, Due, Meets;
    if a.Claim? && a.pid == pid {
      ClaimedBatchMeets(s0, s, a, envs, now);
    } else if a.SendNext? && a.pid == pid {
      SentBatchMeets(s0, s, pid, a.result, envs, now);
    } else {
      SameBatchMeets(s0, s, Apply(s, a), pid, envs, now);
    }
  }

  lemma SameBatchMeets(s0: State, s: State, t: State, pid: Pid, envs: Uuid -> Env, now: Instant)
    requires Busy(s, pid) && Busy(t, pid) && s.sweeps[pid] == t.sweeps[pid] && BatchMeets(s0, s, pid, envs, now)
    ensures BatchMeets(s0, t, pid, envs, now)
  {
    hide AllSent, ReadSignal, UsersOf;
  }

  lemma ClaimedBatchMeets(s0: State, s: State, a: Action, envs: Uuid -> Env, now: Instant)
    requires RowsMeet(s0, s, envs, now) && a.Claim? && Enabled(s, a) && Meets(s, a, envs, now)
    ensures BatchMeets(s0, Apply(s, a), a.pid, envs, now)
  {
    hide ReadSignal, AllSent, Distinct, UsersOf;
    assert RowMeets(s0, s, a.id, envs, now);
    DueIsUntouched(s0, s, a.id, envs, now);
    NobodyTried(UsersOf(envs(a.id)), envs(a.id).send);
  }

  lemma SentBatchMeets(s0: State, s: State, pid: Pid, result: SendResult, envs: Uuid -> Env, now: Instant)
    requires Enabled(s, SendNext(pid, result)) && Meets(s, SendNext(pid, result), envs, now)
    requires BatchMeets(s0, s, pid, envs, now)
    ensures BatchMeets(s0, Apply(s, SendNext(pid, result)), pid, envs, now)
  {
    hide ReadSignal, AllSent, UsersOf;
    var b := s.sweeps[pid].batch.value;
    OneMoreUser(b.id, b.users, envs(b.id).send, DayOf(now), b.tried);
  }

  lemma NobodyTried(users: seq<Uuid>, send: Uuid -> SendResult)
    ensures AllSent(users[..0], send) && Mailed(users[..0], send) == []
  {
  }

  lemma StepProcessed(s0: State, s: State, a: Action, envs: Uuid -> Env, now: Instant)
    requires LocksHold(s) && RowsMeet(s0, s, envs, now)
    requires BatchesMeet(s0, s, envs, now) && AllProcessedMeet(s0, s, envs, now)
    requires Enabled(s, a) && Meets(s, a, envs, now)
    ensures AllProcessedMeet(s0, Apply(s, a), envs, now)
  {
    hide ProcessedMeets, LocksHold, RowsMeet, BatchesMeet, Meets;
    var t := Apply(s, a);
    forall pid, id | pid in t.sweeps && pid !in s0.sweeps && id in t.sweeps[pid].processed
      ensures ProcessedMeets(s0, t, pid, id, envs, now)
    {
      StepProcessedMeets(s0, s, a, pid, id, envs, now);
    }
  }

  lemma StepProcessedMeets(s0: State, s: State, a: Action, pid: Pid, id: Uuid, envs: Uuid -> Env, now: Instant)
    requires LocksHold(s) && RowsMeet(s0, s, envs, now) && BatchesMeet(s0, s, envs, now)
    requires pid in s.sweeps && id in s.sweeps[pid].processed ==> ProcessedMeets(s0, s, pid, id, envs, now)
    requires Enabled(s, a) && Meets(s, a, envs, now)
    requires pid in Apply(s, a).sweeps && id in Apply(s, a).sweeps[pid].processed
    ensures ProcessedMeets(s0, Apply(s, a), pid, id, envs, now)
  {
    hide CommittedRow, AfterBatch, LocksHold, BatchesMeet, ReadSignal, Commits, Distinct, Due;
    if a.Commit? {
      CommitMeets(s0, s, a.pid, envs, now);
    } else if a.Rollback? {
      RollbackMeets(s0, s, a.pid, envs, now);
    }
  }

  lemma RollbackMeets(s0: State, s: State, pid: Pid, envs: Uuid -> Env, now: Instant)
    requires LocksHold(s) && BatchesMeet(s0, s, envs, now)
    requires Enabled(s, Rollback(pid)) && Meets(s, Rollback(pid), envs, now)
    ensures var id := s.sweeps[pid].batch.value.id;
            && id in s.rows && id in s0.rows && !Advances(s0, id, envs, now)
            && s.rows[id] == s0.rows[id] == AfterBatch(s0.rows[id], envs(id), now)
  {
    assert BatchHolds(s, pid) && BatchMeets(s0, s, pid, envs, now);
  }

  lemma StepMailsMeet(s0: State, s: State, a: Action, envs: Uuid -> Env, now: Instant)
    requires LocksHold(s) && RowsMeet(s0, s, envs, now)
    requires BatchesMeet(s0, s, envs, now) && MailsMeet(s0, s, envs, now)
    requires Enabled(s, a) && Meets(s, a, envs, now)
    ensures MailsMeet(s0, Apply(s, a), envs, now)
  {
    hide MailMeets, LocksHold, RowsMeet, BatchesMeet;
    forall id: Uuid, user: Uuid
      ensures MailMeets(s0, Apply(s, a), id, user, envs, now)
    {
      assert MailMeets(s0, s, id, user, envs, now);
      StepMailMeets(s0, s, a, id, user, envs, now);
    }
  }

  /** The digest whose batch a step begins, carries on or ends. */
  function ActsOn(s: State, a: Action): Option<Uuid>
    requires Enabled(s, a)
  {
    match a
    case Claim(pid, id, _, _) => Some(id)
    case SendNext(pid, _) => Some(s.sweeps[pid].batch.value.id)
    case Commit(pid) => Some(s.sweeps[pid].batch.value.id)
    case Rollback(pid) => Some(s.sweeps[pid].batch.value.id)
    case _ => None
  }

  lemma StepMailMeets(s0: State, s: State, a: Action, id: Uuid, user: Uuid, envs: Uuid -> Env, now: Instant)
    requires LocksHold(s) && RowsMeet(s0, s, envs, now)
    requires BatchesMeet(s0, s, envs, now) && MailMeets(s0, s, id, user, envs, now)
    requires Enabled(s, a) && Meets(s, a, envs, now)
    ensures MailMeets(s0, Apply(s, a), id, user, envs, now)
  {
    hide CommittedRow, NextRun, ReadSignal, Commits, AllSent, Mailed, MailedSoFar, Distinct, AfterBatch;
    if Advances(s0, id, envs, now) && id in s.rows {
      if ActsOn(s, a) != Some(id) {
        OthersMails(s0, s, a, id, user, envs(id), DayOf(now));
      } else {
        match a
        case Claim(pid, _, users, signal) => ClaimMails(s0, s, a, user, envs, now);
        case SendNext(pid, result) => SendMails(s0, s, pid, result, user, envs, now);
        case Commit(pid) => CommitMails(s0, s, pid, user, envs, now);
        case Rollback(pid) => RollbackMeets(s0, s, pid, envs, now);
      }
    }
  }

  /** A step of another digest's batch, or of none, leaves this digest's row, lock and batch. */
  lemma OthersStay(s: State, a: Action, id: Uuid)
    requires LocksHold(s) && Enabled(s, a) && ActsOn(s, a) != Some(id) && id in s.rows
    requires !a.Create? && !a.SetPeriodicity? && !a.SetState?
    ensures var t := Apply(s, a);
            && id in t.rows && t.rows[id] == s.rows[id] && (id in t.locks <==> id in s.locks)
            && (id in s.locks ==>
                  && t.locks[id] == s.locks[id] && Busy(s, s.locks[id]) && Busy(t, s.locks[id])
                  && t.sweeps[s.locks[id]] == s.sweeps[s.locks[id]])
            && forall user: Uuid, day: Day :: t.mails[Mail(id, user, day)] == s.mails[Mail(id, user, day)]
  {
    hide CommittedRow, Distinct, Due;
    if id in s.locks {
      assert LockHolds(s, id);
    }
  }

  lemma OthersMails(s0: State, s: State, a: Action, id: Uuid, user: Uuid, env: Env, day: Day)
    requires LocksHold(s) && Enabled(s, a) && ActsOn(s, a) != Some(id)
    requires !a.Create? && !a.SetPeriodicity? && !a.SetState?
    requires id in s0.rows && id in s.rows
    ensures var t := Apply(s, a);
            && id in t.rows && t.mails[Mail(id, user, day)] == s.mails[Mail(id, user, day)]
            && MailedSoFar(s0, t, id, env) == MailedSoFar(s0, s, id, env)
  {
    hide Apply, Enabled, Mailed;
    OthersStay(s, a, id);
  }

  lemma ClaimMails(s0: State, s: State, a: Action, user: Uuid, envs: Uuid -> Env, now: Instant)
    requires RowsMeet(s0, s, envs, now) && a.Claim? && Enabled(s, a) && Meets(s, a, envs, now)
    requires MailMeets(s0, s, a.id, user, envs, now)
    ensures MailMeets(s0, Apply(s, a), a.id, user, envs, now)
  {
    hide ReadSignal, Distinct, Mailed;
    assert RowMeets(s0, s, a.id, envs, now);
    DueIsUntouched(s0, s, a.id, envs, now);
    NobodyTried(UsersOf(envs(a.id)), envs(a.id).send);
  }

  lemma SendMails(s0: State, s: State, pid: Pid, result: SendResult, user: Uuid, envs: Uuid -> Env, now: Instant)
    requires LocksHold(s) && BatchesMeet(s0, s, envs, now)
    requires Enabled(s, SendNext(pid, result)) && Meets(s, SendNext(pid, result), envs, now)
    requires MailMeets(s0, s, s.sweeps[pid].batch.value.id, user, envs, now)
    ensures MailMeets(s0, Apply(s, SendNext(pid, result)), s.sweeps[pid].batch.value.id, user, envs, now)
  {
    hide ReadSignal, Distinct, Mailed, AllSent, Advances;
    assert BatchHolds(s, pid) && BatchMeets(s0, s, pid, envs, now);
    var b := s.sweeps[pid].batch.value;
    OneMoreMailed(b.users, envs(b.id).send, b.tried, user);
  }

  lemma OneMoreMailed(users: seq<Uuid>, send: Uuid -> SendResult, i: nat, user: Uuid)
    requires i < |users|
    ensures multiset(Mailed(users[..i + 1], send))[user]
         == multiset(Mailed(users[..i], send))[user] + if Enqueues(send(users[i])) && users[i] == user then 1 else 0
  {
    assert users[..i + 1][..i] == users[..i];
  }

  lemma CommitMails(s0: State, s: State, pid: Pid, user: Uuid, envs: Uuid -> Env, now: Instant)
    requires LocksHold(s) && BatchesMeet(s0, s, envs, now)
    requires Enabled(s, Commit(pid)) && Meets(s, Commit(pid), envs, now)
    requires MailMeets(s0, s, s.sweeps[pid].batch.value.id, user, envs, now)
    ensures MailMeets(s0, Apply(s, Commit(pid)), s.sweeps[pid].batch.value.id, user, envs, now)
  {
    hide CommittedRow, ReadSignal, Distinct, Mailed, AllSent, AfterBatch, Commits;
    CommitMeets(s0, s, pid, envs, now);
    assert BatchHolds(s, pid) && BatchMeets(s0, s, pid, envs, now);
    var b := s.sweeps[pid].batch.value;
    assert b.users[..b.tried] == b.users;
  }

  lemma StepSoFar(s0: State, s: State, a: Action, envs: Uuid -> Env, now: Instant)
    requires SoFar(s0, s, envs, now) && Enabled(s, a) && Safe(s, a) && Meets(s, a, envs, now)
    ensures SoFar(s0, Apply(s, a), envs, now)
  {
    hide Enabled, Safe, Apply, Meets, LocksHold, RowsMeet, BatchesMeet, AllProcessedMeet, MailsMeet;
    StepInv(s, a);
    StepRows(s0, s, a, envs, now);
    StepBatches(s0, s, a, envs, now);
    StepProcessed(s0, s, a, envs, now);
    StepMailsMeet(s0, s, a, envs, now);
  }

  // ---- the whole run ----------------------------------------------------------------------

  lemma {:induction false} RunSoFar(s0: State, s: State, run: seq<Action>, envs: Uuid -> Env, now: Instant)
    requires SoFar(s0, s, envs, now) && Legal(s, run) && SweepsRun(s, run, envs, now)
    ensures SoFar(s0, Run(s, run), envs, now)
    decreases run
  {
    hide SoFar, Enabled, Safe, Apply, Meets;
    if run != [] {
      StepSoFar(s0, s, run[0], envs, now);
      RunSoFar(s0, Apply(s, run[0]), run[1..], envs, now);
    }
  }

  ghost predicate Idle(s: State) {
    forall pid :: !Busy(s, pid)
  }

  lemma LocksAreBusy(s: State)
    requires LocksHold(s)
    ensures forall id :: id in s.locks ==> Busy(s, s.locks[id])
  {
    assert forall id :: id in s.locks ==> LockHolds(s, id);
  }

  lemma StartsSoFar(s: State, envs: Uuid -> Env, now: Instant)
    requires Inv(s) && Idle(s)
    ensures SoFar(s, s, envs, now)
  {
    LocksAreBusy(s);
  }

  /** However many sweeps of one moment interleave, with each other, with manual sends and with the locks
      of other transactions: once none is in a batch and some sweep of the run finds nothing more to claim,
      every row that nobody holds is what the engine's single sweep leaves of it, and every due digest whose
      batch commits was mailed exactly as that one batch mails. */
  lemma SweepsTogether(s0: State, run: seq<Action>, envs: Uuid -> Env, now: Instant, pid: Pid)
    requires Inv(s0) && Idle(s0) && Legal(s0, run) && SweepsRun(s0, run, envs, now)
    requires var s := Run(s0, run);
             && Idle(s) && pid !in s0.sweeps && pid in s.sweeps && s.sweeps[pid].day == DayOf(now)
             && forall id :: !Claimable(s, pid, id)
    ensures var s := Run(s0, run);
            && s.rows.Keys == s0.rows.Keys
            && (forall id :: id in s.rows && id !in s.held ==> s.rows[id] == AfterSweep(s0.rows, envs, now)[id])
            && (s.held == {} ==> s.rows == AfterSweep(s0.rows, envs, now))
            && (forall id: Uuid, user: Uuid :: Advances(s0, id, envs, now) && id !in s.held ==>
                  var mail := Mail(id, user, DayOf(now));
                  s.mails[mail] == s0.mails[mail] + multiset(BatchMailed(envs(id)))[user])
  {
    StartsSoFar(s0, envs, now);
    RunSoFar(s0, s0, run, envs, now);
    var s := Run(s0, run);
    forall id | id in s0.rows && id !in s.held
      ensures s.rows[id] == AfterSweep(s0.rows, envs, now)[id]
    {
      SweptRow(s0, s, pid, id, envs, now);
    }
    forall id: Uuid, user: Uuid | Advances(s0, id, envs, now) && id !in s.held
      ensures var mail := Mail(id, user, DayOf(now));
              s.mails[mail] == s0.mails[mail] + multiset(BatchMailed(envs(id)))[user]
    {
      assert MailMeets(s0, s, id, user, envs, now);
      SweptRow(s0, s, pid, id, envs, now);
      AfterIsNotDue(s0.rows[id], envs(id), now);
    }
  }

  lemma SweptRow(s0: State, s: State, pid: Pid, id: Uuid, envs: Uuid -> Env, now: Instant)
    requires SoFar(s0, s, envs, now) && Idle(s) && id in s0.rows && id !in s.held
    requires pid !in s0.sweeps && pid in s.sweeps && s.sweeps[pid].day == DayOf(now) && !Claimable(s, pid, id)
    ensures s.rows[id] == if Due(s0.rows[id], DayOf(now)) then AfterBatch(s0.rows[id], envs(id), now) else s0.rows[id]
  {
    assert RowMeets(s0, s, id, envs, now);
    LocksAreBusy(s);
    if id in s.sweeps[pid].processed {
      assert ProcessedMeets(s0, s, pid, id, envs, now);
    }
  }
}
