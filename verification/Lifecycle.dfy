/** What every step of the job lifecycle keeps, and what follows over whole runs. */
module Lifecycle {
  import opened Wrappers
  import opened Acyclicity
  import opened JobStore

  // ---------- The invariant ----------

  predicate RowOk(j: Job)
  {
    && (j.claimedBy.Some? <==> j.status in {Claimed, Running})
    && (j.status in {Claimed, Running} ==> j.claimedAt.Some?)
    && (j.status == Completed ==> j.cron.None?)
    && (j.status == Scheduled && j.cron.Some? ==> j.nextRunAt.Some?)
    && 0 <= j.attempts <= j.maxAttempts + j.reclaims
    && (j.status in {Queued, Scheduled, Blocked, Claimed} ==> j.attempts < j.maxAttempts + j.reclaims)
    && 1 <= j.maxAttempts && 1 <= j.timeoutSecs
  }

  /** The row is the attempt's: claimed or running under its worker, as the attempt remembers it. */
  predicate Holds(j: Job, t: Token, a: Attempt)
  {
    && j.holder == t && j.claimedBy == Some(a.worker) && j.claimedAt.Some?
    && a.maxAttempts == j.maxAttempts && a.timeoutSecs == j.timeoutSecs && a.cron == j.cron
    && match a.phase
       case Executing(deadline) =>
         && j.status == Running
         && deadline <= j.claimedAt.value + j.timeoutSecs * SECOND
         && j.attempts == a.seen + 1
       case _ => j.status == Claimed && j.claimedAt.value == a.claimedAt && j.attempts == a.seen
  }

  ghost predicate RowsOk(s: Db)
  {
    forall id :: id in s.jobs ==> RowOk(s.jobs[id])
  }

  predicate LeaseOkAt(s: Db, t: Token)
  {
    CanWrite(s, t) && s.live[t].job in s.jobs ==> Holds(s.jobs[s.live[t].job], t, s.live[t])
  }

  ghost predicate LeasesOk(s: Db)
  {
    forall t :: t in s.live ==> LeaseOkAt(s, t)
  }

  ghost predicate AttemptsOk(s: Db)
  {
    && (forall t :: t in s.live ==> s.live[t].job in s.issued && s.live[t].seen >= 0)
    && (forall t :: t in s.live && s.live[t].phase.Begun? ==>
          s.live[t].phase.deadline <= s.now + s.live[t].timeoutSecs * SECOND)
  }

  /** Foreign keys, and ids never used twice. */
  ghost predicate KeysOk(s: Db)
  {
    && s.jobs.Keys <= s.issued
    && (forall e :: e in s.deps ==> e.0 in s.jobs && e.1 in s.jobs)
    && (forall d :: d in s.dlq ==> s.dlq[d].job in s.jobs && s.dlq[d].queue == s.jobs[s.dlq[d].job].queue)
  }

  ghost predicate DepsOk(s: Db)
  {
    forall e :: e in s.deps && e.0 in s.jobs && Settled(s.jobs[e.0].status) ==>
      e.1 in s.jobs && s.jobs[e.1].status == Completed
  }

  ghost predicate DlqOk(s: Db)
  {
    && (forall d, d' :: d in s.dlq && d' in s.dlq && s.dlq[d].job == s.dlq[d'].job ==> d == d')
    && (forall d :: Unresolved(s, d) && s.dlq[d].job in s.jobs ==> s.jobs[s.dlq[d].job].status == Dead)
    && (forall id :: id in s.jobs && s.jobs[id].status == Dead ==> DlqOf(s.dlq, id) != {})
  }

  ghost predicate DepsRanked(s: Db)
  {
    exists rank :: Ranks(s.deps, rank)
  }

  ghost predicate Inv(s: Db)
  {
    && RowsOk(s) && LeasesOk(s) && AttemptsOk(s) && KeysOk(s) && DepsOk(s) && DlqOk(s) && DepsRanked(s)
  }

  // ---------- One row at a time ----------

  /** The row `id` after a step that does not delete it. */
  ghost function RowAfter(s: Db, step: Step, id: JobId): Job
    requires Enabled(s, step) && id in s.jobs
  {
    var j := s.jobs[id];
    match step
    case Claim(worker, tokens) => if id in tokens then SetClaimed(j, worker, tokens[id], s.now) else j
    case Start(t) => if s.live[t].job == id then SetRunning(j, s.live[t].worker, t, s.now) else j
    case Release(t) => if s.live[t].job == id && j.status == Claimed then SetReleased(j, s.now) else j
    case Succeed(t, next) => if s.live[t].job == id then SetSucceeded(j, s.live[t].cron, next) else j
    case Fail(t, retryAt, _) =>
      if s.live[t].job != id then j
      else if s.live[t].seen + 1 >= s.live[t].maxAttempts then SetDead(j)
      else SetRequeued(j, retryAt)
    case Promote(due) => if id in due then j.(status := Queued) else j
    case Unblock(ready) => if id in ready then j.(status := Queued, runAt := s.now) else j
    case CancelUnsatisfiable(doomed) => if id in doomed then j.(status := Cancelled) else j
    case ArmCron(pending) => if id in pending then SetArmed(j, pending[id]) else j
    case Reclaim(stuck) => if id in stuck then SetReclaimed(j, s.now) else j
    case CancelJob(c) => if id == c then j.(status := Cancelled) else j
    case RetryJob(r) =>
      if id == r then SetReset(j, if DepsCompleted(s.jobs, s.deps, r) then Queued else Blocked, s.now, true) else j
    case RetryDead(_, r) => if id == r then SetReset(j, Queued, s.now, true) else j
    case RetryAllDead(entries) => if id in JobsOf(s.dlq, entries) then SetReset(j, Queued, s.now, false) else j
    case _ => j
  }

  lemma NextRow(s: Db, step: Step, id: JobId)
    requires Enabled(s, step)
    requires id in Next(s, step).jobs
    ensures id in s.jobs && !(step.Insert? && id in step.rows) ==> Next(s, step).jobs[id] == RowAfter(s, step, id)
    ensures id !in s.jobs ==> step.Insert? && id in step.rows && Next(s, step).jobs[id] == step.rows[id]
    ensures !(step.Delete? && id in step.ids)
  {
  }

  /** The attempt behind a timely start or release, or behind a finish, still holds its job's row. */
  function Writer(step: Step): Option<Token>
  {
    match step
    case Start(t) => Some(t)
    case Release(t) => Some(t)
    case Succeed(t, _) => Some(t)
    case Fail(t, _, _) => Some(t)
    case _ => None
  }

  lemma WriterHolds(s: Db, step: Step)
    requires LeasesOk(s) && Enabled(s, step) && Timely(s, step) && Writer(step).Some? && !step.Release?
    ensures var t := Writer(step).value;
      t in s.live && CanWrite(s, t) && (s.live[t].job in s.jobs ==> Holds(s.jobs[s.live[t].job], t, s.live[t]))
  {
    assert LeaseOkAt(s, Writer(step).value);
  }

  /** What a step may do to one row. */
  predicate Moves(s: Db, step: Step, id: JobId, a: Job, b: Job)
  {
    && RowOk(b)
    && (a.status == Completed ==> b.status == Completed || (step.RetryDead? && step.id == id))
    && (Settled(b.status) ==> Settled(a.status) || DepsCompleted(s.jobs, s.deps, id))
    && b.queue == a.queue && b.maxAttempts == a.maxAttempts && b.timeoutSecs == a.timeoutSecs && b.cron == a.cron
  }

  lemma WriterMoves(s: Db, step: Step, id: JobId)
    requires RowsOk(s) && LeasesOk(s)
    requires Enabled(s, step) && Timely(s, step) && id in s.jobs && Writer(step).Some?
    ensures Moves(s, step, id, s.jobs[id], RowAfter(s, step, id))
  {
    hide CanWrite, LeasesOk, DepsCompleted;
    assert RowOk(s.jobs[id]);
    if !step.Release? {
      WriterHolds(s, step);
    }
  }

  /** No step breaks a row, a release or a dead-letter retry at the wrong moment included. */
  lemma RowMoves(s: Db, step: Step, id: JobId)
    requires RowsOk(s) && LeasesOk(s) && DlqOk(s)
    requires Enabled(s, step) && Timely(s, step) && id in s.jobs
    ensures Moves(s, step, id, s.jobs[id], RowAfter(s, step, id))
  {
    if Writer(step).Some? {
      WriterMoves(s, step, id);
    } else {
      OthersMove(s, step, id);
    }
  }

  lemma OthersMove(s: Db, step: Step, id: JobId)
    requires RowsOk(s) && DlqOk(s)
    requires Enabled(s, step) && Writer(step).None? && id in s.jobs
    ensures Moves(s, step, id, s.jobs[id], RowAfter(s, step, id))
  {
    if step.RetryJob? || step.RetryDead? || step.RetryAllDead? {
      ResetMoves(s, step, id);
    } else {
      QuietlyMoves(s, step, id);
    }
  }

  lemma QuietlyMoves(s: Db, step: Step, id: JobId)
    requires RowsOk(s) && Enabled(s, step) && Writer(step).None? && id in s.jobs
    requires !step.RetryJob? && !step.RetryDead? && !step.RetryAllDead?
    ensures Moves(s, step, id, s.jobs[id], RowAfter(s, step, id))
  {
    assert RowOk(s.jobs[id]);
    hide DepsCompleted, DepFailed, RowsOk;
  }

  lemma ResetMoves(s: Db, step: Step, id: JobId)
    requires RowsOk(s) && DlqOk(s) && Enabled(s, step) && id in s.jobs
    requires step.RetryJob? || step.RetryDead? || step.RetryAllDead?
    ensures Moves(s, step, id, s.jobs[id], RowAfter(s, step, id))
  {
    RetriedIsDead(s, step, id);
    assert RowOk(s.jobs[id]);
    hide DepsCompleted, DepFailed, RowsOk, DlqOk, JobsOf, Unresolved;
  }

  /** Retrying all dead-letter entries finds their jobs dead. */
  lemma RetriedIsDead(s: Db, step: Step, id: JobId)
    requires DlqOk(s) && Enabled(s, step) && id in s.jobs
    ensures step.RetryAllDead? && id in JobsOf(s.dlq, step.entries) ==> s.jobs[id].status == Dead
  {
    if step.RetryAllDead? && id in JobsOf(s.dlq, step.entries) {
      var d :| d in step.entries && d in s.dlq && s.dlq[d].job == id;
      assert Unresolved(s, d);
    }
  }

  lemma RowsKept(s: Db, step: Step)
    requires RowsOk(s) && LeasesOk(s) && DlqOk(s) && KeysOk(s)
    requires Enabled(s, step) && Timely(s, step)
    ensures RowsOk(Next(s, step))
  {
    hide Next;
    forall id | id in Next(s, step).jobs
      ensures RowOk(Next(s, step).jobs[id])
    {
      NextRow(s, step, id);
      if id in s.jobs && !(step.Insert? && id in step.rows) {
        RowMoves(s, step, id);
      }
    }
  }

  lemma NoCronPending(s: Db)
    requires Inv(s)
    ensures forall id :: !CronPending(s, id)
  {
    forall id
      ensures !CronPending(s, id)
    {
      assert id in s.jobs ==> RowOk(s.jobs[id]);
    }
  }

  // ---------- Leases ----------

  /** Nor does another attempt: two that can write hold two rows, and a release that is in time finds its own. */
  lemma WriterSpares(s: Db, step: Step, t: Token)
    requires LeasesOk(s) && Enabled(s, step) && Orderly(s, step) && Writer(step).Some? && Writer(step) != Some(t)
    requires t in s.live && CanWrite(s, t) && s.live[t].job in s.jobs
    ensures RowAfter(s, step, s.live[t].job) == s.jobs[s.live[t].job]
  {
    var id := s.live[t].job;
    assert LeaseOkAt(s, t) && WritableBy(s, t, id);
    hide LeasesOk;
    if !step.Release? {
      WriterHolds(s, step);
    }
  }

  /** No step other than its own attempt's touches a row somebody can still write. */
  lemma HeldRowUntouched(s: Db, step: Step, t: Token)
    requires RowsOk(s) && LeasesOk(s) && AttemptsOk(s) && KeysOk(s) && DlqOk(s)
    requires Enabled(s, step) && Orderly(s, step)
    requires t in s.live && CanWrite(s, t) && Writer(step) != Some(t) && s.live[t].job in s.jobs
    ensures RowAfter(s, step, s.live[t].job) == s.jobs[s.live[t].job]
  {
    var id := s.live[t].job;
    assert LeaseOkAt(s, t) && WritableBy(s, t, id);
    if Writer(step).Some? {
      hide RowAfter, Enabled, Orderly, CanWrite, Holds;
      WriterSpares(s, step, t);
    } else if step.RetryAllDead? || step.RetryDead? {
      RetriedIsDead(s, step, id);
    } else {
      hide Orderly, CanWrite, LeasesOk, KeysOk, DlqOk, AttemptsOk;
      UnheldMove(s, step, id);
    }
  }

  /** Neither claims nor the sweep take a claimed or running row, but when it is stuck. */
  lemma UnheldMove(s: Db, step: Step, id: JobId)
    requires Enabled(s, step) && Writer(step).None? && !step.RetryAllDead? && !step.RetryDead?
    requires id in s.jobs && s.jobs[id].status in {Claimed, Running} && !Stuck(s, id)
    ensures RowAfter(s, step, id) == s.jobs[id]
  {
    hide DepsCompleted, DepFailed;
  }

  /** A claim adds one waiting attempt per claimed row and leaves the others alone. */
  lemma ClaimedAttempts(s: Db, worker: WorkerId, tokens: map<JobId, Token>, t: Token)
    requires Enabled(s, Claim(worker, tokens)) && t in Next(s, Claim(worker, tokens)).live
    ensures t !in s.live ==>
      exists id :: id in tokens && id in s.jobs && tokens[id] == t
        && Next(s, Claim(worker, tokens)).live[t] == AttemptOf(s, worker, id)
    ensures t in s.live ==> Next(s, Claim(worker, tokens)).live[t] == s.live[t]
  {
    var made := NewAttempts(s, worker, tokens);
    if t !in s.live {
      var id :| id in tokens && tokens[id] == t;
      assert Claimable(s, id);
    }
  }

  /** Every other step keeps attempts as they are, except the one it advances or ends. */
  lemma NextAttempt(s: Db, step: Step, t: Token)
    requires Enabled(s, step) && !step.Claim? && t in Next(s, step).live
    ensures t in s.live
    ensures Next(s, step).live[t] ==
      if step == Begin(t) then s.live[t].(phase := Begun(s.now + s.live[t].timeoutSecs * SECOND))
      else if step == Start(t) then s.live[t].(phase := Executing(s.live[t].phase.deadline))
      else s.live[t]
    ensures Writer(step) == Some(t) ==> step == Start(t)
  {
  }

  lemma NextClock(s: Db, step: Step)
    requires Enabled(s, step)
    ensures Next(s, step).now >= s.now
    ensures !step.Tick? ==> Next(s, step).now == s.now
  {
  }

  lemma LeaseKeptAt(s: Db, step: Step, t: Token)
    requires RowsOk(s) && LeasesOk(s) && AttemptsOk(s) && KeysOk(s) && DlqOk(s)
    requires Enabled(s, step) && Orderly(s, step) && t in Next(s, step).live
    ensures LeaseOkAt(Next(s, step), t)
  {
    var s' := Next(s, step);
    NextClock(s, step);
    if step.Claim? {
      ClaimedAttempts(s, step.worker, step.tokens, t);
    } else {
      NextAttempt(s, step, t);
    }
    var id := s'.live[t].job;
    if CanWrite(s', t) && id in s'.jobs {
      NextRow(s, step, id);
      if t !in s.live {
        NewLease(s, step.worker, step.tokens, t);
      } else if step == Start(t) {
        StartedLease(s, t);
      } else {
        OldLease(s, step, t);
      }
    }
  }

  lemma NewLease(s: Db, worker: WorkerId, tokens: map<JobId, Token>, t: Token)
    requires Enabled(s, Claim(worker, tokens)) && t in Next(s, Claim(worker, tokens)).live && t !in s.live
    ensures LeaseOkAt(Next(s, Claim(worker, tokens)), t)
  {
    ClaimedAttempts(s, worker, tokens, t);
    var id :| id in tokens && id in s.jobs && tokens[id] == t
      && Next(s, Claim(worker, tokens)).live[t] == AttemptOf(s, worker, id);
    NextRow(s, Claim(worker, tokens), id);
  }

  lemma StartedLease(s: Db, t: Token)
    requires LeasesOk(s) && AttemptsOk(s) && Enabled(s, Start(t)) && Timely(s, Start(t))
    ensures LeaseOkAt(Next(s, Start(t)), t)
  {
    WriterHolds(s, Start(t));
  }

  /** An attempt that does not start and does not end can write only what it could, and holds what it held. */
  lemma AttemptStays(s: Db, step: Step, t: Token)
    requires Enabled(s, step) && t in s.live && t in Next(s, step).live && step != Start(t)
    ensures Next(s, step).live[t].job == s.live[t].job && Writer(step) != Some(t)
    ensures CanWrite(Next(s, step), t) ==> CanWrite(s, t)
    ensures forall j :: Holds(j, t, s.live[t]) ==> Holds(j, t, Next(s, step).live[t])
  {
    NextClock(s, step);
    if step.Claim? {
      ClaimedAttempts(s, step.worker, step.tokens, t);
    } else {
      NextAttempt(s, step, t);
    }
    hide Next;
  }

  lemma OldLease(s: Db, step: Step, t: Token)
    requires RowsOk(s) && LeasesOk(s) && AttemptsOk(s) && KeysOk(s) && DlqOk(s)
    requires Enabled(s, step) && Orderly(s, step)
    requires t in s.live && t in Next(s, step).live && step != Start(t)
    ensures LeaseOkAt(Next(s, step), t)
  {
    var s', id := Next(s, step), s.live[t].job;
    assert id in s.issued && LeaseOkAt(s, t);
    assert step.Insert? ==> id !in step.rows;
    hide Next, Enabled, Orderly, RowAfter, RowsOk, LeasesOk, AttemptsOk, KeysOk, DlqOk, Holds, CanWrite;
    AttemptStays(s, step, t);
    if CanWrite(s', t) && id in s'.jobs {
      NextRow(s, step, id);
      HeldRowUntouched(s, step, t);
    }
  }

  lemma LeasesKept(s: Db, step: Step)
    requires RowsOk(s) && LeasesOk(s) && AttemptsOk(s) && KeysOk(s) && DlqOk(s)
    requires Enabled(s, step) && Orderly(s, step)
    ensures LeasesOk(Next(s, step))
  {
    forall t | t in Next(s, step).live
      ensures LeaseOkAt(Next(s, step), t)
    {
      LeaseKeptAt(s, step, t);
    }
  }

  lemma AttemptsKept(s: Db, step: Step)
    requires AttemptsOk(s) && KeysOk(s) && RowsOk(s) && Enabled(s, step)
    ensures AttemptsOk(Next(s, step))
  {
    var s' := Next(s, step);
    forall t | t in s'.live
      ensures s'.live[t].job in s'.issued && s'.live[t].seen >= 0
      ensures s'.live[t].phase.Begun? ==> s'.live[t].phase.deadline <= s'.now + s'.live[t].timeoutSecs * SECOND
    {
      NextClock(s, step);
      IssuedGrows(s, step);
      if step.Claim? {
        ClaimedAttempts(s, step.worker, step.tokens, t);
      } else {
        NextAttempt(s, step, t);
      }
    }
  }

  lemma IssuedGrows(s: Db, step: Step)
    requires Enabled(s, step)
    ensures Next(s, step).issued == s.issued + if step.Insert? then step.rows.Keys else {}
  {
  }

  // ---------- Dependencies ----------

  lemma NextDep(s: Db, step: Step, e: (JobId, JobId))
    requires KeysOk(s) && Enabled(s, step) && e in Next(s, step).deps
    ensures e.0 in Next(s, step).jobs && e.1 in Next(s, step).jobs
    ensures e in s.deps || (step.Insert? && e in step.edges && e.0 in step.rows)
  {
    if step.Insert? {
      var rank :| InsertOrder(s, step.rows, step.edges, rank);
    }
    if e in s.deps {
      assert e.0 in s.jobs && e.1 in s.jobs;
    }
  }

  lemma DepsKept(s: Db, step: Step)
    requires RowsOk(s) && LeasesOk(s) && DlqOk(s) && KeysOk(s) && DepsOk(s)
    requires Enabled(s, step) && Timely(s, step) && (step.RetryDead? ==> NoSettledDependent(s, step.id))
    ensures DepsOk(Next(s, step))
  {
    var s' := Next(s, step);
    hide Next;
    forall e | e in s'.deps && e.0 in s'.jobs && Settled(s'.jobs[e.0].status)
      ensures e.1 in s'.jobs && s'.jobs[e.1].status == Completed
    {
      NextDep(s, step, e);
      NextRow(s, step, e.0);
      NextRow(s, step, e.1);
      if e in s.deps {
        OldDepKept(s, step, e);
      }
    }
  }

  lemma OldDepKept(s: Db, step: Step, e: (JobId, JobId))
    requires RowsOk(s) && LeasesOk(s) && DlqOk(s) && KeysOk(s) && DepsOk(s)
    requires Enabled(s, step) && Timely(s, step) && (step.RetryDead? ==> NoSettledDependent(s, step.id))
    requires e in s.deps && e.0 in s.jobs && e.1 in s.jobs
    ensures !(step.Insert? && (e.0 in step.rows || e.1 in step.rows))
    ensures Settled(RowAfter(s, step, e.0).status) ==> RowAfter(s, step, e.1).status == Completed
  {
    if step.RetryDead? {
      hide RowOk;
    } else {
      RowMoves(s, step, e.0);
      RowMoves(s, step, e.1);
      hide RowAfter, RowOk;
      if step.Insert? {
        assert e.0 in s.issued && e.1 in s.issued;
      }
    }
  }

  /** New rows rank above everything that was there. */
  lemma RankedKept(s: Db, step: Step)
    requires KeysOk(s) && DepsRanked(s) && Enabled(s, step)
    ensures DepsRanked(Next(s, step))
  {
    var rank :| Ranks(s.deps, rank);
    if step.Insert? {
      var order :| InsertOrder(s, step.rows, step.edges, order);
      InsertRanked(s, step.rows, step.edges, rank, order);
    } else {
      assert Ranks(Next(s, step).deps, rank) by {
        assert Next(s, step).deps <= s.deps;
      }
    }
  }

  ghost function Top(rank: map<JobId, nat>): (top: nat)
    ensures forall id :: id in rank ==> rank[id] < top
    decreases |rank.Keys|
  {
    if rank.Keys == {} then 0 else
      var id :| id in rank;
      var rest := rank - {id};
      assert rest.Keys == rank.Keys - {id};
      var below := Top(rest);
      assert forall i :: i in rank && i != id ==> i in rest && rest[i] == rank[i];
      if rank[id] < below then below else rank[id] + 1
  }

  lemma InsertRanked(s: Db, rows: map<JobId, Job>, edges: set<(JobId, JobId)>, rank: map<JobId, nat>,
                     order: map<JobId, nat>)
    requires KeysOk(s) && Ranks(s.deps, rank) && InsertOrder(s, rows, edges, order) && rows.Keys !! s.issued
    ensures DepsRanked(s.(deps := s.deps + edges))
  {
    var top := Top(rank);
    var next := map id | id in s.jobs.Keys + rank.Keys + rows.Keys ::
      if id in rows then top + 1 + order[id] else if id in rank then rank[id] else 0;
    forall e | e in s.deps + edges
      ensures e.0 in next && e.1 in next && next[e.1] < next[e.0]
    {
      if e in s.deps {
        assert e.0 in s.jobs && e.1 in s.jobs;
      } else {
        assert e.0 in rows;
      }
    }
    assert Ranks(s.deps + edges, next);
  }

  lemma QueueStays(s: Db, step: Step, id: JobId)
    requires Enabled(s, step) && id in s.jobs
    ensures RowAfter(s, step, id).queue == s.jobs[id].queue
  {
    hide DepsCompleted, DepFailed, Claimable, Stuck;
  }

  lemma KeysKept(s: Db, step: Step)
    requires KeysOk(s) && Enabled(s, step)
    ensures KeysOk(Next(s, step))
  {
    var s' := Next(s, step);
    forall id | id in s'.jobs
      ensures id in s'.issued
    {
      NextRow(s, step, id);
      IssuedGrows(s, step);
    }
    forall e | e in s'.deps
      ensures e.0 in s'.jobs && e.1 in s'.jobs
    {
      NextDep(s, step, e);
    }
    forall d | d in s'.dlq
      ensures s'.dlq[d].job in s'.jobs && s'.dlq[d].queue == s'.jobs[s'.dlq[d].job].queue
    {
      NextEntry(s, step, d);
      var id := s'.dlq[d].job;
      NextRow(s, step, id);
      assert id in s.issued;
      QueueStays(s, step, id);
    }
  }

  // ---------- Dead letters ----------

  predicate WritesDlq(step: Step)
  {
    step.Fail? || step.RetryJob? || step.Delete? || step.RetryDead? || step.RetryAllDead? || step.Discard?
  }

  lemma DlqUntouched(s: Db, step: Step)
    requires Enabled(s, step) && !WritesDlq(step)
    ensures Next(s, step).dlq == s.dlq
  {
  }

  lemma JobsStay(s: Db, step: Step, id: JobId)
    requires Enabled(s, step) && id in s.jobs && !(step.Delete? && id in step.ids)
    ensures id in Next(s, step).jobs
  {
  }

  lemma FailureLeavesEntry(s: Db, t: Token, retryAt: Time, newId: DlqId, d: DlqId)
    requires KeysOk(s) && Enabled(s, Fail(t, retryAt, newId)) && d in Next(s, Fail(t, retryAt, newId)).dlq
    ensures var row := Next(s, Fail(t, retryAt, newId)).dlq[d];
      && row.job in s.jobs && row.queue == s.jobs[row.job].queue
      && if d in s.dlq then row.job == s.dlq[d].job
         else d == newId && row.job == s.live[t].job && DlqOf(s.dlq, s.live[t].job) == {}
  {
  }

  lemma EntryRemains(s: Db, step: Step, d: DlqId)
    requires Enabled(s, step) && !step.Fail? && d in Next(s, step).dlq
    ensures d in s.dlq && Next(s, step).dlq[d].job == s.dlq[d].job && Next(s, step).dlq[d].queue == s.dlq[d].queue
    ensures !(step.Delete? && s.dlq[d].job in step.ids)
  {
    if !WritesDlq(step) {
      DlqUntouched(s, step);
      hide Next;
    }
  }

  /** A dead-letter entry is an old one, or the one a final failure inserted. */
  lemma NextEntry(s: Db, step: Step, d: DlqId)
    requires KeysOk(s) && Enabled(s, step) && d in Next(s, step).dlq
    ensures Next(s, step).dlq[d].job in Next(s, step).jobs && Next(s, step).dlq[d].job in s.jobs
    ensures Next(s, step).dlq[d].queue == s.jobs[Next(s, step).dlq[d].job].queue
    ensures if d in s.dlq then Next(s, step).dlq[d].job == s.dlq[d].job
      else && step.Fail? && d == step.newId && Next(s, step).dlq[d].job == s.live[step.t].job
           && DlqOf(s.dlq, s.live[step.t].job) == {}
  {
    hide Next, Enabled;
    if step.Fail? {
      FailureLeavesEntry(s, step.t, step.retryAt, step.newId, d);
    } else {
      EntryRemains(s, step, d);
    }
    JobsStay(s, step, Next(s, step).dlq[d].job);
  }

  lemma EntriesUnique(s: Db, step: Step, d: DlqId, d': DlqId)
    requires KeysOk(s) && DlqOk(s) && Enabled(s, step)
    requires d in Next(s, step).dlq && d' in Next(s, step).dlq && Next(s, step).dlq[d].job == Next(s, step).dlq[d'].job
    ensures d == d'
  {
    var s' := Next(s, step);
    hide Next;
    NextEntry(s, step, d);
    NextEntry(s, step, d');
    var id := s'.dlq[d].job;
    assert d in s.dlq ==> d in DlqOf(s.dlq, id);
    assert d' in s.dlq ==> d' in DlqOf(s.dlq, id);
  }

  lemma FailureUnresolved(s: Db, t: Token, retryAt: Time, newId: DlqId, d: DlqId)
    requires KeysOk(s) && Enabled(s, Fail(t, retryAt, newId)) && Unresolved(Next(s, Fail(t, retryAt, newId)), d)
    ensures var s' := Next(s, Fail(t, retryAt, newId));
      || (s'.dlq[d].job == s.live[t].job && s.live[t].seen + 1 >= s.live[t].maxAttempts)
      || (Unresolved(s, d) && s.dlq[d].job == s'.dlq[d].job)
  {
  }

  lemma WrittenUnresolved(s: Db, step: Step, d: DlqId)
    requires Enabled(s, step) && WritesDlq(step) && !step.Fail? && Unresolved(Next(s, step), d)
    ensures Unresolved(s, d) && s.dlq[d].job == Next(s, step).dlq[d].job
    ensures step != RetryJob(s.dlq[d].job) && !(step.RetryDead? && step.d == d)
    ensures !(step.RetryAllDead? && d in step.entries)
  {
    hide DepsCompleted, Claimable, Stuck;
  }

  /** Where an unresolved entry comes from. */
  lemma NextUnresolved(s: Db, step: Step, d: DlqId)
    requires KeysOk(s) && DlqOk(s) && Enabled(s, step) && Unresolved(Next(s, step), d)
    ensures || (step.Fail? && Next(s, step).dlq[d].job == s.live[step.t].job
                && s.live[step.t].seen + 1 >= s.live[step.t].maxAttempts)
            || (&& Unresolved(s, d) && s.dlq[d].job == Next(s, step).dlq[d].job
                && step != RetryJob(s.dlq[d].job) && !(step.RetryDead? && step.d == d)
                && !(step.RetryAllDead? && d in step.entries))
  {
    hide Next, Enabled, KeysOk, DlqOk;
    if step.Fail? {
      FailureUnresolved(s, step.t, step.retryAt, step.newId, d);
    } else if WritesDlq(step) {
      WrittenUnresolved(s, step, d);
    } else {
      DlqUntouched(s, step);
    }
  }

  lemma UnresolvedIsDead(s: Db, step: Step, d: DlqId)
    requires RowsOk(s) && LeasesOk(s) && KeysOk(s) && DlqOk(s) && Enabled(s, step) && Timely(s, step)
    requires step.RetryDead? ==> step.id in s.jobs ==> NoOtherEntry(s, step.d, step.id)
    requires Unresolved(Next(s, step), d) && Next(s, step).dlq[d].job in Next(s, step).jobs
    ensures Next(s, step).jobs[Next(s, step).dlq[d].job].status == Dead
  {
    var s' := Next(s, step);
    var id := s'.dlq[d].job;
    hide Next;
    NextEntry(s, step, d);
    NextUnresolved(s, step, d);
    NextRow(s, step, id);
    assert id in s.issued;
    if Unresolved(s, d) && s.dlq[d].job == id && step != RetryJob(id) && !(step.RetryDead? && step.d == d)
      && !(step.RetryAllDead? && d in step.entries)
    {
      DeadRowStays(s, step, d);
    }
  }

  lemma DeadRowStays(s: Db, step: Step, d: DlqId)
    requires RowsOk(s) && LeasesOk(s) && DlqOk(s) && Enabled(s, step) && Timely(s, step)
    requires Unresolved(s, d) && s.dlq[d].job in s.jobs
    requires step.RetryDead? ==> step.id in s.jobs ==> NoOtherEntry(s, step.d, step.id)
    requires step != RetryJob(s.dlq[d].job) && !(step.RetryDead? && step.d == d)
    requires !(step.RetryAllDead? && d in step.entries)
    ensures RowAfter(s, step, s.dlq[d].job).status == Dead
  {
    OtherEntries(s, step, d);
    hide DepsCompleted, DepFailed;
    if Writer(step).Some? && !step.Release? {
      WriterHolds(s, step);
    }
  }

  /** A retry of other entries is a retry of other jobs. */
  lemma OtherEntries(s: Db, step: Step, d: DlqId)
    requires DlqOk(s) && Enabled(s, step) && Unresolved(s, d)
    requires !(step.RetryAllDead? && d in step.entries)
    ensures step.RetryAllDead? ==> s.dlq[d].job !in JobsOf(s.dlq, step.entries)
  {
    if step.RetryAllDead? {
      forall e | e in step.entries && e in s.dlq
        ensures s.dlq[e].job != s.dlq[d].job
      {
        assert e != d;
      }
    }
  }

  lemma DeadHasEntry(s: Db, step: Step, id: JobId)
    requires RowsOk(s) && LeasesOk(s) && KeysOk(s) && DlqOk(s) && Enabled(s, step) && Timely(s, step)
    requires id in Next(s, step).jobs && Next(s, step).jobs[id].status == Dead
    ensures DlqOf(Next(s, step).dlq, id) != {}
  {
    hide Next;
    NextRow(s, step, id);
    if s.jobs[id].status == Dead {
      var d :| d in DlqOf(s.dlq, id);
      EntryStays(s, step, d);
      assert d in DlqOf(Next(s, step).dlq, id);
    } else {
      FailureEntry(s, step, id);
    }
  }

  lemma EntryStays(s: Db, step: Step, d: DlqId)
    requires Enabled(s, step) && d in s.dlq
    requires step != RetryJob(s.dlq[d].job)
    requires !(step.Delete? && s.dlq[d].job in step.ids)
    ensures d in Next(s, step).dlq && Next(s, step).dlq[d].job == s.dlq[d].job
  {
    if !WritesDlq(step) {
      DlqUntouched(s, step);
      hide Next;
    }
  }

  lemma FailureEntry(s: Db, step: Step, id: JobId)
    requires Enabled(s, step) && id in s.jobs && s.jobs[id].status != Dead
    requires RowAfter(s, step, id).status == Dead
    ensures DlqOf(Next(s, step).dlq, id) != {}
  {
    assert step.Fail? && s.live[step.t].job == id;
    if DlqOf(s.dlq, id) == {} {
      assert step.newId in DlqOf(Next(s, step).dlq, id);
    } else {
      var d :| d in DlqOf(s.dlq, id);
      assert d in DlqOf(Next(s, step).dlq, id);
    }
  }

  lemma DlqKept(s: Db, step: Step)
    requires RowsOk(s) && LeasesOk(s) && KeysOk(s) && DlqOk(s) && Enabled(s, step) && Timely(s, step)
    requires step.RetryDead? ==> step.id in s.jobs ==> NoOtherEntry(s, step.d, step.id)
    ensures DlqOk(Next(s, step))
  {
    var s' := Next(s, step);
    forall d, d' | d in s'.dlq && d' in s'.dlq && s'.dlq[d].job == s'.dlq[d'].job
      ensures d == d'
    {
      EntriesUnique(s, step, d, d');
    }
    forall d | Unresolved(s', d) && s'.dlq[d].job in s'.jobs
      ensures s'.jobs[s'.dlq[d].job].status == Dead
    {
      UnresolvedIsDead(s, step, d);
    }
    forall id | id in s'.jobs && s'.jobs[id].status == Dead
      ensures DlqOf(s'.dlq, id) != {}
    {
      DeadHasEntry(s, step, id);
    }
  }

  // ---------- Every step, every run ----------

  lemma InvKept(s: Db, step: Step)
    requires Inv(s) && Enabled(s, step) && Orderly(s, step)
    ensures Inv(Next(s, step))
  {
    assert step.RetryDead? && step.id !in s.jobs ==> NoSettledDependent(s, step.id);
    hide RowsOk, LeasesOk, AttemptsOk, KeysOk, DepsOk, DlqOk, DepsRanked, Enabled, Next, Timely, NoOtherEntry,
      NoSettledDependent;
    RowsKept(s, step);
    LeasesKept(s, step);
    AttemptsKept(s, step);
    KeysKept(s, step);
    DepsKept(s, step);
    DlqKept(s, step);
    RankedKept(s, step);
  }

  lemma EmptyInv()
    ensures Inv(EMPTY)
  {
    assert Ranks<JobId>({}, map[]);
  }

  lemma {:induction false} InvAlways(s: Db, steps: seq<Step>)
    requires Inv(s) && IsRun(s, steps) && Throughout(s, steps, Orderly)
    ensures Inv(After(s, steps))
    decreases |steps|
  {
    hide Inv, Orderly;
    if steps != [] {
      InvKept(s, steps[0]);
      InvAlways(Next(s, steps[0]), steps[1..]);
    }
  }

  /** A release, timely or not, keeps the invariant exactly when it spares the others. */
  lemma ReleaseKeepsInvIff(s: Db, step: Step)
    requires Inv(s) && Enabled(s, step) && step.Release?
    ensures LeasesOk(Next(s, step)) <==> ReleaseSpares(s, step)
    ensures Inv(Next(s, step)) <==> ReleaseSpares(s, step)
  {
    if ReleaseSpares(s, step) {
      InvKept(s, step);
    } else {
      var id := s.live[step.t].job;
      var u :| WritableBy(s, u, id) && u != step.t;
      assert u in Next(s, step).live && !LeaseOkAt(Next(s, step), u);
    }
  }

  /** Requeueing a job by its id, whatever became of the entry read before, keeps each part of the invariant exactly
      when it spares what that part is about. */
  lemma RetryKeepsInvIff(s: Db, step: Step)
    requires Inv(s) && step.RetryDead? && step.id in s.jobs
    ensures LeasesOk(Next(s, step)) <==> NoWriter(s, step.id)
    ensures DepsOk(Next(s, step)) <==> NoSettledDependent(s, step.id)
    ensures DlqOk(Next(s, step)) <==> NoOtherEntry(s, step.d, step.id)
    ensures Inv(Next(s, step)) <==> RetrySpares(s, step)
  {
    RetryKeepsLeasesIff(s, step);
    RetryKeepsDepsIff(s, step);
    RetryKeepsEntriesIff(s, step);
    if RetrySpares(s, step) {
      InvKept(s, step);
    }
    hide RowsOk, LeasesOk, AttemptsOk, KeysOk, DepsOk, DlqOk, DepsRanked, NoWriter, NoSettledDependent, NoOtherEntry,
      Next;
  }

  lemma RetryKeepsLeasesIff(s: Db, step: Step)
    requires LeasesOk(s) && step.RetryDead? && step.id in s.jobs
    ensures LeasesOk(Next(s, step)) <==> NoWriter(s, step.id)
  {
    var s' := Next(s, step);
    forall t | t in s.live
      ensures LeaseOkAt(s', t) <==> !WritableBy(s, t, step.id)
    {
      assert LeaseOkAt(s, t);
    }
    assert forall t :: WritableBy(s, t, step.id) ==> t in s.live;
    if !NoWriter(s, step.id) {
      var u :| WritableBy(s, u, step.id);
      assert u in s'.live && !LeaseOkAt(s', u);
    }
  }

  lemma RetryKeepsDepsIff(s: Db, step: Step)
    requires Inv(s) && step.RetryDead? && step.id in s.jobs
    ensures DepsOk(Next(s, step)) <==> NoSettledDependent(s, step.id)
  {
    var s' := Next(s, step);
    if NoSettledDependent(s, step.id) {
      DepsKept(s, step);
    } else {
      var e :| e in s.deps && e.1 == step.id && e.0 != step.id && e.0 in s.jobs && Settled(s.jobs[e.0].status);
      assert e in s'.deps && s'.jobs[e.0] == s.jobs[e.0] && s'.jobs[e.1].status == Queued;
    }
  }

  lemma RetryKeepsEntriesIff(s: Db, step: Step)
    requires Inv(s) && step.RetryDead? && step.id in s.jobs
    ensures DlqOk(Next(s, step)) <==> NoOtherEntry(s, step.d, step.id)
  {
    if NoOtherEntry(s, step.d, step.id) {
      DlqKept(s, step);
    } else {
      var other :| Unresolved(s, other) && s.dlq[other].job == step.id && other != step.d;
      assert Unresolved(Next(s, step), other) && Next(s, step).dlq[other].job == step.id;
    }
  }

  /** Done in the instant the entry is read, the retry spares everyone. */
  lemma FreshRetrySpares(s: Db, d: DlqId)
    requires Inv(s) && Unresolved(s, d)
    ensures s.dlq[d].job in s.jobs && Orderly(s, RetryDead(d, s.dlq[d].job))
  {
    var id := s.dlq[d].job;
    assert s.jobs[id].status == Dead;
    forall u
      ensures !WritableBy(s, u, id)
    {
      assert u in s.live ==> LeaseOkAt(s, u);
    }
    assert NoSettledDependent(s, id) && NoOtherEntry(s, d, id);
  }

  lemma AlwaysFirst(s: Db, steps: seq<Step>, p: Db -> bool)
    requires IsRun(s, steps) && Always(s, steps, p)
    ensures p(s)
  {
  }

  lemma {:induction false} AlwaysLast(s: Db, steps: seq<Step>, p: Db -> bool)
    requires IsRun(s, steps) && Always(s, steps, p)
    ensures p(After(s, steps))
    decreases |steps|
  {
    if steps != [] {
      AlwaysLast(Next(s, steps[0]), steps[1..], p);
    }
  }

  /** With timely starts, the invariant holds in every state of a run exactly when every release and every dead-letter
      retry in it spares the others. */
  lemma {:induction false} InvIffOrderly(s: Db, steps: seq<Step>)
    requires Inv(s) && IsRun(s, steps) && Throughout(s, steps, Timely)
    ensures Always(s, steps, Inv) <==> Throughout(s, steps, Orderly)
    decreases |steps|
  {
    hide Inv, Orderly, Timely, Enabled, Next;
    if steps != [] {
      KeepsInvIff(s, steps[0]);
      if Orderly(s, steps[0]) {
        InvIffOrderly(Next(s, steps[0]), steps[1..]);
      } else if Always(s, steps, Inv) {
        AlwaysFirst(Next(s, steps[0]), steps[1..], Inv);
      }
    }
  }

  lemma KeepsInvIff(s: Db, step: Step)
    requires Inv(s) && Enabled(s, step) && Timely(s, step)
    ensures Inv(Next(s, step)) <==> Orderly(s, step)
  {
    if step.Release? {
      ReleaseKeepsInvIff(s, step);
    } else if step.RetryDead? && step.id in s.jobs {
      RetryKeepsInvIff(s, step);
    } else {
      InvKept(s, step);
    }
    hide Inv, Next, Enabled;
  }

  /** With timely starts and dead-letter retries that spare the others, the leases hold in every state exactly when
      every release spares the others. */
  lemma {:induction false} LeasesIffReleasesSpare(s: Db, steps: seq<Step>)
    requires Inv(s) && IsRun(s, steps) && Throughout(s, steps, Timely) && Throughout(s, steps, RetrySpares)
    ensures Always(s, steps, LeasesOk) <==> Throughout(s, steps, ReleaseSpares)
    decreases |steps|
  {
    hide Timely, Enabled, Next, RetrySpares, ReleaseSpares, LeasesOk, RowsOk, AttemptsOk, KeysOk, DepsOk, DlqOk,
      DepsRanked;
    if steps != [] {
      if ReleaseSpares(s, steps[0]) {
        InvKept(s, steps[0]);
        LeasesIffReleasesSpare(Next(s, steps[0]), steps[1..]);
      } else {
        OnlyReleases(s, steps[0]);
        ReleaseKeepsInvIff(s, steps[0]);
        if Always(s, steps, LeasesOk) {
          AlwaysFirst(Next(s, steps[0]), steps[1..], LeasesOk);
        }
      }
    }
  }

  lemma OnlyReleases(s: Db, step: Step)
    requires !ReleaseSpares(s, step)
    ensures step.Release?
  {
  }

  // ---------- Without any assumption on time ----------

  lemma StartKeepsRowsIff(s: Db, t: Token)
    requires RowsOk(s) && Enabled(s, Start(t)) && s.live[t].job in s.jobs
    ensures var j := s.jobs[s.live[t].job]; RowsOk(Next(s, Start(t))) <==> j.attempts < j.maxAttempts + j.reclaims
  {
    var s', id := Next(s, Start(t)), s.live[t].job;
    assert RowOk(s.jobs[id]);
    assert s'.jobs[id] == SetRunning(s.jobs[id], s.live[t].worker, t, s.now);
  }

  lemma StartKeepsLeasesIff(s: Db, t: Token)
    requires LeasesOk(s) && AttemptsOk(s) && Enabled(s, Start(t)) && s.live[t].job in s.jobs
    ensures LeasesOk(Next(s, Start(t))) <==>
      && Remembers(s.live[t], s.jobs[s.live[t].job])
      && forall u :: WritableBy(s, u, s.live[t].job) ==> u == t
  {
    var s', id := Next(s, Start(t)), s.live[t].job;
    assert LeaseOkAt(s', t) <==> Remembers(s.live[t], s.jobs[id]);
    forall u | u in s.live && u != t
      ensures LeaseOkAt(s', u) <==> !WritableBy(s, u, id)
    {
      assert LeaseOkAt(s, u);
    }
    assert s'.live.Keys == s.live.Keys;
  }

  lemma StartKeepsDepsIff(s: Db, t: Token)
    requires KeysOk(s) && DepsOk(s) && DepsRanked(s) && Enabled(s, Start(t)) && s.live[t].job in s.jobs
    ensures DepsOk(Next(s, Start(t))) <==>
      DepsCompleted(s.jobs, s.deps, s.live[t].job) && NoSettledDependent(s, s.live[t].job)
  {
    var s', id := Next(s, Start(t)), s.live[t].job;
    var rank :| Ranks(s.deps, rank);
    assert s'.jobs[id].status == Running;
    if DepsOk(s') {
      forall e | e in s.deps && e.0 == id && e.1 in s.jobs
        ensures s.jobs[e.1].status == Completed
      {
        assert e.1 != id;
      }
      forall e | e in s.deps && e.1 == id && e.0 != id && e.0 in s.jobs
        ensures !Settled(s.jobs[e.0].status)
      {
      }
    }
  }

  lemma StartKeepsEntriesIff(s: Db, t: Token)
    requires KeysOk(s) && DlqOk(s) && Enabled(s, Start(t)) && s.live[t].job in s.jobs
    ensures DlqOk(Next(s, Start(t))) <==> forall d :: Unresolved(s, d) ==> s.dlq[d].job != s.live[t].job
  {
    var s', id := Next(s, Start(t)), s.live[t].job;
    assert s'.dlq == s.dlq && s'.jobs[id].status == Running;
    assert forall d :: Unresolved(s', d) <==> Unresolved(s, d);
  }

  /** A start, timely or not, keeps the invariant exactly when it spares the others. */
  lemma StartKeepsInvIff(s: Db, t: Token)
    requires Inv(s) && Enabled(s, Start(t))
    ensures Inv(Next(s, Start(t))) <==> StartSpares(s, Start(t))
  {
    AttemptsKept(s, Start(t));
    KeysKept(s, Start(t));
    RankedKept(s, Start(t));
    if s.live[t].job in s.jobs {
      StartKeepsRowsIff(s, t);
      StartKeepsLeasesIff(s, t);
      StartKeepsDepsIff(s, t);
      StartKeepsEntriesIff(s, t);
      hide RowsOk, LeasesOk, AttemptsOk, KeysOk, DepsOk, DlqOk, DepsRanked, Next, NoSettledDependent, DepsCompleted;
    } else {
      StartOfDeleted(s, t);
    }
  }

  lemma StartOfDeleted(s: Db, t: Token)
    requires Inv(s) && Enabled(s, Start(t)) && s.live[t].job !in s.jobs
    ensures var s' := Next(s, Start(t)); RowsOk(s') && LeasesOk(s') && DepsOk(s') && DlqOk(s')
  {
    var s' := Next(s, Start(t));
    assert s'.jobs == s.jobs && s'.dlq == s.dlq && s'.deps == s.deps;
    forall u | u in s'.live
      ensures LeaseOkAt(s', u)
    {
      assert LeaseOkAt(s, u);
    }
    assert forall d :: Unresolved(s', d) <==> Unresolved(s, d);
  }

  /** A timely start spares everyone by itself. */
  lemma TimelyStartSpares(s: Db, t: Token)
    requires Inv(s) && Enabled(s, Start(t)) && Timely(s, Start(t))
    ensures StartSpares(s, Start(t))
  {
    InvKept(s, Start(t));
    StartKeepsInvIff(s, t);
  }

  lemma KeepsInvIffSparing(s: Db, step: Step)
    requires Inv(s) && Enabled(s, step)
    ensures Inv(Next(s, step)) <==> Sparing(s, step)
  {
    if step.Start? {
      StartKeepsInvIff(s, step.t);
    } else {
      KeepsInvIff(s, step);
    }
    hide Inv, Next, Enabled;
  }

  /** Over any run at all: the invariant holds in every state exactly when every start, release and dead-letter retry
      spares the others. */
  lemma {:induction false} InvIffSparing(s: Db, steps: seq<Step>)
    requires Inv(s) && IsRun(s, steps)
    ensures Always(s, steps, Inv) <==> Throughout(s, steps, Sparing)
    decreases |steps|
  {
    hide Inv, Sparing, Enabled, Next;
    if steps != [] {
      KeepsInvIffSparing(s, steps[0]);
      if Sparing(s, steps[0]) {
        InvIffSparing(Next(s, steps[0]), steps[1..]);
      } else if Always(s, steps, Inv) {
        AlwaysFirst(Next(s, steps[0]), steps[1..], Inv);
      }
    }
  }

  /** Orderly runs are among them. */
  lemma {:induction false} OrderlyIsSparing(s: Db, steps: seq<Step>)
    requires Inv(s) && IsRun(s, steps) && Throughout(s, steps, Orderly)
    ensures Throughout(s, steps, Sparing)
    decreases |steps|
  {
    hide Inv, Orderly, Sparing, Enabled, Next;
    if steps != [] {
      InvKept(s, steps[0]);
      KeepsInvIffSparing(s, steps[0]);
      OrderlyIsSparing(Next(s, steps[0]), steps[1..]);
    }
  }
}
