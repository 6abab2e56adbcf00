/** What the job lifecycle guarantees in every state a sparing run can reach. */
module Guarantees {
  import opened Wrappers
  import opened Acyclicity
  import opened JobStore
  import opened Lifecycle

  /** By a run in which no start, release or dead-letter retry hurts anyone; every orderly run is one. */
  ghost predicate Reachable(s: Db)
  {
    exists steps :: IsRun(EMPTY, steps) && Throughout(EMPTY, steps, Sparing) && s == After(EMPTY, steps)
  }

  lemma ReachableInv(s: Db)
    requires Reachable(s)
    ensures Inv(s)
  {
    var steps :| IsRun(EMPTY, steps) && Throughout(EMPTY, steps, Sparing) && s == After(EMPTY, steps);
    EmptyInv();
    InvIffSparing(EMPTY, steps);
    AlwaysLast(EMPTY, steps, Inv);
  }

  // ---------- Leases ----------

  /** At most one attempt can write a job's row, and while it can, the row says so. */
  lemma LeaseExclusivity(s: Db, t: Token, u: Token)
    requires Reachable(s)
    requires CanWrite(s, t) && CanWrite(s, u)
    requires s.live[t].job == s.live[u].job && s.live[t].job in s.jobs
    ensures t == u
    ensures s.jobs[s.live[t].job].claimedBy == Some(s.live[t].worker)
    ensures s.jobs[s.live[t].job].status == if s.live[t].phase.Executing? then Running else Claimed
  {
    ReachableInv(s);
    assert LeaseOkAt(s, t) && LeaseOkAt(s, u);
  }

  lemma ClaimedByTracksStatus(s: Db, id: JobId)
    requires Reachable(s) && id in s.jobs
    ensures s.jobs[id].claimedBy.Some? <==> s.jobs[id].status in {Claimed, Running}
  {
    ReachableInv(s);
    assert RowOk(s.jobs[id]);
  }

  /** Every finish finds its job running under its own worker, with the attempt count it expects. */
  lemma FinishFindsItsOwnJob(s: Db, step: Step)
    requires Reachable(s) && Enabled(s, step) && (step.Succeed? || step.Fail?)
    requires s.live[step.t].job in s.jobs
    ensures var j, a := s.jobs[s.live[step.t].job], s.live[step.t];
      && j.status == Running && j.claimedBy == Some(a.worker) && j.holder == step.t
      && j.attempts == a.seen + 1 && j.maxAttempts == a.maxAttempts && j.cron == a.cron
  {
    ReachableInv(s);
    WriterHolds(s, step);
  }

  /** The stuck-job sweep never takes a job whose attempt can still write. */
  lemma ReclaimSparesWriters(s: Db, id: JobId, t: Token)
    requires Reachable(s) && Stuck(s, id)
    requires t in s.live && s.live[t].job == id
    ensures !CanWrite(s, t)
  {
    ReachableInv(s);
    assert LeaseOkAt(s, t);
  }

  /** While an attempt can write a job's row, nobody else changes that row. */
  lemma OnlyTheHolderWrites(s: Db, step: Step, t: Token)
    requires Reachable(s) && Enabled(s, step) && Orderly(s, step)
    requires CanWrite(s, t) && Writer(step) != Some(t)
    requires s.live[t].job in s.jobs && s.live[t].job in Next(s, step).jobs
    ensures Next(s, step).jobs[s.live[t].job] == s.jobs[s.live[t].job]
  {
    ReachableInv(s);
    HeldRowUntouched(s, step, t);
    NextRow(s, step, s.live[t].job);
    assert s.live[t].job in s.issued;
  }

  /** A release that reaches the database within the grace period of its claim spares the others by itself. */
  lemma TimelyReleaseSpares(s: Db, t: Token)
    requires Reachable(s) && Enabled(s, Release(t)) && s.now <= s.live[t].claimedAt + GRACE
    ensures ReleaseSpares(s, Release(t))
  {
    ReachableInv(s);
    forall u | WritableBy(s, u, s.live[t].job) && s.live[t].job in s.jobs
      ensures u == t
    {
      assert LeaseOkAt(s, t) && LeaseOkAt(s, u);
    }
  }

  // ---------- Dependencies ----------

  /** A job that is claimed, running, completed, failed or dead has all its surviving dependencies completed. */
  lemma DependencySafety(s: Db, job: JobId, parent: JobId)
    requires Reachable(s) && (job, parent) in s.deps
    ensures job in s.jobs && parent in s.jobs
    ensures Settled(s.jobs[job].status) ==> s.jobs[parent].status == Completed
  {
    ReachableInv(s);
    assert (job, parent).0 in s.jobs && (job, parent).1 in s.jobs;
  }

  ghost predicate CompletedIfThere(s: Db, id: JobId)
  {
    id in s.jobs ==> s.jobs[id].status == Completed
  }

  /** A dead-letter retry for the job. On a completed job it is always stale: no unresolved entry names one. */
  ghost predicate NotRetried(s: Db, step: Step, id: JobId)
  {
    !(step.RetryDead? && step.id == id && id in s.jobs)
  }

  lemma CompletedStep(s: Db, step: Step, id: JobId)
    requires Inv(s) && Enabled(s, step) && Orderly(s, step) && id in s.issued && CompletedIfThere(s, id)
    ensures id in Next(s, step).issued && (id in Next(s, step).jobs ==> id in s.jobs)
    ensures CompletedIfThere(Next(s, step), id) <==> NotRetried(s, step, id)
    ensures id !in s.jobs ==> NotRetried(s, step, id)
  {
    IssuedGrows(s, step);
    if id in Next(s, step).jobs {
      NextRow(s, step, id);
      if id in s.jobs {
        RowMoves(s, step, id);
      }
    }
    hide Inv, Next, Enabled, Orderly, RowOk, DepsCompleted;
    if step.RetryDead? && step.id == id && id in s.jobs {
      RetriedIsQueued(s, step);
    }
  }

  lemma RetriedIsQueued(s: Db, step: Step)
    requires step.RetryDead? && step.id in s.jobs
    ensures step.id in Next(s, step).jobs && Next(s, step).jobs[step.id].status == Queued
  {
  }

  /** A completed job stays completed until it is deleted, exactly as long as no stale dead-letter retry names it; and a
      deleted id never comes back. */
  lemma {:induction false} CompletedUntilDeletedIff(s: Db, steps: seq<Step>, id: JobId)
    requires Inv(s) && IsRun(s, steps) && Throughout(s, steps, Orderly)
    requires id in s.issued && CompletedIfThere(s, id)
    ensures Always(s, steps, (t: Db) => CompletedIfThere(t, id))
       <==> Throughout(s, steps, (t: Db, step: Step) => NotRetried(t, step, id))
    ensures id !in s.jobs ==> id !in After(s, steps).jobs
    decreases |steps|
  {
    hide Inv, Enabled, Next, Orderly, CompletedIfThere, NotRetried;
    if steps != [] {
      InvKept(s, steps[0]);
      CompletedStep(s, steps[0], id);
      if NotRetried(s, steps[0], id) {
        CompletedUntilDeletedIff(Next(s, steps[0]), steps[1..], id);
      }
    }
  }

  lemma {:induction false} KeysAndRanksAlways(s: Db, steps: seq<Step>)
    requires KeysOk(s) && DepsRanked(s) && IsRun(s, steps)
    ensures KeysOk(After(s, steps)) && DepsRanked(After(s, steps))
    decreases |steps|
  {
    hide KeysOk, DepsRanked, Enabled, Next;
    if steps != [] {
      KeysKept(s, steps[0]);
      RankedKept(s, steps[0]);
      KeysAndRanksAlways(Next(s, steps[0]), steps[1..]);
    }
  }

  /** Over any run at all, however late its writes: the dependency table is acyclic and names only stored jobs. */
  lemma DependencyTableAcyclic(steps: seq<Step>)
    requires IsRun(EMPTY, steps)
    ensures Acyclic(After(EMPTY, steps).deps)
    ensures forall e :: e in After(EMPTY, steps).deps ==>
      e.0 in After(EMPTY, steps).jobs && e.1 in After(EMPTY, steps).jobs
  {
    EmptyInv();
    KeysAndRanksAlways(EMPTY, steps);
    hide IsRun, After;
    var rank :| Ranks(After(EMPTY, steps).deps, rank);
    RankedIsAcyclic(After(EMPTY, steps).deps, rank);
  }

  /** A cron job never completes, so a job that depends on one is never claimed while the cron job is stored. */
  lemma DependentsOfCronWait(s: Db, job: JobId, parent: JobId)
    requires Reachable(s) && (job, parent) in s.deps && parent in s.jobs && s.jobs[parent].cron.Some?
    ensures job in s.jobs && !Settled(s.jobs[job].status)
  {
    DependencySafety(s, job, parent);
    ReachableInv(s);
    assert RowOk(s.jobs[parent]);
  }

  // ---------- Dead letters ----------

  lemma DeadLetterAgreement(s: Db)
    requires Reachable(s)
    ensures forall d, d' :: d in s.dlq && d' in s.dlq && s.dlq[d].job == s.dlq[d'].job ==> d == d'
    ensures forall d :: d in s.dlq ==> s.dlq[d].job in s.jobs
    ensures forall id :: id in s.jobs && s.jobs[id].status == Dead ==> exists d :: d in s.dlq && s.dlq[d].job == id
    ensures forall d :: Unresolved(s, d) ==> s.jobs[s.dlq[d].job].status == Dead
  {
    ReachableInv(s);
    forall id | id in s.jobs && s.jobs[id].status == Dead
      ensures exists d :: d in s.dlq && s.dlq[d].job == id
    {
      var d :| d in DlqOf(s.dlq, id);
    }
  }

  // ---------- Cron ----------

  /** The sweep's cron statement has nothing to do: a cron job is armed when it is created for later and again
      whenever it succeeds, and it never completes. */
  lemma CronSweepIsIdle(s: Db, id: JobId)
    requires Reachable(s)
    ensures !CronPending(s, id)
    ensures id in s.jobs && s.jobs[id].cron.Some? ==>
      s.jobs[id].status != Completed && (s.jobs[id].status == Scheduled ==> s.jobs[id].nextRunAt.Some?)
  {
    ReachableInv(s);
    NoCronPending(s);
    assert id in s.jobs ==> RowOk(s.jobs[id]);
  }

  // ---------- Attempts ----------

  lemma AttemptsBounded(s: Db, id: JobId)
    requires Reachable(s) && id in s.jobs
    ensures s.jobs[id].attempts <= s.jobs[id].maxAttempts + s.jobs[id].reclaims
  {
    ReachableInv(s);
    assert RowOk(s.jobs[id]);
  }

  /** A failure requeues exactly when the stored count is below the limit, and is final otherwise. */
  lemma FailureRequeuesBelowLimit(s: Db, step: Step)
    requires Reachable(s) && Enabled(s, step) && step.Fail? && s.live[step.t].job in s.jobs
    ensures var id := s.live[step.t].job;
      Next(s, step).jobs[id].status == if s.jobs[id].attempts < s.jobs[id].maxAttempts then Queued else Dead
  {
    FinishFindsItsOwnJob(s, step);
  }

  /** The step puts the attempt count of `id` back to zero. */
  predicate Resets(s: Db, step: Step, id: JobId)
  {
    match step
    case Succeed(t, next) => t in s.live && s.live[t].job == id && s.live[t].cron.Some? && next.Some?
    case RetryJob(r) => r == id
    case RetryDead(_, r) => r == id
    case RetryAllDead(entries) => id in JobsOf(s.dlq, entries)
    case _ => false
  }

  predicate Starts(s: Db, step: Step, id: JobId)
  {
    step.Start? && step.t in s.live && s.live[step.t].job == id
  }

  predicate ReclaimsRunning(s: Db, step: Step, id: JobId)
  {
    step.Reclaim? && id in step.stuck && id in s.jobs && s.jobs[id].status == Running
  }

  /** How often `id` is started, and reclaimed while running, along a run that neither resets nor deletes it. */
  ghost function Tally(s: Db, steps: seq<Step>, id: JobId): (r: (nat, nat))
    requires IsRun(s, steps)
    decreases |steps|
  {
    if steps == [] then (0, 0) else
      var rest := Tally(Next(s, steps[0]), steps[1..], id);
      (rest.0 + (if Starts(s, steps[0], id) then 1 else 0),
       rest.1 + (if ReclaimsRunning(s, steps[0], id) then 1 else 0))
  }

  ghost predicate Undisturbed(s: Db, steps: seq<Step>, id: JobId)
    requires IsRun(s, steps)
    decreases |steps|
  {
    && id in s.jobs
    && (steps == [] || (!Resets(s, steps[0], id) && Undisturbed(Next(s, steps[0]), steps[1..], id)))
  }

  lemma CountsMove(s: Db, step: Step, id: JobId)
    requires KeysOk(s) && Enabled(s, step) && id in s.jobs && id in Next(s, step).jobs && !Resets(s, step, id)
    ensures Next(s, step).jobs[id].attempts == s.jobs[id].attempts + if Starts(s, step, id) then 1 else 0
    ensures Next(s, step).jobs[id].reclaims == s.jobs[id].reclaims + if ReclaimsRunning(s, step, id) then 1 else 0
    ensures Next(s, step).jobs[id].maxAttempts == s.jobs[id].maxAttempts
  {
    NextRow(s, step, id);
    assert id in s.issued;
    hide Next;
  }

  /** Between resets the stored count is the number of starts, so a job is started at most max_attempts times,
      and once more for every time it was reclaimed while running. */
  lemma {:induction false} StartsBounded(s: Db, steps: seq<Step>, id: JobId)
    requires Inv(s) && IsRun(s, steps) && Throughout(s, steps, Sparing) && Undisturbed(s, steps, id)
    ensures id in After(s, steps).jobs
    ensures s.jobs[id].attempts + Tally(s, steps, id).0 == After(s, steps).jobs[id].attempts
    ensures s.jobs[id].attempts + Tally(s, steps, id).0
         <= s.jobs[id].maxAttempts + s.jobs[id].reclaims + Tally(s, steps, id).1
    decreases |steps|
  {
    assert RowOk(s.jobs[id]);
    if steps != [] {
      KeepsInvIffSparing(s, steps[0]);
      CountsMove(s, steps[0], id);
      hide Inv, Enabled, Next, Sparing;
      StartsBounded(Next(s, steps[0]), steps[1..], id);
    }
  }
}
