/** The shared tables, and each statement or handler write group over them as one atomic step
    (db/migrations, worker/internal/poller/poller.go, worker/internal/executor/executor.go,
    api/internal/handler/job.go, api/internal/handler/dlq.go). */
module JobStore {
  import opened Wrappers

  type JobId = string
  type QueueId = string
  type WorkerId = string
  type DlqId = nat
  type Token = nat
  type Time = int

  /** PostgreSQL timestamps count microseconds. */
  const SECOND: Time := 1_000_000

  /** reclaimGracePeriod. */
  const GRACE: Time := 60 * SECOND

  datatype Status = Queued | Scheduled | Claimed | Running | Completed | Failed | Cancelled | Dead | Blocked

  /** A row of `jobs`. The last two fields are history, written but never read by a step: which attempt last
      took the row, and how many times it was reclaimed from `running` since its attempts were last reset. */
  datatype Job = Job(
    queue: QueueId, jobType: string, priority: int, shard: nat, maxAttempts: int, timeoutSecs: int,
    cron: Option<string>, idempotencyKey: Option<string>,
    status: Status, attempts: int, runAt: Time, nextRunAt: Option<Time>,
    claimedBy: Option<WorkerId>, claimedAt: Option<Time>,
    holder: Token, reclaims: nat)

  /** Waiting for the executor; under its own deadline; past the start UPDATE. */
  datatype Phase = Waiting | Begun(deadline: Time) | Executing(deadline: Time)

  /** A worker goroutine and the row it scanned when it claimed the job. */
  datatype Attempt = Attempt(
    worker: WorkerId, job: JobId, claimedAt: Time,
    seen: int, maxAttempts: int, timeoutSecs: int, cron: Option<string>,
    phase: Phase)

  datatype DlqRow = DlqRow(job: JobId, queue: QueueId, attempts: int, resolved: bool)

  /** `deps` holds (job_id, depends_on_job_id); `issued` every id a job ever had. */
  datatype Db = Db(
    now: Time,
    jobs: map<JobId, Job>,
    deps: set<(JobId, JobId)>,
    dlq: map<DlqId, DlqRow>,
    live: map<Token, Attempt>,
    issued: set<JobId>)

  const EMPTY: Db := Db(0, map[], {}, map[], map[], {})

  // ---------- Predicates of the WHERE clauses ----------

  /** NOT EXISTS a dependency whose parent is not completed. */
  predicate DepsCompleted(jobs: map<JobId, Job>, deps: set<(JobId, JobId)>, id: JobId)
  {
    forall e :: e in deps && e.0 == id && e.1 in jobs ==> jobs[e.1].status == Completed
  }

  /** EXISTS a dependency whose parent is dead or cancelled. */
  predicate DepFailed(jobs: map<JobId, Job>, deps: set<(JobId, JobId)>, id: JobId)
  {
    exists e :: e in deps && e.0 == id && e.1 in jobs && jobs[e.1].status in {Dead, Cancelled}
  }

  predicate Claimable(s: Db, id: JobId)
  {
    id in s.jobs && s.jobs[id].status == Queued && s.jobs[id].runAt <= s.now && DepsCompleted(s.jobs, s.deps, id)
  }

  predicate Due(s: Db, id: JobId)
  {
    id in s.jobs && s.jobs[id].status == Scheduled && s.jobs[id].runAt <= s.now
  }

  predicate Unblockable(s: Db, id: JobId)
  {
    id in s.jobs && s.jobs[id].status == Blocked && DepsCompleted(s.jobs, s.deps, id)
  }

  predicate Unsatisfiable(s: Db, id: JobId)
  {
    id in s.jobs && s.jobs[id].status == Blocked && DepFailed(s.jobs, s.deps, id)
  }

  /** Nothing is left to unblock or cancel. */
  ghost predicate Quiet(s: Db)
  {
    forall id :: !Unblockable(s, id) && !Unsatisfiable(s, id)
  }

  predicate CronPending(s: Db, id: JobId)
  {
    id in s.jobs && s.jobs[id].status in {Completed, Scheduled} && s.jobs[id].cron.Some? && s.jobs[id].nextRunAt.None?
  }

  predicate Stuck(s: Db, id: JobId)
  {
    && id in s.jobs
    && var j := s.jobs[id];
    && j.claimedAt.Some?
    && (|| (j.status == Claimed && j.claimedAt.value < s.now - GRACE)
        || (j.status == Running && j.claimedAt.value < s.now - (j.timeoutSecs * SECOND + GRACE)))
  }

  predicate Unresolved(s: Db, d: DlqId)
  {
    d in s.dlq && !s.dlq[d].resolved
  }

  // ---------- SET clauses ----------

  function SetClaimed(j: Job, worker: WorkerId, t: Token, now: Time): Job
  {
    j.(status := Claimed, claimedBy := Some(worker), claimedAt := Some(now), holder := t)
  }

  function SetRunning(j: Job, worker: WorkerId, t: Token, now: Time): Job
  {
    j.(status := Running, attempts := j.attempts + 1, claimedBy := Some(worker), claimedAt := Some(now), holder := t)
  }

  function SetReleased(j: Job, now: Time): Job
  {
    j.(status := Queued, claimedBy := None, claimedAt := None, runAt := now + 5 * SECOND)
  }

  /** handleSuccess: a plain job completes; a cron job is re-armed, or fails when its expression does not parse. */
  function SetSucceeded(j: Job, cron: Option<string>, next: Option<Time>): Job
  {
    if cron.None? then j.(status := Completed, claimedBy := None)
    else if next.None? then j.(status := Failed, claimedBy := None)
    else j.(status := Scheduled, attempts := 0, reclaims := 0, nextRunAt := next, runAt := next.value,
            claimedBy := None)
  }

  function SetRequeued(j: Job, retryAt: Time): Job
  {
    j.(status := Queued, runAt := retryAt, claimedBy := None)
  }

  function SetDead(j: Job): Job
  {
    j.(status := Dead, claimedBy := None)
  }

  function SetReclaimed(j: Job, now: Time): Job
  {
    j.(status := Queued, claimedBy := None, claimedAt := None, runAt := now,
       reclaims := if j.status == Running then j.reclaims + 1 else j.reclaims)
  }

  function SetArmed(j: Job, next: Option<Time>): Job
  {
    if next.None? then j.(status := Failed)
    else j.(nextRunAt := next, runAt := next.value, status := Scheduled)
  }

  /** The reset every retry performs. RetryAll leaves claimed_at alone, which no step reads on a queued row. */
  function SetReset(j: Job, status: Status, now: Time, clearClaimedAt: bool): Job
  {
    j.(status := status, attempts := 0, reclaims := 0, claimedBy := None,
       claimedAt := if clearClaimedAt then None else j.claimedAt, runAt := now)
  }

  // ---------- Dead-letter rows ----------

  function DlqOf(dlq: map<DlqId, DlqRow>, job: JobId): set<DlqId>
  {
    set d | d in dlq && dlq[d].job == job
  }

  /** INSERT ... ON CONFLICT (job_id) DO UPDATE. */
  function Upsert(dlq: map<DlqId, DlqRow>, newId: DlqId, row: DlqRow): map<DlqId, DlqRow>
  {
    if DlqOf(dlq, row.job) == {} then dlq[newId := row]
    else
      map d | d in dlq ::
        if dlq[d].job == row.job then dlq[d].(attempts := row.attempts, resolved := row.resolved) else dlq[d]
  }

  function Resolve(dlq: map<DlqId, DlqRow>, rows: set<DlqId>): map<DlqId, DlqRow>
  {
    map d | d in dlq :: if d in rows then dlq[d].(resolved := true) else dlq[d]
  }

  /** The jobs behind a set of dead-letter rows. */
  function JobsOf(dlq: map<DlqId, DlqRow>, rows: set<DlqId>): set<JobId>
  {
    set d | d in rows && d in dlq :: dlq[d].job
  }

  // ---------- Steps ----------

  /** What each step chooses beyond the state: `rows` is whatever part of its eligible rows was not locked. */
  datatype Step =
    | Tick(elapsed: nat)
    | Insert(rows: map<JobId, Job>, edges: set<(JobId, JobId)>)
    | Claim(worker: WorkerId, tokens: map<JobId, Token>)
    | Begin(t: Token)
    | Start(t: Token)
    | Release(t: Token)
    | Succeed(t: Token, next: Option<Time>)
    | Fail(t: Token, retryAt: Time, newId: DlqId)
    | Abandon(t: Token)
    | Promote(due: set<JobId>)
    | Unblock(ready: set<JobId>)
    | CancelUnsatisfiable(doomed: set<JobId>)
    | ArmCron(pending: map<JobId, Option<Time>>)
    | Reclaim(stuck: set<JobId>)
    | CancelJob(id: JobId)
    | RetryJob(id: JobId)
    | Delete(ids: set<JobId>)
    | RetryDead(d: DlqId, id: JobId)  // the entry, and the job it named when it was read
    | RetryAllDead(entries: set<DlqId>)
    | Discard(entries: set<DlqId>)

  /** A row as the create handlers insert it. */
  predicate NewRow(j: Job)
  {
    && j.status in {Queued, Scheduled, Blocked}
    && j.maxAttempts >= 1 && j.timeoutSecs >= 1
    && j.attempts == 0 && j.reclaims == 0 && j.claimedBy.None? && j.claimedAt.None?
    && (j.nextRunAt.Some? <==> j.status == Scheduled && j.cron.Some?)
  }

  /** `rank` orders the inserted jobs so that each depends only on earlier ones or on existing rows. */
  ghost predicate InsertOrder(s: Db, rows: map<JobId, Job>, edges: set<(JobId, JobId)>, rank: map<JobId, nat>)
  {
    && rank.Keys == rows.Keys
    && forall e :: e in edges ==> e.0 in rows && (e.1 in s.jobs || (e.1 in rows && rank[e.1] < rank[e.0]))
  }

  ghost predicate Enabled(s: Db, step: Step)
  {
    match step
    case Tick(_) => true
    case Insert(rows, edges) =>
      && rows.Keys !! s.issued
      && (forall id :: id in rows ==> NewRow(rows[id]))
      && exists rank :: InsertOrder(s, rows, edges, rank)
    case Claim(_, tokens) =>
      && (forall id :: id in tokens ==> Claimable(s, id) && tokens[id] !in s.live)
      && Injective(tokens)
    case Begin(t) => t in s.live && s.live[t].phase.Waiting?
    case Start(t) => t in s.live && s.live[t].phase.Begun? && s.now <= s.live[t].phase.deadline
    case Release(t) => t in s.live && s.live[t].phase.Begun?
    case Succeed(t, next) =>
      t in s.live && s.live[t].phase.Executing? && s.now <= s.live[t].phase.deadline
    case Fail(t, _, newId) =>
      t in s.live && s.live[t].phase.Executing? && s.now <= s.live[t].phase.deadline && newId !in s.dlq
    case Abandon(t) => t in s.live
    case Promote(due) => forall id :: id in due ==> Due(s, id)
    case Unblock(ready) => forall id :: id in ready ==> Unblockable(s, id)
    case CancelUnsatisfiable(doomed) => forall id :: id in doomed ==> Unsatisfiable(s, id)
    case ArmCron(pending) => forall id :: id in pending ==> CronPending(s, id)
    case Reclaim(stuck) => forall id :: id in stuck ==> Stuck(s, id)
    case CancelJob(id) => id in s.jobs && s.jobs[id].status in {Queued, Scheduled, Blocked}
    case RetryJob(id) => id in s.jobs && s.jobs[id].status in {Failed, Dead, Cancelled}
    case Delete(_) => true
    case RetryDead(_, _) => true
    case RetryAllDead(entries) => forall d :: d in entries ==> Unresolved(s, d)
    case Discard(entries) => forall d :: d in entries ==> d in s.dlq
  }

  // ---------- What is assumed of a step ----------

  /** A job that has been claimed at least once and has not been reset since. */
  predicate Settled(status: Status)
  {
    status in {Claimed, Running, Completed, Dead, Failed}
  }

  /** The attempt may still change its job's row: its start can be timely, or its deadline has not passed. */
  predicate CanWrite(s: Db, t: Token)
  {
    && t in s.live
    && var a := s.live[t];
    && if a.phase.Executing? then s.now <= a.phase.deadline else s.now <= a.claimedAt + GRACE
  }

  /** The timing assumption: a start reaches the database within the grace period of its claim. */
  predicate Timely(s: Db, step: Step)
  {
    match step
    case Start(t) => t in s.live ==> s.now <= s.live[t].claimedAt + GRACE
    case _ => true
  }

  ghost predicate WritableBy(s: Db, u: Token, id: JobId)
  {
    CanWrite(s, u) && s.live[u].job == id
  }

  /** A release undoes nobody else's claim: the row is not claimed, or no other attempt can write it. releaseClaim does
      not see to this itself, since it checks the status and not claimed_by. */
  ghost predicate ReleaseSpares(s: Db, step: Step)
  {
    step.Release? && step.t in s.live && s.live[step.t].job in s.jobs
      && s.jobs[s.live[step.t].job].status == Claimed ==>
      forall u :: WritableBy(s, u, s.live[step.t].job) ==> u == step.t
  }

  ghost predicate NoWriter(s: Db, id: JobId)
  {
    forall u :: !WritableBy(s, u, id)
  }

  ghost predicate NoSettledDependent(s: Db, id: JobId)
  {
    forall e :: e in s.deps && e.1 == id && e.0 != id && e.0 in s.jobs ==> !Settled(s.jobs[e.0].status)
  }

  ghost predicate NoOtherEntry(s: Db, d: DlqId, id: JobId)
  {
    forall other :: Unresolved(s, other) && s.dlq[other].job == id ==> other == d
  }

  /** Requeueing a job the dead-letter retry read about earlier is harmless now. The retry does not see to this either:
      it reads the entry before its transaction, and the transaction writes by id alone. */
  ghost predicate RetrySpares(s: Db, step: Step)
  {
    step.RetryDead? && step.id in s.jobs ==>
      NoWriter(s, step.id) && NoSettledDependent(s, step.id) && NoOtherEntry(s, step.d, step.id)
  }

  /** The row is as it was when the attempt's claim returned it. */
  predicate Remembers(a: Attempt, j: Job)
  {
    a.seen == j.attempts && a.maxAttempts == j.maxAttempts && a.timeoutSecs == j.timeoutSecs && a.cron == j.cron
  }

  /** What a start needs, whatever the time: the row as claimed and with an attempt to spare, nobody else who can
      write it, and neither dependencies, dependents nor dead letters that its running would contradict. */
  ghost predicate StartSpares(s: Db, step: Step)
  {
    step.Start? && step.t in s.live && s.live[step.t].job in s.jobs ==>
      var id := s.live[step.t].job;
      && Remembers(s.live[step.t], s.jobs[id])
      && s.jobs[id].attempts < s.jobs[id].maxAttempts + s.jobs[id].reclaims
      && (forall u :: WritableBy(s, u, id) ==> u == step.t)
      && DepsCompleted(s.jobs, s.deps, id) && NoSettledDependent(s, id)
      && forall d :: Unresolved(s, d) ==> s.dlq[d].job != id
  }

  /** No start, release or dead-letter retry hurts anyone. Nothing is asked of when a step comes: the clock enters only
      through who can still write. */
  ghost predicate Sparing(s: Db, step: Step)
  {
    StartSpares(s, step) && ReleaseSpares(s, step) && RetrySpares(s, step)
  }

  ghost predicate Orderly(s: Db, step: Step)
  {
    Timely(s, step) && ReleaseSpares(s, step) && RetrySpares(s, step)
  }

  function AttemptOf(s: Db, worker: WorkerId, id: JobId): Attempt
    requires id in s.jobs
  {
    var j := s.jobs[id];
    Attempt(worker, id, s.now, j.attempts, j.maxAttempts, j.timeoutSecs, j.cron, Waiting)
  }

  ghost predicate Injective(tokens: map<JobId, Token>)
  {
    forall a, b :: a in tokens && b in tokens && tokens[a] == tokens[b] ==> a == b
  }

  /** The jobs a claim returns, each under the token of its new attempt. */
  ghost function NewAttempts(s: Db, worker: WorkerId, tokens: map<JobId, Token>): (made: map<Token, Attempt>)
    requires Injective(tokens) && forall id :: id in tokens ==> id in s.jobs
    ensures forall id :: id in tokens ==> tokens[id] in made && made[tokens[id]] == AttemptOf(s, worker, id)
    ensures forall t :: t in made ==> exists id :: id in tokens && tokens[id] == t
  {
    map id | id in tokens :: tokens[id] := AttemptOf(s, worker, id)
  }

  function ClaimedRows(jobs: map<JobId, Job>, worker: WorkerId, tokens: map<JobId, Token>, now: Time): map<JobId, Job>
  {
    map id | id in jobs :: if id in tokens then SetClaimed(jobs[id], worker, tokens[id], now) else jobs[id]
  }

  ghost function Next(s: Db, step: Step): Db
    requires Enabled(s, step)
  {
    match step
    case Tick(elapsed) => s.(now := s.now + elapsed)
    case Insert(rows, edges) =>
      s.(jobs := s.jobs + rows, deps := s.deps + edges, issued := s.issued + rows.Keys)
    case Claim(worker, tokens) =>
      s.(jobs := ClaimedRows(s.jobs, worker, tokens, s.now),
         live := s.live + NewAttempts(s, worker, tokens))
    case Begin(t) =>
      var a := s.live[t];
      s.(live := s.live[t := a.(phase := Begun(s.now + a.timeoutSecs * SECOND))])
    case Start(t) =>
      var a := s.live[t];
      s.(jobs := if a.job in s.jobs then s.jobs[a.job := SetRunning(s.jobs[a.job], a.worker, t, s.now)] else s.jobs,
         live := s.live[t := a.(phase := Executing(a.phase.deadline))])
    case Release(t) =>
      var a := s.live[t];
      s.(jobs := if a.job in s.jobs && s.jobs[a.job].status == Claimed
                 then s.jobs[a.job := SetReleased(s.jobs[a.job], s.now)] else s.jobs,
         live := s.live - {t})
    case Succeed(t, next) =>
      var a := s.live[t];
      s.(jobs := if a.job in s.jobs then s.jobs[a.job := SetSucceeded(s.jobs[a.job], a.cron, next)] else s.jobs,
         live := s.live - {t})
    case Fail(t, retryAt, newId) =>
      var a := s.live[t];
      var s' := s.(live := s.live - {t});
      if a.job !in s.jobs then s'
      else if a.seen + 1 >= a.maxAttempts then
        s'.(jobs := s.jobs[a.job := SetDead(s.jobs[a.job])],
            dlq := Upsert(s.dlq, newId, DlqRow(a.job, s.jobs[a.job].queue, a.seen + 1, false)))
      else s'.(jobs := s.jobs[a.job := SetRequeued(s.jobs[a.job], retryAt)])
    case Abandon(t) => s.(live := s.live - {t})
    case Promote(due) =>
      s.(jobs := (map id | id in s.jobs :: if id in due then s.jobs[id].(status := Queued) else s.jobs[id]))
    case Unblock(ready) =>
      s.(jobs := (map id | id in s.jobs ::
                    if id in ready then s.jobs[id].(status := Queued, runAt := s.now) else s.jobs[id]))
    case CancelUnsatisfiable(doomed) =>
      s.(jobs := (map id | id in s.jobs :: if id in doomed then s.jobs[id].(status := Cancelled) else s.jobs[id]))
    case ArmCron(pending) =>
      s.(jobs := (map id | id in s.jobs :: if id in pending then SetArmed(s.jobs[id], pending[id]) else s.jobs[id]))
    case Reclaim(stuck) =>
      s.(jobs := (map id | id in s.jobs :: if id in stuck then SetReclaimed(s.jobs[id], s.now) else s.jobs[id]))
    case CancelJob(id) => s.(jobs := s.jobs[id := s.jobs[id].(status := Cancelled)])
    case RetryJob(id) =>
      var status := if DepsCompleted(s.jobs, s.deps, id) then Queued else Blocked;
      s.(jobs := s.jobs[id := SetReset(s.jobs[id], status, s.now, true)],
         dlq := s.dlq - DlqOf(s.dlq, id))
    case Delete(ids) =>
      s.(jobs := s.jobs - ids,
         deps := (set e | e in s.deps && e.0 !in ids && e.1 !in ids),
         dlq := (map d | d in s.dlq && s.dlq[d].job !in ids :: s.dlq[d]))
    case RetryDead(d, id) =>
      s.(jobs := if id in s.jobs then s.jobs[id := SetReset(s.jobs[id], Queued, s.now, true)] else s.jobs,
         dlq := Resolve(s.dlq, {d}))
    case RetryAllDead(entries) =>
      var ids := JobsOf(s.dlq, entries);
      s.(jobs := (map id | id in s.jobs ::
                    if id in ids then SetReset(s.jobs[id], Queued, s.now, false) else s.jobs[id]),
         dlq := Resolve(s.dlq, entries))
    case Discard(entries) => s.(dlq := Resolve(s.dlq, entries))
  }

  // ---------- Runs ----------

  ghost predicate IsRun(s: Db, steps: seq<Step>)
    decreases |steps|
  {
    steps == [] || (Enabled(s, steps[0]) && IsRun(Next(s, steps[0]), steps[1..]))
  }

  ghost function After(s: Db, steps: seq<Step>): Db
    requires IsRun(s, steps)
    decreases |steps|
  {
    if steps == [] then s else After(Next(s, steps[0]), steps[1..])
  }

  /** Every step of the run meets `p` in the state it is taken in. */
  ghost predicate Throughout(s: Db, steps: seq<Step>, p: (Db, Step) -> bool)
    requires IsRun(s, steps)
    decreases |steps|
  {
    steps == [] || (p(s, steps[0]) && Throughout(Next(s, steps[0]), steps[1..], p))
  }

  /** Every state of the run, the first included, meets `p`. */
  ghost predicate Always(s: Db, steps: seq<Step>, p: Db -> bool)
    requires IsRun(s, steps)
    decreases |steps|
  {
    p(s) && (steps == [] || Always(Next(s, steps[0]), steps[1..], p))
  }
}
