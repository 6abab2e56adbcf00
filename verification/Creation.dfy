/** Creating jobs, singly and as a batch workflow, in one transaction (api/internal/handler/job.go). */
module Creation {
  import opened Wrappers
  import opened Sequences
  import opened Text
  import opened Acyclicity
  import opened JobStore
  import opened Lifecycle
  import opened Guarantees
  import opened Store
  import opened Workflow
  import opened Topology

  datatype Request = Request(
    jobType: string, priority: int, maxAttempts: int, timeoutSecs: int,
    scheduledAt: Option<Time>, cron: Option<string>, idempotencyKey: Option<string>, partitionKey: Option<string>,
    ref: string, dependsOn: seq<string>)

  datatype Reply = Rejected(code: int) | Created(ids: seq<JobId>, skipped: nat)

  const MAX_BATCH := 1000

  function Normalize(r: Request): Request
  {
    r.(priority := if r.priority == 0 then 5 else r.priority,
       maxAttempts := if r.maxAttempts == 0 then 3 else r.maxAttempts,
       timeoutSecs := if r.timeoutSecs == 0 then 300 else r.timeoutSecs)
  }

  predicate Accepts(r: Request)
  {
    r.jobType != "" && 1 <= r.priority <= 10 && r.maxAttempts >= 1 && r.timeoutSecs >= 1
  }

  predicate Future(r: Request, now: Time)
  {
    r.scheduledAt.Some? && r.scheduledAt.value > now
  }

  /** The row a request becomes: scheduled when it lies in the future, else blocked or queued. */
  function RowOf(r: Request, queue: QueueId, shard: nat, now: Time, blocked: bool): Job
  {
    var runAt := if Future(r, now) then r.scheduledAt.value else now;
    Job(queue, r.jobType, r.priority, shard, r.maxAttempts, r.timeoutSecs, r.cron, r.idempotencyKey,
        if Future(r, now) then Scheduled else if blocked then Blocked else Queued,
        0, runAt, if Future(r, now) && r.cron.Some? then Some(runAt) else None, None, None, 0, 0)
  }

  /** A request may be stored: zero stands for the default. */
  predicate Acceptable(r: Request)
  {
    r.jobType != "" && 0 <= r.priority <= 10 && r.maxAttempts >= 0 && r.timeoutSecs >= 0
  }

  lemma AcceptsIff(r: Request)
    ensures Accepts(Normalize(r)) <==> Acceptable(r)
  {
  }

  /** The stored row, column by column, as the request was sent: defaults for zeroes, due now unless the request names a
      later time, armed when it does and has a cron expression, and never taken by anyone. */
  ghost predicate FromRequest(row: Job, r: Request, queue: QueueId, id: JobId, shardCount: int, now: Time,
                              hash: string -> nat)
  {
    var later := r.scheduledAt.Some? && r.scheduledAt.value > now;
    && row.queue == queue && row.jobType == r.jobType && row.cron == r.cron && row.idempotencyKey == r.idempotencyKey
    && row.priority == (if r.priority == 0 then 5 else r.priority)
    && row.maxAttempts == (if r.maxAttempts == 0 then 3 else r.maxAttempts)
    && row.timeoutSecs == (if r.timeoutSecs == 0 then 300 else r.timeoutSecs)
    && (row.status == Scheduled <==> later) && row.status in {Scheduled, Blocked, Queued}
    && row.runAt == (if later then r.scheduledAt.value else now)
    && row.nextRunAt == (if later && r.cron.Some? then r.scheduledAt else None)
    && row.attempts == 0 && row.claimedBy.None? && row.claimedAt.None? && row.holder == 0 && row.reclaims == 0
    && InShard(row.shard, hash(if r.partitionKey.Some? then r.partitionKey.value else id), shardCount)
  }

  /** The shard of a hash: 0 in an unsharded queue, else what is left of it after whole multiples of the count. */
  predicate InShard(shard: nat, hash: nat, shardCount: int)
  {
    if shardCount <= 1 then shard == 0 else shard < shardCount && hash == hash / shardCount * shardCount + shard
  }

  lemma RowFromRequest(r: Request, queue: QueueId, id: JobId, shardCount: int, now: Time, hash: string -> nat,
                       waits: bool)
    ensures FromRequest(RowOf(Normalize(r), queue, ShardOf(r, id, shardCount, hash), now, waits),
                        r, queue, id, shardCount, now, hash)
    ensures Normalize(r).idempotencyKey == r.idempotencyKey
  {
    ResidueInShard(hash(if r.partitionKey.Some? then r.partitionKey.value else id), shardCount);
    hide AssignShard, InShard;
  }

  lemma ResidueInShard(hash: nat, shardCount: int)
    ensures InShard(AssignShard(hash, shardCount), hash, shardCount)
  {
  }

  /** ON CONFLICT (idempotency_key): a null key never conflicts. */
  predicate KeyTaken(jobs: map<JobId, Job>, key: Option<string>)
  {
    key.Some? && exists id :: id in jobs && jobs[id].idempotencyKey == key
  }

  /** The idempotency keys in the table. */
  ghost function StoredKeys(jobs: map<JobId, Job>): set<string>
  {
    set id | id in jobs && jobs[id].idempotencyKey.Some? :: jobs[id].idempotencyKey.value
  }

  lemma TakenIffStored(jobs: map<JobId, Job>, key: Option<string>)
    ensures KeyTaken(jobs, key) <==> key.Some? && key.value in StoredKeys(jobs)
  {
    if key.Some? && key.value in StoredKeys(jobs) {
      var id :| id in jobs && jobs[id].idempotencyKey.Some? && jobs[id].idempotencyKey.value == key.value;
      assert jobs[id].idempotencyKey == key;
    }
  }

  predicate SameKey(a: Job, b: Job)
  {
    a.idempotencyKey.Some? && a.idempotencyKey == b.idempotencyKey
  }

  ghost predicate KeysUnique(jobs: map<JobId, Job>)
  {
    forall a, b :: a in jobs && b in jobs && SameKey(jobs[a], jobs[b]) ==> a == b
  }

  /** The distinct references of a request, trimmed, blanks dropped. */
  method Dedupe(refs: seq<string>) returns (out: seq<string>)
    ensures NoDup(out)
    ensures forall x :: x in out <==> x != "" && x in References(refs)
  {
    out := [];
    var seen: set<string> := {};
    for k := 0 to |refs|
      invariant NoDup(out)
      invariant forall x :: x in seen <==> x in out
      invariant forall x :: x in out <==> x != "" && x in References(refs[..k])
    {
      var v := TrimSpace(refs[k]);
      ReferencesOneMore(refs, k);
      if v == "" || v in seen {
        continue;
      }
      seen := seen + {v};
      out := out + [v];
    }
    assert refs[..|refs|] == refs;
  }

  /** dependencyStates: the statuses of those ids that are jobs of the project. */
  function States(db: Database, project: ProjectId, ids: seq<string>): map<JobId, Status>
    reads db
  {
    map id | id in ids && id in db.jobs && db.InProject(project, db.jobs[id].queue) :: db.jobs[id].status
  }

  /** validateDependencies: 400 when an id is unknown, 409 when one can never complete, 0 when all is well. */
  method ValidateDependencies(requested: seq<string>, states: map<JobId, Status>) returns (code: int)
    ensures code == 0 <==>
      && (forall id :: id in requested ==> id in states)
      && (forall id :: id in states ==> states[id] !in {Dead, Cancelled})
    ensures code in {0, 400, 409}
    ensures code == 400 <==> exists id :: id in requested && id !in states
  {
    for k := 0 to |requested|
      invariant forall i :: 0 <= i < k ==> requested[i] in states
    {
      if requested[k] !in states {
        return 400;
      }
    }
    if exists id :: id in states && states[id] in {Dead, Cancelled} {
      return 409;
    }
    return 0;
  }

  // ---------- One job ----------

  /** A new row waits exactly when it must: it is queued only if all its dependencies are completed,
      and blocked only if one is not. */
  predicate WaitsRightly(jobs: map<JobId, Job>, deps: set<(JobId, JobId)>, id: JobId)
  {
    && id in jobs
    && (jobs[id].status == Queued ==> DepsCompleted(jobs, deps, id))
    && (jobs[id].status == Blocked ==> !DepsCompleted(jobs, deps, id))
  }

  /** The commit of a transaction that inserts `rows` and `edges`. */
  method Commit(db: Database, rows: map<JobId, Job>, edges: set<(JobId, JobId)>)
    requires db.Valid() && Enabled(db.State(), Insert(rows, edges))
    modifies db`jobs, db`deps, db`issued
    ensures db.Valid() && db.Took(old(db.State()), Insert(rows, edges))
    ensures db.jobs == old(db.jobs) + rows && db.deps == old(db.deps) + edges
    ensures db.issued == old(db.issued) + rows.Keys
  {
    hide Inv, Enabled;
    ghost var before := db.State();
    db.jobs := db.jobs + rows;
    db.deps := db.deps + edges;
    db.issued := db.issued + rows.Keys;
    InvKept(before, Insert(rows, edges));
  }

  lemma UniqueWithOne(jobs: map<JobId, Job>, id: JobId, row: Job)
    requires KeysUnique(jobs) && id !in jobs && !KeyTaken(jobs, row.idempotencyKey)
    ensures KeysUnique(jobs + map[id := row])
  {
  }

  lemma SingleInsertable(s: Db, id: JobId, row: Job, deps: seq<JobId>)
    requires id !in s.issued && NewRow(row) && forall d :: d in deps ==> d in s.jobs
    ensures Enabled(s, Insert(map[id := row], set d | d in deps :: (id, d)))
  {
    assert InsertOrder(s, map[id := row], set d | d in deps :: (id, d), map[id := 0]);
  }

  lemma SingleWaits(s: Db, id: JobId, row: Job, deps: seq<JobId>, states: map<JobId, Status>)
    requires KeysOk(s) && id !in s.issued
    requires forall d :: d in deps ==> d in states
    requires forall d :: d in states ==> d in deps && d in s.jobs && states[d] == s.jobs[d].status
    requires row.status == Queued ==> forall d :: d in states ==> states[d] == Completed
    requires row.status == Blocked ==> exists d :: d in states && states[d] != Completed
    ensures WaitsRightly(s.jobs + map[id := row], s.deps + (set d | d in deps :: (id, d)), id)
  {
    var jobs', deps' := s.jobs + map[id := row], s.deps + (set d | d in deps :: (id, d));
    assert forall e :: e in s.deps ==> e.0 in s.issued;
    forall e | e in deps' && e.0 == id
      ensures e.1 in deps && e.1 in states && jobs'[e.1].status == states[e.1]
    {
    }
    if d :| d in states && states[d] != Completed {
      assert (id, d) in deps';
    }
  }

  /** The column is a uuid: a lookup with any other text among the ids fails as a whole. */
  ghost predicate AllUuids(ids: set<string>, isUuid: string -> bool)
  {
    forall id :: id in ids ==> isUuid(id)
  }

  /** The distinct references of a request. */
  ghost function Wanted(r: Request): set<string>
  {
    References(r.dependsOn) - {""}
  }

  ghost predicate Known(queues: map<QueueId, QueueInfo>, project: ProjectId, jobs: map<JobId, Job>, x: string)
  {
    x in jobs && jobs[x].queue in queues && queues[jobs[x].queue].project == project
  }

  /** A job of the project that may still complete. */
  ghost predicate Satisfiable(queues: map<QueueId, QueueInfo>, project: ProjectId, jobs: map<JobId, Job>, x: string)
  {
    Known(queues, project, jobs, x) && jobs[x].status !in {Dead, Cancelled}
  }

  /** The request passes everything that is read before the transaction. */
  ghost predicate CreateReady(queues: map<QueueId, QueueInfo>, jobs: map<JobId, Job>, queue: QueueId, r: Request,
                              isUuid: string -> bool)
  {
    && Acceptable(r) && queue in queues
    && |Wanted(r)| <= 64 && AllUuids(Wanted(r), isUuid)
    && (forall x :: x in Wanted(r) ==> Satisfiable(queues, queues[queue].project, jobs, x))
  }

  ghost predicate CreateAllowed(queues: map<QueueId, QueueInfo>, jobs: map<JobId, Job>, queue: QueueId, r: Request,
                                isUuid: string -> bool)
  {
    && CreateReady(queues, jobs, queue, r, isUuid)
    && (r.idempotencyKey.None? || r.idempotencyKey.value !in StoredKeys(jobs))
  }

  /** What Create calls a bad request, as opposed to a conflict. */
  ghost predicate BadRequest(queues: map<QueueId, QueueInfo>, jobs: map<JobId, Job>, queue: QueueId, r: Request,
                             isUuid: string -> bool)
  {
    || !Acceptable(r)
    || (&& queue in queues
        && (|| |Wanted(r)| > 64
            || (&& AllUuids(Wanted(r), isUuid)
                && exists x :: x in Wanted(r) && !Known(queues, queues[queue].project, jobs, x))))
  }

  /** The dependencies cannot even be looked up. */
  ghost predicate LookupFails(queues: map<QueueId, QueueInfo>, queue: QueueId, r: Request, isUuid: string -> bool)
  {
    && Acceptable(r) && queue in queues
    && |Wanted(r)| <= 64 && !AllUuids(Wanted(r), isUuid)
  }

  function ShardOf(r: Request, id: JobId, shardCount: int, hash: string -> nat): nat
  {
    AssignShard(hash(if r.partitionKey.Some? then r.partitionKey.value else id), shardCount)
  }

  lemma WantedSize(r: Request, deps: seq<string>)
    requires NoDup(deps) && forall x :: x in deps <==> x != "" && x in References(r.dependsOn)
    ensures |Wanted(r)| == |deps|
  {
    NoDupSize(deps);
    assert Elements(deps) == Wanted(r);
  }

  /** Create when nothing comes between its reads and its transaction. A rejected request changes nothing; an accepted
      one is inserted with its dependencies. */
  method Create(db: Database, queue: QueueId, request: Request, id: JobId, hash: string -> nat,
                isUuid: string -> bool) returns (reply: Reply)
    requires db.Valid() && id !in db.issued && KeysUnique(db.jobs)
    modifies db`jobs, db`deps, db`issued
    ensures db.Valid() && KeysUnique(db.jobs)
    ensures reply.Created? <==> CreateAllowed(db.queues, old(db.jobs), queue, request, isUuid)
    ensures reply.Rejected? ==> reply.code in {400, 404, 409, 500} && db.State() == old(db.State())
    ensures reply == Rejected(400) <==> BadRequest(db.queues, old(db.jobs), queue, request, isUuid)
    ensures reply == Rejected(500) <==> LookupFails(db.queues, queue, request, isUuid)
    ensures reply == Rejected(404) <==> Acceptable(request) && queue !in db.queues
    ensures reply.Created? ==>
      && reply.ids == [id] && id in db.jobs
      && db.jobs[id] == RowOf(Normalize(request), queue, ShardOf(request, id, db.queues[queue].shardCount, hash),
                              db.now, db.jobs[id].status == Blocked)
      && FromRequest(db.jobs[id], request, queue, id, db.queues[queue].shardCount, db.now, hash)
      && db.Took(old(db.State()), Insert(map[id := db.jobs[id]], set d | d in Wanted(request) :: (id, d)))
      && WaitsRightly(db.jobs, db.deps, id)
  {
    hide Inv, Enabled, Next, KeysUnique, DepsCompleted, AssignShard, Acceptable, FromRequest, KeyTaken, References,
      CreateReady, BadRequest, LookupFails, Wanted;
    ghost var before := db.State();
    var code, deps, states := CheckCreate(db, queue, request, isUuid);
    if code != 0 {
      return Rejected(code);
    }
    ghost var row := PlannedRow(request, queue, id, db.queues[queue].shardCount, db.now, states, hash);
    PlannedIsRow(request, queue, id, db.queues[queue].shardCount, db.now, states, hash);
    CurrentStatesWait(before, id, row, deps, states);
    reply := StoreOne(db, queue, request, id, db.now, deps, states, hash);
  }

  /** Some dependency was not completed when its state was read. */
  predicate SomeIncomplete(states: map<JobId, Status>)
  {
    exists d :: d in states && states[d] != Completed
  }

  /** The row as planned from what was read at `at`. */
  function PlannedRow(r: Request, queue: QueueId, id: JobId, shardCount: int, at: Time, states: map<JobId, Status>,
                      hash: string -> nat): Job
  {
    RowOf(Normalize(r), queue, ShardOf(r, id, shardCount, hash), at, SomeIncomplete(states))
  }

  lemma PlannedIsRow(r: Request, queue: QueueId, id: JobId, shardCount: int, at: Time, states: map<JobId, Status>,
                     hash: string -> nat)
    ensures var row := PlannedRow(r, queue, id, shardCount, at, states, hash);
      && row == RowOf(Normalize(r), queue, ShardOf(r, id, shardCount, hash), at, row.status == Blocked)
      && (row.status == Queued ==> !SomeIncomplete(states)) && (row.status == Blocked ==> SomeIncomplete(states))
  {
  }

  lemma CurrentStatesWait(s: Db, id: JobId, row: Job, deps: seq<JobId>, states: map<JobId, Status>)
    requires Inv(s) && id !in s.issued && (forall d :: d in deps <==> d in states)
    requires forall d :: d in states ==> d in s.jobs && states[d] == s.jobs[d].status
    requires row.status == Queued ==> !SomeIncomplete(states)
    requires row.status == Blocked ==> SomeIncomplete(states)
    ensures WaitsRightly(s.jobs + map[id := row], s.deps + (set d | d in deps :: (id, d)), id)
  {
    SingleWaits(s, id, row, deps, states);
  }

  /** What Create reads before its transaction: the queue, and the states of the dependencies. */
  method CheckCreate(db: Database, queue: QueueId, request: Request, isUuid: string -> bool)
    returns (code: int, deps: seq<string>, states: map<JobId, Status>)
    ensures code in {0, 400, 404, 409, 500}
    ensures code == 0 <==> CreateReady(db.queues, db.jobs, queue, request, isUuid)
    ensures code == 400 <==> BadRequest(db.queues, db.jobs, queue, request, isUuid)
    ensures code == 500 <==> LookupFails(db.queues, queue, request, isUuid)
    ensures code == 404 <==> Acceptable(request) && queue !in db.queues
    ensures code == 0 ==>
      && Acceptable(request) && queue in db.queues
      && (forall x :: x in deps <==> x in Wanted(request)) && (forall d :: d in deps <==> d in states)
      && (forall d :: d in states ==> d in db.jobs && states[d] == db.jobs[d].status)
  {
    AcceptsIff(request);
    hide Accepts, Acceptable, KeyTaken, References;
    var req := Normalize(request);
    code, deps, states := 400, [], map[];
    if !Accepts(req) {
      return;
    }
    if queue !in db.queues {
      code := 404;
      return;
    }
    var target := db.queues[queue];
    deps := Dedupe(req.dependsOn);
    WantedSize(request, deps);
    if |deps| > MAX_DEPENDENCIES_PER_JOB {
      return;
    }
    if exists d :: d in deps && !isUuid(d) {
      code := 500;
      return;
    }
    states := States(db, target.project, deps);
    code := ValidateDependencies(deps, states);
    StatesSatisfiable(db, target.project, deps, states, code, Wanted(request));
  }

  /** The transaction of Create, over states that may have changed since they were read. A key taken by now is a
      conflict, and so is a queue deleted by now, since the INSERT returns no row either; a dependency deleted by now
      fails its foreign key; otherwise the row goes in as planned. */
  method StoreOne(db: Database, queue: QueueId, request: Request, id: JobId, at: Time, deps: seq<JobId>,
                  states: map<JobId, Status>, hash: string -> nat) returns (reply: Reply)
    requires db.Valid() && id !in db.issued && KeysUnique(db.jobs)
    requires Acceptable(request) && forall x :: x in deps <==> x in Wanted(request)
    modifies db`jobs, db`deps, db`issued
    ensures db.Valid() && KeysUnique(db.jobs)
    ensures reply == Rejected(409) <==>
      || queue !in db.queues
      || (request.idempotencyKey.Some? && request.idempotencyKey.value in StoredKeys(old(db.jobs)))
    ensures reply.Created? <==>
      && queue in db.queues
      && (request.idempotencyKey.None? || request.idempotencyKey.value !in StoredKeys(old(db.jobs)))
      && forall x :: x in Wanted(request) ==> x in old(db.jobs)
    ensures reply.Rejected? ==> reply.code in {409, 500} && db.State() == old(db.State())
    ensures reply.Created? ==>
      var row := PlannedRow(request, queue, id, db.queues[queue].shardCount, at, states, hash);
      var edges := set d | d in Wanted(request) :: (id, d);
      && FromRequest(row, request, queue, id, db.queues[queue].shardCount, at, hash)
      && reply.ids == [id] && db.Took(old(db.State()), Insert(map[id := row], edges))
      && db.jobs == old(db.jobs) + map[id := row] && db.deps == old(db.deps) + (set d | d in deps :: (id, d))
  {
    hide Inv, Enabled, Next, KeysUnique, AssignShard, Acceptable, FromRequest, KeyTaken, References, Wanted, PlannedRow,
      NewRow;
    if queue !in db.queues {
      return Rejected(409);
    }
    var row := PlannedRow(request, queue, id, db.queues[queue].shardCount, at, states, hash);
    PlannedIsNew(request, queue, id, db.queues[queue].shardCount, at, states, hash);
    TakenIffStored(db.jobs, request.idempotencyKey);
    hide StoredKeys;
    if KeyTaken(db.jobs, request.idempotencyKey) {
      return Rejected(409);
    }
    if exists d :: d in deps && d !in db.jobs {
      return Rejected(500);
    }
    InsertOne(db, id, row, deps);
    assert (set d | d in deps :: (id, d)) == (set d | d in Wanted(request) :: (id, d));
    return Created([id], 0);
  }

  lemma PlannedIsNew(r: Request, queue: QueueId, id: JobId, shardCount: int, at: Time, states: map<JobId, Status>,
                     hash: string -> nat)
    requires Acceptable(r)
    ensures var row := PlannedRow(r, queue, id, shardCount, at, states, hash);
      && NewRow(row) && row.idempotencyKey == r.idempotencyKey
      && FromRequest(row, r, queue, id, shardCount, at, hash)
  {
    RowFromRequest(r, queue, id, shardCount, at, hash, SomeIncomplete(states));
  }

  /** Reading early is safe: a dependency that was completed when it was read is completed or gone when the row goes
      in, whatever orderly steps came between, as long as no stale dead-letter retry named it. So a row planned as
      queued never goes in ahead of a dependency; and one planned as blocked in vain is unblocked by the next sweep.
      */
  lemma EarlyReadIsSafe(s: Db, steps: seq<Step>, d: JobId)
    requires Inv(s) && IsRun(s, steps) && Throughout(s, steps, Orderly)
    requires d in s.jobs && s.jobs[d].status == Completed
    requires Throughout(s, steps, (t: Db, step: Step) => NotRetried(t, step, d))
    ensures d in After(s, steps).jobs ==> After(s, steps).jobs[d].status == Completed
  {
    assert d in s.issued;
    CompletedUntilDeletedIff(s, steps, d);
    AlwaysLast(s, steps, (t: Db) => CompletedIfThere(t, d));
  }

  lemma StatesSatisfiable(db: Database, project: ProjectId, deps: seq<string>, states: map<JobId, Status>, code: int,
                          wanted: set<string>)
    requires states == States(db, project, deps) && forall x :: x in deps <==> x in wanted
    requires code == 0 <==>
      (forall id :: id in deps ==> id in states) && (forall id :: id in states ==> states[id] !in {Dead, Cancelled})
    requires code == 400 <==> exists id :: id in deps && id !in states
    ensures code == 0 <==> forall x :: x in wanted ==> Satisfiable(db.queues, project, db.jobs, x)
    ensures code == 400 <==> exists x :: x in wanted && !Known(db.queues, project, db.jobs, x)
  {
    assert forall x :: x in wanted ==> (x in states <==> Known(db.queues, project, db.jobs, x));
  }

  method InsertOne(db: Database, id: JobId, row: Job, deps: seq<JobId>)
    requires db.Valid() && id !in db.issued && KeysUnique(db.jobs)
    requires NewRow(row) && !KeyTaken(db.jobs, row.idempotencyKey) && forall d :: d in deps ==> d in db.jobs
    modifies db`jobs, db`deps, db`issued
    ensures db.Valid() && KeysUnique(db.jobs)
    ensures db.Took(old(db.State()), Insert(map[id := row], set d | d in deps :: (id, d)))
    ensures db.jobs == old(db.jobs) + map[id := row] && db.deps == old(db.deps) + (set d | d in deps :: (id, d))
  {
    SingleInsertable(db.State(), id, row, deps);
    assert id !in db.jobs;
    UniqueWithOne(db.jobs, id, row);
    hide Inv, Enabled, NewRow, KeysUnique, KeyTaken;
    Commit(db, map[id := row], set d | d in deps :: (id, d));
  }

  // ---------- A batch ----------

  /** The requests as nodes of a workflow graph, or the rejection of the first invalid one. */
  method Prepare(requests: seq<Request>) returns (nodes: seq<Node>, ok: bool)
    ensures ok <==> forall i :: 0 <= i < |requests| ==> Acceptable(requests[i])
    ensures ok ==> |nodes| == |requests| && forall i :: 0 <= i < |nodes| ==> NodeOf(requests[i], nodes[i])
  {
    nodes := [];
    for i := 0 to |requests|
      invariant |nodes| == i
      invariant forall k :: 0 <= k < i ==> Acceptable(requests[k]) && NodeOf(requests[k], nodes[k])
    {
      AcceptsIff(requests[i]);
      if !Accepts(Normalize(requests[i])) {
        return nodes, false;
      }
      var deps := Dedupe(requests[i].dependsOn);
      DedupedReferences(requests[i].dependsOn, deps);
      nodes := nodes + [Node(requests[i].ref, deps)];
    }
    return nodes, true;
  }

  ghost predicate NodeOf(r: Request, node: Node)
  {
    && node.ref == r.ref && References(node.dependsOn) == Wanted(r)
    && NoDup(node.dependsOn) && forall d :: d in node.dependsOn ==> TrimSpace(d) == d != ""
  }

  lemma DedupedReferences(refs: seq<string>, out: seq<string>)
    requires forall x :: x in out <==> x != "" && x in References(refs)
    ensures References(out) == References(refs) - {""}
    ensures forall x :: x in out ==> TrimSpace(x) == x != ""
  {
    forall x | x in out
      ensures TrimSpace(x) == x
    {
      var d :| d in refs && TrimSpace(d) == x;
      TrimSpaceIdempotent(d);
    }
    forall x | x in References(refs) - {""}
      ensures x in References(out)
    {
      assert x in out;
    }
  }

  /** Every external id of the batch once. */
  method CollectExternals(external: seq<seq<string>>) returns (ids: seq<string>)
    ensures forall x :: x in ids <==> exists i :: 0 <= i < |external| && x in external[i]
  {
    ids := [];
    for i := 0 to |external|
      invariant forall x :: x in ids <==> exists k :: 0 <= k < i && x in external[k]
    {
      for l := 0 to |external[i]|
        invariant forall x :: x in ids <==> (exists k :: 0 <= k < i && x in external[k]) || x in external[i][..l]
      {
        if external[i][l] !in ids {
          ids := ids + [external[i][l]];
        }
      }
    }
  }

  /** `ids[i]` is the fresh id of request i, or empty when its idempotency key was already taken. */
  ghost predicate Numbered(ids: seq<JobId>, uuids: seq<JobId>, rows: map<JobId, Job>)
  {
    && |ids| <= |uuids|
    && (forall i :: 0 <= i < |ids| && ids[i] != "" ==> ids[i] == uuids[i] && ids[i] in rows)
    && (forall id :: id in rows ==> exists i :: 0 <= i < |ids| && ids[i] == id)
    && "" !in rows
  }

  /** Request i waits when it has an internal dependency or an external one that was not completed. */
  predicate MustWait(internal: seq<nat>, external: seq<string>, states: map<JobId, Status>)
  {
    internal != [] || exists x :: x in external && (x in states ==> states[x] != Completed)
  }

  ghost predicate RowFits(row: Job, internal: seq<nat>, external: seq<string>, states: map<JobId, Status>)
  {
    && NewRow(row)
    && (row.status == Queued ==> !MustWait(internal, external, states))
    && (row.status == Blocked ==> MustWait(internal, external, states))
  }

  /** The rows inserted for the first |ids| requests. */
  ghost predicate Inserted(ids: seq<JobId>, uuids: seq<JobId>, rows: map<JobId, Job>, internal: seq<seq<nat>>,
                           external: seq<seq<string>>, states: map<JobId, Status>)
  {
    && Numbered(ids, uuids, rows)
    && |ids| <= |internal| && |ids| <= |external|
    && forall i :: 0 <= i < |ids| && ids[i] != "" ==> RowFits(rows[ids[i]], internal[i], external[i], states)
  }

  lemma InsertedSkip(ids: seq<JobId>, uuids: seq<JobId>, rows: map<JobId, Job>, internal: seq<seq<nat>>,
                     external: seq<seq<string>>, states: map<JobId, Status>)
    requires Inserted(ids, uuids, rows, internal, external, states)
    requires |ids| < |uuids| && |ids| < |internal| && |ids| < |external|
    ensures Inserted(ids + [""], uuids, rows, internal, external, states)
  {
    hide RowFits;
    assert forall id :: id in rows ==> id in ids;
    var next := ids + [""];
    forall id | id in rows
      ensures exists i :: 0 <= i < |next| && next[i] == id
    {
      var i :| 0 <= i < |ids| && ids[i] == id;
      assert next[i] == id;
    }
  }

  lemma InsertedRow(ids: seq<JobId>, uuids: seq<JobId>, rows: map<JobId, Job>, internal: seq<seq<nat>>,
                    external: seq<seq<string>>, states: map<JobId, Status>, row: Job)
    requires Inserted(ids, uuids, rows, internal, external, states) && NoDup(uuids)
    requires |ids| < |uuids| && |ids| < |internal| && |ids| < |external| && uuids[|ids|] != ""
    requires RowFits(row, internal[|ids|], external[|ids|], states)
    ensures uuids[|ids|] !in rows
    ensures Inserted(ids + [uuids[|ids|]], uuids, rows[uuids[|ids|] := row], internal, external, states)
  {
    hide RowFits;
    var next := ids + [uuids[|ids|]];
    forall id | id in rows || id == uuids[|ids|]
      ensures exists i :: 0 <= i < |next| && next[i] == id
    {
      if id in rows {
        var i :| 0 <= i < |ids| && ids[i] == id;
        assert next[i] == id;
      } else {
        assert next[|ids|] == id;
      }
    }
  }

  lemma OneMore<K, V>(a: map<K, V>, b: map<K, V>, k: K, v: V)
    requires k !in b
    ensures a + b[k := v] == (a + b) + map[k := v]
  {
  }

  lemma OneLarger<K, V>(b: map<K, V>, k: K, v: V)
    requires k !in b
    ensures |b[k := v]| == |b| + 1
  {
  }

  lemma AddRow(jobs: map<JobId, Job>, ids: seq<JobId>, uuids: seq<JobId>, rows: map<JobId, Job>,
               internal: seq<seq<nat>>, external: seq<seq<string>>, states: map<JobId, Status>, row: Job)
    requires Inserted(ids, uuids, rows, internal, external, states) && NoDup(uuids)
    requires |ids| < |uuids| && |ids| < |internal| && |ids| < |external|
    requires uuids[|ids|] != "" && uuids[|ids|] !in jobs
    requires RowFits(row, internal[|ids|], external[|ids|], states)
    requires KeysUnique(jobs + rows) && !KeyTaken(jobs + rows, row.idempotencyKey)
    ensures Inserted(ids + [uuids[|ids|]], uuids, rows[uuids[|ids|] := row], internal, external, states)
    ensures KeysUnique(jobs + rows[uuids[|ids|] := row]) && |rows[uuids[|ids|] := row]| == |rows| + 1
    ensures uuids[|ids|] !in rows
  {
    hide Inserted, RowFits, KeysUnique, KeyTaken, NoDup;
    var id := uuids[|ids|];
    InsertedRow(ids, uuids, rows, internal, external, states, row);
    UniqueWithOne(jobs + rows, id, row);
    OneMore(jobs, rows, id, row);
    OneLarger(rows, id, row);
  }

  /** One of the first n requests, or a stored job, has this key. */
  ghost predicate Seen(jobs: map<JobId, Job>, requests: seq<Request>, n: nat, key: Option<string>)
    requires n <= |requests|
  {
    KeyTaken(jobs, key) || (key.Some? && exists k :: 0 <= k < n && requests[k].idempotencyKey == key)
  }

  /** ON CONFLICT DO NOTHING meets request i: its key is stored already, or an earlier request of the batch has it. */
  ghost predicate Skipped(jobs: map<JobId, Job>, requests: seq<Request>, i: nat)
    requires i < |requests|
  {
    var key := requests[i].idempotencyKey;
    && key.Some?
    && (key.value in StoredKeys(jobs) || exists k :: 0 <= k < i && requests[k].idempotencyKey == key)
  }

  ghost predicate KeysSeen(jobs: map<JobId, Job>, rows: map<JobId, Job>, requests: seq<Request>, n: nat)
    requires n <= |requests|
  {
    forall key :: KeyTaken(jobs + rows, key) <==> Seen(jobs, requests, n, key)
  }

  lemma TakenIffSkipped(jobs: map<JobId, Job>, rows: map<JobId, Job>, requests: seq<Request>, i: nat)
    requires i < |requests| && KeysSeen(jobs, rows, requests, i)
    ensures KeyTaken(jobs + rows, requests[i].idempotencyKey) <==> Skipped(jobs, requests, i)
  {
    TakenIffStored(jobs, requests[i].idempotencyKey);
    assert KeyTaken(jobs + rows, requests[i].idempotencyKey) <==> Seen(jobs, requests, i, requests[i].idempotencyKey);
    hide KeyTaken, StoredKeys;
  }

  lemma SeenOnSkip(jobs: map<JobId, Job>, rows: map<JobId, Job>, requests: seq<Request>, n: nat)
    requires n < |requests| && KeysSeen(jobs, rows, requests, n) && KeyTaken(jobs + rows, requests[n].idempotencyKey)
    ensures KeysSeen(jobs, rows, requests, n + 1)
  {
    hide KeyTaken;
    assert Seen(jobs, requests, n, requests[n].idempotencyKey);
  }

  lemma SeenOnInsert(jobs: map<JobId, Job>, rows: map<JobId, Job>, requests: seq<Request>, n: nat, id: JobId, row: Job)
    requires n < |requests| && KeysSeen(jobs, rows, requests, n) && id !in jobs && id !in rows
    requires row.idempotencyKey == requests[n].idempotencyKey
    ensures KeysSeen(jobs, rows[id := row], requests, n + 1)
  {
    var after, m := jobs + rows[id := row], n + 1;
    forall key
      ensures KeyTaken(after, key) <==> Seen(jobs, requests, m, key)
    {
      assert KeyTaken(jobs + rows, key) <==> Seen(jobs, requests, n, key);
      TakenWithOne(jobs, rows, id, row, key);
      hide KeyTaken;
    }
  }

  lemma TakenWithOne(jobs: map<JobId, Job>, rows: map<JobId, Job>, id: JobId, row: Job, key: Option<string>)
    requires id !in jobs && id !in rows
    ensures KeyTaken(jobs + rows[id := row], key) <==>
      KeyTaken(jobs + rows, key) || (key.Some? && row.idempotencyKey == key)
  {
    var before, after := jobs + rows, jobs + rows[id := row];
    assert forall k :: k in before ==> k in after && after[k] == before[k];
    assert id in after && after[id] == row;
  }

  /** Every inserted row carries what its request asked for. */
  ghost predicate AsRequested(ids: seq<JobId>, rows: map<JobId, Job>, requests: seq<Request>, queue: QueueId,
                              shardCount: int, now: Time, hash: string -> nat)
    requires |ids| <= |requests|
  {
    forall i :: 0 <= i < |ids| && ids[i] != "" ==>
      ids[i] in rows && FromRequest(rows[ids[i]], requests[i], queue, ids[i], shardCount, now, hash)
  }

  lemma AsRequestedMore(ids: seq<JobId>, rows: map<JobId, Job>, requests: seq<Request>, queue: QueueId,
                        shardCount: int, now: Time, hash: string -> nat, id: JobId, row: Job)
    requires |ids| < |requests| && id !in rows
    requires AsRequested(ids, rows, requests, queue, shardCount, now, hash)
    requires FromRequest(row, requests[|ids|], queue, id, shardCount, now, hash)
    ensures AsRequested(ids + [id], rows[id := row], requests, queue, shardCount, now, hash)
  {
    hide FromRequest;
  }

  /** The first loop of the transaction: insert every request whose idempotency key is free. */
  method InsertRows(db: Database, queue: QueueId, requests: seq<Request>, internal: seq<seq<nat>>,
                    external: seq<seq<string>>, states: map<JobId, Status>, uuids: seq<JobId>, hash: string -> nat)
    returns (ids: seq<JobId>, rows: map<JobId, Job>, accepted: seq<JobId>, skipped: nat)
    requires |requests| == |internal| == |external| == |uuids| && queue in db.queues
    requires NoDup(uuids) && (forall id :: id in uuids ==> id != "" && id !in db.jobs) && KeysUnique(db.jobs)
    requires forall i :: 0 <= i < |requests| ==> Acceptable(requests[i])
    ensures |ids| == |requests| && KeysUnique(db.jobs + rows)
    ensures Inserted(ids, uuids, rows, internal, external, states)
    ensures AsRequested(ids, rows, requests, queue, db.queues[queue].shardCount, db.now, hash)
    ensures forall i :: 0 <= i < |ids| ==> (ids[i] == "" <==> Skipped(db.jobs, requests, i))
    ensures |accepted| + skipped == |requests| && |accepted| == |rows| && forall x :: x in accepted <==> x in rows
  {
    hide NoDup, KeysUnique, KeyTaken, RowFits, MustWait, Normalize, ShardOf, RowOf, Inserted, Accepts, Acceptable,
      AsRequested, FromRequest, Seen, KeysSeen, Skipped;
    ids, rows, accepted, skipped := [], map[], [], 0;
    assert db.jobs + rows == db.jobs;
    ghost var shards := db.queues[queue].shardCount;
    NothingInserted(db.jobs, uuids, internal, external, states, requests, queue, shards, db.now, hash);
    for i := 0 to |requests|
      invariant |ids| == i && Inserted(ids, uuids, rows, internal, external, states)
      invariant KeysUnique(db.jobs + rows) && KeysSeen(db.jobs, rows, requests, i)
      invariant AsRequested(ids, rows, requests, queue, shards, db.now, hash)
      invariant forall k :: 0 <= k < |ids| ==> (ids[k] == "" <==> Skipped(db.jobs, requests, k))
      invariant |accepted| + skipped == i && |accepted| == |rows| && forall x :: x in accepted <==> x in rows
    {
      var req := Normalize(requests[i]);
      var id := uuids[i];
      assert id in uuids;
      RowFromRequest(requests[i], queue, id, shards, db.now, hash, MustWait(internal[i], external[i], states));
      TakenIffSkipped(db.jobs, rows, requests, i);
      if KeyTaken(db.jobs + rows, req.idempotencyKey) {
        InsertedSkip(ids, uuids, rows, internal, external, states);
        SeenOnSkip(db.jobs, rows, requests, i);
        AsRequestedSkip(ids, rows, requests, queue, shards, db.now, hash);
        ids := ids + [""];
        skipped := skipped + 1;
        continue;
      }
      var row := RowOf(req, queue, ShardOf(requests[i], id, db.queues[queue].shardCount, hash), db.now,
                       MustWait(internal[i], external[i], states));
      AcceptsIff(requests[i]);
      RowOfFits(req, queue, ShardOf(requests[i], id, shards, hash), db.now, internal[i], external[i], states);
      AddRow(db.jobs, ids, uuids, rows, internal, external, states, row);
      SeenOnInsert(db.jobs, rows, requests, i, id, row);
      AsRequestedMore(ids, rows, requests, queue, shards, db.now, hash, id, row);
      rows := rows[id := row];
      ids := ids + [id];
      accepted := accepted + [id];
    }
  }

  lemma AsRequestedSkip(ids: seq<JobId>, rows: map<JobId, Job>, requests: seq<Request>, queue: QueueId,
                        shardCount: int, now: Time, hash: string -> nat)
    requires |ids| < |requests|
    requires AsRequested(ids, rows, requests, queue, shardCount, now, hash)
    ensures AsRequested(ids + [""], rows, requests, queue, shardCount, now, hash)
  {
    hide FromRequest;
  }

  lemma NothingInserted(jobs: map<JobId, Job>, uuids: seq<JobId>, internal: seq<seq<nat>>, external: seq<seq<string>>,
                        states: map<JobId, Status>, requests: seq<Request>, queue: QueueId, shardCount: int, now: Time,
                        hash: string -> nat)
    ensures Inserted([], uuids, map[], internal, external, states) && KeysSeen(jobs, map[], requests, 0)
    ensures AsRequested([], map[], requests, queue, shardCount, now, hash)
  {
    assert jobs + map[] == jobs;
  }

  lemma RowOfFits(r: Request, queue: QueueId, shard: nat, now: Time, internal: seq<nat>, external: seq<string>,
                  states: map<JobId, Status>)
    requires Accepts(r)
    ensures var row := RowOf(r, queue, shard, now, MustWait(internal, external, states));
      RowFits(row, internal, external, states) && row.idempotencyKey == r.idempotencyKey
  {
  }

  // ---------- The edges of a batch ----------

  /** The ids one request waits for: those of its internal dependencies and its external ones. */
  ghost predicate WaitsFor(ids: seq<JobId>, internal: seq<nat>, external: seq<string>, target: JobId)
  {
    target in external || exists j :: j in internal && j < |ids| && ids[j] == target
  }

  ghost predicate EdgeOf(ids: seq<JobId>, internal: seq<seq<nat>>, external: seq<seq<string>>, i: nat,
                         e: (JobId, JobId))
    requires i < |ids| && |ids| <= |internal| && |ids| <= |external|
  {
    ids[i] != "" && e.0 == ids[i] && WaitsFor(ids, internal[i], external[i], e.1)
  }

  ghost predicate EdgesOf(ids: seq<JobId>, internal: seq<seq<nat>>, external: seq<seq<string>>, n: nat,
                          edges: set<(JobId, JobId)>)
    requires n <= |ids| && |ids| <= |internal| && |ids| <= |external|
  {
    forall e :: e in edges <==> exists i :: 0 <= i < n && EdgeOf(ids, internal, external, i, e)
  }

  /** No inserted request depends on a skipped one. */
  predicate NothingMissing(ids: seq<JobId>, internal: seq<nat>)
  {
    forall j :: j in internal && j < |ids| ==> ids[j] != ""
  }

  /** The external dependencies of the inserted requests are still there. */
  predicate ExternalsStored(ids: seq<JobId>, external: seq<seq<string>>, stored: set<JobId>)
  {
    |ids| <= |external| && forall i, x :: 0 <= i < |ids| && ids[i] != "" && x in external[i] ==> x in stored
  }

  /** The second loop of the transaction, which rolls back when a dependency was skipped as a duplicate, or when one
      has been deleted since it was read and the insert fails its foreign key. */
  method InsertEdges(ids: seq<JobId>, internal: seq<seq<nat>>, external: seq<seq<string>>, stored: set<JobId>)
    returns (edges: set<(JobId, JobId)>, code: int)
    requires |ids| == |internal| == |external|
    requires forall i, k :: 0 <= i < |ids| && 0 <= k < |internal[i]| ==> internal[i][k] < |ids|
    ensures code in {0, 409, 500}
    ensures code == 0 <==>
      && (forall i :: 0 <= i < |ids| && ids[i] != "" ==> NothingMissing(ids, internal[i]))
      && ExternalsStored(ids, external, stored)
    ensures code == 409 ==> exists i :: 0 <= i < |ids| && ids[i] != "" && !NothingMissing(ids, internal[i])
    ensures code == 500 ==> !ExternalsStored(ids, external, stored)
    ensures code == 0 ==> EdgesOf(ids, internal, external, |ids|, edges)
  {
    hide EdgeOf;
    edges := {};
    for i := 0 to |ids|
      invariant EdgesOf(ids, internal, external, i, edges)
      invariant forall k :: 0 <= k < i && ids[k] != "" ==> NothingMissing(ids, internal[k])
      invariant forall k, x :: 0 <= k < i && ids[k] != "" && x in external[k] ==> x in stored
    {
      if ids[i] == "" {
        MoreEdges(ids, internal, external, i, edges, {});
        assert edges + {} == edges;
        continue;
      }
      var deps: seq<JobId> := [];
      for l := 0 to |internal[i]|
        invariant forall m :: 0 <= m < l ==> ids[internal[i][m]] != ""
        invariant forall x :: x in deps <==> exists m :: 0 <= m < l && ids[internal[i][m]] == x
      {
        var j := internal[i][l];
        assert j in internal[i];
        if ids[j] == "" {
          assert !NothingMissing(ids, internal[i]);
          return edges, 409;
        }
        deps := deps + [ids[j]];
      }
      if exists x :: x in external[i] && x !in stored {
        return edges, 500;
      }
      deps := deps + external[i];
      assert forall x :: x in deps <==> WaitsFor(ids, internal[i], external[i], x);
      MoreEdges(ids, internal, external, i, edges, set d | d in deps :: (ids[i], d));
      edges := edges + set d | d in deps :: (ids[i], d);
    }
    return edges, 0;
  }

  lemma MoreEdges(ids: seq<JobId>, internal: seq<seq<nat>>, external: seq<seq<string>>, i: nat,
                  edges: set<(JobId, JobId)>, more: set<(JobId, JobId)>)
    requires i < |ids| && |ids| <= |internal| && |ids| <= |external|
    requires EdgesOf(ids, internal, external, i, edges)
    requires forall e :: e in more <==> ids[i] != "" && e.0 == ids[i] && WaitsFor(ids, internal[i], external[i], e.1)
    ensures EdgesOf(ids, internal, external, i + 1, edges + more)
  {
    hide WaitsFor;
    forall e
      ensures e in edges + more <==> exists k :: 0 <= k < i + 1 && EdgeOf(ids, internal, external, k, e)
    {
      assert e in more <==> EdgeOf(ids, internal, external, i, e);
    }
  }

  lemma SameIndex(ids: seq<JobId>, uuids: seq<JobId>, rows: map<JobId, Job>, i: nat, k: nat)
    requires Numbered(ids, uuids, rows) && NoDup(uuids)
    requires i < |ids| && k < |ids| && ids[i] == ids[k] != ""
    ensures i == k
  {
    assert uuids[i] == uuids[k];
  }

  /** The index of a new row's request. */
  ghost function IndexOf(ids: seq<JobId>, id: JobId): (i: nat)
    requires id in ids
    ensures i < |ids| && ids[i] == id
  {
    var i: nat :| i < |ids| && ids[i] == id;
    i
  }

  /** The order Resolve found ranks the new rows, so the batch can be inserted. */
  lemma BatchInsertable(s: Db, nodes: seq<Node>, order: seq<nat>, internal: seq<seq<nat>>, external: seq<seq<string>>,
                        ids: seq<JobId>, uuids: seq<JobId>, rows: map<JobId, Job>, states: map<JobId, Status>,
                        edges: set<(JobId, JobId)>)
    requires Resolution(nodes, order, internal, external) && |ids| == |nodes|
    requires Inserted(ids, uuids, rows, internal, external, states) && NoDup(uuids)
    requires forall id :: id in uuids ==> id !in s.issued
    requires forall i :: 0 <= i < |ids| && ids[i] != "" ==> NothingMissing(ids, internal[i])
    requires ExternalsStored(ids, external, s.jobs.Keys)
    requires EdgesOf(ids, internal, external, |ids|, edges)
    ensures Enabled(s, Insert(rows, edges))
  {
    hide Resolution, Inserted, NoDup, EdgesOf, NothingMissing;
    NewRows(ids, uuids, rows, internal, external, states);
    BatchOrder(s, nodes, order, internal, external, ids, uuids, rows, states, edges);
    assert rows.Keys !! s.issued;
  }

  lemma NewRows(ids: seq<JobId>, uuids: seq<JobId>, rows: map<JobId, Job>, internal: seq<seq<nat>>,
                external: seq<seq<string>>, states: map<JobId, Status>)
    requires Inserted(ids, uuids, rows, internal, external, states)
    ensures forall id :: id in rows ==> NewRow(rows[id]) && id in uuids && id in ids
  {
    hide NewRow, MustWait;
    forall id | id in rows
      ensures NewRow(rows[id]) && id in uuids && id in ids
    {
      var i :| 0 <= i < |ids| && ids[i] == id;
      assert uuids[i] == id;
    }
  }

  lemma BatchOrder(s: Db, nodes: seq<Node>, order: seq<nat>, internal: seq<seq<nat>>, external: seq<seq<string>>,
                   ids: seq<JobId>, uuids: seq<JobId>, rows: map<JobId, Job>, states: map<JobId, Status>,
                   edges: set<(JobId, JobId)>)
    requires Resolution(nodes, order, internal, external) && |ids| == |nodes|
    requires Inserted(ids, uuids, rows, internal, external, states) && NoDup(uuids)
    requires forall i :: 0 <= i < |ids| && ids[i] != "" ==> NothingMissing(ids, internal[i])
    requires ExternalsStored(ids, external, s.jobs.Keys)
    requires EdgesOf(ids, internal, external, |ids|, edges)
    ensures exists rank :: InsertOrder(s, rows, edges, rank)
  {
    hide RowFits, NoDup, Position, Inserted, EdgesOf, Resolution, NothingMissing;
    NewRows(ids, uuids, rows, internal, external, states);
    OrderCovers(nodes, order, internal, external);
    var rank := map id | id in rows :: Position(order, IndexOf(ids, id));
    forall e | e in edges
      ensures e.0 in rows && (e.1 in s.jobs || (e.1 in rows && rank[e.1] < rank[e.0]))
    {
      EdgeRanked(s, nodes, order, internal, external, ids, uuids, rows, states, edges, e);
    }
    assert InsertOrder(s, rows, edges, rank);
  }

  lemma EdgeRanked(s: Db, nodes: seq<Node>, order: seq<nat>, internal: seq<seq<nat>>, external: seq<seq<string>>,
                   ids: seq<JobId>, uuids: seq<JobId>, rows: map<JobId, Job>, states: map<JobId, Status>,
                   edges: set<(JobId, JobId)>, e: (JobId, JobId))
    requires Resolution(nodes, order, internal, external) && |ids| == |nodes|
    requires Inserted(ids, uuids, rows, internal, external, states) && NoDup(uuids)
    requires forall i :: 0 <= i < |ids| && ids[i] != "" ==> NothingMissing(ids, internal[i])
    requires ExternalsStored(ids, external, s.jobs.Keys)
    requires EdgesOf(ids, internal, external, |ids|, edges) && e in edges
    ensures e.0 in rows && e.0 in ids && IndexOf(ids, e.0) in order
    ensures e.1 in s.jobs || (e.1 in rows && e.1 in ids && IndexOf(ids, e.1) in order
                              && Position(order, IndexOf(ids, e.1)) < Position(order, IndexOf(ids, e.0)))
  {
    OrderCovers(nodes, order, internal, external);
    hide RowFits, NoDup, Position, Resolution;
    var i :| 0 <= i < |ids| && EdgeOf(ids, internal, external, i, e);
    SameIndex(ids, uuids, rows, i, IndexOf(ids, e.0));
    if e.1 !in external[i] {
      var j :| j in internal[i] && j < |ids| && ids[j] == e.1;
      assert NothingMissing(ids, internal[i]);
      SameIndex(ids, uuids, rows, j, IndexOf(ids, e.1));
      DependencyEarlier(nodes, order, internal, external, i, j);
    }
  }

  lemma OrderCovers(nodes: seq<Node>, order: seq<nat>, internal: seq<seq<nat>>, external: seq<seq<string>>)
    requires Resolution(nodes, order, internal, external)
    ensures forall i :: 0 <= i < |nodes| ==> i in order
  {
  }

  lemma DependencyEarlier(nodes: seq<Node>, order: seq<nat>, internal: seq<seq<nat>>, external: seq<seq<string>>,
                          i: nat, j: nat)
    requires Resolution(nodes, order, internal, external) && i < |nodes| && j in internal[i]
    ensures j < |nodes| && i in order && j in order && Position(order, j) < Position(order, i)
  {
    hide References;
    assert Splits(nodes, nodes[i].dependsOn, internal[i], external[i]);
    OrderRanks(nodes, internal, external, order);
    assert DependsOn(nodes, i, j);
    assert (i, j) in InternalEdges(nodes);
  }

  /** Every new row of a batch is queued only if its dependencies are completed, and blocked only if one is not. */
  lemma BatchWaits(s: Db, ids: seq<JobId>, uuids: seq<JobId>, rows: map<JobId, Job>, internal: seq<seq<nat>>,
                   external: seq<seq<string>>, states: map<JobId, Status>, edges: set<(JobId, JobId)>, id: JobId)
    requires KeysOk(s) && id in rows
    requires Inserted(ids, uuids, rows, internal, external, states) && NoDup(uuids)
    requires |ids| <= |internal| && |ids| <= |external|
    requires forall u :: u in uuids ==> u !in s.issued
    requires forall i, k :: 0 <= i < |ids| && 0 <= k < |internal[i]| ==> internal[i][k] < |ids|
    requires forall i :: 0 <= i < |ids| && ids[i] != "" ==> NothingMissing(ids, internal[i])
    requires forall i, x :: 0 <= i < |ids| && x in external[i] ==>
      x in s.jobs && x in states && states[x] == s.jobs[x].status
    requires EdgesOf(ids, internal, external, |ids|, edges)
    ensures WaitsRightly(s.jobs + rows, s.deps + edges, id)
  {
    assert Numbered(ids, uuids, rows);
    hide NoDup, Inserted, EdgesOf, NothingMissing, WaitsFor, RowFits, NewRow;
    NewRows(ids, uuids, rows, internal, external, states);
    var i := IndexOf(ids, id);
    RowFitsRequest(ids, uuids, rows, internal, external, states, i);
    EdgesFrom(ids, uuids, rows, internal, external, edges, i);
    assert NothingMissing(ids, internal[i]);
    assert forall x :: x in external[i] ==> x !in rows;
    RowWaits(s, rows, edges, id, ids, internal[i], external[i], states);
  }

  lemma RowWaits(s: Db, rows: map<JobId, Job>, edges: set<(JobId, JobId)>, id: JobId, ids: seq<JobId>,
                 internal: seq<nat>, external: seq<string>, states: map<JobId, Status>)
    requires id in rows && id !in s.issued && KeysOk(s)
    requires RowFits(rows[id], internal, external, states) && NothingMissing(ids, internal)
    requires forall x :: (id, x) in edges <==> WaitsFor(ids, internal, external, x)
    requires forall r :: r in rows ==> NewRow(rows[r])
    requires forall k :: 0 <= k < |ids| && ids[k] != "" ==> ids[k] in rows
    requires forall k :: 0 <= k < |internal| ==> internal[k] < |ids|
    requires forall x :: x in external ==> x in s.jobs && x !in rows && x in states && states[x] == s.jobs[x].status
    ensures WaitsRightly(s.jobs + rows, s.deps + edges, id)
  {
    var jobs, deps := s.jobs + rows, s.deps + edges;
    assert forall e :: e in s.deps ==> e.0 != id;
    if rows[id].status == Queued {
      forall e | e in deps && e.0 == id
        ensures e.1 in jobs && jobs[e.1].status == Completed
      {
        assert (id, e.1) in edges;
      }
    } else if rows[id].status == Blocked {
      hide NewRow;
      if internal != [] {
        var j := internal[0];
        assert j in internal && ids[j] in rows && (id, ids[j]) in deps;
        assert NewRow(rows[ids[j]]);
        NewNotCompleted(rows[ids[j]]);
      } else {
        var x :| x in external && states[x] != Completed;
        assert (id, x) in deps;
      }
    }
  }

  lemma NewNotCompleted(row: Job)
    requires NewRow(row)
    ensures row.status != Completed
  {
  }

  lemma RowFitsRequest(ids: seq<JobId>, uuids: seq<JobId>, rows: map<JobId, Job>, internal: seq<seq<nat>>,
                       external: seq<seq<string>>, states: map<JobId, Status>, i: nat)
    requires Inserted(ids, uuids, rows, internal, external, states) && i < |ids| && ids[i] != ""
    ensures ids[i] in rows && RowFits(rows[ids[i]], internal[i], external[i], states)
    ensures forall k :: 0 <= k < |ids| && ids[k] != "" ==> ids[k] in rows
  {
    hide RowFits;
  }

  lemma EdgesFrom(ids: seq<JobId>, uuids: seq<JobId>, rows: map<JobId, Job>, internal: seq<seq<nat>>,
                  external: seq<seq<string>>, edges: set<(JobId, JobId)>, i: nat)
    requires Numbered(ids, uuids, rows) && NoDup(uuids) && i < |ids| && ids[i] != ""
    requires |ids| <= |internal| && |ids| <= |external|
    requires EdgesOf(ids, internal, external, |ids|, edges)
    ensures forall x :: (ids[i], x) in edges <==> WaitsFor(ids, internal[i], external[i], x)
  {
    hide NoDup, WaitsFor;
    forall x
      ensures (ids[i], x) in edges <==> WaitsFor(ids, internal[i], external[i], x)
    {
      if (ids[i], x) in edges {
        var k :| 0 <= k < |ids| && EdgeOf(ids, internal, external, k, (ids[i], x));
        SameIndex(ids, uuids, rows, i, k);
      } else {
        assert !EdgeOf(ids, internal, external, i, (ids[i], x));
      }
    }
  }

  // ---------- What a batch records ----------

  /** The requests as they were sent, before duplicates and blanks are dropped. */
  function GraphOf(requests: seq<Request>): seq<Node>
  {
    seq(|requests|, i requires 0 <= i < |requests| => Node(requests[i].ref, requests[i].dependsOn))
  }

  /** The id a reference stands for: that of the request declaring it, or itself. */
  ghost function Target(requests: seq<Request>, given: seq<JobId>, d: string): (id: JobId)
    requires |given| == |requests|
    ensures (forall j :: 0 <= j < |requests| ==> requests[j].ref != d) ==> id == d
    ensures (exists j :: 0 <= j < |requests| && requests[j].ref == d) ==>
      exists j :: 0 <= j < |requests| && requests[j].ref == d && id == given[j]
  {
    if j :| 0 <= j < |requests| && requests[j].ref == d then given[j] else d
  }

  ghost predicate Records(requests: seq<Request>, given: seq<JobId>, i: nat, e: (JobId, JobId))
    requires |given| == |requests| && i < |requests|
  {
    && given[i] != "" && e.0 == given[i]
    && exists d :: d in References(requests[i].dependsOn) && d != "" && e.1 == Target(requests, given, d)
  }

  /** The dependency rows written are exactly the references of the inserted requests. */
  ghost predicate RecordsAll(requests: seq<Request>, given: seq<JobId>, edges: set<(JobId, JobId)>)
    requires |given| == |requests|
  {
    forall e :: e in edges <==> exists i :: 0 <= i < |requests| && Records(requests, given, i, e)
  }

  lemma {:induction false} TargetIsWaitedFor(requests: seq<Request>, nodes: seq<Node>, given: seq<JobId>, i: nat,
                                             internal: seq<nat>, external: seq<string>, d: string)
    requires |given| == |requests| == |nodes| && i < |requests| && RefsDistinct(nodes)
    requires forall k :: 0 <= k < |nodes| ==> NodeOf(requests[k], nodes[k])
    requires Splits(nodes, nodes[i].dependsOn, internal, external)
    requires d in References(requests[i].dependsOn) && d != ""
    ensures WaitsFor(given, internal, external, Target(requests, given, d))
  {
    hide References, NoDup;
    assert NodeOf(requests[i], nodes[i]);
    var t := Target(requests, given, d);
    if forall j :: 0 <= j < |requests| ==> requests[j].ref != d {
      assert forall j :: 0 <= j < |nodes| ==> NodeOf(requests[j], nodes[j]);
      assert d in external;
    } else {
      var j :| 0 <= j < |requests| && requests[j].ref == d && t == given[j];
      assert NodeOf(requests[j], nodes[j]);
      assert j in internal;
    }
  }

  lemma WaitedForIsTarget(requests: seq<Request>, nodes: seq<Node>, given: seq<JobId>, i: nat,
                          internal: seq<nat>, external: seq<string>, t: JobId) returns (d: string)
    requires |given| == |requests| == |nodes| && i < |requests| && RefsDistinct(nodes)
    requires forall k :: 0 <= k < |nodes| ==> NodeOf(requests[k], nodes[k])
    requires Splits(nodes, nodes[i].dependsOn, internal, external)
    requires WaitsFor(given, internal, external, t)
    ensures d in References(requests[i].dependsOn) && d != "" && t == Target(requests, given, d)
  {
    hide References, NoDup;
    assert NodeOf(requests[i], nodes[i]);
    if t in external {
      d := t;
      forall j | 0 <= j < |requests|
        ensures requests[j].ref != d
      {
        assert NodeOf(requests[j], nodes[j]) && !Declared(nodes, d);
      }
    } else {
      var j :| j in internal && j < |given| && given[j] == t;
      d := nodes[j].ref;
      assert NodeOf(requests[j], nodes[j]) && requests[j].ref == d;
      var k :| 0 <= k < |requests| && requests[k].ref == d && Target(requests, given, d) == given[k];
      assert NodeOf(requests[k], nodes[k]) && j == k;
    }
  }

  lemma BatchRecords(requests: seq<Request>, nodes: seq<Node>, given: seq<JobId>, internal: seq<seq<nat>>,
                     external: seq<seq<string>>, edges: set<(JobId, JobId)>)
    requires |given| == |requests| == |nodes| && RefsDistinct(nodes) && SplitsAll(nodes, internal, external)
    requires forall k :: 0 <= k < |nodes| ==> NodeOf(requests[k], nodes[k])
    requires EdgesOf(given, internal, external, |given|, edges)
    ensures RecordsAll(requests, given, edges)
  {
    hide RefsDistinct, NodeOf, Splits, WaitsFor, References, Target;
    forall e
      ensures e in edges <==> exists i :: 0 <= i < |requests| && Records(requests, given, i, e)
    {
      if e in edges {
        var i :| 0 <= i < |given| && EdgeOf(given, internal, external, i, e);
        assert Splits(nodes, nodes[i].dependsOn, internal[i], external[i]);
        var d := WaitedForIsTarget(requests, nodes, given, i, internal[i], external[i], e.1);
        assert Records(requests, given, i, e);
      }
      if i :| 0 <= i < |requests| && Records(requests, given, i, e) {
        var d :| d in References(requests[i].dependsOn) && d != "" && e.1 == Target(requests, given, d);
        assert Splits(nodes, nodes[i].dependsOn, internal[i], external[i]);
        TargetIsWaitedFor(requests, nodes, given, i, internal[i], external[i], d);
        assert EdgeOf(given, internal, external, i, e);
      }
    }
  }

  lemma SameEdges(requests: seq<Request>, nodes: seq<Node>)
    requires |nodes| == |requests|
    requires forall k :: 0 <= k < |nodes| ==> NodeOf(requests[k], nodes[k])
    ensures InternalEdges(GraphOf(requests)) == InternalEdges(nodes)
  {
    hide References;
    var graph := GraphOf(requests);
    forall i, j | 0 <= i < |nodes| && 0 <= j < |nodes|
      ensures DependsOn(nodes, i, j) <==> DependsOn(graph, i, j)
    {
      assert NodeOf(requests[i], nodes[i]) && NodeOf(requests[j], nodes[j]);
    }
    assert forall e :: e in InternalEdges(graph) <==> e in InternalEdges(nodes);
  }

  /** A reference that no request of the batch declares, so that it must name a stored job. */
  ghost predicate IsExternal(requests: seq<Request>, x: string)
  {
    !Declared(GraphOf(requests), x) && exists i :: 0 <= i < |requests| && x in Wanted(requests[i])
  }

  ghost predicate ExternalsSatisfiable(queues: map<QueueId, QueueInfo>, project: ProjectId, jobs: map<JobId, Job>,
                                       requests: seq<Request>)
  {
    forall x :: IsExternal(requests, x) ==> Satisfiable(queues, project, jobs, x)
  }

  ghost predicate RequestSound(r: Request)
  {
    Acceptable(r) && |Wanted(r)| <= 64 && r.ref !in Wanted(r)
  }

  ghost predicate ExternalsKnown(queues: map<QueueId, QueueInfo>, project: ProjectId, jobs: map<JobId, Job>,
                                 requests: seq<Request>)
  {
    forall x :: IsExternal(requests, x) ==> Known(queues, project, jobs, x)
  }

  ghost predicate ExternalUuids(requests: seq<Request>, isUuid: string -> bool)
  {
    forall x :: IsExternal(requests, x) ==> isUuid(x)
  }

  /** The requests form a workflow: distinct refs, bounded dependencies, nothing waiting for itself. */
  ghost predicate BatchSound(requests: seq<Request>)
  {
    && 0 < |requests| <= 1000
    && (forall i :: 0 <= i < |requests| ==> RequestSound(requests[i]))
    && RefsDistinct(GraphOf(requests)) && Acyclic(InternalEdges(GraphOf(requests)))
  }

  ghost predicate WaitsForSkipped(jobs: map<JobId, Job>, requests: seq<Request>, i: nat, j: nat)
    requires i < |requests| && j < |requests|
  {
    !Skipped(jobs, requests, i) && Skipped(jobs, requests, j) && requests[j].ref in Wanted(requests[i])
  }

  /** No request that is stored waits for one that is skipped. */
  ghost predicate NoneMissing(jobs: map<JobId, Job>, requests: seq<Request>)
  {
    forall i, j :: 0 <= i < |requests| && 0 <= j < |requests| ==> !WaitsForSkipped(jobs, requests, i, j)
  }

  ghost predicate BatchAllowed(queues: map<QueueId, QueueInfo>, jobs: map<JobId, Job>, queue: QueueId,
                               requests: seq<Request>, isUuid: string -> bool)
  {
    && queue in queues && BatchSound(requests) && ExternalUuids(requests, isUuid)
    && ExternalsSatisfiable(queues, queues[queue].project, jobs, requests)
    && NoneMissing(jobs, requests)
  }

  lemma NodeSound(r: Request, node: Node)
    requires NodeOf(r, node)
    ensures NodeOk(node) <==> |Wanted(r)| <= 64 && r.ref !in Wanted(r)
  {
    NoDupSize(node.dependsOn);
    assert Elements(node.dependsOn) == References(node.dependsOn);
    assert forall k :: 0 <= k < |node.dependsOn| ==> node.dependsOn[k] in References(node.dependsOn);
    if r.ref in Wanted(r) {
      var k :| 0 <= k < |node.dependsOn| && node.dependsOn[k] == r.ref;
      assert !ReferenceOk(node, node.dependsOn[k]);
    }
  }

  /** Dropping blanks and duplicates first, as CreateBatch does, does not change what Resolve finds. */
  lemma SoundIffPasses(requests: seq<Request>, nodes: seq<Node>)
    requires |nodes| == |requests| && 0 < |requests| <= 1000
    requires forall k :: 0 <= k < |nodes| ==> Acceptable(requests[k]) && NodeOf(requests[k], nodes[k])
    ensures BatchSound(requests) <==> Passes(nodes) && Acyclic(InternalEdges(nodes))
  {
    SameEdges(requests, nodes);
    hide NodeOk, Acyclic, InternalEdges, Acceptable;
    forall k | 0 <= k < |nodes|
      ensures NodeOk(nodes[k]) <==> RequestSound(requests[k])
    {
      NodeSound(requests[k], nodes[k]);
    }
    assert RefsDistinct(nodes) <==> RefsDistinct(GraphOf(requests)) by {
      hide Wanted, References, NoDup;
      assert forall k :: 0 <= k < |nodes| ==> NodeOf(requests[k], nodes[k]) && GraphOf(requests)[k].ref == nodes[k].ref;
    }
  }

  lemma SameExternals(requests: seq<Request>, nodes: seq<Node>, internal: seq<seq<nat>>, external: seq<seq<string>>,
                      i: nat, x: string)
    requires |nodes| == |requests| && SplitsAll(nodes, internal, external) && i < |requests|
    requires forall k :: 0 <= k < |nodes| ==> NodeOf(requests[k], nodes[k])
    ensures x in external[i] <==> x in Wanted(requests[i]) && !Declared(GraphOf(requests), x)
  {
    hide References, Wanted, NoDup;
    assert forall k :: 0 <= k < |nodes| ==> NodeOf(requests[k], nodes[k]) && GraphOf(requests)[k].ref == nodes[k].ref;
    assert Splits(nodes, nodes[i].dependsOn, internal[i], external[i]);
    assert Declared(nodes, x) <==> Declared(GraphOf(requests), x);
  }

  lemma ExternalsAreSatisfiable(db: Database, project: ProjectId, requests: seq<Request>, nodes: seq<Node>,
                                internal: seq<seq<nat>>, external: seq<seq<string>>, externals: seq<string>,
                                states: map<JobId, Status>, code: int)
    requires |nodes| == |requests| && SplitsAll(nodes, internal, external)
    requires forall k :: 0 <= k < |nodes| ==> NodeOf(requests[k], nodes[k])
    requires forall x :: x in externals <==> exists i :: 0 <= i < |external| && x in external[i]
    requires states == States(db, project, externals)
    requires code == 0 <==>
      && (forall id :: id in externals ==> id in states)
      && (forall id :: id in states ==> states[id] !in {Dead, Cancelled})
    requires code == 400 <==> exists id :: id in externals && id !in states
    ensures code == 0 <==> ExternalsSatisfiable(db.queues, project, db.jobs, requests)
    ensures code == 400 <==> !ExternalsKnown(db.queues, project, db.jobs, requests)
    ensures code == 0 ==> ExternalsOk(external, db.jobs, states)
  {
    StatesSatisfiable(db, project, externals, states, code, Elements(externals));
    StatesOfExternals(db, project, external, externals, states);
    ExternalsAreReferences(requests, nodes, internal, external, externals);
    hide SplitsAll, Satisfiable, Known, NodeOf, States, ExternalsOk, IsExternal;
    assert forall x :: IsExternal(requests, x) <==> x in Elements(externals);
  }

  lemma ExternalsAreReferences(requests: seq<Request>, nodes: seq<Node>, internal: seq<seq<nat>>,
                               external: seq<seq<string>>, externals: seq<string>)
    requires |nodes| == |requests| && SplitsAll(nodes, internal, external)
    requires forall k :: 0 <= k < |nodes| ==> NodeOf(requests[k], nodes[k])
    requires forall x :: x in externals <==> exists i :: 0 <= i < |external| && x in external[i]
    ensures forall x :: x in externals <==> IsExternal(requests, x)
  {
    SplitSizes(nodes, internal, external);
    hide SplitsAll, Wanted, Declared, NodeOf;
    forall i, x | 0 <= i < |requests|
      ensures x in external[i] <==> x in Wanted(requests[i]) && !Declared(GraphOf(requests), x)
    {
      SameExternals(requests, nodes, internal, external, i, x);
    }
  }

  lemma SameUuids(requests: seq<Request>, nodes: seq<Node>, internal: seq<seq<nat>>, external: seq<seq<string>>,
                  externals: seq<string>, isUuid: string -> bool)
    requires |nodes| == |requests| && SplitsAll(nodes, internal, external)
    requires forall k :: 0 <= k < |nodes| ==> NodeOf(requests[k], nodes[k])
    requires forall x :: x in externals <==> exists i :: 0 <= i < |external| && x in external[i]
    ensures ExternalUuids(requests, isUuid) <==> forall x :: x in externals ==> isUuid(x)
  {
    ExternalsAreReferences(requests, nodes, internal, external, externals);
    hide SplitsAll, NodeOf, IsExternal;
  }

  lemma StatesOfExternals(db: Database, project: ProjectId, external: seq<seq<string>>, externals: seq<string>,
                          states: map<JobId, Status>)
    requires forall x :: x in externals <==> exists i :: 0 <= i < |external| && x in external[i]
    requires states == States(db, project, externals)
    ensures (forall id :: id in externals ==> id in states) ==> ExternalsOk(external, db.jobs, states)
  {
    forall i, x | 0 <= i < |external| && x in external[i]
      ensures x in externals
    {
    }
  }

  lemma SplitSizes(nodes: seq<Node>, internal: seq<seq<nat>>, external: seq<seq<string>>)
    requires SplitsAll(nodes, internal, external)
    ensures |external| == |internal| == |nodes|
  {
  }

  lemma MissingIffSkipped(jobs: map<JobId, Job>, requests: seq<Request>, nodes: seq<Node>, internal: seq<seq<nat>>,
                          external: seq<seq<string>>, ids: seq<JobId>)
    requires |nodes| == |requests| == |ids| && SplitsAll(nodes, internal, external)
    requires forall k :: 0 <= k < |nodes| ==> NodeOf(requests[k], nodes[k])
    requires forall i :: 0 <= i < |ids| ==> (ids[i] == "" <==> Skipped(jobs, requests, i))
    ensures (forall i :: 0 <= i < |ids| && ids[i] != "" ==> NothingMissing(ids, internal[i]))
       <==> NoneMissing(jobs, requests)
  {
    hide Skipped, NoDup;
    forall i: nat, j: nat | i < |requests| && j < |requests|
      ensures j in internal[i] <==> requests[j].ref in Wanted(requests[i])
    {
      hide References;
      assert NodeOf(requests[i], nodes[i]) && NodeOf(requests[j], nodes[j]);
      assert Splits(nodes, nodes[i].dependsOn, internal[i], external[i]);
    }
    hide Wanted, NodeOf, SplitsAll;
    if NoneMissing(jobs, requests) {
      forall i | 0 <= i < |ids| && ids[i] != ""
        ensures NothingMissing(ids, internal[i])
      {
        forall j: nat | j in internal[i] && j < |ids|
          ensures ids[j] != ""
        {
          assert !WaitsForSkipped(jobs, requests, i, j);
        }
      }
    }
    if forall i :: 0 <= i < |ids| && ids[i] != "" ==> NothingMissing(ids, internal[i]) {
      forall i: nat, j: nat | i < |requests| && j < |requests|
        ensures !WaitsForSkipped(jobs, requests, i, j)
      {
        assert ids[i] != "" ==> NothingMissing(ids, internal[i]);
      }
    }
  }

  /** What an accepted batch did: `given[i]` is the id of request i, or empty when the request was skipped. */
  ghost predicate BatchStored(before: Db, after: Db, requests: seq<Request>, queue: QueueId, shardCount: int,
                              hash: string -> nat, reply: Reply, given: seq<JobId>, rows: map<JobId, Job>,
                              edges: set<(JobId, JobId)>)
  {
    && Enabled(before, Insert(rows, edges)) && after == Next(before, Insert(rows, edges))
    && reply.Created? && |given| == |requests| == |reply.ids| + reply.skipped && |rows| == |reply.ids|
    && (forall x :: x in reply.ids <==> x in rows)
    && (forall x :: x in rows <==> x in given && x != "")
    && (forall i :: 0 <= i < |given| ==> (given[i] == "" <==> Skipped(before.jobs, requests, i)))
    && AsRequested(given, rows, requests, queue, shardCount, before.now, hash)
    && RecordsAll(requests, given, edges)
  }

  ghost predicate AllWaitRightly(s: Db, rows: map<JobId, Job>)
  {
    forall id :: id in rows ==> WaitsRightly(s.jobs, s.deps, id)
  }

  lemma GivenAreRows(ids: seq<JobId>, uuids: seq<JobId>, rows: map<JobId, Job>)
    requires Numbered(ids, uuids, rows)
    ensures forall x :: x in rows <==> x in ids && x != ""
  {
  }

  predicate ExternalsOk(external: seq<seq<string>>, jobs: map<JobId, Job>, states: map<JobId, Status>)
  {
    forall i, x :: 0 <= i < |external| && x in external[i] ==> x in jobs && x in states && states[x] == jobs[x].status
  }

  lemma IndicesInRange(nodes: seq<Node>, order: seq<nat>, internal: seq<seq<nat>>, external: seq<seq<string>>)
    requires Resolution(nodes, order, internal, external)
    ensures |internal| == |external| == |nodes|
    ensures forall i, k :: 0 <= i < |nodes| && 0 <= k < |internal[i]| ==> internal[i][k] < |nodes|
  {
    hide References;
    forall i, k | 0 <= i < |nodes| && 0 <= k < |internal[i]|
      ensures internal[i][k] < |nodes|
    {
      assert Splits(nodes, nodes[i].dependsOn, internal[i], external[i]) && internal[i][k] in internal[i];
    }
  }

  lemma UnusedIds(s: Db, uuids: seq<JobId>)
    requires KeysOk(s) && forall u :: u in uuids ==> u !in s.issued
    ensures forall u :: u in uuids ==> u !in s.jobs
  {
  }

  lemma BatchIsStored(s: Db, requests: seq<Request>, nodes: seq<Node>, order: seq<nat>, internal: seq<seq<nat>>,
                      external: seq<seq<string>>, ids: seq<JobId>, uuids: seq<JobId>, rows: map<JobId, Job>,
                      accepted: seq<JobId>, skipped: nat, states: map<JobId, Status>, edges: set<(JobId, JobId)>,
                      queue: QueueId, shardCount: int, hash: string -> nat)
    requires KeysOk(s) && |requests| == |nodes| == |ids| && NoDup(uuids)
    requires forall u :: u in uuids ==> u !in s.issued
    requires forall i :: 0 <= i < |requests| ==> NodeOf(requests[i], nodes[i])
    requires Passes(nodes) && Resolution(nodes, order, internal, external)
    requires forall i :: 0 <= i < |ids| ==> (ids[i] == "" <==> Skipped(s.jobs, requests, i))
    requires AsRequested(ids, rows, requests, queue, shardCount, s.now, hash)
    requires ExternalsStored(ids, external, s.jobs.Keys)
    requires Inserted(ids, uuids, rows, internal, external, states)
    requires |accepted| + skipped == |requests| && |accepted| == |rows| && forall x :: x in accepted <==> x in rows
    requires forall i :: 0 <= i < |ids| && ids[i] != "" ==> NothingMissing(ids, internal[i])
    requires EdgesOf(ids, internal, external, |ids|, edges)
    ensures Enabled(s, Insert(rows, edges))
    ensures BatchStored(s, Next(s, Insert(rows, edges)), requests, queue, shardCount, hash, Created(accepted, skipped),
                        ids, rows, edges)
  {
    hide KeysOk, NoDup, NodeOf, NothingMissing, Acyclic, InternalEdges, Inserted, Enabled, EdgesOf, RecordsAll,
      WaitsRightly, Next, Resolution, ExternalsOk, ExternalsStored, Passes, RefsDistinct, GraphOf, Skipped, AsRequested;
    ResolutionSplits(nodes, order, internal, external);
    BatchIsInsertable(s, nodes, order, internal, external, ids, uuids, rows, states, edges);
    BatchRecords(requests, nodes, ids, internal, external, edges);
    GivenOfInserted(ids, uuids, rows, internal, external, states);
  }

  lemma BatchWaitsRightly(s: Db, nodes: seq<Node>, order: seq<nat>, internal: seq<seq<nat>>,
                          external: seq<seq<string>>, ids: seq<JobId>, uuids: seq<JobId>, rows: map<JobId, Job>,
                          states: map<JobId, Status>, edges: set<(JobId, JobId)>)
    requires KeysOk(s) && |ids| == |nodes| && NoDup(uuids) && forall u :: u in uuids ==> u !in s.issued
    requires Passes(nodes) && Resolution(nodes, order, internal, external)
    requires Inserted(ids, uuids, rows, internal, external, states)
    requires forall i :: 0 <= i < |ids| && ids[i] != "" ==> NothingMissing(ids, internal[i])
    requires EdgesOf(ids, internal, external, |ids|, edges) && Enabled(s, Insert(rows, edges))
    ensures ExternalsOk(external, s.jobs, states) ==> AllWaitRightly(Next(s, Insert(rows, edges)), rows)
  {
    hide KeysOk, NoDup, NothingMissing, Inserted, Enabled, EdgesOf, WaitsRightly, Next, Resolution, ExternalsOk, Passes,
      RefsDistinct;
    ResolutionSplits(nodes, order, internal, external);
    AfterInsert(s, rows, edges);
    if ExternalsOk(external, s.jobs, states) {
      BatchAllWait(s, ids, uuids, rows, internal, external, states, edges);
    }
  }

  lemma ResolutionSplits(nodes: seq<Node>, order: seq<nat>, internal: seq<seq<nat>>, external: seq<seq<string>>)
    requires Passes(nodes) && Resolution(nodes, order, internal, external)
    ensures RefsDistinct(nodes) && SplitsAll(nodes, internal, external) && |internal| == |external| == |nodes|
    ensures forall i, k :: 0 <= i < |nodes| && 0 <= k < |internal[i]| ==> internal[i][k] < |nodes|
  {
    IndicesInRange(nodes, order, internal, external);
  }

  lemma BatchIsInsertable(s: Db, nodes: seq<Node>, order: seq<nat>, internal: seq<seq<nat>>,
                          external: seq<seq<string>>, ids: seq<JobId>, uuids: seq<JobId>, rows: map<JobId, Job>,
                          states: map<JobId, Status>, edges: set<(JobId, JobId)>)
    requires Resolution(nodes, order, internal, external) && |ids| == |nodes| == |external|
    requires Inserted(ids, uuids, rows, internal, external, states) && NoDup(uuids)
    requires forall id :: id in uuids ==> id !in s.issued
    requires forall i :: 0 <= i < |ids| && ids[i] != "" ==> NothingMissing(ids, internal[i])
    requires ExternalsStored(ids, external, s.jobs.Keys)
    requires EdgesOf(ids, internal, external, |ids|, edges)
    ensures Enabled(s, Insert(rows, edges))
  {
    hide NoDup, NothingMissing, Inserted, Enabled, EdgesOf, Resolution;
    BatchInsertable(s, nodes, order, internal, external, ids, uuids, rows, states, edges);
  }

  lemma GivenOfInserted(ids: seq<JobId>, uuids: seq<JobId>, rows: map<JobId, Job>, internal: seq<seq<nat>>,
                        external: seq<seq<string>>, states: map<JobId, Status>)
    requires Inserted(ids, uuids, rows, internal, external, states)
    ensures forall x :: x in rows <==> x in ids && x != ""
  {
    hide RowFits;
    GivenAreRows(ids, uuids, rows);
  }

  lemma AfterInsert(s: Db, rows: map<JobId, Job>, edges: set<(JobId, JobId)>)
    requires Enabled(s, Insert(rows, edges))
    ensures Next(s, Insert(rows, edges)).jobs == s.jobs + rows
    ensures Next(s, Insert(rows, edges)).deps == s.deps + edges
  {
    hide Enabled;
  }

  lemma BatchAllWait(s: Db, ids: seq<JobId>, uuids: seq<JobId>, rows: map<JobId, Job>, internal: seq<seq<nat>>,
                     external: seq<seq<string>>, states: map<JobId, Status>, edges: set<(JobId, JobId)>)
    requires KeysOk(s) && NoDup(uuids) && Inserted(ids, uuids, rows, internal, external, states)
    requires |ids| == |internal| == |external|
    requires forall u :: u in uuids ==> u !in s.issued
    requires forall i, k :: 0 <= i < |ids| && 0 <= k < |internal[i]| ==> internal[i][k] < |ids|
    requires forall i :: 0 <= i < |ids| && ids[i] != "" ==> NothingMissing(ids, internal[i])
    requires ExternalsOk(external, s.jobs, states)
    requires EdgesOf(ids, internal, external, |ids|, edges)
    ensures forall id :: id in rows ==> WaitsRightly(s.jobs + rows, s.deps + edges, id)
  {
    hide KeysOk, NoDup, NothingMissing, Inserted, EdgesOf, WaitsRightly;
    forall id | id in rows
      ensures WaitsRightly(s.jobs + rows, s.deps + edges, id)
    {
      BatchWaits(s, ids, uuids, rows, internal, external, states, edges, id);
    }
  }

  /** The transaction of CreateBatch, over states that may have changed since they were read. When the queue has been
      deleted by now, no INSERT returns a row, and every request counts as skipped. */
  method StoreBatch(db: Database, queue: QueueId, requests: seq<Request>, nodes: seq<Node>, ghost order: seq<nat>,
                    internal: seq<seq<nat>>, external: seq<seq<string>>, states: map<JobId, Status>,
                    uuids: seq<JobId>, hash: string -> nat)
    returns (reply: Reply, ghost given: seq<JobId>, ghost rows: map<JobId, Job>, ghost edges: set<(JobId, JobId)>)
    requires db.Valid() && KeysUnique(db.jobs)
    requires |requests| == |nodes| == |uuids| && NoDup(uuids)
    requires forall u :: u in uuids ==> u != "" && u !in db.issued
    requires forall i :: 0 <= i < |requests| ==> Acceptable(requests[i]) && NodeOf(requests[i], nodes[i])
    requires Passes(nodes) && Resolution(nodes, order, internal, external)
    modifies db`jobs, db`deps, db`issued
    ensures db.Valid() && KeysUnique(db.jobs)
    ensures |given| == |requests| == |external|
    ensures queue !in db.queues ==> reply == Created([], |requests|) && db.State() == old(db.State())
    ensures reply.Created? <==>
      || queue !in db.queues
      || (NoneMissing(old(db.jobs), requests) && ExternalsStored(given, external, old(db.jobs).Keys))
    ensures queue in db.queues ==>
      forall i :: 0 <= i < |given| ==> (given[i] == "" <==> Skipped(old(db.jobs), requests, i))
    ensures reply.Rejected? ==> reply.code in {409, 500} && db.State() == old(db.State())
    ensures reply == Rejected(409) ==> !NoneMissing(old(db.jobs), requests)
    ensures reply == Rejected(500) ==> !ExternalsStored(given, external, old(db.jobs).Keys)
    ensures reply.Created? && queue in db.queues ==>
      && BatchStored(old(db.State()), db.State(), requests, queue, db.queues[queue].shardCount, hash, reply, given,
                     rows, edges)
      && Inserted(given, uuids, rows, internal, external, states)
      && (ExternalsOk(external, old(db.jobs), states) ==> AllWaitRightly(db.State(), rows))
  {
    ghost var before := db.State();
    UnusedIds(before, uuids);
    IndicesInRange(nodes, order, internal, external);
    hide Inv, KeysOk, KeysUnique, Resolution, NoDup, Acceptable, NodeOf, NothingMissing, InternalEdges,
      Inserted, Enabled, EdgesOf, RecordsAll, ExternalsOk, WaitsRightly, Next, Passes, BatchStored, NoneMissing,
      AsRequested, Skipped, SplitsAll, RefsDistinct, ExternalsStored, AllWaitRightly;
    ResolutionSplits(nodes, order, internal, external);
    if queue !in db.queues {
      return Created([], |requests|), seq(|requests|, _ => ""), map[], {};
    }
    var ids, newRows, accepted, skipped := InsertRows(db, queue, requests, internal, external, states, uuids, hash);
    var newEdges, code := InsertEdges(ids, internal, external, db.jobs.Keys);
    MissingIffSkipped(db.jobs, requests, nodes, internal, external, ids);
    if code != 0 {
      return Rejected(code), ids, newRows, newEdges;
    }
    BatchIsStored(before, requests, nodes, order, internal, external, ids, uuids, newRows, accepted, skipped, states,
                  newEdges, queue, db.queues[queue].shardCount, hash);
    BatchWaitsRightly(before, nodes, order, internal, external, ids, uuids, newRows, states, newEdges);
    Commit(db, newRows, newEdges);
    return Created(accepted, skipped), ids, newRows, newEdges;
  }

  lemma CurrentExternalsStored(ids: seq<JobId>, external: seq<seq<string>>, jobs: map<JobId, Job>,
                               states: map<JobId, Status>)
    requires ExternalsOk(external, jobs, states) && |ids| == |external|
    ensures ExternalsStored(ids, external, jobs.Keys)
  {
  }

  /** CreateBatch when nothing comes between its reads and its transaction. A rejected batch changes nothing; an
      accepted one is stored whole, with its references. */
  method CreateBatch(db: Database, queue: QueueId, requests: seq<Request>, uuids: seq<JobId>, hash: string -> nat,
                     isUuid: string -> bool)
    returns (reply: Reply, ghost given: seq<JobId>, ghost rows: map<JobId, Job>, ghost edges: set<(JobId, JobId)>)
    requires db.Valid() && KeysUnique(db.jobs)
    requires |uuids| == |requests| && NoDup(uuids) && forall u :: u in uuids ==> u != "" && u !in db.issued
    modifies db`jobs, db`deps, db`issued
    ensures db.Valid() && KeysUnique(db.jobs)
    ensures reply.Created? <==> BatchAllowed(db.queues, old(db.jobs), queue, requests, isUuid)
    ensures reply.Rejected? ==> reply.code in {400, 404, 409, 500} && db.State() == old(db.State())
    ensures reply == Rejected(404) <==> 0 < |requests| <= 1000 && queue !in db.queues
    ensures reply == Rejected(400) <==>
      || !(0 < |requests| <= 1000)
      || (&& queue in db.queues
          && !(BatchSound(requests) && (ExternalUuids(requests, isUuid) ==>
                 ExternalsKnown(db.queues, db.queues[queue].project, old(db.jobs), requests))))
    ensures reply == Rejected(500) <==>
      queue in db.queues && BatchSound(requests) && !ExternalUuids(requests, isUuid)
    ensures reply.Created? ==>
      && BatchStored(old(db.State()), db.State(), requests, queue, db.queues[queue].shardCount, hash, reply, given,
                     rows, edges)
      && AllWaitRightly(db.State(), rows)
  {
    hide Inv, KeysUnique, NoDup, Acceptable, Acyclic, InternalEdges, BatchStored, NodeOf, FirstFault,
      NamesCycle, Passes, Topological, SplitsAll, ExternalsSatisfiable, ExternalsKnown, NoneMissing, ExternalsOk,
      RefsDistinct, Wanted, AllWaitRightly, ExternalsStored, Inserted, Skipped, ExternalUuids;
    given, rows, edges := [], map[], {};
    if |requests| == 0 || |requests| > MAX_BATCH {
      return Rejected(400), given, rows, edges;
    }
    if queue !in db.queues {
      return Rejected(404), given, rows, edges;
    }
    var nodes, ok := Prepare(requests);
    if !ok {
      return Rejected(400), given, rows, edges;
    }
    SoundIffPasses(requests, nodes);
    hide BatchSound;
    var graph := Workflow.Resolve(nodes);
    if !graph.Resolved? {
      return Rejected(400), given, rows, edges;
    }
    var externals := CollectExternals(graph.external);
    SameUuids(requests, nodes, graph.internal, graph.external, externals, isUuid);
    if exists x :: x in externals && !isUuid(x) {
      return Rejected(500), given, rows, edges;
    }
    var states := States(db, db.queues[queue].project, externals);
    var code := ValidateDependencies(externals, states);
    ExternalsAreSatisfiable(db, db.queues[queue].project, requests, nodes, graph.internal, graph.external, externals,
                            states, code);
    if code != 0 {
      return Rejected(code), given, rows, edges;
    }
    ghost var jobs := db.jobs;
    reply, given, rows, edges := StoreBatch(db, queue, requests, nodes, graph.order, graph.internal, graph.external,
                                            states, uuids, hash);
    CurrentExternalsStored(given, graph.external, jobs, states);
  }
}
