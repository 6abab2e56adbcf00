/** The handlers and the worker as they change the tables: every method is one atomic step of the lifecycle
    and keeps its invariant. */
module Store {
  import opened Wrappers
  import Delay
  import opened FloatingPoint
  import opened Sequences
  import opened JobStore
  import opened Lifecycle
  import opened Topology

  type ProjectId = string

  datatype QueueInfo = QueueInfo(project: ProjectId, shardCount: int)

  datatype DlqRead = Missing | Unhandled | Retryable(job: JobId)
  datatype DlqReply = NotFound | Conflict | Requeued(job: JobId)
  datatype RetryAllReply = NoHandlers | Retried(requeued: nat, skipped: nat)

  /** ORDER BY priority DESC, run_at ASC. */
  predicate Outranks(a: Job, b: Job)
  {
    a.priority > b.priority || (a.priority == b.priority && a.runAt < b.runAt)
  }

  lemma {:induction false} SomeFirst(jobs: map<JobId, Job>, pool: set<JobId>) returns (first: JobId)
    requires pool != {} && pool <= jobs.Keys
    ensures first in pool && forall id :: id in pool ==> !Outranks(jobs[id], jobs[first])
    decreases |pool|
  {
    first :| first in pool;
    if pool != {first} {
      assert pool == (pool - {first}) + {first};
      var rest := SomeFirst(jobs, pool - {first});
      if !Outranks(jobs[first], jobs[rest]) {
        first := rest;
      }
    }
  }

  /** `chosen` has been taken out of `pool`, none of it outranked by what is left. */
  ghost predicate Picked(jobs: map<JobId, Job>, pool: set<JobId>, rest: set<JobId>, chosen: seq<JobId>)
    requires pool <= jobs.Keys
  {
    && NoDup(chosen) && rest <= pool && rest + Elements(chosen) == pool
    && (forall id :: id in chosen ==> id in pool && id !in rest)
    && (forall other, id :: other in rest && id in chosen ==> !Outranks(jobs[other], jobs[id]))
  }

  lemma PickOne(jobs: map<JobId, Job>, pool: set<JobId>, rest: set<JobId>, chosen: seq<JobId>, id: JobId)
    requires pool <= jobs.Keys && Picked(jobs, pool, rest, chosen)
    requires id in rest && forall other :: other in rest ==> !Outranks(jobs[other], jobs[id])
    ensures Picked(jobs, pool, rest - {id}, chosen + [id])
  {
    hide Outranks;
    assert id !in chosen;
    assert Elements(chosen + [id]) == Elements(chosen) + {id};
  }

  /** Timestamps count microseconds, delays nanoseconds. */
  const NANOS_PER_TICK := 1000

  /** When an attempt that failed now is due again. */
  function RetryTime(now: Time, policy: Option<Delay.Policy>, attempt: nat, round: Rounding): Time
    requires attempt >= 1
  {
    now + Delay.DelayOf(policy, attempt, round) / NANOS_PER_TICK
  }

  /** With no policy, the row of a failed attempt comes due after 2^(n-1) seconds, at most five minutes, exactly for the
      attempts whose 64-bit product survives; after any other attempt it is due already. */
  lemma NoPolicyRetryTime(now: Time, attempt: nat, round: Rounding)
    requires attempt >= 1
    ensures RetryTime(now, None, attempt, round) == now + Delay.Min(SECOND * Delay.Pow2(attempt - 1), 300 * SECOND)
       <==> attempt <= 34 || attempt in Delay.RECOVERS
    ensures attempt > 34 && attempt !in Delay.RECOVERS ==> RetryTime(now, None, attempt, round) <= now
  {
    Delay.NoPolicyExact(attempt);
    InMicroseconds(Delay.Pow2(attempt - 1));
    hide Delay.Pow2, Delay.NoPolicyDelay;
  }

  lemma InMicroseconds(p: int)
    requires p >= 1
    ensures Delay.Min(Delay.SECOND * p, Delay.FIVE_MINUTES) / NANOS_PER_TICK == Delay.Min(SECOND * p, 300 * SECOND) > 0
  {
  }

  /** A millisecond is a thousand ticks. */
  const TICKS_PER_MS := 1000

  lemma WholeMilliseconds(ms: int)
    ensures ms * Delay.MILLISECOND / NANOS_PER_TICK == ms * TICKS_PER_MS
  {
  }

  /** With a policy, the row of the n-th failed attempt comes due after the initial delay when the strategy is fixed,
      and after min(initial * n, max) when it is linear and the product fits 64 bits. */
  lemma SteadyRetryTime(now: Time, p: Delay.Policy, attempt: nat, round: Rounding)
    requires Delay.Sane(p) && 1 <= attempt < 0x8000_0000
    ensures p.strategy.Fixed? ==> RetryTime(now, Some(p), attempt, round) == now + p.initialMs * TICKS_PER_MS
    ensures p.strategy.Linear? && p.initialMs * attempt * 1_000_000 < 0x8000_0000_0000_0000 ==>
      RetryTime(now, Some(p), attempt, round) == now + Delay.Min(p.initialMs * attempt, p.maxMs) * TICKS_PER_MS
  {
    if p.strategy.Fixed? {
      Delay.FixedExact(p, attempt, round);
      WholeMilliseconds(p.initialMs);
    } else if p.strategy.Linear? {
      Delay.LinearExact(p, attempt, round);
      WholeMilliseconds(Delay.Min(p.initialMs * attempt, p.maxMs));
    }
    hide Delay.DelayOf, Delay.Wrap;
  }

  /** When it is exponential, after min(initial * multiplier^(n-1), max) cut to whole milliseconds, if the products
      below the cap are representable, or no rounding error of at most u can matter. */
  lemma ExponentialRetryTime(now: Time, p: Delay.Policy, attempt: nat, round: Rounding, u: real)
    requires Delay.Sane(p) && p.strategy.Exponential? && attempt >= 1
    requires || (IsRounding(round) && Delay.Representable(p, attempt, round))
             || (0.0 <= u < 1.0 && Within(round, u) && Delay.Settles(p, attempt, u))
    ensures var grown := Product(p.initialMs as real, Power(p.multiplier, attempt - 1));
      var ms := if grown <= p.maxMs as real then grown.Floor else p.maxMs;
      RetryTime(now, Some(p), attempt, round) == now + ms * TICKS_PER_MS
  {
    hide Delay.DelayOf, IsRounding, Within, Delay.Representable, Delay.Settles;
    if IsRounding(round) && Delay.Representable(p, attempt, round) {
      Delay.ExponentialExact(p, attempt, round);
    } else {
      Delay.ExponentialExactIff(p, attempt, u);
      assert Within(round, u);
    }
    assert Delay.DelayOf(Some(p), attempt, round) == Delay.Promised(p, attempt);
    var grown := Product(p.initialMs as real, Power(p.multiplier, attempt - 1));
    var ms := if grown <= p.maxMs as real then grown.Floor else p.maxMs;
    assert Delay.Promised(p, attempt) == ms * Delay.MILLISECOND;
    WholeMilliseconds(ms);
  }

  /** Claimed by the worker and not started. */
  predicate HasClaimed(j: Job, worker: WorkerId)
  {
    j.status == Claimed && j.claimedBy == Some(worker)
  }

  predicate HasRunning(j: Job, worker: WorkerId)
  {
    j.status == Running && j.claimedBy == Some(worker)
  }

  lemma HolderHasClaimed(s: Db, t: Token)
    requires Inv(s) && t in s.live && !s.live[t].phase.Executing?
    ensures CanWrite(s, t) && s.live[t].job in s.jobs ==> HasClaimed(s.jobs[s.live[t].job], s.live[t].worker)
  {
    assert LeaseOkAt(s, t);
  }

  lemma HolderIsRunning(s: Db, t: Token)
    requires Inv(s) && t in s.live && s.live[t].phase.Executing? && s.now <= s.live[t].phase.deadline
    ensures s.live[t].seen >= 0
    ensures s.live[t].job in s.jobs ==> HasRunning(s.jobs[s.live[t].job], s.live[t].worker)
  {
    assert LeaseOkAt(s, t);
  }

  lemma FreshRetryIsOrderly(s: Db, d: DlqId)
    requires Inv(s) && Unresolved(s, d)
    ensures Enabled(s, RetryDead(d, s.dlq[d].job)) && Orderly(s, RetryDead(d, s.dlq[d].job))
    ensures RetrySpares(s, RetryDead(d, s.dlq[d].job))
  {
    FreshRetrySpares(s, d);
  }

  /** No row but these has changed. */
  ghost predicate OnlyRows(before: map<JobId, Job>, after: map<JobId, Job>, ids: set<JobId>)
  {
    after.Keys == before.Keys && forall id :: id in before && id !in ids ==> after[id] == before[id]
  }

  /** Row `id` is back in the queue as if it had never been tried. */
  ghost predicate IsRequeued(before: map<JobId, Job>, after: map<JobId, Job>, id: JobId, now: Time, unclaimed: bool)
  {
    && id in before && id in after
    && after[id] == before[id].(status := Queued, attempts := 0, reclaims := 0, claimedBy := None, runAt := now,
                                claimedAt := if unclaimed then None else before[id].claimedAt)
  }

  /** These entries are resolved, and nothing else about any entry has changed. */
  ghost predicate OnlyResolved(before: map<DlqId, DlqRow>, after: map<DlqId, DlqRow>, rows: set<DlqId>)
  {
    && after.Keys == before.Keys
    && forall d :: d in before ==> after[d] == if d in rows then before[d].(resolved := true) else before[d]
  }

  /** Row `id` could be claimed, and now is, by this worker's new attempt, which remembers what it was. */
  ghost predicate IsTaken(before: Db, after: Db, worker: WorkerId, id: JobId, t: Token)
  {
    && id in before.jobs && id in after.jobs && t !in before.live && t in after.live
    && var j := before.jobs[id];
    && j.status == Queued && j.runAt <= before.now
    && (forall e :: e in before.deps && e.0 == id && e.1 in before.jobs ==> before.jobs[e.1].status == Completed)
    && after.jobs[id] == j.(status := Claimed, claimedBy := Some(worker), claimedAt := Some(before.now), holder := t)
    && after.live[t] == Attempt(worker, id, before.now, j.attempts, j.maxAttempts, j.timeoutSecs, j.cron, Waiting)
  }

  lemma ClaimTakes(s: Db, worker: WorkerId, tokens: map<JobId, Token>)
    requires Enabled(s, Claim(worker, tokens))
    ensures var s' := Next(s, Claim(worker, tokens));
      && OnlyRows(s.jobs, s'.jobs, tokens.Keys)
      && forall id :: id in tokens ==> IsTaken(s, s', worker, id, tokens[id])
  {
    forall id | id in tokens
      ensures IsTaken(s, Next(s, Claim(worker, tokens)), worker, id, tokens[id])
    {
      assert Claimable(s, id);
    }
  }

  /** Ids from here on have not been given out. */
  ghost predicate Unused(s: Db, token: Token, entry: DlqId)
  {
    (forall t :: t in s.live ==> t < token) && (forall d :: d in s.dlq ==> d < entry)
  }

  class Database {
    const queues: map<QueueId, QueueInfo>

    var now: Time
    var jobs: map<JobId, Job>
    var deps: set<(JobId, JobId)>
    var dlq: map<DlqId, DlqRow>
    var live: map<Token, Attempt>
    var issued: set<JobId>

    // Generators of fresh attempt and dead-letter ids.
    var nextToken: Token
    var nextDlq: DlqId

    ghost function State(): Db
      reads this
    {
      Db(now, jobs, deps, dlq, live, issued)
    }

    ghost predicate Valid()
      reads this
    {
      Inv(State()) && Unused(State(), nextToken, nextDlq)
    }

    /** The step was possible, and it is what happened. */
    ghost predicate Took(before: Db, step: Step)
      reads this
    {
      Enabled(before, step) && Orderly(before, step) && State() == Next(before, step)
    }

    constructor (queues: map<QueueId, QueueInfo>)
      ensures Valid() && State() == EMPTY && this.queues == queues
    {
      this.queues := queues;
      now, jobs, deps, dlq, live, issued := 0, map[], {}, map[], map[], {};
      nextToken, nextDlq := 0, 0;
      new;
      EmptyInv();
    }

    predicate InProject(project: ProjectId, queue: QueueId)
    {
      queue in queues && queues[queue].project == project
    }

    /** Every queue has one project. */
    lemma OneProject(a: ProjectId, b: ProjectId, queue: QueueId)
      ensures queue in queues ==> InProject(queues[queue].project, queue)
      ensures InProject(a, queue) && InProject(b, queue) ==> a == b
      ensures queue !in queues ==> !InProject(a, queue)
    {
    }

    // ---------- The poller's claim ----------

    /** ORDER BY ... LIMIT: the first `limit` rows of `pool`. */
    method TakeBest(pool: set<JobId>, limit: nat) returns (chosen: seq<JobId>)
      requires pool <= jobs.Keys
      ensures NoDup(chosen) && BestFirst(jobs, pool, limit, Elements(chosen))
    {
      chosen := [];
      var rest := pool;
      while |chosen| < limit && rest != {}
        invariant |chosen| <= limit && Picked(jobs, pool, rest, chosen)
        decreases rest
      {
        ghost var _ := SomeFirst(jobs, rest);
        var id :| id in rest && forall other :: other in rest ==> !Outranks(jobs[other], jobs[id]);
        PickOne(jobs, pool, rest, chosen, id);
        chosen, rest := chosen + [id], rest - {id};
      }
      NoDupSize(chosen);
      assert forall id :: id in chosen <==> id in Elements(chosen);
    }

    /** A fresh token for the attempt behind each claimed row. */
    method AssignTokens(chosen: seq<JobId>) returns (tokens: map<JobId, Token>)
      requires NoDup(chosen)
      modifies this`nextToken
      ensures tokens.Keys == Elements(chosen) && Injective(tokens)
      ensures nextToken >= old(nextToken)
      ensures forall id :: id in tokens ==> old(nextToken) <= tokens[id] < nextToken
    {
      tokens := map[];
      for k := 0 to |chosen|
        invariant nextToken >= old(nextToken)
        invariant tokens.Keys == Elements(chosen[..k]) && Injective(tokens)
        invariant forall id :: id in tokens ==> old(nextToken) <= tokens[id] < nextToken
      {
        assert chosen[..k + 1] == chosen[..k] + [chosen[k]];
        assert chosen[k] !in tokens;
        tokens := tokens[chosen[k] := nextToken];
        nextToken := nextToken + 1;
      }
      assert chosen[..|chosen|] == chosen;
    }

    /** Submit each row the claim returned: its slot is taken, and a goroutine is started for it. */
    method SubmitAll(worker: WorkerId, tokens: map<JobId, Token>, chosen: seq<JobId>, ghost before: Db)
      requires tokens.Keys == Elements(chosen) && Injective(tokens)
      requires forall id :: id in tokens ==> tokens[id] !in live
      requires forall id :: id in tokens ==> id in before.jobs
      requires jobs == ClaimedRows(before.jobs, worker, tokens, now) && now == before.now
      modifies this`live
      ensures live == old(live) + NewAttempts(before, worker, tokens)
    {
      hide Injective, Submitted;
      ghost var made := NewAttempts(before, worker, tokens);
      NoneSubmitted(live, made, tokens, chosen);
      for k := 0 to |chosen|
        invariant Submitted(old(live), made, tokens, chosen, k, live)
      {
        var id := chosen[k];
        assert id in Elements(chosen);
        var j := jobs[id];
        var a := Attempt(worker, id, now, j.attempts, j.maxAttempts, j.timeoutSecs, j.cron, Waiting);
        SubmitOne(old(live), made, tokens, chosen, k, live, a);
        live := live[tokens[id] := a];
      }
      AllSubmitted(before, worker, tokens, chosen, old(live), live);
    }

    /** The claim statement, and a Submit for each row it returns. */
    method RunClaim(worker: WorkerId, tokens: map<JobId, Token>, chosen: seq<JobId>)
      requires Enabled(State(), Claim(worker, tokens)) && tokens.Keys == Elements(chosen)
      requires forall id :: id in tokens ==> id in jobs && tokens[id] !in live
      modifies this`jobs, this`live
      ensures State() == Next(old(State()), Claim(worker, tokens))
    {
      ghost var before := State();
      jobs := ClaimedRows(jobs, worker, tokens, now);
      hide Claimable, Injective, ClaimedRows, NewAttempts;
      SubmitAll(worker, tokens, chosen, before);
      ClaimIs(before, worker, tokens, State());
    }

    method ClaimRows(worker: WorkerId, chosen: seq<JobId>) returns (tokens: map<JobId, Token>)
      requires Valid() && NoDup(chosen)
      requires forall id :: id in chosen ==> Claimable(State(), id)
      modifies this
      ensures Valid() && Took(old(State()), Claim(worker, tokens))
      ensures tokens.Keys == Elements(chosen) && OnlyRows(old(jobs), jobs, tokens.Keys)
      ensures forall id :: id in tokens ==> IsTaken(old(State()), State(), worker, id, tokens[id])
    {
      hide Inv, Claimable, Injective, Next, Enabled, Orderly, Unused, Elements, NoDup;
      ghost var before := State();
      tokens := AssignTokens(chosen);
      ClaimWasPossible(before, worker, tokens, chosen, old(nextToken), nextDlq);
      RunClaim(worker, tokens, chosen);
      InvKept(before, Claim(worker, tokens));
      ClaimTakes(before, worker, tokens);
      TokensBounded(before, worker, tokens, old(nextToken), nextToken, nextDlq);
    }

    /** poll: claim the best unlocked rows this worker's topology matches, up to its free slots, and submit each. */
    method Poll(worker: WorkerId, topo: Topo, freeSlots: int, locked: set<JobId>) returns (tokens: map<JobId, Token>)
      requires Valid()
      modifies this
      ensures Valid() && Took(old(State()), Claim(worker, tokens))
      ensures BestFirst(old(jobs), VisibleRows(old(State()), topo, locked),
                        if freeSlots < 0 then 0 else freeSlots, tokens.Keys)
      ensures OnlyRows(old(jobs), jobs, tokens.Keys)
      ensures forall id :: id in tokens ==> IsTaken(old(State()), State(), worker, id, tokens[id])
      ensures forall id :: id in tokens ==> Offered(old(State()), topo, locked, id)
      ensures forall other :: Offered(old(State()), topo, locked, other) && other !in tokens ==> |tokens| >= freeSlots
      ensures |tokens| <= if freeSlots < 0 then 0 else freeSlots
      ensures forall other, id :: Offered(old(State()), topo, locked, other) && other !in tokens && id in tokens ==>
        || old(jobs)[other].priority < old(jobs)[id].priority
        || (old(jobs)[other].priority == old(jobs)[id].priority && old(jobs)[other].runAt >= old(jobs)[id].runAt)
    {
      var chosen := [];
      var pool := VisibleRows(Db(now, jobs, deps, dlq, live, issued), topo, locked);
      var limit := if freeSlots < 0 then 0 else freeSlots;
      if Polls(topo) && limit > 0 {
        chosen := TakeBest(pool, limit);
        assert forall id :: id in chosen ==> id in Elements(chosen);
      } else {
        assert limit > 0 ==> pool == {};
      }
      assert BestFirst(jobs, pool, limit, Elements(chosen));
      VisibleIffOffered(State(), topo, locked);
      hide Took, Inv, Matches, Offered;
      tokens := ClaimRows(worker, chosen);
    }

    // ---------- The executor ----------

    /** run: the attempt gets its own deadline before it touches the database. */
    method Run(t: Token)
      requires Valid() && t in live && live[t].phase.Waiting?
      modifies this`live
      ensures Valid() && Took(old(State()), Begin(t))
      ensures live == old(live)[t := old(live)[t].(phase := Begun(now + old(live)[t].timeoutSecs * 1_000_000))]
      ensures CanWrite(State(), t) && live[t].job in jobs ==> HasClaimed(jobs[live[t].job], live[t].worker)
    {
      hide Inv, RowOk, HasClaimed;
      ghost var before := State();
      var a := live[t];
      HolderHasClaimed(before, t);
      live := live[t := a.(phase := Begun(now + a.timeoutSecs * SECOND))];
      InvKept(before, Begin(t));
    }

    /** startExecution. When the execution record cannot be inserted nothing else happens. Otherwise the job is marked
        running, unless the attempt's context has expired: then this write and all its later ones fail, unnoticed, and
        the attempt is over. A timely write keeps the tables sound; a late one does exactly when it spares the others.
        */
    method StartExecution(t: Token, inserted: bool) returns (ok: bool)
      requires Valid() && t in live && live[t].phase.Begun?
      modifies this`jobs, this`live
      ensures ok == inserted && (!ok ==> State() == old(State()))
      ensures ok && now <= old(live)[t].phase.deadline ==>
        && Enabled(old(State()), Start(t)) && State() == Next(old(State()), Start(t))
        && live == old(live)[t := old(live)[t].(phase := Executing(old(live)[t].phase.deadline))]
        && var a := old(live)[t];
        && if a.job !in old(jobs) then jobs == old(jobs)
           else var j := old(jobs)[a.job];
             jobs == old(jobs)[a.job := j.(status := Running, attempts := j.attempts + 1,
                                           claimedBy := Some(a.worker), claimedAt := Some(now), holder := t)]
      ensures ok && now > old(live)[t].phase.deadline ==> Took(old(State()), Abandon(t))
      ensures ok && now <= old(live)[t].phase.deadline ==> (Valid() <==> StartSpares(old(State()), Start(t)))
      ensures !ok || now > old(live)[t].phase.deadline || Timely(old(State()), Start(t)) ==> Valid()
    {
      hide Inv;
      if !inserted {
        return false;
      }
      ghost var before := State();
      var a := live[t];
      if now > a.phase.deadline {
        Lose(t);
        return true;
      }
      if a.job in jobs {
        jobs := jobs[a.job := SetRunning(jobs[a.job], a.worker, t, now)];
      }
      live := live[t := a.(phase := Executing(a.phase.deadline))];
      StartKeepsInvIff(before, t);
      if Timely(before, Start(t)) {
        TimelyStartSpares(before, t);
      }
      return true;
    }

    /** releaseClaim: give the job back after five seconds, if it is still claimed. It keeps the tables sound exactly
        when that claim is not another attempt's that can still write. */
    method ReleaseClaim(t: Token)
      requires Valid() && t in live && live[t].phase.Begun?
      modifies this`jobs, this`live
      ensures Enabled(old(State()), Release(t)) && State() == Next(old(State()), Release(t))
      ensures Valid() <==> ReleaseSpares(old(State()), Release(t))
      ensures live == old(live) - {t}
      ensures var id := old(live)[t].job;
        jobs == if id in old(jobs) && old(jobs)[id].status == Claimed
                then old(jobs)[id := old(jobs)[id].(status := Queued, claimedBy := None, claimedAt := None,
                                                    runAt := now + 5_000_000)]
                else old(jobs)
    {
      hide Inv;
      ghost var before := State();
      var id := live[t].job;
      if id in jobs && jobs[id].status == Claimed {
        jobs := jobs[id := SetReleased(jobs[id], now)];
      }
      live := live - {t};
      ReleaseKeepsInvIff(before, Release(t));
    }

    /** handleSuccess: complete the job, or re-arm a cron job, or fail it when its expression does not parse. The
        updates go by id alone, and find the job running under this worker. They run under the attempt's context, so
        after its deadline they all fail and the attempt ends without a trace. */
    method HandleSuccess(t: Token, next: Option<Time>)
      requires Valid() && t in live && live[t].phase.Executing?
      modifies this`jobs, this`live
      ensures Valid()
      ensures Took(old(State()), if now <= old(live)[t].phase.deadline then Succeed(t, next) else Abandon(t))
      ensures var a := old(live)[t]; now <= a.phase.deadline && a.job in jobs ==>
        && HasRunning(old(jobs)[a.job], a.worker)
        && var j := old(jobs)[a.job].(claimedBy := None);
        jobs == old(jobs)[a.job :=
          if a.cron.None? then j.(status := Completed)
          else if next.None? then j.(status := Failed)
          else j.(status := Scheduled, attempts := 0, reclaims := 0, nextRunAt := next, runAt := next.value)]
    {
      hide Inv;
      ghost var before := State();
      if now > live[t].phase.deadline {
        Lose(t);
        return;
      }
      HolderIsRunning(before, t);
      var a := live[t];
      if a.job in jobs {
        var j := jobs[a.job];
        if a.cron.Some? {
          if next.None? {
            j := j.(status := Failed, claimedBy := None);
          } else {
            j := j.(status := Scheduled, attempts := 0, reclaims := 0, nextRunAt := next, runAt := next.value,
                    claimedBy := None);
          }
        } else {
          j := j.(status := Completed, claimedBy := None);
        }
        jobs := jobs[a.job := j];
      }
      live := live - {t};
      InvKept(before, Succeed(t, next));
    }

    /** handleFailure: requeue after the policy's delay while attempts remain, else bury the job with a dead-letter
        row. After the deadline these writes fail as well. */
    method HandleFailure(t: Token, policy: Option<Delay.Policy>, round: Rounding) returns (entry: DlqId)
      requires Valid() && t in live && live[t].phase.Executing?
      modifies this`jobs, this`live, this`dlq, this`nextDlq
      ensures Valid()
      ensures now > old(live)[t].phase.deadline ==> Took(old(State()), Abandon(t))
      ensures now <= old(live)[t].phase.deadline ==>
        && old(live)[t].seen >= 0
        && Took(old(State()), Fail(t, RetryTime(now, policy, old(live)[t].seen + 1, round), entry))
      ensures var a := old(live)[t]; now <= a.phase.deadline && a.job in jobs ==>
        && HasRunning(old(jobs)[a.job], a.worker)
        && var j := old(jobs)[a.job].(claimedBy := None);
        if a.seen + 1 < a.maxAttempts
        then && jobs == old(jobs)[a.job := j.(status := Queued, runAt := RetryTime(now, policy, a.seen + 1, round))]
             && dlq == old(dlq)
        else && jobs == old(jobs)[a.job := j.(status := Dead)] && OnlyEntryOf(old(dlq), dlq, a.job)
             && exists d :: d in dlq && dlq[d].job == a.job && dlq[d].attempts == a.seen + 1 && !dlq[d].resolved
    {
      hide Inv, Next, Enabled, Orderly, Unused, CanWrite, RetryTime, HasRunning;
      ghost var before := State();
      entry := nextDlq;
      if now > live[t].phase.deadline {
        Lose(t);
        return;
      }
      HolderIsRunning(before, t);
      assert live[t].job in jobs ==> HasRunning(jobs[live[t].job], live[t].worker);
      var retryAt := Delayed(policy, live[t].seen + 1, round);
      FailIs(before, t, retryAt, nextToken, entry);
      InvKept(before, Fail(t, retryAt, entry));
      nextDlq := nextDlq + 1;
      WriteFailure(t, retryAt, entry);
    }

    /** run_at for a retry after this many attempts. */
    method Delayed(policy: Option<Delay.Policy>, attempt: nat, round: Rounding) returns (retryAt: Time)
      requires attempt >= 1
      ensures retryAt == RetryTime(now, policy, attempt, round)
    {
      var delay := Delay.CalcDelay(policy, attempt, round);
      retryAt := now + delay / NANOS_PER_TICK;
    }

    method WriteFailure(t: Token, retryAt: Time, entry: DlqId)
      requires Enabled(State(), Fail(t, retryAt, entry))
      modifies this`jobs, this`live, this`dlq
      ensures State() == Next(old(State()), Fail(t, retryAt, entry)) && jobs.Keys == old(jobs).Keys
      ensures var a := old(live)[t]; a.job in jobs ==>
        && var j := old(jobs)[a.job].(claimedBy := None);
        if a.seen + 1 < a.maxAttempts
        then jobs == old(jobs)[a.job := j.(status := Queued, runAt := retryAt)] && dlq == old(dlq)
        else && jobs == old(jobs)[a.job := j.(status := Dead)] && OnlyEntryOf(old(dlq), dlq, a.job)
             && exists d :: d in dlq && dlq[d].job == a.job && dlq[d].attempts == a.seen + 1 && !dlq[d].resolved
    {
      var a := live[t];
      var nextAttempt := a.seen + 1;
      if a.job in jobs {
        if nextAttempt >= a.maxAttempts {
          var queue := jobs[a.job].queue;
          jobs := jobs[a.job := SetDead(jobs[a.job])];
          UpsertOpens(dlq, entry, DlqRow(a.job, queue, nextAttempt, false));
          dlq := Upsert(dlq, entry, DlqRow(a.job, queue, nextAttempt, false));
        } else {
          jobs := jobs[a.job := SetRequeued(jobs[a.job], retryAt)];
        }
      }
      live := live - {t};
    }

    /** A crash, or a deadline that passed before the attempt could write. */
    method Lose(t: Token)
      requires Valid() && t in live
      modifies this`live
      ensures Valid() && Took(old(State()), Abandon(t)) && !CanWrite(State(), t) && live == old(live) - {t}
    {
      ghost var before := State();
      live := live - {t};
      InvKept(before, Abandon(t));
    }

    /** unblockDependents: the blocked, satisfied, unlocked jobs that depend on `parent`. */
    method UnblockDependents(parent: JobId, locked: set<JobId>) returns (ready: set<JobId>)
      requires Valid()
      modifies this`jobs
      ensures Valid() && Took(old(State()), Unblock(ready))
      ensures forall id :: id in ready <==>
        Unblockable(old(State()), id) && (id, parent) in deps && id !in locked
      ensures OnlyRows(old(jobs), jobs, ready)
      ensures forall id :: id in ready ==> jobs[id] == old(jobs)[id].(status := Queued, runAt := now)
    {
      hide Inv;
      ghost var before := State();
      ready := set id | id in jobs && jobs[id].status == Blocked && (id, parent) in deps
                        && DepsCompleted(jobs, deps, id) && id !in locked;
      jobs := map id | id in jobs :: if id in ready then jobs[id].(status := Queued, runAt := now) else jobs[id];
      InvKept(before, Unblock(ready));
    }

    // ---------- The sweep ----------

    method PromoteDueJobs(project: ProjectId, locked: set<JobId>) returns (due: set<JobId>)
      requires Valid()
      modifies this`jobs
      ensures Valid() && Took(old(State()), Promote(due))
      ensures forall id :: id in due <==>
        && id in old(jobs) && old(jobs)[id].status == Scheduled && old(jobs)[id].runAt <= now
        && InProject(project, old(jobs)[id].queue) && id !in locked
      ensures OnlyRows(old(jobs), jobs, due)
      ensures forall id :: id in due ==> jobs[id] == old(jobs)[id].(status := Queued)
    {
      hide Inv;
      ghost var before := State();
      due := set id | id in jobs && jobs[id].status == Scheduled && jobs[id].runAt <= now
                      && InProject(project, jobs[id].queue) && id !in locked;
      jobs := map id | id in jobs :: if id in due then jobs[id].(status := Queued) else jobs[id];
      InvKept(before, Promote(due));
    }

    method UnblockSatisfiedJobs(project: ProjectId, locked: set<JobId>) returns (ready: set<JobId>)
      requires Valid()
      modifies this`jobs
      ensures Valid() && Took(old(State()), Unblock(ready))
      ensures forall id :: id in ready <==>
        Unblockable(old(State()), id) && InProject(project, old(jobs)[id].queue) && id !in locked
      ensures OnlyRows(old(jobs), jobs, ready)
      ensures forall id :: id in ready ==> jobs[id] == old(jobs)[id].(status := Queued, runAt := now)
    {
      hide Inv;
      ghost var before := State();
      ready := set id | id in jobs && jobs[id].status == Blocked && InProject(project, jobs[id].queue)
                        && DepsCompleted(jobs, deps, id) && id !in locked;
      jobs := map id | id in jobs :: if id in ready then jobs[id].(status := Queued, runAt := now) else jobs[id];
      InvKept(before, Unblock(ready));
    }

    method CancelUnsatisfiableJobs(project: ProjectId, locked: set<JobId>) returns (doomed: set<JobId>)
      requires Valid()
      modifies this`jobs
      ensures Valid() && Took(old(State()), CancelUnsatisfiable(doomed))
      ensures forall id :: id in doomed <==>
        Unsatisfiable(old(State()), id) && InProject(project, old(jobs)[id].queue) && id !in locked
      ensures OnlyRows(old(jobs), jobs, doomed)
      ensures forall id :: id in doomed ==> jobs[id] == old(jobs)[id].(status := Cancelled)
    {
      hide Inv;
      ghost var before := State();
      doomed := set id | id in jobs && jobs[id].status == Blocked && InProject(project, jobs[id].queue)
                         && DepFailed(jobs, deps, id) && id !in locked;
      jobs := map id | id in jobs :: if id in doomed then jobs[id].(status := Cancelled) else jobs[id];
      InvKept(before, CancelUnsatisfiable(doomed));
    }

    /** The list scheduleCronJobs starts from: the unarmed cron jobs, with the next run of each. */
    method ListCronJobs(project: ProjectId,
                        nextRun: string -> Option<Time>) returns (pending: map<JobId, Option<Time>>)
      ensures forall id :: id in pending <==> CronPending(State(), id) && InProject(project, jobs[id].queue)
      ensures forall id :: id in pending <==>
        && id in jobs && jobs[id].status in {Completed, Scheduled} && jobs[id].cron.Some? && jobs[id].nextRunAt.None?
        && InProject(project, jobs[id].queue)
      ensures forall id :: id in pending ==>
        id in jobs && jobs[id].cron.Some? && pending[id] == nextRun(jobs[id].cron.value)
    {
      var due := set id | id in jobs && CronPending(Db(now, jobs, deps, dlq, live, issued), id)
                          && InProject(project, jobs[id].queue);
      pending := map id | id in due :: nextRun(jobs[id].cron.value);
    }

    /** And the loop that updates them one by one. */
    method ArmEach(pending: map<JobId, Option<Time>>)
      requires pending.Keys <= jobs.Keys
      modifies this`jobs
      ensures Armed(old(jobs), pending, pending.Keys, jobs) && OnlyRows(old(jobs), jobs, pending.Keys)
      ensures forall id :: id in pending ==> IsArmed(old(jobs), jobs, id, pending[id])
    {
      hide SetArmed;
      var due := pending.Keys;
      while due != {}
        invariant due <= pending.Keys && Armed(old(jobs), pending, pending.Keys - due, jobs)
        decreases due
      {
        var id :| id in due;
        ArmOne(old(jobs), pending, pending.Keys - due, jobs, id);
        jobs := jobs[id := SetArmed(jobs[id], pending[id])];
        assert pending.Keys - (due - {id}) == pending.Keys - due + {id};
        due := due - {id};
      }
      ArmedRows(old(jobs), pending, jobs);
    }

    /** scheduleCronJobs. On a reachable table the list is empty. */
    method ScheduleCronJobs(project: ProjectId,
                            nextRun: string -> Option<Time>) returns (pending: map<JobId, Option<Time>>)
      requires Valid()
      modifies this`jobs
      ensures Valid() && Took(old(State()), ArmCron(pending))
      ensures State() == old(State())
    {
      hide Inv, CronPending, Next, Enabled, Orderly, Unused, Armed;
      ghost var before := State();
      pending := ListCronJobs(project, nextRun);
      MayArm(before, pending);
      ArmEach(pending);
      ArmedAll(before, pending, jobs);
    }

    method ReclaimStuckJobs(project: ProjectId) returns (stuck: set<JobId>)
      requires Valid()
      modifies this`jobs
      ensures Valid() && Took(old(State()), Reclaim(stuck))
      ensures forall id :: id in stuck <==>
        && id in old(jobs) && InProject(project, old(jobs)[id].queue) && old(jobs)[id].claimedAt.Some?
        && var since := now - old(jobs)[id].claimedAt.value;
        || (old(jobs)[id].status == Claimed && since > 60_000_000)
        || (old(jobs)[id].status == Running && since > (old(jobs)[id].timeoutSecs + 60) * 1_000_000)
      ensures OnlyRows(old(jobs), jobs, stuck)
      ensures forall id :: id in stuck ==>
        jobs[id] == old(jobs)[id].(status := Queued, claimedBy := None, claimedAt := None, runAt := now,
                                   reclaims := jobs[id].reclaims)
    {
      hide Inv;
      ghost var before := State();
      stuck := set id | id in jobs && Stuck(Db(now, jobs, deps, dlq, live, issued), id)
                        && InProject(project, jobs[id].queue);
      jobs := map id | id in jobs :: if id in stuck then SetReclaimed(jobs[id], now) else jobs[id];
      InvKept(before, Reclaim(stuck));
    }

    // ---------- Job handlers ----------

    method Cancel(id: JobId) returns (ok: bool)
      requires Valid()
      modifies this`jobs
      ensures Valid() && (ok <==> id in old(jobs) && old(jobs)[id].status in {Queued, Scheduled, Blocked})
      ensures if ok then Took(old(State()), CancelJob(id)) else State() == old(State())
      ensures ok ==> jobs == old(jobs)[id := old(jobs)[id].(status := Cancelled)]
    {
      hide Inv;
      ghost var before := State();
      ok := id in jobs && jobs[id].status in {Queued, Scheduled, Blocked};
      if ok {
        jobs := jobs[id := jobs[id].(status := Cancelled)];
        InvKept(before, CancelJob(id));
      }
    }

    /** JobHandler.Retry: back to the queue, or to waiting when a dependency is still incomplete. */
    method Retry(id: JobId) returns (status: Option<Status>)
      requires Valid()
      modifies this`jobs, this`dlq
      ensures Valid() && (status.Some? <==> id in old(jobs) && old(jobs)[id].status in {Failed, Dead, Cancelled})
      ensures if status.Some? then Took(old(State()), RetryJob(id)) else State() == old(State())
      ensures status.Some? ==> status.value == if DepsCompleted(old(jobs), deps, id) then Queued else Blocked
      ensures status.Some? ==>
        && jobs == old(jobs)[id := old(jobs)[id].(status := status.value, attempts := 0, reclaims := 0,
                                                  claimedBy := None, claimedAt := None, runAt := now)]
        && (forall d :: d in dlq <==> d in old(dlq) && old(dlq)[d].job != id)
        && (forall d :: d in dlq ==> dlq[d] == old(dlq)[d])
    {
      hide Inv;
      ghost var before := State();
      if id !in jobs || jobs[id].status !in {Failed, Dead, Cancelled} {
        return None;
      }
      var next := if DepsCompleted(jobs, deps, id) then Queued else Blocked;
      jobs := jobs[id := SetReset(jobs[id], next, now, true)];
      dlq := dlq - DlqOf(dlq, id);
      InvKept(before, RetryJob(id));
      return Some(next);
    }

    method Purge(id: JobId) returns (ok: bool)
      requires Valid()
      modifies this`jobs, this`deps, this`dlq
      ensures Valid() && (ok <==> id in old(jobs)) && id !in jobs
      ensures Took(old(State()), Delete({id})) && jobs == old(jobs) - {id}
      ensures forall e :: e in deps <==> e in old(deps) && e.0 != id && e.1 != id
      ensures forall d :: d in dlq <==> d in old(dlq) && old(dlq)[d].job != id
      ensures forall d :: d in dlq ==> dlq[d] == old(dlq)[d]
    {
      hide Inv, Next, Enabled, Orderly, Unused;
      ghost var before := State();
      DeleteIs(before, id, nextToken, nextDlq);
      ok := id in jobs;
      jobs := jobs - {id};
      deps := set e | e in deps && e.0 != id && e.1 != id;
      dlq := map d | d in dlq && dlq[d].job != id :: dlq[d];
      assert deps == Next(before, Delete({id})).deps && dlq == Next(before, Delete({id})).dlq;
      InvKept(before, Delete({id}));
    }

    // ---------- Dead-letter handlers ----------

    /** The first half of DLQHandler.Retry: read the entry, its job and the types the live workers handle. */
    method ReadEntry(d: DlqId, handled: set<string>) returns (read: DlqRead)
      requires Valid()
      ensures read.Missing? <==> !Unresolved(State(), d)
      ensures read.Retryable? <==> Unresolved(State(), d) && HandledEntry(State(), handled, d)
      ensures read.Retryable? ==> read.job == dlq[d].job
    {
      EntriesHaveJobs(State());
      if d !in dlq || dlq[d].resolved || dlq[d].job !in jobs {
        return Missing;
      }
      return if jobs[dlq[d].job].jobType !in handled then Unhandled else Retryable(dlq[d].job);
    }

    /** The second half, a transaction that writes by the ids read before, whatever has become of them. It keeps the
        tables sound exactly when nobody else has dealt with the job in between. */
    method RequeueEntry(d: DlqId, id: JobId)
      requires Valid()
      modifies this`jobs, this`dlq
      ensures Enabled(old(State()), RetryDead(d, id)) && State() == Next(old(State()), RetryDead(d, id))
      ensures Valid() <==> RetrySpares(old(State()), RetryDead(d, id))
      ensures OnlyRows(old(jobs), jobs, {id}) && (id in old(jobs) ==> IsRequeued(old(jobs), jobs, id, now, true))
      ensures OnlyResolved(old(dlq), dlq, {d})
    {
      hide Inv, Next, Enabled, Unused, RetrySpares, SetReset, Resolve, OnlyResolved, IsRequeued;
      ghost var before := State();
      RequeueIs(before, d, id, nextToken, nextDlq);
      if id in jobs {
        jobs := jobs[id := SetReset(jobs[id], Queued, now, true)];
      }
      dlq := Resolve(dlq, {d});
      RequeueKeepsInvIff(before, RetryDead(d, id));
    }

    /** DLQHandler.Retry when nothing comes in between: requeue the job behind an unresolved entry that a live worker
        can handle. */
    method RetryEntry(d: DlqId, handled: set<string>) returns (reply: DlqReply)
      requires Valid()
      modifies this`jobs, this`dlq
      ensures Valid()
      ensures if reply.Requeued?
              then && d in old(dlq) && reply.job == old(dlq)[d].job && Took(old(State()), RetryDead(d, reply.job))
                   && OnlyRows(old(jobs), jobs, {reply.job}) && IsRequeued(old(jobs), jobs, reply.job, now, true)
                   && OnlyResolved(old(dlq), dlq, {d})
              else State() == old(State())
      ensures reply.NotFound? <==> !Unresolved(old(State()), d)
      ensures reply.Requeued? <==> Unresolved(old(State()), d) && HandledEntry(old(State()), handled, d)
    {
      hide Inv, Next, Orderly, RetrySpares;
      var read := ReadEntry(d, handled);
      match read
      case Missing => return NotFound;
      case Unhandled => return Conflict;
      case Retryable(id) =>
        FreshRetryIsOrderly(State(), d);
        RequeueEntry(d, id);
        return Requeued(id);
    }

    ghost function PendingEntries(s: Db, project: ProjectId): set<DlqId>
    {
      set d | d in s.dlq && Unresolved(s, d) && InProject(project, s.dlq[d].queue)
    }

    ghost predicate HandledEntry(s: Db, handled: set<string>, d: DlqId)
    {
      d in s.dlq && s.dlq[d].job in s.jobs && s.jobs[s.dlq[d].job].jobType in handled
    }

    /** RetryAll. No entry is lost: every unresolved entry of the project is requeued or counted as skipped. */
    method RetryAll(project: ProjectId, handled: set<string>) returns (reply: RetryAllReply, ghost entries: set<DlqId>)
      requires Valid()
      modifies this`jobs, this`dlq
      ensures Valid() && (reply.NoHandlers? <==> handled == {})
      ensures if reply.Retried? then Took(old(State()), RetryAllDead(entries)) else State() == old(State())
      ensures reply.Retried? ==>
        && entries == (set d | d in PendingEntries(old(State()), project) && HandledEntry(old(State()), handled, d))
        && reply.requeued == |entries| && OnlyResolved(old(dlq), dlq, entries)
        && OnlyRows(old(jobs), jobs, set d | d in entries && d in old(dlq) :: old(dlq)[d].job)
        && (forall d :: d in entries && d in old(dlq) && old(dlq)[d].job in old(jobs) ==>
              IsRequeued(old(jobs), jobs, old(dlq)[d].job, now, false))
        && reply.requeued + reply.skipped == |PendingEntries(old(State()), project)|
    {
      hide Inv, Next, Enabled;
      ghost var before := State();
      entries := {};
      if handled == {} {
        return NoHandlers, entries;
      }
      EntriesHaveJobs(before);
      var pending := set d | d in dlq && !dlq[d].resolved && dlq[d].job in jobs && InProject(project, dlq[d].queue);
      var chosen := set d | d in pending && jobs[dlq[d].job].jobType in handled;
      var ids := JobsOf(dlq, chosen);
      var skipped := |pending - chosen|;
      OneJobEach(dlq, chosen);
      PendingSplits(before, project, handled, pending, chosen);
      RequeueAll(chosen, ids);
      return Retried(|ids|, skipped), chosen;
    }

    /** Every pending entry is either chosen or skipped. */
    lemma PendingSplits(s: Db, project: ProjectId, handled: set<string>, pending: set<DlqId>, chosen: set<DlqId>)
      requires pending == (set d | d in s.dlq && !s.dlq[d].resolved && s.dlq[d].job in s.jobs
                                   && InProject(project, s.dlq[d].queue))
      requires chosen == (set d | d in pending && s.jobs[s.dlq[d].job].jobType in handled)
      requires forall d :: d in s.dlq ==> s.dlq[d].job in s.jobs
      ensures pending == PendingEntries(s, project)
      ensures chosen == (set d | d in PendingEntries(s, project) && HandledEntry(s, handled, d))
      ensures |pending| == |pending - chosen| + |chosen|
    {
      assert pending == (pending - chosen) + chosen;
    }

    /** The two updates of the statement. */
    method RequeueAll(chosen: set<DlqId>, ids: set<JobId>)
      requires Valid() && ids == JobsOf(dlq, chosen)
      requires forall d :: d in chosen ==> Unresolved(State(), d)
      modifies this`jobs, this`dlq
      ensures Valid() && Took(old(State()), RetryAllDead(chosen)) && OnlyResolved(old(dlq), dlq, chosen)
      ensures OnlyRows(old(jobs), jobs, ids)
      ensures forall id :: id in ids && id in old(jobs) ==> IsRequeued(old(jobs), jobs, id, now, false)
    {
      hide Inv;
      ghost var before := State();
      jobs := map id | id in jobs :: if id in ids then SetReset(jobs[id], Queued, now, false) else jobs[id];
      dlq := Resolve(dlq, chosen);
      InvKept(before, RetryAllDead(chosen));
    }

    method DiscardUnhandled(project: ProjectId, handled: set<string>) returns (discarded: Option<nat>)
      requires Valid()
      modifies this`dlq
      ensures Valid() && (discarded.None? <==> handled == {})
      ensures discarded.None? ==> State() == old(State())
      ensures discarded.Some? ==>
        var entries := set d | d in PendingEntries(old(State()), project) && !HandledEntry(old(State()), handled, d);
        && Took(old(State()), Discard(entries)) && discarded.value == |entries|
        && OnlyResolved(old(dlq), dlq, entries)
    {
      hide Inv, Next, Enabled, Orderly, Unused;
      ghost var before := State();
      if handled == {} {
        return None;
      }
      EntriesHaveJobs(before);
      var entries := set d | d in dlq && !dlq[d].resolved && dlq[d].job in jobs && InProject(project, dlq[d].queue)
                             && jobs[dlq[d].job].jobType !in handled;
      assert entries == set d | d in PendingEntries(before, project) && !HandledEntry(before, handled, d);
      DiscardIs(before, entries, nextToken, nextDlq);
      dlq := Resolve(dlq, entries);
      InvKept(before, Discard(entries));
      return Some(|entries|);
    }

    method DiscardEntry(d: DlqId) returns (found: bool)
      requires Valid()
      modifies this`dlq
      ensures Valid() && (found <==> d in old(dlq))
      ensures if found then Took(old(State()), Discard({d})) else State() == old(State())
      ensures found ==> OnlyResolved(old(dlq), dlq, {d})
    {
      hide Inv;
      ghost var before := State();
      found := d in dlq;
      if found {
        dlq := Resolve(dlq, {d});
        InvKept(before, Discard({d}));
      }
    }
  }

  lemma EntriesHaveJobs(s: Db)
    requires Inv(s)
    ensures forall d :: d in s.dlq ==> s.dlq[d].job in s.jobs
    ensures forall d, e :: d in s.dlq && e in s.dlq && s.dlq[d].job == s.dlq[e].job ==> d == e
  {
  }

  /** Every entry has its own job, so as many jobs stand behind a set of entries as there are entries. */
  lemma {:induction false} OneJobEach(dlq: map<DlqId, DlqRow>, rows: set<DlqId>)
    requires rows <= dlq.Keys
    requires forall d, e :: d in dlq && e in dlq && dlq[d].job == dlq[e].job ==> d == e
    ensures |JobsOf(dlq, rows)| == |rows|
    decreases |rows|
  {
    if rows != {} {
      var d :| d in rows;
      OneJobEach(dlq, rows - {d});
      assert JobsOf(dlq, rows) == JobsOf(dlq, rows - {d}) + {dlq[d].job};
    }
  }

  lemma RequeueIs(s: Db, d: DlqId, id: JobId, token: Token, entry: DlqId)
    requires Unused(s, token, entry)
    ensures var s' := Next(s, RetryDead(d, id));
      && s' == s.(jobs := if id in s.jobs then s.jobs[id := SetReset(s.jobs[id], Queued, s.now, true)] else s.jobs,
                  dlq := Resolve(s.dlq, {d}))
      && OnlyRows(s.jobs, s'.jobs, {id}) && (id in s.jobs ==> IsRequeued(s.jobs, s'.jobs, id, s.now, true))
      && OnlyResolved(s.dlq, s'.dlq, {d}) && Unused(s', token, entry)
    ensures Enabled(s, RetryDead(d, id))
  {
  }

  lemma RequeueKeepsInvIff(s: Db, step: Step)
    requires Inv(s) && step.RetryDead?
    ensures Inv(Next(s, step)) <==> RetrySpares(s, step)
  {
    if step.id in s.jobs {
      RetryKeepsInvIff(s, step);
    } else {
      InvKept(s, step);
    }
  }

  lemma DiscardIs(s: Db, entries: set<DlqId>, token: Token, entry: DlqId)
    requires Unused(s, token, entry) && forall d :: d in entries ==> d in s.dlq
    ensures Enabled(s, Discard(entries)) && Orderly(s, Discard(entries))
    ensures Next(s, Discard(entries)) == s.(dlq := Resolve(s.dlq, entries))
    ensures Unused(Next(s, Discard(entries)), token, entry)
  {
  }

  lemma DeleteIs(s: Db, id: JobId, token: Token, entry: DlqId)
    requires Unused(s, token, entry)
    ensures Enabled(s, Delete({id})) && Orderly(s, Delete({id}))
    ensures var s' := Next(s, Delete({id}));
      && s' == s.(jobs := s.jobs - {id}, deps := s'.deps, dlq := s'.dlq)
      && (forall e :: e in s'.deps <==> e in s.deps && e.0 != id && e.1 != id)
      && (forall d :: d in s'.dlq <==> d in s.dlq && s.dlq[d].job != id)
      && forall d :: d in s'.dlq ==> s'.dlq[d] == s.dlq[d]
    ensures Unused(Next(s, Delete({id})), token, entry)
  {
  }

  /** No entry but the job's has changed. */
  ghost predicate OnlyEntryOf(before: map<DlqId, DlqRow>, after: map<DlqId, DlqRow>, job: JobId)
  {
    && (forall d :: d in before && before[d].job != job ==> d in after && after[d] == before[d])
    && (forall d :: d in after && d !in before ==> after[d].job == job)
  }

  lemma UpsertOpens(dlq: map<DlqId, DlqRow>, entry: DlqId, row: DlqRow)
    requires entry !in dlq
    ensures var dlq' := Upsert(dlq, entry, row);
      && OnlyEntryOf(dlq, dlq', row.job)
      && exists d :: d in dlq' && dlq'[d].job == row.job && dlq'[d].attempts == row.attempts
                     && dlq'[d].resolved == row.resolved
  {
    var dlq' := Upsert(dlq, entry, row);
    if d :| d in DlqOf(dlq, row.job) {
      assert d in dlq' && dlq'[d].attempts == row.attempts;
    } else {
      assert entry in dlq' && dlq'[entry] == row;
    }
  }

  lemma FailIs(s: Db, t: Token, retryAt: Time, token: Token, entry: DlqId)
    requires t in s.live && s.live[t].phase.Executing? && s.now <= s.live[t].phase.deadline
    requires Unused(s, token, entry)
    ensures Enabled(s, Fail(t, retryAt, entry)) && Orderly(s, Fail(t, retryAt, entry))
    ensures Unused(Next(s, Fail(t, retryAt, entry)), token, entry + 1)
  {
  }

  /** The queued rows a claim over `topo` could take: eligible, unlocked and matched by the worker's queues and
      shards. */
  function VisibleRows(s: Db, topo: Topo, locked: set<JobId>): set<JobId>
  {
    set id | id in s.jobs && Claimable(s, id) && id !in locked && Matches(topo, s.jobs[id].queue, s.jobs[id].shard)
  }

  /** The claim's WHERE clause holds of the row, and nobody has locked it. */
  ghost predicate Offered(s: Db, topo: Topo, locked: set<JobId>, id: JobId)
  {
    && id in s.jobs && id !in locked && s.jobs[id].status == Queued && s.jobs[id].runAt <= s.now
    && (|| s.jobs[id].queue in topo.unsharded
        || (s.jobs[id].queue in topo.sharded && s.jobs[id].shard in topo.owned))
    && forall e :: e in s.deps && e.0 == id && e.1 in s.jobs ==> s.jobs[e.1].status == Completed
  }

  lemma VisibleIffOffered(s: Db, topo: Topo, locked: set<JobId>)
    ensures forall id :: id in VisibleRows(s, topo, locked) <==> Offered(s, topo, locked, id)
  {
  }

  /** `chosen` is a part of `pool` of at most `limit` rows, and nothing left behind should have gone first. */
  ghost predicate BestFirst(jobs: map<JobId, Job>, pool: set<JobId>, limit: nat, chosen: set<JobId>)
    requires pool <= jobs.Keys
  {
    && chosen <= pool && |chosen| <= limit
    && forall other :: other in pool && other !in chosen ==>
         |chosen| == limit && forall id :: id in chosen ==> !Outranks(jobs[other], jobs[id])
  }

  ghost predicate Between(lo: map<Token, Attempt>, made: map<Token, Attempt>, m: map<Token, Attempt>)
  {
    && (forall t :: t in lo ==> t in m && m[t] == lo[t])
    && (forall t :: t in m && t !in lo ==> t in made && m[t] == made[t])
  }

  /** The first k of the chosen rows have been submitted. */
  ghost predicate Submitted(lo: map<Token, Attempt>, made: map<Token, Attempt>, tokens: map<JobId, Token>,
                            chosen: seq<JobId>, k: nat, m: map<Token, Attempt>)
    requires k <= |chosen| && forall id :: id in chosen ==> id in tokens
  {
    Between(lo, made, m) && forall i :: 0 <= i < k ==> Made(made, tokens[chosen[i]], m)
  }

  ghost predicate Made(made: map<Token, Attempt>, t: Token, m: map<Token, Attempt>)
  {
    t in made && t in m && m[t] == made[t]
  }

  lemma NoneSubmitted(lo: map<Token, Attempt>, made: map<Token, Attempt>, tokens: map<JobId, Token>,
                      chosen: seq<JobId>)
    requires tokens.Keys == Elements(chosen)
    ensures forall id :: id in chosen ==> id in tokens
    ensures Submitted(lo, made, tokens, chosen, 0, lo)
  {
    assert forall id :: id in chosen ==> id in Elements(chosen);
  }

  lemma SubmitOne(lo: map<Token, Attempt>, made: map<Token, Attempt>, tokens: map<JobId, Token>, chosen: seq<JobId>,
                  k: nat, m: map<Token, Attempt>, a: Attempt)
    requires k < |chosen| && forall id :: id in chosen ==> id in tokens
    requires Submitted(lo, made, tokens, chosen, k, m)
    requires tokens[chosen[k]] !in lo && tokens[chosen[k]] in made && made[tokens[chosen[k]]] == a
    ensures Submitted(lo, made, tokens, chosen, k + 1, m[tokens[chosen[k]] := a])
  {
  }

  lemma AllSubmitted(s: Db, worker: WorkerId, tokens: map<JobId, Token>, chosen: seq<JobId>,
                     lo: map<Token, Attempt>, m: map<Token, Attempt>)
    requires tokens.Keys == Elements(chosen) && Injective(tokens) && forall id :: id in tokens ==> id in s.jobs
    requires forall id :: id in chosen ==> id in tokens
    requires Submitted(lo, NewAttempts(s, worker, tokens), tokens, chosen, |chosen|, m)
    requires forall id :: id in tokens ==> tokens[id] !in lo
    ensures m == lo + NewAttempts(s, worker, tokens)
  {
    var made := NewAttempts(s, worker, tokens);
    hide Injective, NewAttempts;
    forall t | t in made
      ensures Made(made, t, m) && t !in lo
    {
      var id :| id in tokens && tokens[id] == t;
      assert id in Elements(chosen);
      var i :| 0 <= i < |chosen| && chosen[i] == id;
      assert Made(made, tokens[chosen[i]], m);
    }
  }

  /** The updates for the cron jobs in `done`, and no others, have been made. */
  ghost predicate Armed(before: map<JobId, Job>, pending: map<JobId, Option<Time>>, done: set<JobId>,
                        jobs: map<JobId, Job>)
  {
    && jobs.Keys == before.Keys && done <= pending.Keys <= jobs.Keys
    && forall id :: id in jobs ==> jobs[id] == if id in done then SetArmed(before[id], pending[id]) else before[id]
  }

  /** The job is armed for its next run, or failed when its expression does not parse. */
  ghost predicate IsArmed(before: map<JobId, Job>, after: map<JobId, Job>, id: JobId, next: Option<Time>)
  {
    && id in before && id in after
    && after[id] == if next.None? then before[id].(status := Failed)
                    else before[id].(status := Scheduled, nextRunAt := next, runAt := next.value)
  }

  lemma ArmedRows(before: map<JobId, Job>, pending: map<JobId, Option<Time>>, jobs: map<JobId, Job>)
    requires Armed(before, pending, pending.Keys, jobs)
    ensures forall id :: id in pending ==> IsArmed(before, jobs, id, pending[id])
  {
  }

  lemma MayArm(s: Db, pending: map<JobId, Option<Time>>)
    requires forall id :: id in pending ==> CronPending(s, id)
    ensures pending.Keys <= s.jobs.Keys && Enabled(s, ArmCron(pending)) && Orderly(s, ArmCron(pending))
  {
  }

  lemma ArmOne(before: map<JobId, Job>, pending: map<JobId, Option<Time>>, done: set<JobId>, jobs: map<JobId, Job>,
               id: JobId)
    requires Armed(before, pending, done, jobs) && id in pending && id in jobs && id !in done
    ensures Armed(before, pending, done + {id}, jobs[id := SetArmed(jobs[id], pending[id])])
  {
    hide SetArmed;
  }

  lemma ArmedAll(s: Db, pending: map<JobId, Option<Time>>, jobs: map<JobId, Job>)
    requires Inv(s) && Enabled(s, ArmCron(pending)) && Armed(s.jobs, pending, pending.Keys, jobs)
    ensures s.(jobs := jobs) == Next(s, ArmCron(pending)) == s
  {
    hide SetArmed, Inv;
    NoCronPending(s);
    assert pending.Keys == {};
  }

  lemma ClaimWasPossible(s: Db, worker: WorkerId, tokens: map<JobId, Token>, chosen: seq<JobId>, bound: Token,
                         entry: DlqId)
    requires tokens.Keys == Elements(chosen) && Injective(tokens)
    requires forall id :: id in chosen ==> Claimable(s, id)
    requires Unused(s, bound, entry) && forall id :: id in tokens ==> bound <= tokens[id]
    ensures Enabled(s, Claim(worker, tokens)) && Orderly(s, Claim(worker, tokens))
    ensures forall id :: id in tokens ==> id in s.jobs && tokens[id] !in s.live
  {
    forall id | id in tokens
      ensures Claimable(s, id) && tokens[id] !in s.live
    {
      assert id in Elements(chosen);
    }
  }

  lemma ClaimIs(s: Db, worker: WorkerId, tokens: map<JobId, Token>, s': Db)
    requires Enabled(s, Claim(worker, tokens))
    requires s'.jobs == ClaimedRows(s.jobs, worker, tokens, s.now)
    requires s'.live == s.live + NewAttempts(s, worker, tokens)
    requires s' == s.(jobs := s'.jobs, live := s'.live)
    ensures s' == Next(s, Claim(worker, tokens))
  {
  }

  lemma TokensBounded(s: Db, worker: WorkerId, tokens: map<JobId, Token>, bound: Token, next: Token, entry: DlqId)
    requires Enabled(s, Claim(worker, tokens)) && bound <= next
    requires Unused(s, bound, entry) && forall id :: id in tokens ==> tokens[id] < next
    ensures Unused(Next(s, Claim(worker, tokens)), next, entry)
  {
    forall t | t in Next(s, Claim(worker, tokens)).live
      ensures t < next
    {
      ClaimedAttempts(s, worker, tokens, t);
    }
  }
}
