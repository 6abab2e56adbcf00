/** Building concrete runs, one step at a time. */
module Runs {
  import opened Wrappers
  import opened JobStore

  /** The run is orderly and leads from s to s'. */
  ghost predicate Leads(s: Db, steps: seq<Step>, s': Db)
  {
    IsRun(s, steps) && Throughout(s, steps, Orderly) && After(s, steps) == s'
  }

  lemma NoSteps(s: Db)
    ensures Leads(s, [], s)
  {
  }

  lemma One(s: Db, step: Step)
    requires Enabled(s, step) && Orderly(s, step)
    ensures Leads(s, [step], Next(s, step))
  {
    assert [step][1..] == [];
  }

  lemma {:induction false} Join(s: Db, front: seq<Step>, mid: Db, back: seq<Step>, end: Db)
    requires Leads(s, front, mid) && Leads(mid, back, end)
    ensures Leads(s, front + back, end)
    decreases |front|
  {
    hide Enabled, Next, Orderly;
    if front == [] {
      assert front + back == back;
    } else {
      Join(Next(s, front[0]), front[1..], mid, back, end);
      assert (front + back)[1..] == front[1..] + back;
    }
  }

  /** One more step at the end of a run. */
  lemma Then(s: Db, front: seq<Step>, mid: Db, step: Step)
    requires Leads(s, front, mid) && Enabled(mid, step) && Orderly(mid, step)
    ensures Leads(s, front + [step], Next(mid, step))
  {
    hide Leads, Enabled, Next, Orderly;
    One(mid, step);
    Join(s, front, mid, [step], Next(mid, step));
  }

  lemma OneAttempt(s: Db, worker: WorkerId, id: JobId, t: Token)
    requires id in s.jobs
    ensures Injective(map[id := t]) && NewAttempts(s, worker, map[id := t]) == map[t := AttemptOf(s, worker, id)]
  {
    var tokens: map<JobId, Token> := map[id := t];
    var made := NewAttempts(s, worker, tokens);
    assert tokens[id] in made && made[t] == AttemptOf(s, worker, id);
  }

  lemma OneClaimed(jobs: map<JobId, Job>, worker: WorkerId, id: JobId, t: Token, now: Time)
    requires id in jobs
    ensures ClaimedRows(jobs, worker, map[id := t], now) == jobs[id := SetClaimed(jobs[id], worker, t, now)]
  {
  }

  lemma ClaimOne(s: Db, worker: WorkerId, id: JobId, t: Token)
    requires Claimable(s, id) && t !in s.live
    ensures Enabled(s, Claim(worker, map[id := t])) && Orderly(s, Claim(worker, map[id := t]))
    ensures Next(s, Claim(worker, map[id := t])) ==
      s.(jobs := s.jobs[id := SetClaimed(s.jobs[id], worker, t, s.now)],
         live := s.live + map[t := AttemptOf(s, worker, id)])
  {
    OneAttempt(s, worker, id, t);
    OneClaimed(s.jobs, worker, id, t, s.now);
    hide Injective, NewAttempts, ClaimedRows, Claimable;
  }

  /** The state after a worker has claimed the job and begun its attempt, at one instant. */
  function Taken(s: Db, worker: WorkerId, id: JobId, t: Token): Db
    requires id in s.jobs
  {
    s.(jobs := s.jobs[id := SetClaimed(s.jobs[id], worker, t, s.now)],
       live := s.live[t := AttemptOf(s, worker, id).(phase := Begun(s.now + s.jobs[id].timeoutSecs * SECOND))])
  }

  lemma BeginOne(s: Db, t: Token)
    requires t in s.live && s.live[t].phase.Waiting?
    ensures Enabled(s, Begin(t)) && Orderly(s, Begin(t))
    ensures Next(s, Begin(t)) ==
      s.(live := s.live[t := s.live[t].(phase := Begun(s.now + s.live[t].timeoutSecs * SECOND))])
  {
  }

  lemma AddThenSet(live: map<Token, Attempt>, t: Token, a: Attempt, b: Attempt)
    ensures (live + map[t := a])[t := b] == live[t := b]
  {
  }

  lemma Take(s: Db, front: seq<Step>, mid: Db, worker: WorkerId, id: JobId, t: Token) returns (steps: seq<Step>)
    requires Leads(s, front, mid) && Claimable(mid, id) && t !in mid.live
    ensures Leads(s, steps, Taken(mid, worker, id, t))
    ensures steps == front + [Claim(worker, map[id := t])] + [Begin(t)]
  {
    hide Leads, Claimable, Enabled, Orderly, Next;
    assert id in mid.jobs by { ClaimableExists(mid, id); }
    ClaimOne(mid, worker, id, t);
    var claimed := Next(mid, Claim(worker, map[id := t]));
    Then(s, front, mid, Claim(worker, map[id := t]));
    BeginOne(claimed, t);
    Then(s, front + [Claim(worker, map[id := t])], claimed, Begin(t));
    steps := front + [Claim(worker, map[id := t])] + [Begin(t)];
    AddThenSet(mid.live, t, AttemptOf(mid, worker, id),
               AttemptOf(mid, worker, id).(phase := Begun(mid.now + mid.jobs[id].timeoutSecs * SECOND)));
  }

  lemma ClaimableExists(s: Db, id: JobId)
    requires Claimable(s, id)
    ensures id in s.jobs
  {
  }

  lemma InsertOne(s: Db, id: JobId, row: Job, deps: set<(JobId, JobId)>)
    requires id !in s.issued && NewRow(row) && forall e :: e in deps ==> e.0 == id && e.1 in s.jobs
    ensures Enabled(s, Insert(map[id := row], deps)) && Orderly(s, Insert(map[id := row], deps))
    ensures Next(s, Insert(map[id := row], deps)) ==
      s.(jobs := s.jobs + map[id := row], deps := s.deps + deps, issued := s.issued + {id})
  {
    assert InsertOrder(s, map[id := row], deps, map[id := 0]);
  }

  /** A timely start, and the attempt's last failure. */
  lemma Bury(s: Db, front: seq<Step>, mid: Db, t: Token, entry: DlqId) returns (steps: seq<Step>, end: Db)
    requires Leads(s, front, mid)
    requires t in mid.live && mid.live[t].phase.Begun? && mid.live[t].job in mid.jobs
    requires mid.now <= mid.live[t].phase.deadline && mid.now <= mid.live[t].claimedAt + GRACE
    requires mid.live[t].seen + 1 >= mid.live[t].maxAttempts
    requires mid.dlq == map[]
    ensures Leads(s, steps, end)
    ensures var a, row := mid.live[t], SetDead(SetRunning(mid.jobs[mid.live[t].job], mid.live[t].worker, t, mid.now));
      end == mid.(jobs := mid.jobs[a.job := row], live := mid.live - {t},
                  dlq := map[entry := DlqRow(a.job, row.queue, a.seen + 1, false)])
  {
    hide Leads, SetRunning;
    Then(s, front, mid, Start(t));
    var started := Next(mid, Start(t));
    Then(s, front + [Start(t)], started, Fail(t, 0, entry));
    steps, end := front + [Start(t)] + [Fail(t, 0, entry)], Next(started, Fail(t, 0, entry));
    assert DlqOf(started.dlq, mid.live[t].job) == {};
    assert started.live - {t} == mid.live - {t};
  }

  /** A timely start, and the attempt's success. */
  lemma Complete(s: Db, front: seq<Step>, mid: Db, t: Token) returns (steps: seq<Step>, end: Db)
    requires Leads(s, front, mid)
    requires t in mid.live && mid.live[t].phase.Begun? && mid.live[t].job in mid.jobs && mid.live[t].cron.None?
    requires mid.now <= mid.live[t].phase.deadline && mid.now <= mid.live[t].claimedAt + GRACE
    ensures Leads(s, steps, end) && steps == front + [Start(t)] + [Succeed(t, None)]
    ensures var a, row := mid.live[t], SetRunning(mid.jobs[mid.live[t].job], mid.live[t].worker, t, mid.now);
      end == mid.(jobs := mid.jobs[a.job := SetSucceeded(row, None, None)], live := mid.live - {t})
  {
    hide Leads, SetRunning, SetSucceeded;
    Then(s, front, mid, Start(t));
    var started := Next(mid, Start(t));
    Then(s, front + [Start(t)], started, Succeed(t, None));
    steps, end := front + [Start(t)] + [Succeed(t, None)], Next(started, Succeed(t, None));
    assert started.live - {t} == mid.live - {t};
  }
}
