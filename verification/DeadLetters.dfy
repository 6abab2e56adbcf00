/** A job that dies leaves an open dead-letter entry, which stays open until somebody resolves it
    (worker/internal/executor/executor.go, api/internal/handler/dlq.go). */
module DeadLetters {
  import opened JobStore
  import opened Lifecycle

  ghost predicate IsDead(s: Db, id: JobId)
  {
    id in s.jobs && s.jobs[id].status == Dead
  }

  /** The entry is the job's, unresolved, and records the attempts the job has used up. */
  ghost predicate OpenEntry(s: Db, d: DlqId, id: JobId)
  {
    && d in s.dlq && s.dlq[d].job == id && !s.dlq[d].resolved
    && id in s.jobs && s.dlq[d].attempts == s.jobs[id].attempts
  }

  ghost predicate HasOpenEntry(s: Db, id: JobId)
  {
    exists d :: OpenEntry(s, d, id)
  }

  /** A discard or a dead-letter retry that names the job's entry. */
  ghost predicate Resolves(s: Db, step: Step, id: JobId)
  {
    match step
    case Discard(entries) => exists d :: d in entries && d in s.dlq && s.dlq[d].job == id
    case RetryAllDead(entries) => exists d :: d in entries && d in s.dlq && s.dlq[d].job == id
    case RetryDead(d, _) => d in s.dlq && s.dlq[d].job == id
    case _ => false
  }

  /** Only a final failure of the attempt that runs the job kills it. */
  lemma DeathIsFailure(s: Db, step: Step, id: JobId)
    requires Inv(s) && Enabled(s, step) && !IsDead(s, id) && IsDead(Next(s, step), id)
    ensures step.Fail? && s.live[step.t].job == id && id in s.jobs
    ensures s.jobs[id].attempts == s.live[step.t].seen + 1 >= s.live[step.t].maxAttempts
  {
    NextRow(s, step, id);
    hide Next, RowsOk, LeasesOk, AttemptsOk, KeysOk, DepsOk, DlqOk, DepsRanked, DepsCompleted, DepFailed;
    DeadlyRow(s, step, id);
    if step.Fail? {
      WriterHolds(s, step);
    }
  }

  lemma DeadlyRow(s: Db, step: Step, id: JobId)
    requires Enabled(s, step) && id in s.jobs && s.jobs[id].status != Dead
    ensures RowAfter(s, step, id).status == Dead ==>
      step.Fail? && s.live[step.t].job == id && s.live[step.t].seen + 1 >= s.live[step.t].maxAttempts
  {
    hide DepsCompleted, DepFailed;
  }

  lemma DeathOpensEntry(s: Db, step: Step, id: JobId)
    requires Inv(s) && Enabled(s, step) && !IsDead(s, id) && IsDead(Next(s, step), id)
    ensures HasOpenEntry(Next(s, step), id)
  {
    DeathIsFailure(s, step, id);
    var s' := Next(s, step);
    if d :| d in s.dlq && s.dlq[d].job == id {
      assert d in DlqOf(s.dlq, id);
      assert OpenEntry(s', d, id);
    } else {
      assert DlqOf(s.dlq, id) == {};
      assert OpenEntry(s', step.newId, id);
    }
  }

  /** A job that stays dead keeps its row. */
  lemma DeadRowKept(s: Db, step: Step, id: JobId)
    requires Inv(s) && Enabled(s, step) && IsDead(s, id) && IsDead(Next(s, step), id)
    ensures Next(s, step).jobs[id].attempts == s.jobs[id].attempts
    ensures step.Fail? ==> s.live[step.t].job != id
  {
    NextRow(s, step, id);
    assert id in s.issued;
    hide Next, DepsCompleted, DepFailed;
    if step.Fail? || step.Succeed? {
      WriterHolds(s, step);
    }
  }

  /** The failure of another job leaves the entry alone. */
  lemma OtherFailure(s: Db, t: Token, retryAt: Time, newId: DlqId, d: DlqId)
    requires Enabled(s, Fail(t, retryAt, newId)) && d in s.dlq && s.dlq[d].job != s.live[t].job
    ensures var s' := Next(s, Fail(t, retryAt, newId)); d in s'.dlq && s'.dlq[d] == s.dlq[d]
  {
  }

  /** Apart from failures, an entry of a job that is not retried is resolved by naming it, and by nothing else. */
  lemma EntryResolvedIff(s: Db, step: Step, d: DlqId)
    requires Enabled(s, step) && !step.Fail? && d in s.dlq && d in Next(s, step).dlq
    requires forall e :: e in s.dlq && s.dlq[e].job == s.dlq[d].job ==> e == d
    ensures var row, row' := s.dlq[d], Next(s, step).dlq[d];
      && row'.job == row.job && row'.attempts == row.attempts
      && (row'.resolved <==> row.resolved || Resolves(s, step, row.job))
  {
    if !WritesDlq(step) {
      DlqUntouched(s, step);
      hide Next;
    }
  }

  /** Its entry is resolved by naming it, and by nothing else. */
  lemma EntryOpenIff(s: Db, step: Step, id: JobId, d: DlqId)
    requires Inv(s) && Enabled(s, step) && IsDead(s, id) && IsDead(Next(s, step), id)
    requires d in s.dlq && s.dlq[d].job == id
    ensures OpenEntry(Next(s, step), d, id) <==> OpenEntry(s, d, id) && !Resolves(s, step, id)
  {
    DeadRowKept(s, step, id);
    assert forall e :: e in s.dlq && s.dlq[e].job == s.dlq[d].job ==> e == d;
    hide Inv;
    if step.Fail? {
      OtherFailure(s, step.t, step.retryAt, step.newId, d);
      hide Next, Enabled;
    } else {
      RetriedIsAlive(s, step, id);
      EntryStays(s, step, d);
      hide Next, Enabled;
      EntryResolvedIff(s, step, d);
    }
  }

  lemma RetriedIsAlive(s: Db, step: Step, id: JobId)
    requires Enabled(s, step) && IsDead(Next(s, step), id)
    ensures step != RetryJob(id) && !(step.Delete? && id in step.ids)
  {
  }

  lemma OpenIff(s: Db, step: Step, id: JobId)
    requires Inv(s) && Enabled(s, step) && IsDead(s, id) && IsDead(Next(s, step), id)
    ensures HasOpenEntry(Next(s, step), id) <==> HasOpenEntry(s, id) && !Resolves(s, step, id)
  {
    var d :| d in DlqOf(s.dlq, id);
    EntryOpenIff(s, step, id, d);
    forall e | OpenEntry(Next(s, step), e, id) || OpenEntry(s, e, id)
      ensures e == d
    {
      if OpenEntry(Next(s, step), e, id) {
        NextEntry(s, step, e);
        DeadRowKept(s, step, id);
      }
    }
  }

  /** As long as a job stays dead, its entry is open exactly when it was and nobody has named it since. */
  lemma {:induction false} OpenWhileDeadIff(s: Db, steps: seq<Step>, id: JobId)
    requires Inv(s) && IsRun(s, steps) && Throughout(s, steps, Sparing)
    requires Always(s, steps, (t: Db) => IsDead(t, id))
    ensures HasOpenEntry(After(s, steps), id)
       <==> HasOpenEntry(s, id) && Throughout(s, steps, (t: Db, step: Step) => !Resolves(t, step, id))
    decreases |steps|
  {
    hide Inv, Enabled, Next, Sparing, IsDead, HasOpenEntry, Resolves;
    if steps != [] {
      AlwaysFirst(Next(s, steps[0]), steps[1..], (t: Db) => IsDead(t, id));
      OpenIff(s, steps[0], id);
      KeepsInvIffSparing(s, steps[0]);
      OpenWhileDeadIff(Next(s, steps[0]), steps[1..], id);
    }
  }

  /** So after a job has died, and until it is retried or deleted, it has an unresolved entry with its attempt count
      exactly when no discard and no dead-letter retry has named that entry since. */
  lemma OpenSinceDeathIff(s: Db, death: Step, steps: seq<Step>, id: JobId)
    requires Inv(s) && Enabled(s, death) && Sparing(s, death) && !IsDead(s, id)
    requires IsRun(Next(s, death), steps) && Throughout(Next(s, death), steps, Sparing)
    requires Always(Next(s, death), steps, (t: Db) => IsDead(t, id))
    ensures HasOpenEntry(After(Next(s, death), steps), id)
       <==> Throughout(Next(s, death), steps, (t: Db, step: Step) => !Resolves(t, step, id))
  {
    hide Inv, Enabled, Next, Sparing, IsDead, HasOpenEntry, Resolves;
    AlwaysFirst(Next(s, death), steps, (t: Db) => IsDead(t, id));
    DeathOpensEntry(s, death, id);
    KeepsInvIffSparing(s, death);
    OpenWhileDeadIff(Next(s, death), steps, id);
  }
}
