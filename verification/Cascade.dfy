/** The unblock and cancel statements, run by any number of workers in any order over any unlocked rows,
    settle every blocked job the same way. */
module Cascade {
  import opened Acyclicity
  import opened JobStore

  predicate Cascades(step: Step)
  {
    step.Unblock? || step.CancelUnsatisfiable?
  }

  /** The rows such a statement changes. */
  function Changed(step: Step): set<JobId>
    requires Cascades(step)
  {
    if step.Unblock? then step.ready else step.doomed
  }

  ghost predicate CascadeRun(s: Db, steps: seq<Step>)
    decreases |steps|
  {
    steps == [] || (Cascades(steps[0]) && Enabled(s, steps[0]) && CascadeRun(Next(s, steps[0]), steps[1..]))
  }

  ghost function End(s: Db, steps: seq<Step>): Db
    requires CascadeRun(s, steps)
    decreases |steps|
  {
    if steps == [] then s else End(Next(s, steps[0]), steps[1..])
  }

  /** Row changes made along a run. */
  ghost function Changes(s: Db, steps: seq<Step>): nat
    requires CascadeRun(s, steps)
    decreases |steps|
  {
    if steps == [] then 0 else |Changed(steps[0])| + Changes(Next(s, steps[0]), steps[1..])
  }

  ghost function BlockedJobs(s: Db): set<JobId>
  {
    set id | id in s.jobs && s.jobs[id].status == Blocked
  }

  // ---------- Where each job must end ----------

  /** A path of blocked jobs from `id` to one with a dead or cancelled dependency. */
  ghost predicate DoomPath(s: Db, path: seq<JobId>)
  {
    && path != []
    && (forall i :: 0 <= i < |path| ==> path[i] in s.jobs && s.jobs[path[i]].status == Blocked)
    && Follows(s.deps, path)
    && DepFailed(s.jobs, s.deps, path[|path| - 1])
  }

  ghost predicate Doomed(s: Db, id: JobId)
  {
    exists path :: DoomPath(s, path) && path[0] == id
  }

  ghost function Fate(s: Db, id: JobId): Status
    requires id in s.jobs
  {
    if s.jobs[id].status != Blocked then s.jobs[id].status
    else if DepsCompleted(s.jobs, s.deps, id) then Queued
    else if Doomed(s, id) then Cancelled
    else Blocked
  }

  /** `s` is a state of the cascade that began in `s0`. */
  ghost predicate OnCourse(s0: Db, s: Db)
  {
    && s.jobs.Keys == s0.jobs.Keys && s.deps == s0.deps
    && forall id :: id in s0.jobs ==> s.jobs[id].status == s0.jobs[id].status || s.jobs[id].status == Fate(s0, id)
  }

  lemma ParentUnchanged(s0: Db, s: Db, id: JobId)
    requires OnCourse(s0, s) && id in s0.jobs
    ensures s.jobs[id].status == Completed <==> s0.jobs[id].status == Completed
    ensures s.jobs[id].status in {Dead, Cancelled} ==> s0.jobs[id].status in {Dead, Cancelled} || Doomed(s0, id)
    ensures s0.jobs[id].status in {Dead, Cancelled} ==> s.jobs[id].status in {Dead, Cancelled}
  {
  }

  lemma UnblockOnCourse(s0: Db, s: Db, id: JobId)
    requires OnCourse(s0, s) && Unblockable(s, id)
    ensures Fate(s0, id) == Queued
  {
    forall e | e in s0.deps && e.0 == id && e.1 in s0.jobs
      ensures s0.jobs[e.1].status == Completed
    {
      ParentUnchanged(s0, s, e.1);
    }
  }

  lemma CancelOnCourse(s0: Db, s: Db, id: JobId)
    requires OnCourse(s0, s) && Unsatisfiable(s, id)
    ensures Fate(s0, id) == Cancelled
  {
    var e :| e in s.deps && e.0 == id && e.1 in s.jobs && s.jobs[e.1].status in {Dead, Cancelled};
    ParentUnchanged(s0, s, e.1);
    if s0.jobs[e.1].status in {Dead, Cancelled} {
      assert DepFailed(s0.jobs, s0.deps, id);
      assert DoomPath(s0, [id]);
    } else {
      var rest :| DoomPath(s0, rest) && rest[0] == e.1;
      PathGrows(s0, id, rest);
      assert ([id] + rest)[0] == id;
    }
  }

  lemma PathGrows(s: Db, id: JobId, rest: seq<JobId>)
    requires DoomPath(s, rest) && (id, rest[0]) in s.deps && id in s.jobs && s.jobs[id].status == Blocked
    ensures DoomPath(s, [id] + rest)
  {
    var path := [id] + rest;
    forall k | 0 <= k < |path| - 1
      ensures StepIn(s.deps, path, k)
    {
      assert k > 0 ==> StepIn(s.deps, rest, k - 1);
    }
  }

  lemma StepOnCourse(s0: Db, s: Db, step: Step)
    requires OnCourse(s0, s) && Cascades(step) && Enabled(s, step)
    ensures OnCourse(s0, Next(s, step))
  {
    var s' := Next(s, step);
    forall id | id in s0.jobs
      ensures s'.jobs[id].status == s0.jobs[id].status || s'.jobs[id].status == Fate(s0, id)
    {
      if id in Changed(step) {
        if step.Unblock? {
          assert Unblockable(s, id);
          UnblockOnCourse(s0, s, id);
        } else {
          assert Unsatisfiable(s, id);
          CancelOnCourse(s0, s, id);
        }
      }
    }
  }

  lemma ChangesBlockedRows(s: Db, step: Step)
    requires Cascades(step) && Enabled(s, step)
    ensures Changed(step) <= BlockedJobs(s)
  {
    forall id | id in Changed(step)
      ensures id in s.jobs && s.jobs[id].status == Blocked
    {
      assert step.Unblock? ==> Unblockable(s, id);
      assert step.CancelUnsatisfiable? ==> Unsatisfiable(s, id);
    }
  }

  lemma StillBlocked(s: Db, step: Step, id: JobId)
    requires Cascades(step) && Enabled(s, step)
    ensures id in BlockedJobs(Next(s, step)) <==> id in BlockedJobs(s) && id !in Changed(step)
  {
    ChangesBlockedRows(s, step);
    hide DepsCompleted, DepFailed;
  }

  /** The statement turns exactly the rows it changes from blocked to something else. */
  lemma StepSpends(s: Db, step: Step)
    requires Cascades(step) && Enabled(s, step)
    ensures |BlockedJobs(Next(s, step))| + |Changed(step)| == |BlockedJobs(s)|
  {
    hide Next, Enabled, BlockedJobs, Changed;
    ChangesBlockedRows(s, step);
    forall id
      ensures id in BlockedJobs(Next(s, step)) <==> id in BlockedJobs(s) && id !in Changed(step)
    {
      StillBlocked(s, step, id);
    }
    assert BlockedJobs(s) == BlockedJobs(Next(s, step)) + Changed(step);
  }

  lemma {:induction false} RunOnCourse(s0: Db, s: Db, steps: seq<Step>)
    requires OnCourse(s0, s) && CascadeRun(s, steps)
    ensures OnCourse(s0, End(s, steps))
    ensures |BlockedJobs(End(s, steps))| + Changes(s, steps) == |BlockedJobs(s)|
    decreases |steps|
  {
    hide OnCourse, Enabled, Next;
    if steps != [] {
      StepOnCourse(s0, s, steps[0]);
      StepSpends(s, steps[0]);
      RunOnCourse(s0, Next(s, steps[0]), steps[1..]);
    }
  }

  // ---------- Where they do end ----------

  lemma {:induction false} DoomArrives(s0: Db, s: Db, path: seq<JobId>)
    requires OnCourse(s0, s) && Quiet(s) && DoomPath(s0, path)
    ensures s.jobs[path[0]].status == Cancelled
    decreases |path|
  {
    var id := path[0];
    assert !Unsatisfiable(s, id);
    assert path[0] in s0.jobs;
    if |path| == 1 {
      var e :| e in s0.deps && e.0 == id && e.1 in s0.jobs && s0.jobs[e.1].status in {Dead, Cancelled};
      ParentUnchanged(s0, s, e.1);
      assert e in s.deps;
    } else {
      var rest := path[1..];
      assert StepIn(s0.deps, path, 0);
      TailOfPath(s0, path);
      DoomArrives(s0, s, rest);
      assert (id, rest[0]) in s.deps;
    }
    DoomedIsNotReady(s0, path);
  }

  lemma TailOfPath(s: Db, path: seq<JobId>)
    requires DoomPath(s, path) && |path| > 1
    ensures DoomPath(s, path[1..])
  {
    var rest := path[1..];
    forall k | 0 <= k < |rest| - 1
      ensures StepIn(s.deps, rest, k)
    {
      assert StepIn(s.deps, path, k + 1);
    }
  }

  lemma DoomedIsNotReady(s: Db, path: seq<JobId>)
    requires DoomPath(s, path)
    ensures path[0] in s.jobs && !DepsCompleted(s.jobs, s.deps, path[0]) && Fate(s, path[0]) == Cancelled
  {
    if |path| > 1 {
      assert StepIn(s.deps, path, 0);
      var e := (path[0], path[1]);
      assert e in s.deps && e.1 in s.jobs && s.jobs[e.1].status == Blocked;
    }
  }

  lemma ReadyStaysReady(s0: Db, s: Db, id: JobId)
    requires OnCourse(s0, s) && id in s.jobs && s.jobs[id].status == Blocked
    ensures DepsCompleted(s0.jobs, s0.deps, id) ==> Unblockable(s, id)
  {
    forall e | e in s.deps && e.0 == id && e.1 in s.jobs
      ensures s0.jobs[e.1].status == Completed ==> s.jobs[e.1].status == Completed
    {
      ParentUnchanged(s0, s, e.1);
    }
  }

  /** When nothing is left to unblock or cancel, every job has the status its fate assigns. */
  lemma QuietIsFate(s0: Db, s: Db, id: JobId)
    requires OnCourse(s0, s) && Quiet(s) && id in s0.jobs
    ensures s.jobs[id].status == Fate(s0, id)
  {
    if s.jobs[id].status == s0.jobs[id].status == Blocked {
      ReadyStaysReady(s0, s, id);
      if !DepsCompleted(s0.jobs, s0.deps, id) && Doomed(s0, id) {
        var path :| DoomPath(s0, path) && path[0] == id;
        DoomArrives(s0, s, path);
      }
    }
  }

  /** Confluence: every cascade that runs to quiescence ends each job at the same status, decided by the starting
      state alone, and never changes more rows than there were blocked jobs. */
  lemma CascadeConfluence(s: Db, steps: seq<Step>, others: seq<Step>, id: JobId)
    requires CascadeRun(s, steps) && Quiet(End(s, steps))
    requires CascadeRun(s, others) && Quiet(End(s, others))
    requires id in s.jobs
    ensures id in End(s, steps).jobs && id in End(s, others).jobs
    ensures End(s, steps).jobs[id].status == End(s, others).jobs[id].status == Fate(s, id)
    ensures Changes(s, steps) == Changes(s, others) <= |BlockedJobs(s)|
  {
    RunOnCourse(s, s, steps);
    RunOnCourse(s, s, others);
    QuietIsFate(s, End(s, steps), id);
    QuietIsFate(s, End(s, others), id);
    SameBlocked(s, End(s, steps), End(s, others));
  }

  lemma SameBlocked(s0: Db, s: Db, s': Db)
    requires OnCourse(s0, s) && OnCourse(s0, s') && Quiet(s) && Quiet(s')
    ensures BlockedJobs(s) == BlockedJobs(s')
  {
    forall id | id in s0.jobs
      ensures s.jobs[id].status == s'.jobs[id].status
    {
      QuietIsFate(s0, s, id);
      QuietIsFate(s0, s', id);
    }
  }

  /** Quiescence is always reached: as long as something can be unblocked or cancelled, doing so spends a blocked job.
      */
  lemma {:induction false} CascadeSettles(s: Db) returns (steps: seq<Step>)
    ensures CascadeRun(s, steps) && Quiet(End(s, steps))
    decreases |BlockedJobs(s)|
  {
    if id :| Unblockable(s, id) {
      steps := SettleAfter(s, Unblock({id}));
    } else if id :| Unsatisfiable(s, id) {
      steps := SettleAfter(s, CancelUnsatisfiable({id}));
    } else {
      steps := [];
    }
  }

  lemma {:induction false} SettleAfter(s: Db, step: Step) returns (steps: seq<Step>)
    requires Cascades(step) && Enabled(s, step) && |Changed(step)| > 0
    ensures CascadeRun(s, steps) && Quiet(End(s, steps))
    decreases |BlockedJobs(s)|, 0
  {
    StepSpends(s, step);
    hide Enabled, Next, Quiet;
    var rest := CascadeSettles(Next(s, step));
    steps := [step] + rest;
    assert steps[1..] == rest;
  }
}
