/** What a waiting job waits for once nothing is left to unblock or cancel, and when it waits for ever. */
module Waiting {
  import opened Acyclicity
  import opened JobStore
  import opened Lifecycle
  import opened Guarantees

  // ---------- Upstream from a waiting job ----------

  /** Under way, ready to be claimed, or failed and open to a user's retry. */
  predicate CanMove(s: Db, id: JobId)
  {
    && id in s.jobs
    && (|| s.jobs[id].status in {Claimed, Running, Failed}
        || (s.jobs[id].status in {Queued, Scheduled} && DepsCompleted(s.jobs, s.deps, id)))
  }

  /** Queued or scheduled behind a dead or cancelled dependency: the claim passes it over, and the cancel statement,
      which looks at blocked jobs alone, leaves it there. */
  predicate Stranded(s: Db, id: JobId)
  {
    id in s.jobs && s.jobs[id].status in {Queued, Scheduled} && DepFailed(s.jobs, s.deps, id)
  }

  /** Waiting for a dependency that may still complete. */
  predicate Waits(s: Db, id: JobId)
  {
    && id in s.jobs && s.jobs[id].status in {Blocked, Queued, Scheduled}
    && !DepsCompleted(s.jobs, s.deps, id) && !Stranded(s, id)
  }

  ghost predicate WaitsAt(s: Db, chain: seq<JobId>, i: nat)
    requires i + 1 < |chain|
  {
    Waits(s, chain[i]) && chain[i + 1] in s.jobs && s.jobs[chain[i + 1]].status != Completed
  }

  /** `chain` goes from a blocked job to one of its incomplete dependencies, and on as long as the jobs it meets wait.
      */
  ghost predicate Upstream(s: Db, chain: seq<JobId>)
  {
    && chain != [] && chain[0] in s.jobs && s.jobs[chain[0]].status == Blocked
    && Follows(s.deps, chain)
    && forall i :: 0 <= i < |chain| - 1 ==> WaitsAt(s, chain, i)
  }

  ghost predicate Maximal(s: Db, chain: seq<JobId>)
  {
    Upstream(s, chain) && forall parent :: !Upstream(s, chain + [parent])
  }

  lemma UpstreamGrows(s: Db, chain: seq<JobId>, parent: JobId)
    requires Upstream(s, chain) && Waits(s, chain[|chain| - 1])
    requires (chain[|chain| - 1], parent) in s.deps && parent in s.jobs && s.jobs[parent].status != Completed
    ensures Upstream(s, chain + [parent])
  {
    var longer := chain + [parent];
    forall i | 0 <= i < |longer| - 1
      ensures StepIn(s.deps, longer, i) && WaitsAt(s, longer, i)
    {
      if i < |chain| - 1 {
        assert StepIn(s.deps, chain, i) && WaitsAt(s, chain, i);
      }
    }
  }

  /** The last job of a chain, once the sweep has nothing to do: it can move, it is stranded, or the chain goes on. */
  lemma ChainHead(s: Db, chain: seq<JobId>)
    requires Quiet(s) && Upstream(s, chain)
    ensures var last := chain[|chain| - 1];
      && last in s.jobs && (CanMove(s, last) || Stranded(s, last) || Waits(s, last))
      && !(CanMove(s, last) && Stranded(s, last))
  {
    var last := chain[|chain| - 1];
    assert !Unblockable(s, last) && !Unsatisfiable(s, last);
    if |chain| > 1 {
      var k := |chain| - 2;
      assert StepIn(s.deps, chain, k) && WaitsAt(s, chain, k);
      assert !Unsatisfiable(s, chain[k]);
    }
  }

  /** When nothing is left to unblock or cancel, every maximal chain from a blocked job ends at a job that can move
      exactly when it meets no stranded one. */
  lemma ChainEndsIff(s: Db, chain: seq<JobId>)
    requires Quiet(s) && Maximal(s, chain)
    ensures CanMove(s, chain[|chain| - 1]) <==> forall i :: 0 <= i < |chain| ==> !Stranded(s, chain[i])
    ensures CanMove(s, chain[|chain| - 1]) || Stranded(s, chain[|chain| - 1])
  {
    var last := chain[|chain| - 1];
    ChainHead(s, chain);
    if Waits(s, last) {
      var e :| e in s.deps && e.0 == last && e.1 in s.jobs && s.jobs[e.1].status != Completed;
      UpstreamGrows(s, chain, e.1);
      assert false;
    }
    forall i | 0 <= i < |chain| - 1
      ensures !Stranded(s, chain[i])
    {
      assert WaitsAt(s, chain, i);
    }
  }

  /** Nobody waits in a circle: every chain goes on to a maximal one. */
  lemma {:induction false} ChainGoesOn(s: Db, rank: map<JobId, nat>, chain: seq<JobId>) returns (more: seq<JobId>)
    requires Ranks(s.deps, rank) && Upstream(s, chain)
    ensures Maximal(s, chain + more)
    decreases if chain[|chain| - 1] in rank then rank[chain[|chain| - 1]] else 0
  {
    var last := chain[|chain| - 1];
    if parent :| Upstream(s, chain + [parent]) {
      var longer := chain + [parent];
      assert StepIn(s.deps, longer, |chain| - 1);
      var rest := ChainGoesOn(s, rank, longer);
      more := [parent] + rest;
      assert longer + rest == chain + more;
    } else {
      more := [];
      assert chain + more == chain;
    }
  }

  /** So every blocked job has a chain upstream to a job that can move or to a stranded one, and the first for certain
      when no stranded job lies upstream. */
  lemma NoMutualWaiting(s: Db, id: JobId) returns (chain: seq<JobId>)
    requires Reachable(s) && id in s.jobs && s.jobs[id].status == Blocked && Quiet(s)
    ensures Maximal(s, chain) && chain[0] == id
    ensures CanMove(s, chain[|chain| - 1]) <==> forall i :: 0 <= i < |chain| ==> !Stranded(s, chain[i])
    ensures CanMove(s, chain[|chain| - 1]) || Stranded(s, chain[|chain| - 1])
  {
    ReachableInv(s);
    var rank :| Ranks(s.deps, rank);
    hide Inv;
    assert Upstream(s, [id]);
    var more := ChainGoesOn(s, rank, [id]);
    chain := [id] + more;
    ChainEndsIff(s, chain);
  }

  // ---------- Waiting for ever ----------

  /** Never completes without a user: its end is another one, or it is a cron job. */
  predicate Barrier(s: Db, id: JobId)
  {
    id in s.jobs && (s.jobs[id].status in {Dead, Cancelled, Failed} || s.jobs[id].cron.Some?)
  }

  /** A path of dependencies from `path[0]` down to a job that never completes. */
  ghost predicate Hopeless(s: Db, path: seq<JobId>)
  {
    |path| >= 2 && Follows(s.deps, path) && Barrier(s, path[|path| - 1])
  }

  /** Everything the workers and the sweep do, and creating jobs; not what users do to jobs and dead letters. */
  predicate Automatic(step: Step)
  {
    !step.CancelJob? && !step.RetryJob? && !step.Delete? && !step.RetryDead? && !step.RetryAllDead?
  }

  lemma AutomaticKeepsRows(s: Db, step: Step, id: JobId)
    requires Inv(s) && Enabled(s, step) && Automatic(step) && id in s.jobs
    ensures id in Next(s, step).jobs && Next(s, step).jobs[id] == RowAfter(s, step, id)
    ensures s.deps <= Next(s, step).deps
  {
    assert id in s.issued;
    AutomaticKeepsKeys(s, step);
    hide Inv;
    NextRow(s, step, id);
  }

  lemma AutomaticKeepsKeys(s: Db, step: Step)
    requires Enabled(s, step) && Automatic(step)
    ensures s.jobs.Keys <= Next(s, step).jobs.Keys && s.deps <= Next(s, step).deps
  {
  }

  /** Such a job stays so without a user. */
  lemma BarrierStays(s: Db, step: Step, id: JobId)
    requires Inv(s) && Enabled(s, step) && Orderly(s, step) && Automatic(step) && Barrier(s, id)
    ensures Barrier(Next(s, step), id)
  {
    hide Next, Enabled, RowAfter, RowsOk, LeasesOk, AttemptsOk, KeysOk, DepsOk, DlqOk, DepsRanked;
    AutomaticKeepsRows(s, step, id);
    if s.jobs[id].cron.Some? {
      RowMoves(s, step, id);
    } else {
      EndedStays(s, step, id);
    }
  }

  lemma EndedStays(s: Db, step: Step, id: JobId)
    requires Inv(s) && Enabled(s, step) && Orderly(s, step) && Automatic(step) && id in s.jobs
    requires s.jobs[id].status in {Dead, Cancelled, Failed} && s.jobs[id].cron.None?
    ensures RowAfter(s, step, id) == s.jobs[id]
  {
    if Writer(step).Some? && !step.Release? {
      WriterHolds(s, step);
    }
    hide Inv, DepsCompleted, DepFailed;
  }

  /** No job on the way down has completed, so none has its dependencies completed or has ever been started. */
  lemma {:induction false} HopelessIsIncomplete(s: Db, path: seq<JobId>, i: nat)
    requires Inv(s) && Hopeless(s, path) && i < |path|
    ensures path[i] in s.jobs && s.jobs[path[i]].status != Completed
    ensures i < |path| - 1 ==> !DepsCompleted(s.jobs, s.deps, path[i]) && !Settled(s.jobs[path[i]].status)
    decreases |path| - i
  {
    if i == |path| - 1 {
      assert RowOk(s.jobs[path[i]]);
    } else {
      HopelessIsIncomplete(s, path, i + 1);
      assert StepIn(s.deps, path, i);
      var e := (path[i], path[i + 1]);
      assert e in s.deps && e.0 in s.jobs && e.1 in s.jobs;
    }
  }

  lemma HopelessKept(s: Db, step: Step, path: seq<JobId>)
    requires Inv(s) && Enabled(s, step) && Orderly(s, step) && Automatic(step) && Hopeless(s, path)
    ensures Hopeless(Next(s, step), path)
  {
    hide Inv, Enabled, Orderly, Next, DepsCompleted, Barrier;
    BarrierStays(s, step, path[|path| - 1]);
    AutomaticKeepsKeys(s, step);
    forall i | 0 <= i < |path| - 1
      ensures StepIn(Next(s, step).deps, path, i)
    {
      assert StepIn(s.deps, path, i);
    }
  }

  /** Below such a path a job is never claimed, through everything the workers, the sweep and new jobs can do. */
  lemma {:induction false} HopelessForever(s: Db, steps: seq<Step>, path: seq<JobId>)
    requires Inv(s) && IsRun(s, steps) && Throughout(s, steps, Orderly) && Hopeless(s, path)
    requires forall i :: 0 <= i < |steps| ==> Automatic(steps[i])
    ensures Always(s, steps, (t: Db) => NeverStarted(t, path))
    decreases |steps|
  {
    HopelessIsIncomplete(s, path, 0);
    if steps != [] {
      InvKept(s, steps[0]);
      HopelessKept(s, steps[0], path);
      hide Inv, Enabled, Orderly, Next, Hopeless, Claimable, DepsCompleted;
      HopelessForever(Next(s, steps[0]), steps[1..], path);
    }
  }

  ghost predicate NeverStarted(s: Db, path: seq<JobId>)
  {
    && Hopeless(s, path) && path[0] in s.jobs
    && !Claimable(s, path[0]) && !Settled(s.jobs[path[0]].status)
  }

  /** A chain that ends at a stranded job is the beginning of such a path. */
  lemma StrandedIsHopeless(s: Db, chain: seq<JobId>) returns (path: seq<JobId>)
    requires Upstream(s, chain) && Stranded(s, chain[|chain| - 1])
    ensures Hopeless(s, path) && path[0] == chain[0]
  {
    var last := chain[|chain| - 1];
    var e :| e in s.deps && e.0 == last && e.1 in s.jobs && s.jobs[e.1].status in {Dead, Cancelled};
    path := chain + [e.1];
    forall i | 0 <= i < |path| - 1
      ensures StepIn(s.deps, path, i)
    {
      assert i < |chain| - 1 ==> StepIn(s.deps, chain, i);
    }
  }
}
