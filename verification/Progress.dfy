/** That nothing but a job which never completes can keep a waiting job waiting: the workers and the sweep can always
    bring everything else to completion. */
module Progress {
  import opened Wrappers
  import opened Sequences
  import opened Acyclicity
  import opened JobStore
  import opened Lifecycle
  import opened Runs
  import opened Waiting

  /** An orderly run without a user. */
  ghost predicate Unaided(s: Db, steps: seq<Step>, s': Db)
  {
    Leads(s, steps, s') && forall i :: 0 <= i < |steps| ==> Automatic(steps[i])
  }

  lemma Stay(s: Db)
    ensures Unaided(s, [], s)
  {
    NoSteps(s);
  }

  lemma Further(s: Db, front: seq<Step>, mid: Db, back: seq<Step>, end: Db)
    requires Unaided(s, front, mid) && Unaided(mid, back, end)
    ensures Unaided(s, front + back, end)
  {
    hide Leads;
    Join(s, front, mid, back, end);
  }

  lemma OneUnaided(s: Db, step: Step)
    requires Enabled(s, step) && Orderly(s, step) && Automatic(step)
    ensures Unaided(s, [step], Next(s, step))
  {
    hide Leads;
    One(s, step);
  }

  lemma UnaidedKeepsInv(s: Db, steps: seq<Step>, s': Db)
    requires Inv(s) && Unaided(s, steps, s')
    ensures Inv(s')
  {
    hide Inv, Orderly;
    InvAlways(s, steps);
  }

  // ---------- One job whose dependencies are completed ----------

  /** Only time, one row and the attempts differ. */
  ghost predicate OnlyRow(s: Db, s': Db, id: JobId)
  {
    && id in s.jobs && id in s'.jobs && s'.jobs == s.jobs[id := s'.jobs[id]]
    && s'.deps == s.deps && s'.jobs[id].cron == s.jobs[id].cron
  }

  /** Let enough time pass. */
  lemma Wait(s: Db, until: Time) returns (steps: seq<Step>, s': Db)
    ensures Unaided(s, steps, s') && s' == s.(now := s'.now) && s'.now >= until
  {
    var elapsed := if until > s.now then until - s.now else 0;
    steps, s' := [Tick(elapsed)], s.(now := s.now + elapsed);
    OneUnaided(s, Tick(elapsed));
  }

  /** Wherever the job stands, it can be put in the queue: a scheduled one when its time has come, a claimed or running
      one when whoever has it has been given up. */
  lemma MakeQueued(s: Db, id: JobId) returns (steps: seq<Step>, s': Db)
    requires Inv(s) && id in s.jobs && DepsCompleted(s.jobs, s.deps, id)
    requires s.jobs[id].status in {Blocked, Queued, Scheduled, Claimed, Running}
    ensures Unaided(s, steps, s') && OnlyRow(s, s', id) && s'.jobs[id].status == Queued
  {
    assert RowOk(s.jobs[id]);
    hide Inv, Unaided, Enabled, Orderly, Next, DepsCompleted;
    match s.jobs[id].status
    case Queued =>
      steps, s' := [], s;
      Stay(s);
    case Blocked =>
      steps, s' := [Unblock({id})], Next(s, Unblock({id}));
      UnblockIt(s, id);
      OneUnaided(s, Unblock({id}));
    case Scheduled =>
      steps, s' := PromoteLater(s, id);
    case _ =>
      steps, s' := ReclaimLater(s, id);
  }

  lemma PromoteLater(s: Db, id: JobId) returns (steps: seq<Step>, s': Db)
    requires id in s.jobs && s.jobs[id].status == Scheduled
    ensures Unaided(s, steps, s') && OnlyRow(s, s', id) && s'.jobs[id].status == Queued
  {
    hide Unaided, Enabled, Orderly, Next;
    var waited, s1 := Wait(s, s.jobs[id].runAt);
    PromoteIt(s1, id);
    OneUnaided(s1, Promote({id}));
    s' := Next(s1, Promote({id}));
    steps := waited + [Promote({id})];
    Further(s, waited, s1, [Promote({id})], s');
  }

  lemma ReclaimLater(s: Db, id: JobId) returns (steps: seq<Step>, s': Db)
    requires id in s.jobs && s.jobs[id].status in {Claimed, Running} && s.jobs[id].claimedAt.Some?
    requires s.jobs[id].timeoutSecs >= 1
    ensures Unaided(s, steps, s') && OnlyRow(s, s', id) && s'.jobs[id].status == Queued
  {
    hide Unaided, Enabled, Orderly, Next;
    var j := s.jobs[id];
    var waited, s1 := Wait(s, j.claimedAt.value + j.timeoutSecs * SECOND + GRACE + 1);
    ReclaimIt(s1, id);
    OneUnaided(s1, Reclaim({id}));
    s' := Next(s1, Reclaim({id}));
    steps := waited + [Reclaim({id})];
    Further(s, waited, s1, [Reclaim({id})], s');
  }

  lemma UnblockIt(s: Db, id: JobId)
    requires Unblockable(s, id)
    ensures Enabled(s, Unblock({id})) && Orderly(s, Unblock({id}))
    ensures Next(s, Unblock({id})) == s.(jobs := s.jobs[id := s.jobs[id].(status := Queued, runAt := s.now)])
  {
    hide DepsCompleted;
  }

  lemma PromoteIt(s: Db, id: JobId)
    requires Due(s, id)
    ensures Enabled(s, Promote({id})) && Orderly(s, Promote({id}))
    ensures Next(s, Promote({id})) == s.(jobs := s.jobs[id := s.jobs[id].(status := Queued)])
  {
  }

  lemma ReclaimIt(s: Db, id: JobId)
    requires Stuck(s, id)
    ensures Enabled(s, Reclaim({id})) && Orderly(s, Reclaim({id}))
    ensures Next(s, Reclaim({id})) == s.(jobs := s.jobs[id := SetReclaimed(s.jobs[id], s.now)])
  {
    hide SetReclaimed;
  }

  lemma FreshToken(live: map<Token, Attempt>) returns (t: Token)
    ensures t !in live
  {
    if forall u: Token :: u < |live| + 1 ==> u in live {
      SubsetSize(Below(|live| + 1), live.Keys);
      assert false;
    }
    t :| t !in live;
  }

  lemma StillCompleted(s: Db, s': Db, id: JobId)
    requires id in s.jobs && s.jobs[id].status != Completed && DepsCompleted(s.jobs, s.deps, id) && OnlyRow(s, s', id)
    ensures DepsCompleted(s'.jobs, s'.deps, id)
  {
  }

  lemma MakeClaimable(s: Db, id: JobId) returns (steps: seq<Step>, s': Db)
    requires Inv(s) && id in s.jobs && DepsCompleted(s.jobs, s.deps, id)
    requires s.jobs[id].status in {Blocked, Queued, Scheduled, Claimed, Running}
    ensures Inv(s') && Unaided(s, steps, s') && OnlyRow(s, s', id) && Claimable(s', id)
  {
    hide Inv, Unaided;
    var queued, s1 := MakeQueued(s, id);
    var waited;
    waited, s' := Wait(s1, s1.jobs[id].runAt);
    StillCompleted(s, s', id);
    hide DepsCompleted;
    steps := queued + waited;
    Further(s, queued, s1, waited, s');
    UnaidedKeepsInv(s, steps, s');
  }

  /** A worker claims the job, in time to run it. */
  lemma MakeClaimed(s: Db, id: JobId) returns (steps: seq<Step>, s': Db, t: Token)
    requires Inv(s) && id in s.jobs && DepsCompleted(s.jobs, s.deps, id)
    requires s.jobs[id].status in {Blocked, Queued, Scheduled, Claimed, Running}
    ensures Unaided(s, steps, s') && OnlyRow(s, s', id) && s'.jobs[id].status == Claimed
    ensures t in s'.live && s'.live[t].job == id && s'.live[t].cron == s'.jobs[id].cron
    ensures s'.live[t].phase.Begun? && s'.now <= s'.live[t].phase.deadline && s'.now <= s'.live[t].claimedAt + GRACE
  {
    hide Unaided, DepsCompleted;
    var ready, s1 := MakeClaimable(s, id);
    assert RowOk(s1.jobs[id]);
    hide Inv;
    t := FreshToken(s1.live);
    var taken := TakeIt(s1, id, t);
    s' := Taken(s1, "", id, t);
    steps := ready + taken;
    Further(s, ready, s1, taken, s');
  }

  lemma TakeIt(s: Db, id: JobId, t: Token) returns (steps: seq<Step>)
    requires Claimable(s, id) && t !in s.live
    ensures id in s.jobs && Unaided(s, steps, Taken(s, "", id, t))
  {
    hide Leads, DepsCompleted;
    NoSteps(s);
    steps := Take(s, [], s, "", id, t);
  }

  lemma CompleteIt(s: Db, id: JobId, t: Token) returns (steps: seq<Step>, s': Db)
    requires t in s.live && s.live[t].job == id && id in s.jobs && s.live[t].cron.None? && s.jobs[id].cron.None?
    requires s.live[t].phase.Begun? && s.now <= s.live[t].phase.deadline && s.now <= s.live[t].claimedAt + GRACE
    ensures Unaided(s, steps, s') && OnlyRow(s, s', id) && s'.jobs[id].status == Completed
  {
    hide Leads;
    NoSteps(s);
    steps, s' := Complete(s, [], s, t);
  }

  /** And completes it. */
  lemma Finish(s: Db, id: JobId) returns (steps: seq<Step>, s': Db)
    requires Inv(s) && id in s.jobs && DepsCompleted(s.jobs, s.deps, id) && s.jobs[id].cron.None?
    requires s.jobs[id].status in {Blocked, Queued, Scheduled, Claimed, Running}
    ensures Unaided(s, steps, s') && OnlyRow(s, s', id) && s'.jobs[id].status == Completed
  {
    hide Inv, Unaided, DepsCompleted;
    var claimed, s1, t := MakeClaimed(s, id);
    var done;
    done, s' := CompleteIt(s1, id, t);
    Further(s, claimed, s1, done, s');
    steps := claimed + done;
  }

  // ---------- Everything upstream ----------

  function RankOf(rank: map<JobId, nat>, id: JobId): nat
  {
    if id in rank then rank[id] else 0
  }

  /** Every row is as it was, or completed and of a rank below `top`. */
  ghost predicate Advanced(s: Db, s': Db, rank: map<JobId, nat>, top: nat)
  {
    && s'.jobs.Keys == s.jobs.Keys && s'.deps == s.deps
    && forall id :: id in s.jobs ==>
         s'.jobs[id] == s.jobs[id] || (s'.jobs[id].status == Completed && RankOf(rank, id) < top)
  }

  ghost predicate NoHopeless(s: Db, id: JobId)
  {
    forall path :: Hopeless(s, path) ==> path[0] != id
  }

  lemma StillHopeful(s: Db, s': Db, rank: map<JobId, nat>, top: nat, id: JobId)
    requires Inv(s') && Advanced(s, s', rank, top) && NoHopeless(s, id)
    ensures NoHopeless(s', id)
  {
    forall path | Hopeless(s', path)
      ensures path[0] != id
    {
      assert RowOk(s'.jobs[path[|path| - 1]]);
      assert Hopeless(s, path);
    }
  }

  lemma ParentHopeful(s: Db, id: JobId, parent: JobId)
    requires KeysOk(s) && NoHopeless(s, id) && (id, parent) in s.deps
    ensures parent in s.jobs && !Barrier(s, parent) && NoHopeless(s, parent)
  {
    assert (id, parent).1 in s.jobs;
    assert StepIn(s.deps, [id, parent], 0);
    assert Barrier(s, parent) ==> Hopeless(s, [id, parent]);
    forall path | Hopeless(s, path)
      ensures path[0] != parent
    {
      var longer := [id] + path;
      forall i | 0 <= i < |longer| - 1
        ensures path[0] == parent ==> StepIn(s.deps, longer, i)
      {
        assert i > 0 ==> StepIn(s.deps, path, i - 1);
      }
      assert path[0] == parent ==> Hopeless(s, longer);
    }
  }

  /** The incomplete dependencies of a job. */
  ghost function Missing(s: Db, id: JobId): set<JobId>
  {
    set e | e in s.deps && e.0 == id && e.1 in s.jobs && s.jobs[e.1].status != Completed :: e.1
  }

  /** A job that is no barrier, with none upstream, can be completed. */
  lemma {:induction false} Completes(s: Db, rank: map<JobId, nat>, id: JobId) returns (steps: seq<Step>, s': Db)
    requires Inv(s) && Ranks(s.deps, rank) && id in s.jobs && !Barrier(s, id) && NoHopeless(s, id)
    ensures Unaided(s, steps, s') && Advanced(s, s', rank, RankOf(rank, id) + 1) && s'.jobs[id].status == Completed
    decreases RankOf(rank, id), 1, 0
  {
    hide Inv, Unaided, NoHopeless, Ranks;
    if s.jobs[id].status == Completed {
      steps, s' := [], s;
      Stay(s);
    } else {
      var upstream, s1 := DependenciesComplete(s, rank, id, Missing(s, id));
      UnaidedKeepsInv(s, upstream, s1);
      var done;
      done, s' := Finish(s1, id);
      steps := upstream + done;
      Further(s, upstream, s1, done, s');
    }
  }

  lemma AdvancedFurther(s: Db, s1: Db, s2: Db, rank: map<JobId, nat>, low: nat, top: nat)
    requires low <= top && Advanced(s, s1, rank, low) && Advanced(s1, s2, rank, top)
    ensures Advanced(s, s2, rank, top)
  {
  }

  lemma OneLessMissing(s: Db, s1: Db, rank: map<JobId, nat>, top: nat, id: JobId, todo: set<JobId>, d: JobId)
    requires Advanced(s, s1, rank, top) && Missing(s, id) <= todo
    requires d in s1.jobs && s1.jobs[d].status == Completed
    ensures Missing(s1, id) <= todo - {d}
  {
    forall x | x in Missing(s1, id)
      ensures x in Missing(s, id) && x != d
    {
    }
  }

  lemma {:induction false} DependenciesComplete(s: Db, rank: map<JobId, nat>, id: JobId, todo: set<JobId>)
    returns (steps: seq<Step>, s': Db)
    requires Inv(s) && Ranks(s.deps, rank) && id in s.jobs && NoHopeless(s, id)
    requires Missing(s, id) <= todo && forall d :: d in todo ==> (id, d) in s.deps
    ensures Unaided(s, steps, s') && Advanced(s, s', rank, RankOf(rank, id)) && DepsCompleted(s'.jobs, s'.deps, id)
    decreases RankOf(rank, id), 0, |todo|
  {
    assert KeysOk(s) && forall d :: d in todo ==> RankOf(rank, d) < RankOf(rank, id);
    hide Inv, Unaided, NoHopeless, RankOf, Missing, Barrier, DepsCompleted;
    if todo == {} {
      steps, s' := [], s;
      Stay(s);
      NoneMissing(s, id);
      assert Advanced(s, s, rank, RankOf(rank, id));
    } else {
      var d :| d in todo;
      ParentHopeful(s, id, d);
      var first, s1 := Completes(s, rank, d);
      UnaidedKeepsInv(s, first, s1);
      StillHopeful(s, s1, rank, RankOf(rank, d) + 1, id);
      OneLessMissing(s, s1, rank, RankOf(rank, d) + 1, id, todo, d);
      var rest;
      rest, s' := DependenciesComplete(s1, rank, id, todo - {d});
      steps := first + rest;
      Further(s, first, s1, rest, s');
      AdvancedFurther(s, s1, s', rank, RankOf(rank, d) + 1, RankOf(rank, id));
    }
  }

  lemma NoneMissing(s: Db, id: JobId)
    requires Missing(s, id) == {}
    ensures DepsCompleted(s.jobs, s.deps, id)
  {
    forall e | e in s.deps && e.0 == id && e.1 in s.jobs
      ensures s.jobs[e.1].status == Completed
    {
      assert e.1 !in Missing(s, id);
    }
  }

  // ---------- Waiting for ever, exactly ----------

  ghost predicate ClaimedBy(s: Db, steps: seq<Step>, s': Db, id: JobId)
  {
    Unaided(s, steps, s') && id in s'.jobs && s'.jobs[id].status == Claimed
  }

  /** Without a user a waiting job is claimed in some continuation if and only if no path of dependencies leads down
      from it to a dead, cancelled, failed or cron job. */
  lemma ClaimedIff(s: Db, id: JobId)
    requires Inv(s) && id in s.jobs && s.jobs[id].status in {Blocked, Queued, Scheduled}
    ensures (exists steps, s' :: ClaimedBy(s, steps, s', id)) <==> NoHopeless(s, id)
  {
    if NoHopeless(s, id) {
      var rank :| Ranks(s.deps, rank);
      hide Inv, Unaided, NoHopeless;
      var upstream, s1 := DependenciesComplete(s, rank, id, Missing(s, id));
      UnaidedKeepsInv(s, upstream, s1);
      var claim, s2, _ := MakeClaimed(s1, id);
      Further(s, upstream, s1, claim, s2);
      assert ClaimedBy(s, upstream + claim, s2, id);
    }
    if steps, s' :| ClaimedBy(s, steps, s', id) {
      forall path | Hopeless(s, path)
        ensures path[0] != id
      {
        HopelessForever(s, steps, path);
        AlwaysLast(s, steps, (t: Db) => NeverStarted(t, path));
      }
    }
  }
}
