/** A run that strands a job: it was created for later, its dependency died, and promotion queued it all the same. */
module StrandedRun {
  import opened Wrappers
  import opened Acyclicity
  import opened JobStore
  import opened Runs
  import opened Waiting

  const ROW: Job := Job("queue", "type", 5, 0, 1, 300, None, None, Queued, 0, 0, None, None, None, 0, 0)
  const LATER: Job := ROW.(status := Scheduled, runAt := SECOND)
  const BEHIND: Job := ROW.(status := Blocked)
  const DEAD: Job := SetDead(SetRunning(SetClaimed(ROW, "w", 1, 0), "w", 1, 0))
  const EDGES: set<(JobId, JobId)> := {("b", "a"), ("c", "b")}

  lemma TwoCreated() returns (steps: seq<Step>, s: Db)
    ensures Leads(EMPTY, steps, s)
    ensures s == EMPTY.(jobs := map["a" := ROW, "b" := LATER], deps := {("b", "a")}, issued := {"a", "b"})
  {
    hide Leads, Enabled, Orderly, Next;
    InsertOne(EMPTY, "a", ROW, {});
    One(EMPTY, Insert(map["a" := ROW], {}));
    var s1 := EMPTY.(jobs := map["a" := ROW], issued := {"a"});
    assert EMPTY.jobs + map["a" := ROW] == s1.jobs && EMPTY.issued + {"a"} == s1.issued && EMPTY.deps + {} == s1.deps;
    InsertOne(s1, "b", LATER, {("b", "a")});
    Then(EMPTY, [Insert(map["a" := ROW], {})], s1, Insert(map["b" := LATER], {("b", "a")}));
    steps := [Insert(map["a" := ROW], {})] + [Insert(map["b" := LATER], {("b", "a")})];
    s := s1.(jobs := map["a" := ROW, "b" := LATER], deps := {("b", "a")}, issued := {"a", "b"});
    assert s1.jobs + map["b" := LATER] == s.jobs && s1.deps + {("b", "a")} == s.deps && s1.issued + {"b"} == s.issued;
  }

  lemma Created() returns (steps: seq<Step>, s: Db)
    ensures Leads(EMPTY, steps, s)
    ensures s == EMPTY.(jobs := map["a" := ROW, "b" := LATER, "c" := BEHIND], deps := EDGES, issued := {"a", "b", "c"})
  {
    hide Leads, Enabled, Orderly, Next;
    var s2;
    steps, s2 := TwoCreated();
    InsertOne(s2, "c", BEHIND, {("c", "b")});
    Then(EMPTY, steps, s2, Insert(map["c" := BEHIND], {("c", "b")}));
    steps := steps + [Insert(map["c" := BEHIND], {("c", "b")})];
    s := s2.(jobs := map["a" := ROW, "b" := LATER, "c" := BEHIND], deps := EDGES, issued := {"a", "b", "c"});
    assert s2.jobs + map["c" := BEHIND] == s.jobs && s2.deps + {("c", "b")} == s.deps && s2.issued + {"c"} == s.issued;
  }

  lemma PromotedRows(jobs: map<JobId, Job>)
    requires jobs == map["a" := DEAD, "b" := LATER, "c" := BEHIND]
    ensures (map id | id in jobs :: if id in {"b"} then jobs[id].(status := Queued) else jobs[id])
         == map["a" := DEAD, "b" := LATER.(status := Queued), "c" := BEHIND]
  {
  }

  lemma PromoteOne(s: Db)
    requires s.jobs == map["a" := DEAD, "b" := LATER, "c" := BEHIND] && s.now == SECOND
    ensures Enabled(s, Promote({"b"})) && Orderly(s, Promote({"b"}))
    ensures Next(s, Promote({"b"})) ==
      s.(jobs := map["a" := DEAD, "b" := LATER.(status := Queued), "c" := BEHIND])
  {
    assert Due(s, "b");
    PromotedRows(s.jobs);
  }

  /** Job a dies, b behind it is promoted when its time comes, and c waits behind b. Nothing is left to unblock or
      cancel, b is stranded, and c waits for ever unless a user steps in. */
  lemma StrandsAJob() returns (steps: seq<Step>, s: Db)
    ensures Leads(EMPTY, steps, s) && Quiet(s)
    ensures Upstream(s, ["c", "b"]) && Stranded(s, "b") && Hopeless(s, ["c", "b", "a"])
  {
    hide Leads, Enabled, Orderly, Next, IsRun, Throughout, After;
    var s0;
    steps, s0 := Created();
    assert Claimable(s0, "a");
    steps := Take(EMPTY, steps, s0, "w", "a", 1);
    var s1 := Taken(s0, "w", "a", 1);
    var s2;
    steps, s2 := Bury(EMPTY, steps, s1, 1, 0);
    assert s2.jobs == map["a" := DEAD, "b" := LATER, "c" := BEHIND];
    TickOne(s2);
    Then(EMPTY, steps, s2, Tick(SECOND));
    var s3 := s2.(now := SECOND);
    PromoteOne(s3);
    Then(EMPTY, steps + [Tick(SECOND)], s3, Promote({"b"}));
    steps, s := steps + [Tick(SECOND)] + [Promote({"b"})], Next(s3, Promote({"b"}));
    IsStranded(s);
  }

  lemma TickOne(s: Db)
    ensures Enabled(s, Tick(SECOND)) && Orderly(s, Tick(SECOND))
    ensures Next(s, Tick(SECOND)) == s.(now := s.now + SECOND)
  {
  }

  lemma IsStranded(s: Db)
    requires s.jobs == map["a" := DEAD, "b" := LATER.(status := Queued), "c" := BEHIND] && s.deps == EDGES
    ensures Quiet(s) && Upstream(s, ["c", "b"]) && Stranded(s, "b") && Hopeless(s, ["c", "b", "a"])
  {
    assert ("b", "a") in s.deps && ("c", "b") in s.deps;
    forall i | 0 <= i < 1
      ensures StepIn(s.deps, ["c", "b"], i) && WaitsAt(s, ["c", "b"], i)
    {
    }
    forall i | 0 <= i < 2
      ensures StepIn(s.deps, ["c", "b", "a"], i)
    {
    }
  }
}
