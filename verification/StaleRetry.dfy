/** Runs in which a dead-letter retry reads its entry, and requeues the job only after others have dealt with it. */
module StaleRetry {
  import opened Wrappers
  import opened JobStore
  import opened Runs

  const ROW: Job := Job("queue", "type", 5, 0, 1, 300, None, None, Queued, 0, 0, None, None, None, 0, 0)
  const NEXT: Job := ROW.(status := Blocked)

  /** The job with one failed attempt behind it. */
  const DEAD: Job := SetDead(SetRunning(SetClaimed(ROW, "a", 1, 0), "a", 1, 0))

  /** The job fails for good: a request can now read dead-letter entry 0. */
  lemma Dies(front: seq<Step>, s0: Db) returns (steps: seq<Step>, s: Db)
    requires Leads(EMPTY, front, s0)
    requires s0.now == 0 && s0.live == map[] && s0.dlq == map[]
    requires "j" in s0.jobs && s0.jobs["j"] == ROW && forall e :: e in s0.deps ==> e.0 != "j"
    ensures Leads(EMPTY, steps, s)
    ensures s == s0.(jobs := s0.jobs["j" := DEAD], dlq := map[0 := DlqRow("j", "queue", 1, false)])
    ensures Unresolved(s, 0) && s.dlq[0].job == "j"
  {
    hide Leads, IsRun, Throughout, After;
    var taken := Take(EMPTY, front, s0, "a", "j", 1);
    steps, s := Bury(EMPTY, taken, Taken(s0, "a", "j", 1), 1, 0);
    hide Taken;
    assert s.jobs == s0.jobs["j" := DEAD];
    assert s.live == s0.live;
  }

  lemma OneJob() returns (steps: seq<Step>, s: Db)
    ensures Leads(EMPTY, steps, s) && s == EMPTY.(jobs := map["j" := ROW], issued := {"j"})
  {
    hide Leads;
    InsertOne(EMPTY, "j", ROW, {});
    One(EMPTY, Insert(map["j" := ROW], {}));
    steps, s := [Insert(map["j" := ROW], {})], Next(EMPTY, Insert(map["j" := ROW], {}));
  }

  lemma RetryOne(s: Db)
    requires s.jobs == map["j" := DEAD] && s.deps == {} && s.dlq == map[0 := DlqRow("j", "queue", 1, false)]
    ensures Enabled(s, RetryJob("j")) && Orderly(s, RetryJob("j"))
    ensures Next(s, RetryJob("j")) == s.(jobs := map["j" := SetReset(DEAD, Queued, s.now, true)], dlq := map[])
  {
  }

  lemma RequeueOne(s: Db, row: Job)
    requires s.jobs == map["j" := row] && s.dlq == map[]
    ensures Enabled(s, RetryDead(0, "j"))
    ensures Next(s, RetryDead(0, "j")) == s.(jobs := map["j" := SetReset(row, Queued, s.now, true)])
  {
  }

  /** A request reads the entry. A user's retry of the job then deletes the entry and requeues the job, and worker b
      claims it. The request's transaction takes the job away from b, and c claims it too: both can write it. */
  lemma StaleRetryLetsTwoWrite()
    returns (front: seq<Step>, read: Db, between: seq<Step>, mid: Db, back: seq<Step>, s: Db)
    ensures Leads(EMPTY, front, read) && Unresolved(read, 0) && read.dlq[0].job == "j"
    ensures Leads(read, between, mid) && mid.dlq == map[]
    ensures !NoWriter(mid, "j")
    ensures Leads(Next(mid, RetryDead(0, "j")), back, s)
    ensures CanWrite(s, 2) && CanWrite(s, 3) && s.live[2].job == s.live[3].job == "j" && "j" in s.jobs
  {
    hide Leads, IsRun, Throughout, After, Enabled, Orderly, Next;
    var steps, s0 := OneJob();
    front, read := Dies(steps, s0);
    RetryOne(read);
    One(read, RetryJob("j"));
    var s1 := Next(read, RetryJob("j"));
    between := Take(read, [RetryJob("j")], s1, "b", "j", 2);
    mid := Taken(s1, "b", "j", 2);
    assert WritableBy(mid, 2, "j");
    RequeueOne(mid, mid.jobs["j"]);
    var s2 := Next(mid, RetryDead(0, "j"));
    NoSteps(s2);
    back := Take(s2, [], s2, "c", "j", 3);
    s := Taken(s2, "c", "j", 3);
  }

  // ---------- A completed job pulled back ----------

  lemma TwoJobs() returns (steps: seq<Step>, s: Db)
    ensures Leads(EMPTY, steps, s)
    ensures s == EMPTY.(jobs := map["j" := ROW, "k" := NEXT], deps := {("k", "j")}, issued := {"j", "k"})
  {
    hide Leads, Enabled, Orderly, Next;
    var s0;
    steps, s0 := OneJob();
    InsertOne(s0, "k", NEXT, {("k", "j")});
    Then(EMPTY, steps, s0, Insert(map["k" := NEXT], {("k", "j")}));
    steps, s := steps + [Insert(map["k" := NEXT], {("k", "j")})], Next(s0, Insert(map["k" := NEXT], {("k", "j")}));
    assert s.jobs == map["j" := ROW, "k" := NEXT];
    assert s.deps == {("k", "j")};
    assert s.issued == {"j", "k"};
  }

  lemma FreshRetry(s: Db)
    requires s.jobs == map["j" := DEAD, "k" := NEXT] && s.deps == {("k", "j")} && s.live == map[]
    requires s.dlq == map[0 := DlqRow("j", "queue", 1, false)]
    ensures Enabled(s, RetryDead(0, "j")) && Orderly(s, RetryDead(0, "j"))
    ensures Next(s, RetryDead(0, "j")) ==
      s.(jobs := map["j" := SetReset(DEAD, Queued, s.now, true), "k" := NEXT],
         dlq := map[0 := DlqRow("j", "queue", 1, true)])
  {
  }

  lemma UnblockOne(s: Db, row: Job)
    requires s.jobs == map["j" := row, "k" := NEXT] && s.deps == {("k", "j")} && row.status == Completed
    ensures Enabled(s, Unblock({"k"})) && Orderly(s, Unblock({"k"}))
    ensures Next(s, Unblock({"k"})) == s.(jobs := map["j" := row, "k" := NEXT.(status := Queued, runAt := s.now)])
  {
  }

  /** A retry in time, and the job completes. */
  lemma RetriedAndCompleted(read: Db) returns (steps: seq<Step>, s: Db)
    requires read.jobs == map["j" := DEAD, "k" := NEXT] && read.deps == {("k", "j")} && read.live == map[]
    requires read.dlq == map[0 := DlqRow("j", "queue", 1, false)] && read.now == 0
    ensures Leads(read, steps, s) && s.deps == {("k", "j")} && s.live == map[]
    ensures s.jobs.Keys == {"j", "k"} && s.jobs["k"] == NEXT && s.jobs["j"].status == Completed
    ensures s.now == 0
  {
    hide Leads, IsRun, Throughout, After, Orderly, Enabled, Next;
    FreshRetry(read);
    One(read, RetryDead(0, "j"));
    var s1 := Next(read, RetryDead(0, "j"));
    steps := Take(read, [RetryDead(0, "j")], s1, "b", "j", 2);
    var s2 := Taken(s1, "b", "j", 2);
    steps, s := Complete(read, steps, s2, 2);
    assert s.live.Keys == {};
  }

  lemma SecondRetry(mid: Db)
    requires "j" in mid.jobs && "k" in mid.jobs && mid.deps == {("k", "j")}
    ensures var s := Next(mid, RetryDead(0, "j"));
      s.jobs == mid.jobs["j" := SetReset(mid.jobs["j"], Queued, mid.now, true)] && s.deps == mid.deps
  {
  }

  /** Two requests read the entry. The first requeues the job, which then completes and releases its dependent, and a
      worker claims that. The second request's transaction puts the completed job back in the queue. */
  lemma StaleRetryUndoesCompletion() returns (front: seq<Step>, read: Db, between: seq<Step>, mid: Db)
    ensures Leads(EMPTY, front, read) && Unresolved(read, 0) && read.dlq[0].job == "j"
    ensures Leads(read, between, mid)
    ensures "j" in mid.jobs && mid.jobs["j"].status == Completed && NoWriter(mid, "j") && !NoSettledDependent(mid, "j")
    ensures var s := Next(mid, RetryDead(0, "j"));
      && "j" in s.jobs && "k" in s.jobs && ("k", "j") in s.deps
      && s.jobs["j"].status == Queued && s.jobs["k"].status == Claimed
  {
    hide Leads, IsRun, Throughout, After, Orderly, Enabled, Next;
    var steps, s0 := TwoJobs();
    front, read := Dies(steps, s0);
    var s3;
    steps, s3 := RetriedAndCompleted(read);
    UnblockOne(s3, s3.jobs["j"]);
    Then(read, steps, s3, Unblock({"k"}));
    var s4 := Next(s3, Unblock({"k"}));
    between := Take(read, steps + [Unblock({"k"})], s4, "c", "k", 3);
    mid := Taken(s4, "c", "k", 3);
    assert ("k", "j") in mid.deps;
    SecondRetry(mid);
  }
}
