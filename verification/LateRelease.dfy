/** A run in which every start is timely and one release is late: two attempts end up able to write one job. */
module LateRelease {
  import opened Wrappers
  import opened JobStore
  import opened Runs

  const ROW: Job := Job("queue", "type", 5, 0, 3, 300, None, None, Queued, 0, 0, None, None, None, 0, 0)

  /** Worker a claims the job and its claim goes stale. */
  lemma GoesStale() returns (steps: seq<Step>, s: Db)
    ensures Leads(EMPTY, steps, s)
    ensures s == EMPTY.(now := 61 * SECOND, jobs := map["j" := SetClaimed(ROW, "a", 1, 0)], issued := {"j"},
                        live := map[1 := Attempt("a", "j", 0, 0, 3, 300, None, Begun(300 * SECOND))])
  {
    hide Leads, IsRun, Throughout, After;
    InsertOne(EMPTY, "j", ROW, {});
    One(EMPTY, Insert(map["j" := ROW], {}));
    var s1 := Next(EMPTY, Insert(map["j" := ROW], {}));
    steps := Take(EMPTY, [Insert(map["j" := ROW], {})], s1, "a", "j", 1);
    var s2 := Taken(s1, "a", "j", 1);
    Then(EMPTY, steps, s2, Tick(61 * SECOND));
    steps := steps + [Tick(61 * SECOND)];
    s := s2.(now := 61 * SECOND);
  }

  lemma ReclaimOne(s: Db, row: Job)
    requires s.jobs == map["j" := row] && Stuck(s, "j")
    ensures Enabled(s, Reclaim({"j"})) && Orderly(s, Reclaim({"j"}))
    ensures Next(s, Reclaim({"j"})) == s.(jobs := map["j" := SetReclaimed(row, s.now)])
  {
  }

  /** The sweep reclaims it and worker b claims the job. */
  lemma Before() returns (steps: seq<Step>, s: Db)
    ensures Leads(EMPTY, steps, s)
    ensures s.now == 61 * SECOND && s.deps == {}
    ensures s.jobs == map["j" := SetClaimed(ROW.(runAt := s.now), "b", 2, s.now)]
    ensures s.live.Keys == {1, 2} && s.live[1] == Attempt("a", "j", 0, 0, 3, 300, None, Begun(300 * SECOND))
    ensures s.live[2] == Attempt("b", "j", s.now, 0, 3, 300, None, Begun(361 * SECOND))
  {
    hide Leads, IsRun, Throughout, After, Next, Enabled, Orderly;
    var s3;
    steps, s3 := GoesStale();
    ReclaimOne(s3, SetClaimed(ROW, "a", 1, 0));
    Then(EMPTY, steps, s3, Reclaim({"j"}));
    steps := steps + [Reclaim({"j"})];
    var s4 := Next(s3, Reclaim({"j"}));
    steps := Take(EMPTY, steps, s4, "b", "j", 2);
    s := Taken(s4, "b", "j", 2);
  }

  /** Worker a's release then arrives late, undoes b's claim, and c claims the job five seconds later: b and c can both
      write it. */
  lemma LateReleaseLetsTwoWrite() returns (front: seq<Step>, mid: Db, back: seq<Step>, s: Db)
    ensures Leads(EMPTY, front, mid)
    ensures Enabled(mid, Release(1)) && Timely(mid, Release(1)) && !ReleaseSpares(mid, Release(1))
    ensures Leads(Next(mid, Release(1)), back, s)
    ensures CanWrite(s, 2) && CanWrite(s, 3) && s.live[2].job == s.live[3].job == "j" && "j" in s.jobs
  {
    hide Leads, IsRun, Throughout, After;
    front, mid := Before();
    assert WritableBy(mid, 2, "j");
    var s1 := Next(mid, Release(1));
    var row := SetReleased(mid.jobs["j"], mid.now);
    assert s1.jobs == map["j" := row];
    One(s1, Tick(5 * SECOND));
    var s2 := s1.(now := 66 * SECOND);
    back := Take(s1, [Tick(5 * SECOND)], s2, "c", "j", 3);
    s := Taken(s2, "c", "j", 3);
  }
}
