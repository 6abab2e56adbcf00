/** A run in which one start is late: two attempts execute one job at the same time. */
module LateStart {
  import opened Wrappers
  import opened JobStore
  import opened Runs
  import LateRelease

  /** Worker a's claim has been given up and the job is worker b's. The start of a's attempt arrives after all: its
      deadline is still ahead, so the update goes through. b starts in time, and now both execute and either may finish.
      */
  lemma LateStartLetsTwoExecute() returns (front: seq<Step>, mid: Db, s: Db)
    ensures Leads(EMPTY, front, mid)
    ensures Enabled(mid, Start(1)) && !Timely(mid, Start(1)) && !StartSpares(mid, Start(1))
    ensures Leads(Next(mid, Start(1)), [Start(2)], s)
    ensures Enabled(s, Succeed(1, None)) && Enabled(s, Succeed(2, None))
    ensures s.live[1].job == s.live[2].job == "j" && "j" in s.jobs && s.jobs["j"].attempts == 2
  {
    hide Leads, IsRun, Throughout, After;
    front, mid := LateRelease.Before();
    assert WritableBy(mid, 2, "j");
    var s1 := Next(mid, Start(1));
    s := Next(s1, Start(2));
    One(s1, Start(2));
  }
}
