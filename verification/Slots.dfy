/** A worker's execution slots (worker/internal/executor/executor.go) and the poll loop that fills them
    (worker/internal/poller/poller.go). The loop and the goroutines of the jobs run concurrently; each line that touches
    the semaphore is one step. */
module Slots {

  type Task = nat

  /** Where a poll loop is: between polls, waiting for the rows of a claim limited to `limit`, or with `left` claimed
      jobs to submit. */
  datatype Phase = Idle | Claiming(limit: nat) | Submitting(left: nat)

  /** `held` is the semaphore: the jobs whose goroutines have not ended. */
  datatype State = State(capacity: nat, held: set<Task>, pollers: seq<Phase>)

  datatype Step =
    | Read(p: nat)
    | Return(p: nat, rows: nat)
    | Submit(p: nat, task: Task)
    | End(task: Task)

  function Start(capacity: nat, pollers: nat): State
  {
    State(capacity, {}, seq(pollers, _ => Idle))
  }

  /** FreeSlots. */
  function FreeSlots(s: State): int
  {
    s.capacity - |s.held|
  }

  /** There is room in the channel. Without it Submit blocks, and the loop with it. */
  predicate HasRoom(s: State)
  {
    |s.held| < s.capacity
  }

  predicate Enabled(s: State, step: Step)
  {
    match step
    case Read(p) => p < |s.pollers| && s.pollers[p].Idle?
    case Return(p, rows) => p < |s.pollers| && s.pollers[p].Claiming? && rows <= s.pollers[p].limit
    case Submit(p, task) =>
      p < |s.pollers| && s.pollers[p].Submitting? && s.pollers[p].left > 0 && HasRoom(s) && task !in s.held
    case End(task) => task in s.held
  }

  /** A claim that fails, and rows that cannot be scanned, return fewer rows. */
  function Next(s: State, step: Step): State
    requires Enabled(s, step)
  {
    match step
    case Read(p) =>
      if FreeSlots(s) <= 0 then s else s.(pollers := s.pollers[p := Claiming(FreeSlots(s))])
    case Return(p, rows) => s.(pollers := s.pollers[p := if rows == 0 then Idle else Submitting(rows)])
    case Submit(p, task) =>
      var left := s.pollers[p].left - 1;
      s.(held := s.held + {task}, pollers := s.pollers[p := if left == 0 then Idle else Submitting(left)])
    case End(task) => s.(held := s.held - {task})
  }

  ghost predicate IsRun(s: State, steps: seq<Step>)
    decreases |steps|
  {
    steps == [] || (Enabled(s, steps[0]) && IsRun(Next(s, steps[0]), steps[1..]))
  }

  ghost function After(s: State, steps: seq<Step>): State
    requires IsRun(s, steps)
    decreases |steps|
  {
    if steps == [] then s else After(Next(s, steps[0]), steps[1..])
  }

  /** Jobs a loop has claimed, or may be about to claim, and not submitted. */
  function Pending(phase: Phase): nat
  {
    match phase
    case Idle => 0
    case Claiming(limit) => limit
    case Submitting(left) => left
  }

  predicate Fits(s: State)
  {
    |s.pollers| == 1 && |s.held| + Pending(s.pollers[0]) <= s.capacity
  }

  lemma FitsKept(s: State, step: Step)
    requires Fits(s) && Enabled(s, step)
    ensures Fits(Next(s, step)) && Next(s, step).capacity == s.capacity
  {
  }

  lemma {:induction false} FitsAfter(s: State, steps: seq<Step>)
    requires Fits(s) && IsRun(s, steps)
    ensures Fits(After(s, steps)) && After(s, steps).capacity == s.capacity
    decreases |steps|
  {
    if steps != [] {
      FitsKept(s, steps[0]);
      FitsAfter(Next(s, steps[0]), steps[1..]);
    }
  }

  /** With the one poll loop a worker has, the jobs it has claimed and those it runs never exceed its capacity, and
      Submit never blocks: a claimed job has its goroutine as soon as the loop comes to it. */
  lemma SubmitNeverBlocks(capacity: nat, steps: seq<Step>)
    requires IsRun(Start(capacity, 1), steps)
    ensures var s := After(Start(capacity, 1), steps);
      && |s.pollers| == 1 && |s.held| + Pending(s.pollers[0]) <= capacity
      && (s.pollers[0].Submitting? ==> s.pollers[0].left > 0 ==> HasRoom(s))
  {
    FitsAfter(Start(capacity, 1), steps);
  }

  /** Nor does it leave a slot idle: whenever the loop polls, it asks for as many rows as there are free slots, and for
      each one the claim returns a goroutine is started. */
  lemma PollAsksForEverySlot(s: State, p: nat)
    requires Enabled(s, Read(p))
    ensures |s.held| < s.capacity ==>
      Next(s, Read(p)) == s.(pollers := s.pollers[p := Claiming(s.capacity - |s.held|)])
    ensures |s.held| >= s.capacity ==> Next(s, Read(p)) == s
  {
  }

  /** Submitting moves one claimed job from the loop to the slots, and ending frees its slot. */
  lemma SubmitTakesOneSlot(s: State, p: nat, task: Task)
    requires Enabled(s, Submit(p, task))
    ensures var s' := Next(s, Submit(p, task));
      && s'.held == s.held + {task} && |s'.held| == |s.held| + 1
      && |s'.pollers| == |s.pollers| && Pending(s'.pollers[p]) == Pending(s.pollers[p]) - 1
      && Enabled(s', End(task)) && Next(s', End(task)).held == s.held
  {
  }

  /** A second loop would break this: both read the same free slot and both claim a job for it. */
  lemma TwoLoopsBlock() returns (steps: seq<Step>)
    ensures IsRun(Start(1, 2), steps)
    ensures var s := After(Start(1, 2), steps);
      s.pollers == [Idle, Submitting(1)] && |s.held| == 1 && !HasRoom(s)
  {
    steps := [Read(0), Read(1), Return(0, 1), Return(1, 1), Submit(0, 0)];
    var s0 := Start(1, 2);
    var s1 := Next(s0, Read(0));
    var s2 := Next(s1, Read(1));
    var s3 := Next(s2, Return(0, 1));
    var s4 := Next(s3, Return(1, 1));
    var s5 := Next(s4, Submit(0, 0));
    assert s5.pollers == [Idle, Submitting(1)] && s5.held == {0};
    assert IsRun(s4, steps[4..]) && After(s4, steps[4..]) == s5;
    assert IsRun(s3, steps[3..]) && After(s3, steps[3..]) == s5;
    assert IsRun(s2, steps[2..]) && After(s2, steps[2..]) == s5;
    assert IsRun(s1, steps[1..]) && After(s1, steps[1..]) == s5;
  }
}
