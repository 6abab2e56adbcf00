/** The browser client's token state and its single-flight refresh (web/lib/api.ts).
    Code between two awaits runs without interruption, so each such segment is one step. */
module TokenRefresh {
  import opened Wrappers

  /** Tokens are issued in pairs, numbered in the order the server issues them; a number stands for both. */
  type Pair = nat
  type CallId = nat
  type RequestId = nat

  /** A refresh call: sent, answered by the server, or resolved to a new access token or null. */
  datatype Stage = Sent | Accepted(pair: Pair) | Refused | Settled(result: Option<Pair>)

  datatype Call = Call(presented: Pair, stage: Stage)

  /** A request: first sending, waiting for a refresh, replayed, or finished. `awaited` is history: what the refresh
      it waited for returned. */
  datatype Phase =
    | First(carried: Option<Pair>, retry: bool)
    | Awaiting(call: CallId)
    | Replay(carried: Option<Pair>, awaited: Pair)
    | Finished

  /** How fetch ends: status 401, any other status, or a rejected promise. */
  datatype Response = Denied | Answered | Rejected

  /** The page's three variables, its calls and requests, and the server. `exchanged` holds the refresh tokens the
      server has revoked; `wire` those of abandoned calls that may still reach it. The last two are history: the
      exchanged tokens whose new pair never reached the page, and how often each request was sent. */
  datatype State = State(
    access: Option<Pair>, refresh: Option<Pair>, refreshing: Option<CallId>,
    calls: map<CallId, Call>, requests: map<RequestId, Phase>,
    issued: nat, exchanged: set<Pair>, wire: set<Pair>,
    lost: set<Pair>, sends: map<RequestId, nat>)

  datatype Step =
    | SignIn
    | SignOut
    | Begin(r: RequestId, retry: bool)
    | Respond(r: RequestId, response: Response, c: CallId)
    | Exchange(c: CallId)
    | Refuse(c: CallId, revoked: bool)
    | Arrive(c: CallId)
    | Fail(c: CallId)
    | LateExchange(t: Pair)
    | Resume(r: RequestId)

  const START: State := State(None, None, None, map[], map[], 0, {}, {}, {}, map[])

  /** No refresh is under way and nobody waits for one. */
  predicate Quiet(s: State)
  {
    s.refreshing.None? && forall r :: r in s.requests ==> !s.requests[r].Awaiting?
  }

  /** The guard of the retry branch in req. */
  predicate MustRefresh(s: State, r: RequestId, response: Response)
    requires r in s.requests
  {
    s.requests[r].First? && response.Denied? && s.requests[r].retry && s.refresh.Some?
  }

  predicate Enabled(s: State, step: Step)
  {
    match step
    case SignIn => Quiet(s)
    case SignOut => Quiet(s)
    case Begin(r, _) => r !in s.requests
    case Respond(r, response, c) =>
      && r in s.requests && (s.requests[r].First? || s.requests[r].Replay?)
      && (MustRefresh(s, r, response) && s.refreshing.None? ==> c !in s.calls)
    case Exchange(c) => c in s.calls && s.calls[c].stage.Sent? && s.calls[c].presented !in s.exchanged
    case Refuse(c, revoked) =>
      c in s.calls && s.calls[c].stage.Sent? && (revoked ==> s.calls[c].presented !in s.exchanged)
    case Arrive(c) => c in s.calls && (s.calls[c].stage.Accepted? || s.calls[c].stage.Refused?)
    case Fail(c) => c in s.calls && !s.calls[c].stage.Settled?
    case LateExchange(t) => t in s.wire && t !in s.exchanged
    case Resume(r) =>
      && r in s.requests && s.requests[r].Awaiting?
      && s.requests[r].call in s.calls && s.calls[s.requests[r].call].stage.Settled?
  }

  /** refreshAccessToken, called while a refresh token is set: join the call under way, or send one. */
  function Refreshing(s: State, c: CallId): (State, CallId)
    requires s.refresh.Some?
  {
    if s.refreshing.Some? then (s, s.refreshing.value)
    else (s.(refreshing := Some(c), calls := s.calls[c := Call(s.refresh.value, Sent)]), c)
  }

  function Resolve(s: State, c: CallId, result: Option<Pair>): State
    requires c in s.calls
  {
    s.(refreshing := None, calls := s.calls[c := s.calls[c].(stage := Settled(result))])
  }

  function Next(s: State, step: Step): State
    requires Enabled(s, step)
  {
    match step
    case SignIn => s.(access := Some(s.issued + 1), refresh := Some(s.issued + 1), issued := s.issued + 1)
    case SignOut => s.(access := None, refresh := None)
    case Begin(r, retry) => s.(requests := s.requests[r := First(s.access, retry)], sends := s.sends[r := 1])
    case Respond(r, response, c) =>
      if MustRefresh(s, r, response) then
        var (s', call) := Refreshing(s, c);
        s'.(requests := s'.requests[r := Awaiting(call)])
      else s.(requests := s.requests[r := Finished])
    case Exchange(c) =>
      var t := s.calls[c].presented;
      s.(exchanged := s.exchanged + {t}, issued := s.issued + 1,
         calls := s.calls[c := Call(t, Accepted(s.issued + 1))])
    case Refuse(c, revoked) =>
      var t := s.calls[c].presented;
      s.(exchanged := if revoked then s.exchanged + {t} else s.exchanged,
         lost := if revoked then s.lost + {t} else s.lost,
         calls := s.calls[c := Call(t, Refused)])
    case Arrive(c) =>
      if s.calls[c].stage.Accepted? then
        var p := s.calls[c].stage.pair;
        Resolve(s, c, Some(p)).(access := Some(p), refresh := Some(p))
      else Resolve(s, c, None)
    case Fail(c) =>
      var t := s.calls[c].presented;
      Resolve(s, c, None).(lost := if s.calls[c].stage.Accepted? then s.lost + {t} else s.lost,
                           wire := if s.calls[c].stage.Sent? then s.wire + {t} else s.wire)
    case LateExchange(t) => s.(exchanged := s.exchanged + {t}, lost := s.lost + {t}, issued := s.issued + 1)
    case Resume(r) =>
      var result := s.calls[s.requests[r].call].stage.result;
      if result.None? then s.(requests := s.requests[r := Finished])
      else s.(requests := s.requests[r := Replay(s.access, result.value)],
              sends := s.sends[r := if r in s.sends then s.sends[r] + 1 else 1])
  }

  ghost predicate IsRun(s: State, steps: seq<Step>)
    decreases |steps|
  {
    steps == [] || (Enabled(s, steps[0]) && IsRun(Next(s, steps[0]), steps[1..]))
  }

  ghost function After(s: State, steps: seq<Step>): State
    requires IsRun(s, steps)
    decreases |steps|
  {
    if steps == [] then s else After(Next(s, steps[0]), steps[1..])
  }

  // ---------- What every run keeps ----------

  /** Only the call the page holds is unsettled, and it presents the current refresh token. */
  ghost predicate FlightOk(s: State)
  {
    && (s.refreshing.Some? ==> s.refreshing.value in s.calls && !s.calls[s.refreshing.value].stage.Settled?)
    && (forall c :: c in s.calls && !s.calls[c].stage.Settled? ==>
          s.refreshing == Some(c) && s.refresh == Some(s.calls[c].presented))
  }

  ghost predicate NumbersOk(s: State)
  {
    && (s.access.Some? ==> s.access.value <= s.issued) && (s.refresh.Some? ==> s.refresh.value <= s.issued)
    && (forall t :: t in s.exchanged ==> t <= s.issued) && (forall t :: t in s.wire ==> t <= s.issued)
    && (forall c :: c in s.calls ==> s.calls[c].presented <= s.issued)
  }

  /** A pair on its way to the page is newer than anything the page has. */
  ghost predicate Newer(s: State, call: Call)
  {
    call.stage.Accepted? ==>
      var p := call.stage.pair;
      && p <= s.issued && p !in s.exchanged && p !in s.wire && call.presented in s.exchanged
      && call.presented < p && (s.access.Some? ==> s.access.value < p)
  }

  ghost predicate ArrivingOk(s: State)
  {
    forall c :: c in s.calls ==> Newer(s, s.calls[c])
  }

  /** The page's refresh token was exchanged only if its successor is on its way, or never will arrive. */
  ghost predicate LostOk(s: State)
  {
    && s.lost <= s.exchanged
    && (s.refresh.Some? && s.refresh.value in s.exchanged ==>
          || s.refresh.value in s.lost
          || (s.refreshing.Some? && s.refreshing.value in s.calls && s.calls[s.refreshing.value].stage.Accepted?))
  }

  /** The page has a token at least as new as what the call returned. */
  ghost predicate Delivered(access: Option<Pair>, call: Call)
  {
    call.stage.Settled? && call.stage.result.Some? ==> access.Some? && access.value >= call.stage.result.value
  }

  ghost predicate WaitersOk(s: State)
  {
    forall r :: r in s.requests && s.requests[r].Awaiting? ==>
      s.requests[r].call in s.calls && Delivered(s.access, s.calls[s.requests[r].call])
  }

  ghost predicate SentAsOften(phase: Phase, sends: nat)
  {
    && 1 <= sends <= 2
    && (phase.First? || phase.Awaiting? ==> sends == 1)
    && (phase.Replay? ==> phase.carried.Some? && phase.carried.value >= phase.awaited)
  }

  ghost predicate SendsOk(s: State)
  {
    forall r :: r in s.requests ==> r in s.sends && SentAsOften(s.requests[r], s.sends[r])
  }

  ghost predicate Inv(s: State)
  {
    FlightOk(s) && NumbersOk(s) && ArrivingOk(s) && LostOk(s) && WaitersOk(s) && SendsOk(s)
  }

  lemma FlightKept(s: State, step: Step)
    requires Enabled(s, step) && FlightOk(s)
    ensures FlightOk(Next(s, step))
  {
  }

  lemma CallNumbers(s: State, step: Step, c: CallId)
    requires Enabled(s, step) && NumbersOk(s) && c in Next(s, step).calls
    ensures Next(s, step).calls[c].presented <= Next(s, step).issued
  {
  }

  lemma NumbersKept(s: State, step: Step)
    requires Enabled(s, step) && FlightOk(s) && NumbersOk(s) && ArrivingOk(s)
    ensures NumbersOk(Next(s, step))
  {
    hide FlightOk;
    var s' := Next(s, step);
    forall c | c in s'.calls
      ensures s'.calls[c].presented <= s'.issued
    {
      CallNumbers(s, step, c);
    }
  }

  lemma ArrivingKept(s: State, step: Step)
    requires Enabled(s, step) && FlightOk(s) && NumbersOk(s) && ArrivingOk(s)
    ensures ArrivingOk(Next(s, step))
  {
    var s' := Next(s, step);
    forall c | c in s'.calls
      ensures Newer(s', s'.calls[c])
    {
      assert c in s.calls ==> Newer(s, s.calls[c]);
    }
  }

  lemma LostKept(s: State, step: Step)
    requires Enabled(s, step) && FlightOk(s) && NumbersOk(s) && ArrivingOk(s) && LostOk(s)
    ensures LostOk(Next(s, step))
  {
  }

  lemma WaitersKept(s: State, step: Step)
    requires Enabled(s, step) && FlightOk(s) && NumbersOk(s) && ArrivingOk(s) && WaitersOk(s)
    ensures WaitersOk(Next(s, step))
  {
  }

  /** A request's next phase, unless the step is not about it. */
  lemma RequestMoves(s: State, step: Step, r: RequestId)
    requires Enabled(s, step) && r in Next(s, step).requests
    ensures || (r in s.requests && Next(s, step).requests[r] == s.requests[r]
                && (r in s.sends ==> r in Next(s, step).sends && Next(s, step).sends[r] == s.sends[r]))
            || (step.Begin? && Next(s, step).requests[r].First?
                && r in Next(s, step).sends && Next(s, step).sends[r] == 1)
            || (r in s.requests && step.Respond? && r == step.r && !s.requests[r].Awaiting?
                && Next(s, step).sends == s.sends
                && (|| Next(s, step).requests[r].Finished?
                    || (s.requests[r].First? && Next(s, step).requests[r].Awaiting?)))
            || (step == Resume(r) && Next(s, step).requests[r].Finished? && Next(s, step).sends == s.sends)
            || (step == Resume(r) && s.calls[s.requests[r].call].stage.result.Some?
                && Next(s, step).requests[r] == Replay(s.access, s.calls[s.requests[r].call].stage.result.value)
                && (r in s.sends ==> r in Next(s, step).sends && Next(s, step).sends[r] == s.sends[r] + 1))
  {
  }

  lemma SendsKept(s: State, step: Step)
    requires Enabled(s, step) && WaitersOk(s) && SendsOk(s)
    ensures SendsOk(Next(s, step))
  {
    hide Next;
    forall r | r in Next(s, step).requests
      ensures r in Next(s, step).sends && SentAsOften(Next(s, step).requests[r], Next(s, step).sends[r])
    {
      RequestMoves(s, step, r);
    }
  }

  lemma InvKept(s: State, step: Step)
    requires Enabled(s, step) && Inv(s)
    ensures Inv(Next(s, step))
  {
    FlightKept(s, step);
    NumbersKept(s, step);
    ArrivingKept(s, step);
    LostKept(s, step);
    WaitersKept(s, step);
    SendsKept(s, step);
    hide Next, Enabled, FlightOk, NumbersOk, ArrivingOk, LostOk, WaitersOk, SendsOk;
  }

  lemma {:induction false} InvAfter(s: State, steps: seq<Step>)
    requires Inv(s) && IsRun(s, steps)
    ensures Inv(After(s, steps))
    decreases |steps|
  {
    if steps != [] {
      InvKept(s, steps[0]);
      hide Inv, Enabled, Next;
      InvAfter(Next(s, steps[0]), steps[1..]);
    }
  }

  /** At most one refresh call is under way, and every request that waits on an unsettled call waits on that one. */
  lemma SingleFlight(steps: seq<Step>)
    requires IsRun(START, steps)
    ensures var s := After(START, steps);
      && (forall a, b :: a in s.calls && b in s.calls && !s.calls[a].stage.Settled? && !s.calls[b].stage.Settled? ==>
            a == b)
      && (forall r :: r in s.requests && s.requests[r].Awaiting? ==>
            s.requests[r].call in s.calls &&
            (s.calls[s.requests[r].call].stage.Settled? || s.refreshing == Some(s.requests[r].call)))
  {
    InvAfter(START, steps);
    hide IsRun, After;
  }

  /** A new refresh call presents a token the server has already exchanged exactly when the pair that exchange issued
      was lost on its way to the page. */
  lemma PresentsExchangedIffLost(steps: seq<Step>, r: RequestId, response: Response, c: CallId)
    requires IsRun(START, steps) && Enabled(After(START, steps), Respond(r, response, c))
    requires MustRefresh(After(START, steps), r, response) && After(START, steps).refreshing.None?
    ensures var s, s' := After(START, steps), Next(After(START, steps), Respond(r, response, c));
      && c in s'.calls && s'.refreshing == Some(c)
      && (s'.calls[c].presented in s.exchanged <==> s'.calls[c].presented in s.lost)
  {
    InvAfter(START, steps);
    hide IsRun, After;
  }

  /** Each request is sent at most twice, and a replay carries an access token at least as new as the one the refresh
      it waited for returned. */
  lemma ReplaysAreFresh(steps: seq<Step>, r: RequestId)
    requires IsRun(START, steps) && r in After(START, steps).requests
    ensures var s := After(START, steps);
      && r in s.sends && s.sends[r] <= 2
      && (s.requests[r].Replay? ==> s.requests[r].carried.Some? && s.requests[r].carried.value >= s.requests[r].awaited)
  {
    InvAfter(START, steps);
    hide IsRun, After;
  }

  // ---------- Who is sent again ----------

  /** Somewhere in the run the new pair p of the call reaches the page. */
  ghost predicate Arrives(s: State, steps: seq<Step>, c: CallId, p: Pair)
    requires IsRun(s, steps)
    decreases |steps|
  {
    && steps != []
    && (|| (steps[0] == Arrive(c) && s.calls[c].stage == Accepted(p))
        || Arrives(Next(s, steps[0]), steps[1..], c, p))
  }

  ghost predicate SettledWith(s: State, c: CallId, p: Pair)
  {
    c in s.calls && s.calls[c].stage == Settled(Some(p))
  }

  /** What settles a call, and with what; a settled call never changes. */
  lemma CallSettles(s: State, step: Step, c: CallId, p: Pair)
    requires Enabled(s, step) && FlightOk(s)
    ensures SettledWith(Next(s, step), c, p) <==>
      SettledWith(s, c, p) || (step == Arrive(c) && s.calls[c].stage == Accepted(p))
  {
  }

  lemma {:induction false} SettlesIffArrives(s: State, steps: seq<Step>, c: CallId, p: Pair)
    requires Inv(s) && IsRun(s, steps)
    ensures SettledWith(After(s, steps), c, p) <==> SettledWith(s, c, p) || Arrives(s, steps, c, p)
    decreases |steps|
  {
    if steps != [] {
      CallSettles(s, steps[0], c, p);
      InvKept(s, steps[0]);
      hide Inv, Enabled, Next, SettledWith;
      SettlesIffArrives(Next(s, steps[0]), steps[1..], c, p);
    }
  }

  /** A request that waited for a refresh is sent a second time, with the page's access token of that moment, exactly
      when the call's new pair has reached the page; when it was refused or failed, the request gives up after one
      send. */
  lemma SentAgainIffArrived(steps: seq<Step>, r: RequestId)
    requires IsRun(START, steps) && Enabled(After(START, steps), Resume(r))
    ensures var s, s' := After(START, steps), Next(After(START, steps), Resume(r));
      && s.sends.Keys >= {r} && s.sends[r] == 1 && s'.sends.Keys >= {r}
      && if exists p :: Arrives(START, steps, s.requests[r].call, p)
         then s'.requests[r].Replay? && s'.requests[r].carried == s.access && s.access.Some? && s'.sends[r] == 2
         else s'.requests[r].Finished? && s'.sends[r] == 1
  {
    var s := After(START, steps);
    var c := s.requests[r].call;
    InvAfter(START, steps);
    forall p
      ensures SettledWith(s, c, p) <==> Arrives(START, steps, c, p)
    {
      SettlesIffArrives(START, steps, c, p);
    }
    hide IsRun, After, Arrives;
    assert r in s.sends && SentAsOften(s.requests[r], s.sends[r]);
    assert Delivered(s.access, s.calls[c]);
    assert s.calls[c].stage.result.Some? ==> SettledWith(s, c, s.calls[c].stage.result.value);
  }

  lemma {:induction false} RunOn(s: State, steps: seq<Step>, step: Step)
    requires IsRun(s, steps) && Enabled(After(s, steps), step)
    ensures IsRun(s, steps + [step]) && After(s, steps + [step]) == Next(After(s, steps), step)
    decreases |steps|
  {
    hide Enabled, Next;
    if steps == [] {
      assert steps + [step] == [step] && [step][1..] == [];
    } else {
      RunOn(Next(s, steps[0]), steps[1..], step);
      assert (steps + [step])[1..] == steps[1..] + [step];
    }
  }

  ghost predicate Represents(s: State, c: CallId)
  {
    c in s.calls && s.calls[c].stage.Sent? && s.calls[c].presented in s.exchanged
  }

  /** When the answer to a refresh is lost, the next refresh presents the same, already exchanged token. */
  lemma LostAnswerPresentsAgain()
    ensures exists steps, c :: IsRun(START, steps) && Represents(After(START, steps), c)
  {
    var steps := [];
    var next := [SignIn, Begin(0, true), Respond(0, Denied, 0), Exchange(0), Fail(0), Begin(1, true),
                 Respond(1, Denied, 1)];
    RunOn(START, steps, next[0]);
    steps := steps + [next[0]];
    RunOn(START, steps, next[1]);
    steps := steps + [next[1]];
    RunOn(START, steps, next[2]);
    steps := steps + [next[2]];
    RunOn(START, steps, next[3]);
    steps := steps + [next[3]];
    RunOn(START, steps, next[4]);
    steps := steps + [next[4]];
    RunOn(START, steps, next[5]);
    steps := steps + [next[5]];
    RunOn(START, steps, next[6]);
    steps := steps + [next[6]];
    assert IsRun(START, steps) && Represents(After(START, steps), 1);
  }

  // ---------- Ordinary sessions ----------

  /** From sign-in to the denied first response of request 0, which sends refresh call 0. */
  lemma Expires() returns (steps: seq<Step>, s: State)
    ensures IsRun(START, steps) && s == After(START, steps)
    ensures s == START.(access := Some(1), refresh := Some(1), refreshing := Some(0), issued := 1,
                        calls := map[0 := Call(1, Sent)], requests := map[0 := Awaiting(0)], sends := map[0 := 1])
  {
    steps, s := [], START;
    var next := [SignIn, Begin(0, true), Respond(0, Denied, 0)];
    RunOn(START, steps, next[0]);
    steps, s := steps + [next[0]], Next(s, next[0]);
    RunOn(START, steps, next[1]);
    steps, s := steps + [next[1]], Next(s, next[1]);
    RunOn(START, steps, next[2]);
    steps, s := steps + [next[2]], Next(s, next[2]);
  }

  /** The server exchanges the token, the new pair arrives, and the request is sent again with it. */
  lemma ExpiredTokenIsReplaced() returns (steps: seq<Step>)
    ensures IsRun(START, steps)
    ensures var s := After(START, steps);
      && s.access == s.refresh == Some(2) && s.issued == 2 && s.exchanged == {1} && s.lost == {} && s.refreshing.None?
      && s.requests == map[0 := Replay(Some(2), 2)] && s.sends == map[0 := 2]
  {
    var s;
    steps, s := Expires();
    RunOn(START, steps, Exchange(0));
    steps, s := steps + [Exchange(0)], Next(s, Exchange(0));
    RunOn(START, steps, Arrive(0));
    steps, s := steps + [Arrive(0)], Next(s, Arrive(0));
    RunOn(START, steps, Resume(0));
    steps, s := steps + [Resume(0)], Next(s, Resume(0));
  }

  /** The server refuses it, the request gives up, and the user signs out. */
  lemma RefusedTokenEndsSession() returns (steps: seq<Step>)
    ensures IsRun(START, steps)
    ensures var s := After(START, steps);
      && s.access == s.refresh == None && s.issued == 1 && s.exchanged == s.lost == {1} && s.refreshing.None?
      && s.requests == map[0 := Finished] && s.sends == map[0 := 1]
  {
    var s;
    steps, s := Expires();
    RunOn(START, steps, Refuse(0, true));
    steps, s := steps + [Refuse(0, true)], Next(s, Refuse(0, true));
    RunOn(START, steps, Arrive(0));
    steps, s := steps + [Arrive(0)], Next(s, Arrive(0));
    RunOn(START, steps, Resume(0));
    steps, s := steps + [Resume(0)], Next(s, Resume(0));
    RunOn(START, steps, SignOut);
    steps, s := steps + [SignOut], Next(s, SignOut);
  }

  /** The call fails on its way, and reaches the server only later: the page's token is gone without a successor. */
  lemma LateCallRevokes() returns (steps: seq<Step>)
    ensures IsRun(START, steps)
    ensures var s := After(START, steps);
      && s.access == s.refresh == Some(1) && s.issued == 2 && s.exchanged == s.lost == {1} && s.refreshing.None?
  {
    var s;
    steps, s := Expires();
    RunOn(START, steps, Fail(0));
    steps, s := steps + [Fail(0)], Next(s, Fail(0));
    RunOn(START, steps, LateExchange(1));
    steps, s := steps + [LateExchange(1)], Next(s, LateExchange(1));
  }

  /** A refresh token is accepted once: a call whose token has been exchanged can only be refused or fail, whether the
      token was spent by a call that was answered or by one that came late. */
  lemma AcceptedOnceIff(s: State, c: CallId, t: Pair)
    requires c in s.calls && s.calls[c].stage.Sent?
    ensures Enabled(s, Exchange(c)) <==> s.calls[c].presented !in s.exchanged
    ensures Enabled(s, LateExchange(t)) <==> t in s.wire && t !in s.exchanged
    ensures Enabled(s, Refuse(c, false)) && Enabled(s, Fail(c))
  {
  }

  // ---------- The client's code ----------

  /** The module's variables, with the calls and requests that are under way. */
  class Client {
    var access: Option<Pair>
    var refresh: Option<Pair>
    var refreshing: Option<CallId>
    var calls: map<CallId, Call>
    var requests: map<RequestId, Phase>
    ghost var issued: nat
    ghost var exchanged: set<Pair>
    ghost var wire: set<Pair>
    ghost var lost: set<Pair>
    ghost var sends: map<RequestId, nat>

    constructor ()
      ensures View() == START
    {
      access, refresh, refreshing, calls, requests := None, None, None, map[], map[];
      issued, exchanged, wire, lost, sends := 0, {}, {}, {}, map[];
    }

    ghost function View(): State
      reads this
    {
      State(access, refresh, refreshing, calls, requests, issued, exchanged, wire, lost, sends)
    }

    ghost predicate Took(before: State, step: Step)
      reads this
    {
      Enabled(before, step) && View() == Next(before, step)
    }

    /** req up to its first await. */
    method Request(r: RequestId, retry: bool)
      requires Inv(View()) && r !in requests
      modifies this`requests, this`sends
      ensures Took(old(View()), Begin(r, retry)) && Inv(View())
      ensures requests == old(requests)[r := First(access, retry)] && sends == old(sends)[r := 1]
    {
      requests := requests[r := First(access, retry)];
      sends := sends[r := 1];
      InvKept(old(View()), Begin(r, retry));
    }

    /** refreshAccessToken: the call to wait for, which is the one under way if there is one. */
    method RefreshAccessToken(c: CallId) returns (call: CallId)
      requires refresh.Some? && (refreshing.None? ==> c !in calls)
      modifies this`refreshing, this`calls
      ensures Refreshing(old(View()), c) == (View(), call) && refreshing == Some(call)
      ensures if old(refreshing).Some? then call == old(refreshing).value && calls == old(calls)
              else call == c && calls == old(calls)[c := Call(refresh.value, Sent)]
    {
      if refreshing.None? {
        calls := calls[c := Call(refresh.value, Sent)];
        refreshing := Some(c);
      }
      return refreshing.value;
    }

    /** req from the response of a fetch to its next await; `c` names the refresh call it may have to send. */
    method Responded(r: RequestId, response: Response, c: CallId)
      requires Inv(View()) && Enabled(View(), Respond(r, response, c))
      modifies this`requests, this`refreshing, this`calls
      ensures Took(old(View()), Respond(r, response, c)) && Inv(View())
      ensures var phase := old(requests)[r];
        if phase.First? && phase.retry && response.Denied? && refresh.Some?
        then && refreshing.Some? && requests == old(requests)[r := Awaiting(refreshing.value)]
             && calls == if old(refreshing).Some? then old(calls) else old(calls)[c := Call(refresh.value, Sent)]
        else requests == old(requests)[r := Finished] && refreshing == old(refreshing) && calls == old(calls)
    {
      var phase := requests[r];
      if phase.First? && response.Denied? && phase.retry && refresh.Some? {
        var call := RefreshAccessToken(c);
        requests := requests[r := Awaiting(call)];
      } else {
        requests := requests[r := Finished];
      }
      InvKept(old(View()), Respond(r, response, c));
    }

    /** The refresh call's answer: a new pair, or a status that is not ok. */
    method RefreshArrived(c: CallId)
      requires Inv(View()) && Enabled(View(), Arrive(c))
      modifies this`access, this`refresh, this`refreshing, this`calls
      ensures Took(old(View()), Arrive(c)) && Inv(View()) && refreshing.None?
      ensures var stage := old(calls)[c].stage;
        if stage.Accepted?
        then && access == refresh == Some(stage.pair)
             && calls == old(calls)[c := old(calls)[c].(stage := Settled(Some(stage.pair)))]
        else && access == old(access) && refresh == old(refresh)
             && calls == old(calls)[c := old(calls)[c].(stage := Settled(None))]
    {
      var result: Option<Pair> := None;
      if calls[c].stage.Accepted? {
        access := Some(calls[c].stage.pair);
        refresh := Some(calls[c].stage.pair);
        result := access;
      }
      refreshing := None;
      calls := calls[c := calls[c].(stage := Settled(result))];
      InvKept(old(View()), Arrive(c));
    }

    /** The refresh call's fetch is rejected, or its body cannot be read. */
    method RefreshFailed(c: CallId)
      requires Inv(View()) && Enabled(View(), Fail(c))
      modifies this`refreshing, this`calls, this`lost, this`wire
      ensures Took(old(View()), Fail(c)) && Inv(View()) && refreshing.None?
      ensures calls == old(calls)[c := old(calls)[c].(stage := Settled(None))]
    {
      var call := calls[c];
      refreshing := None;
      lost := if call.stage.Accepted? then lost + {call.presented} else lost;
      wire := if call.stage.Sent? then wire + {call.presented} else wire;
      calls := calls[c := call.(stage := Settled(None))];
      InvKept(old(View()), Fail(c));
    }

    /** req once the refresh it waited for has settled: give up, or send again with the current token. */
    method Resumed(r: RequestId)
      requires Inv(View()) && Enabled(View(), Resume(r))
      modifies this`requests, this`sends
      ensures Took(old(View()), Resume(r)) && Inv(View())
      ensures var result := old(calls)[old(requests)[r].call].stage.result;
        if result.None? then requests == old(requests)[r := Finished] && sends == old(sends)
        else && requests == old(requests)[r := Replay(access, result.value)]
             && r in old(sends) && sends == old(sends)[r := old(sends)[r] + 1]
    {
      var result := calls[requests[r].call].stage.result;
      if result.None? {
        requests := requests[r := Finished];
      } else {
        requests := requests[r := Replay(access, result.value)];
        sends := sends[r := if r in sends then sends[r] + 1 else 1];
      }
      InvKept(old(View()), Resume(r));
    }
  }
}
