/** The Redis lease lock and the Guard that keeps one body running per key (shared/lock/lock.go). */
module Lock {
  import opened Wrappers
  import opened Sequences

  type Token = nat
  type Client = nat
  type Time = int

  /** The stored token and the last instant at which it is still there. */
  datatype Entry = Entry(token: Token, expiry: Time)

  // ---------- The commands ----------

  predicate Absent(key: Option<Entry>, now: Time)
  {
    key.None? || key.value.expiry < now
  }

  predicate Holds(key: Option<Entry>, now: Time, token: Token)
  {
    !Absent(key, now) && key.value.token == token
  }

  /** SET NX with an expiry. */
  function AfterSet(key: Option<Entry>, now: Time, token: Token, ttl: nat): Option<Entry>
  {
    if Absent(key, now) then Some(Entry(token, now + ttl)) else key
  }

  /** refreshScript. */
  function AfterRefresh(key: Option<Entry>, now: Time, token: Token, ttl: nat): Option<Entry>
  {
    if Holds(key, now, token) then Some(Entry(token, now + ttl)) else key
  }

  /** releaseScript. */
  function AfterRelease(key: Option<Entry>, now: Time, token: Token): Option<Entry>
  {
    if Holds(key, now, token) then None else key
  }

  // ---------- Guarded clients ----------

  datatype Flight = Nothing | Sent | Done(ok: bool)

  /** What a client inside Guard is doing: waiting for SET NX, holding the token, fenced, or running its body with
      the next renewal due at `due` and possibly a refresh in flight. `due` also bounds the call under way. */
  datatype Phase =
    | Asking(token: Token, due: Time)
    | Won(token: Token, due: Time)
    | Fenced(token: Token, due: Time, fence: nat)
    | Body(token: Token, due: Time, fence: nat, flight: Flight)

  /** `stale` holds tokens whose client has moved on while commands of theirs may still reach the server. The last
      three fields are history: every token in the order it became the stored one, the fences handed out, and the
      tokens whose INCR ran while they were stored. */
  datatype State = State(
    ttl: nat, now: Time, key: Option<Entry>, counter: nat,
    clients: map<Client, Phase>, used: set<Token>, stale: set<Token>,
    granted: seq<Token>, fences: map<Token, nat>, onTime: set<Token>)

  datatype Step =
    | Tick(elapsed: nat)
    | Ask(c: Client, token: Token)
    | Set(c: Client)
    | Incr(c: Client)
    | Enter(c: Client)
    | Leave(c: Client)
    | Send(c: Client)
    | Execute(c: Client)
    | Reply(c: Client)
    | LateSet(token: Token)
    | LateIncr
    | LateRefresh(token: Token)
    | LateRelease(token: Token)

  function Start(ttl: nat): State
  {
    State(ttl, 0, None, 0, map[], {}, {}, [], map[], {})
  }

  /** The renewal period, which is also the longest a round trip may take. */
  function Third(s: State): nat
  {
    s.ttl / 3
  }

  predicate Enabled(s: State, step: Step)
  {
    match step
    case Tick(_) => true
    case Ask(c, token) => c !in s.clients && token !in s.used
    case Set(c) => c in s.clients && s.clients[c].Asking?
    case Incr(c) => c in s.clients && s.clients[c].Won?
    case Enter(c) => c in s.clients && s.clients[c].Fenced?
    case Leave(c) => c in s.clients
    case Send(c) => c in s.clients && s.clients[c].Body? && s.clients[c].flight.Nothing? && s.now == s.clients[c].due
    case Execute(c) => c in s.clients && s.clients[c].Body? && s.clients[c].flight.Sent?
    case Reply(c) => c in s.clients && s.clients[c].Body? && s.clients[c].flight.Done?
    case LateSet(token) => token in s.stale && token !in s.granted
    case LateIncr => true
    case LateRefresh(token) => token in s.stale
    case LateRelease(token) => token in s.stale
  }

  /** Time never passes the moment a call must have returned or a renewal must have been sent. */
  predicate Punctual(s: State, step: Step)
  {
    step.Tick? ==> forall c :: c in s.clients ==> s.now + step.elapsed <= s.clients[c].due
  }

  function Next(s: State, step: Step): State
    requires Enabled(s, step)
  {
    match step
    case Tick(elapsed) => s.(now := s.now + elapsed)
    case Ask(c, token) =>
      s.(clients := s.clients[c := Asking(token, s.now + Third(s))], used := s.used + {token})
    case Set(c) =>
      var p := s.clients[c];
      if Absent(s.key, s.now) then
        s.(key := AfterSet(s.key, s.now, p.token, s.ttl), clients := s.clients[c := Won(p.token, p.due)],
           granted := s.granted + [p.token])
      else s.(clients := s.clients - {c})
    case Incr(c) =>
      var p := s.clients[c];
      s.(counter := s.counter + 1, clients := s.clients[c := Fenced(p.token, p.due, s.counter + 1)],
         fences := s.fences[p.token := s.counter + 1],
         onTime := if Holds(s.key, s.now, p.token) then s.onTime + {p.token} else s.onTime)
    case Enter(c) =>
      var p := s.clients[c];
      s.(clients := s.clients[c := Body(p.token, s.now + Third(s), p.fence, Nothing)])
    case Leave(c) => s.(clients := s.clients - {c}, stale := s.stale + {s.clients[c].token})
    case Send(c) =>
      var p := s.clients[c];
      s.(clients := s.clients[c := p.(due := s.now + Third(s), flight := Sent)])
    case Execute(c) =>
      var p := s.clients[c];
      s.(key := AfterRefresh(s.key, s.now, p.token, s.ttl),
         clients := s.clients[c := p.(flight := Done(Holds(s.key, s.now, p.token)))])
    case Reply(c) =>
      var p := s.clients[c];
      if p.flight.ok then s.(clients := s.clients[c := p.(flight := Nothing)])
      else s.(clients := s.clients - {c}, stale := s.stale + {p.token})
    case LateSet(token) =>
      if Absent(s.key, s.now)
      then s.(key := AfterSet(s.key, s.now, token, s.ttl), granted := s.granted + [token]) else s
    case LateIncr => s.(counter := s.counter + 1)
    case LateRefresh(token) => s.(key := AfterRefresh(s.key, s.now, token, s.ttl))
    case LateRelease(token) => s.(key := AfterRelease(s.key, s.now, token))
  }

  ghost predicate IsRun(s: State, steps: seq<Step>)
    decreases |steps|
  {
    steps == [] || (Enabled(s, steps[0]) && IsRun(Next(s, steps[0]), steps[1..]))
  }

  ghost function After(s: State, steps: seq<Step>): State
    requires IsRun(s, steps)
    decreases |steps|
  {
    if steps == [] then s else After(Next(s, steps[0]), steps[1..])
  }

  ghost predicate PunctualRun(s: State, steps: seq<Step>)
    requires IsRun(s, steps)
    decreases |steps|
  {
    steps == [] || (Punctual(s, steps[0]) && PunctualRun(Next(s, steps[0]), steps[1..]))
  }

  // ---------- What every run keeps ----------

  /** Tokens are told apart: each client has its own, and none of them is stale. */
  ghost predicate TokensOk(s: State)
  {
    && (forall c :: c in s.clients ==> s.clients[c].token in s.used && s.clients[c].token !in s.stale)
    && (forall c, d :: c in s.clients && d in s.clients && s.clients[c].token == s.clients[d].token ==> c == d)
    && s.stale <= s.used
  }

  /** The stored token is the last granted one, and no token is granted twice. */
  ghost predicate GrantsOk(s: State)
  {
    && NoDup(s.granted)
    && (forall t :: t in s.granted ==> t in s.used)
    && (s.key.Some? ==> s.granted != [] && s.granted[|s.granted| - 1] == s.key.value.token)
    && (forall c :: c in s.clients ==> (s.clients[c].Asking? <==> s.clients[c].token !in s.granted))
  }

  /** Fences never exceed the counter, and follow the order of ownership as far as the INCRs were on time. */
  ghost predicate FencesOk(s: State)
  {
    FencesGiven(s) && FencesDistinct(s.fences) && FencesOrdered(s)
  }

  ghost predicate FencesGiven(s: State)
  {
    && (forall t :: t in s.fences ==> t in s.granted && s.fences[t] <= s.counter)
    && (forall c :: c in s.clients && s.clients[c].Won? ==> s.clients[c].token !in s.fences)
    && s.onTime <= s.fences.Keys
  }

  ghost predicate FencesDistinct(fences: map<Token, nat>)
  {
    forall a, b :: a in fences && b in fences && fences[a] == fences[b] ==> a == b
  }

  ghost predicate FencesOrdered(s: State)
    requires s.onTime <= s.fences.Keys
  {
    forall i, j :: 0 <= i < j < |s.granted| && s.granted[i] in s.onTime && s.granted[j] in s.fences ==>
      s.fences[s.granted[i]] < s.fences[s.granted[j]]
  }

  ghost predicate Inv(s: State)
  {
    TokensOk(s) && GrantsOk(s) && FencesOk(s)
  }

  /** A client past SET NX owns the key until after everything it is waiting for. */
  ghost predicate Secure(s: State, p: Phase)
  {
    && s.now <= p.due <= s.now + Third(s)
    && (!p.Asking? ==>
        && Holds(s.key, s.now, p.token)
        && match p
           case Asking(_, _) => true
           case Won(_, due) => due + 2 * Third(s) <= s.key.value.expiry
           case Fenced(_, due, _) => due + 2 * Third(s) <= s.key.value.expiry
           case Body(_, due, _, flight) =>
             if flight.Sent? then due <= s.key.value.expiry
             else flight != Done(false) && due + Third(s) <= s.key.value.expiry)
  }

  ghost predicate AllSecure(s: State)
  {
    forall c :: c in s.clients ==> Secure(s, s.clients[c])
  }

  lemma StartOk(ttl: nat)
    ensures Inv(Start(ttl)) && AllSecure(Start(ttl))
  {
  }

  lemma TokensKept(s: State, step: Step)
    requires Enabled(s, step) && TokensOk(s)
    ensures TokensOk(Next(s, step))
  {
  }

  lemma GrantsKept(s: State, step: Step)
    requires Enabled(s, step) && TokensOk(s) && GrantsOk(s)
    ensures GrantsOk(Next(s, step))
  {
  }

  lemma WinnersUnfenced(s: State, step: Step)
    requires Enabled(s, step) && TokensOk(s) && GrantsOk(s) && FencesGiven(s)
    ensures var s' := Next(s, step);
      forall c :: c in s'.clients && s'.clients[c].Won? ==> s'.clients[c].token !in s'.fences
  {
    var s' := Next(s, step);
    forall c | c in s'.clients && s'.clients[c].Won?
      ensures s'.clients[c].token !in s'.fences
    {
      assert c in s.clients && s.clients[c].token == s'.clients[c].token;
    }
  }

  lemma GivenKept(s: State, step: Step)
    requires Enabled(s, step) && TokensOk(s) && GrantsOk(s) && FencesGiven(s)
    ensures FencesGiven(Next(s, step))
  {
    WinnersUnfenced(s, step);
    hide TokensOk;
  }

  /** An INCR on time is the stored token's, and that token was granted last. */
  lemma IncrKeepsOrder(s: State, c: Client)
    requires Enabled(s, Incr(c)) && TokensOk(s) && GrantsOk(s) && FencesGiven(s) && FencesOrdered(s)
    requires FencesGiven(Next(s, Incr(c)))
    ensures FencesOrdered(Next(s, Incr(c)))
  {
  }

  /** Any other step leaves the fences alone, and grants only tokens without one. */
  lemma OthersKeepOrder(s: State, step: Step)
    requires Enabled(s, step) && !step.Incr?
    ensures Next(s, step).fences == s.fences && Next(s, step).onTime == s.onTime
    ensures Next(s, step).granted == s.granted || exists t :: Next(s, step).granted == s.granted + [t]
  {
    match step
    case Set(c) => assert Absent(s.key, s.now) ==> Next(s, step).granted == s.granted + [s.clients[c].token];
    case LateSet(token) => assert Absent(s.key, s.now) ==> Next(s, step).granted == s.granted + [token];
    case _ =>
  }

  lemma OrderedKept(s: State, step: Step)
    requires Enabled(s, step) && TokensOk(s) && GrantsOk(s) && FencesGiven(s) && FencesOrdered(s)
    requires GrantsOk(Next(s, step)) && FencesGiven(Next(s, step))
    ensures FencesOrdered(Next(s, step))
  {
    hide Next, Enabled, TokensOk;
    if step.Incr? {
      IncrKeepsOrder(s, step.c);
    } else {
      OthersKeepOrder(s, step);
      var before, now := s.granted, Next(s, step).granted;
      forall i, j | 0 <= i < j < |now| && now[i] in s.onTime && now[j] in s.fences
        ensures s.fences[now[i]] < s.fences[now[j]]
      {
        var k :| 0 <= k < |before| && before[k] == now[j];
        assert now[k] == now[j];
      }
    }
  }

  lemma DistinctKept(s: State, step: Step)
    requires Enabled(s, step) && TokensOk(s) && GrantsOk(s) && FencesGiven(s) && FencesDistinct(s.fences)
    ensures FencesDistinct(Next(s, step).fences)
  {
    hide TokensOk, GrantsOk;
  }

  lemma FencesKept(s: State, step: Step)
    requires Enabled(s, step) && TokensOk(s) && GrantsOk(s) && FencesOk(s)
    ensures FencesOk(Next(s, step))
  {
    GivenKept(s, step);
    GrantsKept(s, step);
    OrderedKept(s, step);
    DistinctKept(s, step);
    hide Next, Enabled, GrantsOk, FencesGiven, FencesOrdered, FencesDistinct;
  }

  /** The step is not the client's own, nor time passing. */
  predicate ByOther(step: Step, c: Client)
  {
    match step
    case Tick(_) => false
    case Ask(d, _) => d != c
    case Set(d) => d != c
    case Incr(d) => d != c
    case Enter(d) => d != c
    case Leave(d) => d != c
    case Send(d) => d != c
    case Execute(d) => d != c
    case Reply(d) => d != c
    case _ => true
  }

  lemma OtherSecure(s: State, step: Step, c: Client)
    requires Enabled(s, step) && TokensOk(s) && ByOther(step, c) && c in s.clients && Secure(s, s.clients[c])
    ensures var s' := Next(s, step); c in s'.clients && Secure(s', s'.clients[c])
  {
  }

  lemma OwnSecure(s: State, step: Step, c: Client)
    requires Enabled(s, step) && !step.Tick? && !ByOther(step, c)
    requires c in s.clients ==> Secure(s, s.clients[c])
    ensures var s' := Next(s, step); c in s'.clients ==> Secure(s', s'.clients[c])
  {
  }

  lemma TickSecure(s: State, step: Step, c: Client)
    requires step.Tick? && Punctual(s, step) && c in s.clients && Secure(s, s.clients[c])
    ensures Next(s, step).clients == s.clients && Secure(Next(s, step), s.clients[c])
  {
  }

  lemma NobodyAppears(s: State, step: Step, c: Client)
    requires Enabled(s, step) && c in Next(s, step).clients && c !in s.clients
    ensures !step.Tick? && !ByOther(step, c)
  {
  }

  lemma SecureKept(s: State, step: Step)
    requires Enabled(s, step) && Punctual(s, step) && TokensOk(s) && AllSecure(s)
    ensures AllSecure(Next(s, step))
  {
    hide Secure, Next, Enabled, Punctual, TokensOk, ByOther;
    var s' := Next(s, step);
    forall c | c in s'.clients
      ensures Secure(s', s'.clients[c])
    {
      if c !in s.clients {
        NobodyAppears(s, step, c);
        OwnSecure(s, step, c);
      } else if step.Tick? {
        TickSecure(s, step, c);
      } else if ByOther(step, c) {
        OtherSecure(s, step, c);
      } else {
        OwnSecure(s, step, c);
      }
    }
  }

  lemma InvKept(s: State, step: Step)
    requires Enabled(s, step) && Inv(s)
    ensures Inv(Next(s, step))
  {
    hide Next, Enabled, TokensOk, GrantsOk, FencesOk;
    TokensKept(s, step);
    GrantsKept(s, step);
    FencesKept(s, step);
  }

  lemma {:induction false} InvAfter(s: State, steps: seq<Step>)
    requires Inv(s) && IsRun(s, steps)
    ensures Inv(After(s, steps)) && After(s, steps).ttl == s.ttl
    decreases |steps|
  {
    hide Inv, Enabled;
    if steps != [] {
      InvKept(s, steps[0]);
      InvAfter(Next(s, steps[0]), steps[1..]);
    }
  }

  lemma {:induction false} SecureAfter(s: State, steps: seq<Step>)
    requires Inv(s) && AllSecure(s) && IsRun(s, steps) && PunctualRun(s, steps)
    ensures AllSecure(After(s, steps))
    decreases |steps|
  {
    if steps != [] {
      InvKept(s, steps[0]);
      SecureKept(s, steps[0]);
      hide Inv, AllSecure, Enabled, Punctual, Next;
      SecureAfter(Next(s, steps[0]), steps[1..]);
    }
  }

  // ---------- Mutual exclusion ----------

  /** In a punctual run no two clients are past SET NX at once, so no two bodies run at the same instant; and whoever
      is past it still owns the key, so a refresh that is answered never reports the lock lost. */
  lemma GuardMutualExclusion(ttl: nat, steps: seq<Step>, c: Client, d: Client)
    requires IsRun(Start(ttl), steps) && PunctualRun(Start(ttl), steps)
    requires c in After(Start(ttl), steps).clients && !After(Start(ttl), steps).clients[c].Asking?
    ensures var s := After(Start(ttl), steps);
      && Holds(s.key, s.now, s.clients[c].token)
      && (d in s.clients && !s.clients[d].Asking? ==> c == d)
      && (s.clients[c].Body? ==> s.clients[c].flight != Done(false))
  {
    var s := After(Start(ttl), steps);
    StartOk(ttl);
    InvAfter(Start(ttl), steps);
    SecureAfter(Start(ttl), steps);
    hide Enabled, Next, IsRun, PunctualRun, After;
    assert Secure(s, s.clients[c]);
    if d in s.clients && !s.clients[d].Asking? {
      assert Secure(s, s.clients[d]);
    }
  }

  /** Nothing anyone else does, including commands that arrive late, touches the key or the expiry of its owner. */
  lemma OthersSpareTheOwner(ttl: nat, steps: seq<Step>, c: Client, step: Step)
    requires IsRun(Start(ttl), steps) && Enabled(After(Start(ttl), steps), step) && ByOther(step, c)
    requires c in After(Start(ttl), steps).clients
    requires var s := After(Start(ttl), steps); Holds(s.key, s.now, s.clients[c].token)
    ensures Next(After(Start(ttl), steps), step).key == After(Start(ttl), steps).key
    ensures c in Next(After(Start(ttl), steps), step).clients
  {
    StartOk(ttl);
    InvAfter(Start(ttl), steps);
    hide IsRun, After;
  }

  // ---------- How long a lease lasts ----------

  /** The token for which the step has the server run a SET NX or a refresh. */
  function Commanded(s: State, step: Step): Option<Token>
    requires Enabled(s, step)
  {
    match step
    case Set(c) => Some(s.clients[c].token)
    case Execute(c) => Some(s.clients[c].token)
    case LateSet(token) => Some(token)
    case LateRefresh(token) => Some(token)
    case _ => None
  }

  /** What can happen to the key: a command for a token stores or extends that token for exactly one lease from now, a
      late release removes its own token, and nothing else touches it. */
  lemma KeyMoves(s: State, step: Step)
    requires Enabled(s, step)
    ensures Next(s, step).ttl == s.ttl && Next(s, step).now >= s.now
    ensures var key, key' := s.key, Next(s, step).key;
      || key' == key
      || (Commanded(s, step).Some? && key' == Some(Entry(Commanded(s, step).value, s.now + s.ttl)))
      || (key.Some? && step == LateRelease(key.value.token) && s.now <= key.value.expiry && key' == None)
  {
  }

  /** A contender wins exactly when no key is stored, or the stored one has expired. */
  lemma SetWinsIff(s: State, c: Client)
    requires Enabled(s, Set(c))
    ensures var s', token := Next(s, Set(c)), s.clients[c].token;
      if s.key.None? || s.key.value.expiry < s.now
      then s'.key == Some(Entry(token, s.now + s.ttl)) && c in s'.clients && s'.clients[c].Won?
      else s'.key == s.key && c !in s'.clients
  {
  }

  /** A refresh that reaches the server extends the lease to one lifetime from now, and is answered so, exactly when its
      own token is stored and has not expired. */
  lemma RefreshExtendsIff(s: State, c: Client)
    requires Enabled(s, Execute(c))
    ensures var s', token := Next(s, Execute(c)), s.clients[c].token;
      var mine := s.key.Some? && s.key.value.token == token && s.now <= s.key.value.expiry;
      && s'.key == (if mine then Some(Entry(token, s.now + s.ttl)) else s.key)
      && c in s'.clients && s'.clients[c] == s.clients[c].(flight := Done(mine))
  {
  }

  /** The next renewal, like the answer to a call, is due a third of the lease from now. */
  lemma NextDue(s: State, step: Step, c: Client)
    requires Enabled(s, step) && (step == Enter(c) || step == Send(c) || (step.Ask? && step.c == c))
    ensures c in Next(s, step).clients && Next(s, step).clients[c].due == s.now + s.ttl / 3
  {
  }

  /** The answer to a refresh ends the body exactly when it reports the lock lost. Whoever ends can still release the
      key, and whoever goes on renews again when it is due. */
  lemma ReplyEndsIff(s: State, c: Client)
    requires Enabled(s, Reply(c))
    ensures var s', p := Next(s, Reply(c)), s.clients[c];
      if p.flight == Done(false) then c !in s'.clients && Enabled(s', LateRelease(p.token))
      else c in s'.clients && s'.clients[c] == p.(flight := Nothing)
  {
  }

  /** A client that leaves has its release under way, which frees the key if the client still owns it. */
  lemma LeaverReleases(s: State, c: Client)
    requires Enabled(s, Leave(c))
    ensures var s', token := Next(s, Leave(c)), s.clients[c].token;
      && c !in s'.clients && s'.key == s.key && Enabled(s', LateRelease(token))
      && (s.key.Some? && s.key.value.token == token && s.now <= s.key.value.expiry ==>
          Next(s', LateRelease(token)).key == None)
  {
  }

  /** No command runs for the token. */
  ghost predicate Silent(s: State, steps: seq<Step>, token: Token)
    requires IsRun(s, steps)
    decreases |steps|
  {
    steps == [] || (Commanded(s, steps[0]) != Some(token) && Silent(Next(s, steps[0]), steps[1..], token))
  }

  lemma {:induction false} ExpiryBounded(s: State, steps: seq<Step>)
    requires IsRun(s, steps) && (s.key.Some? ==> s.key.value.expiry <= s.now + s.ttl)
    ensures var e := After(s, steps); e.ttl == s.ttl && (e.key.Some? ==> e.key.value.expiry <= e.now + e.ttl)
    decreases |steps|
  {
    if steps != [] {
      KeyMoves(s, steps[0]);
      hide Enabled, Next;
      ExpiryBounded(Next(s, steps[0]), steps[1..]);
    }
  }

  lemma {:induction false} SilentKey(s: State, steps: seq<Step>, token: Token)
    requires IsRun(s, steps) && Silent(s, steps, token)
    ensures var e := After(s, steps); e.key.Some? && e.key.value.token == token ==> e.key == s.key
    decreases |steps|
  {
    if steps != [] {
      KeyMoves(s, steps[0]);
      hide Enabled, Next, Commanded;
      SilentKey(Next(s, steps[0]), steps[1..], token);
    }
  }

  /** Over all runs, punctual or not: a token for which no command has run for longer than the lease is not stored any
      more. So nobody locks the others out by crashing. */
  lemma LeaseEnds(ttl: nat, steps: seq<Step>, more: seq<Step>, token: Token)
    requires IsRun(Start(ttl), steps) && IsRun(After(Start(ttl), steps), more)
    requires var s, e := After(Start(ttl), steps), After(After(Start(ttl), steps), more);
      Silent(s, more, token) && e.now > s.now + ttl
    ensures var e := After(After(Start(ttl), steps), more);
      e.key.Some? && e.key.value.token == token ==> e.key.value.expiry < e.now
  {
    ExpiryBounded(Start(ttl), steps);
    SilentKey(After(Start(ttl), steps), more, token);
  }

  /** And when nobody's command has run for that long, the first SET NX wins. */
  lemma FirstSetWins(ttl: nat, steps: seq<Step>, more: seq<Step>, c: Client)
    requires IsRun(Start(ttl), steps) && IsRun(After(Start(ttl), steps), more)
    requires var s, e := After(Start(ttl), steps), After(After(Start(ttl), steps), more);
      (forall token :: Silent(s, more, token)) && e.now > s.now + ttl && c in e.clients && e.clients[c].Asking?
    ensures var e := After(After(Start(ttl), steps), more);
      && Next(e, Set(c)).key == Some(Entry(e.clients[c].token, e.now + ttl))
      && c in Next(e, Set(c)).clients && Next(e, Set(c)).clients[c].Won?
  {
    var s := After(Start(ttl), steps);
    var e := After(s, more);
    hide IsRun, After;
    ExpiryBounded(Start(ttl), steps);
    ExpiryBounded(s, more);
    if e.key.Some? {
      assert Silent(s, more, e.key.value.token);
      LeaseEnds(ttl, steps, more, e.key.value.token);
    }
    SetWinsIff(e, c);
  }

  // ---------- Fences ----------

  /** Over all runs, punctual or not, no two acquisitions get the same fence. */
  lemma FencesAreUnique(ttl: nat, steps: seq<Step>, a: Token, b: Token)
    requires IsRun(Start(ttl), steps)
    requires a in After(Start(ttl), steps).fences && b in After(Start(ttl), steps).fences
    ensures After(Start(ttl), steps).fences[a] == After(Start(ttl), steps).fences[b] ==> a == b
  {
    StartOk(ttl);
    InvAfter(Start(ttl), steps);
    hide IsRun, After;
  }

  /** The client past its INCR carries the fence it was given. */
  ghost predicate CarriesFence(s: State, p: Phase)
  {
    p.Fenced? || p.Body? ==> p.token in s.fences && s.fences[p.token] == p.fence
  }

  lemma FenceStays(s: State, step: Step, c: Client)
    requires Enabled(s, step) && TokensOk(s) && c in Next(s, step).clients
    requires c in s.clients ==> CarriesFence(s, s.clients[c])
    ensures CarriesFence(Next(s, step), Next(s, step).clients[c])
  {
  }

  lemma {:induction false} FencesCarried(s: State, steps: seq<Step>)
    requires Inv(s) && IsRun(s, steps) && forall c :: c in s.clients ==> CarriesFence(s, s.clients[c])
    ensures forall c :: c in After(s, steps).clients ==> CarriesFence(After(s, steps), After(s, steps).clients[c])
    decreases |steps|
  {
    if steps != [] {
      InvKept(s, steps[0]);
      forall c | c in Next(s, steps[0]).clients
        ensures CarriesFence(Next(s, steps[0]), Next(s, steps[0]).clients[c])
      {
        FenceStays(s, steps[0], c);
      }
      hide Inv, Enabled, Next, CarriesFence;
      FencesCarried(Next(s, steps[0]), steps[1..]);
    }
  }

  /** So no two clients that run their bodies, or are about to, hold the same fence. */
  lemma HeldFencesDiffer(ttl: nat, steps: seq<Step>, c: Client, d: Client)
    requires IsRun(Start(ttl), steps)
    requires var s := After(Start(ttl), steps);
      c in s.clients && d in s.clients && c != d && s.clients[c].Body? && s.clients[d].Body?
    ensures var s := After(Start(ttl), steps); s.clients[c].fence != s.clients[d].fence
  {
    var s := After(Start(ttl), steps);
    StartOk(ttl);
    InvAfter(Start(ttl), steps);
    FencesCarried(Start(ttl), steps);
    hide IsRun, After, Next, Enabled;
    assert CarriesFence(s, s.clients[c]) && CarriesFence(s, s.clients[d]);
  }

  /** A token fenced while it was stored has a smaller fence than every later owner. */
  lemma FencesFollowOwnership(ttl: nat, steps: seq<Step>, i: nat, j: nat)
    requires IsRun(Start(ttl), steps)
    requires var s := After(Start(ttl), steps);
      i < j < |s.granted| && s.granted[i] in s.onTime && s.granted[j] in s.fences
    ensures var s := After(Start(ttl), steps);
      s.granted[i] in s.fences && s.fences[s.granted[i]] < s.fences[s.granted[j]]
  {
    StartOk(ttl);
    InvAfter(Start(ttl), steps);
    hide IsRun, After;
  }

  lemma {:induction false} FencedOnTime(s: State, steps: seq<Step>)
    requires Inv(s) && AllSecure(s) && IsRun(s, steps) && PunctualRun(s, steps)
    requires s.fences.Keys <= s.onTime
    ensures After(s, steps).fences.Keys <= After(s, steps).onTime
    decreases |steps|
  {
    if steps != [] {
      InvKept(s, steps[0]);
      SecureKept(s, steps[0]);
      if steps[0].Incr? {
        assert Secure(s, s.clients[steps[0].c]);
      }
      hide Inv, AllSecure, Punctual;
      FencedOnTime(Next(s, steps[0]), steps[1..]);
    }
  }

  /** In a punctual run every fence is handed out on time, so fences strictly increase in order of ownership. */
  lemma PunctualFencesIncrease(ttl: nat, steps: seq<Step>, i: nat, j: nat)
    requires IsRun(Start(ttl), steps) && PunctualRun(Start(ttl), steps)
    requires var s := After(Start(ttl), steps);
      i < j < |s.granted| && s.granted[i] in s.fences && s.granted[j] in s.fences
    ensures var s := After(Start(ttl), steps); s.fences[s.granted[i]] < s.fences[s.granted[j]]
  {
    StartOk(ttl);
    FencedOnTime(Start(ttl), steps);
    FencesFollowOwnership(ttl, steps, i, j);
  }

  /** Commands of clients that have moved on do what they say: a SET NX stores the token if the key is free, a refresh
      extends it and a release removes it if the token is stored, and an INCR uses up a fence. */
  lemma LateCommandsRun(s: State, token: Token)
    requires token in s.stale
    ensures var mine := s.key.Some? && s.key.value.token == token && s.now <= s.key.value.expiry;
      && Enabled(s, LateRefresh(token)) && Enabled(s, LateRelease(token)) && Enabled(s, LateIncr)
      && Next(s, LateRefresh(token)) == s.(key := if mine then Some(Entry(token, s.now + s.ttl)) else s.key)
      && Next(s, LateRelease(token)) == s.(key := if mine then None else s.key)
      && Next(s, LateIncr) == s.(counter := s.counter + 1)
    ensures token !in s.granted ==>
      && Enabled(s, LateSet(token))
      && Next(s, LateSet(token)).key ==
           if s.key.None? || s.key.value.expiry < s.now then Some(Entry(token, s.now + s.ttl)) else s.key
  {
  }

  lemma PunctualOn(s: State, steps: seq<Step>, step: Step)
    requires IsRun(s, steps) && Enabled(After(s, steps), step)
    requires PunctualRun(s, steps) && Punctual(After(s, steps), step)
    ensures IsRun(s, steps + [step]) && After(s, steps + [step]) == Next(After(s, steps), step)
    ensures PunctualRun(s, steps + [step])
    decreases |steps|
  {
    RunOn(s, steps, step);
    if steps == [] {
      assert steps + [step] == [step] && [step][1..] == [];
    } else {
      PunctualOn(Next(s, steps[0]), steps[1..], step);
      assert (steps + [step])[1..] == steps[1..] + [step];
    }
  }

  /** Client 0 acquires the key with the first fence and begins its body. */
  lemma Acquires() returns (steps: seq<Step>, s: State)
    ensures IsRun(Start(30), steps) && PunctualRun(Start(30), steps) && s == After(Start(30), steps)
    ensures s == Start(30).(key := Some(Entry(0, 30)), counter := 1, used := {0}, granted := [0],
                            clients := map[0 := Body(0, 10, 1, Nothing)], fences := map[0 := 1], onTime := {0})
  {
    steps, s := [], Start(30);
    var next := [Ask(0, 0), Set(0), Incr(0), Enter(0)];
    PunctualOn(Start(30), steps, next[0]);
    steps, s := steps + [next[0]], Next(s, next[0]);
    PunctualOn(Start(30), steps, next[1]);
    steps, s := steps + [next[1]], Next(s, next[1]);
    PunctualOn(Start(30), steps, next[2]);
    steps, s := steps + [next[2]], Next(s, next[2]);
    PunctualOn(Start(30), steps, next[3]);
    steps, s := steps + [next[3]], Next(s, next[3]);
  }

  /** It renews when that is due. */
  lemma Renews() returns (steps: seq<Step>, s: State)
    ensures IsRun(Start(30), steps) && PunctualRun(Start(30), steps) && s == After(Start(30), steps)
    ensures s == Start(30).(now := 10, key := Some(Entry(0, 40)), counter := 1, used := {0}, granted := [0],
                            clients := map[0 := Body(0, 20, 1, Nothing)], fences := map[0 := 1], onTime := {0})
  {
    steps, s := Acquires();
    var next := [Tick(10), Send(0), Execute(0), Reply(0)];
    PunctualOn(Start(30), steps, next[0]);
    steps, s := steps + [next[0]], Next(s, next[0]);
    PunctualOn(Start(30), steps, next[1]);
    steps, s := steps + [next[1]], Next(s, next[1]);
    PunctualOn(Start(30), steps, next[2]);
    steps, s := steps + [next[2]], Next(s, next[2]);
    PunctualOn(Start(30), steps, next[3]);
    steps, s := steps + [next[3]], Next(s, next[3]);
  }

  /** A punctual run through one lease: client 0 acquires, renews when due, leaves and releases, and client 1 gets the
      key with the next fence. */
  lemma OrdinaryHandover() returns (steps: seq<Step>, s: State)
    ensures IsRun(Start(30), steps) && PunctualRun(Start(30), steps) && s == After(Start(30), steps)
    ensures s.clients == map[1 := Fenced(1, 20, 2)] && s.key == Some(Entry(1, 40)) && s.now == 10 && s.counter == 2
    ensures s.granted == [0, 1] && s.fences == map[0 := 1, 1 := 2]
  {
    steps, s := Renews();
    var next := [Leave(0), LateRelease(0), Ask(1, 1), Set(1), Incr(1)];
    PunctualOn(Start(30), steps, next[0]);
    steps, s := steps + [next[0]], Next(s, next[0]);
    PunctualOn(Start(30), steps, next[1]);
    steps, s := steps + [next[1]], Next(s, next[1]);
    PunctualOn(Start(30), steps, next[2]);
    steps, s := steps + [next[2]], Next(s, next[2]);
    PunctualOn(Start(30), steps, next[3]);
    steps, s := steps + [next[3]], Next(s, next[3]);
    PunctualOn(Start(30), steps, next[4]);
    steps, s := steps + [next[4]], Next(s, next[4]);
  }

  // ---------- What the assumptions are for ----------

  lemma RunOnce(s: State, step: Step)
    requires Enabled(s, step)
    ensures IsRun(s, [step]) && After(s, [step]) == Next(s, step)
  {
    assert [step][1..] == [];
  }

  lemma {:induction false} RunOn(s: State, steps: seq<Step>, step: Step)
    requires IsRun(s, steps) && Enabled(After(s, steps), step)
    ensures IsRun(s, steps + [step]) && After(s, steps + [step]) == Next(After(s, steps), step)
    decreases |steps|
  {
    if steps == [] {
      RunOnce(s, step);
      assert steps + [step] == [step];
    } else {
      RunOn(Next(s, steps[0]), steps[1..], step);
      assert (steps + [step])[1..] == steps[1..] + [step];
    }
  }

  /** Client 0 owns the key and time passes its expiry: client 1 acquires it too. */
  lemma Overtaken() returns (steps: seq<Step>, s: State)
    ensures IsRun(Start(30), steps) && s == After(Start(30), steps)
    ensures s.clients == map[0 := Won(0, 10), 1 := Won(1, 41)]
    ensures s.key == Some(Entry(1, 61)) && s.now == 31 && s.granted == [0, 1] && s.fences == map[] && s.counter == 0
  {
    s := Start(30);
    steps := [];
    var next := [Ask(0, 0), Set(0), Tick(31), Ask(1, 1), Set(1)];
    RunOn(Start(30), steps, next[0]);
    steps, s := steps + [next[0]], Next(s, next[0]);
    RunOn(Start(30), steps, next[1]);
    steps, s := steps + [next[1]], Next(s, next[1]);
    RunOn(Start(30), steps, next[2]);
    steps, s := steps + [next[2]], Next(s, next[2]);
    RunOn(Start(30), steps, next[3]);
    steps, s := steps + [next[3]], Next(s, next[3]);
    RunOn(Start(30), steps, next[4]);
    steps, s := steps + [next[4]], Next(s, next[4]);
  }

  /** An INCR that runs after its token expired gives the earlier owner the larger fence. */
  lemma LateIncrBreaksOrder()
    ensures exists steps :: IsRun(Start(30), steps) && OutOfOrder(After(Start(30), steps))
  {
    var steps, s := Overtaken();
    RunOn(Start(30), steps, Incr(1));
    RunOn(Start(30), steps + [Incr(1)], Incr(0));
    assert IsRun(Start(30), steps + [Incr(1)] + [Incr(0)]);
    assert OutOfOrder(After(Start(30), steps + [Incr(1)] + [Incr(0)]));
  }

  ghost predicate OutOfOrder(s: State)
  {
    && |s.granted| == 2 && s.granted[0] in s.fences && s.granted[1] in s.fences
    && s.fences[s.granted[0]] > s.fences[s.granted[1]]
  }

  /** Without punctuality two bodies can run at the same instant. */
  lemma OverdueBodiesOverlap()
    ensures exists steps, c: Client, d: Client ::
      IsRun(Start(30), steps) && c != d && BothRun(After(Start(30), steps), c, d)
  {
    var steps, s := Overtaken();
    RunOn(Start(30), steps, Incr(0));
    RunOn(Start(30), steps + [Incr(0)], Enter(0));
    RunOn(Start(30), steps + [Incr(0)] + [Enter(0)], Incr(1));
    RunOn(Start(30), steps + [Incr(0)] + [Enter(0)] + [Incr(1)], Enter(1));
    var all := steps + [Incr(0)] + [Enter(0)] + [Incr(1)] + [Enter(1)];
    assert IsRun(Start(30), all) && BothRun(After(Start(30), all), 0, 1);
  }

  ghost predicate BothRun(s: State, c: Client, d: Client)
  {
    c in s.clients && d in s.clients && s.clients[c].Body? && s.clients[d].Body?
  }

  // ---------- Acquire, Refresh and Release ----------

  /** A lock as Acquire returns it. */
  datatype Lease = Lease(key: string, token: Token, ttl: nat, fence: nat)

  datatype Acquired = Got(lease: Lease) | NotAcquired | Unavailable

  datatype Refreshed = Kept | Lost | Unreachable

  /** How a command fares: it runs and is answered, it never runs, or it runs and the answer is lost. The caller sees
      an error in the last two cases. */
  datatype Call = Answered | NotRun | Unanswered

  /** The server has the lease's token under its key, and it has not expired. */
  predicate Stored(locks: map<string, Entry>, lease: Lease, now: Time)
  {
    lease.key in locks && locks[lease.key].token == lease.token && now <= locks[lease.key].expiry
  }

  predicate Free(locks: map<string, Entry>, key: string, now: Time)
  {
    key !in locks || locks[key].expiry < now
  }

  /** The Redis server, with its clock. */
  class Server {
    var now: Time
    var locks: map<string, Entry>
    var counters: map<string, nat>

    constructor ()
      ensures now == 0 && locks == map[] && counters == map[]
    {
      now, locks, counters := 0, map[], map[];
    }

    function At(key: string): Option<Entry>
      reads this
    {
      if key in locks then Some(locks[key]) else None
    }

    function Counter(key: string): nat
      reads this
    {
      if key in counters then counters[key] else 0
    }

    /** Every lock but one is as it was. */
    twostate predicate OthersSame(key: string)
      reads this
    {
      && now == old(now)
      && (forall k :: k != key ==> (k in locks <==> k in old(locks)) && (k in locks ==> locks[k] == old(locks)[k]))
    }

    method Store(key: string, entry: Option<Entry>)
      modifies this`locks
      ensures At(key) == entry && OthersSame(key)
    {
      locks := if entry.Some? then locks[key := entry.value] else locks - {key};
    }

    /** A refresh or a release whose token is no longer stored changes neither the key nor its expiry. */
    method Release(lease: Lease, call: Call)
      modifies this`locks
      ensures OthersSame(lease.key)
      ensures At(lease.key) == if call.NotRun? || !Stored(old(locks), lease, now) then old(At(lease.key)) else None
    {
      if !call.NotRun? {
        Store(lease.key, AfterRelease(At(lease.key), now, lease.token));
      }
    }

    method Refresh(lease: Lease, call: Call) returns (r: Refreshed)
      modifies this`locks
      ensures OthersSame(lease.key)
      ensures At(lease.key) == if call.NotRun? || !Stored(old(locks), lease, now) then old(At(lease.key))
                               else Some(Entry(lease.token, now + lease.ttl))
      ensures r.Kept? <==> call.Answered? && Stored(old(locks), lease, now)
      ensures r.Lost? <==> call.Answered? && !Stored(old(locks), lease, now)
    {
      if call.NotRun? {
        return Unreachable;
      }
      var n := Holds(At(lease.key), now, lease.token);
      Store(lease.key, AfterRefresh(At(lease.key), now, lease.token, lease.ttl));
      if call.Unanswered? {
        return Unreachable;
      }
      return if n then Kept else Lost;
    }

    /** Acquire, with the token it drew. When INCR fails it takes its own token back, if the server is reached. */
    method Acquire(key: string, token: Token, ttl: nat, setting: Call, incr: Call, cleanup: Call) returns (r: Acquired)
      modifies this
      ensures OthersSame(key) && forall k :: k != key ==> Counter(k) == old(Counter(k))
      ensures r.Got? <==> setting.Answered? && incr.Answered? && Free(old(locks), key, now)
      ensures r.Got? ==>
        && At(key) == Some(Entry(token, now + ttl))
        && r.lease == Lease(key, token, ttl, Counter(key)) && Counter(key) == old(Counter(key)) + 1
        && r.lease.fence == (if key in old(counters) then old(counters)[key] + 1 else 1)
      ensures r.NotAcquired? <==> setting.Answered? && !Free(old(locks), key, now)
      ensures !Free(old(locks), key, now) ==> At(key) == old(At(key)) && counters == old(counters)
      ensures r.Unavailable? && setting.Answered? && !cleanup.NotRun? ==> At(key) == None
    {
      var free := Absent(At(key), now);
      if !setting.NotRun? {
        Store(key, AfterSet(At(key), now, token, ttl));
      }
      if !setting.Answered? {
        return Unavailable;
      }
      if !free {
        return NotAcquired;
      }
      if !incr.NotRun? {
        counters := counters[key := Counter(key) + 1];
      }
      if !incr.Answered? {
        Release(Lease(key, token, ttl, 0), cleanup);
        return Unavailable;
      }
      return Got(Lease(key, token, ttl, Counter(key)));
    }
  }
}
