/** Concurrent lookups through the grant cache and single-flight (api/internal/authz/authz.go, lookup). */
module GrantLookup {
  import opened GrantCache

  type RequestId = nat

  /** What the membership tables say of a key: the organization and the user's role in it. */
  datatype Row = Row(org: string, role: string)

  type Tables = map<Key, Row>

  function AnswerOf(tables: Tables, k: Key): Answer
  {
    if k in tables then Answer(Grant(tables[k].org, tables[k].role, k.user), true)
    else Answer(Grant("", "", k.user), false)
  }

  /** One call of the single-flight group; `read` is the instant its query was answered. */
  datatype Progress = Querying | HasRead(answer: Answer, read: nat) | Cached(answer: Answer, read: nat) | Broken

  datatype Flight = Flight(k: Key, started: Time, progress: Progress)

  /** A request that missed the cache, and one that waits for a flight. */
  datatype Request = Missed(k: Key) | Joined(k: Key)

  datatype Served = Served(k: Key, answer: Answer, read: nat, at: nat)

  datatype Instant = Instant(now: Time, tables: Tables)

  /** `past` lists every instant of the run, the present one last. With `origin`, the lookup and the read behind each
      cached entry, and `served` it is history, never read by a step. `longest` bounds how long a flight lasts. */
  datatype State = State(
    longest: nat, now: Time, tables: Tables,
    entries: Entries, flights: map<string, Flight>, requests: map<RequestId, Request>,
    past: seq<Instant>, origin: map<string, Origin>, served: set<Served>)

  datatype Origin = Origin(k: Key, read: nat)

  datatype Step =
    | Tick(elapsed: nat)
    | Change(tables: Tables)
    | Ask(r: RequestId, k: Key)
    | Join(r: RequestId)
    | Read(key: string)
    | Break(key: string)
    | Put(key: string, left: Entries)
    | Finish(key: string)
    | Drop(who: Subject)

  function Start(longest: nat): State
  {
    State(longest, 0, map[], map[], map[], map[], [Instant(0, map[])], map[], {})
  }

  /** The index of the present instant. */
  function Present(s: State): int
  {
    |s.past| - 1
  }

  function Hit(s: State, key: string): bool
  {
    key in s.entries && !Expired(s.entries[key], s.now)
  }

  function ReadOf(s: State, key: string): nat
  {
    if key in s.origin then s.origin[key].read else 0
  }

  ghost predicate Enabled(s: State, step: Step)
  {
    match step
    case Tick(_) => true
    case Change(_) => true
    case Ask(r, k) => r !in s.requests && Plain(k)
    case Join(r) => r in s.requests && s.requests[r].Missed?
    case Read(key) => key in s.flights && s.flights[key].progress.Querying?
    case Break(key) => key in s.flights && s.flights[key].progress.Querying?
    case Put(key, left) => key in s.flights && s.flights[key].progress.HasRead? && MakesRoom(s.entries, s.now, left)
    case Finish(key) => key in s.flights && (s.flights[key].progress.Cached? || s.flights[key].progress.Broken?)
    case Drop(_) => true
  }

  /** No flight lasts longer than `longest`. */
  ghost predicate Timely(s: State, step: Step)
  {
    step.Tick? ==> forall key :: key in s.flights ==> s.now + step.elapsed <= s.flights[key].started + s.longest
  }

  predicate WaitsFor(r: Request, key: string)
  {
    r.Joined? && Text(r.k) == key
  }

  /** Everyone waiting for a flight gets its answer. */
  ghost function Answers(s: State, key: string, answer: Answer, read: nat): set<Served>
    requires s.past != []
  {
    set r | r in s.requests && WaitsFor(s.requests[r], key) :: Served(s.requests[r].k, answer, read, Present(s))
  }

  /** The effect of a step on everything but `past`. */
  ghost function Effect(s: State, step: Step): State
    requires Enabled(s, step) && s.past != []
  {
    match step
    case Tick(elapsed) => s.(now := s.now + elapsed)
    case Change(tables) => s.(tables := tables)
    case Ask(r, k) =>
      if Hit(s, Text(k))
      then s.(served := s.served + {Served(k, s.entries[Text(k)].answer, ReadOf(s, Text(k)), Present(s))})
      else s.(requests := s.requests[r := Missed(k)])
    case Join(r) =>
      var k := s.requests[r].k;
      s.(requests := s.requests[r := Joined(k)],
         flights := if Text(k) in s.flights then s.flights else s.flights[Text(k) := Flight(k, s.now, Querying)])
    case Read(key) =>
      var f := s.flights[key];
      s.(flights := s.flights[key := f.(progress := HasRead(AnswerOf(s.tables, f.k), Present(s)))])
    case Break(key) =>
      s.(flights := s.flights[key := s.flights[key].(progress := Broken)])
    case Put(key, left) =>
      var f := s.flights[key];
      s.(entries := left[key := Entry(f.progress.answer, s.now + TTL)],
         origin := s.origin[key := Origin(f.k, f.progress.read)],
         flights := s.flights[key := f.(progress := Cached(f.progress.answer, f.progress.read))])
    case Finish(key) =>
      var f := s.flights[key];
      s.(flights := s.flights - {key},
         requests := (map r | r in s.requests && !WaitsFor(s.requests[r], key) :: s.requests[r]),
         served := if f.progress.Broken? then s.served
                   else s.served + Answers(s, key, f.progress.answer, f.progress.read))
    case Drop(who) => s.(entries := s.entries - About(s.entries, who))
  }

  ghost function Next(s: State, step: Step): State
    requires Enabled(s, step) && s.past != []
  {
    var s' := Effect(s, step);
    s'.(past := s'.past + [Instant(s'.now, s'.tables)])
  }

  ghost predicate IsRun(s: State, steps: seq<Step>)
    requires s.past != []
    decreases |steps|
  {
    steps == [] || (Enabled(s, steps[0]) && IsRun(Next(s, steps[0]), steps[1..]))
  }

  ghost function After(s: State, steps: seq<Step>): State
    requires s.past != [] && IsRun(s, steps)
    decreases |steps|
  {
    if steps == [] then s else After(Next(s, steps[0]), steps[1..])
  }

  ghost predicate TimelyRun(s: State, steps: seq<Step>)
    requires s.past != [] && IsRun(s, steps)
    decreases |steps|
  {
    steps == [] || (Timely(s, steps[0]) && TimelyRun(Next(s, steps[0]), steps[1..]))
  }

  // ---------- What every run keeps ----------

  /** `answer` is what the database said of k at instant n of the run. */
  ghost predicate WasTrue(past: seq<Instant>, k: Key, answer: Answer, n: nat)
  {
    n < |past| && answer == AnswerOf(past[n].tables, k)
  }

  ghost predicate PastOk(s: State)
  {
    s.past != [] && s.past[|s.past| - 1] == Instant(s.now, s.tables)
  }

  ghost predicate EntryOk(s: State, key: string)
    requires key in s.entries && key in s.origin
  {
    var o, e := s.origin[key], s.entries[key];
    && Plain(o.k) && Text(o.k) == key && WasTrue(s.past, o.k, e.answer, o.read)
    && e.expires <= s.past[o.read].now + s.longest + TTL
  }

  ghost predicate EntriesOk(s: State)
  {
    |s.entries| <= MAX_SIZE && forall key :: key in s.entries ==> key in s.origin && EntryOk(s, key)
  }

  ghost predicate FlightFits(past: seq<Instant>, now: Time, longest: nat, key: string, f: Flight)
  {
    && Plain(f.k) && Text(f.k) == key && f.started <= now <= f.started + longest
    && match f.progress
       case HasRead(answer, read) => WasTrue(past, f.k, answer, read) && f.started <= past[read].now
       case Cached(answer, read) => WasTrue(past, f.k, answer, read) && f.started <= past[read].now
       case _ => true
  }

  ghost predicate FlightOk(s: State, key: string)
    requires key in s.flights
  {
    FlightFits(s.past, s.now, s.longest, key, s.flights[key])
  }

  ghost predicate FlightsOk(s: State)
  {
    && (forall key :: key in s.flights ==> FlightOk(s, key))
    && (forall r :: r in s.requests ==> Plain(s.requests[r].k))
  }

  ghost predicate RecentlyTrue(s: State, v: Served)
  {
    && v.read <= v.at < |s.past|
    && WasTrue(s.past, v.k, v.answer, v.read)
    && s.past[v.at].now <= s.past[v.read].now + s.longest + TTL
  }

  ghost predicate ServedOk(s: State)
  {
    forall v :: v in s.served ==> RecentlyTrue(s, v)
  }

  /** Every flight has a request waiting for it. */
  ghost predicate Attended(s: State)
  {
    forall key :: key in s.flights ==> HasWaiter(s, key)
  }

  ghost predicate HasWaiter(s: State, key: string)
  {
    exists r :: r in s.requests && WaitsFor(s.requests[r], key)
  }

  ghost predicate Inv(s: State)
  {
    PastOk(s) && EntriesOk(s) && FlightsOk(s) && ServedOk(s)
  }

  lemma PastKept(s: State, step: Step)
    requires Enabled(s, step) && PastOk(s)
    ensures PastOk(Next(s, step))
    ensures |Next(s, step).past| == |s.past| + 1 && Next(s, step).longest == s.longest
    ensures forall n :: 0 <= n < |s.past| ==> Next(s, step).past[n] == s.past[n]
  {
  }

  /** An entry the step leaves alone stays as good as it was. */
  lemma EntryStays(s: State, step: Step, key: string)
    requires Enabled(s, step) && PastOk(s)
    requires key in s.entries && key in s.origin && EntryOk(s, key)
    requires key in Next(s, step).entries && Next(s, step).entries[key] == s.entries[key]
    requires key in Next(s, step).origin && Next(s, step).origin[key] == s.origin[key]
    ensures EntryOk(Next(s, step), key)
  {
    PastKept(s, step);
    hide Next, Enabled, AnswerOf, PastOk;
  }

  /** Only Put adds entries, and only for its own key. */
  lemma EntriesFrame(s: State, step: Step, key: string)
    requires Enabled(s, step) && PastOk(s) && |s.entries| <= MAX_SIZE && key in Next(s, step).entries
    requires !(step.Put? && step.key == key)
    ensures key in s.entries && Next(s, step).entries[key] == s.entries[key]
    ensures key in s.origin ==> key in Next(s, step).origin && Next(s, step).origin[key] == s.origin[key]
  {
    hide MakesRoom, About, AnswerOf, Hit, Answers;
    if step.Put? {
      RoomMade(s.entries, s.now, step.left);
    }
  }

  lemma NextEntries(s: State, step: Step)
    requires Enabled(s, step) && PastOk(s)
    ensures step.Put? ==> MakesRoom(s.entries, s.now, step.left) && |Next(s, step).entries| <= |step.left| + 1
    ensures !step.Put? ==> PartOf(Next(s, step).entries, s.entries)
  {
    hide MakesRoom, AnswerOf, Hit, Answers, About;
  }

  lemma SizeKept(s: State, step: Step)
    requires Enabled(s, step) && PastOk(s) && |s.entries| <= MAX_SIZE
    ensures |Next(s, step).entries| <= MAX_SIZE
  {
    NextEntries(s, step);
    hide Next, Enabled, PartOf, MakesRoom;
    if step.Put? {
      RoomMade(s.entries, s.now, step.left);
    } else {
      PartSize(Next(s, step).entries, s.entries);
    }
  }

  lemma NewEntryOk(s: State, step: Step)
    requires Enabled(s, step) && PastOk(s) && step.Put? && FlightOk(s, step.key)
    ensures step.key in Next(s, step).entries && step.key in Next(s, step).origin && EntryOk(Next(s, step), step.key)
  {
    PastKept(s, step);
    hide MakesRoom, AnswerOf;
  }

  lemma EntriesKept(s: State, step: Step)
    requires Enabled(s, step) && PastOk(s) && EntriesOk(s) && FlightsOk(s)
    ensures EntriesOk(Next(s, step))
  {
    SizeKept(s, step);
    hide Next, Enabled, EntryOk, FlightOk;
    forall key | key in Next(s, step).entries
      ensures key in Next(s, step).origin && EntryOk(Next(s, step), key)
    {
      if step.Put? && step.key == key {
        assert key in s.flights by { PutHasFlight(s, step); }
        NewEntryOk(s, step);
      } else {
        EntriesFrame(s, step, key);
        EntryStays(s, step, key);
      }
    }
  }

  lemma PutHasFlight(s: State, step: Step)
    requires Enabled(s, step) && step.Put?
    ensures step.key in s.flights
  {
  }

  /** A flight the step leaves alone, or the same flight at another stage. */
  lemma FlightFrame(s: State, step: Step, key: string)
    requires Enabled(s, step) && PastOk(s) && FlightsOk(s) && key in Next(s, step).flights
    ensures key !in s.flights ==>
      step.Join? && step.r in s.requests && Next(s, step).flights[key] == Flight(s.requests[step.r].k, s.now, Querying)
      && Text(s.requests[step.r].k) == key
    ensures key in s.flights ==> var f, f' := s.flights[key], Next(s, step).flights[key];
      && f'.k == f.k && f'.started == f.started
      && (|| f'.progress == f.progress || f'.progress.Broken?
          || f'.progress == HasRead(AnswerOf(s.tables, f.k), Present(s))
          || (f.progress.HasRead? && f'.progress == Cached(f.progress.answer, f.progress.read)))
  {
    hide MakesRoom, Answers, Hit, AnswerOf, FlightOk, Plain;
  }

  lemma NowGrows(s: State, step: Step)
    requires Enabled(s, step) && PastOk(s)
    ensures s.now <= Next(s, step).now
    ensures Timely(s, step) ==> forall key :: key in s.flights && s.now <= s.flights[key].started + s.longest ==>
      Next(s, step).now <= s.flights[key].started + s.longest
    ensures step.Join? ==> Next(s, step).now == s.now
  {
    hide MakesRoom, Answers, Hit, AnswerOf;
  }

  lemma FitsLater(past: seq<Instant>, past': seq<Instant>, now: Time, now': Time, longest: nat, key: string,
                  f: Flight, f': Flight)
    requires FlightFits(past, now, longest, key, f) && past != [] && past[|past| - 1].now == now
    requires |past| <= |past'| && (forall n :: 0 <= n < |past| ==> past'[n] == past[n])
    requires now <= now' <= f.started + longest && f'.k == f.k && f'.started == f.started
    requires || f'.progress == f.progress || f'.progress.Broken?
             || f'.progress == HasRead(AnswerOf(past[|past| - 1].tables, f.k), |past| - 1)
             || (f.progress.HasRead? && f'.progress == Cached(f.progress.answer, f.progress.read))
    ensures FlightFits(past', now', longest, key, f')
  {
    hide AnswerOf, Plain, Text;
  }

  lemma FlightKept(s: State, step: Step, key: string)
    requires Enabled(s, step) && Timely(s, step) && PastOk(s) && FlightsOk(s)
    requires key in Next(s, step).flights
    ensures FlightOk(Next(s, step), key)
  {
    PastKept(s, step);
    FlightFrame(s, step, key);
    NowGrows(s, step);
    hide Next, Enabled, AnswerOf, Plain, Timely;
    if key in s.flights {
      assert FlightOk(s, key);
      hide FlightFits, FlightsOk;
      FitsLater(s.past, Next(s, step).past, s.now, Next(s, step).now, s.longest, key, s.flights[key],
                Next(s, step).flights[key]);
    }
  }

  lemma FlightsKept(s: State, step: Step)
    requires Enabled(s, step) && Timely(s, step) && PastOk(s) && FlightsOk(s)
    ensures FlightsOk(Next(s, step))
  {
    RequestsPlain(s, step);
    hide Next, Enabled, FlightOk, Plain;
    forall key | key in Next(s, step).flights
      ensures FlightOk(Next(s, step), key)
    {
      FlightKept(s, step, key);
    }
  }

  lemma RequestsPlain(s: State, step: Step)
    requires Enabled(s, step) && PastOk(s) && FlightsOk(s)
    ensures forall r :: r in Next(s, step).requests ==> Plain(Next(s, step).requests[r].k)
  {
    hide FlightOk, Plain, MakesRoom, Answers, Hit, AnswerOf;
  }

  lemma ServedFromCache(s: State, r: RequestId, k: Key, v: Served)
    requires Enabled(s, Ask(r, k)) && PastOk(s) && EntriesOk(s)
    requires v in Next(s, Ask(r, k)).served && v !in s.served
    ensures RecentlyTrue(s, v)
  {
    hide AnswerOf, Plain, Text;
    var o := s.origin[Text(k)];
    assert EntryOk(s, Text(k));
    KeysAreDistinct(k, o.k);
  }

  lemma ServedByFlight(s: State, key: string, v: Served)
    requires Enabled(s, Finish(key)) && PastOk(s) && FlightsOk(s)
    requires v in Next(s, Finish(key)).served && v !in s.served
    ensures RecentlyTrue(s, v)
  {
    hide AnswerOf, Plain, Text;
    var f := s.flights[key];
    assert FlightOk(s, key);
    var r :| r in s.requests && WaitsFor(s.requests[r], key) && v.k == s.requests[r].k;
    KeysAreDistinct(v.k, f.k);
  }

  lemma OnlyTheseServe(s: State, step: Step)
    requires Enabled(s, step) && PastOk(s) && !step.Ask? && !step.Finish?
    ensures Next(s, step).served == s.served
  {
    hide AnswerOf, MakesRoom, Answers, Hit;
  }

  /** What a step serves is a recent answer of the database. */
  lemma NewlyServed(s: State, step: Step, v: Served)
    requires Enabled(s, step) && PastOk(s) && EntriesOk(s) && FlightsOk(s)
    requires v in Next(s, step).served && v !in s.served
    ensures RecentlyTrue(s, v)
  {
    hide Next, Enabled, EntriesOk, FlightsOk, RecentlyTrue;
    if step.Ask? {
      ServedFromCache(s, step.r, step.k, v);
    } else if step.Finish? {
      ServedByFlight(s, step.key, v);
    } else {
      OnlyTheseServe(s, step);
    }
  }

  lemma StaysRecentlyTrue(s: State, step: Step, v: Served)
    requires Enabled(s, step) && PastOk(s) && RecentlyTrue(s, v)
    ensures RecentlyTrue(Next(s, step), v)
  {
    PastKept(s, step);
    hide Next, Enabled, AnswerOf, PastOk;
  }

  lemma ServedKept(s: State, step: Step)
    requires Enabled(s, step) && PastOk(s) && EntriesOk(s) && FlightsOk(s) && ServedOk(s)
    ensures ServedOk(Next(s, step))
  {
    hide Next, Enabled, EntriesOk, FlightsOk, RecentlyTrue;
    forall v | v in Next(s, step).served
      ensures RecentlyTrue(Next(s, step), v)
    {
      if v !in s.served {
        NewlyServed(s, step, v);
      }
      StaysRecentlyTrue(s, step, v);
    }
  }

  lemma StartOk(longest: nat)
    ensures Inv(Start(longest)) && Attended(Start(longest))
  {
  }

  lemma InvKept(s: State, step: Step)
    requires Enabled(s, step) && Timely(s, step) && Inv(s)
    ensures Inv(Next(s, step))
  {
    PastKept(s, step);
    EntriesKept(s, step);
    FlightsKept(s, step);
    ServedKept(s, step);
    hide Next, Enabled, Timely, PastOk, EntriesOk, FlightsOk, ServedOk;
  }

  lemma {:induction false} InvAfter(s: State, steps: seq<Step>)
    requires Inv(s) && IsRun(s, steps) && TimelyRun(s, steps)
    ensures Inv(After(s, steps)) && After(s, steps).longest == s.longest
    decreases |steps|
  {
    if steps != [] {
      InvKept(s, steps[0]);
      PastKept(s, steps[0]);
      hide Inv, Enabled, Timely, Next;
      InvAfter(Next(s, steps[0]), steps[1..]);
    }
  }

  /** Every instant of a run is in its history, unchanged. */
  lemma {:induction false} PastIsTheRun(s: State, steps: seq<Step>, n: nat)
    requires PastOk(s) && IsRun(s, steps) && n <= |steps|
    ensures IsRun(s, steps[..n]) && |After(s, steps).past| == |s.past| + |steps|
    ensures var mid := After(s, steps[..n]);
      After(s, steps).past[|s.past| - 1 + n] == Instant(mid.now, mid.tables)
    ensures forall k :: 0 <= k < |s.past| ==> After(s, steps).past[k] == s.past[k]
    decreases |steps|
  {
    if steps != [] {
      PastKept(s, steps[0]);
      hide Next, Enabled;
      var s' := Next(s, steps[0]);
      assert PastOk(s');
      if n == 0 {
        PastIsTheRun(s', steps[1..], 0);
      } else {
        PastIsTheRun(s', steps[1..], n - 1);
        assert steps[..n][0] == steps[0] && steps[..n][1..] == steps[1..][..n - 1];
      }
    }
  }

  /** Every answer a lookup serves is what the database said at an instant of the run at most 15 seconds and one
      flight earlier, about the same resource and the same user; and the map never outgrows its limit. */
  lemma CacheRefinesDirectLookup(longest: nat, steps: seq<Step>)
    requires IsRun(Start(longest), steps) && TimelyRun(Start(longest), steps)
    ensures var s := After(Start(longest), steps);
      && |s.entries| <= 8192
      && forall v :: v in s.served ==>
        && v.read <= v.at < |s.past|
        && v.answer == AnswerOf(s.past[v.read].tables, v.k)
        && s.past[v.at].now - s.past[v.read].now <= 15_000 + longest
        && v.answer.grant.user == v.k.user
        && var tables := s.past[v.read].tables;
        && (v.answer.found <==> v.k in tables)
        && (v.k in tables ==> v.answer.grant.org == tables[v.k].org && v.answer.grant.role == tables[v.k].role)
  {
    StartOk(longest);
    InvAfter(Start(longest), steps);
    hide IsRun, TimelyRun, After;
    var s := After(Start(longest), steps);
    forall v | v in s.served
      ensures RecentlyTrue(s, v)
    {
    }
  }

  // ---------- What the cache is for ----------

  /** A lookup of k gets this answer at this instant. */
  ghost predicate Gives(v: Served, k: Key, answer: Answer, at: int)
  {
    v.k == k && v.answer == answer && v.at == at
  }

  /** A request is answered at once exactly when its key has an unexpired entry, and with that entry; otherwise it has
      missed. */
  lemma AskHitsIff(s: State, r: RequestId, k: Key)
    requires Enabled(s, Ask(r, k)) && s.past != []
    ensures var s', key := Next(s, Ask(r, k)), Text(k);
      if key in s.entries && s.now <= s.entries[key].expires
      then && s'.requests == s.requests
           && exists v :: Gives(v, k, s.entries[key].answer, |s.past| - 1) && s'.served == s.served + {v}
      else s'.requests == s.requests[r := Missed(k)] && s'.served == s.served
  {
    var key := Text(k);
    if key in s.entries && s.now <= s.entries[key].expires {
      var v := Served(k, s.entries[key].answer, ReadOf(s, key), |s.past| - 1);
      assert Gives(v, k, s.entries[key].answer, |s.past| - 1) && Next(s, Ask(r, k)).served == s.served + {v};
    }
  }

  /** A request that has missed shares the flight for its key if there is one, and otherwise starts it, so there is
      never more than one query for a key. */
  lemma JoinShares(s: State, r: RequestId)
    requires Enabled(s, Join(r)) && s.past != []
    ensures var s', k := Next(s, Join(r)), s.requests[r].k;
      && s'.requests == s.requests[r := Joined(k)]
      && s'.flights == if Text(k) in s.flights then s.flights
                       else s.flights[Text(k) := Flight(k, s.now, Querying)]
  {
  }

  /** A flight that has cached its answer gives it to everyone who waits for its key, and to nobody else. */
  lemma FinishServesWaiters(s: State, key: string, r: RequestId)
    requires Enabled(s, Finish(key)) && s.past != [] && s.flights[key].progress.Cached? && r in s.requests
    ensures var s', mine := Next(s, Finish(key)), s.requests[r].Joined? && Text(s.requests[r].k) == key;
      && key !in s'.flights && (r in s'.requests <==> !mine)
      && (mine ==> exists v ::
            Gives(v, s.requests[r].k, s.flights[key].progress.answer, |s.past| - 1) && v in s'.served)
  {
    var p := s.flights[key].progress;
    var v := Served(s.requests[r].k, p.answer, p.read, |s.past| - 1);
    if WaitsFor(s.requests[r], key) {
      assert v in Answers(s, key, p.answer, p.read) && Gives(v, s.requests[r].k, p.answer, |s.past| - 1);
    }
  }

  /** When the query fails nothing is cached, and everyone waiting is sent away without an answer. */
  lemma FailedQueryServesNobody(s: State, key: string)
    requires Enabled(s, Break(key)) && s.past != []
    ensures Enabled(Next(s, Break(key)), Finish(key))
    ensures var s' := Next(Next(s, Break(key)), Finish(key));
      && s'.entries == s.entries && s'.served == s.served && key !in s'.flights
      && forall r :: r in s'.requests <==> r in s.requests && !(s.requests[r].Joined? && Text(s.requests[r].k) == key)
  {
  }

  /** Nothing in the run takes this entry away: no invalidation it concerns, no other answer for the key, and no
      eviction that drops it. */
  ghost predicate Undisturbed(s: State, steps: seq<Step>, key: string, answer: Answer)
    requires s.past != [] && IsRun(s, steps)
    decreases |steps|
  {
    steps == [] || (Leaves(steps[0], key, answer) && Undisturbed(Next(s, steps[0]), steps[1..], key, answer))
  }

  ghost predicate Leaves(step: Step, key: string, answer: Answer)
  {
    match step
    case Drop(User(id)) => answer.grant.user != id
    case Drop(Org(id)) => answer.grant.org != id
    case Put(other, left) => other != key && key in left
    case _ => true
  }

  lemma EntryKept(s: State, step: Step, key: string)
    requires Enabled(s, step) && s.past != [] && key in s.entries
    requires Leaves(step, key, s.entries[key].answer)
    ensures key in Next(s, step).entries && Next(s, step).entries[key] == s.entries[key]
  {
    if step.Put? {
      LeftIsPart(s.entries, s.now, step.left);
    }
  }

  lemma LeftIsPart(before: Entries, now: Time, left: Entries)
    requires MakesRoom(before, now, left)
    ensures PartOf(left, before)
  {
  }

  lemma {:induction false} EntryLasts(s: State, steps: seq<Step>, key: string)
    requires s.past != [] && IsRun(s, steps) && key in s.entries && Undisturbed(s, steps, key, s.entries[key].answer)
    ensures var e := After(s, steps); key in e.entries && e.entries[key] == s.entries[key] && e.past != []
    decreases |steps|
  {
    if steps != [] {
      EntryKept(s, steps[0], key);
      hide Enabled, Effect;
      EntryLasts(Next(s, steps[0]), steps[1..], key);
    }
  }

  /** A cached answer is served to everyone who asks for its key within 15 seconds, as long as nothing takes it away. */
  lemma AnswerLasts(s: State, key: string, left: Entries, steps: seq<Step>, r: RequestId, k: Key)
    requires s.past != [] && Enabled(s, Put(key, left)) && IsRun(Next(s, Put(key, left)), steps)
    requires Undisturbed(Next(s, Put(key, left)), steps, key, s.flights[key].progress.answer)
    requires var e := After(Next(s, Put(key, left)), steps);
      e.past != [] && Enabled(e, Ask(r, k)) && Text(k) == key && e.now <= s.now + 15_000
    ensures var e := After(Next(s, Put(key, left)), steps);
      exists v ::
        Gives(v, k, s.flights[key].progress.answer, |e.past| - 1) && v in Next(e, Ask(r, k)).served
  {
    var s1 := Next(s, Put(key, left));
    assert s1.entries[key] == Entry(s.flights[key].progress.answer, s.now + 15_000);
    EntryLasts(s1, steps, key);
    AskHitsIff(After(s1, steps), r, k);
  }

  // ---------- Invalidation ----------

  ghost predicate EntryFresh(s: State, who: Subject, n: nat, key: string)
    requires key in s.entries
  {
    key in s.origin && Concerns(who, s.entries[key].answer) ==> s.origin[key].read >= n
  }

  ghost predicate FlightFresh(s: State, who: Subject, n: nat, key: string)
    requires key in s.flights
  {
    var p := s.flights[key].progress;
    (p.HasRead? || p.Cached?) && Concerns(who, p.answer) ==> p.read >= n
  }

  ghost predicate ServedFresh(who: Subject, n: nat, v: Served)
  {
    Concerns(who, v.answer) && v.at >= n ==> v.read >= n
  }

  /** Nothing held about the subject, and nothing served about them since instant n, was read before instant n. */
  ghost predicate FreshSince(s: State, who: Subject, n: nat)
  {
    && n <= Present(s)
    && (forall key :: key in s.entries ==> EntryFresh(s, who, n, key))
    && (forall key :: key in s.flights ==> FlightFresh(s, who, n, key))
    && (forall v :: v in s.served ==> ServedFresh(who, n, v))
  }

  /** A flight whose query has been answered, about the subject. */
  ghost predicate HasReadFor(s: State, key: string, who: Subject)
  {
    && key in s.flights && (s.flights[key].progress.HasRead? || s.flights[key].progress.Cached?)
    && Concerns(who, s.flights[key].progress.answer)
  }

  lemma DropMakesFresh(s: State, who: Subject)
    requires Inv(s) && forall key :: !HasReadFor(s, key, who)
    ensures FreshSince(Next(s, Drop(who)), who, |s.past|)
  {
    var s' := Next(s, Drop(who));
    hide WasTrue, Concerns;
    forall v | v in s'.served
      ensures ServedFresh(who, |s.past|, v)
    {
      assert RecentlyTrue(s, v);
    }
    forall key | key in s'.flights
      ensures FlightFresh(s', who, |s.past|, key)
    {
      assert !HasReadFor(s, key, who);
    }
  }

  lemma EntryFreshKept(s: State, step: Step, who: Subject, n: nat, key: string)
    requires Enabled(s, step) && Inv(s) && FreshSince(s, who, n) && key in Next(s, step).entries
    ensures EntryFresh(Next(s, step), who, n, key)
  {
    if step.Put? && step.key == key {
      assert FlightFresh(s, who, n, key) && FlightOk(s, key);
      hide MakesRoom, AnswerOf, Plain, Text, Concerns;
    } else {
      EntriesFrame(s, step, key);
      hide Next, Enabled, Concerns;
      assert EntryFresh(s, who, n, key);
    }
  }

  lemma FlightFreshKept(s: State, step: Step, who: Subject, n: nat, key: string)
    requires Enabled(s, step) && Inv(s) && FreshSince(s, who, n) && key in Next(s, step).flights
    ensures FlightFresh(Next(s, step), who, n, key)
  {
    hide Next, Enabled, AnswerOf, Text, Concerns, EntriesOk, ServedOk, Plain;
    FlightFrame(s, step, key);
    if key in s.flights {
      assert FlightFresh(s, who, n, key);
    }
  }

  lemma ServedFreshKept(s: State, step: Step, who: Subject, n: nat, v: Served)
    requires Enabled(s, step) && Inv(s) && FreshSince(s, who, n) && v in Next(s, step).served && v !in s.served
    ensures ServedFresh(who, n, v)
  {
    if step.Ask? {
      AskServesFresh(s, step.r, step.k, who, n, v);
    } else if step.Finish? {
      FinishServesFresh(s, step.key, who, n, v);
    } else {
      OnlyTheseServe(s, step);
    }
  }

  lemma AskServesFresh(s: State, r: RequestId, k: Key, who: Subject, n: nat, v: Served)
    requires Enabled(s, Ask(r, k)) && Inv(s) && FreshSince(s, who, n)
    requires v in Next(s, Ask(r, k)).served && v !in s.served
    ensures ServedFresh(who, n, v)
  {
    hide AnswerOf, Plain, Text, Concerns, FlightsOk, ServedOk;
    assert EntryOk(s, Text(k)) && EntryFresh(s, who, n, Text(k));
  }

  lemma FinishServesFresh(s: State, key: string, who: Subject, n: nat, v: Served)
    requires Enabled(s, Finish(key)) && Inv(s) && FreshSince(s, who, n)
    requires v in Next(s, Finish(key)).served && v !in s.served
    ensures ServedFresh(who, n, v)
  {
    hide AnswerOf, Plain, Text, Concerns, EntriesOk, ServedOk;
    assert FlightOk(s, key) && FlightFresh(s, who, n, key);
  }

  lemma FreshKept(s: State, step: Step, who: Subject, n: nat)
    requires Enabled(s, step) && Inv(s) && FreshSince(s, who, n)
    ensures FreshSince(Next(s, step), who, n)
  {
    PastKept(s, step);
    hide Next, Enabled, EntryFresh, FlightFresh, ServedFresh;
    var s' := Next(s, step);
    forall key | key in s'.entries
      ensures EntryFresh(s', who, n, key)
    {
      EntryFreshKept(s, step, who, n, key);
    }
    forall key | key in s'.flights
      ensures FlightFresh(s', who, n, key)
    {
      FlightFreshKept(s, step, who, n, key);
    }
    forall v | v in s'.served
      ensures ServedFresh(who, n, v)
    {
      if v !in s.served {
        ServedFreshKept(s, step, who, n, v);
      }
    }
  }

  lemma {:induction false} FreshAfter(s: State, steps: seq<Step>, who: Subject, n: nat)
    requires Inv(s) && FreshSince(s, who, n) && IsRun(s, steps) && TimelyRun(s, steps)
    ensures FreshSince(After(s, steps), who, n)
    decreases |steps|
  {
    if steps != [] {
      InvKept(s, steps[0]);
      FreshKept(s, steps[0], who, n);
      PastKept(s, steps[0]);
      hide Inv, Enabled, Timely, Next, FreshSince;
      FreshAfter(Next(s, steps[0]), steps[1..], who, n);
    }
  }

  lemma AttendedKept(s: State, step: Step)
    requires Enabled(s, step) && PastOk(s) && FlightsOk(s) && Attended(s)
    ensures Attended(Next(s, step))
  {
    hide Next, Enabled, FlightsOk;
    forall key | key in Next(s, step).flights
      ensures HasWaiter(Next(s, step), key)
    {
      WaiterStays(s, step, key);
    }
  }

  lemma WaiterStays(s: State, step: Step, key: string)
    requires Enabled(s, step) && PastOk(s) && key in Next(s, step).flights
    requires key in s.flights ==> HasWaiter(s, key)
    ensures HasWaiter(Next(s, step), key)
  {
    hide MakesRoom, Answers, Hit, AnswerOf, Plain, Text;
    var s' := Next(s, step);
    if key in s.flights {
      var r :| r in s.requests && WaitsFor(s.requests[r], key);
      assert r in s'.requests && WaitsFor(s'.requests[r], key);
    } else {
      assert WaitsFor(s'.requests[step.r], key);
    }
  }

  lemma {:induction false} AttendedAfter(s: State, steps: seq<Step>)
    requires Inv(s) && Attended(s) && IsRun(s, steps) && TimelyRun(s, steps)
    ensures Attended(After(s, steps))
    decreases |steps|
  {
    if steps != [] {
      InvKept(s, steps[0]);
      AttendedKept(s, steps[0]);
      PastKept(s, steps[0]);
      hide Inv, Enabled, Timely, Next, Attended;
      AttendedAfter(Next(s, steps[0]), steps[1..]);
    }
  }

  /** After invalidating `who` in state s, some continuation serves an answer about them read before that instant. */
  ghost predicate MayServeEarlier(s: State, who: Subject)
    requires s.past != []
  {
    var dropped := Next(s, Drop(who));
    exists steps, v ::
      IsRun(dropped, steps) && TimelyRun(dropped, steps) && ServesEarlier(s, After(dropped, steps), v, who)
  }

  ghost predicate ServesEarlier(s: State, later: State, v: Served, who: Subject)
  {
    v in later.served && Concerns(who, v.answer) && v.at >= |s.past| > v.read
  }

  lemma StepOnce(s: State, step: Step)
    requires s.past != [] && Enabled(s, step) && !step.Tick?
    ensures IsRun(s, [step]) && TimelyRun(s, [step]) && After(s, [step]) == Next(s, step)
  {
    assert [step][1..] == [];
  }

  lemma StepTwice(s: State, one: Step, two: Step)
    requires s.past != [] && Enabled(s, one) && !one.Tick? && Enabled(Next(s, one), two) && !two.Tick?
    ensures IsRun(s, [one, two]) && TimelyRun(s, [one, two]) && After(s, [one, two]) == Next(Next(s, one), two)
  {
    StepOnce(Next(s, one), two);
    assert [one, two][1..] == [two];
  }

  /** Finishing a flight serves whoever waits for it. */
  lemma FinishServes(s: State, key: string, r: RequestId)
    requires s.past != [] && key in s.flights && s.flights[key].progress.Cached?
    requires r in s.requests && WaitsFor(s.requests[r], key)
    ensures Enabled(s, Finish(key))
    ensures Served(s.requests[r].k, s.flights[key].progress.answer, s.flights[key].progress.read, Present(s))
      in Next(s, Finish(key)).served
  {
  }

  lemma DropSpares(s: State, who: Subject)
    requires s.past != []
    ensures var dropped := Next(s, Drop(who));
      dropped.flights == s.flights && dropped.requests == s.requests && |dropped.past| == |s.past| + 1
  {
  }

  lemma CachedServesEarlier(s: State, who: Subject, key: string, r: RequestId)
    requires s.past != [] && HasReadFor(s, key, who) && s.flights[key].progress.Cached?
    requires s.flights[key].progress.read < |s.past|
    requires r in s.requests && WaitsFor(s.requests[r], key)
    ensures MayServeEarlier(s, who)
  {
    var dropped := Next(s, Drop(who));
    var p := s.flights[key].progress;
    DropSpares(s, who);
    FinishServes(dropped, key, r);
    StepOnce(dropped, Finish(key));
    hide Next, Text;
    assert ServesEarlier(s, After(dropped, [Finish(key)]),
                         Served(s.requests[r].k, p.answer, p.read, Present(dropped)), who);
  }

  lemma PutCaches(s: State, key: string, left: Entries)
    requires s.past != [] && Enabled(s, Put(key, left))
    ensures var p, stored := s.flights[key].progress, Next(s, Put(key, left));
      && stored.requests == s.requests && |stored.past| == |s.past| + 1
      && key in stored.flights && stored.flights[key].progress == Cached(p.answer, p.read)
  {
    hide MakesRoom;
  }

  lemma HasReadServesEarlier(s: State, who: Subject, key: string, r: RequestId)
    requires s.past != [] && HasReadFor(s, key, who) && s.flights[key].progress.HasRead?
    requires s.flights[key].progress.read < |s.past|
    requires r in s.requests && WaitsFor(s.requests[r], key)
    ensures MayServeEarlier(s, who)
  {
    var dropped := Next(s, Drop(who));
    var p := s.flights[key].progress;
    DropSpares(s, who);
    var left := SomeRoom(dropped.entries, dropped.now);
    hide Next, Text, MakesRoom;
    PutCaches(dropped, key, left);
    var stored := Next(dropped, Put(key, left));
    FinishServes(stored, key, r);
    StepTwice(dropped, Put(key, left), Finish(key));
    assert ServesEarlier(s, After(dropped, [Put(key, left), Finish(key)]),
                         Served(s.requests[r].k, p.answer, p.read, Present(stored)), who);
  }

  lemma FlightServesEarlier(s: State, who: Subject, key: string)
    requires Inv(s) && Attended(s) && HasReadFor(s, key, who)
    ensures MayServeEarlier(s, who)
  {
    hide Text, Plain, AnswerOf, RecentlyTrue, MayServeEarlier;
    assert FlightOk(s, key) && HasWaiter(s, key);
    var r :| r in s.requests && WaitsFor(s.requests[r], key);
    if s.flights[key].progress.Cached? {
      CachedServesEarlier(s, who, key, r);
    } else {
      HasReadServesEarlier(s, who, key, r);
    }
  }

  /** invalidateUser and invalidateOrg put an end to earlier answers about the user, or granted in the organization,
      exactly when no flight with such an answer has heard from the database yet; one still waiting for its query does
      no harm. */
  lemma InvalidationIsFinalIff(longest: nat, steps: seq<Step>, who: Subject)
    requires IsRun(Start(longest), steps) && TimelyRun(Start(longest), steps)
    ensures After(Start(longest), steps).past != []
    ensures MayServeEarlier(After(Start(longest), steps), who) <==>
      exists key :: HasReadFor(After(Start(longest), steps), key, who)
  {
    StartOk(longest);
    InvAfter(Start(longest), steps);
    AttendedAfter(Start(longest), steps);
    var s := After(Start(longest), steps);
    hide IsRun, TimelyRun, After;
    if key :| HasReadFor(s, key, who) {
      FlightServesEarlier(s, who, key);
    } else {
      DropMakesFresh(s, who);
      InvKept(s, Drop(who));
      hide Inv, Next, Enabled;
      var dropped := Next(s, Drop(who));
      forall rest, v | IsRun(dropped, rest) && TimelyRun(dropped, rest)
        ensures !ServesEarlier(s, After(dropped, rest), v, who)
      {
        FreshAfter(dropped, rest, who, |s.past|);
        if v in After(dropped, rest).served {
          assert ServedFresh(who, |s.past|, v);
        }
      }
    }
  }

  // ---------- Runs that serve what is no longer true ----------

  const MEMBER: Key := Key("orgID", "o", "u")
  const ROW: Row := Row("o", "viewer")

  ghost predicate Leads(s: State, steps: seq<Step>, s': State)
    requires s.past != []
  {
    IsRun(s, steps) && TimelyRun(s, steps) && After(s, steps) == s'
  }

  lemma StepAlone(s: State, step: Step)
    requires s.past != [] && Enabled(s, step) && Timely(s, step)
    ensures Leads(s, [step], Next(s, step))
  {
    assert [step][1..] == [];
  }

  lemma {:induction false} Then(s: State, steps: seq<Step>, mid: State, step: Step)
    requires s.past != [] && Leads(s, steps, mid) && mid.past != [] && Enabled(mid, step) && Timely(mid, step)
    ensures Leads(s, steps + [step], Next(mid, step))
    decreases |steps|
  {
    if steps == [] {
      StepAlone(s, step);
      assert steps + [step] == [step];
    } else {
      hide Enabled, Timely;
      Then(Next(s, steps[0]), steps[1..], mid, step);
      assert (steps + [step])[1..] == steps[1..] + [step];
    }
  }

  /** The database says the user is a member, and a lookup has read it. */
  lemma ReadsTheGrant() returns (steps: seq<Step>, s: State)
    ensures Leads(Start(0), steps, s) && |s.past| == 5 && s.tables == map[MEMBER := ROW]
    ensures s.requests == map[0 := Joined(MEMBER)] && s.entries == map[] && s.served == {}
    ensures s.flights == map[Text(MEMBER) := Flight(MEMBER, 0, HasRead(AnswerOf(s.tables, MEMBER), 3))]
    ensures s.now == 0
  {
    hide Leads, Text, IsRun, TimelyRun, After;
    steps, s := [], Start(0);
    assert Leads(s, [], s) by { NoSteps(s); }
    Then(Start(0), steps, s, Change(map[MEMBER := ROW]));
    steps, s := steps + [Change(map[MEMBER := ROW])], Next(s, Change(map[MEMBER := ROW]));
    Then(Start(0), steps, s, Ask(0, MEMBER));
    steps, s := steps + [Ask(0, MEMBER)], Next(s, Ask(0, MEMBER));
    Then(Start(0), steps, s, Join(0));
    steps, s := steps + [Join(0)], Next(s, Join(0));
    Then(Start(0), steps, s, Read(Text(MEMBER)));
    steps, s := steps + [Read(Text(MEMBER))], Next(s, Read(Text(MEMBER)));
  }

  lemma NoSteps(s: State)
    requires s.past != []
    ensures Leads(s, [], s)
  {
  }

  /** With the membership gone and the cache cleared, the lookup that had read the grant stores it and serves it. */
  lemma StoresAndServes(s: State, answer: Answer) returns (steps: seq<Step>, end: State)
    requires s.past != [] && s.requests == map[0 := Joined(MEMBER)] && s.entries == map[] && s.tables == map[]
    requires s.flights == map[Text(MEMBER) := Flight(MEMBER, 0, HasRead(answer, 3))] && s.now == 0
    ensures Leads(s, steps, end) && |end.past| == |s.past| + 2
    ensures Served(MEMBER, answer, 3, |s.past|) in end.served && end.past[|s.past|].tables == map[]
    ensures Text(MEMBER) in end.entries && end.entries[Text(MEMBER)].answer == answer
  {
    hide Leads, Text, IsRun, TimelyRun, After;
    var key := Text(MEMBER);
    NoSteps(s);
    Then(s, [], s, Put(key, map[]));
    var stored := Next(s, Put(key, map[]));
    FinishServes(stored, key, 0);
    Then(s, [] + [Put(key, map[])], stored, Finish(key));
    steps, end := [] + [Put(key, map[])] + [Finish(key)], Next(stored, Finish(key));
  }

  /** The answer is cached and served to the request that asked for it. */
  lemma CachesTheGrant() returns (steps: seq<Step>, s: State)
    ensures Leads(Start(0), steps, s) && s.past != []
    ensures s.entries == map[Text(MEMBER) := Entry(Answer(Grant("o", "viewer", "u"), true), 15_000)]
    ensures s.now == 0 && s.requests == map[] && s.flights == map[]
  {
    hide Leads, Text, IsRun, TimelyRun, After;
    steps, s := ReadsTheGrant();
    var key := Text(MEMBER);
    Then(Start(0), steps, s, Put(key, map[]));
    steps, s := steps + [Put(key, map[])], Next(s, Put(key, map[]));
    Then(Start(0), steps, s, Finish(key));
    steps, s := steps + [Finish(key)], Next(s, Finish(key));
    assert s.flights.Keys == {} && s.requests.Keys == {};
  }

  /** It is served for 15 seconds, to the millisecond, and not a millisecond longer. */
  lemma AnswerExpires() returns (steps: seq<Step>, s: State)
    ensures Leads(Start(0), steps, s) && s.past != [] && s.now == 15_001
    ensures s.requests == map[2 := Missed(MEMBER)]
    ensures exists v :: v in s.served && v.k == MEMBER && v.answer.found && 0 <= v.at < |s.past|
                        && s.past[v.at].now == 15_000
  {
    hide Leads, Text, IsRun, TimelyRun, After;
    steps, s := CachesTheGrant();
    Then(Start(0), steps, s, Tick(15_000));
    steps, s := steps + [Tick(15_000)], Next(s, Tick(15_000));
    var v := Served(MEMBER, s.entries[Text(MEMBER)].answer, ReadOf(s, Text(MEMBER)), Present(s));
    Then(Start(0), steps, s, Ask(1, MEMBER));
    steps, s := steps + [Ask(1, MEMBER)], Next(s, Ask(1, MEMBER));
    assert v in s.served;
    Then(Start(0), steps, s, Tick(1));
    steps, s := steps + [Tick(1)], Next(s, Tick(1));
    Then(Start(0), steps, s, Ask(2, MEMBER));
    steps, s := steps + [Ask(2, MEMBER)], Next(s, Ask(2, MEMBER));
  }

  /** The membership is removed and the user invalidated, and only after that the lookup stores its answer and serves
      it: a grant for a user the tables no longer know. */
  lemma RemovedMemberIsServed() returns (front: seq<Step>, s: State, back: seq<Step>, end: State, v: Served)
    ensures Leads(Start(0), front, s) && s.past != [] && MEMBER !in s.tables
    ensures Leads(Next(s, Drop(User("u"))), back, end)
    ensures v in end.served && v.k == MEMBER && v.answer.found && |s.past| <= v.at < |end.past|
    ensures MEMBER !in end.past[v.at].tables
    ensures Text(MEMBER) in end.entries && end.entries[Text(MEMBER)].answer.found
  {
    hide Leads, Text, IsRun, TimelyRun, After;
    front, s := ReadsTheGrant();
    var answer := AnswerOf(s.tables, MEMBER);
    Then(Start(0), front, s, Change(map[]));
    front, s := front + [Change(map[])], Next(s, Change(map[]));
    var dropped := Next(s, Drop(User("u")));
    assert dropped.entries == map[];
    back, end := StoresAndServes(dropped, answer);
    v := Served(MEMBER, answer, 3, |dropped.past|);
  }
}
