/** The in-memory cache of authorization answers (api/internal/authz/cache.go). */
module GrantCache {
  import opened Wrappers
  import opened Sequences

  type Time = int

  /** Times count milliseconds. */
  const TTL: Time := 15_000
  const MAX_SIZE: nat := 8192

  datatype Grant = Grant(org: string, role: string, user: string)

  /** What the database says: a grant, or no row, in which case the grant names only the user. */
  datatype Answer = Answer(grant: Grant, found: bool)

  datatype Entry = Entry(answer: Answer, expires: Time)

  type Entries = map<string, Entry>

  // ---------- Keys ----------

  datatype Key = Key(param: string, id: string, user: string)

  const NUL: char := '\0'

  function Text(k: Key): string
  {
    k.param + [NUL] + k.id + [NUL] + k.user
  }

  predicate Plain(k: Key)
  {
    NUL !in k.param && NUL !in k.user
  }

  lemma SplitFirst(a: string, b: string, x: string, y: string)
    requires NUL !in a && NUL !in x && a + [NUL] + b == x + [NUL] + y
    ensures a == x && b == y
  {
    var s := a + [NUL] + b;
    assert s[|a|] == NUL && s[|x|] == NUL;
    assert forall i :: 0 <= i < |a| ==> s[i] == a[i] != NUL;
    assert forall i :: 0 <= i < |x| ==> s[i] == x[i] != NUL;
    assert a == s[..|a|] && x == s[..|x|];
    assert b == s[|a| + 1..] && y == s[|x| + 1..];
  }

  lemma SplitLast(a: string, b: string, x: string, y: string)
    requires NUL !in b && NUL !in y && a + [NUL] + b == x + [NUL] + y
    ensures a == x && b == y
  {
    var s := a + [NUL] + b;
    assert s[|a|] == NUL && s[|x|] == NUL;
    assert forall i :: |a| < i < |s| ==> s[i] == b[i - |a| - 1] != NUL;
    assert forall i :: |x| < i < |s| ==> s[i] == y[i - |x| - 1] != NUL;
    assert a == s[..|a|] && x == s[..|x|];
    assert b == s[|a| + 1..] && y == s[|x| + 1..];
  }

  /** Two lookups share a key only when they ask the same thing, whatever the id contains. */
  lemma KeysAreDistinct(a: Key, b: Key)
    requires Plain(a) && Plain(b) && Text(a) == Text(b)
    ensures a == b
  {
    var restA, restB := a.id + [NUL] + a.user, b.id + [NUL] + b.user;
    assert Text(a) == a.param + [NUL] + restA && Text(b) == b.param + [NUL] + restB;
    SplitFirst(a.param, restA, b.param, restB);
    SplitLast(a.id, a.user, b.id, b.user);
  }

  // ---------- The operations on the map ----------

  predicate Expired(e: Entry, now: Time)
  {
    now > e.expires
  }

  function Unexpired(entries: Entries, now: Time): Entries
  {
    map k | k in entries && !Expired(entries[k], now) :: entries[k]
  }

  /** `after` is part of `before`, with the same values. */
  ghost predicate PartOf(after: Entries, before: Entries)
  {
    forall k :: k in after ==> k in before && after[k] == before[k]
  }

  /** evictLocked: the expired entries go; if the map is still full, half of the rest, whichever. */
  ghost predicate Evicts(before: Entries, now: Time, after: Entries)
  {
    var rest := Unexpired(before, now);
    if |rest| < MAX_SIZE then after == rest
    else PartOf(after, rest) && |after| == |rest| - |rest| / 2
  }

  /** Nothing expired is left, nothing is new, and below the limit nothing valid is lost; at the limit half of it is. */
  ghost predicate Halved(before: Entries, now: Time, after: Entries)
  {
    var valid := set k | k in before && now <= before[k].expires;
    && (forall k :: k in after ==> k in valid && after[k] == before[k])
    && |after| == if |valid| < 8192 then |valid| else |valid| - |valid| / 2
  }

  lemma EvictsHalf(before: Entries, now: Time, after: Entries)
    requires Evicts(before, now, after)
    ensures Halved(before, now, after)
  {
    assert (set k | k in before && now <= before[k].expires) == Unexpired(before, now).Keys;
    assert forall m: Entries :: |m| == |m.Keys|;
  }

  /** put makes room first, then stores the answer with a fresh expiry. */
  ghost predicate MakesRoom(before: Entries, now: Time, left: Entries)
  {
    if |before| < MAX_SIZE then left == before else Evicts(before, now, left)
  }

  lemma RoomMade(before: Entries, now: Time, left: Entries)
    requires |before| <= MAX_SIZE && MakesRoom(before, now, left)
    ensures |left| < MAX_SIZE && PartOf(left, before)
  {
    PartSize(Unexpired(before, now), before);
  }

  lemma PartSize(after: Entries, before: Entries)
    requires PartOf(after, before)
    ensures |after| <= |before|
  {
    assert after.Keys <= before.Keys;
    SubsetSize(after.Keys, before.Keys);
  }

  /** Whom an invalidation is about. */
  datatype Subject = User(id: string) | Org(id: string)

  predicate Concerns(who: Subject, a: Answer)
  {
    match who
    case User(id) => a.grant.user == id
    case Org(id) => a.grant.org == id
  }

  function About(entries: Entries, who: Subject): set<string>
  {
    set k | k in entries && Concerns(who, entries[k].answer)
  }

  class Cache {
    var entries: Entries
    var now: Time

    ghost predicate Valid()
      reads this
    {
      |entries| <= MAX_SIZE
    }

    constructor ()
      ensures Valid() && entries == map[]
    {
      entries, now := map[], 0;
    }

    method Get(key: string) returns (r: Option<Answer>)
      ensures r.Some? <==> key in entries && now <= entries[key].expires
      ensures r.Some? ==> r.value == entries[key].answer
    {
      if key !in entries || now > entries[key].expires {
        return None;
      }
      return Some(entries[key].answer);
    }

    method Put(key: string, answer: Answer) returns (ghost left: Entries)
      requires Valid()
      modifies this`entries
      ensures Valid() && MakesRoom(old(entries), now, left)
      ensures entries == left[key := Entry(answer, now + 15_000)]
      ensures |old(entries)| < 8192 ==> left == old(entries)
      ensures |old(entries)| >= 8192 ==> Halved(old(entries), now, left)
    {
      if |entries| >= MAX_SIZE {
        EvictLocked();
      }
      left := entries;
      RoomMade(old(entries), now, left);
      entries := entries[key := Entry(answer, now + TTL)];
    }

    method EvictLocked()
      modifies this`entries
      ensures Evicts(old(entries), now, entries) && Halved(old(entries), now, entries)
    {
      ghost var before := entries;
      var keys := entries.Keys;
      while keys != {}
        invariant keys <= entries.Keys && PartOf(entries, before)
        invariant forall k :: k in before && (k in keys || !Expired(before[k], now)) ==> k in entries
        invariant forall k :: k in entries && k !in keys ==> !Expired(before[k], now)
        decreases |keys|
      {
        var k :| k in keys;
        keys := keys - {k};
        if Expired(entries[k], now) {
          entries := entries - {k};
        }
      }
      assert entries == Unexpired(before, now);
      if |entries| < MAX_SIZE {
        EvictsHalf(before, now, entries);
        return;
      }
      var drop := |entries| / 2;
      ghost var rest := entries;
      keys := entries.Keys;
      while keys != {} && drop > 0
        invariant keys <= entries.Keys && PartOf(entries, rest)
        invariant |entries| == |rest| - |rest| / 2 + drop && |keys| >= drop >= 0
        decreases |keys|
      {
        var k :| k in keys;
        keys := keys - {k};
        RemoveOne(entries, k);
        entries := entries - {k};
        drop := drop - 1;
      }
      EvictsHalf(before, now, entries);
    }

    /** lookup by one request alone; `queried` is the database's answer, or None when the query failed. */
    method Lookup(k: Key, queried: Option<Answer>) returns (r: Option<Answer>, ghost left: Entries)
      requires Valid()
      modifies this`entries
      ensures Valid()
      ensures var hit := Text(k) in old(entries) && now <= old(entries)[Text(k)].expires;
        && r == (if hit then Some(old(entries)[Text(k)].answer) else queried)
        && (hit || queried.None? ==> entries == old(entries))
        && (!hit && queried.Some? ==>
              && MakesRoom(old(entries), now, left) && entries == left[Text(k) := Entry(queried.value, now + 15_000)]
              && if |old(entries)| < 8192 then left == old(entries) else Halved(old(entries), now, left))
    {
      left := entries;
      r := Get(Text(k));
      if r.Some? {
        return;
      }
      if queried.Some? {
        left := Put(Text(k), queried.value);
      }
      return queried, left;
    }

    method InvalidateUser(user: string)
      requires Valid()
      modifies this`entries
      ensures Valid() && entries == old(entries) - About(old(entries), User(user))
      ensures forall k :: k in entries <==> k in old(entries) && old(entries)[k].answer.grant.user != user
    {
      ghost var before := entries;
      var keys := entries.Keys;
      while keys != {}
        invariant keys <= entries.Keys && PartOf(entries, before)
        invariant forall k :: k in before && (k in keys || before[k].answer.grant.user != user) ==> k in entries
        invariant forall k :: k in entries && k !in keys ==> before[k].answer.grant.user != user
        decreases |keys|
      {
        var k :| k in keys;
        keys := keys - {k};
        if entries[k].answer.grant.user == user {
          entries := entries - {k};
        }
      }
      assert entries == before - About(before, User(user));
      PartSize(entries, before);
    }

    method InvalidateOrg(org: string)
      requires Valid()
      modifies this`entries
      ensures Valid() && entries == old(entries) - About(old(entries), Org(org))
      ensures forall k :: k in entries <==> k in old(entries) && old(entries)[k].answer.grant.org != org
    {
      ghost var before := entries;
      var keys := entries.Keys;
      while keys != {}
        invariant keys <= entries.Keys && PartOf(entries, before)
        invariant forall k :: k in before && (k in keys || before[k].answer.grant.org != org) ==> k in entries
        invariant forall k :: k in entries && k !in keys ==> before[k].answer.grant.org != org
        decreases |keys|
      {
        var k :| k in keys;
        keys := keys - {k};
        if entries[k].answer.grant.org == org {
          entries := entries - {k};
        }
      }
      assert entries == before - About(before, Org(org));
      PartSize(entries, before);
    }
  }

  lemma RemoveOne(entries: Entries, k: string)
    requires k in entries
    ensures |entries - {k}| == |entries| - 1
  {
    assert (entries - {k}).Keys == entries.Keys - {k};
  }

  /** When the map is full, some half can always be dropped. */
  lemma SomeRoom(before: Entries, now: Time) returns (left: Entries)
    ensures MakesRoom(before, now, left)
  {
    var rest := Unexpired(before, now);
    if |before| < MAX_SIZE {
      left := before;
    } else if |rest| < MAX_SIZE {
      left := rest;
    } else {
      left := SomePart(rest, |rest| - |rest| / 2);
    }
  }

  lemma {:induction false} SomePart(rest: Entries, n: nat) returns (part: Entries)
    requires n <= |rest|
    ensures PartOf(part, rest) && |part| == n
    decreases |rest|
  {
    part := rest;
    if |rest| > n {
      assert rest.Keys != {};
      var k :| k in rest;
      RemoveOne(rest, k);
      part := SomePart(rest - {k}, n);
    }
  }
}
