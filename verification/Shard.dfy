/** Rendezvous ownership of shards (shared/shard/shard.go). */
module Shard {
  import opened Mix
  import opened Sequences

  const MAX_SHARDS := 64

  type Member = string

  function Xor(a: bv64, b: bv64): bv64 { a ^ b }
  function Offset(shard: bv64): bv64 { shard + 0x9e3779b97f4a7c15 }

  /** The score of a member on a shard: `sum` is the member's FNV-64a sum. */
  function Score(sum: bv64, shard: bv64): bv64
  {
    Mixed(Xor(sum, Mixed(Offset(shard))))
  }

  /** Two members tie on a shard only when their sums collide, and then they tie on every shard. */
  lemma TieIffSumsCollide(a: bv64, b: bv64, shard: bv64)
    ensures Score(a, shard) == Score(b, shard) <==> a == b
    ensures Score(a, shard) == Score(b, shard) ==> forall other :: Score(a, other) == Score(b, other)
  {
    hide Mixed, Xor, Offset;
    if Score(a, shard) == Score(b, shard) {
      var salt := Mixed(Offset(shard));
      MixIsInjective(Xor(a, salt), Xor(b, salt));
      XorCancels(a, b, salt);
    }
  }

  /** One member scores distinct shards differently. */
  lemma ScoresSeparateShards(sum: bv64, s: bv64, t: bv64)
    ensures Score(sum, s) == Score(sum, t) <==> s == t
  {
    hide Mixed, Xor, Offset;
    if Score(sum, s) == Score(sum, t) {
      var saltS, saltT := Mixed(Offset(s)), Mixed(Offset(t));
      MixIsInjective(Xor(sum, saltS), Xor(sum, saltT));
      XorCancels(saltS, saltT, sum);
      MixIsInjective(Offset(s), Offset(t));
      OffsetCancels(s, t);
    }
  }

  /** Scores of a member whose sum is that of "w1". */
  lemma ScoreOfKnownMember()
    ensures Score(0x8cb8707b56d7b05, 0) == 0x5d08cf1e0581cc1f
    ensures Score(0x8cb8707b56d7b05, 63) == 0xca7a40822af70c40
  {
  }

  lemma XorCancels(a: bv64, b: bv64, c: bv64)
    requires Xor(a, c) == Xor(b, c) || Xor(c, a) == Xor(c, b)
    ensures a == b
  {
  }

  lemma OffsetCancels(a: bv64, b: bv64)
    requires Offset(a) == Offset(b)
    ensures a == b
  {
  }

  // ---------- Who wins a shard ----------

  /** Go's string order. */
  predicate Before(a: string, b: string)
  {
    if b == "" then false
    else if a == "" then true
    else if a[0] != b[0] then a[0] < b[0]
    else Before(a[1..], b[1..])
  }

  lemma {:induction false} BeforeIsTotal(a: string, b: string)
    ensures a == b || Before(a, b) || Before(b, a)
    ensures Before(a, b) ==> a != b && !Before(b, a)
  {
    if a != "" && b != "" {
      BeforeIsTotal(a[1..], b[1..]);
      if a[0] == b[0] && a[1..] == b[1..] {
        assert a == [a[0]] + a[1..] == b;
      }
    }
  }

  lemma {:induction false} BeforeIsTransitive(a: string, b: string, c: string)
    requires Before(a, b) && Before(b, c)
    ensures Before(a, c)
  {
    if a != "" && a[0] == b[0] == c[0] {
      BeforeIsTransitive(a[1..], b[1..], c[1..]);
    }
  }

  /** a ends where b goes on, or has the smaller character where they first differ. */
  ghost predicate FirstDiffers(a: string, b: string, k: nat)
  {
    && k <= |a| && k < |b| && a[..k] == b[..k]
    && (k == |a| || a[k] < b[k])
  }

  lemma {:induction false} BeforeIff(a: string, b: string)
    ensures Before(a, b) <==> exists k :: FirstDiffers(a, b, k)
  {
    if a == "" || b == "" || a[0] != b[0] {
      if Before(a, b) {
        assert FirstDiffers(a, b, 0);
      }
      if k: nat :| FirstDiffers(a, b, k) {
        assert k > 0 ==> a[..k][0] == b[..k][0];
      }
    } else {
      BeforeIff(a[1..], b[1..]);
      if Before(a, b) {
        var k: nat :| FirstDiffers(a[1..], b[1..], k);
        assert a[..k + 1] == [a[0]] + a[1..][..k] && b[..k + 1] == [b[0]] + b[1..][..k];
        assert FirstDiffers(a, b, k + 1);
      }
      if k: nat :| FirstDiffers(a, b, k) {
        assert k > 0;
        assert a[1..][..k - 1] == a[..k][1..] && b[1..][..k - 1] == b[..k][1..];
        assert FirstDiffers(a[1..], b[1..], k - 1);
      }
    }
  }

  /** Higher score wins; the smaller id breaks ties. */
  predicate Beats(score: (Member, nat) -> nat, a: Member, b: Member, s: nat)
  {
    score(a, s) > score(b, s) || (score(a, s) == score(b, s) && Before(a, b))
  }

  ghost predicate Wins(score: (Member, nat) -> nat, live: set<Member>, m: Member, s: nat)
  {
    m in live && forall other :: other in live && other != m ==> Beats(score, m, other, s)
  }

  lemma OneWinner(score: (Member, nat) -> nat, live: set<Member>, a: Member, b: Member, s: nat)
    requires Wins(score, live, a, s) && Wins(score, live, b, s)
    ensures a == b
  {
    if a != b {
      BeforeIsTotal(a, b);
    }
  }

  lemma {:induction false} SomeWinner(score: (Member, nat) -> nat, live: set<Member>, s: nat) returns (m: Member)
    requires live != {}
    ensures Wins(score, live, m, s)
    decreases |live|
  {
    var x :| x in live;
    var rest := live - {x};
    assert live == rest + {x};
    if rest == {} {
      return x;
    }
    var best := SomeWinner(score, rest, s);
    m := NewWinner(score, rest, best, x, s);
  }

  /** Comparing one more member with the best so far, as the inner loop of Owned does. */
  lemma NewWinner(score: (Member, nat) -> nat, live: set<Member>, best: Member, x: Member, s: nat) returns (m: Member)
    requires Wins(score, live, best, s) && x !in live
    ensures m == if Beats(score, x, best, s) then x else best
    ensures Wins(score, live + {x}, m, s)
  {
    BeforeIsTotal(x, best);
    m := if Beats(score, x, best, s) then x else best;
    forall other | other in live && other != best
      ensures Beats(score, x, best, s) ==> Beats(score, x, other, s)
    {
      assert Beats(score, best, other, s);
      if Before(x, best) && Before(best, other) {
        BeforeIsTransitive(x, best, other);
      }
    }
  }

  // ---------- Owned ----------

  /** The members a worker counts: everyone in the registry and itself, blanks dropped. */
  ghost function Live(self: Member, members: seq<Member>): set<Member>
  {
    set m | m in members + [self] && m != ""
  }

  function ShardSpace(shardCount: int): nat
  {
    if shardCount <= 0 then 0 else if shardCount > MAX_SHARDS then MAX_SHARDS else shardCount
  }

  ghost predicate OwnsShard(score: (Member, nat) -> nat, live: set<Member>, self: Member, s: nat)
  {
    Wins(score, live, self, s) || (live == {} && self == "")
  }

  /** The shards below `n` that `self` owns, in increasing order. */
  ghost function OwnedBelow(score: (Member, nat) -> nat, live: set<Member>, self: Member, n: nat): (r: seq<nat>)
    ensures forall s :: s in r <==> 0 <= s < n && OwnsShard(score, live, self, s)
    ensures forall i, j :: 0 <= i < j < |r| ==> r[i] < r[j]
  {
    if n == 0 then [] else
      var below := OwnedBelow(score, live, self, n - 1);
      assert forall i :: 0 <= i < |below| ==> below[i] in below;
      below + if OwnsShard(score, live, self, n - 1) then [n - 1] else []
  }

  /** No other member that is not blank scores higher, or as high with a smaller id; a blank worker counts for nobody
      unless all are blank. */
  ghost predicate IsMine(score: (Member, nat) -> nat, self: Member, members: seq<Member>, s: nat)
  {
    && (self != "" || forall m :: m in members ==> m == "")
    && forall m :: m in members && m != "" && m != self ==>
         score(self, s) > score(m, s) || (score(self, s) == score(m, s) && Before(self, m))
  }

  lemma OwnsIff(score: (Member, nat) -> nat, self: Member, members: seq<Member>, s: nat)
    ensures OwnsShard(score, Live(self, members), self, s) <==> IsMine(score, self, members, s)
  {
    var live := Live(self, members);
    hide Before;
    assert forall m :: m in live <==> m != "" && (m in members || m == self);
    assert forall m :: m in live && m != self <==> m in members && m != "" && m != self;
  }

  /** Owned. Neither the order of `members`, nor duplicates, nor blanks can matter: only the set Live does. */
  method Owned(score: (Member, nat) -> nat, self: Member, members: seq<Member>,
               shardCount: int) returns (owned: seq<nat>)
    ensures owned == OwnedBelow(score, Live(self, members), self, ShardSpace(shardCount))
    ensures forall s :: s in owned <==> 0 <= s < shardCount && s < 64 && IsMine(score, self, members, s)
  {
    hide OwnsShard, IsMine;
    if shardCount <= 0 {
      return [];
    }
    var n := if shardCount > MAX_SHARDS then MAX_SHARDS else shardCount;
    forall s: nat
      ensures OwnsShard(score, Live(self, members), self, s) <==> IsMine(score, self, members, s)
    {
      OwnsIff(score, self, members, s);
    }
    var live := Distinct(members + [self]);
    assert Elements(live) == Live(self, members);

    owned := [];
    for s := 0 to n
      invariant owned == OwnedBelow(score, Live(self, members), self, s)
    {
      var best := Best(score, live, s);
      WinnerIsOwner(score, Live(self, members), self, best, s);
      if best == self {
        owned := owned + [s];
      }
    }
  }

  /** The first loop of Owned: drop blanks and repetitions. The sort that follows it in the source only fixes
      the order in which the members are compared, so any arrangement is allowed here. */
  method Distinct(members: seq<Member>) returns (live: seq<Member>)
    ensures forall m :: m in live <==> m in members && m != ""
    ensures NoDup(live)
  {
    live := [];
    var seen: set<Member> := {};
    for i := 0 to |members|
      invariant forall m :: m in seen <==> m in live
      invariant forall m :: m in live <==> m in members[..i] && m != ""
      invariant NoDup(live)
    {
      var m := members[i];
      if m != "" && m !in seen {
        seen := seen + {m};
        live := live + [m];
      }
    }
  }

  /** The inner loop of Owned. */
  method Best(score: (Member, nat) -> nat, live: seq<Member>, s: nat) returns (best: Member)
    requires forall m :: m in live ==> m != ""
    requires NoDup(live)
    ensures if live == [] then best == "" else best in live && Wins(score, Elements(live), best, s)
    ensures forall m :: m in live && m != best ==>
      score(best, s) > score(m, s) || (score(best, s) == score(m, s) && Before(best, m))
  {
    best := "";
    var bestScore := 0;
    for i := 0 to |live|
      invariant i == 0 ==> best == ""
      invariant i > 0 ==> best != "" && bestScore == score(best, s) && Wins(score, Elements(live[..i]), best, s)
    {
      var m, sc := live[i], score(live[i], s);
      assert m in live;
      ghost var known := Elements(live[..i]);
      assert Elements(live[..i + 1]) == known + {m};
      if i > 0 {
        var _ := NewWinner(score, known, best, m, s);
      }
      if best == "" || sc > bestScore || (sc == bestScore && Before(m, best)) {
        best, bestScore := m, sc;
      }
    }
    assert live[..|live|] == live;
    assert forall m :: m in live <==> m in Elements(live);
  }

  lemma WinnerIsOwner(score: (Member, nat) -> nat, live: set<Member>, self: Member, best: Member, s: nat)
    requires "" !in live
    requires if live == {} then best == "" else Wins(score, live, best, s)
    ensures best == self <==> OwnsShard(score, live, self, s)
  {
    if Wins(score, live, self, s) {
      OneWinner(score, live, best, self, s);
    }
  }

  method All(shardCount: int) returns (out: seq<nat>)
    ensures |out| == ShardSpace(shardCount)
    ensures forall s :: s in out <==> 0 <= s < ShardSpace(shardCount)
    ensures |out| == (if shardCount > 64 then 64 else if shardCount < 0 then 0 else shardCount)
    ensures forall i :: 0 <= i < |out| ==> out[i] == i
  {
    out := [];
    var n := if shardCount > MAX_SHARDS then MAX_SHARDS else shardCount;
    var s := 0;
    while s < n
      invariant 0 <= s
      invariant |out| == s <= ShardSpace(shardCount)
      invariant forall x :: x in out <==> 0 <= x < s
      invariant forall i :: 0 <= i < |out| ==> out[i] == i
    {
      out := out + [s];
      s := s + 1;
    }
  }

  // ---------- What sharing the work amounts to ----------

  /** Workers that see the same non-blank members split the shard space: every shard has exactly one owner. */
  lemma OwnersPartition(score: (Member, nat) -> nat, live: set<Member>, shardCount: int, s: nat) returns (owner: Member)
    requires live != {} && "" !in live && s < ShardSpace(shardCount)
    ensures owner in live
    ensures forall m :: m in live ==> (s in OwnedBelow(score, live, m, ShardSpace(shardCount)) <==> m == owner)
  {
    owner := SomeWinner(score, live, s);
    forall m | m in live
      ensures s in OwnedBelow(score, live, m, ShardSpace(shardCount)) <==> m == owner
    {
      if Wins(score, live, m, s) {
        OneWinner(score, live, m, owner, s);
      }
    }
  }

  /** When `x` leaves, whoever owned a shard keeps it, and a shard gained is one `x` owned. Read backwards it is a
      join. */
  lemma LeavingMovesOnlyOwnShards(score: (Member, nat) -> nat, live: set<Member>, x: Member, m: Member, s: nat)
    requires x in live && "" !in live && m in live && m != x
    ensures OwnsShard(score, live, m, s) ==> OwnsShard(score, live - {x}, m, s)
    ensures OwnsShard(score, live - {x}, m, s) && !OwnsShard(score, live, m, s) ==> OwnsShard(score, live, x, s)
  {
    if OwnsShard(score, live - {x}, m, s) && !OwnsShard(score, live, m, s) {
      var rest := live - {x};
      var w := NewWinner(score, rest, m, x, s);
      assert rest + {x} == live;
    }
  }
}
