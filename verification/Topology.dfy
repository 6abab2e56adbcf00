/** Which worker's poll can see which queued job (worker/internal/poller/poller.go over shared/shard/shard.go). */
module Topology {
  import opened Wrappers
  import opened JobStore
  import opened Shard

  /** A row of the queue query: the unpaused queues this worker serves. */
  datatype QueueRow = QueueRow(id: QueueId, shardCount: int)

  /** What the membership registry had to say. */
  datatype Registry = NoRedis | Unavailable | Members(members: seq<Member>)

  datatype Topo = Topo(unsharded: seq<QueueId>, sharded: seq<QueueId>, maxShards: nat, owned: seq<nat>)

  // ---------- Specification of a refresh ----------

  function Ids(rows: seq<QueueRow>, sharded: bool): (ids: seq<QueueId>)
    ensures forall id :: id in ids <==> exists q :: q in rows && q.id == id && (q.shardCount > 1 <==> sharded)
  {
    if rows == [] then [] else
      var q := rows[|rows| - 1];
      var front := rows[..|rows| - 1];
      assert forall r :: r in rows <==> r in front || r == q;
      Ids(front, sharded) + if q.shardCount > 1 <==> sharded then [q.id] else []
  }

  /** The widest shard space among the sharded queues, 0 when there is none. */
  function ShardSpaceOf(rows: seq<QueueRow>): (n: nat)
    ensures forall q :: q in rows && q.shardCount > 1 ==> q.shardCount <= n
    ensures n > 0 ==> exists q :: q in rows && q.shardCount == n > 1
  {
    if rows == [] then 0 else
      var q := rows[|rows| - 1];
      var front := rows[..|rows| - 1];
      assert forall r :: r in rows <==> r in front || r == q;
      var n := ShardSpaceOf(front);
      if q.shardCount > 1 && q.shardCount > n then q.shardCount else n
  }

  /** The shards a worker takes: its rendezvous share, or everything while the registry cannot be read. */
  ghost predicate Takes(score: (Member, nat) -> nat, self: Member, maxShards: nat, registry: Registry, s: nat)
  {
    && s < ShardSpace(maxShards)
    && (registry.Members? ==> OwnsShard(score, Live(self, registry.members), self, s))
  }

  ghost predicate Refreshed(score: (Member, nat) -> nat, self: Member, rows: seq<QueueRow>, registry: Registry,
                            topo: Topo)
  {
    && topo.unsharded == Ids(rows, false)
    && topo.sharded == Ids(rows, true)
    && topo.maxShards == ShardSpaceOf(rows)
    && forall s :: s in topo.owned <==> 0 <= s && Takes(score, self, ShardSpaceOf(rows), registry, s)
  }

  // ---------- The poller ----------

  class Poller {
    const workerId: Member
    const score: (Member, nat) -> nat
    var topo: Topo

    constructor (workerId: Member, score: (Member, nat) -> nat)
      ensures this.workerId == workerId && this.score == score
      ensures topo == Topo([], [], 0, [])
    {
      this.workerId := workerId;
      this.score := score;
      topo := Topo([], [], 0, []);
    }

    /** RefreshTopology: a failed query keeps the old topology, a successful one replaces it whole. */
    method RefreshTopology(rows: Option<seq<QueueRow>>, registry: Registry)
      modifies this`topo
      ensures rows.None? ==> topo == old(topo)
      ensures rows.Some? ==> Refreshed(score, workerId, rows.value, registry, topo)
    {
      if rows.None? {
        return;
      }
      var unsharded, sharded, maxShards: nat := [], [], 0;
      for i := 0 to |rows.value|
        invariant unsharded == Ids(rows.value[..i], false)
        invariant sharded == Ids(rows.value[..i], true)
        invariant maxShards == ShardSpaceOf(rows.value[..i])
      {
        var q := rows.value[i];
        assert rows.value[..i + 1][..i] == rows.value[..i];
        if q.shardCount <= 1 {
          unsharded := unsharded + [q.id];
          continue;
        }
        sharded := sharded + [q.id];
        maxShards := if q.shardCount > maxShards then q.shardCount else maxShards;
      }
      assert rows.value[..|rows.value|] == rows.value;
      var owned := OwnedShards(maxShards, registry);
      topo := Topo(unsharded, sharded, maxShards, owned);
    }

    method OwnedShards(maxShards: nat, registry: Registry) returns (owned: seq<nat>)
      ensures forall s :: s in owned <==> 0 <= s && Takes(score, workerId, maxShards, registry, s)
    {
      if maxShards == 0 {
        return [];
      }
      if !registry.Members? {
        owned := All(maxShards);
      } else {
        owned := Owned(score, workerId, registry.members, maxShards);
      }
    }
  }

  /** The two early returns of poll, which skip a query that could match nothing. */
  predicate Polls(topo: Topo)
  {
    && !(topo.unsharded == [] && topo.sharded == [])
    && !(topo.sharded != [] && topo.owned == [] && topo.unsharded == [])
  }

  /** No job is missed by the early returns. */
  lemma SkippedPollsMatchNothing(topo: Topo, queue: QueueId, shard: nat)
    requires Matches(topo, queue, shard)
    ensures Polls(topo)
  {
  }

  /** The queue and shard part of the claim statement's WHERE clause. */
  predicate Matches(topo: Topo, queue: QueueId, shard: nat)
  {
    queue in topo.unsharded || (queue in topo.sharded && shard in topo.owned)
  }

  /** The shard a job is stored with; `hash` is hashtext of its partition key or id, masked to 31 bits. */
  function AssignShard(hash: nat, shardCount: int): nat
  {
    if shardCount <= 1 then 0 else hash % shardCount
  }

  // ---------- Visibility ----------

  /** One query result, seen by every worker: ids are the primary key and shard_count is checked by the schema. */
  ghost predicate QueueTable(rows: seq<QueueRow>)
  {
    && (forall q :: q in rows ==> 1 <= q.shardCount <= MAX_SHARDS)
    && (forall q, r :: q in rows && r in rows && q.id == r.id ==> q == r)
  }

  /** A cluster: live workers, each with the topology its latest refresh left, from registry views that hold
      no dead worker but may be missing some live ones. */
  ghost predicate Cluster(score: (Member, nat) -> nat, rows: seq<QueueRow>, views: map<Member, Registry>,
                          topos: map<Member, Topo>)
  {
    && QueueTable(rows)
    && views.Keys == topos.Keys && views.Keys != {} && "" !in views
    && (forall w :: w in topos ==> Refreshed(score, w, rows, views[w], topos[w]))
    && (forall w :: w in views && views[w].Members? ==> Live(w, views[w].members) <= views.Keys)
  }

  /** A job can be claimed by some worker exactly when its queue is unsharded or its stored shard still lies
      inside the shard space. */
  lemma VisibleIffInShardSpace(score: (Member, nat) -> nat, rows: seq<QueueRow>, views: map<Member, Registry>,
                               topos: map<Member, Topo>, q: QueueRow, shard: nat)
    requires Cluster(score, rows, views, topos) && q in rows
    ensures (exists w :: w in topos && Matches(topos[w], q.id, shard))
       <==> (q.shardCount <= 1 || shard < ShardSpaceOf(rows))
  {
    if q.shardCount <= 1 {
      var w :| w in topos;
      assert q.id in Ids(rows, false);
      assert Matches(topos[w], q.id, shard);
    } else {
      assert q.id in Ids(rows, true);
      forall w | w in topos && Matches(topos[w], q.id, shard)
        ensures shard < ShardSpaceOf(rows)
      {
        assert q.id !in Ids(rows, false);
      }
      if shard < ShardSpaceOf(rows) {
        var w := SomeWinner(score, views.Keys, shard);
        SpaceFits(rows);
        assert Matches(topos[w], q.id, shard);
      }
    }
  }

  lemma SpaceFits(rows: seq<QueueRow>)
    requires QueueTable(rows)
    ensures ShardSpace(ShardSpaceOf(rows)) == ShardSpaceOf(rows)
  {
  }

  /** With equal views every job of a sharded queue inside the space matches exactly one worker. */
  lemma EqualViewsMatchOnce(score: (Member, nat) -> nat, rows: seq<QueueRow>, views: map<Member, Registry>,
                            topos: map<Member, Topo>, q: QueueRow, shard: nat)
    returns (owner: Member)
    requires Cluster(score, rows, views, topos) && q in rows
    requires forall w :: w in views ==> views[w].Members? && Live(w, views[w].members) == views.Keys
    requires q.shardCount > 1 && shard < ShardSpaceOf(rows)
    ensures owner in topos
    ensures forall w :: w in topos ==> (Matches(topos[w], q.id, shard) <==> w == owner)
  {
    SpaceFits(rows);
    owner := OwnersPartition(score, views.Keys, ShardSpaceOf(rows), shard);
    assert q.id in Ids(rows, true) && q.id !in Ids(rows, false);
    forall w | w in topos
      ensures Matches(topos[w], q.id, shard) <==> w == owner
    {
      assert shard in OwnedBelow(score, views.Keys, w, ShardSpaceOf(rows)) <==> w == owner;
    }
  }

  /** A worker that cannot read the registry claims from every shard: it only adds matches. */
  lemma FallbackOnlyAdds(score: (Member, nat) -> nat, self: Member, rows: seq<QueueRow>,
                         registry: Registry, topo: Topo, fallback: Topo, queue: QueueId, shard: nat)
    requires Refreshed(score, self, rows, registry, topo)
    requires Refreshed(score, self, rows, Unavailable, fallback)
    requires Matches(topo, queue, shard)
    ensures Matches(fallback, queue, shard)
  {
  }

  /** A job stored when its queue had `before` shards stays in the space unless the count was lowered to
      another value above 1. */
  lemma StoredShardStaysInSpace(rows: seq<QueueRow>, q: QueueRow, before: int, hash: nat)
    requires QueueTable(rows) && q in rows
    requires q.shardCount <= 1 || q.shardCount >= before
    ensures q.shardCount <= 1 || AssignShard(hash, before) < ShardSpaceOf(rows)
  {
  }

  /** So no claimable job is out of sight: whatever live workers the views miss, somebody's claim matches it, as long as
      its queue's count was not lowered to another value above 1 since it was stored. */
  lemma StoredJobIsVisible(score: (Member, nat) -> nat, rows: seq<QueueRow>, views: map<Member, Registry>,
                           topos: map<Member, Topo>, q: QueueRow, before: int, hash: nat)
    requires Cluster(score, rows, views, topos) && q in rows
    requires q.shardCount <= 1 || q.shardCount >= before
    ensures exists w :: w in topos && Matches(topos[w], q.id, AssignShard(hash, before))
  {
    StoredShardStaysInSpace(rows, q, before, hash);
    VisibleIffInShardSpace(score, rows, views, topos, q, AssignShard(hash, before));
    hide Cluster, Matches, AssignShard;
  }

  /** Lowering 8 shards to 4 strands a job stored on shard 7: no worker's claim can match it. */
  lemma LoweredShardCountStrands(score: (Member, nat) -> nat, views: map<Member, Registry>, topos: map<Member, Topo>)
    requires Cluster(score, [QueueRow("q", 4)], views, topos)
    ensures forall w :: w in topos ==> !Matches(topos[w], "q", AssignShard(7, 8))
  {
    var rows := [QueueRow("q", 4)];
    var n := ShardSpaceOf(rows);
    assert QueueRow("q", 4) in rows;
    assert n <= 4;
    VisibleIffInShardSpace(score, rows, views, topos, QueueRow("q", 4), AssignShard(7, 8));
  }
}
