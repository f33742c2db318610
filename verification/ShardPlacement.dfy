/**
 Shard dissemination, sampling and committee gathering in the data-availability simulation
 (src/cmd/evolvbft-das/main.go), for any number of nodes and shards.  A stored shard counts as
 intact and its Merkle proof as valid.
 */
module ShardPlacement {
  import opened Wrappers
  import opened Arith

  /** Copies of each shard. */
  function Replication(nodes: nat, shards: nat): (r: nat)
    requires shards >= 1
  {
    nodes / shards
  }

  /** The node that gets copy r of shard i. */
  function HomeOf(nodes: nat, shards: nat, i: nat, r: nat): (v: nat)
    requires nodes >= 1
    ensures v < nodes
  {
    (i + r * shards) % nodes
  }

  /** The modulus never wraps for copies that exist. */
  lemma HomeIs(nodes: nat, shards: nat, i: nat, r: nat)
    requires shards >= 1 && i < shards && r < Replication(nodes, shards)
    ensures nodes >= 1
    ensures i + r * shards < Replication(nodes, shards) * shards <= nodes
    ensures HomeOf(nodes, shards, i, r) == i + r * shards
  {
    Decompose(nodes, shards);
    AtLeastOnce(Replication(nodes, shards) - r, shards);
    assert (Replication(nodes, shards) - r) * shards == Replication(nodes, shards) * shards - r * shards;
    RemainderIs(i + r * shards, nodes, 0, i + r * shards);
  }

  /** The shard that node v stores, if it stores one. */
  predicate IsHome(nodes: nat, shards: nat, v: nat)
    requires shards >= 1
  {
    v < Replication(nodes, shards) * shards
  }

  /** A copy's home is among the first R * shards nodes and has the shard's index as remainder. */
  lemma HomeHasRemainder(nodes: nat, shards: nat, i: nat, r: nat)
    requires shards >= 1 && i < shards && r < Replication(nodes, shards)
    ensures nodes >= 1
    ensures var v := HomeOf(nodes, shards, i, r);
            IsHome(nodes, shards, v) && v % shards == i && v / shards == r
  {
    HomeIs(nodes, shards, i, r);
    RemainderIs(i + r * shards, shards, r, i);
  }

  /** Conversely each of those nodes is the home of one copy. */
  lemma RemainderHasHome(nodes: nat, shards: nat, v: nat)
    requires shards >= 1 && IsHome(nodes, shards, v)
    ensures nodes >= 1 && v / shards < Replication(nodes, shards)
    ensures HomeOf(nodes, shards, v % shards, v / shards) == v
  {
    Decompose(v, shards);
    QuotientBelow(v, shards, Replication(nodes, shards));
    HomeIs(nodes, shards, v % shards, v / shards);
  }

  lemma QuotientBelow(v: nat, d: nat, k: nat)
    requires d >= 1 && v < k * d
    ensures v / d < k
  {
    Decompose(v, d);
  }

  /** What every node holds after dissemination. */
  function Placed<S>(nodes: nat, data: seq<S>, v: nat): map<nat, S>
    requires data != []
  {
    if IsHome(nodes, |data|, v) then map[v % |data| := data[v % |data|]] else map[]
  }

  // ---- how often a shard is stored ----

  /** The nodes that hold the first k copies of shard i. */
  function Homes(nodes: nat, shards: nat, i: nat, k: nat): set<nat>
    requires shards >= 1 && i < shards && k <= Replication(nodes, shards)
  {
    if k == 0 then {}
    else
      HomeIs(nodes, shards, i, k - 1);
      Homes(nodes, shards, i, k - 1) + {HomeOf(nodes, shards, i, k - 1)}
  }

  lemma {:induction false} HomesAreDistinct(nodes: nat, shards: nat, i: nat, k: nat)
    requires shards >= 1 && i < shards && k <= Replication(nodes, shards)
    ensures |Homes(nodes, shards, i, k)| == k
    ensures forall v | v in Homes(nodes, shards, i, k) ::
              IsHome(nodes, shards, v) && v % shards == i && v / shards < k
  {
    hide IsHome, HomeOf;
    if k > 0 {
      HomesAreDistinct(nodes, shards, i, k - 1);
      HomeHasRemainder(nodes, shards, i, k - 1);
    }
  }

  lemma {:induction false} HomesAreAll(nodes: nat, shards: nat, v: nat, k: nat)
    requires shards >= 1 && k <= Replication(nodes, shards)
    requires IsHome(nodes, shards, v) && v / shards < k
    ensures v in Homes(nodes, shards, v % shards, k)
  {
    hide IsHome, HomeOf;
    if v / shards == k - 1 {
      RemainderHasHome(nodes, shards, v);
    } else {
      HomesAreAll(nodes, shards, v, k - 1);
    }
  }

  /** Every shard is stored on exactly nodes / shards distinct nodes, and no node stores two shards. */
  lemma EveryShardReplicated<S>(nodes: nat, data: seq<S>, i: nat)
    requires data != [] && i < |data|
    ensures var holders := set v: nat | v < nodes && i in Placed(nodes, data, v);
            |holders| == Replication(nodes, |data|)
    ensures forall v: nat | v < nodes :: |Placed(nodes, data, v)| <= 1
  {
    var shards, r := |data|, Replication(nodes, |data|);
    var holders := set v: nat | v < nodes && i in Placed(nodes, data, v);
    hide IsHome, Homes;
    HomesAreDistinct(nodes, shards, i, r);
    forall v | v in holders ensures v in Homes(nodes, shards, i, r) {
      RemainderHasHome(nodes, shards, v);
      HomesAreAll(nodes, shards, v, r);
    }
    forall v | v in Homes(nodes, shards, i, r) ensures v in holders {
      HomeBelow(nodes, shards, v);
    }
    assert holders == Homes(nodes, shards, i, r);
  }

  lemma HomeBelow(nodes: nat, shards: nat, v: nat)
    requires shards >= 1 && IsHome(nodes, shards, v)
    ensures v < nodes
  {
    Decompose(nodes, shards);
  }

  // ---- the loops ----

  /** Node v has its shard after all copies of shards below i and r copies of shard i. */
  predicate Served(nodes: nat, shards: nat, v: nat, i: nat, r: nat)
    requires shards >= 1
  {
    IsHome(nodes, shards, v) && (v % shards < i || (v % shards == i && v / shards < r))
  }

  lemma ServeOne(nodes: nat, shards: nat, v: nat, i: nat, r: nat)
    requires shards >= 1 && i < shards && r < Replication(nodes, shards)
    ensures nodes >= 1 && IsHome(nodes, shards, HomeOf(nodes, shards, i, r))
    ensures HomeOf(nodes, shards, i, r) % shards == i && !Served(nodes, shards, HomeOf(nodes, shards, i, r), i, r)
    ensures Served(nodes, shards, v, i, r + 1) <==> Served(nodes, shards, v, i, r) || v == HomeOf(nodes, shards, i, r)
  {
    HomeHasRemainder(nodes, shards, i, r);
    if IsHome(nodes, shards, v) {
      RemainderHasHome(nodes, shards, v);
    }
    hide IsHome, HomeOf;
  }

  lemma NextShard(nodes: nat, shards: nat, v: nat, i: nat)
    requires shards >= 1
    ensures Served(nodes, shards, v, i, Replication(nodes, shards)) <==> Served(nodes, shards, v, i + 1, 0)
  {
    if IsHome(nodes, shards, v) {
      RemainderHasHome(nodes, shards, v);
    }
    hide IsHome;
    Decompose(v, shards);
  }

  /** What node v holds when the copies up to (i, r) have been handed out. */
  function Holding<S>(nodes: nat, data: seq<S>, v: nat, i: nat, r: nat): map<nat, S>
    requires data != []
  {
    if Served(nodes, |data|, v, i, r) then map[v % |data| := data[v % |data|]] else map[]
  }

  method Disseminate<S>(stored: array<map<nat, S>>, data: seq<S>)
    requires data != []
    requires forall v | 0 <= v < stored.Length :: stored[v] == map[]
    modifies stored
    ensures forall v | 0 <= v < stored.Length :: stored[v] == Placed(stored.Length, data, v)
  {
    var nodes, shards := stored.Length, |data|;
    hide Served, Replication, IsHome, HomeOf;
    Untouched(nodes, shards);
    var replication := Replication(nodes, shards);
    var i := 0;
    while i < shards
      invariant i <= shards
      invariant forall v: nat | v < nodes :: stored[v] == Holding(nodes, data, v, i, 0)
    {
      var r := 0;
      while r < replication
        invariant r <= replication
        invariant forall v: nat | v < nodes :: stored[v] == Holding(nodes, data, v, i, r)
      {
        ServeOne(nodes, shards, 0, i, r);
        var target := HomeOf(nodes, shards, i, r);
        ghost var before := stored[..];
        stored[target] := stored[target][i := data[i]];
        forall v: nat | v < nodes ensures stored[v] == Holding(nodes, data, v, i, r + 1) {
          ServeOne(nodes, shards, v, i, r);
          assert before[v] == Holding(nodes, data, v, i, r);
        }
        r := r + 1;
      }
      forall v: nat | v < nodes ensures stored[v] == Holding(nodes, data, v, i + 1, 0) {
        NextShard(nodes, shards, v, i);
      }
      i := i + 1;
    }
    forall v: nat | v < nodes ensures stored[v] == Placed(nodes, data, v) {
      AllServed(nodes, shards, v);
    }
  }

  lemma Untouched(nodes: nat, shards: nat)
    requires shards >= 1
    ensures forall v: nat :: !Served(nodes, shards, v, 0, 0)
  {
  }

  lemma AllServed(nodes: nat, shards: nat, v: nat)
    requires shards >= 1
    ensures Served(nodes, shards, v, shards, 0) <==> IsHome(nodes, shards, v)
  {
    Decompose(v, shards);
  }

  ghost predicate IsPlaced<S>(stored: seq<map<nat, S>>, data: seq<S>)
    requires data != []
  {
    forall v: nat | v < |stored| :: stored[v] == Placed(|stored|, data, v)
  }

  /** The first of the homes of shard idx, from copy r on, that has it. */
  function FirstHolder<S>(stored: seq<map<nat, S>>, shards: nat, idx: nat, r: nat): Option<S>
    requires shards >= 1 && idx < shards
    decreases Replication(|stored|, shards) - r
  {
    if r >= Replication(|stored|, shards) then None
    else
      HomeIs(|stored|, shards, idx, r);
      var v := HomeOf(|stored|, shards, idx, r);
      if idx in stored[v] then Some(stored[v][idx]) else FirstHolder(stored, shards, idx, r + 1)
  }

  /** Home number c of the shard has it. */
  predicate HasAt<S>(stored: seq<map<nat, S>>, shards: nat, idx: nat, c: nat)
    requires shards >= 1 && idx < shards && c < Replication(|stored|, shards)
  {
    HomeIs(|stored|, shards, idx, c);
    idx in stored[idx + c * shards]
  }

  /** Whatever the nodes hold, the shard comes from the first of its homes that has it, if any has. */
  lemma {:induction false} FirstHolderIs<S>(stored: seq<map<nat, S>>, shards: nat, idx: nat, r: nat)
    requires shards >= 1 && idx < shards
    ensures var n, found := Replication(|stored|, shards), FirstHolder(stored, shards, idx, r);
            && (found.None? <==> forall c: nat | r <= c < n :: !HasAt(stored, shards, idx, c))
            && forall c: nat | && r <= c < n && HasAt(stored, shards, idx, c)
                               && (forall b: nat | r <= b < c :: !HasAt(stored, shards, idx, b)) ::
                 idx + c * shards < |stored| && idx in stored[idx + c * shards]
                 && found == Some(stored[idx + c * shards][idx])
    decreases Replication(|stored|, shards) - r
  {
    hide HomeOf, Replication;
    if r < Replication(|stored|, shards) {
      HomeIs(|stored|, shards, idx, r);
      if !HasAt(stored, shards, idx, r) {
        FirstHolderIs(stored, shards, idx, r + 1);
      }
    }
    forall c: nat | r <= c < Replication(|stored|, shards)
      ensures idx + c * shards < |stored| && (HasAt(stored, shards, idx, c) <==> idx in stored[idx + c * shards])
    {
      HomeIs(|stored|, shards, idx, c);
    }
  }

  /** Asks the homes of a shard one after the other, whatever the nodes hold. */
  method Lookup<S>(stored: seq<map<nat, S>>, shards: nat, idx: nat) returns (shard: Option<S>)
    requires shards >= 1 && idx < shards
    ensures shard == FirstHolder(stored, shards, idx, 0)
  {
    var nodes := |stored|;
    var replication := Replication(nodes, shards);
    hide HomeOf;
    var r := 0;
    while r < replication
      invariant r <= replication
      invariant FirstHolder(stored, shards, idx, r) == FirstHolder(stored, shards, idx, 0)
    {
      HomeIs(nodes, shards, idx, r);
      var target := HomeOf(nodes, shards, idx, r);
      if idx in stored[target] {
        return Some(stored[target][idx]);
      }
      r := r + 1;
    }
    return None;
  }

  /** After dissemination every lookup finds its shard intact, unless there are fewer nodes than shards. */
  lemma LookupSucceedsIff<S>(stored: seq<map<nat, S>>, data: seq<S>, idx: nat)
    requires data != [] && idx < |data| && IsPlaced(stored, data)
    ensures FirstHolder(stored, |data|, idx, 0) == if |stored| >= |data| then Some(data[idx]) else None
  {
    ReplicatedIff(|stored|, |data|);
    if |stored| >= |data| {
      HomeHolds(|stored|, data, idx, 0);
    }
    hide Replication, HomeOf;
  }

  lemma ReplicatedIff(nodes: nat, shards: nat)
    requires shards >= 1
    ensures Replication(nodes, shards) >= 1 <==> nodes >= shards
  {
    Decompose(nodes, shards);
    if nodes < shards {
      RemainderIs(nodes, shards, 0, nodes);
    }
  }

  lemma HomeHolds<S>(nodes: nat, data: seq<S>, i: nat, r: nat)
    requires data != [] && i < |data| && r < Replication(nodes, |data|)
    ensures nodes >= 1 && Placed(nodes, data, HomeOf(nodes, |data|, i, r)) == map[i := data[i]]
  {
    HomeHasRemainder(nodes, |data|, i, r);
    hide IsHome, HomeOf;
  }

  /** One observer: counts the sampled shards it finds. */
  method Sample<S>(stored: seq<map<nat, S>>, data: seq<S>, indices: seq<nat>) returns (collected: nat)
    requires data != [] && IsPlaced(stored, data) && forall k | 0 <= k < |indices| :: indices[k] < |data|
    ensures collected == if |stored| >= |data| then |indices| else 0
  {
    collected := 0;
    var k := 0;
    while k < |indices|
      invariant k <= |indices| && collected == if |stored| >= |data| then k else 0
    {
      var shard := Lookup(stored, |data|, indices[k]);
      LookupSucceedsIff(stored, data, indices[k]);
      if shard.Some? {
        collected := collected + 1;
      }
      k := k + 1;
    }
  }

  /** The committee of the first c nodes pools its shards: distinct ones, each as disseminated. */
  method GatherFromCommittee<S>(stored: seq<map<nat, S>>, data: seq<S>, committee: nat)
    returns (collected: seq<Option<S>>, found: nat)
    requires data != [] && IsPlaced(stored, data) && committee <= |stored|
    ensures |collected| == |data|
    ensures found == if |stored| < |data| then 0 else if committee <= |data| then committee else |data|
    ensures forall i | 0 <= i < |data| :: collected[i] == if i < found then Some(data[i]) else None
  {
    var nodes, shards := |stored|, |data|;
    hide Placed;
    collected := seq(shards, _ => None);
    found := 0;
    var v := 0;
    while v < committee
      invariant v <= committee && |collected| == shards
      invariant found == if nodes < shards then 0 else if v <= shards then v else shards
      invariant forall i | 0 <= i < shards :: collected[i] == if i < found then Some(data[i]) else None
    {
      NodeHolds(nodes, data, v);
      var keys := stored[v].Keys;
      while keys != {}
        invariant keys <= stored[v].Keys && |collected| == shards
        invariant keys == stored[v].Keys ==>
          && found == (if nodes < shards then 0 else if v <= shards then v else shards)
          && forall i | 0 <= i < shards :: collected[i] == if i < found then Some(data[i]) else None
        invariant keys != stored[v].Keys ==>
          && keys == {} && found == (if nodes < shards then 0 else if v < shards then v + 1 else shards)
          && forall i | 0 <= i < shards :: collected[i] == if i < found then Some(data[i]) else None
      {
        var idx :| idx in keys;
        assert |keys - {idx}| == 0;
        if collected[idx].None? {
          collected := collected[idx := Some(stored[v][idx])];
          found := found + 1;
        }
        keys := keys - {idx};
      }
      v := v + 1;
    }
  }

  /** Below the number of shards each node adds its own; later nodes add nothing new. */
  lemma NodeHolds<S>(nodes: nat, data: seq<S>, v: nat)
    requires data != [] && v < nodes
    ensures nodes < |data| ==> Placed(nodes, data, v) == map[]
    ensures nodes >= |data| && v < |data| ==> Placed(nodes, data, v).Keys == {v}
    ensures |Placed(nodes, data, v).Keys| <= 1
    ensures forall i | i in Placed(nodes, data, v) :: i < |data| && Placed(nodes, data, v)[i] == data[i]
  {
    ReplicatedIff(nodes, |data|);
    if v < |data| {
      RemainderIs(v, |data|, 0, v);
      if nodes >= |data| {
        AtLeastOnce(Replication(nodes, |data|), |data|);
      }
    }
    hide Replication;
  }
}
