/** Replica selection and failure views over a scraped cluster (pkg/valkey/topology.go). */
module Replicas {
  import opened ClusterView
  import opened SlotRanges

  predicate Failing(flags: seq<string>) { "fail" in flags || "fail?" in flags }

  /** `GetSyncedReplicas`' filter: a healthy replica of the primary with its link up. */
  predicate IsSynced(n: NodeState, primaryID: string) {
    n.primaryID == primaryID && n.IsReplica() && !Failing(n.flags) && "pfail" !in n.flags && n.linkUp
  }

  function Synced(nodes: seq<NodeState>, primaryID: string): (r: seq<NodeState>) {
    if nodes == [] then []
    else
      var before, n := Synced(nodes[..|nodes| - 1], primaryID), nodes[|nodes| - 1];
      if IsSynced(n, primaryID) then before + [n] else before
  }

  /** `BestReplicaOf`'s filter: any replica of the primary, whatever its link. */
  function Followers(nodes: seq<NodeState>, primaryID: string): (r: seq<NodeState>) {
    if nodes == [] then []
    else
      var before, n := Followers(nodes[..|nodes| - 1], primaryID), nodes[|nodes| - 1];
      if n.primaryID == primaryID && n.IsReplica() then before + [n] else before
  }

  /** The first node of greatest offset. */
  function Highest(replicas: seq<NodeState>): (r: Option<NodeState>) {
    if replicas == [] then None
    else
      var best, n := Highest(replicas[..|replicas| - 1]), replicas[|replicas| - 1];
      if best.None? || n.offset > best.value.offset then Some(n) else best
  }

  /** `highestOffset`. */
  method HighestOffset(replicas: seq<NodeState>) returns (best: Option<NodeState>)
    ensures best == Highest(replicas)
  {
    best := None;
    for i := 0 to |replicas|
      invariant best == Highest(replicas[..i])
    {
      assert replicas[..i + 1][..i] == replicas[..i];
      if best.None? || replicas[i].offset > best.value.offset {
        best := Some(replicas[i]);
      }
    }
    assert replicas[..|replicas|] == replicas;
  }

  /** The most caught-up replica, the earliest among equals. */
  lemma {:induction false} HighestFacts(replicas: seq<NodeState>)
    ensures Highest(replicas).None? <==> replicas == []
    ensures Highest(replicas).Some? ==>
              exists k :: 0 <= k < |replicas| && replicas[k] == Highest(replicas).value
                          && (forall i :: 0 <= i < |replicas| ==> replicas[i].offset <= replicas[k].offset)
                          && (forall i :: 0 <= i < k ==> replicas[i].offset < replicas[k].offset)
  {
    if replicas == [] {
    } else {
      var front, last := replicas[..|replicas| - 1], |replicas| - 1;
      HighestFacts(front);
      assert forall i :: 0 <= i < |front| ==> front[i] == replicas[i];
      if front == [] || replicas[last].offset > Highest(front).value.offset {
        assert replicas[last] == Highest(replicas).value;
      }
    }
  }

  lemma {:induction false} SyncedFacts(nodes: seq<NodeState>, primaryID: string)
    ensures forall n :: n in Synced(nodes, primaryID) <==> n in nodes && IsSynced(n, primaryID)
  {
    if nodes == [] {
    } else {
      SyncedFacts(nodes[..|nodes| - 1], primaryID);
      assert nodes == nodes[..|nodes| - 1] + [nodes[|nodes| - 1]];
    }
  }

  lemma {:induction false} FollowersFacts(nodes: seq<NodeState>, primaryID: string)
    ensures forall n :: n in Followers(nodes, primaryID) <==> n in nodes && n.primaryID == primaryID && n.IsReplica()
  {
    if nodes == [] {
    } else {
      FollowersFacts(nodes[..|nodes| - 1], primaryID);
      assert nodes == nodes[..|nodes| - 1] + [nodes[|nodes| - 1]];
    }
  }

  // ----- the most caught-up one, said without the selection

  predicate Follows(n: NodeState, id: string) { n.primaryID == id && n.role == Replica }

  /** It follows the primary over a link that is up, and nobody sees it failing. */
  predicate InStep(n: NodeState, id: string) {
    && n.primaryID == id && n.role == Replica && n.linkUp
    && "fail" !in n.flags && "fail?" !in n.flags && "pfail" !in n.flags
  }

  /** The first follower of greatest offset. */
  ghost predicate TopFollower(nodes: seq<NodeState>, id: string, k: int) {
    && 0 <= k < |nodes| && Follows(nodes[k], id)
    && (forall j :: 0 <= j < |nodes| && Follows(nodes[j], id) ==> nodes[j].offset <= nodes[k].offset)
    && (forall j :: 0 <= j < k && Follows(nodes[j], id) ==> nodes[j].offset < nodes[k].offset)
  }

  /** The first follower in step of greatest offset. */
  ghost predicate TopInStep(nodes: seq<NodeState>, id: string, k: int) {
    && 0 <= k < |nodes| && InStep(nodes[k], id)
    && (forall j :: 0 <= j < |nodes| && InStep(nodes[j], id) ==> nodes[j].offset <= nodes[k].offset)
    && (forall j :: 0 <= j < k && InStep(nodes[j], id) ==> nodes[j].offset < nodes[k].offset)
  }

  lemma {:induction false} TopFollowerIs(nodes: seq<NodeState>, id: string)
    ensures match Highest(Followers(nodes, id))
            case None => forall n :: n in nodes ==> !Follows(n, id)
            case Some(r) => exists k :: TopFollower(nodes, id, k) && nodes[k] == r
  {
    if nodes == [] {
    } else {
      var last, front := |nodes| - 1, nodes[..|nodes| - 1];
      TopFollowerIs(front, id);
      TopFollowerStep(nodes, id, Highest(Followers(front, id)));
      assert Follows(nodes[last], id) ==>
          Followers(nodes, id) == Followers(front, id) + [nodes[last]]
          && Followers(nodes, id)[..|Followers(nodes, id)| - 1] == Followers(front, id);
    }
  }

  lemma TopFollowerStep(nodes: seq<NodeState>, id: string, best: Option<NodeState>)
    requires nodes != []
    requires var front := nodes[..|nodes| - 1];
             match best
             case None => forall n :: n in front ==> !Follows(n, id)
             case Some(r) => exists k :: TopFollower(front, id, k) && front[k] == r
    ensures var last := nodes[|nodes| - 1];
            var r := if Follows(last, id) && (best.None? || last.offset > best.value.offset) then Some(last) else best;
            match r
            case None => forall n :: n in nodes ==> !Follows(n, id)
            case Some(r) => exists k :: TopFollower(nodes, id, k) && nodes[k] == r
  {
    hide Follows;
    var last, front := |nodes| - 1, nodes[..|nodes| - 1];
    assert nodes == front + [nodes[last]];
    if Follows(nodes[last], id) && (best.None? || nodes[last].offset > best.value.offset) {
      assert forall j :: 0 <= j < last ==> front[j] in front;
      assert TopFollower(nodes, id, last);
    } else if best.Some? {
      var k :| TopFollower(front, id, k) && front[k] == best.value;
      assert TopFollower(nodes, id, k);
    }
  }

  lemma {:induction false} TopInStepIs(nodes: seq<NodeState>, id: string)
    ensures match Highest(Synced(nodes, id))
            case None => forall n :: n in nodes ==> !InStep(n, id)
            case Some(r) => exists k :: TopInStep(nodes, id, k) && nodes[k] == r
  {
    if nodes == [] {
    } else {
      var last, front := |nodes| - 1, nodes[..|nodes| - 1];
      TopInStepIs(front, id);
      TopInStepStep(nodes, id, Highest(Synced(front, id)));
      assert InStep(nodes[last], id) ==>
          Synced(nodes, id) == Synced(front, id) + [nodes[last]]
          && Synced(nodes, id)[..|Synced(nodes, id)| - 1] == Synced(front, id);
    }
  }

  lemma TopInStepStep(nodes: seq<NodeState>, id: string, best: Option<NodeState>)
    requires nodes != []
    requires var front := nodes[..|nodes| - 1];
             match best
             case None => forall n :: n in front ==> !InStep(n, id)
             case Some(r) => exists k :: TopInStep(front, id, k) && front[k] == r
    ensures var last := nodes[|nodes| - 1];
            var r := if InStep(last, id) && (best.None? || last.offset > best.value.offset) then Some(last) else best;
            match r
            case None => forall n :: n in nodes ==> !InStep(n, id)
            case Some(r) => exists k :: TopInStep(nodes, id, k) && nodes[k] == r
  {
    hide InStep;
    var last, front := |nodes| - 1, nodes[..|nodes| - 1];
    assert nodes == front + [nodes[last]];
    if InStep(nodes[last], id) && (best.None? || nodes[last].offset > best.value.offset) {
      assert forall j :: 0 <= j < last ==> front[j] in front;
      assert TopInStep(nodes, id, last);
    } else if best.Some? {
      var k :| TopInStep(front, id, k) && front[k] == best.value;
      assert TopInStep(nodes, id, k);
    }
  }

  lemma TopInStepUnique(nodes: seq<NodeState>, id: string, i: int, j: int)
    requires TopInStep(nodes, id, i) && TopInStep(nodes, id, j)
    ensures i == j
  {
  }

  lemma TopFollowerUnique(nodes: seq<NodeState>, id: string, i: int, j: int)
    requires TopFollower(nodes, id, i) && TopFollower(nodes, id, j)
    ensures i == j
  {
  }

  /** `HighestOffsetReplica`: the graceful-failover target, a synced replica if there is one. */
  method HighestOffsetReplica(nodes: seq<NodeState>, primaryID: string) returns (target: Option<NodeState>)
    ensures target == Highest(Synced(nodes, primaryID))
    ensures match target
            case None => forall n :: n in nodes ==> !InStep(n, primaryID)
            case Some(r) => exists k :: TopInStep(nodes, primaryID, k) && nodes[k] == r
  {
    var replicas: seq<NodeState> := [];
    for i := 0 to |nodes|
      invariant replicas == Synced(nodes[..i], primaryID)
    {
      assert nodes[..i + 1][..i] == nodes[..i];
      if IsSynced(nodes[i], primaryID) {
        replicas := replicas + [nodes[i]];
      }
    }
    assert nodes[..|nodes|] == nodes;
    TopInStepIs(nodes, primaryID);
    target := HighestOffset(replicas);
  }

  /** `BestReplicaOf`: the takeover candidate of a dead primary. */
  method BestReplicaOf(nodes: seq<NodeState>, primaryID: string) returns (target: Option<NodeState>)
    ensures target == Highest(Followers(nodes, primaryID))
    ensures match target
            case None => forall n :: n in nodes ==> !Follows(n, primaryID)
            case Some(r) => exists k :: TopFollower(nodes, primaryID, k) && nodes[k] == r
  {
    var replicas: seq<NodeState> := [];
    for i := 0 to |nodes|
      invariant replicas == Followers(nodes[..i], primaryID)
    {
      assert nodes[..i + 1][..i] == nodes[..i];
      if nodes[i].primaryID == primaryID && nodes[i].IsReplica() {
        replicas := replicas + [nodes[i]];
      }
    }
    assert nodes[..|nodes|] == nodes;
    TopFollowerIs(nodes, primaryID);
    target := HighestOffset(replicas);
  }

  // ----- failure and quorum

  /** `IsNodeFailed`: some scraped peer table, or the node's own line, flags it. */
  predicate IsNodeFailed(nodes: seq<NodeState>, id: string) {
    || (exists n :: n in nodes && id in n.peers && Failing(n.peers[id].flags))
    || (id in ByID(nodes) && Failing(ByID(nodes)[id].flags))
  }

  /** A node counts as failed exactly when some scraped node's line for it has the flag "fail" or
      "fail?", or the node scraped last under that ID has one itself. */
  lemma NodeFailedIff(nodes: seq<NodeState>, id: string)
    ensures IsNodeFailed(nodes, id) <==>
            || (exists n, flag :: n in nodes && id in n.peers && flag in n.peers[id].flags && flag in ["fail", "fail?"])
            || (exists k, flag ::
                  id != "" && LastWithID(nodes, id, k) && flag in nodes[k].flags && flag in ["fail", "fail?"])
  {
    ByIDFacts(nodes, id);
    hide ByID;
    forall k | LastWithID(nodes, id, k) ensures nodes[k] in nodes {}
    forall flags: seq<string> ensures Failing(flags) <==> exists flag :: flag in flags && flag in ["fail", "fail?"] {}
  }

  predicate ServesSlots(v: View, sh: ShardState) {
    sh.Primary().Some? && CountSlots(sh.slots) > 0 && !IsNodeFailed(v.nodes, sh.Primary().value.id)
  }

  function LivePrimaries(v: View, shards: seq<ShardState>): (r: nat) {
    if shards == [] then 0
    else LivePrimaries(v, shards[..|shards| - 1]) + if ServesSlots(v, shards[|shards| - 1]) then 1 else 0
  }

  /** Among the first `k` shards, those, by index, whose primary owns slots and is not failed. */
  ghost function LiveShards(v: View, k: nat): (r: set<int>)
    requires k <= |v.shards|
  {
    set i | 0 <= i < k && v.shards[i].Primary().Some? && CountSlots(v.shards[i].slots) > 0
            && !IsNodeFailed(v.nodes, v.shards[i].Primary().value.id)
  }

  lemma {:induction false} LiveCount(v: View, k: nat)
    requires k <= |v.shards|
    ensures LivePrimaries(v, v.shards[..k]) == |LiveShards(v, k)|
  {
    if k == 0 {
    } else {
      LiveCount(v, k - 1);
      assert v.shards[..k][..k - 1] == v.shards[..k - 1];
      LiveShardsGrow(v, k);
    }
  }

  lemma LiveShardsGrow(v: View, k: nat)
    requires 0 < k <= |v.shards|
    ensures |LiveShards(v, k)| == |LiveShards(v, k - 1)| + if ServesSlots(v, v.shards[k - 1]) then 1 else 0
  {
    hide IsNodeFailed, CountSlots;
    assert LiveShards(v, k) == if ServesSlots(v, v.shards[k - 1]) then LiveShards(v, k - 1) + {k - 1}
                               else LiveShards(v, k - 1);
  }

  /** The primaries that can vote are a strict majority of every known cluster size. */
  ghost predicate Quorum(v: View) {
    && (exists n :: n in v.nodes && n.clusterSize > 0)
    && (forall n :: n in v.nodes ==> 2 * LivePrimaries(v, v.shards) > n.clusterSize)
  }

  /** `HasFailoverQuorum`. */
  method HasFailoverQuorum(v: View) returns (quorum: bool)
    ensures quorum <==> Quorum(v)
    ensures quorum <==>
            && (exists n :: n in v.nodes && n.clusterSize > 0)
            && forall n :: n in v.nodes ==> 2 * |LiveShards(v, |v.shards|)| > n.clusterSize
  {
    LiveCount(v, |v.shards|);
    assert v.shards[..|v.shards|] == v.shards;
    hide LiveShards, IsNodeFailed;
    if |v.shards| == 0 {
      return false;
    }
    var live := 0;
    for i := 0 to |v.shards|
      invariant live == LivePrimaries(v, v.shards[..i])
    {
      assert v.shards[..i + 1][..i] == v.shards[..i];
      if ServesSlots(v, v.shards[i]) {
        live := live + 1;
      }
    }
    assert v.shards[..|v.shards|] == v.shards;
    var clusterSize := 0;
    for i := 0 to |v.nodes|
      invariant clusterSize >= 0 && forall k :: 0 <= k < i ==> v.nodes[k].clusterSize <= clusterSize
      invariant clusterSize == 0 || exists k :: 0 <= k < i && v.nodes[k].clusterSize == clusterSize
    {
      if v.nodes[i].clusterSize > clusterSize {
        clusterSize := v.nodes[i].clusterSize;
      }
    }
    if clusterSize == 0 {
      return false;
    }
    return live > clusterSize / 2;
  }

  /** Every replica of every shard has its replication link up. */
  ghost predicate InSync(shards: seq<ShardState>) {
    forall sh, n :: sh in shards && n in sh.nodes && n.IsReplica() ==> n.linkUp
  }

  /** `IsReplicationInSync`. */
  method IsReplicationInSync(shards: seq<ShardState>) returns (sync: bool)
    ensures sync <==> InSync(shards)
  {
    for i := 0 to |shards|
      invariant InSync(shards[..i])
    {
      var nodes := shards[i].nodes;
      assert shards[i] in shards;
      for j := 0 to |nodes|
        invariant forall n :: n in nodes[..j] && n.IsReplica() ==> n.linkUp
      {
        if nodes[j].IsReplica() && !nodes[j].linkUp {
          assert nodes[j] in shards[i].nodes;
          return false;
        }
      }
      assert nodes[..|nodes|] == nodes && shards[..i + 1] == shards[..i] + [shards[i]];
    }
    assert shards[..|shards|] == shards;
    return true;
  }

  function FailedPrimariesOf(v: View, shards: seq<ShardState>): (r: seq<NodeState>) {
    if shards == [] then []
    else
      var before, p := FailedPrimariesOf(v, shards[..|shards| - 1]), shards[|shards| - 1].Primary();
      if p.Some? && IsNodeFailed(v.nodes, p.value.id) then before + [p.value] else before
  }

  lemma {:induction false} FailedPrimariesMembers(v: View, shards: seq<ShardState>)
    ensures forall p :: p in FailedPrimariesOf(v, shards) <==>
              exists i :: 0 <= i < |shards| && shards[i].Primary() == Some(p) && IsNodeFailed(v.nodes, p.id)
  {
    hide IsNodeFailed;
    if shards == [] {
    } else {
      var last, front := |shards| - 1, shards[..|shards| - 1];
      FailedPrimariesMembers(v, front);
      forall p | p in FailedPrimariesOf(v, front)
        ensures exists i :: 0 <= i < |shards| && shards[i].Primary() == Some(p) && IsNodeFailed(v.nodes, p.id)
      {
        var i :| 0 <= i < |front| && front[i].Primary() == Some(p) && IsNodeFailed(v.nodes, p.id);
        assert shards[i].Primary() == Some(p);
      }
      forall i | 0 <= i < last && shards[i].Primary().Some? ensures front[i].Primary() == shards[i].Primary() {}
    }
  }

  /** `FailedPrimaries`. */
  method FailedPrimaries(v: View) returns (failed: seq<NodeState>)
    ensures failed == FailedPrimariesOf(v, v.shards)
    ensures forall p :: p in failed <==>
              exists i :: 0 <= i < |v.shards| && v.shards[i].Primary() == Some(p) && IsNodeFailed(v.nodes, p.id)
  {
    FailedPrimariesMembers(v, v.shards);
    hide IsNodeFailed;
    failed := [];
    for i := 0 to |v.shards|
      invariant failed == FailedPrimariesOf(v, v.shards[..i])
    {
      assert v.shards[..i + 1][..i] == v.shards[..i];
      var p := v.shards[i].Primary();
      if p.Some? && IsNodeFailed(v.nodes, p.value.id) {
        failed := failed + [p.value];
      }
    }
    assert v.shards[..|v.shards|] == v.shards;
  }
}
