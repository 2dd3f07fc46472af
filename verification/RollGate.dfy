/** The gate before an engine-image roll and the Degraded condition it reads (smartupdate.go,
    nodes.go): the roll sets that condition itself, and then never gets through again. */
module RollGate {
  import opened SlotRanges
  import opened ClusterView
  import opened Replicas
  import opened RollingUpdate

  /** Reconcile passes, whatever they find and whatever they are answered. Once Degraded, a roll
      of the engine image touches nothing any more. */
  method RollPasses(api: Api, d: Spec, states: seq<Option<View>>, answers: seq<Answers>)
    requires |states| == |answers|
    modifies api
    ensures old(api.degraded) && EngineChange(old(api.nodes), d) ==>
              api.degraded && api.nodes == old(api.nodes) && api.failovers == old(api.failovers)
  {
    hide EngineChange, Decide, FitToRoll;
    for i := 0 to |states|
      invariant old(api.degraded) && EngineChange(old(api.nodes), d) ==>
                  api.degraded && api.nodes == old(api.nodes) && api.failovers == old(api.failovers)
    {
      var ok := RollNextNode(api, states[i], d, answers[i]);
    }
  }

  /** A pending engine change is held in every pass, whatever it finds, if and only if the cluster
      is Degraded. */
  lemma HeldIff(nodes: seq<Node>, degraded: bool, d: Spec)
    requires EngineChange(nodes, d) && forall n :: n in nodes ==> !MidRoll(n, d)
    ensures degraded <==> forall state, a :: Planned(nodes, degraded, state, d, a) == Hold
  {
    hide EngineChange, FitToRoll, Decide, MidRoll, Group;
    var peers := map["a" := PeerView("a", ["master"], "-")];
    var p := NodeState("a", "s", "", [], "", true, Primary, 0, [SlotRange(0, TOTAL_SLOTS - 1)], 1, 1, peers, true);
    AloneIsFit(p);
    var state, a := Some(Group([p])), Answers(false, false, false, false, false, [], false);
    NotHeld(nodes, state, d);
    if !degraded { assert Planned(nodes, degraded, state, d, a) == Decide(nodes, state, d); }
  }

  lemma NotHeld(nodes: seq<Node>, state: Option<View>, d: Spec)
    requires forall n :: n in nodes ==> !MidRoll(n, d)
    ensures Decide(nodes, state, d) != Hold
  {
    hide MidRoll, Candidate, LiveState, FailoverTarget;
  }

  lemma AloneGroups(p: NodeState)
    requires p.IsPrimary() && p.NumSlots() != 0
    ensures Group([p]) == View([p], [ShardState(p.shardID, p.id, p.slots, [p])], [])
  {
    assert [p][..0] == [] && Group([]) == View([], [], []);
    var blank := ShardState(p.shardID, "", [], []);
    assert JoinShard(blank, p) == ShardState(p.shardID, p.id, p.slots, [p]);
    assert Group([p]) == GroupStep(View([], [], []), p);
    assert Group([p]) == View([p], [blank][0 := JoinShard(blank, p)], []);
  }

  lemma AloneLives(p: NodeState)
    requires p.id != "" && p.flags == [] && forall k :: k in p.peers ==> !Failing(p.peers[k].flags)
    ensures !IsNodeFailed([p], p.id)
  {
    assert [p][..0] == [] && ByID([p]) == map[p.id := p];
    assert !Failing(p.flags);
  }

  /** One primary that reports every slot passes the health checks. */
  lemma AloneIsFit(p: NodeState)
    requires p.id != "" && p.IsPrimary() && p.flags == [] && forall k :: k in p.peers ==> !Failing(p.peers[k].flags)
    requires p.slots == [SlotRange(0, TOTAL_SLOTS - 1)]
    ensures FitToRoll(Some(Group([p])))
    ensures Group([p]) == View([p], [ShardState(p.shardID, p.id, p.slots, [p])], [])
  {
    CountPositive(p.slots);
    AloneGroups(p);
    AloneLives(p);
    hide Group, IsNodeFailed, CountSlots;
    var v := Group([p]);
    assert v.shards[0] in v.shards && p.slots[0] in p.slots;
    assert v.shards[..0] == [] && FailedPrimariesOf(v, v.shards[..0]) == [];
  }

  /** The roll does that to itself: the scrape misses the synced replica of the last primary to
      be rolled, so its failover is put off, the cluster is marked Degraded, and from then on
      every pass holds, also one that sees the replica again. */
  lemma SelfDeadlock() returns (nodes: seq<Node>, state: Option<View>, d: Spec, a: Answers)
    ensures EngineChange(nodes, d) && Planned(nodes, false, state, d, a) == Defer
    ensures DegradedAfter(nodes, false, state, d, a)
    ensures forall state', a' :: Planned(nodes, true, state', d, a') == Hold
  {
    d := Spec("hash", "new");
    var x := Node("x", 0, Spec("hash", "old"), "10.0.0.1", true, 1, 1);
    var y := Node("y", 1, d, "10.0.0.2", true, 1, 1);
    var peers := map["a" := PeerView("a", ["master"], "-"), "b" := PeerView("b", ["slave"], "a")];
    var p := NodeState("a", "s", x.podIP + CLIENT_PORT, [], "", true, Primary, 0, [SlotRange(0, TOTAL_SLOTS - 1)], 2, 1,
                       peers, true);
    nodes, state, a := [x, y], Some(Group([p])), Answers(false, false, false, false, false, [], false);
    AloneIsFit(p);
    AloneDefers(x, y, p, d);
    assert x in nodes;
    hide FitToRoll, Decide, Group;
    assert EngineChange(nodes, d);
  }

  lemma AloneDefers(x: Node, y: Node, p: NodeState, d: Spec)
    requires x.NeedsRoll(d) && y.Converged(d) && x.podIP != "" && p.addr == x.podIP + CLIENT_PORT && p.IsPrimary()
    requires Group([p]) == View([p], [ShardState(p.shardID, p.id, p.slots, [p])], [])
    ensures Decide([x, y], Some(Group([p])), d) == Defer
  {
    var v := Group([p]);
    CandidateFacts([x, y], Some(v), d);
    assert x in [x, y];
    hide Candidate, Group;
    assert v.nodes[..0] == [] && ByAddr(v.nodes) == map[p.addr := p];
    assert Synced(v.nodes, p.id) == [];
  }
}
