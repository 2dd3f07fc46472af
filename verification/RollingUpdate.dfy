/** The rolling update (nodes.go, failover.go, smartupdate.go): the gate before an engine-image
    roll, which node a reconcile pass stamps next, and the graceful failover that precedes the
    stamp of a live primary. */
module RollingUpdate {
  import opened Sorting
  import opened ClusterView
  import opened Replicas
  import Planner
  import SlotRanges

  /** The roll-relevant part of a node's spec. */
  datatype Spec = Spec(hash: string, image: string)

  datatype Node = Node(name: string, index: int, spec: Spec, podIP: string, ready: bool, generation: int,
                       observed: int) {
    /** `nodeNeedsRoll`. */
    predicate NeedsRoll(d: Spec) { spec.hash != d.hash || spec.image != d.image }

    predicate Settled() { ready && observed == generation }

    /** `nodeConverged`. */
    predicate Converged(d: Spec) { spec.hash == d.hash && spec.image == d.image && Settled() }

    /** Writing the new spec bumps the generation, so the node is unsettled until it is back. */
    function Stamp(d: Spec): (r: Node) { this.(spec := d, generation := generation + 1) }
  }

  predicate NameLe(a: Node, b: Node) { StringLe(a.name, b.name) }

  const CLIENT_PORT: string := ":6379"

  /** `liveStateOf`: what the scrape saw at the node's pod IP. */
  function LiveState(state: Option<View>, n: Node): (r: Option<NodeState>) {
    if state.None? || n.podIP == "" then None
    else
      var byAddr := ByAddr(state.value.nodes);
      if n.podIP + CLIENT_PORT in byAddr then Some(byAddr[n.podIP + CLIENT_PORT]) else None
  }

  /** `isLivePrimaryNode`. */
  predicate IsLivePrimary(state: Option<View>, n: Node) {
    match LiveState(state, n) case Some(live) => live.IsPrimary() case None => n.index == 0
  }

  // ----- choosing the next node

  predicate MidRoll(n: Node, d: Spec) { !n.NeedsRoll(d) && !n.Converged(d) }

  /** `midRollNode`. */
  method MidRollNode(nodes: seq<Node>, d: Spec) returns (mid: Option<Node>)
    ensures mid.None? <==> forall n :: n in nodes ==> !MidRoll(n, d)
    ensures mid.Some? ==> mid.value in nodes && MidRoll(mid.value, d)
  {
    for i := 0 to |nodes|
      invariant forall k :: 0 <= k < i ==> !MidRoll(nodes[k], d)
    {
      if MidRoll(nodes[i], d) {
        return Some(nodes[i]);
      }
    }
    return None;
  }

  function FirstOf(nodes: seq<Node>, state: Option<View>, d: Spec, primary: bool): (r: Option<Node>) {
    if nodes == [] then None
    else
      var before, n := FirstOf(nodes[..|nodes| - 1], state, d, primary), nodes[|nodes| - 1];
      if before.Some? then before
      else if n.NeedsRoll(d) && IsLivePrimary(state, n) == primary then Some(n) else None
  }

  /** Live replicas before live primaries, each tier by name. */
  function Candidate(nodes: seq<Node>, state: Option<View>, d: Spec): (r: Option<Node>) {
    var order := Sort(nodes, NameLe);
    var replica := FirstOf(order, state, d, false);
    if replica.Some? then replica else FirstOf(order, state, d, true)
  }

  /** `nextRollCandidate`. */
  method NextRollCandidate(nodes: seq<Node>, state: Option<View>, d: Spec) returns (next: Option<Node>)
    ensures next == Candidate(nodes, state, d)
  {
    var order := Sort(nodes, NameLe);
    var primary: Option<Node> := None;
    for i := 0 to |order|
      invariant primary == FirstOf(order[..i], state, d, true) && FirstOf(order[..i], state, d, false) == None
    {
      assert order[..i + 1][..i] == order[..i];
      if !order[i].NeedsRoll(d) {
        continue;
      }
      if IsLivePrimary(state, order[i]) {
        if primary.None? {
          primary := Some(order[i]);
        }
        continue;
      }
      FirstOfStable(order, state, d, false, i + 1);
      return Some(order[i]);
    }
    assert order[..|order|] == order;
    return primary;
  }

  lemma {:induction false} FirstOfStable(nodes: seq<Node>, state: Option<View>, d: Spec, primary: bool, i: nat)
    requires i <= |nodes| && FirstOf(nodes[..i], state, d, primary).Some?
    ensures FirstOf(nodes, state, d, primary) == FirstOf(nodes[..i], state, d, primary)
    decreases |nodes| - i
  {
    hide IsLivePrimary;
    if i < |nodes| {
      assert nodes[..i + 1][..i] == nodes[..i];
      FirstOfStable(nodes, state, d, primary, i + 1);
    } else {
      assert nodes[..i] == nodes;
    }
  }

  predicate InTier(n: Node, state: Option<View>, d: Spec, primary: bool) {
    n.NeedsRoll(d) && IsLivePrimary(state, n) == primary
  }

  lemma {:induction false} FirstOfFacts(nodes: seq<Node>, state: Option<View>, d: Spec, primary: bool)
    requires Sorted(nodes, NameLe)
    ensures match FirstOf(nodes, state, d, primary)
            case None => forall n :: n in nodes ==> !InTier(n, state, d, primary)
            case Some(x) => x in nodes && InTier(x, state, d, primary)
                            && forall n :: n in nodes && InTier(n, state, d, primary) ==> n == x || NameLe(x, n)
  {
    hide IsLivePrimary, NameLe;
    if nodes == [] {
    } else {
      var front, last := nodes[..|nodes| - 1], nodes[|nodes| - 1];
      FirstOfFacts(front, state, d, primary);
      assert nodes == front + [last];
      assert forall i :: 0 <= i < |front| ==> NameLe(nodes[i], nodes[|nodes| - 1]);
    }
  }

  /** Nothing is chosen exactly when nothing needs a roll; a live primary only when every node
      that needs one is a live primary; and the first by name of its tier. */
  lemma CandidateFacts(nodes: seq<Node>, state: Option<View>, d: Spec)
    ensures match Candidate(nodes, state, d)
            case None => forall n :: n in nodes ==> !n.NeedsRoll(d)
            case Some(x) =>
              && x in nodes && x.NeedsRoll(d)
              && (IsLivePrimary(state, x) ==> forall n :: n in nodes && n.NeedsRoll(d) ==> IsLivePrimary(state, n))
              && forall n :: n in nodes && InTier(n, state, d, IsLivePrimary(state, x)) ==> n == x || NameLe(x, n)
  {
    var order := Sort(nodes, NameLe);
    StringOrder();
    assert TotalPreorder(NameLe);
    hide IsLivePrimary, TotalPreorder, NameLe, FirstOf;
    SortPermutes(nodes, NameLe);
    SortSorts(nodes, NameLe);
    FirstOfFacts(order, state, d, false);
    FirstOfFacts(order, state, d, true);
  }

  // ----- one pass

  /** `PrimaryByShardID`. */
  function PrimaryByShard(v: View, shardID: string): (r: Option<NodeState>) {
    FindShardFacts(v.shards, shardID);
    var k := FindShard(v.shards, shardID);
    if k < |v.shards| then v.shards[k].Primary() else None
  }

  /** The replica a graceful failover would promote, if there is one to ask. */
  function FailoverTarget(v: View, shardID: string): (r: Option<NodeState>) {
    match PrimaryByShard(v, shardID)
    case None => None
    case Some(p) =>
      var t := Highest(Synced(v.nodes, p.id));
      if t.None? || !t.value.hasClient then None else t
  }

  /** The primary of the first shard with the ID. */
  ghost predicate Heads(v: View, shardID: string, p: NodeState) {
    exists i :: 0 <= i < |v.shards| && v.shards[i].id == shardID && v.shards[i].Primary() == Some(p)
        && forall j :: 0 <= j < i ==> v.shards[j].id != shardID
  }

  /** The most caught-up replica of the shard's primary that is in step with it, and connected. */
  ghost predicate GoodTarget(v: View, shardID: string, t: NodeState) {
    exists p, k :: Heads(v, shardID, p) && TopInStep(v.nodes, p.id, k) && v.nodes[k].hasClient && t == v.nodes[k]
  }

  /** A failover is asked of that replica, and of no other. */
  lemma TargetIs(v: View, shardID: string, t: NodeState)
    ensures FailoverTarget(v, shardID) == Some(t) <==> GoodTarget(v, shardID, t)
  {
    FindShardFacts(v.shards, shardID);
    forall p ensures Heads(v, shardID, p) <==> PrimaryByShard(v, shardID) == Some(p) {}
    var p := PrimaryByShard(v, shardID);
    if p.Some? {
      TopInStepIs(v.nodes, p.value.id);
      hide Highest, Synced, InStep;
      forall i, j | TopInStep(v.nodes, p.value.id, i) && TopInStep(v.nodes, p.value.id, j) ensures i == j {
        TopInStepUnique(v.nodes, p.value.id, i, j);
      }
    }
  }

  datatype Decision = Hold | Nothing | Defer | Promote(x: Node, target: NodeState) | Restart(x: Node)

  /** What a pass sets out to do. */
  function Decide(nodes: seq<Node>, state: Option<View>, d: Spec): (r: Decision) {
    if exists n :: n in nodes && MidRoll(n, d) then Hold
    else match Candidate(nodes, state, d)
         case None => Nothing
         case Some(x) =>
           match LiveState(state, x)
           case None => Restart(x)
           case Some(live) =>
             if !live.IsPrimary() then Restart(x)
             else match FailoverTarget(state.value, live.shardID)
                  case None => Defer
                  case Some(t) => Promote(x, t)
  }

  // ----- the decision, said without the selection

  /** What the scrape saw last at the node's pod IP. */
  ghost predicate Saw(state: Option<View>, n: Node, s: NodeState) {
    && state.Some? && n.podIP != ""
    && exists k :: LastWithAddr(state.value.nodes, n.podIP + ":6379", k) && state.value.nodes[k] == s
  }

  /** Its role as seen; unseen, by its index. */
  ghost predicate CountsAsPrimary(state: Option<View>, n: Node) {
    if exists s :: Saw(state, n, s) then forall s :: Saw(state, n, s) ==> s.role == Primary else n.index == 0
  }

  lemma LiveStateSaw(state: Option<View>, n: Node)
    ensures forall s :: LiveState(state, n) == Some(s) <==> Saw(state, n, s)
    ensures IsLivePrimary(state, n) <==> CountsAsPrimary(state, n)
  {
    if state.Some? && n.podIP != "" {
      ByAddrFacts(state.value.nodes, n.podIP + ":6379");
      hide ByAddr;
      forall j, k | LastWithAddr(state.value.nodes, n.podIP + ":6379", j)
                    && LastWithAddr(state.value.nodes, n.podIP + ":6379", k)
        ensures j == k
      {}
      forall k | LastWithAddr(state.value.nodes, n.podIP + ":6379", k)
        ensures state.value.nodes[k] in state.value.nodes
      {}
    }
    assert forall s :: LiveState(state, n) == Some(s) <==> Saw(state, n, s);
  }

  /** The next node to roll: it carries another spec, a primary comes only when all that do are
      primaries, and within its tier it is the first by name. */
  ghost predicate NextToRoll(nodes: seq<Node>, state: Option<View>, d: Spec, x: Node) {
    && x in nodes && x.spec != d
    && (CountsAsPrimary(state, x) ==> forall n :: n in nodes && n.spec != d ==> CountsAsPrimary(state, n))
    && forall n :: n in nodes && n.spec != d && (CountsAsPrimary(state, n) <==> CountsAsPrimary(state, x)) ==>
         n == x || NameLe(x, n)
  }

  /** What a decision means: hold while a stamped node is not back; nothing when all carry the spec;
      otherwise restart the next node, unless it was seen as a primary, and then fail over to a
      good target, or wait for one. */
  ghost predicate Decides(nodes: seq<Node>, state: Option<View>, d: Spec, r: Decision) {
    if exists n :: n in nodes && n.spec == d && !(n.ready && n.observed == n.generation) then r == Hold
    else if forall n :: n in nodes ==> n.spec == d then r == Nothing
    else
      exists x :: NextToRoll(nodes, state, d, x) &&
        if forall s :: Saw(state, x, s) ==> s.role != Primary then r == Restart(x)
        else
          exists s :: Saw(state, x, s) && s.role == Primary &&
            if exists t :: GoodTarget(state.value, s.shardID, t)
            then exists t :: GoodTarget(state.value, s.shardID, t) && r == Promote(x, t)
            else r == Defer
  }

  lemma DecideIs(nodes: seq<Node>, state: Option<View>, d: Spec)
    ensures Decides(nodes, state, d, Decide(nodes, state, d))
  {
    forall n: Node ensures n.NeedsRoll(d) <==> n.spec != d {}
    if (forall n :: n in nodes ==> !MidRoll(n, d)) && Candidate(nodes, state, d).Some? {
      var x := Candidate(nodes, state, d).value;
      CandidateIs(nodes, state, d, x);
      LiveStateSaw(state, x);
      hide Candidate, LiveState, IsLivePrimary, Saw, NextToRoll, NameLe, GoodTarget, FailoverTarget;
      if LiveState(state, x).Some? {
        var s := LiveState(state, x).value;
        assert Saw(state, x, s);
        SawSomething(state, x, s);
        forall t ensures FailoverTarget(state.value, s.shardID) == Some(t) <==> GoodTarget(state.value, s.shardID, t) {
          TargetIs(state.value, s.shardID, t);
        }
        DecideStep(nodes, state, d, x, s);
      } else {
        DecideBlind(nodes, state, d, x);
      }
    } else {
      CandidateFacts(nodes, state, d);
    }
  }

  lemma SawSomething(state: Option<View>, x: Node, s: NodeState)
    requires Saw(state, x, s)
    ensures state.Some? && forall t :: Saw(state, x, t) ==> t == s
  {
    forall j, k | LastWithAddr(state.value.nodes, x.podIP + ":6379", j)
                  && LastWithAddr(state.value.nodes, x.podIP + ":6379", k)
      ensures j == k
    {}
  }

  lemma CandidateIs(nodes: seq<Node>, state: Option<View>, d: Spec, x: Node)
    requires Candidate(nodes, state, d) == Some(x)
    ensures NextToRoll(nodes, state, d, x)
  {
    CandidateFacts(nodes, state, d);
    hide Candidate, IsLivePrimary, CountsAsPrimary, NameLe;
    forall n: Node
      ensures IsLivePrimary(state, n) <==> CountsAsPrimary(state, n)
      ensures n.NeedsRoll(d) <==> n.spec != d
    {
      LiveStateSaw(state, n);
    }
  }

  lemma DecideStep(nodes: seq<Node>, state: Option<View>, d: Spec, x: Node, s: NodeState)
    requires state.Some? && NextToRoll(nodes, state, d, x) && (forall n :: n in nodes ==> !MidRoll(n, d))
    requires Candidate(nodes, state, d) == Some(x) && LiveState(state, x) == Some(s)
    requires Saw(state, x, s) && forall t :: Saw(state, x, t) ==> t == s
    requires forall t :: FailoverTarget(state.value, s.shardID) == Some(t) <==> GoodTarget(state.value, s.shardID, t)
    ensures Decides(nodes, state, d, Decide(nodes, state, d))
  {
    assert x in nodes && x.spec != d;
    hide Candidate, LiveState, Saw, NextToRoll, GoodTarget, FailoverTarget;
  }

  lemma DecideBlind(nodes: seq<Node>, state: Option<View>, d: Spec, x: Node)
    requires NextToRoll(nodes, state, d, x) && (forall n :: n in nodes ==> !MidRoll(n, d))
    requires Candidate(nodes, state, d) == Some(x) && LiveState(state, x).None?
    requires forall s :: !Saw(state, x, s)
    ensures Decides(nodes, state, d, Decide(nodes, state, d))
  {
    assert x in nodes && x.spec != d;
    hide Candidate, LiveState, Saw, NextToRoll;
  }

  function StampIn(nodes: seq<Node>, x: Node, d: Spec): (r: seq<Node>) {
    seq(|nodes|, i requires 0 <= i < |nodes| => if nodes[i].name == x.name then nodes[i].Stamp(d) else nodes[i])
  }

  /** A stamped node carries the wanted spec and is one generation ahead; the rest stay as they are. */
  lemma StampInIs(nodes: seq<Node>, x: Node, d: Spec)
    ensures |StampIn(nodes, x, d)| == |nodes|
    ensures forall i :: 0 <= i < |nodes| ==>
              StampIn(nodes, x, d)[i] == if nodes[i].name == x.name
                                         then nodes[i].(spec := d, generation := nodes[i].generation + 1) else nodes[i]
  {
  }

  class Api {
    var nodes: seq<Node>
    var degraded: bool          // the cluster's Degraded condition
    var failovers: seq<string>  // CLUSTER FAILOVER commands issued, by target node ID
  }

  /** What the outside answers during a pass: whether a backup or restore holds all rolls, whether
      the node list cannot be read again, what the downgrade policy and the backup lease say,
      whether the commands fail, and the target's role at each poll until the deadline. */
  datatype Answers = Answers(gated: bool, listFault: bool, downgrade: bool, backup: bool, failoverFault: bool,
                             roles: seq<Role>, updateFault: bool)

  // ----- the gate before an engine-image roll

  /** Some node carries another engine image than the wanted one; a node without one does not count. */
  ghost predicate EngineChange(nodes: seq<Node>, d: Spec) {
    exists n :: n in nodes && n.spec.image != "" && n.spec.image != d.image
  }

  /** `pendingEngineChange`. */
  method PendingEngineChange(nodes: seq<Node>, d: Spec) returns (changing: bool)
    ensures changing <==> EngineChange(nodes, d)
    ensures changing <==> exists n :: n in nodes && n.spec.image != "" && n.spec.image != d.image
  {
    for i := 0 to |nodes|
      invariant !EngineChange(nodes[..i], d)
    {
      if nodes[i].spec.image != "" && nodes[i].spec.image != d.image {
        return true;
      }
    }
    return false;
  }

  ghost predicate AllAssigned(shards: seq<ShardState>) {
    forall s: int :: 0 <= s < SlotRanges.TOTAL_SLOTS ==> OwnedByShard(shards, s)
  }

  /** The scrape shows every slot assigned, no failed primary and every replica in sync. */
  ghost predicate FitToRoll(state: Option<View>) {
    && state.Some? && AllAssigned(state.value.shards) && FailedPrimariesOf(state.value, state.value.shards) == []
    && InSync(state.value.shards)
  }

  lemma FitMeans(state: Option<View>)
    ensures FitToRoll(state) <==>
            && state.Some? && AllAssigned(state.value.shards) && InSync(state.value.shards)
            && forall sh :: sh in state.value.shards && sh.Primary().Some? ==>
                 !IsNodeFailed(state.value.nodes, sh.Primary().value.id)
  {
    hide IsNodeFailed, AllAssigned, InSync;
    if state.Some? {
      var v := state.value;
      var failed := FailedPrimariesOf(v, v.shards);
      FailedPrimariesMembers(v, v.shards);
      hide FailedPrimariesOf;
      if failed != [] {
        assert failed[0] in failed;
        var i :| 0 <= i < |v.shards| && v.shards[i].Primary() == Some(failed[0]);
        assert v.shards[i] in v.shards;
      }
      forall sh | sh in v.shards && sh.Primary().Some? && IsNodeFailed(v.nodes, sh.Primary().value.id)
        ensures sh.Primary().value in failed
      {
        var i :| 0 <= i < |v.shards| && v.shards[i] == sh;
        assert v.shards[i].Primary() == Some(sh.Primary().value);
      }
    }
  }

  /** `smartUpdateAllowed`. */
  method SmartUpdateAllowed(degraded: bool, state: Option<View>, a: Answers) returns (ok: bool)
    ensures ok <==> !a.backup && !degraded && FitToRoll(state)
    ensures ok <==>
            && !a.backup && !degraded && state.Some?
            && (forall s: int :: 0 <= s < SlotRanges.TOTAL_SLOTS ==> OwnedByShard(state.value.shards, s))
            && (forall sh :: sh in state.value.shards && sh.Primary().Some? ==>
                  !IsNodeFailed(state.value.nodes, sh.Primary().value.id))
            && (forall sh, n :: sh in state.value.shards && n in sh.nodes && n.role == Replica ==> n.linkUp)
  {
    FitMeans(state);
    hide IsNodeFailed, OwnedByShard;
    if a.backup || degraded || state.None? {
      return false;
    }
    var unassigned := Planner.GetUnassignedSlots(state.value.shards);
    if |unassigned| != 0 {
      return false;
    }
    var failed := FailedPrimaries(state.value);
    if |failed| != 0 {
      return false;
    }
    ok := IsReplicationInSync(state.value.shards);
  }

  /** Only an engine-image roll is gated. */
  ghost predicate Allowed(nodes: seq<Node>, degraded: bool, state: Option<View>, d: Spec, a: Answers) {
    !a.listFault && (EngineChange(nodes, d) ==> !a.downgrade && !a.backup && !degraded && FitToRoll(state))
  }

  /** The downgrade policy refuses the pending engine change. */
  ghost predicate Refuses(nodes: seq<Node>, d: Spec, a: Answers) {
    !a.listFault && EngineChange(nodes, d) && a.downgrade
  }

  /** `reconcileSmartUpdate`. */
  method ReconcileSmartUpdate(api: Api, state: Option<View>, d: Spec, a: Answers) returns (allowed: bool)
    modifies api`degraded
    ensures allowed <==> Allowed(api.nodes, old(api.degraded), state, d, a)
    ensures api.degraded == (old(api.degraded) || Refuses(api.nodes, d, a))
    ensures var changing := exists n :: n in api.nodes && n.spec.image != "" && n.spec.image != d.image;
            && (allowed ==> !a.listFault)
            && (!a.listFault && !changing ==> allowed)
            && (!a.listFault && changing ==>
                  (allowed <==> !a.downgrade && !a.backup && !old(api.degraded) && FitToRoll(state)))
            && (api.degraded <==> old(api.degraded) || (!a.listFault && changing && a.downgrade))
  {
    if a.listFault {
      return false;
    }
    var changing := PendingEngineChange(api.nodes, d);
    if !changing {
      return true;
    }
    if a.downgrade {
      api.degraded := true;
      return false;
    }
    allowed := SmartUpdateAllowed(api.degraded, state, a);
  }

  /** What a pass does once all gates have spoken. */
  ghost function Planned(nodes: seq<Node>, degraded: bool, state: Option<View>, d: Spec, a: Answers): (r: Decision) {
    if a.gated || !Allowed(nodes, degraded, state, d, a) then Hold else Decide(nodes, state, d)
  }

  /** The condition after a pass: a refused downgrade and a failover that is not done set it, a
      completed failover clears it. */
  ghost predicate DegradedAfter(nodes: seq<Node>, degraded: bool, state: Option<View>, d: Spec, a: Answers) {
    var plan := Planned(nodes, degraded, state, d, a);
    if plan.Defer? then true
    else if plan.Promote? && !a.failoverFault then Primary !in a.roles
    else degraded || (!a.gated && (forall n :: n in nodes ==> !MidRoll(n, d)) && Refuses(nodes, d, a))
  }

  /** `awaitRoleFlip`. */
  method AwaitRoleFlip(roles: seq<Role>) returns (flipped: bool)
    ensures flipped <==> Primary in roles
  {
    for i := 0 to |roles|
      invariant Primary !in roles[..i]
    {
      if roles[i] == Primary {
        return true;
      }
    }
    return false;
  }

  /** `proactiveFailover`. */
  method ProactiveFailover(api: Api, v: View, shardID: string, a: Answers) returns (done: bool, ok: bool)
    modifies api`failovers
    ensures match FailoverTarget(v, shardID)
            case None => !done && ok && api.failovers == old(api.failovers)
            case Some(t) =>
              && ok == !a.failoverFault && done == (ok && Primary in a.roles)
              && api.failovers == old(api.failovers) + [t.id]
    ensures (forall t :: !GoodTarget(v, shardID, t)) ==> !done && ok && api.failovers == old(api.failovers)
    ensures forall t :: GoodTarget(v, shardID, t) ==>
              && ok == !a.failoverFault && done == (ok && Primary in a.roles)
              && api.failovers == old(api.failovers) + [t.id]
  {
    forall t: NodeState ensures FailoverTarget(v, shardID) == Some(t) <==> GoodTarget(v, shardID, t) {
      TargetIs(v, shardID, t);
    }
    hide GoodTarget, InStep;
    var primary := PrimaryByShard(v, shardID);
    if primary.None? {
      return false, true;
    }
    var target := HighestOffsetReplica(v.nodes, primary.value.id);
    if target.None? || !target.value.hasClient {
      return false, true;
    }
    api.failovers := api.failovers + [target.value.id];
    if a.failoverFault {
      return false, false;
    }
    done := AwaitRoleFlip(a.roles);
    return done, true;
  }

  /** What a pass does and leaves behind, said without the selections: it holds when gated, and
      otherwise carries out what the nodes and the scrape call for. A failover that is put off or
      does not complete marks the cluster Degraded, a completed one clears that. */
  lemma PassMeans(nodes: seq<Node>, degraded: bool, state: Option<View>, d: Spec, a: Answers)
    ensures var r := Planned(nodes, degraded, state, d, a);
            && (if a.gated || !Allowed(nodes, degraded, state, d, a) then r == Hold else Decides(nodes, state, d, r))
            && (r.Defer? ==> DegradedAfter(nodes, degraded, state, d, a))
            && (r.Promote? && !a.failoverFault ==>
                  (DegradedAfter(nodes, degraded, state, d, a) <==> Primary !in a.roles))
            && ((r.Promote? && a.failoverFault) || r.Restart? || r.Nothing? ==>
                  (DegradedAfter(nodes, degraded, state, d, a) <==> degraded))
            && (r.Hold? && a.gated ==> (DegradedAfter(nodes, degraded, state, d, a) <==> degraded))
  {
    DecideIs(nodes, state, d);
    hide Decides, Decide, EngineChange, FitToRoll, MidRoll;
  }

  /** `rollNextNode` with `rollNode`: at most one node is stamped, and a scraped primary only
      after its failover target answered as primary. */
  method RollNextNode(api: Api, state: Option<View>, d: Spec, a: Answers) returns (ok: bool)
    modifies api
    ensures var plan := Planned(old(api.nodes), old(api.degraded), state, d, a);
            && api.failovers == old(api.failovers) + (if plan.Promote? then [plan.target.id] else [])
            && (ok <==> !(plan.Promote? && a.failoverFault)
                        && !((plan.Restart? || (plan.Promote? && Primary in a.roles)) && a.updateFault))
            && api.nodes == (if ok && (plan.Restart? || (plan.Promote? && Primary in a.roles))
                             then StampIn(old(api.nodes), plan.x, d) else old(api.nodes))
    ensures api.degraded == DegradedAfter(old(api.nodes), old(api.degraded), state, d, a)
  {
    hide Candidate, FailoverTarget, ByAddr, FitToRoll, EngineChange;
    if a.gated {
      return true;
    }
    var mid := MidRollNode(api.nodes, d);
    if mid.Some? {
      return true;
    }
    var allowed := ReconcileSmartUpdate(api, state, d, a);
    if !allowed {
      return true;
    }
    var next := NextRollCandidate(api.nodes, state, d);
    if next.None? {
      return true;
    }
    var x := next.value;
    if state.Some? {
      var live := LiveState(state, x);
      if live.Some? && live.value.IsPrimary() {
        var done, sent := ProactiveFailover(api, state.value, live.value.shardID, a);
        if !sent {
          return false;
        }
        if !done {
          api.degraded := true;
          return true;
        }
        api.degraded := false;
      }
    }
    if a.updateFault {
      return false;
    }
    api.nodes := StampIn(api.nodes, x, d);
    return true;
  }
}
