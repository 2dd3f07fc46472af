/** Phases 8 and 9 of a reconcile: take over orphaned shards, then FORGET node IDs that no
    longer have a node behind them (topology.go, recovery.go, controller.go). */
module Recovery {
  import opened Sorting
  import opened ClusterView
  import opened Positions
  import opened Replicas

  // ----- which IDs are stale

  /** `hasReplicaOf`: some gossiped node lists `id` as its primary; a backing set restricts
      the search to nodes it holds, a nil one does not. */
  predicate HasReplicaOf(nodes: seq<NodeState>, id: string, backing: Option<set<string>>) {
    exists n :: n in nodes && Lists(n.peers, id, backing)
  }

  predicate Lists(peers: map<string, PeerView>, id: string, backing: Option<set<string>>) {
    exists k :: k in peers && peers[k].primaryID == id && (backing.None? || peers[k].id in backing.value)
  }

  predicate Forgettable(nodes: seq<NodeState>, id: string, backing: Option<set<string>>) {
    id != "" && !(backing.Some? && id in backing.value) && !HasReplicaOf(nodes, id, backing)
  }

  predicate Known(nodes: seq<NodeState>, id: string) { exists n :: n in nodes && id in n.peers }

  /** Known to gossip, not backed, and no backed replica follows it. */
  predicate IsStale(nodes: seq<NodeState>, id: string, backing: Option<set<string>>) {
    Known(nodes, id) && Forgettable(nodes, id, backing)
  }

  ghost predicate IsStaleList(nodes: seq<NodeState>, backing: Option<set<string>>, stale: seq<string>) {
    Sorted(stale, StringLe) && Distinct(stale) && forall id :: id in stale <==> IsStale(nodes, id, backing)
  }

  /** `StaleNodeIDs`. Each peer table is walked in an arbitrary order. */
  method StaleNodeIDs(nodes: seq<NodeState>, backing: Option<set<string>>) returns (stale: seq<string>)
    ensures IsStaleList(nodes, backing, stale)
    ensures forall id :: id in stale <==>
              && id != "" && (exists n :: n in nodes && id in n.peers) && (backing.Some? ==> id !in backing.value)
              && forall n, k :: n in nodes && k in n.peers && n.peers[k].primaryID == id ==>
                   backing.Some? && n.peers[k].id !in backing.value
  {
    StaleMeans(nodes, backing);
    hide Forgettable, Sorted, TieFree, TotalPreorder;
    var list: seq<string> := [];
    for i := 0 to |nodes|
      invariant Distinct(list)
      invariant forall id :: id in list <==> Known(nodes[..i], id) && Forgettable(nodes, id, backing)
    {
      assert nodes[..i + 1] == nodes[..i] + [nodes[i]];
      var left := nodes[i].peers.Keys;
      while left != {}
        invariant left <= nodes[i].peers.Keys && Distinct(list)
        invariant forall id :: id in list <==>
                    (Known(nodes[..i], id) || (id in nodes[i].peers && id !in left)) && Forgettable(nodes, id, backing)
        decreases left
      {
        var id :| id in left;
        left := left - {id};
        if Forgettable(nodes, id, backing) && id !in list {
          list := list + [id];
        }
      }
    }
    assert nodes[..|nodes|] == nodes;
    stale := Sort(list, StringLe);
    SortPermutes(list, StringLe);
    SortKeepsDistinct(list, StringLe);
    StringOrder();
    SortSorts(list, StringLe);
  }

  /** A stale ID: gossip knows it, nothing is behind it, and no node with something behind it
      follows it. */
  lemma StaleMeans(nodes: seq<NodeState>, backing: Option<set<string>>)
    ensures forall id :: IsStale(nodes, id, backing) <==>
              && id != "" && (exists n :: n in nodes && id in n.peers) && (backing.Some? ==> id !in backing.value)
              && forall n, k :: n in nodes && k in n.peers && n.peers[k].primaryID == id ==>
                   backing.Some? && n.peers[k].id !in backing.value
  {
  }

  lemma SameStale(a: seq<NodeState>, b: seq<NodeState>, backing: Option<set<string>>, id: string)
    requires forall n :: n in a <==> n in b
    ensures IsStale(a, id, backing) <==> IsStale(b, id, backing)
  {
    hide Lists;
  }

  /** The answer is determined: neither the map order nor the node order can show. */
  lemma StaleListUnique(a: seq<NodeState>, b: seq<NodeState>, backing: Option<set<string>>, s: seq<string>,
                        t: seq<string>)
    requires forall n :: n in a <==> n in b
    requires IsStaleList(a, backing, s) && IsStaleList(b, backing, t)
    ensures s == t
  {
    hide IsStale, Distinct, Sorted, TieFree, TotalPreorder;
    forall x ensures x in s <==> x in t { SameStale(a, b, backing, x); }
    SameMembersSameCounts(s, t);
    StringOrder();
    StringsTieFree(s);
    SortedUnique(s, t, StringLe);
  }

  /** `backingNodeIDs`: the scraped IDs whose address belongs to an existing node. */
  method BackingNodeIDs(nodes: seq<NodeState>, podIPs: seq<string>) returns (backing: set<string>)
    ensures backing == Backing(nodes, podIPs)
    ensures forall id :: id in backing <==>
              id != "" && exists n :: n in nodes && n.id == id && HostFromAddr(n.addr) != ""
                                      && HostFromAddr(n.addr) in podIPs
  {
    hide HostFromAddr;
    var liveIPs: set<string> := {};
    for i := 0 to |podIPs|
      invariant forall ip :: ip in liveIPs <==> ip != "" && ip in podIPs[..i]
    {
      if podIPs[i] != "" {
        liveIPs := liveIPs + {podIPs[i]};
      }
    }
    backing := {};
    for i := 0 to |nodes|
      invariant backing == Backing(nodes[..i], podIPs)
    {
      assert nodes[..i + 1] == nodes[..i] + [nodes[i]];
      if nodes[i].id == "" {
        continue;
      }
      if HostFromAddr(nodes[i].addr) in liveIPs {
        backing := backing + {nodes[i].id};
      }
    }
    assert nodes[..|nodes|] == nodes;
  }

  predicate IsBacked(n: NodeState, podIPs: seq<string>) {
    n.id != "" && HostFromAddr(n.addr) != "" && HostFromAddr(n.addr) in podIPs
  }

  function Backing(nodes: seq<NodeState>, podIPs: seq<string>): (r: set<string>) {
    set n | n in nodes && IsBacked(n, podIPs) :: n.id
  }

  // ----- commands

  datatype Mode = Graceful | Force | Takeover

  /** `FailoverDecision`. */
  function FailoverDecision(quorum: bool): (r: Mode) { if quorum then Force else Takeover }

  datatype Command = Failover(on: NodeState, mode: Mode) | Forget(on: NodeState, id: string)

  class Fleet {
    var log: seq<Command>

    /** A command counts as issued even when it fails. */
    method Send(c: Command, faults: Command -> bool) returns (ok: bool)
      modifies this
      ensures log == old(log) + [c] && ok == !faults(c)
    {
      log := log + [c];
      return !faults(c);
    }
  }

  /** A list of commands was issued in order, up to and including the first that failed. */
  ghost predicate Issued(cmds: seq<Command>, sent: seq<Command>, faults: Command -> bool, ok: bool) {
    if ok then sent == cmds && forall c :: c in cmds ==> !faults(c)
    else
      && sent != [] && sent <= cmds && faults(sent[|sent| - 1])
      && forall i :: 0 <= i < |sent| - 1 ==> !faults(sent[i])
  }

  // ----- taking over

  function Takeovers(nodes: seq<NodeState>, failed: seq<NodeState>): (r: seq<Command>) {
    if failed == [] then []
    else
      var before, rep := Takeovers(nodes, failed[..|failed| - 1]), Highest(Followers(nodes, failed[|failed| - 1].id));
      if rep.None? || !rep.value.hasClient then before else before + [Failover(rep.value, Takeover)]
  }

  ghost function PromoteCommands(v: View, persistence: bool): (r: seq<Command>) {
    if persistence || Quorum(v) then [] else Takeovers(v.nodes, FailedPrimariesOf(v, v.shards))
  }

  /** The takeovers are exactly those of the most caught-up followers of the listed primaries, as
      far as they are connected. */
  lemma {:induction false} TakeoversAre(nodes: seq<NodeState>, failed: seq<NodeState>, c: Command)
    ensures c in Takeovers(nodes, failed) <==>
            exists p, k :: p in failed && TopFollower(nodes, p.id, k) && nodes[k].hasClient
                && c == Failover(nodes[k], Takeover)
  {
    hide Highest, Followers;
    if failed == [] {
    } else {
      var front, last := failed[..|failed| - 1], failed[|failed| - 1];
      TakeoversAre(nodes, front, c);
      assert failed == front + [last];
      TopFollowerIs(nodes, last.id);
      var rep := Highest(Followers(nodes, last.id));
      forall k | TopFollower(nodes, last.id, k) ensures 0 <= k < |nodes| && rep == Some(nodes[k]) {
        InNodes(nodes, last.id, k);
        if rep.Some? {
          var j :| TopFollower(nodes, last.id, j) && nodes[j] == rep.value;
          TopFollowerUnique(nodes, last.id, j, k);
        }
      }
    }
  }

  lemma InNodes(nodes: seq<NodeState>, id: string, k: int)
    requires TopFollower(nodes, id, k)
    ensures 0 <= k < |nodes| && nodes[k] in nodes && Follows(nodes[k], id)
  {
  }

  /** `promoteOrphanedReplicas`: nothing with persistence or a quorum; otherwise promote the
      best replica of every failed primary. */
  method PromoteOrphanedReplicas(fleet: Fleet, v: View, persistence: bool, faults: Command -> bool)
    returns (acted: bool, ok: bool, ghost sent: seq<Command>)
    modifies fleet
    ensures fleet.log == old(fleet.log) + sent && Issued(PromoteCommands(v, persistence), sent, faults, ok)
    ensures ok ==> (acted <==> sent != [])
    ensures ok ==> forall c :: c in sent <==> IsTakeover(v, persistence, c)
  {
    PromotionsAre(v, persistence);
    hide Quorum, Takeovers, IsTakeover;
    if persistence {
      return false, true, [];
    }
    var quorum := HasFailoverQuorum(v);
    if quorum {
      return false, true, [];
    }
    var failed := FailedPrimaries(v);
    acted, ok, sent := TakeOverAll(fleet, v.nodes, failed, quorum, faults);
  }

  /** Persistence is off, the quorum is lost, and the command promotes the most caught-up follower
      of a failed shard primary, which is connected. */
  ghost predicate IsTakeover(v: View, persistence: bool, c: Command) {
    && !persistence && !Quorum(v)
    && exists i, k :: && 0 <= i < |v.shards| && v.shards[i].Primary().Some?
                      && IsNodeFailed(v.nodes, v.shards[i].Primary().value.id)
                      && TopFollower(v.nodes, v.shards[i].Primary().value.id, k) && v.nodes[k].hasClient
                      && c == Failover(v.nodes[k], Takeover)
  }

  lemma PromotionsAre(v: View, persistence: bool)
    ensures forall c :: c in PromoteCommands(v, persistence) <==> IsTakeover(v, persistence, c)
  {
    hide Quorum, Takeovers, IsNodeFailed;
    var failed := FailedPrimariesOf(v, v.shards);
    FailedPrimariesMembers(v, v.shards);
    hide FailedPrimariesOf;
    if !persistence && !Quorum(v) {
      forall c: Command ensures c in Takeovers(v.nodes, failed) <==> IsTakeover(v, persistence, c) {
        TakeoversAre(v.nodes, failed, c);
        if c in Takeovers(v.nodes, failed) {
          var p, k :| p in failed && TopFollower(v.nodes, p.id, k) && v.nodes[k].hasClient
              && c == Failover(v.nodes[k], Takeover);
          var i :| 0 <= i < |v.shards| && v.shards[i].Primary() == Some(p);
        }
        if IsTakeover(v, persistence, c) {
          var i, k :| 0 <= i < |v.shards| && v.shards[i].Primary().Some?
              && IsNodeFailed(v.nodes, v.shards[i].Primary().value.id)
              && TopFollower(v.nodes, v.shards[i].Primary().value.id, k) && v.nodes[k].hasClient
              && c == Failover(v.nodes[k], Takeover);
          assert v.shards[i].Primary().value in failed;
        }
      }
    }
  }

  method TakeOverAll(fleet: Fleet, nodes: seq<NodeState>, failed: seq<NodeState>, quorum: bool, faults: Command -> bool)
    returns (acted: bool, ok: bool, ghost sent: seq<Command>)
    requires !quorum
    modifies fleet
    ensures fleet.log == old(fleet.log) + sent && Issued(Takeovers(nodes, failed), sent, faults, ok)
    ensures ok ==> (acted <==> sent != [])
  {
    sent, acted := [], false;
    hide Highest, Followers;
    for i := 0 to |failed|
      invariant fleet.log == old(fleet.log) + sent && sent == Takeovers(nodes, failed[..i])
      invariant acted <==> sent != []
      invariant forall c :: c in sent ==> !faults(c)
    {
      assert failed[..i + 1][..i] == failed[..i];
      var rep := BestReplicaOf(nodes, failed[i].id);
      if rep.None? || !rep.value.hasClient {
        continue;
      }
      var cmd := Failover(rep.value, FailoverDecision(quorum));
      sent := sent + [cmd];
      var done := fleet.Send(cmd, faults);
      if !done {
        TakeoversGrow(nodes, failed, i + 1);
        return acted, false, sent;
      }
      acted := true;
    }
    assert failed[..|failed|] == failed;
    return acted, true, sent;
  }

  lemma {:induction false} TakeoversGrow(nodes: seq<NodeState>, failed: seq<NodeState>, i: nat)
    requires i <= |failed|
    ensures Takeovers(nodes, failed[..i]) <= Takeovers(nodes, failed)
    decreases |failed| - i
  {
    hide Highest, Followers;
    if i < |failed| {
      assert failed[..i + 1][..i] == failed[..i];
      TakeoversGrow(nodes, failed, i + 1);
    } else {
      assert failed[..i] == failed;
    }
  }

  // ----- forgetting

  function Broadcast(nodes: seq<NodeState>, id: string): (r: seq<Command>) {
    if nodes == [] then []
    else
      var before, n := Broadcast(nodes[..|nodes| - 1], id), nodes[|nodes| - 1];
      if n.id == id || !n.hasClient then before else before + [Forget(n, id)]
  }

  /** A FORGET goes to every connected node other than its target, and to no other. */
  lemma {:induction false} BroadcastIs(nodes: seq<NodeState>, id: string, c: Command)
    ensures c in Broadcast(nodes, id) <==> exists n :: n in nodes && n.hasClient && n.id != id && c == Forget(n, id)
  {
    if nodes == [] {
    } else {
      BroadcastIs(nodes[..|nodes| - 1], id, c);
      assert nodes == nodes[..|nodes| - 1] + [nodes[|nodes| - 1]];
    }
  }

  /** A failed node is left alone while it may come back by itself. */
  ghost predicate Suppressed(v: View, persistence: bool, id: string) {
    IsNodeFailed(v.nodes, id) && (persistence || Quorum(v))
  }

  ghost function Forgets(v: View, persistence: bool, stale: seq<string>): (r: seq<Command>) {
    if stale == [] then []
    else
      var before, id := Forgets(v, persistence, stale[..|stale| - 1]), stale[|stale| - 1];
      if Suppressed(v, persistence, id) then before else before + Broadcast(v.nodes, id)
  }

  /** `broadcastForget`. */
  method BroadcastForget(fleet: Fleet, nodes: seq<NodeState>, id: string, faults: Command -> bool)
    returns (ok: bool, ghost sent: seq<Command>)
    modifies fleet
    ensures fleet.log == old(fleet.log) + sent && Issued(Broadcast(nodes, id), sent, faults, ok)
    ensures ok ==> forall c :: c in sent <==> exists n :: n in nodes && n.hasClient && n.id != id && c == Forget(n, id)
  {
    forall c: Command
      ensures c in Broadcast(nodes, id) <==> exists n :: n in nodes && n.hasClient && n.id != id && c == Forget(n, id)
    {
      BroadcastIs(nodes, id, c);
    }
    sent := [];
    for i := 0 to |nodes|
      invariant fleet.log == old(fleet.log) + sent && sent == Broadcast(nodes[..i], id)
      invariant forall c :: c in sent ==> !faults(c)
    {
      assert nodes[..i + 1][..i] == nodes[..i];
      if nodes[i].id == id || !nodes[i].hasClient {
        continue;
      }
      sent := sent + [Forget(nodes[i], id)];
      var done := fleet.Send(Forget(nodes[i], id), faults);
      if !done {
        BroadcastGrows(nodes, id, i + 1);
        return false, sent;
      }
    }
    assert nodes[..|nodes|] == nodes;
    return true, sent;
  }

  lemma {:induction false} BroadcastGrows(nodes: seq<NodeState>, id: string, i: nat)
    requires i <= |nodes|
    ensures Broadcast(nodes[..i], id) <= Broadcast(nodes, id)
    decreases |nodes| - i
  {
    if i < |nodes| {
      assert nodes[..i + 1][..i] == nodes[..i];
      BroadcastGrows(nodes, id, i + 1);
    } else {
      assert nodes[..i] == nodes;
    }
  }

  lemma {:induction false} ForgetsGrow(v: View, persistence: bool, stale: seq<string>, i: nat)
    requires i <= |stale|
    ensures Forgets(v, persistence, stale[..i]) <= Forgets(v, persistence, stale)
    decreases |stale| - i
  {
    hide Suppressed, Broadcast;
    if i < |stale| {
      assert stale[..i + 1][..i] == stale[..i];
      ForgetsGrow(v, persistence, stale, i + 1);
    } else {
      assert stale[..i] == stale;
    }
  }

  /** `forgetStaleNodes`. */
  method ForgetStaleNodes(fleet: Fleet, v: View, podIPs: seq<string>, persistence: bool, faults: Command -> bool)
    returns (acted: bool, ok: bool, ghost sent: seq<Command>, ghost stale: seq<string>)
    modifies fleet
    ensures IsStaleList(v.nodes, Some(Backing(v.nodes, podIPs)), stale)
    ensures fleet.log == old(fleet.log) + sent && Issued(Forgets(v, persistence, stale), sent, faults, ok)
    ensures ok ==> (acted <==> exists id :: id in stale && !Suppressed(v, persistence, id))
  {
    hide IsStaleList, Backing, Broadcast, Suppressed;
    var backing := BackingNodeIDs(v.nodes, podIPs);
    var ids := StaleNodeIDs(v.nodes, Some(backing));
    stale := ids;
    if |ids| == 0 {
      return false, true, [], stale;
    }
    acted, ok, sent := ForgetAll(fleet, v, persistence, ids, faults);
  }

  method ForgetAll(fleet: Fleet, v: View, persistence: bool, ids: seq<string>, faults: Command -> bool)
    returns (acted: bool, ok: bool, ghost sent: seq<Command>)
    modifies fleet
    ensures fleet.log == old(fleet.log) + sent && Issued(Forgets(v, persistence, ids), sent, faults, ok)
    ensures ok ==> (acted <==> exists id :: id in ids && !Suppressed(v, persistence, id))
  {
    hide Broadcast, Suppressed;
    sent, acted := [], false;
    for i := 0 to |ids|
      invariant fleet.log == old(fleet.log) + sent && sent == Forgets(v, persistence, ids[..i])
      invariant forall c :: c in sent ==> !faults(c)
      invariant acted <==> exists k :: 0 <= k < i && !Suppressed(v, persistence, ids[k])
    {
      assert ids[..i + 1][..i] == ids[..i];
      var skip := IsRecoverable(v, persistence, ids[i]);
      if skip {
        continue;
      }
      ghost var before := sent;
      var done, part := BroadcastForget(fleet, v.nodes, ids[i], faults);
      sent := sent + part;
      if !done {
        StopsEarly(before, Broadcast(v.nodes, ids[i]), part, faults);
        ForgetsGrow(v, persistence, ids, i + 1);
        return acted, false, sent;
      }
      acted := true;
    }
    assert ids[..|ids|] == ids;
    return acted, true, sent;
  }

  method IsRecoverable(v: View, persistence: bool, id: string) returns (skip: bool)
    ensures skip <==> Suppressed(v, persistence, id)
  {
    hide Quorum;
    var quorum := HasFailoverQuorum(v);
    return IsNodeFailed(v.nodes, id) && (persistence || quorum);
  }

  lemma StopsEarly(before: seq<Command>, cmds: seq<Command>, part: seq<Command>, faults: Command -> bool)
    requires Issued(cmds, part, faults, false) && forall c :: c in before ==> !faults(c)
    ensures Issued(before + cmds, before + part, faults, false)
  {
  }

  // ----- one recovery pass

  /** A FORGET goes to a connected scraped node other than its target; no scraped node of the
      cluster is the target or follows it, and it is not a failed node that may return. */
  ghost predicate IsForget(v: View, podIPs: seq<string>, persistence: bool, c: Command) {
    && c.Forget? && c.on in v.nodes && c.on.hasClient && c.on.id != c.id
    && IsStale(v.nodes, c.id, Some(Backing(v.nodes, podIPs)))
    && !(IsNodeFailed(v.nodes, c.id) && (persistence || Quorum(v)))
  }

  /** A takeover needs persistence off and the quorum lost, and promotes the most caught-up
      replica of a failed primary. */
  ghost predicate SafeTakeover(v: View, persistence: bool, c: Command) {
    && c.Failover? && c.mode == Takeover && !persistence && !Quorum(v) && c.on in v.nodes && c.on.IsReplica()
    && IsNodeFailed(v.nodes, c.on.primaryID)
    && forall n :: n in v.nodes && n.primaryID == c.on.primaryID && n.IsReplica() ==> n.offset <= c.on.offset
  }

  lemma {:induction false} ForgetsAre(v: View, persistence: bool, stale: seq<string>, c: Command)
    ensures c in Forgets(v, persistence, stale) <==>
            && c.Forget? && c.id in stale && !Suppressed(v, persistence, c.id)
            && c.on in v.nodes && c.on.hasClient && c.on.id != c.id
  {
    hide Broadcast, Suppressed;
    if stale == [] {
    } else {
      var front, last := stale[..|stale| - 1], stale[|stale| - 1];
      ForgetsAre(v, persistence, front, c);
      BroadcastIs(v.nodes, last, c);
      assert stale == front + [last];
    }
  }

  /** The FORGETs of a list of stale IDs are exactly the ones to be sent. */
  lemma ForgetsExact(v: View, podIPs: seq<string>, persistence: bool, stale: seq<string>)
    requires IsStaleList(v.nodes, Some(Backing(v.nodes, podIPs)), stale)
    ensures forall c :: c in Forgets(v, persistence, stale) <==> IsForget(v, podIPs, persistence, c)
  {
    hide Forgets, IsStale, Backing, Suppressed;
    forall c: Command ensures c in Forgets(v, persistence, stale) <==> IsForget(v, podIPs, persistence, c) {
      ForgetsAre(v, persistence, stale, c);
      SuppressedMeans(v, persistence);
    }
  }

  lemma SuppressedMeans(v: View, persistence: bool)
    ensures forall id :: Suppressed(v, persistence, id) <==> IsNodeFailed(v.nodes, id) && (persistence || Quorum(v))
  {
  }

  lemma {:induction false} FailedPrimariesFail(v: View, shards: seq<ShardState>)
    ensures forall p :: p in FailedPrimariesOf(v, shards) ==> IsNodeFailed(v.nodes, p.id)
  {
    hide IsNodeFailed;
    if shards == [] {
    } else {
      FailedPrimariesFail(v, shards[..|shards| - 1]);
    }
  }

  lemma {:induction false} TakeoversSafe(v: View, failed: seq<NodeState>, c: Command)
    requires !Quorum(v) && c in Takeovers(v.nodes, failed)
    requires forall p :: p in failed ==> IsNodeFailed(v.nodes, p.id)
    ensures SafeTakeover(v, false, c)
  {
    hide Quorum, IsNodeFailed, Highest, Followers;
    if c in Takeovers(v.nodes, failed[..|failed| - 1]) {
      TakeoversSafe(v, failed[..|failed| - 1], c);
    } else {
      var p := failed[|failed| - 1];
      FollowersFacts(v.nodes, p.id);
      HighestFacts(Followers(v.nodes, p.id));
      assert p in failed;
    }
  }

  /** `recover`: take over first; a pass that issued a takeover, even one that failed,
      forgets nothing. */
  method Recover(fleet: Fleet, v: View, podIPs: seq<string>, persistence: bool, faults: Command -> bool)
    returns (acted: bool, ok: bool, ghost sent: seq<Command>, ghost stale: seq<string>)
    modifies fleet
    ensures fleet.log == old(fleet.log) + sent
    ensures PromoteCommands(v, persistence) != [] ==> Issued(PromoteCommands(v, persistence), sent, faults, ok)
    ensures PromoteCommands(v, persistence) == [] ==>
              && IsStaleList(v.nodes, Some(Backing(v.nodes, podIPs)), stale)
              && Issued(Forgets(v, persistence, stale), sent, faults, ok)
    ensures || (forall c :: c in sent ==> SafeTakeover(v, persistence, c))
            || (forall c :: c in sent ==> IsForget(v, podIPs, persistence, c))
    ensures ok ==> forall c :: c in sent <==>
              if exists d :: IsTakeover(v, persistence, d) then IsTakeover(v, persistence, c)
              else IsForget(v, podIPs, persistence, c)
    ensures ok && !acted ==> sent == []
  {
    PromotionsAre(v, persistence);
    hide SafeTakeover, IsForget, IsTakeover, PromoteCommands, Forgets, Suppressed, IsStale, Backing, IsStaleList;
    stale := [];
    acted, ok, sent := PromoteOrphanedReplicas(fleet, v, persistence, faults);
    forall c | c in sent ensures SafeTakeover(v, persistence, c) { PromotionsSafe(v, persistence, c); }
    assert sent != [] ==> sent[0] in sent;
    if !ok || acted {
      return;
    }
    assert forall d :: !IsTakeover(v, persistence, d);
    acted, ok, sent, stale := ForgetStaleNodes(fleet, v, podIPs, persistence, faults);
    ForgetsExact(v, podIPs, persistence, stale);
    if ok && !acted { AllSuppressed(v, persistence, stale); }
  }

  lemma PromotionsSafe(v: View, persistence: bool, c: Command)
    requires c in PromoteCommands(v, persistence)
    ensures SafeTakeover(v, persistence, c)
  {
    hide SafeTakeover, Takeovers, Quorum;
    FailedPrimariesFail(v, v.shards);
    TakeoversSafe(v, FailedPrimariesOf(v, v.shards), c);
  }

  lemma {:induction false} AllSuppressed(v: View, persistence: bool, stale: seq<string>)
    requires forall id :: id in stale ==> Suppressed(v, persistence, id)
    ensures Forgets(v, persistence, stale) == []
  {
    hide Suppressed;
    if stale == [] {
    } else {
      AllSuppressed(v, persistence, stale[..|stale| - 1]);
    }
  }

  // ----- forgetting settles

  /** Every peer table after the connected nodes have dropped the forgotten IDs. */
  function Dropped(nodes: seq<NodeState>, ids: set<string>): (after: seq<NodeState>) {
    seq(|nodes|, i requires 0 <= i < |nodes| => DroppedFrom(nodes[i], ids))
  }

  function DroppedFrom(n: NodeState, ids: set<string>): (r: NodeState) {
    if n.hasClient then n.(peers := n.peers - (ids - {n.id})) else n
  }

  /** A table that a complete broadcast does not reach: the node's own, or an unconnected one's. */
  predicate Keeps(n: NodeState, id: string) { id in n.peers && (n.id == id || !n.hasClient) }

  /** A complete broadcast removes exactly the forgotten IDs from the stale ones, save those still
      in a table it does not reach: it brings up no new stale ID and unpins no primary of a
      backed replica. */
  lemma ForgetSettles(nodes: seq<NodeState>, backing: set<string>, ids: set<string>, id: string)
    requires forall x :: x in ids ==> IsStale(nodes, x, Some(backing))
    requires forall n, k :: n in nodes && k in n.peers ==> n.peers[k].id == k
    ensures IsStale(Dropped(nodes, ids), id, Some(backing)) <==>
            IsStale(nodes, id, Some(backing)) && (id !in ids || exists n :: n in nodes && Keeps(n, id))
  {
    var after := Dropped(nodes, ids);
    forall i | 0 <= i < |nodes|
      ensures Lists(after[i].peers, id, Some(backing)) <==> Lists(nodes[i].peers, id, Some(backing))
      ensures id in after[i].peers <==> id in nodes[i].peers && (id !in ids || Keeps(nodes[i], id))
    {
      assert nodes[i] in nodes;
      if nodes[i].hasClient { ListsUnchanged(nodes[i].peers, ids - {nodes[i].id}, id, backing); }
    }
    assert forall i :: 0 <= i < |nodes| ==> nodes[i] in nodes && after[i] in after;
    hide Lists, Keeps, DroppedFrom;
    assert HasReplicaOf(after, id, Some(backing)) <==> HasReplicaOf(nodes, id, Some(backing));
    KnownAfter(nodes, after, ids, id);
  }

  lemma KnownAfter(nodes: seq<NodeState>, after: seq<NodeState>, ids: set<string>, id: string)
    requires |after| == |nodes|
    requires forall i :: 0 <= i < |nodes| ==>
               (id in after[i].peers <==> id in nodes[i].peers && (id !in ids || Keeps(nodes[i], id)))
    ensures Known(after, id) <==> Known(nodes, id) && (id !in ids || exists n :: n in nodes && Keeps(n, id))
  {
    forall i | 0 <= i < |nodes| && id in after[i].peers ensures Known(after, id) { assert after[i] in after; }
  }

  lemma ListsUnchanged(peers: map<string, PeerView>, ids: set<string>, id: string, backing: set<string>)
    requires forall k :: k in peers ==> peers[k].id == k
    requires ids !! backing
    ensures Lists(peers - ids, id, Some(backing)) <==> Lists(peers, id, Some(backing))
  {
    forall k | k in peers && peers[k].primaryID == id && peers[k].id in backing ensures k in peers - ids {}
  }
}
