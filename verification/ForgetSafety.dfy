/** FORGET against the nodes that exist. The operator learns an ID's node only by scraping it
    (state.go, recovery.go), so what is stale to it need not be gone. */
module ForgetSafety {
  import opened Sorting
  import opened ClusterView
  import opened Positions
  import opened Replicas
  import opened Recovery

  /** The engine of a node: its node ID, and the primary it follows, if any. */
  datatype Running = Running(id: string, primaryID: string)

  /** What each existing node really runs, in the order of the node list. */
  type Truth = seq<Running>

  /** The scrape reached node `i` and `n` is its answer. */
  predicate Answers(podIPs: seq<string>, i: nat, n: NodeState)
    requires i < |podIPs|
  {
    podIPs[i] != "" && HostFromAddr(n.addr) == podIPs[i]
  }

  /** IDs are unique and the scrape is true. */
  ghost predicate Fits(t: Truth, nodes: seq<NodeState>, podIPs: seq<string>) {
    && |t| == |podIPs|
    && (forall i, j :: 0 <= i < j < |t| ==> t[i].id != t[j].id)
    && (forall i, n :: 0 <= i < |t| && n in nodes && Answers(podIPs, i, n) ==> t[i] == Running(n.id, n.primaryID))
  }

  ghost predicate Exists(t: Truth, id: string) { exists i :: 0 <= i < |t| && t[i].id == id }

  ghost predicate HasLiveReplica(t: Truth, id: string) { exists i :: 0 <= i < |t| && t[i].primaryID == id }

  ghost predicate Reached(nodes: seq<NodeState>, podIPs: seq<string>, i: nat)
    requires i < |podIPs|
  {
    exists n :: n in nodes && Answers(podIPs, i, n)
  }

  /** Every existing node has a pod IP, and no dial failed. */
  ghost predicate AllReached(nodes: seq<NodeState>, podIPs: seq<string>) {
    forall i :: 0 <= i < |podIPs| ==> Reached(nodes, podIPs, i)
  }

  /** CLUSTER NODES lists the answering node too, so each peer table holds its owner's line. A
      replica's line names its primary; a primary's reads "-" where the node state has "". */
  ghost predicate OwnLines(nodes: seq<NodeState>) {
    forall n :: n in nodes ==>
      && n.id != "" && n.id in n.peers && n.peers[n.id].id == n.id
      && (n.primaryID != "" ==> n.peers[n.id].primaryID == n.primaryID)
  }

  /** With every node reached, a stale ID is no existing node and no existing node follows it. */
  lemma CompleteIsSafe(t: Truth, nodes: seq<NodeState>, podIPs: seq<string>, id: string)
    requires Fits(t, nodes, podIPs) && OwnLines(nodes) && AllReached(nodes, podIPs)
    requires IsStale(nodes, id, Some(Backing(nodes, podIPs)))
    ensures !Exists(t, id) && !HasLiveReplica(t, id)
  {
    forall i | 0 <= i < |t| ensures t[i].id != id && t[i].primaryID != id {
      assert Reached(nodes, podIPs, i);
      var n :| n in nodes && Answers(podIPs, i, n);
      assert IsBacked(n, podIPs);
      assert n.primaryID != "" ==> Lists(n.peers, n.primaryID, Some(Backing(nodes, podIPs)));
    }
  }

  /** At a node the scrape missed, something else may run as far as the operator can tell. */
  lemma MayRun(t: Truth, nodes: seq<NodeState>, podIPs: seq<string>, i: nat, r: Running)
    requires Fits(t, nodes, podIPs) && i < |podIPs| && !Reached(nodes, podIPs, i)
    requires forall j :: 0 <= j < |t| && j != i ==> t[j].id != r.id
    ensures Fits(t[i := r], nodes, podIPs)
  {
  }

  /** A stale ID is gone in every situation that answers this scrape if and only if every node
      was scraped. */
  lemma StaleIsGoneIff(t: Truth, nodes: seq<NodeState>, podIPs: seq<string>, id: string)
    requires Fits(t, nodes, podIPs) && OwnLines(nodes) && IsStale(nodes, id, Some(Backing(nodes, podIPs)))
    ensures AllReached(nodes, podIPs) <==> forall u :: Fits(u, nodes, podIPs) ==> !Exists(u, id)
  {
    if AllReached(nodes, podIPs) {
      forall u | Fits(u, nodes, podIPs) ensures !Exists(u, id) { CompleteIsSafe(u, nodes, podIPs, id); }
    } else if !Exists(t, id) {
      var i :| 0 <= i < |podIPs| && !Reached(nodes, podIPs, i);
      MayRun(t, nodes, podIPs, i, Running(id, ""));
      assert t[i := Running(id, "")][i].id == id;
    }
  }

  /** A stale ID strands no existing replica in any situation that answers this scrape if and
      only if every node was scraped. */
  lemma StrandsNobodyIff(t: Truth, nodes: seq<NodeState>, podIPs: seq<string>, id: string)
    requires Fits(t, nodes, podIPs) && OwnLines(nodes) && IsStale(nodes, id, Some(Backing(nodes, podIPs)))
    ensures AllReached(nodes, podIPs) <==> forall u :: Fits(u, nodes, podIPs) ==> !HasLiveReplica(u, id)
  {
    if AllReached(nodes, podIPs) {
      forall u | Fits(u, nodes, podIPs) ensures !HasLiveReplica(u, id) { CompleteIsSafe(u, nodes, podIPs, id); }
    } else {
      var i :| 0 <= i < |podIPs| && !Reached(nodes, podIPs, i);
      var r := Running(t[i].id, id);
      MayRun(t, nodes, podIPs, i, r);
      assert t[i := r][i].primaryID == id;
    }
  }

  /** Such a pass: the dial to the healthy node b fails, and a, the one node scraped, is told to
      FORGET it, and with it c, the primary b follows. Nothing is flagged as failed. */
  lemma ForgetsLiveNode() returns (v: View, podIPs: seq<string>, t: Truth)
    ensures Fits(t, v.nodes, podIPs) && OwnLines(v.nodes) && Exists(t, "b") && HasLiveReplica(t, "c")
    ensures forall id :: !IsNodeFailed(v.nodes, id)
    ensures PromoteCommands(v, true) == [] && IsStaleList(v.nodes, Some(Backing(v.nodes, podIPs)), ["b", "c"])
    ensures |v.nodes| == 1 && Forgets(v, true, ["b", "c"]) == [Forget(v.nodes[0], "b"), Forget(v.nodes[0], "c")]
  {
    var peers := map["a" := PeerView("a", [], "-"), "b" := PeerView("b", [], "c"), "c" := PeerView("c", [], "-")];
    var a := NodeState("a", "s", "x" + PORT_SUFFIX, [], "", true, Primary, 0, [], 3, 1, peers, true);
    v, podIPs := Group([a]), ["x", "y"];
    t := [Running("a", ""), Running("b", "c")];
    GroupNodes([a]);
    HostOf("x");
    assert t[1] == Running("b", "c");
    AloneFails(a);
    StaleToOne(a, podIPs);
    BothForgotten(v, a);
  }

  lemma AloneFails(a: NodeState)
    requires a.flags == [] && forall k :: k in a.peers ==> a.peers[k].flags == []
    ensures forall id :: !IsNodeFailed([a], id)
  {
    assert [a][..0] == [];
    assert forall id :: id in ByID([a]) ==> ByID([a])[id] == a;
  }

  lemma StaleToOne(a: NodeState, podIPs: seq<string>)
    requires a.id == "a" && HostFromAddr(a.addr) == "x" && podIPs == ["x", "y"]
    requires a.peers == map["a" := PeerView("a", [], "-"), "b" := PeerView("b", [], "c"), "c" := PeerView("c", [], "-")]
    ensures IsStaleList([a], Some(Backing([a], podIPs)), ["b", "c"])
  {
    assert IsBacked(a, podIPs);
    assert Backing([a], podIPs) == {"a"};
    assert a in [a];
    assert forall id :: Known([a], id) <==> id in a.peers;
    assert StringLe("b", "c");
  }

  lemma BothForgotten(v: View, a: NodeState)
    requires v.nodes == [a] && a.id == "a" && a.hasClient && forall id :: !IsNodeFailed([a], id)
    ensures Forgets(v, true, ["b", "c"]) == [Forget(a, "b"), Forget(a, "c")]
  {
    hide IsNodeFailed;
    assert [a][..0] == [];
    assert Broadcast([a], "b") == [Forget(a, "b")] && Broadcast([a], "c") == [Forget(a, "c")];
    assert ["b", "c"][..1] == ["b"] && ["b"][..0] == [];
    assert Forgets(v, true, ["b"]) == [Forget(a, "b")];
  }
}
