/** What one roll pass can know. The operator sees the node objects and the scrape; which node
    leads a shard it can only infer. The node it restarts leads no shard in any cluster that
    looks the same exactly when the scrape reached that node. */
module RollSight {
  import opened ClusterView
  import opened Replicas
  import opened RollingUpdate
  import opened RollRuns

  /** A cluster, between passes, that shows these node objects and answers this scrape. */
  ghost predicate Fits(u: World, nodes: seq<Node>, scraped: Option<seq<NodeState>>, src: seq<nat>, d: Spec) {
    u.nodes == nodes && u.pc == Idle && Inv(u, d) && (scraped.Some? ==> IsScrape(u, scraped.value, src))
  }

  lemma {:induction false} LongestKey(keys: set<string>) returns (n: nat)
    ensures forall k :: k in keys ==> |k| <= n
    decreases keys
  {
    if keys == {} {
      n := 0;
    } else {
      var k :| k in keys;
      var rest := LongestKey(keys - {k});
      n := if |k| > rest then |k| else rest;
    }
  }

  /** A cluster that looks like `w`, but in which the unscraped `x` leads a shard of its own. */
  ghost function Apart(w: World, x: nat, shard: string): (r: World)
    requires x < |w.places|
  {
    w.(places := w.places[x := Place(w.places[x].id, shard)], primary := w.primary[shard := x])
  }

  lemma ApartLeads(w: World, x: nat, shard: string, i: nat)
    requires Led(w) && x < |w.nodes| && i < |w.nodes| && shard !in w.primary && w.Lead(x) != x
    ensures var u := Apart(w, x, shard);
            && u.places[i].shardID in u.primary && u.Lead(i) == (if i == x then x else w.Lead(i)) < |w.nodes|
            && u.places[u.Lead(i)].shardID == u.places[i].shardID
    ensures i != x ==> w.Lead(i) != x
  {
  }

  lemma ApartInv(w: World, x: nat, shard: string, d: Spec)
    requires Inv(w, d) && w.pc == Idle && x < |w.nodes| && shard !in w.primary && w.Lead(x) != x
    ensures Inv(Apart(w, x, shard), d)
  {
    var u := Apart(w, x, shard);
    forall i | 0 <= i < |w.nodes| { ApartLeads(w, x, shard, i); }
    assert Named(u) && Led(u);
  }

  lemma ApartScrape(w: World, x: nat, shard: string, scraped: seq<NodeState>, src: seq<nat>)
    requires WellFormed(w) && IsScrape(w, scraped, src) && x < |w.nodes| && x !in src && shard !in w.primary
               && w.Lead(x) != x
    requires Led(Apart(w, x, shard))
    ensures IsScrape(Apart(w, x, shard), scraped, src)
  {
    hide Named, Led;
    IsLed(w);
    forall k | 0 <= k < |src| ensures src[k] < |w.nodes| && Sees(Apart(w, x, shard), src[k], scraped[k]) {
      assert Sees(w, src[k], scraped[k]) && src[k] in src;
      ApartLeads(w, x, shard, src[k]);
    }
  }

  /** An unscraped node leads its shard in some cluster that looks the same. */
  lemma MayLead(w: World, scraped: Option<seq<NodeState>>, src: seq<nat>, x: nat, d: Spec) returns (u: World)
    requires Fits(w, w.nodes, scraped, src, d) && x < |w.nodes| && (scraped.Some? ==> x !in src)
    ensures Fits(u, w.nodes, scraped, src, d) && u.Lead(x) == x
    ensures forall i :: 0 <= i < |w.nodes| ==> u.places[i].id == w.places[i].id
    ensures forall i :: 0 <= i < |w.nodes| && w.Lead(i) == i ==> u.Lead(i) == i
  {
    u := w;
    if w.Lead(x) != x {
      var n := LongestKey(w.primary.Keys);
      var shard := seq(n + 1, _ => 'x');
      u := Apart(w, x, shard);
      ApartInv(w, x, shard, d);
      forall i | 0 <= i < |w.nodes| { ApartLeads(w, x, shard, i); }
      if scraped.Some? { ApartScrape(w, x, shard, scraped.value, src); }
    }
  }

  /** The node about to be restarted was reached by the scrape if and only if it leads no shard
      in any cluster that looks the same. */
  lemma SeenIff(w: World, scraped: Option<seq<NodeState>>, src: seq<nat>, x: nat, d: Spec)
    requires Fits(w, w.nodes, scraped, src, d) && x < |w.nodes|
    requires Decide(w.nodes, StateOf(scraped), d) == Restart(w.nodes[x])
    ensures LiveState(StateOf(scraped), w.nodes[x]).Some? <==>
            forall u :: Fits(u, w.nodes, scraped, src, d) ==> u.Lead(x) != x
  {
    hide Decide, LiveState, Group, OneAtATime, StampedOnce, PcInv, Named;
    DecideFacts(w.nodes, StateOf(scraped), d);
    if LiveState(StateOf(scraped), w.nodes[x]).Some? {
      forall u | Fits(u, w.nodes, scraped, src, d) ensures u.Lead(x) != x { SeenReplica(u, scraped, src, x, d); }
    } else {
      if scraped.Some? {
        IsWellFormed(w, d);
        LiveStateIs(w, scraped.value, src, x);
      }
      var u := MayLead(w, scraped, src, x, d);
    }
  }

  lemma SeenReplica(u: World, scraped: Option<seq<NodeState>>, src: seq<nat>, x: nat, d: Spec)
    requires Fits(u, u.nodes, scraped, src, d) && x < |u.nodes|
    requires LiveState(StateOf(scraped), u.nodes[x]).Some? && !LiveState(StateOf(scraped), u.nodes[x]).value.IsPrimary()
    ensures u.Lead(x) != x
  {
    hide LiveState, Group, Inv;
    IsWellFormed(u, d);
    if scraped.Some? { LiveStateIs(u, scraped.value, src, x); } else { Unscraped(u.nodes[x]); }
  }

  // ----- over runs

  /** A run, steady so far, whose last pass sees these objects and this scrape and stamps `x`. */
  ghost predicate Ends(ws: seq<World>, actions: seq<Action>, nodes: seq<Node>, scraped: Option<seq<NodeState>>,
                       src: seq<nat>, x: nat, d: Spec) {
    && IsRun(ws, actions, d) && |actions| >= 2
    && var n := |actions| - 2;
       && Steady(ws[n]) && ws[n].nodes == nodes
       && actions[n].Scan? && actions[n].scraped == scraped && actions[n].src == src && actions[n].x == x
       && actions[n + 1].Stamp?
  }

  lemma SightedEnd(ws: seq<World>, actions: seq<Action>, nodes: seq<Node>, scraped: Option<seq<NodeState>>,
                   src: seq<nat>, x: nat, d: Spec)
    requires Ends(ws, actions, nodes, scraped, src, x, d) && x < |nodes|
    requires Decide(nodes, StateOf(scraped), d) == Restart(nodes[x]) && LiveState(StateOf(scraped), nodes[x]).Some?
    ensures Steady(ws[|actions|])
  {
    var n := |actions| - 2;
    assert Step(ws[n], actions[n], ws[n + 1], d);
    hide Decide, LiveState, Group, Steady;
    assert !HitsPrimary(ws[n + 1]);
    RunStepSteady(ws, actions, d, n);
    RunStepSteady(ws, actions, d, n + 1);
  }

  /** From such a cluster, freshly started, the pass stamps a leader. */
  lemma BlindEnd(u: World, scraped: Option<seq<NodeState>>, src: seq<nat>, x: nat, d: Spec)
    returns (ws: seq<World>, actions: seq<Action>)
    requires Fits(u, u.nodes, scraped, src, d) && x < |u.nodes| && u.Lead(x) == x
    requires Decide(u.nodes, StateOf(scraped), d) == Restart(u.nodes[x])
               && LiveState(StateOf(scraped), u.nodes[x]).None?
    ensures Ends(ws, actions, u.nodes, scraped, src, x, d) && !Steady(ws[|actions|]) && |actions| == 2
    ensures ws[0] == u.(pending := {}, stamped := []) && ws[1].pc == Stamping(x, true)
    ensures ws[2].places == u.places && |ws[2].nodes| == |u.nodes| && !ws[2].nodes[x].Settled()
  {
    DecideFacts(u.nodes, StateOf(scraped), d);
    QuietIsSettled(u, d);
    hide Decide, LiveState, Group, MidRoll, StampIn;
    var w0 := u.(pending := {}, stamped := []);
    var w1 := w0.(pc := Stamping(x, true));
    var w2 := w1.(nodes := StampIn(u.nodes, u.nodes[x], d), stamped := [x], pc := Idle);
    ws, actions := [w0, w1, w2], [Scan(scraped, src, x, 0), Stamp];
    RestartWorld(u, w0, scraped, src, d);
    StampNamed(w1, w2, x, d);
    IsWellFormed(u, d);
    hide IsScrape, Fits, Named;
    BlindRun(w0, w1, w2, actions[0], x, d);
  }

  /** A scan that misses the leader `x`, then its stamp. */
  lemma BlindRun(w0: World, w1: World, w2: World, a: Action, x: nat, d: Spec)
    requires Start(w0) && a.Scan? && ScanStep(w0, a, w1, d) && x < |w0.nodes| && w0.Lead(x) == x
    requires w1 == w0.(pc := Stamping(x, true))
    requires w2 == w1.(nodes := StampIn(w1.nodes, w1.nodes[x], d), stamped := [x], pc := Idle)
    ensures IsRun([w0, w1, w2], [a, Stamp], d) && Steady(w0) && !Steady(w2)
  {
    var ws, actions := [w0, w1, w2], [a, Stamp];
    assert Step(w0, actions[0], w1, d) && Step(w1, actions[1], w2, d);
    assert IsRun(ws, actions, d);
    hide StampIn, ScanStep;
    StartsSteady(ws, actions, d);
    RunStepSteady(ws, actions, d, 0);
    assert HitsPrimary(w1);
    RunStepSteady(ws, actions, d, 1);
  }

  lemma RestartWorld(u: World, w: World, scraped: Option<seq<NodeState>>, src: seq<nat>, d: Spec)
    requires Fits(u, u.nodes, scraped, src, d) && AllSettled(u) && w == u.(pending := {}, stamped := [])
    ensures Start(w) && (scraped.Some? ==> IsScrape(w, scraped.value, src)) && Led(w)
    ensures forall i :: 0 <= i < |u.nodes| ==> w.Lead(i) == u.Lead(i)
  {
    SameLeads(u, w);
    if scraped.Some? {
      forall k | 0 <= k < |src| ensures Sees(w, src[k], scraped.value[k]) { assert Sees(u, src[k], scraped.value[k]); }
    }
  }

  /** Over runs: a pass that restarts a node keeps every shard served in all runs that show it
      the same objects and the same scrape if and only if the scrape reached that node. */
  lemma SightedPassIff(w: World, scraped: Option<seq<NodeState>>, src: seq<nat>, x: nat, d: Spec)
    requires Fits(w, w.nodes, scraped, src, d) && x < |w.nodes|
    requires Decide(w.nodes, StateOf(scraped), d) == Restart(w.nodes[x])
    ensures LiveState(StateOf(scraped), w.nodes[x]).Some? <==>
            forall ws, actions :: Ends(ws, actions, w.nodes, scraped, src, x, d) ==> Steady(ws[|actions|])
  {
    hide Decide, LiveState, Group, OneAtATime, StampedOnce, PcInv, Named, Steady, Step, Start;
    if LiveState(StateOf(scraped), w.nodes[x]).Some? {
      forall ws, actions | Ends(ws, actions, w.nodes, scraped, src, x, d) ensures Steady(ws[|actions|]) {
        SightedEnd(ws, actions, w.nodes, scraped, src, x, d);
      }
    } else {
      SeenIff(w, scraped, src, x, d);
      var u :| Fits(u, w.nodes, scraped, src, d) && u.Lead(x) == x;
      var ws, actions := BlindEnd(u, scraped, src, x, d);
    }
  }

  lemma OnlyCandidate(w: World, a: Node, b: Node, r: NodeState, d: Spec)
    requires WellFormed(w) && w.nodes == [a, b] && IsScrape(w, [r], [1])
    requires a.NeedsRoll(d) && b.Converged(d)
    ensures Decide(w.nodes, Some(Group([r])), d) == Restart(a) && LiveState(Some(Group([r])), a).None?
  {
    hide Group, LiveState, Candidate, Named;
    LiveStateIs(w, [r], [1], 0);
    var src: seq<nat> := [1];
    assert Sees(w, src[0], [r][0]);
    CandidateFacts(w.nodes, Some(Group([r])), d);
    assert a in w.nodes;
  }

  /** Such a pass, for a change of configuration only, which no gate holds up: the dial to a
      serving primary fails, and although a synced replica stands by, the primary is stamped with
      no failover. */
  lemma BlindRoll() returns (ws: seq<World>, actions: seq<Action>, d: Spec)
    ensures IsRun(ws, actions, d) && |actions| == 2 && actions[0].Scan? && actions[1].Stamp? && !Steady(ws[2])
    ensures forall n :: n in ws[0].nodes ==> n.podIP != ""
    ensures !EngineChange(ws[0].nodes, d)
    ensures actions[0].scraped.Some? && exists r :: r in actions[0].scraped.value && IsSynced(r, ws[0].places[0].id)
    ensures Led(ws[0]) && 0 < |ws[0].nodes| && ws[0].Lead(0) == 0 && ws[1].pc == Stamping(0, true)
    ensures forall r :: r in actions[0].scraped.value ==> r.IsReplica() && r.slots == [] && r.id != ws[0].places[0].id
    ensures ws[2].places == ws[0].places && |ws[2].nodes| == |ws[0].nodes| && !ws[2].nodes[0].Settled()
  {
    d := Spec("new", "image");
    var a := Node("a", 0, Spec("old", "image"), "10.0.0.1", true, 1, 1);
    var b := Node("b", 1, d, "10.0.0.2", true, 1, 1);
    var r := NodeState("B", "shard", "10.0.0.2" + CLIENT_PORT, [], "A", true, Replica, 7, [], 2, 1, map[], true);
    var w := World([a, b], [Place("A", "shard"), Place("B", "shard")], map["shard" := 0], {}, Idle, []);
    ReplicaSeen(w, a, b, r, d);
    OnlyCandidate(w, a, b, r, d);
    hide Decide, LiveState, Group, Inv, Steady, IsScrape, Step;
    ws, actions := BlindEnd(w, Some([r]), [1], 0, d);
    assert IsSynced(r, "A");
  }

  lemma ReplicaSeen(w: World, a: Node, b: Node, r: NodeState, d: Spec)
    requires w == World([a, b], [Place("A", "shard"), Place("B", "shard")], map["shard" := 0], {}, Idle, [])
    requires a.name != b.name && a.podIP != b.podIP && a.Settled() && b.Converged(d) && b.podIP != ""
    requires r.id == "B" && r.shardID == "shard" && r.addr == b.podIP + CLIENT_PORT
    requires r.IsReplica() && r.primaryID == "A"
    ensures Inv(w, d) && IsScrape(w, [r], [1]) && w.Lead(0) == 0
  {
    assert w.Lead(0) == 0 && w.Lead(1) == 0;
    assert Named(w) && Led(w);
    assert Sees(w, 1, r);
  }
}
