/** Rolls and the slots they touch: a restart costs nothing unless the node serves slots. A node
    the scrape missed serves none when the others report them all, which is what the gate before
    an engine-image roll asks for. */
module RollSlots {
  import SlotRanges
  import opened ClusterView
  import opened Ownership
  import opened Sightings
  import opened RollingUpdate
  import opened RollRuns
  import opened RollSight

  function Replies(scraped: Option<seq<NodeState>>): (r: seq<NodeState>) {
    if scraped.Some? then scraped.value else []
  }

  /** Slots are owned by nodes that lead their shard. */
  ghost predicate LeadsOwn(w: World, owner: Owner) {
    && Led(w) && InSpace(owner)
    && forall s :: s in owner ==> exists i :: 0 <= i < |w.nodes| && w.Lead(i) == i && w.places[i].id == owner[s]
  }

  ghost predicate Serves(w: World, owner: Owner, i: nat)
    requires i < |w.places|
  {
    exists s :: s in owner && owner[s] == w.places[i].id
  }

  lemma ServesLeads(w: World, owner: Owner, i: nat)
    requires Named(w) && LeadsOwn(w, owner) && i < |w.nodes| && Serves(w, owner, i)
    ensures w.Lead(i) == i
  {
    var s :| s in owner && owner[s] == w.places[i].id;
    var j :| 0 <= j < |w.nodes| && w.Lead(j) == j && w.places[j].id == owner[s];
  }

  /** A node the scrape missed is none of those it reports. */
  lemma MissedIsUnscraped(w: World, scraped: Option<seq<NodeState>>, src: seq<nat>, x: nat)
    requires WellFormed(w) && (scraped.Some? ==> IsScrape(w, scraped.value, src)) && x < |w.nodes|
    requires LiveState(StateOf(scraped), w.nodes[x]).None?
    ensures !IsScraped(Replies(scraped), w.places[x].id) && (scraped.Some? ==> x !in src)
  {
    if scraped.Some? {
      LiveStateIs(w, scraped.value, src, x);
      hide LiveState, Group;
      forall n | n in scraped.value ensures n.id != w.places[x].id {
        var k :| 0 <= k < |src| && scraped.value[k] == n;
        assert Sees(w, src[k], n) && src[k] in src;
      }
    }
  }

  /** The node about to be restarted was scraped, or the scraped ones report every slot, if and
      only if it is no serving primary in any cluster and ownership that look the same. */
  lemma ServingIff(w: World, truth: Owner, scraped: Option<seq<NodeState>>, src: seq<nat>, x: nat, d: Spec)
    requires Fits(w, w.nodes, scraped, src, d) && x < |w.nodes|
    requires TrueOf(truth, Replies(scraped)) && LeadsOwn(w, truth)
    requires Decide(w.nodes, StateOf(scraped), d) == Restart(w.nodes[x])
    ensures LiveState(StateOf(scraped), w.nodes[x]).Some? || AllReported(Replies(scraped)) <==>
            forall u, owner ::
              && Fits(u, w.nodes, scraped, src, d) && TrueOf(owner, Replies(scraped)) && LeadsOwn(u, owner) ==>
                !Serves(u, owner, x)
  {
    hide Decide, LiveState, Group, OneAtATime, StampedOnce, PcInv, Replies, TrueOf, AllReported;
    if LiveState(StateOf(scraped), w.nodes[x]).Some? || AllReported(Replies(scraped)) {
      forall u, owner | Fits(u, w.nodes, scraped, src, d) && TrueOf(owner, Replies(scraped)) && LeadsOwn(u, owner)
        ensures !Serves(u, owner, x)
      {
        RestartsNoServer(u, owner, scraped, src, x, d);
      }
    } else {
      MissedIsUnscraped(w, scraped, src, x);
      var u, owner := MayServe(w, truth, scraped, src, x, d);
    }
  }

  lemma RestartsNoServer(u: World, owner: Owner, scraped: Option<seq<NodeState>>, src: seq<nat>, x: nat, d: Spec)
    requires Fits(u, u.nodes, scraped, src, d) && x < |u.nodes|
    requires TrueOf(owner, Replies(scraped)) && LeadsOwn(u, owner)
    requires Decide(u.nodes, StateOf(scraped), d) == Restart(u.nodes[x])
    requires LiveState(StateOf(scraped), u.nodes[x]).Some? || AllReported(Replies(scraped))
    ensures !Serves(u, owner, x)
  {
    hide LiveState, Group, Inv, Replies, TrueOf, AllReported;
    IsWellFormed(u, d);
    if LiveState(StateOf(scraped), u.nodes[x]).Some? {
      DecideFacts(u.nodes, StateOf(scraped), d);
      hide Decide;
      SeenReplica(u, scraped, src, x, d);
      if Serves(u, owner, x) { ServesLeads(u, owner, x); }
    } else {
      hide Decide;
      MissedIsUnscraped(u, scraped, src, x);
      ReportedElsewhere(owner, Replies(scraped), u.places[x].id);
      forall s | s in owner ensures owner[s] != u.places[x].id { assert s !in OwnedSet(owner, u.places[x].id); }
    }
  }

  /** An unscraped node serves an unreported slot in some cluster that looks the same. */
  lemma MayServe(w: World, truth: Owner, scraped: Option<seq<NodeState>>, src: seq<nat>, x: nat, d: Spec)
    returns (u: World, owner: Owner)
    requires Fits(w, w.nodes, scraped, src, d) && x < |w.nodes| && (scraped.Some? ==> x !in src)
    requires TrueOf(truth, Replies(scraped)) && LeadsOwn(w, truth)
    requires !IsScraped(Replies(scraped), w.places[x].id) && !AllReported(Replies(scraped))
    ensures Fits(u, w.nodes, scraped, src, d) && u.Lead(x) == x && u.places[x].id == w.places[x].id
    ensures TrueOf(owner, Replies(scraped)) && LeadsOwn(u, owner) && Serves(u, owner, x)
  {
    var s: int :| 0 <= s < SlotRanges.TOTAL_SLOTS && !Reported(Replies(scraped), s);
    hide AllReported, Replies;
    u := MayLead(w, scraped, src, x, d);
    hide IsScrape, OneAtATime, StampedOnce, PcInv, Named;
    owner := truth[s := w.places[x].id];
    MayOwn(truth, Replies(scraped), w.places[x].id, s);
    forall t | t in owner ensures exists i :: 0 <= i < |u.nodes| && u.Lead(i) == i && u.places[i].id == owner[t] {
      if t == s {
        assert u.Lead(x) == x;
      } else {
        var i :| 0 <= i < |w.nodes| && w.Lead(i) == i && w.places[i].id == truth[t];
        assert u.Lead(i) == i;
      }
    }
    assert s in owner && owner[s] == u.places[x].id;
  }

  // ----- over runs

  /** No node that serves slots is being restarted. */
  ghost predicate KeepsServing(w: World, owner: Owner) {
    |w.places| == |w.nodes| && forall i :: 0 <= i < |w.nodes| && Serves(w, owner, i) ==> w.nodes[i].Settled()
  }

  /** A pass that restarts a node takes no serving primary down, in all runs and ownerships that
      show it the same objects and the same scrape, if and only if the scrape reached that node or
      the scraped ones report every slot. */
  lemma ServingPassIff(w: World, truth: Owner, scraped: Option<seq<NodeState>>, src: seq<nat>, x: nat, d: Spec)
    requires Fits(w, w.nodes, scraped, src, d) && x < |w.nodes|
    requires TrueOf(truth, Replies(scraped)) && LeadsOwn(w, truth)
    requires Decide(w.nodes, StateOf(scraped), d) == Restart(w.nodes[x])
    ensures LiveState(StateOf(scraped), w.nodes[x]).Some? || AllReported(Replies(scraped)) <==>
            forall ws, actions, owner ::
              && Ends(ws, actions, w.nodes, scraped, src, x, d)
              && TrueOf(owner, Replies(scraped)) && LeadsOwn(ws[|actions| - 2], owner) ==>
                KeepsServing(ws[|actions|], owner)
  {
    hide Decide, LiveState, Group, OneAtATime, StampedOnce, PcInv, Replies, TrueOf, AllReported, Step, Start;
    if LiveState(StateOf(scraped), w.nodes[x]).Some? || AllReported(Replies(scraped)) {
      forall ws, actions, owner | Ends(ws, actions, w.nodes, scraped, src, x, d) && TrueOf(owner, Replies(scraped))
                                  && LeadsOwn(ws[|actions| - 2], owner)
        ensures KeepsServing(ws[|actions|], owner)
      {
        ServingEnd(ws, actions, owner, w.nodes, scraped, src, x, d);
      }
    } else {
      MissedIsUnscraped(w, scraped, src, x);
      var u, owner := MayServe(w, truth, scraped, src, x, d);
      var ws, actions := BlindEnd(u, scraped, src, x, d);
      SameLeads(u, ws[0]);
      assert LeadsOwn(ws[0], owner) && Serves(ws[2], owner, x);
    }
  }

  lemma ServingEnd(ws: seq<World>, actions: seq<Action>, owner: Owner, nodes: seq<Node>,
                   scraped: Option<seq<NodeState>>, src: seq<nat>, x: nat, d: Spec)
    requires Ends(ws, actions, nodes, scraped, src, x, d) && x < |nodes|
    requires TrueOf(owner, Replies(scraped)) && LeadsOwn(ws[|actions| - 2], owner)
    requires Decide(nodes, StateOf(scraped), d) == Restart(nodes[x])
    requires LiveState(StateOf(scraped), nodes[x]).Some? || AllReported(Replies(scraped))
    ensures KeepsServing(ws[|actions|], owner)
  {
    EndShape(ws, actions, nodes, scraped, src, x, d);
    hide LiveState, Group, TrueOf, AllReported, Replies, Fits, Ends, LeadsOwn;
    var n := |actions| - 2;
    RestartsNoServer(ws[n], owner, scraped, src, x, d);
    hide Decide;
    StampsIdle(ws[n], owner, ws[n + 2], x, d);
  }

  /** The last pass of such a run changes nothing but the stamped node. */
  lemma EndShape(ws: seq<World>, actions: seq<Action>, nodes: seq<Node>, scraped: Option<seq<NodeState>>, src: seq<nat>,
                 x: nat, d: Spec)
    requires Ends(ws, actions, nodes, scraped, src, x, d) && x < |nodes|
    requires Decide(nodes, StateOf(scraped), d) == Restart(nodes[x])
    ensures |ws| == |actions| + 1 && |actions| >= 2
    ensures var w, w' := ws[|actions| - 2], ws[|actions|];
            && Fits(w, nodes, scraped, src, d) && Named(w) && Steady(w)
            && w'.places == w.places && |w'.nodes| == |nodes|
            && forall i :: 0 <= i < |nodes| && i != x ==> w'.nodes[i] == nodes[i]
  {
    var n := |actions| - 2;
    RunInv(ws, actions, d, n);
    assert Step(ws[n], actions[n], ws[n + 1], d) && Step(ws[n + 1], actions[n + 1], ws[n + 2], d);
    hide LiveState, Group, Decide, StampIn, Inv, IsScrape, Steady;
    IsWellFormed(ws[n], d);
    StampOnly(ws[n + 1], ws[n + 2], x, d);
  }

  lemma StampsIdle(w: World, owner: Owner, w': World, x: nat, d: Spec)
    requires Named(w) && Steady(w) && LeadsOwn(w, owner) && x < |w.nodes| && !Serves(w, owner, x)
    requires w'.places == w.places && |w'.nodes| == |w.nodes|
    requires forall i :: 0 <= i < |w.nodes| && i != x ==> w'.nodes[i] == w.nodes[i]
    ensures KeepsServing(w', owner)
  {
    forall i | 0 <= i < |w'.nodes| && Serves(w', owner, i) ensures w'.nodes[i].Settled() {
      assert Serves(w, owner, i);
      ServesLeads(w, owner, i);
    }
  }

  lemma StampOnly(w: World, w': World, x: nat, d: Spec)
    requires Named(w) && x < |w.nodes| && w.pc.Stamping? && w.pc.x == x && Step(w, Stamp, w', d)
    ensures w'.places == w.places && |w'.nodes| == |w.nodes|
    ensures forall i :: 0 <= i < |w.nodes| && i != x ==> w'.nodes[i] == w.nodes[i]
  {
    StampNamed(w, w', x, d);
  }

  // ----- whole runs, with the slots failing over

  /** Every slot of one node is another's; all others are as before. */
  function PassedOn(owner: Owner, from: string, to: string): (r: Owner) {
    map s | s in owner :: if owner[s] == from then to else owner[s]
  }

  /** A completed failover passes the slots on, and a scrape reports the slots as they are. */
  ghost predicate SlotStep(w: World, owner: Owner, a: Action, owner': Owner) {
    match a
    case Flip(t) => Led(w) && t < |w.nodes| && owner' == PassedOn(owner, w.places[w.Lead(t)].id, w.places[t].id)
    case Scan(scraped, _, _, _) => owner' == owner && TrueOf(owner, Replies(scraped)) && AllWellFormed(Replies(scraped))
    case _ => owner' == owner
  }

  ghost predicate SlotRun(ws: seq<World>, owners: seq<Owner>, actions: seq<Action>, d: Spec) {
    && IsRun(ws, actions, d) && |owners| == |ws| && LeadsOwn(ws[0], owners[0])
    && forall i :: 0 <= i < |actions| ==> SlotStep(ws[i], owners[i], actions[i], owners[i + 1])
  }

  /** Slots belong to leaders that are not being restarted, and the unscraped node about to be
      stamped has none. */
  ghost predicate Served(w: World, owner: Owner) {
    && LeadsOwn(w, owner) && KeepsServing(w, owner)
    && (w.pc.Stamping? && w.pc.blind && w.pc.x < |w.places| ==> !Serves(w, owner, w.pc.x))
  }

  lemma FlipLeads(w: World, t: nat, w': World)
    requires Led(w) && t < |w.nodes| && w'.nodes == w.nodes && w'.places == w.places
    requires w'.primary == w.primary[w.places[t].shardID := t]
    ensures Led(w') && w'.Lead(t) == t
    ensures forall i :: 0 <= i < |w.nodes| && w.Lead(i) != w.Lead(t) ==> w'.Lead(i) == w.Lead(i)
  {
    forall i | 0 <= i < |w.nodes|
      ensures w'.places[i].shardID in w'.primary
                && w'.Lead(i) == if w.places[i].shardID == w.places[t].shardID then t else w.Lead(i)
    {}
  }

  lemma FlipOwns(w: World, owner: Owner, t: nat, w': World, owner': Owner)
    requires LeadsOwn(w, owner) && t < |w.nodes| && w'.nodes == w.nodes && w'.places == w.places && Led(w')
    requires w'.Lead(t) == t
    requires forall i :: 0 <= i < |w.nodes| && w.Lead(i) != w.Lead(t) ==> w'.Lead(i) == w.Lead(i)
    requires owner' == PassedOn(owner, w.places[w.Lead(t)].id, w.places[t].id)
    ensures LeadsOwn(w', owner')
  {
    forall s | s in owner' ensures exists i :: 0 <= i < |w'.nodes| && w'.Lead(i) == i && w'.places[i].id == owner'[s] {
      if owner[s] == w.places[w.Lead(t)].id {
        assert w'.places[t].id == owner'[s];
      } else {
        var i :| 0 <= i < |w.nodes| && w.Lead(i) == i && w.places[i].id == owner[s];
        assert w'.Lead(i) == i;
      }
    }
  }

  lemma FlipKeepsServed(w: World, owner: Owner, t: nat, w': World, owner': Owner, d: Spec)
    requires Inv(w, d) && Served(w, owner) && Step(w, Flip(t), w', d) && SlotStep(w, owner, Flip(t), owner')
    ensures Served(w', owner')
  {
    hide OneAtATime, StampedOnce;
    FlipLeads(w, t, w');
    FlipOwns(w, owner, t, w', owner');
    hide Led, LeadsOwn;
    forall i | 0 <= i < |w.nodes| && i != t && Serves(w', owner', i) ensures Serves(w, owner, i) {
      var s :| s in owner' && owner'[s] == w.places[i].id;
      assert owner[s] == w.places[i].id;
    }
  }

  lemma StampKeepsServed(w: World, owner: Owner, w': World, d: Spec)
    requires Inv(w, d) && Served(w, owner) && Step(w, Stamp, w', d)
    ensures Served(w', owner)
  {
    hide OneAtATime, StampedOnce;
    var x := w.pc.x;
    StampOnly(w, w', x, d);
    hide StampIn, Named;
    SameLeads(w, w');
    assert !Serves(w, owner, x) by { if Serves(w, owner, x) { ServesLeads(w, owner, x); } }
    hide Step;
    SameOwners(w, w', owner);
  }

  lemma SameOwners(w: World, w': World, owner: Owner)
    requires LeadsOwn(w, owner) && Led(w') && w'.places == w.places && |w'.nodes| == |w.nodes|
    requires forall i :: 0 <= i < |w.nodes| ==> w'.Lead(i) == w.Lead(i)
    ensures LeadsOwn(w', owner)
    ensures forall i :: 0 <= i < |w.nodes| ==> (Serves(w', owner, i) <==> Serves(w, owner, i))
  {
  }

  /** A pass that gets through the slot check restarts nothing that serves. */
  lemma ScanKeepsServed(w: World, owner: Owner, a: Action, w': World, d: Spec)
    requires Inv(w, d) && Served(w, owner) && a.Scan? && ScanStep(w, a, w', d) && SlotStep(w, owner, a, owner)
    requires w' != w ==> a.scraped.Some? && AllAssigned(Group(a.scraped.value).shards)
    ensures Served(w', owner)
  {
    hide Decide, LiveState, OneAtATime, StampedOnce, Group, AllAssigned, TrueOf;
    SameLeads(w, w');
    SameOwners(w, w', owner);
    if w' != w && Decide(w.nodes, StateOf(a.scraped), d).Restart? {
      ScrapeCoherent(w, a.scraped.value, a.src);
      ReportsAll(a.scraped.value);
      RestartsNoServer(w, owner, a.scraped, a.src, a.x, d);
    }
  }

  lemma ReportsAll(scraped: seq<NodeState>)
    requires Coherent(scraped) && AllWellFormed(scraped) && AllAssigned(Group(scraped).shards)
    ensures AllReported(scraped)
  {
    NothingUnassignedIff(scraped);
  }

  lemma NodeKeepsServed(w: World, owner: Owner, i: nat, w': World, d: Spec)
    requires Inv(w, d) && Served(w, owner) && i < |w.nodes|
    requires Step(w, Down(i), w', d) || exists ip :: Step(w, Settle(i, ip), w', d)
    ensures Served(w', owner)
  {
    NodeNamed(w, i, w', d);
    hide Named, Led, Step, OneAtATime, StampedOnce;
    SameLeads(w, w');
    SameOwners(w, w', owner);
  }

  lemma StepKeepsServed(w: World, owner: Owner, a: Action, w': World, owner': Owner, d: Spec)
    requires Inv(w, d) && Served(w, owner) && Step(w, a, w', d) && SlotStep(w, owner, a, owner')
    requires a.Scan? && w' != w ==> a.scraped.Some? && AllAssigned(Group(a.scraped.value).shards)
    ensures Served(w', owner')
  {
    match a
    case Scan(_, _, _, _) => ScanKeepsServed(w, owner, a, w', d);
    case Stamp => StampKeepsServed(w, owner, w', d);
    case Flip(t) => FlipKeepsServed(w, owner, t, w', owner', d);
    case Down(i) => NodeKeepsServed(w, owner, i, w', d);
    case Settle(i, ip) => NodeKeepsServed(w, owner, i, w', d);
    case _ => SameLeads(w, w'); SameOwners(w, w', owner);
  }

  // ----- engine-image rolls

  /** Every node still to be rolled carries another engine image than the wanted one. */
  ghost predicate ImageRoll(nodes: seq<Node>, d: Spec) {
    forall n :: n in nodes && n.NeedsRoll(d) ==> n.spec.image != "" && n.spec.image != d.image
  }

  lemma StepKeepsImageRoll(w: World, a: Action, w': World, d: Spec)
    requires Inv(w, d) && Step(w, a, w', d) && ImageRoll(w.nodes, d)
    ensures ImageRoll(w'.nodes, d)
  {
    hide Decide, LiveState, Group, IsScrape, OneAtATime, StampedOnce, Led, PcInv;
    if a.Stamp? {
      StampNamed(w, w', w.pc.x, d);
    }
  }

  /** The pass got through the gate. */
  ghost predicate GotThrough(nodes: seq<Node>, scraped: Option<seq<NodeState>>, d: Spec) {
    exists degraded: bool, a: Answers :: Allowed(nodes, degraded, StateOf(scraped), d, a)
  }

  lemma GateChecksSlots(w: World, a: Action, w': World, d: Spec)
    requires a.Scan? && ScanStep(w, a, w', d) && w' != w && ImageRoll(w.nodes, d)
    requires GotThrough(w.nodes, a.scraped, d)
    ensures a.scraped.Some? && AllAssigned(Group(a.scraped.value).shards)
  {
    DecideFacts(w.nodes, StateOf(a.scraped), d);
    hide Decide, LiveState, Group, AllAssigned;
    assert w.nodes[a.x] in w.nodes;
    assert EngineChange(w.nodes, d);
  }

  lemma StartsServed(ws: seq<World>, owners: seq<Owner>, actions: seq<Action>, d: Spec)
    requires SlotRun(ws, owners, actions, d)
    ensures Served(ws[0], owners[0])
  {
  }

  /** In every run that rolls an engine image, through failovers that pass the slots on, however
      partial its scrapes, no node that serves slots is ever restarted. */
  lemma {:induction false} ImageRollServes(ws: seq<World>, owners: seq<Owner>, actions: seq<Action>, d: Spec, n: nat)
    requires SlotRun(ws, owners, actions, d) && n < |ws| && ImageRoll(ws[0].nodes, d)
    requires forall i :: 0 <= i < n && actions[i].Scan? && ws[i + 1] != ws[i] ==>
               GotThrough(ws[i].nodes, actions[i].scraped, d)
    ensures Served(ws[n], owners[n]) && ImageRoll(ws[n].nodes, d)
  {
    hide Inv, Step, Served, SlotStep, ImageRoll, GotThrough, Start, LeadsOwn, AllAssigned, Group;
    if n == 0 {
      StartsServed(ws, owners, actions, d);
    } else {
      ImageRollServes(ws, owners, actions, d, n - 1);
      RunInv(ws, actions, d, n - 1);
      var w, a, w' := ws[n - 1], actions[n - 1], ws[n];
      StepKeepsImageRoll(w, a, w', d);
      if a.Scan? && w' != w {
        IsScanStep(w, a, w', d);
        GateChecksSlots(w, a, w', d);
      }
      StepKeepsServed(w, owners[n - 1], a, w', owners[n], d);
    }
  }

  lemma IsScanStep(w: World, a: Action, w': World, d: Spec)
    requires a.Scan? && Step(w, a, w', d)
    ensures ScanStep(w, a, w', d)
  {
  }

  /** Without the gate it fails: a roll of the configuration only restarts a primary that serves. */
  lemma ConfigRollFails() returns (ws: seq<World>, owners: seq<Owner>, actions: seq<Action>, d: Spec)
    ensures SlotRun(ws, owners, actions, d) && |actions| == 2 && !EngineChange(ws[0].nodes, d)
    ensures !KeepsServing(ws[2], owners[2])
  {
    ws, actions, d := BlindRoll();
    hide EngineChange, IsRun;
    IsTheRun(ws, actions, d);
    var id := ws[0].places[0].id;
    var owner: Owner := map[0 := id];
    owners := [owner, owner, owner];
    assert LeadsOwn(ws[0], owner);
    assert TrueOf(owner, Replies(actions[0].scraped));
    assert owner[0] == ws[2].places[0].id && Serves(ws[2], owner, 0);
  }

  lemma IsTheRun(ws: seq<World>, actions: seq<Action>, d: Spec)
    requires IsRun(ws, actions, d)
    ensures |ws| == |actions| + 1
  {
  }
}
