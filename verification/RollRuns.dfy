/** Whole rolling updates: reconcile passes for one desired spec, interleaved with the role
    flips of failovers that complete late and with nodes restarting and coming back. */
module RollRuns {
  import opened Sorting
  import opened ClusterView
  import opened Replicas
  import opened RollingUpdate

  /** A node's engine identity, which it keeps over restarts. */
  datatype Place = Place(id: string, shardID: string)

  /** Where the single reconcile worker stands: waiting for target `t` to take over from `x`,
      or about to stamp `x`, which the scrape missed if `blind`. */
  datatype Pc = Idle | Waiting(x: nat, t: nat) | Stamping(x: nat, blind: bool)

  /** Nodes are known by their index. `primary` is the true primary of each shard, `pending` the
      targets of failovers that may still complete. */
  datatype World = World(nodes: seq<Node>, places: seq<Place>, primary: map<string, nat>, pending: set<nat>, pc: Pc,
                         stamped: seq<nat>) {
    function Lead(i: nat): (r: nat)
      requires i < |places| && places[i].shardID in primary
    {
      primary[places[i].shardID]
    }
  }

  datatype Action =
    | Scan(scraped: Option<seq<NodeState>>, src: seq<nat>, x: nat, t: nat)
    | Poll | GiveUp | Stamp
    | Flip(t: nat) | Lapse(t: nat)      // a failover completes, or comes to nothing
    | Down(i: nat) | Settle(i: nat, ip: string)

  ghost predicate WellFormed(w: World) { Named(w) && Led(w) }

  ghost predicate Named(w: World) {
    && |w.places| == |w.nodes|
    && (forall i, j :: 0 <= i < j < |w.nodes| ==> w.nodes[i].name != w.nodes[j].name)
    && (forall i, j :: 0 <= i < j < |w.nodes| ==> w.nodes[i].podIP != w.nodes[j].podIP || w.nodes[i].podIP == "")
    && (forall i, j :: 0 <= i < j < |w.nodes| ==> w.places[i].id != w.places[j].id)
    && (forall i :: 0 <= i < |w.nodes| ==> w.places[i].id != "")
  }

  ghost predicate Led(w: World) {
    |w.places| == |w.nodes| && forall i :: 0 <= i < |w.nodes| ==>
      w.places[i].shardID in w.primary && w.Lead(i) < |w.nodes| && w.places[w.Lead(i)].shardID == w.places[i].shardID
  }

  // ----- scraping

  ghost predicate Sees(w: World, i: nat, n: NodeState)
    requires Led(w) && i < |w.nodes|
  {
    && w.nodes[i].podIP != "" && n.addr == w.nodes[i].podIP + CLIENT_PORT
    && n.id == w.places[i].id && n.shardID == w.places[i].shardID
    && (n.IsPrimary() <==> w.Lead(i) == i)
    && (n.IsReplica() ==> n.primaryID == w.places[w.Lead(i)].id)
  }

  /** A truthful, possibly partial, scrape; `src` names the node behind each result. */
  ghost predicate IsScrape(w: World, scraped: seq<NodeState>, src: seq<nat>) {
    && Led(w) && |src| == |scraped| && Distinct(src)
    && forall k :: 0 <= k < |src| ==> src[k] < |w.nodes| && Sees(w, src[k], scraped[k])
  }

  function StateOf(scraped: Option<seq<NodeState>>): (r: Option<View>) {
    if scraped.Some? then Some(Group(scraped.value)) else None
  }

  ghost predicate ScanStep(w: World, a: Action, w': World, d: Spec)
    requires a.Scan?
  {
    && w.pc.Idle? && (a.scraped.Some? ==> IsScrape(w, a.scraped.value, a.src))
    && match Decide(w.nodes, StateOf(a.scraped), d)
       case Restart(n) =>
         a.x < |w.nodes| && w.nodes[a.x] == n && w' == w.(pc := Stamping(a.x, LiveState(StateOf(a.scraped), n).None?))
       case Promote(n, target) =>
         && a.x < |w.nodes| && w.nodes[a.x] == n && a.t < |w.nodes| && target.addr == w.nodes[a.t].podIP + CLIENT_PORT
         && (|| w' == w                                                           // the command failed
             || w' == w.(pending := w.pending + {a.t})                            // it failed, but may take effect
             || w' == w.(pending := w.pending + {a.t}, pc := Waiting(a.x, a.t)))
       case _ => w' == w
  }

  ghost predicate Step(w: World, a: Action, w': World, d: Spec) {
    match a
    case Scan(_, _, _, _) => ScanStep(w, a, w', d)
    case Poll =>
      && w.pc.Waiting? && w.pc.t < |w.places| && w.places[w.pc.t].shardID in w.primary && w.Lead(w.pc.t) == w.pc.t
      && w' == w.(pc := Stamping(w.pc.x, false))
    case GiveUp => w' == w.(pc := Idle)
    case Stamp =>
      w.pc.Stamping? && w.pc.x < |w.nodes|
      && w' == w.(nodes := StampIn(w.nodes, w.nodes[w.pc.x], d), stamped := w.stamped + [w.pc.x], pc := Idle)
    case Flip(t) =>
      && t in w.pending && t < |w.places|
      && w' == w.(primary := w.primary[w.places[t].shardID := t], pending := w.pending - {t})
    case Lapse(t) => w' == w.(pending := w.pending - {t})
    case Down(i) =>
      i < |w.nodes| && w.nodes[i].observed != w.nodes[i].generation
          && w' == w.(nodes := w.nodes[i := w.nodes[i].(ready := false)])
    case Settle(i, ip) =>
      && i < |w.nodes| && (ip == "" || forall j :: 0 <= j < |w.nodes| && j != i ==> w.nodes[j].podIP != ip)
      && w' == w.(nodes := w.nodes[i := w.nodes[i].(ready := true, observed := w.nodes[i].generation, podIP := ip)])
  }

  ghost predicate Start(w: World) {
    WellFormed(w) && AllSettled(w) && w.pending == {} && w.pc.Idle? && w.stamped == []
  }

  ghost predicate IsRun(ws: seq<World>, actions: seq<Action>, d: Spec) {
    |ws| == |actions| + 1 && Start(ws[0]) && forall i :: 0 <= i < |actions| ==> Step(ws[i], actions[i], ws[i + 1], d)
  }

  // ----- what every reachable state satisfies

  ghost predicate AllSettled(w: World) { forall i :: 0 <= i < |w.nodes| ==> w.nodes[i].Settled() }

  /** At most one node is off its settled state, and none that still needs a roll. */
  ghost predicate OneAtATime(w: World, d: Spec) {
    && (forall i :: 0 <= i < |w.nodes| && w.nodes[i].NeedsRoll(d) ==> w.nodes[i].Settled())
    && (forall i, j :: 0 <= i < j < |w.nodes| ==> w.nodes[i].Settled() || w.nodes[j].Settled())
  }

  ghost predicate StampedOnce(w: World, d: Spec) {
    Distinct(w.stamped) && forall x :: x in w.stamped ==> x < |w.nodes| && !w.nodes[x].NeedsRoll(d)
  }

  /** Only rolled, settled nodes can still become primary. */
  ghost predicate SafeTarget(w: World, t: nat, d: Spec) {
    t < |w.nodes| && !w.nodes[t].NeedsRoll(d) && w.nodes[t].Settled()
  }

  ghost predicate PcInv(w: World, d: Spec)
    requires Led(w)
  {
    match w.pc
    case Idle => true
    case Waiting(x, t) =>
      && x < |w.nodes| && w.nodes[x].NeedsRoll(d) && AllSettled(w) && SafeTarget(w, t, d)
      && w.places[x].shardID == w.places[t].shardID
    case Stamping(x, blind) =>
      x < |w.nodes| && w.nodes[x].NeedsRoll(d) && AllSettled(w) && (!blind ==> w.Lead(x) != x)
  }

  ghost predicate Inv(w: World, d: Spec) {
    && WellFormed(w) && OneAtATime(w, d) && StampedOnce(w, d) && PcInv(w, d)
    && forall t :: t in w.pending ==> SafeTarget(w, t, d)
  }

  // ----- what a scan can choose

  lemma {:induction false} ByAddrSound(nodes: seq<NodeState>, addr: string)
    requires addr in ByAddr(nodes)
    ensures ByAddr(nodes)[addr] in nodes && ByAddr(nodes)[addr].addr == addr
  {
    var front, last := nodes[..|nodes| - 1], nodes[|nodes| - 1];
    if last.addr != addr || last.addr == "" { ByAddrSound(front, addr); }
  }

  lemma {:induction false} ByAddrComplete(nodes: seq<NodeState>, n: NodeState)
    requires n in nodes && n.addr != ""
    ensures n.addr in ByAddr(nodes)
  {
    var front, last := nodes[..|nodes| - 1], nodes[|nodes| - 1];
    assert nodes == front + [last];
    if n != last { ByAddrComplete(front, n); }
  }

  lemma SameAddress(w: World, i: nat, j: nat)
    requires WellFormed(w) && i < |w.nodes| && j < |w.nodes|
    requires w.nodes[i].podIP != "" && w.nodes[i].podIP + CLIENT_PORT == w.nodes[j].podIP + CLIENT_PORT
    ensures i == j
  {
    var a, b := w.nodes[i].podIP, w.nodes[j].podIP;
    assert a == (a + CLIENT_PORT)[..|a|] && b == (b + CLIENT_PORT)[..|b|];
  }

  /** A node's live state is the scrape's result for that very node, if it was reached. */
  lemma LiveStateIs(w: World, scraped: seq<NodeState>, src: seq<nat>, i: nat)
    requires WellFormed(w) && IsScrape(w, scraped, src) && i < |w.nodes|
    ensures match LiveState(Some(Group(scraped)), w.nodes[i])
            case None => i !in src
            case Some(n) => n in scraped && Sees(w, i, n)
  {
    hide Group, ByAddr, Named;
    GroupNodes(scraped);
    var addr := w.nodes[i].podIP + CLIENT_PORT;
    if LiveState(Some(Group(scraped)), w.nodes[i]).Some? {
      ByAddrSound(scraped, addr);
      var k :| 0 <= k < |scraped| && scraped[k] == ByAddr(scraped)[addr];
      SameAddress(w, i, src[k]);
    } else if i in src {
      var k :| 0 <= k < |src| && src[k] == i;
      assert Sees(w, i, scraped[k]);
      ByAddrComplete(scraped, scraped[k]);
    }
  }

  lemma ScrapedIdsDistinct(w: World, scraped: seq<NodeState>, src: seq<nat>)
    requires Named(w) && IsScrape(w, scraped, src)
    ensures forall i, j :: 0 <= i < j < |scraped| ==> scraped[i].id != scraped[j].id
    ensures forall n :: n in scraped ==> n.id != ""
  {
    hide Led;
    forall k | 0 <= k < |scraped| ensures scraped[k].id == w.places[src[k]].id { assert Sees(w, src[k], scraped[k]); }
    forall i, j | 0 <= i < j < |scraped| ensures scraped[i].id != scraped[j].id { assert src[i] != src[j]; }
  }

  lemma OnePrimaryPerShard(w: World, scraped: seq<NodeState>, src: seq<nat>, i: nat, j: nat)
    requires IsScrape(w, scraped, src) && i < |scraped| && j < |scraped|
    requires scraped[i].IsPrimary() && scraped[j].IsPrimary() && scraped[i].shardID == scraped[j].shardID
    ensures i == j
  {
    assert Sees(w, src[i], scraped[i]) && Sees(w, src[j], scraped[j]);
    assert src[i] == src[j];
  }

  lemma ScrapeCoherent(w: World, scraped: seq<NodeState>, src: seq<nat>)
    requires WellFormed(w) && IsScrape(w, scraped, src)
    ensures Coherent(scraped)
  {
    hide Named, IsScrape;
    ScrapedIdsDistinct(w, scraped, src);
    forall a, b | a in scraped && b in scraped && OwnsSlots(a) && OwnsSlots(b) && a.shardID == b.shardID
      ensures a == b
    {
      var i :| 0 <= i < |scraped| && scraped[i] == a;
      var j :| 0 <= j < |scraped| && scraped[j] == b;
      OnePrimaryPerShard(w, scraped, src, i, j);
    }
  }

  lemma ShardPrimaryIs(scraped: seq<NodeState>, shardID: string)
    requires Coherent(scraped)
    ensures match PrimaryByShard(Group(scraped), shardID)
            case None => true
            case Some(p) => p in scraped && p.shardID == shardID
  {
    GroupEstablishesInv(scraped);
    GroupNodes(scraped);
    FindShardFacts(Group(scraped).shards, shardID);
    var k := FindShard(Group(scraped).shards, shardID);
    if k < |Group(scraped).shards| { assert ShardInv(scraped, Group(scraped).shards[k]); }
  }

  lemma TargetFollows(scraped: seq<NodeState>, shardID: string, target: NodeState) returns (p: NodeState)
    requires Coherent(scraped) && FailoverTarget(Group(scraped), shardID) == Some(target)
    ensures target in scraped && target.IsReplica() && p in scraped && p.shardID == shardID && target.primaryID == p.id
  {
    hide Coherent, Group;
    GroupNodes(scraped);
    ShardPrimaryIs(scraped, shardID);
    p := PrimaryByShard(Group(scraped), shardID).value;
    SyncedFacts(scraped, p.id);
    HighestFacts(Synced(scraped, p.id));
  }

  /** The failover target is a scraped replica whose true primary leads the shard asked for. */
  lemma TargetIsFollower(w: World, scraped: seq<NodeState>, src: seq<nat>, shardID: string, target: NodeState, t: nat)
    requires WellFormed(w) && IsScrape(w, scraped, src) && t < |w.nodes|
    requires FailoverTarget(Group(scraped), shardID) == Some(target) && target.addr == w.nodes[t].podIP + CLIENT_PORT
    ensures w.places[t].shardID == shardID && w.Lead(t) != t && t in src
  {
    hide FailoverTarget, Group, Coherent;
    ScrapeCoherent(w, scraped, src);
    var p := TargetFollows(scraped, shardID, target);
    var k :| 0 <= k < |scraped| && scraped[k] == target;
    SameAddress(w, src[k], t);
    var j :| 0 <= j < |scraped| && scraped[j] == p;
    assert Sees(w, src[j], p);
    assert w.places[src[j]].id == w.places[w.Lead(t)].id;
  }

  lemma DecideFacts(nodes: seq<Node>, state: Option<View>, d: Spec)
    ensures match Decide(nodes, state, d)
            case Restart(x) =>
              && x in nodes && x.NeedsRoll(d) && (forall n :: n in nodes ==> !MidRoll(n, d))
              && (LiveState(state, x).Some? ==> !LiveState(state, x).value.IsPrimary())
            case Promote(x, t) =>
              && x in nodes && x.NeedsRoll(d) && (forall n :: n in nodes ==> !MidRoll(n, d))
              && LiveState(state, x).Some? && state.Some? && LiveState(state, x).value.IsPrimary()
              && FailoverTarget(state.value, LiveState(state, x).value.shardID) == Some(t)
              && GoodTarget(state.value, LiveState(state, x).value.shardID, t)
              && forall n :: n in nodes && n.NeedsRoll(d) ==> IsLivePrimary(state, n)
            case _ => true
  {
    hide Candidate, FailoverTarget, MidRoll, GoodTarget;
    CandidateFacts(nodes, state, d);
    match Decide(nodes, state, d)
    case Promote(x, t) => TargetIs(state.value, LiveState(state, x).value.shardID, t);
    case _ =>
  }

  lemma QuietIsSettled(w: World, d: Spec)
    requires OneAtATime(w, d) && forall n :: n in w.nodes ==> !MidRoll(n, d)
    ensures AllSettled(w)
  {
    assert forall i :: 0 <= i < |w.nodes| ==> w.nodes[i] in w.nodes;
  }

  lemma PromoteIsSafe(w: World, scraped: seq<NodeState>, src: seq<nat>, x: nat, t: nat, d: Spec)
    requires WellFormed(w) && OneAtATime(w, d) && IsScrape(w, scraped, src) && x < |w.nodes| && t < |w.nodes|
    requires Decide(w.nodes, Some(Group(scraped)), d).Promote?
               && Decide(w.nodes, Some(Group(scraped)), d).x == w.nodes[x]
    requires Decide(w.nodes, Some(Group(scraped)), d).target.addr == w.nodes[t].podIP + CLIENT_PORT
    ensures w.nodes[x].NeedsRoll(d) && AllSettled(w) && SafeTarget(w, t, d)
              && w.places[x].shardID == w.places[t].shardID
    ensures w.Lead(x) == x
  {
    hide Decide, FailoverTarget, LiveState, Group, MidRoll, WellFormed;
    DecideFacts(w.nodes, Some(Group(scraped)), d);
    QuietIsSettled(w, d);
    LiveStateIs(w, scraped, src, x);
    TargetIsFollower(w, scraped, src, w.places[x].shardID, Decide(w.nodes, Some(Group(scraped)), d).target, t);
    LiveStateIs(w, scraped, src, t);
    assert !IsLivePrimary(Some(Group(scraped)), w.nodes[t]);
    assert w.nodes[t] in w.nodes;
  }

  lemma ScanKeepsInv(w: World, a: Action, w': World, d: Spec)
    requires Inv(w, d) && a.Scan? && ScanStep(w, a, w', d)
    ensures Inv(w', d)
  {
    hide Decide, LiveState, Group, MidRoll, WellFormed, OneAtATime, StampedOnce;
    IsLed(w);
    DecideFacts(w.nodes, StateOf(a.scraped), d);
    match Decide(w.nodes, StateOf(a.scraped), d)
    case Restart(n) =>
      QuietIsSettled(w, d);
      if a.scraped.Some? { LiveStateIs(w, a.scraped.value, a.src, a.x); } else { Unscraped(n); }
      SameButPc(w, w', d);
    case Promote(n, target) =>
      if a.scraped.Some? { PromoteIsSafe(w, a.scraped.value, a.src, a.x, a.t, d); } else { Unscraped(n); }
      SameButPc(w, w', d);
    case _ =>
  }

  lemma Unscraped(n: Node)
    ensures LiveState(None, n) == None
  {
  }

  lemma IsLed(w: World)
    requires WellFormed(w)
    ensures Led(w)
  {
  }

  lemma SameButPc(w: World, w': World, d: Spec)
    requires WellFormed(w) && w' == w.(pc := w'.pc, pending := w'.pending)
    ensures WellFormed(w') && (OneAtATime(w, d) ==> OneAtATime(w', d)) && (StampedOnce(w, d) ==> StampedOnce(w', d))
  {
    SameLeads(w, w');
  }

  lemma SameLeads(w: World, w': World)
    requires Led(w) && w'.primary == w.primary && w'.places == w.places && |w'.nodes| == |w.nodes|
    ensures Led(w') && forall i :: 0 <= i < |w.nodes| ==> w'.Lead(i) == w.Lead(i)
  {
    forall i | 0 <= i < |w.nodes| ensures w'.Lead(i) == w.Lead(i) < |w.nodes| {}
  }

  lemma StampNamed(w: World, w': World, x: nat, d: Spec)
    requires Named(w) && x < |w.nodes| && w'.places == w.places && w'.nodes == StampIn(w.nodes, w.nodes[x], d)
    ensures Named(w') && w'.nodes == w.nodes[x := w.nodes[x].Stamp(d)]
  {
  }

  // ----- the other steps

  lemma StampKeepsInv(w: World, w': World, d: Spec)
    requires Inv(w, d) && Step(w, Stamp, w', d)
    ensures Inv(w', d)
  {
    hide Named, Led, StampIn;
    var x := w.pc.x;
    StampNamed(w, w', x, d);
    SameLeads(w, w');
    assert x !in w.stamped;
  }

  lemma FlipKeepsInv(w: World, t: nat, w': World, d: Spec)
    requires Inv(w, d) && Step(w, Flip(t), w', d)
    ensures Inv(w', d)
  {
    forall i | 0 <= i < |w.nodes|
      ensures w'.places[i].shardID in w'.primary
                && w'.Lead(i) == if w.places[i].shardID == w.places[t].shardID then t else w.Lead(i)
    {}
    assert Led(w');
  }

  lemma NodeNamed(w: World, i: nat, w': World, d: Spec)
    requires Named(w) && i < |w.nodes| && (Step(w, Down(i), w', d) || exists ip :: Step(w, Settle(i, ip), w', d))
    ensures Named(w') && |w'.nodes| == |w.nodes| && w' == w.(nodes := w.nodes[i := w'.nodes[i]])
    ensures w'.nodes[i].spec == w.nodes[i].spec && (w.nodes[i].Settled() ==> w'.nodes[i].Settled())
  {
  }

  lemma PcKept(w: World, w': World, i: nat, d: Spec)
    requires Led(w) && Led(w') && PcInv(w, d) && i < |w.nodes| == |w'.nodes|
               && w' == w.(nodes := w.nodes[i := w'.nodes[i]])
    requires forall j :: 0 <= j < |w.nodes| ==> w'.Lead(j) == w.Lead(j)
    requires w'.nodes[i].spec == w.nodes[i].spec && (w.nodes[i].Settled() ==> w'.nodes[i].Settled())
    ensures PcInv(w', d)
  {
  }

  lemma NodeKeepsInv(w: World, i: nat, w': World, d: Spec)
    requires Inv(w, d) && i < |w.nodes| && (Step(w, Down(i), w', d) || exists ip :: Step(w, Settle(i, ip), w', d))
    ensures Inv(w', d)
  {
    NodeNamed(w, i, w', d);
    hide Named, Led, Step;
    SameLeads(w, w');
    PcKept(w, w', i, d);
  }

  lemma StepKeepsInv(w: World, a: Action, w': World, d: Spec)
    requires Inv(w, d) && Step(w, a, w', d)
    ensures Inv(w', d)
  {
    match a
    case Scan(_, _, _, _) => ScanKeepsInv(w, a, w', d);
    case Poll => SameButPc(w, w', d);
    case GiveUp => SameButPc(w, w', d);
    case Stamp => StampKeepsInv(w, w', d);
    case Flip(t) => FlipKeepsInv(w, t, w', d);
    case Lapse(t) => SameButPc(w, w', d);
    case Down(i) => NodeKeepsInv(w, i, w', d);
    case Settle(i, ip) => NodeKeepsInv(w, i, w', d);
  }

  lemma {:induction false} RunInv(ws: seq<World>, actions: seq<Action>, d: Spec, i: nat)
    requires IsRun(ws, actions, d) && i < |ws|
    ensures Inv(ws[i], d)
  {
    if i == 0 {
    } else {
      hide Inv, Step;
      RunInv(ws, actions, d, i - 1);
      StepKeepsInv(ws[i - 1], actions[i - 1], ws[i], d);
    }
  }

  // ----- one node at a time, each once, and an end

  ghost function Needing(w: World, d: Spec): (r: set<nat>) {
    set i: nat | i < |w.nodes| && w.nodes[i].NeedsRoll(d)
  }

  lemma StepProgress(w: World, a: Action, w': World, d: Spec)
    requires Inv(w, d) && Step(w, a, w', d)
    ensures if a.Stamp? then w.pc.x in Needing(w, d) && Needing(w', d) == Needing(w, d) - {w.pc.x}
              && w'.stamped == w.stamped + [w.pc.x]
            else Needing(w', d) == Needing(w, d) && w'.stamped == w.stamped
  {
    hide Decide, Group, IsScrape, StampIn;
    if a.Stamp? { StampNamed(w, w', w.pc.x, d); }
  }

  /** At every moment of every run at most one node is unsettled, no node has been stamped
      twice, and the stamps made and the rolls left add up to the rolls there were. */
  lemma {:induction false} EachNodeOnce(ws: seq<World>, actions: seq<Action>, d: Spec, i: nat)
    requires IsRun(ws, actions, d) && i < |ws|
    ensures OneAtATime(ws[i], d) && Distinct(ws[i].stamped)
    ensures |ws[i].stamped| + |Needing(ws[i], d)| == |Needing(ws[0], d)|
  {
    hide IsRun, OneAtATime, Needing;
    RunFacts(ws, actions, d, i);
    if i == 0 {
      NothingStamped(ws, actions, d);
    } else {
      EachNodeOnce(ws, actions, d, i - 1);
      RunProgress(ws, actions, d, i - 1);
    }
  }

  lemma RunFacts(ws: seq<World>, actions: seq<Action>, d: Spec, i: nat)
    requires IsRun(ws, actions, d) && i < |ws|
    ensures |ws| == |actions| + 1 && OneAtATime(ws[i], d) && Distinct(ws[i].stamped)
  {
    RunInv(ws, actions, d, i);
  }

  lemma NothingStamped(ws: seq<World>, actions: seq<Action>, d: Spec)
    requires IsRun(ws, actions, d)
    ensures ws[0].stamped == []
  {
  }

  lemma RunProgress(ws: seq<World>, actions: seq<Action>, d: Spec, i: nat)
    requires IsRun(ws, actions, d) && i < |actions|
    ensures |ws[i + 1].stamped| + |Needing(ws[i + 1], d)| == |ws[i].stamped| + |Needing(ws[i], d)|
  {
    RunInv(ws, actions, d, i);
    hide Inv, Step, Needing;
    StepProgress(ws[i], actions[i], ws[i + 1], d);
  }

  // ----- primaries last, and never while they serve

  ghost predicate Complete(w: World, a: Action) {
    a.Scan? ==> a.scraped.Some? && forall i :: 0 <= i < |w.nodes| ==> i in a.src
  }

  /** Under a complete scrape a live primary's turn comes only when every node still needing
      a roll leads its shard. */
  lemma PrimariesLast(w: World, a: Action, w': World, d: Spec, i: nat)
    requires Inv(w, d) && a.Scan? && ScanStep(w, a, w', d) && Complete(w, a) && w'.pc.Waiting?
    requires i < |w.nodes| && w.nodes[i].NeedsRoll(d)
    ensures w.Lead(w'.pc.x) == w'.pc.x && w.Lead(i) == i
  {
    hide Decide, LiveState, Group, Named;
    DecideFacts(w.nodes, StateOf(a.scraped), d);
    PromoteIsSafe(w, a.scraped.value, a.src, a.x, a.t, d);
    LiveStateIs(w, a.scraped.value, a.src, i);
    assert w.nodes[i] in w.nodes;
  }

  /** Every shard's primary is settled: it is not being restarted. */
  ghost predicate Steady(w: World) { Led(w) && forall i :: 0 <= i < |w.nodes| ==> w.nodes[w.Lead(i)].Settled() }

  /** About to stamp the shard's primary, which the scrape missed. */
  ghost predicate HitsPrimary(w: World) {
    w.pc.Stamping? && w.pc.blind && Led(w) && w.pc.x < |w.nodes| && w.Lead(w.pc.x) == w.pc.x
  }

  lemma StampKeepsSteady(w: World, w': World, d: Spec)
    requires Inv(w, d) && Steady(w) && Step(w, Stamp, w', d)
    ensures Steady(w') <==> !HitsPrimary(w)
  {
    hide StampIn, OneAtATime, StampedOnce;
    var x := w.pc.x;
    StampNamed(w, w', x, d);
    hide Named;
    SameLeads(w, w');
    if w.Lead(x) == x {
      assert w'.Lead(x) == x && !w'.nodes[x].Settled();
    } else {
      forall i | 0 <= i < |w.nodes| ensures w.Lead(i) != x {}
    }
  }

  lemma StepKeepsSteady(w: World, a: Action, w': World, d: Spec)
    requires Inv(w, d) && Steady(w) && Step(w, a, w', d) && !a.Stamp?
    ensures Steady(w')
  {
    hide Decide, Group, IsScrape, OneAtATime, StampedOnce, Named, PcInv;
    match a
    case Flip(t) =>
      forall i | 0 <= i < |w.nodes|
        ensures w'.places[i].shardID in w'.primary
                  && w'.Lead(i) == if w.places[i].shardID == w.places[t].shardID then t else w.Lead(i)
      {}
    case Down(i) => SameLeads(w, w');
    case Settle(i, ip) => SameLeads(w, w');
    case _ => SameLeads(w, w');
  }

  lemma RunStepSteady(ws: seq<World>, actions: seq<Action>, d: Spec, i: nat)
    requires IsRun(ws, actions, d) && i < |actions| && Steady(ws[i])
    ensures Steady(ws[i + 1]) <==> !(actions[i].Stamp? && HitsPrimary(ws[i]))
  {
    RunInv(ws, actions, d, i);
    hide Inv, Step, Steady, HitsPrimary;
    if actions[i].Stamp? {
      StampKeepsSteady(ws[i], ws[i + 1], d);
    } else {
      StepKeepsSteady(ws[i], actions[i], ws[i + 1], d);
    }
  }

  lemma StartsSteady(ws: seq<World>, actions: seq<Action>, d: Spec)
    requires IsRun(ws, actions, d)
    ensures |ws| == |actions| + 1 && Steady(ws[0])
  {
  }

  /** Over every run: all shards keep a primary that is not being restarted exactly as long as
      no pass stamps an unscraped node that leads its shard. */
  lemma {:induction false} SteadyIff(ws: seq<World>, actions: seq<Action>, d: Spec, n: nat)
    requires IsRun(ws, actions, d) && n < |ws|
    ensures (forall i :: 0 <= i <= n ==> Steady(ws[i])) <==>
              (forall i :: 0 <= i < n && actions[i].Stamp? ==> !HitsPrimary(ws[i]))
  {
    hide IsRun, Steady, HitsPrimary;
    StartsSteady(ws, actions, d);
    if n == 0 {
    } else {
      SteadyIff(ws, actions, d, n - 1);
      if Steady(ws[n - 1]) { RunStepSteady(ws, actions, d, n - 1); }
    }
  }

  ghost predicate NotBlind(w: World) { w.pc.Stamping? ==> !w.pc.blind }

  lemma ScanSeesTarget(w: World, a: Action, w': World, d: Spec)
    requires WellFormed(w) && a.Scan? && ScanStep(w, a, w', d) && Complete(w, a)
    ensures NotBlind(w')
  {
    hide Decide, LiveState, Group, Named;
    if Decide(w.nodes, StateOf(a.scraped), d).Restart? { LiveStateIs(w, a.scraped.value, a.src, a.x); }
  }

  lemma {:induction false} NeverBlind(ws: seq<World>, actions: seq<Action>, d: Spec, n: nat)
    requires IsRun(ws, actions, d) && n < |ws|
    requires forall i :: 0 <= i < n ==> Complete(ws[i], actions[i])
    ensures NotBlind(ws[n])
  {
    hide Inv, ScanStep, Complete, WellFormed, StampIn, Start;
    if n == 0 {
      StartsIdle(ws[0]);
    } else {
      NeverBlind(ws, actions, d, n - 1);
      RunInv(ws, actions, d, n - 1);
      IsWellFormed(ws[n - 1], d);
      if actions[n - 1].Scan? { ScanSeesTarget(ws[n - 1], actions[n - 1], ws[n], d); }
    }
  }

  lemma StartsIdle(w: World)
    requires Start(w)
    ensures NotBlind(w)
  {
  }

  lemma IsWellFormed(w: World, d: Spec)
    requires Inv(w, d)
    ensures WellFormed(w)
  {
  }

  /** A run that stamps only nodes its scrapes reached never restarts a shard's primary. */
  lemma SightedIsServed(ws: seq<World>, actions: seq<Action>, d: Spec, n: nat)
    requires IsRun(ws, actions, d) && n < |ws|
    requires forall i :: 0 <= i < n && actions[i].Stamp? ==> NotBlind(ws[i])
    ensures Steady(ws[n])
  {
    hide IsRun, Steady;
    SteadyIff(ws, actions, d, n);
  }

  /** With every node scraped in every pass, no shard's primary is ever restarted. */
  lemma AlwaysServed(ws: seq<World>, actions: seq<Action>, d: Spec, n: nat)
    requires IsRun(ws, actions, d) && n < |ws|
    requires forall i :: 0 <= i < n ==> Complete(ws[i], actions[i])
    ensures Steady(ws[n])
  {
    hide IsRun, Complete, Steady, NotBlind;
    forall i | 0 <= i < n ensures NotBlind(ws[i]) { NeverBlind(ws, actions, d, i); }
    SightedIsServed(ws, actions, d, n);
  }

  // ----- the code's passes are such steps

  /** The stretch of a run that these actions make. */
  ghost predicate IsPath(ws: seq<World>, actions: seq<Action>, d: Spec) {
    |ws| == |actions| + 1 && forall i :: 0 <= i < |actions| ==> Step(ws[i], actions[i], ws[i + 1], d)
  }

  /** A pass that decides `r` stamps its node, if it is to be restarted or its target answered as
      primary, and nothing fails. */
  ghost predicate Stamps(r: Decision, a: Answers) {
    !a.updateFault && (r.Restart? || (r.Promote? && !a.failoverFault && Primary in a.roles))
  }

  /** A pass of `rollNextNode` over a truthful scrape is a stretch of a run: the scan, then the role
      flip and the poll that sees it, then the stamp; or giving up on the way. */
  lemma PassIsSteps(w: World, scraped: Option<seq<NodeState>>, src: seq<nat>, d: Spec, a: Answers)
    returns (ws: seq<World>, actions: seq<Action>)
    requires Inv(w, d) && w.pc.Idle? && (scraped.Some? ==> IsScrape(w, scraped.value, src))
    ensures IsPath(ws, actions, d) && ws[0] == w && ws[|actions|].pc.Idle?
    ensures var r := Decide(w.nodes, StateOf(scraped), d);
            ws[|actions|].nodes == if Stamps(r, a) then StampIn(w.nodes, r.x, d) else w.nodes
  {
    var state := StateOf(scraped);
    DecideFacts(w.nodes, state, d);
    hide Candidate, LiveState, Group, FailoverTarget, IsScrape, Inv, StampIn, Decide;
    match Decide(w.nodes, state, d)
    case Restart(n) =>
      var x := IndexOf(w.nodes, n);
      var w1 := w.(pc := Stamping(x, LiveState(state, n).None?));
      assert Step(w, Scan(scraped, src, x, 0), w1, d);
      ws, actions := FinishPass(w, w1, Scan(scraped, src, x, 0), x, n, d, a.updateFault);
    case Promote(n, target) =>
      var x := IndexOf(w.nodes, n);
      var t := TargetIndex(w, scraped.value, src, n, target, d);
      var scan := Scan(scraped, src, x, t);
      if a.failoverFault || Primary !in a.roles {
        assert Step(w, scan, w, d);
        ws, actions := [w, w], [scan];
      } else {
        var w1 := w.(pending := w.pending + {t}, pc := Waiting(x, t));
        assert Step(w, scan, w1, d);
        IsWellFormed(w, d);
        var w2 := w1.(primary := w.primary[w.places[t].shardID := t], pending := w1.pending - {t});
        assert Step(w1, Flip(t), w2, d);
        var w3 := w2.(pc := Stamping(x, false));
        assert Step(w2, Poll, w3, d);
        var rest, more := FinishPass(w2, w3, Poll, x, n, d, a.updateFault);
        ws, actions := [w, w1] + rest, [scan, Flip(t)] + more;
      }
    case _ =>
      ws, actions := [w], [];
  }

  lemma IndexOf(nodes: seq<Node>, n: Node) returns (x: nat)
    requires n in nodes
    ensures x < |nodes| && nodes[x] == n
  {
    x :| 0 <= x < |nodes| && nodes[x] == n;
  }

  lemma TargetIndex(w: World, scraped: seq<NodeState>, src: seq<nat>, n: Node, target: NodeState, d: Spec)
    returns (t: nat)
    requires Inv(w, d) && IsScrape(w, scraped, src) && Decide(w.nodes, Some(Group(scraped)), d) == Promote(n, target)
    ensures t < |w.nodes| && target.addr == w.nodes[t].podIP + CLIENT_PORT
  {
    hide Candidate, LiveState, Group, FailoverTarget, Decide, Coherent;
    DecideFacts(w.nodes, Some(Group(scraped)), d);
    IsWellFormed(w, d);
    ScrapeCoherent(w, scraped, src);
    var p := TargetFollows(scraped, LiveState(Some(Group(scraped)), n).value.shardID, target);
    var k :| 0 <= k < |scraped| && scraped[k] == target;
    t := src[k];
    assert Sees(w, src[k], scraped[k]);
  }

  /** The end of a pass: the stamp, or giving up when it fails. */
  lemma FinishPass(w: World, w1: World, a: Action, x: nat, n: Node, d: Spec, fault: bool)
    returns (ws: seq<World>, actions: seq<Action>)
    requires Step(w, a, w1, d) && w1.pc.Stamping? && w1.pc.x == x < |w1.nodes| && w1.nodes[x] == n
    ensures IsPath(ws, actions, d) && ws[0] == w && ws[|actions|].pc.Idle?
    ensures ws[|actions|].nodes == if fault then w1.nodes else StampIn(w1.nodes, n, d)
  {
    var last := if fault then GiveUp else Stamp;
    var w2 := if fault then w1.(pc := Idle)
              else w1.(nodes := StampIn(w1.nodes, n, d), stamped := w1.stamped + [x], pc := Idle);
    hide ScanStep, StampIn;
    assert Step(w1, last, w2, d);
    ws, actions := [w, w1, w2], [a, last];
  }
}
