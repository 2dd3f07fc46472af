/** Scale-in (scalein.go): delete the surplus replicas of the shards that stay, drain the excess
    shards batch by batch onto a survivor, then delete their nodes, replicas before the primary;
    one effect per pass. */
module ScaleIn {
  import opened Sorting
  import opened SlotRanges
  import opened EvenSplit
  import opened ClusterView
  import opened Planner
  import opened Ownership
  import opened Engine
  import opened AsyncMigration
  import opened Positions

  // ----- selections

  /** The pod IP is known to belong to a shard that goes. */
  predicate GoesAt(positions: Positions, ip: string, want: int) { ip in positions && positions[ip].shard >= want }

  predicate IsDraining(p: NodeState, positions: Positions, want: int) {
    GoesAt(positions, HostFromAddr(p.addr), want)
  }

  function Draining(shards: seq<ShardState>, positions: Positions, want: int): (r: seq<NodeState>) {
    if shards == [] then []
    else
      var before, p := Draining(shards[..|shards| - 1], positions, want), shards[|shards| - 1].Primary();
      if p.Some? && p.value.NumSlots() != 0 && IsDraining(p.value, positions, want) then before + [p.value] else before
  }

  function Remaining(shards: seq<ShardState>, positions: Positions, want: int): (r: seq<NodeState>) {
    if shards == [] then []
    else
      var before, p := Remaining(shards[..|shards| - 1], positions, want), shards[|shards| - 1].Primary();
      if p.Some? && !IsDraining(p.value, positions, want) then before + [p.value] else before
  }

  /** `drainingShardPrimaries`. */
  method DrainingShardPrimaries(s: ClusterState, positions: Positions, want: int) returns (out: seq<NodeState>)
    ensures out == Sort(Draining(s.shards, positions, want), AddrLe)
  {
    out := [];
    var shards := s.shards;
    for i := 0 to |shards|
      invariant out == Draining(shards[..i], positions, want)
    {
      assert shards[..i + 1][..i] == shards[..i];
      var p := shards[i].Primary();
      if p.None? || p.value.NumSlots() == 0 {
        continue;
      }
      var host := HostFromAddr(p.value.addr);
      if host !in positions || positions[host].shard < want {
        continue;
      }
      out := out + [p.value];
    }
    assert shards[..|shards|] == shards;
    out := Sort(out, AddrLe);
  }

  /** `remainingPrimaries`. */
  method RemainingPrimaries(s: ClusterState, positions: Positions, want: int) returns (out: seq<NodeState>)
    ensures out == Remaining(s.shards, positions, want)
  {
    out := [];
    var shards := s.shards;
    for i := 0 to |shards|
      invariant out == Remaining(shards[..i], positions, want)
    {
      assert shards[..i + 1][..i] == shards[..i];
      var p := shards[i].Primary();
      if p.None? {
        continue;
      }
      var host := HostFromAddr(p.value.addr);
      if host in positions && positions[host].shard >= want {
        continue;
      }
      out := out + [p.value];
    }
    assert shards[..|shards|] == shards;
  }

  lemma {:induction false} SelectionMembers(shards: seq<ShardState>, positions: Positions, want: int, p: NodeState)
    ensures p in Draining(shards, positions, want) <==>
            p in ShardPrimaries(shards) && p.NumSlots() != 0 && IsDraining(p, positions, want)
    ensures p in Remaining(shards, positions, want) <==> p in ShardPrimaries(shards) && !IsDraining(p, positions, want)
  {
    if shards == [] {
    } else {
      SelectionMembers(shards[..|shards| - 1], positions, want, p);
    }
  }

  /** Shards ascending; within a shard, node index descending. */
  predicate ExcessLe(a: ValkeyNode, b: ValkeyNode) {
    a.ShardIndex() < b.ShardIndex() || (a.ShardIndex() == b.ShardIndex() && a.NodeIndex() >= b.NodeIndex())
  }

  predicate IsExcess(n: ValkeyNode, want: int) { n.shardLabel.Some? && n.shardLabel.value >= want }

  function Excess(nodes: seq<ValkeyNode>, want: int): (r: seq<ValkeyNode>) {
    if nodes == [] then []
    else
      var before, n := Excess(nodes[..|nodes| - 1], want), nodes[|nodes| - 1];
      if IsExcess(n, want) then before + [n] else before
  }

  /** `excessShardNodes`. */
  method ExcessShardNodes(nodes: seq<ValkeyNode>, want: int) returns (out: seq<ValkeyNode>)
    ensures out == Sort(Excess(nodes, want), ExcessLe)
    ensures forall n :: n in out <==> n in nodes && n.shardLabel.Some? && n.shardLabel.value >= want
  {
    out := [];
    for i := 0 to |nodes|
      invariant out == Excess(nodes[..i], want)
    {
      assert nodes[..i + 1][..i] == nodes[..i];
      if nodes[i].shardLabel.None? || nodes[i].shardLabel.value < want {
        continue;
      }
      out := out + [nodes[i]];
    }
    assert nodes[..|nodes|] == nodes;
    SortPermutes(out, ExcessLe);
    ExcessMembers(nodes, want);
    out := Sort(out, ExcessLe);
  }

  lemma {:induction false} ExcessMembers(nodes: seq<ValkeyNode>, want: int)
    ensures forall n :: n in Excess(nodes, want) <==> n in nodes && IsExcess(n, want)
  {
    if nodes == [] {
    } else {
      ExcessMembers(nodes[..|nodes| - 1], want);
      assert nodes == nodes[..|nodes| - 1] + [nodes[|nodes| - 1]];
    }
  }

  /** Highest node index first. */
  predicate SurplusLe(a: ValkeyNode, b: ValkeyNode) { a.NodeIndex() >= b.NodeIndex() }

  /** A replica beyond the wanted number, in a shard that stays. */
  predicate IsSurplus(n: ValkeyNode, want: int, replicas: int) {
    n.shardLabel.Some? && n.nodeLabel.Some? && n.shardLabel.value < want && n.nodeLabel.value >= 1 + replicas
  }

  function ExtraReplicas(nodes: seq<ValkeyNode>, want: int, replicas: int): (r: seq<ValkeyNode>) {
    if nodes == [] then []
    else
      var before, n := ExtraReplicas(nodes[..|nodes| - 1], want, replicas), nodes[|nodes| - 1];
      if IsSurplus(n, want, replicas) then before + [n] else before
  }

  lemma {:induction false} SurplusMembers(nodes: seq<ValkeyNode>, want: int, replicas: int)
    ensures forall n :: n in ExtraReplicas(nodes, want, replicas) <==> n in nodes && IsSurplus(n, want, replicas)
  {
    if nodes == [] {
    } else {
      SurplusMembers(nodes[..|nodes| - 1], want, replicas);
      assert nodes == nodes[..|nodes| - 1] + [nodes[|nodes| - 1]];
    }
  }

  // ----- one pass

  class NodeList {
    var items: seq<ValkeyNode>
  }

  datatype Effect = Nothing | Waiting | DrainStarted(move: Move) | Deleted(node: ValkeyNode) | Faulted

  function Remove(items: seq<ValkeyNode>, n: ValkeyNode): (r: seq<ValkeyNode>) {
    if items == [] then [] else if items[0] == n then items[1..] else [items[0]] + Remove(items[1..], n)
  }

  /** No scraped shard primary that owns slots sits in a shard being removed. */
  ghost predicate Drained(shards: seq<ShardState>, positions: Positions, want: int) {
    forall p :: p in ShardPrimaries(shards) && p.NumSlots() != 0 ==> !IsDraining(p, positions, want)
  }

  /** The next node to delete: the first surplus replica or, without one, the first node of the
      excess shards. */
  ghost function Choice(items: seq<ValkeyNode>, want: int, replicas: int): (r: Option<ValkeyNode>) {
    var surplus, excess := ExtraReplicas(items, want, replicas), Excess(items, want);
    SortPermutes(surplus, SurplusLe);
    SortPermutes(excess, ExcessLe);
    if surplus != [] then Some(Sort(surplus, SurplusLe)[0])
    else if excess != [] then Some(Sort(excess, ExcessLe)[0])
    else None
  }

  /** The node a pass deletes: a surplus replica whatever the scrape says, a node of an excess
      shard only once nothing seems left to drain. */
  ghost function Victim(shards: seq<ShardState>, items: seq<ValkeyNode>, want: int,
                        replicas: int): (r: Option<ValkeyNode>) {
    if ExtraReplicas(items, want, replicas) == [] && !Drained(shards, PositionsOf(items), want) then None
    else Choice(items, want, replicas)
  }

  /** `handleScaleIn`: delete one surplus replica, or drain one batch off the first draining
      primary, or, when none is left, delete one excess node. */
  method HandleScaleIn(e: Engine, s: ClusterState, nodes: NodeList, want: int, replicas: int, f: Faults,
                       deleteFault: bool)
    returns (effect: Effect)
    modifies e`log, nodes
    ensures var items, at := old(nodes.items), PositionsOf(old(nodes.items));
            match Victim(s.shards, items, want, replicas)
            case Some(v) => effect == if deleteFault then Faulted else Deleted(v)
            case None =>
              if Drained(s.shards, at, want) then effect == Nothing
              else && Draining(s.shards, at, want) != []
                   && effect == DrainEffect(s, e.owner, old(e.log), FirstDraining(s.shards, at, want), at, want, f)
    ensures nodes.items == if effect.Deleted? then Remove(old(nodes.items), effect.node) else old(nodes.items)
    ensures var at := PositionsOf(old(nodes.items));
            if Victim(s.shards, old(nodes.items), want, replicas).Some? || Drained(s.shards, at, want)
            then e.log == old(e.log)
            else && Draining(s.shards, at, want) != []
                 && e.log == DrainLog(s, e.owner, old(e.log), FirstDraining(s.shards, at, want), at, want, f)
  {
    effect := DeleteExcessReplicas(nodes, want, replicas, deleteFault);
    if effect != Nothing {
      return;
    }
    var positions := PositionsByIP(nodes.items);
    var draining := DrainingShardPrimaries(s, positions, want);
    DrainedIff(s.shards, positions, want);
    if |draining| == 0 {
      effect := DeleteDrainedShardNodes(s, nodes, want, deleteFault);
      return;
    }
    effect := DrainShard(e, s, draining[0], positions, want, f);
  }

  /** `deleteExcessReplicas`: one node; its slots are not looked at. */
  method DeleteExcessReplicas(nodes: NodeList, want: int, replicas: int, fault: bool) returns (effect: Effect)
    modifies nodes
    ensures var surplus := Sort(ExtraReplicas(old(nodes.items), want, replicas), SurplusLe);
            if surplus == [] then effect == Nothing else effect == if fault then Faulted else Deleted(surplus[0])
    ensures ExtraReplicas(old(nodes.items), want, replicas) == [] <==> effect == Nothing
    ensures effect == Nothing <==>
            forall n :: n in old(nodes.items) && n.shardLabel.Some? && n.nodeLabel.Some? ==>
              n.shardLabel.value >= want || n.nodeLabel.value <= replicas
    ensures nodes.items == if effect.Deleted? then Remove(old(nodes.items), effect.node) else old(nodes.items)
  {
    var surplus := [];
    for i := 0 to |nodes.items|
      invariant surplus == ExtraReplicas(nodes.items[..i], want, replicas)
      invariant nodes.items == old(nodes.items)
    {
      var n := nodes.items[i];
      assert nodes.items[..i + 1][..i] == nodes.items[..i];
      if n.shardLabel.None? || n.nodeLabel.None? {
        continue;
      }
      if n.shardLabel.value < want && n.nodeLabel.value >= 1 + replicas {
        surplus := surplus + [n];
      }
    }
    assert nodes.items[..|nodes.items|] == nodes.items;
    SortPermutes(surplus, SurplusLe);
    SurplusMembers(nodes.items, want, replicas);
    assert surplus != [] ==> surplus[0] in surplus;
    if |surplus| == 0 {
      return Nothing;
    }
    surplus := Sort(surplus, SurplusLe);
    if fault {
      return Faulted;
    }
    nodes.items := Remove(nodes.items, surplus[0]);
    return Deleted(surplus[0]);
  }

  ghost function FirstDraining(shards: seq<ShardState>, positions: Positions, want: int): (r: NodeState)
    requires Draining(shards, positions, want) != []
  {
    SortPermutes(Draining(shards, positions, want), AddrLe);
    Sort(Draining(shards, positions, want), AddrLe)[0]
  }

  /** `deleteDrainedShardNodes`: one node, replicas before the primary, and only once no
      excess shard owns slots. */
  method DeleteDrainedShardNodes(s: ClusterState, nodes: NodeList, want: int, fault: bool) returns (effect: Effect)
    modifies nodes
    ensures var excess := Sort(Excess(old(nodes.items), want), ExcessLe);
            if excess == [] || !Drained(s.shards, PositionsOf(old(nodes.items)), want) then effect == Nothing
            else effect == if fault then Faulted else Deleted(excess[0])
    ensures nodes.items == if effect.Deleted? then Remove(old(nodes.items), effect.node) else old(nodes.items)
  {
    var excess := ExcessShardNodes(nodes.items, want);
    if |excess| == 0 {
      return Nothing;
    }
    var positions := PositionsByIP(nodes.items);
    var draining := DrainingShardPrimaries(s, positions, want);
    DrainedIff(s.shards, positions, want);
    if |draining| > 0 {
      return Nothing;
    }
    if fault {
      return Faulted;
    }
    nodes.items := Remove(nodes.items, excess[0]);
    return Deleted(excess[0]);
  }

  lemma DrainedIff(shards: seq<ShardState>, positions: Positions, want: int)
    ensures var draining := Sort(Draining(shards, positions, want), AddrLe);
            && (|draining| == 0 <==> Drained(shards, positions, want))
            && (|draining| > 0 ==> draining[0] in Draining(shards, positions, want))
  {
    var list := Draining(shards, positions, want);
    SortPermutes(list, AddrLe);
    forall p: NodeState
      ensures p in list <==> p in ShardPrimaries(shards) && p.NumSlots() != 0 && IsDraining(p, positions, want)
    {
      SelectionMembers(shards, positions, want, p);
    }
    assert list != [] ==> list[0] in list;
  }

  /** The node a pass deletes is listed and is either a surplus replica of greatest node index,
      or, when there is no surplus and nothing to drain, in a shard that goes: the lowest such
      shard, and its node of greatest index, so that index 0 goes last. */
  lemma VictimFacts(shards: seq<ShardState>, items: seq<ValkeyNode>, want: int, replicas: int)
    ensures Victim(shards, items, want, replicas).None? <==>
              && (forall n :: n in items ==> !IsSurplus(n, want, replicas))
              && ((forall n :: n in items ==> !IsExcess(n, want)) || !Drained(shards, PositionsOf(items), want))
    ensures Victim(shards, items, want, replicas).Some? ==>
              var v := Victim(shards, items, want, replicas).value;
              && v in items
              && if IsSurplus(v, want, replicas)
                 then forall n :: n in items && IsSurplus(n, want, replicas) ==> n.NodeIndex() <= v.NodeIndex()
                 else && IsExcess(v, want) && Drained(shards, PositionsOf(items), want)
                      && (forall n :: n in items ==> !IsSurplus(n, want, replicas))
                      && forall n :: n in items && IsExcess(n, want) ==>
                           v.ShardIndex() < n.ShardIndex()
                           || (v.ShardIndex() == n.ShardIndex() && v.NodeIndex() >= n.NodeIndex())
  {
    SurplusMembers(items, want, replicas);
    ExcessMembers(items, want);
    var surplus, excess := ExtraReplicas(items, want, replicas), Excess(items, want);
    if surplus != [] {
      FirstSurplus(items, want, replicas);
      assert surplus[0] in surplus;
    } else if excess != [] {
      FirstExcess(items, want);
      assert excess[0] in excess;
    }
  }

  lemma FirstSurplus(items: seq<ValkeyNode>, want: int, replicas: int)
    requires ExtraReplicas(items, want, replicas) != []
    ensures var surplus := Sort(ExtraReplicas(items, want, replicas), SurplusLe);
            && surplus != [] && surplus[0] in items && IsSurplus(surplus[0], want, replicas)
            && forall n :: n in items && IsSurplus(n, want, replicas) ==> n.NodeIndex() <= surplus[0].NodeIndex()
  {
    var list := ExtraReplicas(items, want, replicas);
    var surplus := Sort(list, SurplusLe);
    SortPermutes(list, SurplusLe);
    SurplusMembers(items, want, replicas);
    assert surplus[0] in surplus;
    forall n | n in items && IsSurplus(n, want, replicas) ensures n.NodeIndex() <= surplus[0].NodeIndex() {
      SortFirst(list, SurplusLe, n);
    }
  }

  lemma FirstExcess(items: seq<ValkeyNode>, want: int)
    requires Excess(items, want) != []
    ensures var excess := Sort(Excess(items, want), ExcessLe);
            && excess != [] && excess[0] in items && IsExcess(excess[0], want)
            && forall n :: n in items && IsExcess(n, want) ==> ExcessLe(excess[0], n)
  {
    var list := Excess(items, want);
    var excess := Sort(list, ExcessLe);
    SortPermutes(list, ExcessLe);
    ExcessMembers(items, want);
    assert excess[0] in excess;
    forall n | n in items && IsExcess(n, want) ensures ExcessLe(excess[0], n) { SortFirst(list, ExcessLe, n); }
  }

  ghost function DrainEffect(s: ClusterState, owner: Owner, log: seq<Migration>, src: NodeState, positions: Positions,
                             want: int, f: Faults): (r: Effect)
    reads s
  {
    match DrainPlan(Some(src), Remaining(s.shards, positions, want), BATCH_SIZE)
    case None => Nothing
    case Some(m) =>
      match Guarded(s.byID, owner, log, m, f)
      case Moved => DrainStarted(m)
      case Held => Waiting
      case Broke => Faulted
  }

  ghost function DrainLog(s: ClusterState, owner: Owner, log: seq<Migration>, src: NodeState, positions: Positions,
                          want: int, f: Faults): (r: seq<Migration>)
    reads s
  {
    match DrainPlan(Some(src), Remaining(s.shards, positions, want), BATCH_SIZE)
    case None => log
    case Some(m) => Logged(s.byID, owner, log, m, f)
  }

  /** A drain that starts is logged, from a source with nothing in flight that serves the ranges. */
  lemma DrainStartedMeans(s: ClusterState, owner: Owner, log: seq<Migration>, src: NodeState, positions: Positions,
                          want: int, f: Faults)
    ensures var effect := DrainEffect(s, owner, log, src, positions, want, f);
            effect.DrainStarted? ==>
              && DrainLog(s, owner, log, src, positions, want, f) == log + [Migration(effect.move, Running)]
              && effect.move.src == src.id && !AnyInFlight(log, src.id) && SourceOwns(owner, effect.move)
  {
    hide Remaining, Batch, SourceOwns, AnyInFlight;
  }

  /** `drainShard`. */
  method DrainShard(e: Engine, s: ClusterState, src: NodeState, positions: Positions, want: int, f: Faults)
    returns (effect: Effect)
    modifies e`log
    ensures effect == DrainEffect(s, e.owner, old(e.log), src, positions, want, f)
    ensures e.log == DrainLog(s, e.owner, old(e.log), src, positions, want, f)
  {
    var remaining := RemainingPrimaries(s, positions, want);
    var move := PlanDrainMove(Some(src), remaining, BATCH_SIZE);
    if move.None? {
      return Nothing;
    }
    var r := MigrateSlots(e, s, move.value, f);
    match r
    case Moved => return DrainStarted(move.value);
    case Held => return Waiting;
    case Broke => return Faulted;
  }

  /** If the scrape is coherent and every slot-owning primary's position is known, a pass that
      finds nothing left to drain, and only such a pass deletes, touches no shard that owns slots. */
  lemma DeletionIsSafe(nodes: seq<NodeState>, positions: Positions, want: int, victim: ValkeyNode, p: NodeState)
    requires Coherent(nodes) && (forall n :: n in nodes ==> WellFormed(n.slots))
    requires Drained(Group(nodes).shards, positions, want) && IsExcess(victim, want)
    requires p in nodes && OwnsSlots(p) && HostFromAddr(p.addr) in positions
    ensures positions[HostFromAddr(p.addr)].shard != victim.ShardIndex()
  {
    ShardPrimariesOwn(nodes, p);
  }

  // ----- whole drains

  /** The drain plan a fresh scrape of the cluster gives for the primary `src`. */
  function PlanDrain(owner: Owner, nodes: seq<NodeState>, src: NodeState, positions: Positions,
                     want: int): (r: Option<Move>) {
    DrainPlan(Some(ScrapeNode(owner, src)), Remaining(Group(Scrape(owner, nodes)).shards, positions, want), BATCH_SIZE)
  }

  /** `dst` takes over from `src`: the lowest-addressed slot-owning primary of a surviving shard. */
  ghost predicate DrainPair(owner: Owner, nodes: seq<NodeState>, src: NodeState, dst: NodeState, positions: Positions,
                            want: int) {
    && Healthy(nodes) && InSpace(owner)
    && src in nodes && src.IsPrimary() && IsDraining(src, positions, want)
    && Survivor(owner, nodes, dst, positions, want) && dst.id != src.id
    && forall n :: Survivor(owner, nodes, n, positions, want) && n.id != src.id ==> n == dst || AddrLe(dst, n)
  }

  ghost predicate Survivor(owner: Owner, nodes: seq<NodeState>, n: NodeState, positions: Positions, want: int) {
    n in nodes && n.IsPrimary() && OwnedSet(owner, n.id) != {} && !IsDraining(n, positions, want)
  }

  lemma ScrapedOwner(owner: Owner, n: NodeState)
    requires InSpace(owner)
    ensures WellFormed(ScrapeNode(owner, n).slots)
    ensures OwnsSlots(ScrapeNode(owner, n)) <==> n.IsPrimary() && OwnedSet(owner, n.id) != {}
  {
    SlotsOfFacts(owner, n.id);
  }

  /** The drain destinations a scrape offers are the scraped survivors. */
  lemma RemainingAreSurvivors(owner: Owner, nodes: seq<NodeState>, positions: Positions, want: int, p: NodeState)
    requires Healthy(nodes) && InSpace(owner)
    ensures p in Remaining(Group(Scrape(owner, nodes)).shards, positions, want) <==>
            exists n :: Survivor(owner, nodes, n, positions, want) && p == ScrapeNode(owner, n)
  {
    var scraped := Scrape(owner, nodes);
    HealthyScrape(owner, nodes);
    forall q | q in scraped ensures exists n :: n in nodes && q == ScrapeNode(owner, n) && WellFormed(q.slots) {
      var k :| 0 <= k < |nodes| && scraped[k] == q;
      ScrapedOwner(owner, nodes[k]);
      assert nodes[k] in nodes;
    }
    SelectionMembers(Group(scraped).shards, positions, want, p);
    ShardPrimariesOwn(scraped, p);
    hide Group, Scrape, Remaining, ShardPrimaries, OwnsSlots, Healthy, Coherent;
    forall n | n in nodes ensures OwnsSlots(ScrapeNode(owner, n)) <==> n.IsPrimary() && OwnedSet(owner, n.id) != {} {
      ScrapedOwner(owner, n);
    }
    forall n | n in nodes ensures ScrapeNode(owner, n) in scraped { ScrapedMember(owner, nodes, n); }
  }

  lemma ScrapedMember(owner: Owner, nodes: seq<NodeState>, n: NodeState)
    requires n in nodes
    ensures ScrapeNode(owner, n) in Scrape(owner, nodes)
  {
    var k :| 0 <= k < |nodes| && nodes[k] == n;
    assert Scrape(owner, nodes)[k] == ScrapeNode(owner, n);
  }

  lemma SameAddressSameNode(nodes: seq<NodeState>, a: NodeState, b: NodeState)
    requires Healthy(nodes) && a in nodes && b in nodes && AddrLe(a, b) && AddrLe(b, a)
    ensures a == b
  {
    StringLeAntisymmetric(a.addr, b.addr);
  }

  /** A drain move goes from the draining primary to the lowest-addressed survivor and
      carries the source's lowest min(owned, 400) slots. */
  lemma DrainMove(owner: Owner, nodes: seq<NodeState>, src: NodeState, dst: NodeState, positions: Positions, want: int)
    returns (m: Move)
    requires DrainPair(owner, nodes, src, dst, positions, want) && OwnedSet(owner, src.id) != {}
    ensures PlanDrain(owner, nodes, src, positions, want) == Some(m)
    ensures m.src == src.id != dst.id && m.dst == dst.id && Canonical(m.ranges)
    ensures m.NumSlots() == Min(|OwnedSet(owner, src.id)|, BATCH_SIZE)
    ensures forall s: int :: Covers(m.ranges, s) ==> s in OwnedSet(owner, src.id)
  {
    hide DrainPair, Remaining, Group, DrainPlan;
    var scrapedSrc, remaining := ScrapeNode(owner, src), Remaining(Group(Scrape(owner, nodes)).shards, positions, want);
    DestinationRemains(owner, nodes, src, dst, positions, want);
    DrainPlanMeetsSpec(scrapedSrc, remaining, BATCH_SIZE);
    m := DrainPlan(Some(scrapedSrc), remaining, BATCH_SIZE).value;
    ghost var d :| d in remaining && d.IsPrimary() && d.id == m.dst != src.id
                   && forall c :: c in remaining && c.IsPrimary() && c.id != src.id ==> c == d || AddrLe(d, c);
    LowestSurvivor(owner, nodes, src, dst, positions, want, d);
    FromFront(scrapedSrc.slots, m.ranges, m.NumSlots());
  }

  /** The scraped pair: what the source owns, and the destination among the survivors. */
  lemma DestinationRemains(owner: Owner, nodes: seq<NodeState>, src: NodeState, dst: NodeState, positions: Positions,
                           want: int)
    requires DrainPair(owner, nodes, src, dst, positions, want)
    ensures ScrapeNode(owner, dst) in Remaining(Group(Scrape(owner, nodes)).shards, positions, want)
    ensures dst.id != src.id && ScrapeNode(owner, dst).IsPrimary()
    ensures var slots := ScrapeNode(owner, src).slots;
            && Canonical(slots) && CountSlots(slots) == |OwnedSet(owner, src.id)|
            && (slots == [] <==> OwnedSet(owner, src.id) == {})
            && forall s: int :: Covers(slots, s) <==> s in OwnedSet(owner, src.id)
  {
    SlotsOfFacts(owner, src.id);
    CountPositive(SlotsOf(owner, src.id));
    RemainingAreSurvivors(owner, nodes, positions, want, ScrapeNode(owner, dst));
  }

  lemma LowestSurvivor(owner: Owner, nodes: seq<NodeState>, src: NodeState, dst: NodeState, positions: Positions,
                       want: int, d: NodeState)
    requires DrainPair(owner, nodes, src, dst, positions, want)
    requires var remaining := Remaining(Group(Scrape(owner, nodes)).shards, positions, want);
             && d in remaining && d.id != src.id
             && forall c :: c in remaining && c.IsPrimary() && c.id != src.id ==> c == d || AddrLe(d, c)
    ensures d.id == dst.id
  {
    hide Remaining, Group;
    RemainingAreSurvivors(owner, nodes, positions, want, d);
    RemainingAreSurvivors(owner, nodes, positions, want, ScrapeNode(owner, dst));
    var n :| Survivor(owner, nodes, n, positions, want) && d == ScrapeNode(owner, n);
    if n != dst { SameAddressSameNode(nodes, n, dst); }
  }

  lemma FromFront(slots: seq<SlotRange>, ranges: seq<SlotRange>, k: nat)
    requires k <= |Expand(slots)| && Expand(ranges) == Expand(slots)[..k]
    ensures forall s: int :: Covers(ranges, s) ==> Covers(slots, s)
  {
    ExpandMembers(ranges);
    ExpandMembers(slots);
  }

  /** Each drain move leaves the same pair to drain, conserves every slot and shrinks the source. */
  lemma DrainMoveProgress(owner: Owner, nodes: seq<NodeState>, src: NodeState, dst: NodeState, positions: Positions,
                          want: int, m: Move)
    requires DrainPair(owner, nodes, src, dst, positions, want) && OwnedSet(owner, src.id) != {}
    requires PlanDrain(owner, nodes, src, positions, want) == Some(m)
    ensures m.dst == dst.id
    ensures ApplyMove(owner, m).Keys == owner.Keys
    ensures DrainPair(ApplyMove(owner, m), nodes, src, dst, positions, want)
    ensures |OwnedSet(ApplyMove(owner, m), src.id)|
         == |OwnedSet(owner, src.id)| - Min(|OwnedSet(owner, src.id)|, BATCH_SIZE)
    ensures forall s :: s in owner ==>
              ApplyMove(owner, m)[s] == if Covers(m.ranges, s) then dst.id else owner[s]
    ensures forall s :: s in owner && Covers(m.ranges, s) ==> owner[s] == src.id
  {
    var m' := DrainMove(owner, nodes, src, dst, positions, want);
    ApplyMoveCounts(owner, m);
    var owner' := ApplyMove(owner, m);
    SurvivorsSame(owner, owner', nodes, src, dst, positions, want);
  }

  lemma SurvivorsSame(owner: Owner, owner': Owner, nodes: seq<NodeState>, src: NodeState, dst: NodeState,
                      positions: Positions, want: int)
    requires DrainPair(owner, nodes, src, dst, positions, want) && owner'.Keys == owner.Keys
    requires |OwnedSet(owner', dst.id)| >= |OwnedSet(owner, dst.id)|
    requires forall id :: id != src.id && id != dst.id ==> OwnedSet(owner', id) == OwnedSet(owner, id)
    ensures DrainPair(owner', nodes, src, dst, positions, want)
  {
    assert OwnedSet(owner', dst.id) != {};
    forall n | Survivor(owner', nodes, n, positions, want) && n.id != src.id ensures n == dst || AddrLe(dst, n) {
      if n.id != dst.id {
        assert Survivor(owner, nodes, n, positions, want);
      } else {
        SameIDSameNode(nodes, n, dst);
      }
    }
  }

  lemma SameIDSameNode(nodes: seq<NodeState>, a: NodeState, b: NodeState)
    requires Healthy(nodes) && a in nodes && b in nodes && a.id == b.id
    ensures a == b
  {
  }

  /** Ownership once `src` is drained, and how many moves that takes. */
  ghost function DrainRun(owner: Owner, nodes: seq<NodeState>, src: NodeState, dst: NodeState, positions: Positions,
                          want: int): (r: (Owner, nat))
    requires DrainPair(owner, nodes, src, dst, positions, want)
    decreases |OwnedSet(owner, src.id)|
  {
    if OwnedSet(owner, src.id) == {} then (owner, 0)
    else
      match PlanDrain(owner, nodes, src, positions, want)
      case None => (owner, 0)
      case Some(m) =>
        DrainMoveProgress(owner, nodes, src, dst, positions, want, m);
        var (final, moves) := DrainRun(ApplyMove(owner, m), nodes, src, dst, positions, want);
        (final, moves + 1)
  }

  function CeilDiv(a: nat, b: nat): (r: nat)
    requires b > 0
  {
    (a + b - 1) / b
  }

  lemma CeilDivStep(a: nat)
    requires a > 0
    ensures CeilDiv(a, 400) == 1 + CeilDiv(a - Min(a, 400), 400)
  {
  }

  /** The source's slots, and no others, belong to the destination. */
  function HandedOver(owner: Owner, src: string, dst: string): (r: Owner) {
    map s | s in owner :: if owner[s] == src then dst else owner[s]
  }

  /** Draining takes exactly ceil(owned / 400) moves and hands every slot of the source, and
      nothing else, to the lowest-addressed survivor. */
  lemma {:induction false} DrainCompletes(owner: Owner, nodes: seq<NodeState>, src: NodeState, dst: NodeState,
                                          positions: Positions, want: int)
    requires DrainPair(owner, nodes, src, dst, positions, want)
    ensures var (final, moves) := DrainRun(owner, nodes, src, dst, positions, want);
            && final == HandedOver(owner, src.id, dst.id)
            && moves == CeilDiv(|OwnedSet(owner, src.id)|, BATCH_SIZE)
    decreases |OwnedSet(owner, src.id)|
  {
    hide HandedOver, PlanDrain, DrainPair, CeilDiv;
    if OwnedSet(owner, src.id) == {} {
      NothingToHandOver(owner, src.id, dst.id);
    } else {
      var m := DrainMove(owner, nodes, src, dst, positions, want);
      DrainMoveProgress(owner, nodes, src, dst, positions, want, m);
      DrainCompletes(ApplyMove(owner, m), nodes, src, dst, positions, want);
      CeilDivStep(|OwnedSet(owner, src.id)|);
      HandOverRest(owner, src.id, dst.id, m);
    }
  }

  lemma NothingToHandOver(owner: Owner, src: string, dst: string)
    requires OwnedSet(owner, src) == {}
    ensures HandedOver(owner, src, dst) == owner
    ensures CeilDiv(|OwnedSet(owner, src)|, BATCH_SIZE) == 0
  {
    forall s | s in owner ensures owner[s] != src { assert s !in OwnedSet(owner, src); }
  }

  lemma HandOverRest(owner: Owner, src: string, dst: string, m: Move)
    requires m.dst == dst != src && forall s :: s in owner && Covers(m.ranges, s) ==> owner[s] == src
    ensures HandedOver(ApplyMove(owner, m), src, dst) == HandedOver(owner, src, dst)
  {
  }
}
