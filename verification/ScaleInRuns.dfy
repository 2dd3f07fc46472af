/** Whole scale-ins: reconcile until nothing is left to do, with several shards to remove; and
    when a deletion is safe. */
module ScaleInRuns {
  import opened Sorting
  import opened SlotRanges
  import opened EvenSplit
  import opened ClusterView
  import opened Planner
  import opened Ownership
  import opened Engine
  import opened AsyncMigration
  import opened Positions
  import opened ScaleIn
  import opened Sightings

  // ----- draining every excess shard

  /** The lowest-addressed slot-owning primary that stays takes over from all that go. */
  ghost predicate Ready(owner: Owner, nodes: seq<NodeState>, dst: NodeState, positions: Positions, want: int) {
    && Healthy(nodes) && InSpace(owner) && Survivor(owner, nodes, dst, positions, want)
    && forall n :: Survivor(owner, nodes, n, positions, want) ==> n == dst || AddrLe(dst, n)
  }

  predicate Goes(n: NodeState, positions: Positions, want: int) { n.IsPrimary() && IsDraining(n, positions, want) }

  ghost predicate GoesByID(nodes: seq<NodeState>, positions: Positions, want: int, id: string) {
    exists n :: n in nodes && Goes(n, positions, want) && n.id == id
  }

  /** Every slot of a primary that goes is the destination's; all others are as before. */
  ghost function AllHandedOver(owner: Owner, nodes: seq<NodeState>, dst: string, positions: Positions,
                               want: int): (r: Owner) {
    map s | s in owner :: if GoesByID(nodes, positions, want, owner[s]) then dst else owner[s]
  }

  /** The drain moves still to come: ceil(owned / 400) for each primary that goes. */
  ghost function MovesLeft(owner: Owner, nodes: seq<NodeState>, positions: Positions, want: int): (r: nat) {
    if nodes == [] then 0
    else
      var last := nodes[|nodes| - 1];
      MovesLeft(owner, nodes[..|nodes| - 1], positions, want)
      + if Goes(last, positions, want) then CeilDiv(|OwnedSet(owner, last.id)|, BATCH_SIZE) else 0
  }

  lemma {:induction false} MovesSame(owner: Owner, owner': Owner, nodes: seq<NodeState>, positions: Positions,
                                     want: int)
    requires forall n :: n in nodes && Goes(n, positions, want) ==> OwnedSet(owner', n.id) == OwnedSet(owner, n.id)
    ensures MovesLeft(owner', nodes, positions, want) == MovesLeft(owner, nodes, positions, want)
  {
    hide CeilDiv;
    if nodes == [] {
    } else {
      assert nodes[|nodes| - 1] in nodes;
      MovesSame(owner, owner', nodes[..|nodes| - 1], positions, want);
    }
  }

  lemma {:induction false} OneMoveLess(owner: Owner, owner': Owner, nodes: seq<NodeState>, src: NodeState,
                                       positions: Positions, want: int)
    requires Healthy(nodes) && src in nodes && Goes(src, positions, want)
    requires OwnedSet(owner, src.id) != {}
    requires |OwnedSet(owner', src.id)| == |OwnedSet(owner, src.id)| - Min(|OwnedSet(owner, src.id)|, BATCH_SIZE)
    requires forall n :: n in nodes && Goes(n, positions, want) && n.id != src.id ==>
               OwnedSet(owner', n.id) == OwnedSet(owner, n.id)
    ensures MovesLeft(owner', nodes, positions, want) == MovesLeft(owner, nodes, positions, want) - 1
  {
    hide CeilDiv, OwnedSet;
    var last, front := nodes[|nodes| - 1], nodes[..|nodes| - 1];
    assert nodes == front + [last];
    CeilDivStep(|OwnedSet(owner, src.id)|);
    if last == src {
      forall n | n in front ensures n.id != src.id { var k :| 0 <= k < |front| && front[k] == n; assert nodes[k] == n; }
      MovesSame(owner, owner', front, positions, want);
    } else {
      assert src in front && last.id != src.id;
      OneMoveLess(owner, owner', front, src, positions, want);
    }
  }

  // ----- one drain pass

  ghost function ShardsOf(owner: Owner, nodes: seq<NodeState>): (r: seq<ShardState>) {
    Group(Scrape(owner, nodes)).shards
  }

  /** The primaries a scrape offers for draining are those that go and own slots. */
  lemma DrainingAre(owner: Owner, nodes: seq<NodeState>, positions: Positions, want: int, p: NodeState)
    requires Healthy(nodes) && InSpace(owner)
    ensures p in Draining(ShardsOf(owner, nodes), positions, want) <==>
            exists n :: n in nodes && Goes(n, positions, want) && OwnedSet(owner, n.id) != {}
                && p == ScrapeNode(owner, n)
  {
    var scraped := Scrape(owner, nodes);
    HealthyScrape(owner, nodes);
    forall q | q in scraped ensures exists n :: n in nodes && q == ScrapeNode(owner, n) && WellFormed(q.slots) {
      var k :| 0 <= k < |nodes| && scraped[k] == q;
      ScrapedOwner(owner, nodes[k]);
      assert nodes[k] in nodes;
    }
    SelectionMembers(Group(scraped).shards, positions, want, p);
    ShardPrimariesOwn(scraped, p);
    hide Group, Scrape, Draining, ShardPrimaries, Healthy, Coherent;
    forall n | n in nodes
      ensures OwnsSlots(ScrapeNode(owner, n)) <==> n.IsPrimary() && OwnedSet(owner, n.id) != {}
      ensures ScrapeNode(owner, n) in scraped
    {
      ScrapedOwner(owner, n);
      ScrapedMember(owner, nodes, n);
    }
  }

  lemma LowestFirst(owner: Owner, nodes: seq<NodeState>, positions: Positions, want: int, src: NodeState, n: NodeState)
    requires Healthy(nodes) && InSpace(owner) && Draining(ShardsOf(owner, nodes), positions, want) != []
    requires FirstDraining(ShardsOf(owner, nodes), positions, want) == ScrapeNode(owner, src)
    requires n in nodes && Goes(n, positions, want) && OwnedSet(owner, n.id) != {}
    ensures AddrLe(src, n)
  {
    hide Draining, ShardsOf, Healthy, Goes, OwnedSet;
    DrainingAre(owner, nodes, positions, want, ScrapeNode(owner, n));
    AddrPreorder();
    hide TotalPreorder;
    SortFirst(Draining(ShardsOf(owner, nodes), positions, want), AddrLe, ScrapeNode(owner, n));
  }

  /** While anything is left to drain, the lowest-addressed primary that goes and owns slots is next. */
  lemma NextSource(owner: Owner, nodes: seq<NodeState>, positions: Positions, want: int) returns (src: NodeState)
    requires Healthy(nodes) && InSpace(owner) && !Drained(ShardsOf(owner, nodes), positions, want)
    ensures Draining(ShardsOf(owner, nodes), positions, want) != []
    ensures src in nodes && Goes(src, positions, want) && OwnedSet(owner, src.id) != {}
    ensures FirstDraining(ShardsOf(owner, nodes), positions, want) == ScrapeNode(owner, src)
    ensures forall n :: n in nodes && Goes(n, positions, want) && OwnedSet(owner, n.id) != {} ==> AddrLe(src, n)
  {
    hide Drained, ShardsOf, Healthy, Goes, OwnedSet, Sort, AddrLe;
    var shards := ShardsOf(owner, nodes);
    DrainedIff(shards, positions, want);
    SortPermutes(Draining(shards, positions, want), AddrLe);
    hide Draining;
    var first := FirstDraining(shards, positions, want);
    DrainingAre(owner, nodes, positions, want, first);
    src :| src in nodes && Goes(src, positions, want) && OwnedSet(owner, src.id) != {}
        && first == ScrapeNode(owner, src);
    hide FirstDraining;
    forall n | n in nodes && Goes(n, positions, want) && OwnedSet(owner, n.id) != {} ensures AddrLe(src, n) {
      LowestFirst(owner, nodes, positions, want, src, n);
    }
  }

  lemma NobodyLeft(owner: Owner, nodes: seq<NodeState>, dst: string, positions: Positions, want: int)
    requires Healthy(nodes) && InSpace(owner) && Drained(ShardsOf(owner, nodes), positions, want)
    ensures AllHandedOver(owner, nodes, dst, positions, want) == owner && MovesLeft(owner, nodes, positions, want) == 0
  {
    DrainedIff(ShardsOf(owner, nodes), positions, want);
    SortPermutes(Draining(ShardsOf(owner, nodes), positions, want), AddrLe);
    hide Draining, Drained, ShardsOf, Healthy;
    forall n | n in nodes && Goes(n, positions, want) ensures OwnedSet(owner, n.id) == {} {
      DrainingAre(owner, nodes, positions, want, ScrapeNode(owner, n));
    }
    NoMoves(owner, nodes, positions, want);
    forall s | s in owner ensures !GoesByID(nodes, positions, want, owner[s]) { assert s in OwnedSet(owner, owner[s]); }
  }

  lemma {:induction false} NoMoves(owner: Owner, nodes: seq<NodeState>, positions: Positions, want: int)
    requires forall n :: n in nodes && Goes(n, positions, want) ==> OwnedSet(owner, n.id) == {}
    ensures MovesLeft(owner, nodes, positions, want) == 0
  {
    if nodes == [] {
    } else {
      assert nodes[|nodes| - 1] in nodes;
      NoMoves(owner, nodes[..|nodes| - 1], positions, want);
    }
  }

  /** One drain pass: the destination stays the same, the outcome stays the same, one move less. */
  lemma DrainStep(owner: Owner, nodes: seq<NodeState>, dst: NodeState, positions: Positions, want: int)
    returns (m: Move, src: NodeState)
    requires Ready(owner, nodes, dst, positions, want) && !Drained(ShardsOf(owner, nodes), positions, want)
    ensures Draining(ShardsOf(owner, nodes), positions, want) != []
    ensures var first := FirstDraining(ShardsOf(owner, nodes), positions, want);
            first == ScrapeNode(owner, src)
                && DrainPlan(Some(first), Remaining(ShardsOf(owner, nodes), positions, want), BATCH_SIZE) == Some(m)
    ensures src in nodes && m.src == src.id && dst in nodes && m.dst == dst.id && SourceOwns(owner, m)
    ensures !SourceOwns(ApplyMove(owner, m), m)
    ensures Ready(ApplyMove(owner, m), nodes, dst, positions, want)
    ensures AllHandedOver(ApplyMove(owner, m), nodes, dst.id, positions, want) ==
              AllHandedOver(owner, nodes, dst.id, positions, want)
    ensures MovesLeft(ApplyMove(owner, m), nodes, positions, want) == MovesLeft(owner, nodes, positions, want) - 1
  {
    src := NextSource(owner, nodes, positions, want);
    IsPair(owner, nodes, src, dst, positions, want);
    m := DrainMove(owner, nodes, src, dst, positions, want);
    DrainMoveProgress(owner, nodes, src, dst, positions, want, m);
    StillReady(ApplyMove(owner, m), nodes, src, dst, positions, want);
    hide Drained, Remaining, Draining, FirstDraining, DrainPlan, MovesLeft, DrainPair, Ready, Healthy;
    OthersKeep(owner, nodes, src, dst, positions, want, m);
    OneMoveLess(owner, ApplyMove(owner, m), nodes, src, positions, want);
    SameOutcome(owner, nodes, src, dst.id, positions, want, m);
    NotOwnedAfter(owner, m);
  }

  lemma IsPair(owner: Owner, nodes: seq<NodeState>, src: NodeState, dst: NodeState, positions: Positions, want: int)
    requires Ready(owner, nodes, dst, positions, want) && src in nodes && Goes(src, positions, want)
    ensures DrainPair(owner, nodes, src, dst, positions, want) && Healthy(nodes) && dst in nodes
  {
    if src.id == dst.id { SameIDSameNode(nodes, src, dst); }
  }

  lemma StillReady(owner: Owner, nodes: seq<NodeState>, src: NodeState, dst: NodeState, positions: Positions, want: int)
    requires DrainPair(owner, nodes, src, dst, positions, want)
    ensures Ready(owner, nodes, dst, positions, want)
  {
    forall n | Survivor(owner, nodes, n, positions, want) ensures n.id != src.id {
      if n.id == src.id { SameIDSameNode(nodes, n, src); }
    }
  }

  lemma OthersKeep(owner: Owner, nodes: seq<NodeState>, src: NodeState, dst: NodeState, positions: Positions, want: int,
                   m: Move)
    requires DrainPair(owner, nodes, src, dst, positions, want) && m.src == src.id && m.dst == dst.id
    requires forall s: int :: Covers(m.ranges, s) ==> s in OwnedSet(owner, m.src)
    ensures forall n :: n in nodes && Goes(n, positions, want) && n.id != src.id ==>
              OwnedSet(ApplyMove(owner, m), n.id) == OwnedSet(owner, n.id)
  {
    ApplyMoveSets(owner, m);
    forall n | n in nodes && Goes(n, positions, want) ensures n.id != dst.id {
      if n.id == dst.id { SameIDSameNode(nodes, n, dst); }
    }
  }

  lemma SameOutcome(owner: Owner, nodes: seq<NodeState>, src: NodeState, dst: string, positions: Positions, want: int,
                    m: Move)
    requires src in nodes && Goes(src, positions, want) && m.dst == dst
    requires forall s :: s in owner && Covers(m.ranges, s) ==> owner[s] == src.id
    ensures AllHandedOver(ApplyMove(owner, m), nodes, dst, positions, want) ==
              AllHandedOver(owner, nodes, dst, positions, want)
  {
    assert GoesByID(nodes, positions, want, src.id);
  }

  // ----- deleting nodes

  predicate IsGone(n: ValkeyNode, want: int, replicas: int) { IsSurplus(n, want, replicas) || IsExcess(n, want) }

  function Kept(items: seq<ValkeyNode>, want: int, replicas: int): (r: seq<ValkeyNode>) {
    if items == [] then []
    else if IsGone(items[0], want, replicas) then Kept(items[1..], want, replicas)
    else [items[0]] + Kept(items[1..], want, replicas)
  }

  function GoneCount(items: seq<ValkeyNode>, want: int, replicas: int): (r: nat) {
    if items == [] then 0
    else GoneCount(items[1..], want, replicas) + if IsGone(items[0], want, replicas) then 1 else 0
  }

  lemma {:induction false} RemoveFacts(items: seq<ValkeyNode>, n: ValkeyNode, want: int, replicas: int)
    requires n in items && IsGone(n, want, replicas)
    ensures Kept(Remove(items, n), want, replicas) == Kept(items, want, replicas)
    ensures GoneCount(Remove(items, n), want, replicas) == GoneCount(items, want, replicas) - 1
    ensures forall x :: x in Remove(items, n) ==> x in items
  {
    hide IsGone;
    if items[0] == n {
    } else {
      RemoveFacts(items[1..], n, want, replicas);
    }
  }

  lemma {:induction false} NoneGone(items: seq<ValkeyNode>, want: int, replicas: int)
    requires forall n :: n in items ==> !IsGone(n, want, replicas)
    ensures Kept(items, want, replicas) == items && GoneCount(items, want, replicas) == 0
  {
    hide IsGone;
    if items == [] {
    } else {
      NoneGone(items[1..], want, replicas);
    }
  }

  /** Deleting a node of an excess shard makes no pod IP one that goes. */
  lemma {:induction false} RemoveExcess(items: seq<ValkeyNode>, n: ValkeyNode, want: int, ip: string)
    requires IsExcess(n, want)
    ensures GoesAt(PositionsOf(Remove(items, n)), ip, want) ==> GoesAt(PositionsOf(items), ip, want)
    ensures ip in PositionsOf(items) && ip !in PositionsOf(Remove(items, n)) ==> GoesAt(PositionsOf(items), ip, want)
  {
    if items == [] || items[0] == n {
    } else {
      RemoveExcess(items[1..], n, want, ip);
      assert Remove(items, n)[1..] == Remove(items[1..], n);
    }
  }

  lemma {:induction false} RemoveElsewhere(items: seq<ValkeyNode>, n: ValkeyNode, ip: string)
    requires ip != n.podIP
    ensures ip in PositionsOf(Remove(items, n)) <==> ip in PositionsOf(items)
    ensures ip in PositionsOf(items) ==> PositionsOf(Remove(items, n))[ip] == PositionsOf(items)[ip]
  {
    if items == [] || items[0] == n {
    } else {
      RemoveElsewhere(items[1..], n, ip);
      assert Remove(items, n)[1..] == Remove(items[1..], n);
    }
  }

  /** No pod IP is listed both for a surplus replica and in an excess shard. */
  ghost predicate Apart(items: seq<ValkeyNode>, want: int, replicas: int) {
    forall a, b :: a in items && b in items && IsSurplus(a, want, replicas) && b.IsPlaced() && IsExcess(b, want) ==>
      a.podIP != b.podIP
  }

  /** Deleting a surplus replica leaves the pod IPs that go as they are. */
  lemma RemoveSurplus(items: seq<ValkeyNode>, n: ValkeyNode, want: int, replicas: int, ip: string)
    requires Apart(items, want, replicas) && n in items && IsSurplus(n, want, replicas)
    ensures GoesAt(PositionsOf(Remove(items, n)), ip, want) <==> GoesAt(PositionsOf(items), ip, want)
  {
    if ip != n.podIP {
      RemoveElsewhere(items, n, ip);
    } else {
      StaysAt(items, items, n, want, replicas);
      RemoveSubset(items, n);
      StaysAt(items, Remove(items, n), n, want, replicas);
    }
  }

  lemma {:induction false} RemoveSubset(items: seq<ValkeyNode>, n: ValkeyNode)
    ensures forall x :: x in Remove(items, n) ==> x in items
  {
    if items == [] {
    } else {
      RemoveSubset(items[1..], n);
    }
  }

  lemma StaysAt(items: seq<ValkeyNode>, few: seq<ValkeyNode>, n: ValkeyNode, want: int, replicas: int)
    requires Apart(items, want, replicas) && n in items && IsSurplus(n, want, replicas)
    requires forall x :: x in few ==> x in items
    ensures !GoesAt(PositionsOf(few), n.podIP, want)
  {
    PositionsFacts(few, n.podIP);
    if n.podIP in PositionsOf(few) {
      var k :| 0 <= k < |few| && few[k].IsPlaced() && few[k].podIP == n.podIP
          && PositionsOf(few)[n.podIP] == few[k].Place();
      assert few[k] in items;
    }
  }

  // ----- what the positions matter for

  ghost predicate SameGoing(a: Positions, b: Positions, want: int) {
    forall ip: string :: GoesAt(a, ip, want) <==> GoesAt(b, ip, want)
  }

  lemma {:induction false} SameMoves(owner: Owner, nodes: seq<NodeState>, a: Positions, b: Positions, want: int)
    requires SameGoing(a, b, want)
    ensures MovesLeft(owner, nodes, a, want) == MovesLeft(owner, nodes, b, want)
  {
    hide CeilDiv, OwnedSet, HostFromAddr;
    if nodes == [] {
    } else {
      SameMoves(owner, nodes[..|nodes| - 1], a, b, want);
    }
  }

  /** Drains depend on the positions only through the pod IPs that go. */
  lemma SameDrains(owner: Owner, nodes: seq<NodeState>, dst: NodeState, a: Positions, b: Positions, want: int)
    requires SameGoing(a, b, want) && Ready(owner, nodes, dst, a, want)
    ensures Ready(owner, nodes, dst, b, want)
    ensures AllHandedOver(owner, nodes, dst.id, b, want) == AllHandedOver(owner, nodes, dst.id, a, want)
    ensures MovesLeft(owner, nodes, b, want) == MovesLeft(owner, nodes, a, want)
  {
    hide OwnedSet, HostFromAddr, GoesAt, Healthy;
    SameMoves(owner, nodes, a, b, want);
    assert forall n :: Survivor(owner, nodes, n, a, want) <==> Survivor(owner, nodes, n, b, want);
    assert forall n :: Goes(n, a, want) <==> Goes(n, b, want);
    hide MovesLeft;
    assert forall id :: GoesByID(nodes, a, want, id) <==> GoesByID(nodes, b, want, id);
  }

  lemma StaysDrained(shards: seq<ShardState>, few: Positions, all: Positions, want: int)
    requires Drained(shards, all, want) && forall ip: string :: GoesAt(few, ip, want) ==> GoesAt(all, ip, want)
    ensures Drained(shards, few, want)
  {
  }

  // ----- the whole scale-in

  /** Every node is connected and gossips every other. */
  ghost predicate Visible(nodes: seq<NodeState>) {
    forall a, b :: a in nodes && b in nodes ==> a.hasClient && b.id in a.peers
  }

  lemma {:induction false} ByIDFinds(nodes: seq<NodeState>, n: NodeState)
    requires n in nodes && n.id != "" && forall i, j :: 0 <= i < j < |nodes| ==> nodes[i].id != nodes[j].id
    ensures n.id in ByID(nodes) && ByID(nodes)[n.id] == n
  {
    var last, front := nodes[|nodes| - 1], nodes[..|nodes| - 1];
    assert nodes == front + [last];
    if n != last {
      ByIDFinds(front, n);
    }
  }

  lemma SourceIsScraped(owner: Owner, nodes: seq<NodeState>, src: NodeState, dst: NodeState)
    requires Healthy(nodes) && Visible(nodes) && src in nodes && dst in nodes
    ensures var byID := ByID(Scrape(owner, nodes));
            src.id in byID && byID[src.id].hasClient && dst.id in byID[src.id].peers
  {
    ScrapedMember(owner, nodes, src);
    ByIDFinds(Scrape(owner, nodes), ScrapeNode(owner, src));
  }

  /** An undisturbed drain pass starts the planned migration. */
  lemma PassDrains(s: ClusterState, owner: Owner, log: seq<Migration>, nodes: seq<NodeState>, dst: NodeState,
                   positions: Positions, want: int)
    returns (m: Move)
    requires Ready(owner, nodes, dst, positions, want) && Visible(nodes) && NoneInFlight(log)
    requires s.shards == ShardsOf(owner, nodes) && s.byID == ByID(Scrape(owner, nodes))
    requires !Drained(s.shards, positions, want)
    ensures Draining(s.shards, positions, want) != []
    ensures DrainEffect(s, owner, log, FirstDraining(s.shards, positions, want), positions, want,
              Faults(false, Intact)) == DrainStarted(m)
    ensures DrainLog(s, owner, log, FirstDraining(s.shards, positions, want), positions, want,
              Faults(false, Intact)) == log + [Migration(m, Running)]
    ensures Ready(ApplyMove(owner, m), nodes, dst, positions, want)
    ensures AllHandedOver(ApplyMove(owner, m), nodes, dst.id, positions, want) ==
              AllHandedOver(owner, nodes, dst.id, positions, want)
    ensures MovesLeft(ApplyMove(owner, m), nodes, positions, want) == MovesLeft(owner, nodes, positions, want) - 1
  {
    var src;
    m, src := DrainStep(owner, nodes, dst, positions, want);
    SourceIsScraped(owner, nodes, src, dst);
    hide ByID, Scrape, Drained, Draining, FirstDraining, Remaining, DrainPlan, MovesLeft, AllHandedOver, ApplyMove,
        SourceOwns;
  }

  /** One undisturbed reconcile pass, and the migration it starts run to its end. */
  method ScaleInPass(e: Engine, nodes: seq<NodeState>, list: NodeList, want: int, replicas: int, ghost dst: NodeState)
    returns (effect: Effect)
    requires Ready(e.owner, nodes, dst, PositionsOf(list.items), want) && Visible(nodes) && NoneInFlight(e.log)
    modifies e, list
    ensures NoneInFlight(e.log)
    ensures var items, at := old(list.items), PositionsOf(old(list.items));
            match Victim(ShardsOf(old(e.owner), nodes), items, want, replicas)
            case Some(v) => effect == Deleted(v) && e.owner == old(e.owner) && list.items == Remove(items, v)
            case None =>
              && list.items == items
              && if Drained(ShardsOf(old(e.owner), nodes), at, want) then effect == Nothing && e.owner == old(e.owner)
                 else && effect.DrainStarted? && Ready(e.owner, nodes, dst, at, want)
                      && AllHandedOver(e.owner, nodes, dst.id, at, want) ==
                           AllHandedOver(old(e.owner), nodes, dst.id, at, want)
                      && MovesLeft(e.owner, nodes, at, want) == MovesLeft(old(e.owner), nodes, at, want) - 1
  {
    hide Ready, Drained, Draining, Visible, Victim, Remove, DrainEffect, DrainLog, AllHandedOver, MovesLeft,
        FirstDraining, ApplyMove, PositionsOf;
    var scraped := Scrape(e.owner, nodes);
    AnsweredAll(scraped);
    var s := new ClusterState(Answered(scraped));
    ghost var owner, log, at := e.owner, e.log, PositionsOf(list.items);
    ghost var m: Move;
    if !Drained(s.shards, at, want) { m := PassDrains(s, owner, log, nodes, dst, at, want); }
    effect := HandleScaleIn(e, s, list, want, replicas, Faults(false, Intact), false);
    if effect.DrainStarted? {
      e.Complete(|e.log| - 1);
    }
  }

  /** Once drained, a deletion in an excess shard changes neither who is to be drained nor who takes over. */
  lemma StaysReady(owner: Owner, nodes: seq<NodeState>, dst: NodeState, few: Positions, all: Positions, want: int)
    requires Ready(owner, nodes, dst, all, want) && Drained(ShardsOf(owner, nodes), all, want)
    requires forall ip: string :: GoesAt(few, ip, want) ==> GoesAt(all, ip, want)
    ensures Ready(owner, nodes, dst, few, want) && Drained(ShardsOf(owner, nodes), few, want)
  {
    StaysDrained(ShardsOf(owner, nodes), few, all, want);
    DrainedIff(ShardsOf(owner, nodes), all, want);
    SortPermutes(Draining(ShardsOf(owner, nodes), all, want), AddrLe);
    hide Drained, Draining, ShardsOf, GoesAt;
    forall n | Survivor(owner, nodes, n, few, want) ensures Survivor(owner, nodes, n, all, want) {
      DrainingAre(owner, nodes, all, want, ScrapeNode(owner, n));
    }
  }

  /** How far a scale-in has come: nothing drained yet is lost, or everything is drained. */
  ghost predicate Progress(owner: Owner, nodes: seq<NodeState>, dst: NodeState, items: seq<ValkeyNode>, want: int,
                           drained: bool, target: Owner, left: int) {
    var at := PositionsOf(items);
    && Ready(owner, nodes, dst, at, want)
    && if drained then Drained(ShardsOf(owner, nodes), at, want) && owner == target && left == 0
       else AllHandedOver(owner, nodes, dst.id, at, want) == target && MovesLeft(owner, nodes, at, want) == left
  }

  /** A deletion keeps the progress made. */
  lemma DeletionKeeps(owner: Owner, nodes: seq<NodeState>, dst: NodeState, items: seq<ValkeyNode>, want: int,
                      replicas: int, drained: bool, target: Owner, left: int)
    returns (drained': bool)
    requires Progress(owner, nodes, dst, items, want, drained, target, left) && Apart(items, want, replicas)
    requires Victim(ShardsOf(owner, nodes), items, want, replicas).Some?
    ensures var v := Victim(ShardsOf(owner, nodes), items, want, replicas).value;
            && v in items && IsGone(v, want, replicas)
            && Progress(owner, nodes, dst, Remove(items, v), want, drained', target, left)
  {
    var v, at := Victim(ShardsOf(owner, nodes), items, want, replicas).value, PositionsOf(items);
    VictimFacts(ShardsOf(owner, nodes), items, want, replicas);
    hide Victim, ShardsOf, PositionsOf, Ready, AllHandedOver, MovesLeft, Drained, GoesAt, Apart;
    if IsSurplus(v, want, replicas) {
      forall ip: string ensures GoesAt(PositionsOf(Remove(items, v)), ip, want) <==> GoesAt(at, ip, want) {
        RemoveSurplus(items, v, want, replicas, ip);
      }
      SameDrains(owner, nodes, dst, at, PositionsOf(Remove(items, v)), want);
      if drained { StaysReady(owner, nodes, dst, PositionsOf(Remove(items, v)), at, want); }
      drained' := drained;
    } else {
      forall ip: string ensures GoesAt(PositionsOf(Remove(items, v)), ip, want) ==> GoesAt(at, ip, want) {
        RemoveExcess(items, v, want, ip);
      }
      StaysReady(owner, nodes, dst, PositionsOf(Remove(items, v)), at, want);
      IsHealthy(owner, nodes, dst, at, want);
      NobodyLeft(owner, nodes, dst.id, at, want);
      drained' := true;
    }
  }

  /** Reconcile until there is nothing left to do. All excess shards are drained, in exactly the
      moves their slots need, onto the one survivor; exactly the surplus replicas and the nodes of
      the excess shards are deleted. */
  method ScaleInUntilDone(e: Engine, nodes: seq<NodeState>, list: NodeList, want: int, replicas: int,
                          ghost dst: NodeState)
    returns (moves: nat, deletions: nat)
    requires Ready(e.owner, nodes, dst, PositionsOf(list.items), want) && Visible(nodes) && NoneInFlight(e.log)
    requires Apart(list.items, want, replicas)
    modifies e, list
    ensures e.owner == AllHandedOver(old(e.owner), nodes, dst.id, PositionsOf(old(list.items)), want)
    ensures moves == MovesLeft(old(e.owner), nodes, PositionsOf(old(list.items)), want)
    ensures list.items == Kept(old(list.items), want, replicas)
    ensures deletions == GoneCount(old(list.items), want, replicas)
  {
    hide Ready, Drained, Visible, AllHandedOver, MovesLeft, ShardsOf, NoneInFlight, Victim;
    hide Kept, GoneCount, Remove, PositionsOf;
    ghost var items, total := list.items, MovesLeft(e.owner, nodes, PositionsOf(list.items), want);
    ghost var target := AllHandedOver(e.owner, nodes, dst.id, PositionsOf(list.items), want);
    moves, deletions := 0, 0;
    var done := false;
    ghost var drained := false;
    while !done
      invariant Progress(e.owner, nodes, dst, list.items, want, drained, target, total - moves)
      invariant NoneInFlight(e.log) && Apart(list.items, want, replicas)
      invariant Kept(list.items, want, replicas) == Kept(items, want, replicas)
      invariant deletions + GoneCount(list.items, want, replicas) == GoneCount(items, want, replicas)
      invariant done ==> drained && forall n :: n in list.items ==> !IsGone(n, want, replicas)
      decreases !done, GoneCount(list.items, want, replicas), total - moves
    {
      ghost var before, at := list.items, PositionsOf(list.items);
      VictimFacts(ShardsOf(e.owner, nodes), before, want, replicas);
      IsHealthy(e.owner, nodes, dst, at, want);
      if Victim(ShardsOf(e.owner, nodes), before, want, replicas).Some? {
        drained := DeletionKeeps(e.owner, nodes, dst, before, want, replicas, drained, target, total - moves);
      } else if Drained(ShardsOf(e.owner, nodes), at, want) {
        NobodyLeft(e.owner, nodes, dst.id, at, want);
        drained := true;
      }
      var effect := ScaleInPass(e, nodes, list, want, replicas, dst);
      match effect
      case DrainStarted(_) => moves := moves + 1;
      case Deleted(n) =>
        deletions := deletions + 1;
        RemoveFacts(before, n, want, replicas);
      case _ => done := true;
    }
    NoneGone(list.items, want, replicas);
  }

  lemma IsHealthy(owner: Owner, nodes: seq<NodeState>, dst: NodeState, positions: Positions, want: int)
    requires Ready(owner, nodes, dst, positions, want)
    ensures Healthy(nodes) && InSpace(owner)
  {
  }

  // ----- when a deletion is safe

  /** A pass over the scrape `nodes` deletes `v`. */
  ghost predicate Deletes(nodes: seq<NodeState>, items: seq<ValkeyNode>, want: int, replicas: int, v: ValkeyNode) {
    Coherent(nodes) && AllWellFormed(nodes) && Victim(Group(nodes).shards, items, want, replicas) == Some(v)
  }

  /** The node was scraped at the pod IP. */
  predicate ScrapedAt(nodes: seq<NodeState>, n: NodeState, ip: string) { n in nodes && HostFromAddr(n.addr) == ip }

  /** The pod of a deleted node of an excess shard, found at the position of its labels, runs no
      scraped slot owner. */
  lemma GateGuards(nodes: seq<NodeState>, items: seq<ValkeyNode>, want: int, replicas: int, v: ValkeyNode, n: NodeState)
    requires Deletes(nodes, items, want, replicas, v) && ScrapedAt(nodes, n, v.podIP)
    requires !IsSurplus(v, want, replicas) && GoesAt(PositionsOf(items), v.podIP, want)
    ensures !OwnsSlots(n)
  {
    VictimFacts(Group(nodes).shards, items, want, replicas);
    ShardPrimariesOwn(nodes, n);
    hide Group, Coherent, Victim, PositionsOf;
  }

  /** Whatever the pods report, the node chosen for deletion runs no scraped slot owner, if and only
      if it is in an excess shard and the position of its pod IP says so too. */
  lemma GateGuardsIff(items: seq<ValkeyNode>, want: int, replicas: int, v: ValkeyNode)
    requires Choice(items, want, replicas) == Some(v)
    ensures !IsSurplus(v, want, replicas) && GoesAt(PositionsOf(items), v.podIP, want) <==>
            forall nodes, n :: Deletes(nodes, items, want, replicas, v) && ScrapedAt(nodes, n, v.podIP) ==>
              !OwnsSlots(n)
  {
    if !IsSurplus(v, want, replicas) && GoesAt(PositionsOf(items), v.podIP, want) {
      forall nodes, n | Deletes(nodes, items, want, replicas, v) && ScrapedAt(nodes, n, v.podIP) ensures !OwnsSlots(n) {
        GateGuards(nodes, items, want, replicas, v, n);
      }
    } else {
      var nodes, n := Unguarded(items, want, replicas, v);
    }
  }

  /** Everything is served from the pod of the node to delete, and nothing holds the deletion up. */
  lemma Unguarded(items: seq<ValkeyNode>, want: int, replicas: int, v: ValkeyNode)
    returns (nodes: seq<NodeState>, n: NodeState)
    requires Choice(items, want, replicas) == Some(v)
    requires IsSurplus(v, want, replicas) || !GoesAt(PositionsOf(items), v.podIP, want)
    ensures Deletes(nodes, items, want, replicas, v) && ScrapedAt(nodes, n, v.podIP) && OwnsSlots(n)
  {
    n := Serving("a", v.podIP, [SlotRange(0, TOTAL_SLOTS - 1)], Table("a", "a"));
    nodes := [n];
    CountPositive(n.slots);
    HostOf(v.podIP);
    assert Coherent(nodes);
    hide Group, Choice, PositionsOf;
    if ExtraReplicas(items, want, replicas) == [] {
      SurplusMembers(items, want, replicas);
      ChoiceListed(items, want, replicas);
      forall p | p in ShardPrimaries(Group(nodes).shards) ensures !IsDraining(p, PositionsOf(items), want) {
        ShardPrimariesOwn(nodes, p);
      }
    }
  }

  lemma ChoiceListed(items: seq<ValkeyNode>, want: int, replicas: int)
    requires Choice(items, want, replicas).Some?
    ensures Choice(items, want, replicas).value in items
  {
    if ExtraReplicas(items, want, replicas) != [] {
      FirstSurplus(items, want, replicas);
    } else {
      FirstExcess(items, want);
    }
  }

  /** A connected primary that reports the slots. */
  function Serving(id: string, ip: string, slots: seq<SlotRange>, peers: map<string, PeerView>): (n: NodeState) {
    NodeState(id, id, ip + PORT_SUFFIX, [], "", true, Primary, 0, slots, 2, 2, peers, true)
  }

  /** A peer table with a line for each of two nodes, both primaries. */
  function Table(a: string, b: string): (r: map<string, PeerView>) {
    map[a := PeerView(a, ["master"], "-"), b := PeerView(b, ["master"], "-")]
  }

  /** The node `id` in the pod of the node a pass deletes owns no slot in any ownership the scrape is
      true of, if and only if, when that pod was scraped, it reports none, and when it was not, the
      scraped ones report them all. */
  lemma DeletionSafeIff(truth: Owner, nodes: seq<NodeState>, items: seq<ValkeyNode>, want: int, replicas: int,
                        v: ValkeyNode, id: string)
    requires Deletes(nodes, items, want, replicas, v) && TrueOf(truth, nodes)
    requires forall n :: n in nodes ==> (n.id == id <==> HostFromAddr(n.addr) == v.podIP)
    ensures (if exists n :: ScrapedAt(nodes, n, v.podIP)
             then forall n :: ScrapedAt(nodes, n, v.podIP) ==> !OwnsSlots(n)
             else AllReported(nodes)) <==>
            forall owner :: TrueOf(owner, nodes) ==> OwnedSet(owner, id) == {}
  {
    hide Deletes, TrueOf, HostFromAddr, AllReported, OwnsSlots;
    assert AllWellFormed(nodes) by { DeletesFacts(nodes, items, want, replicas, v); }
    OwnsNothingIff(truth, nodes, id);
    if IsScraped(nodes, id) {
      var n :| n in nodes && n.id == id;
      assert ScrapedAt(nodes, n, v.podIP);
    }
  }

  lemma DeletesFacts(nodes: seq<NodeState>, items: seq<ValkeyNode>, want: int, replicas: int, v: ValkeyNode)
    requires Deletes(nodes, items, want, replicas, v)
    ensures AllWellFormed(nodes)
  {
  }

  /** Of the nodes that exist, those in `nodes` were scraped, and the pass deletes the pod of one
      that owns slots. */
  ghost predicate LosesSlots(owner: Owner, all: seq<NodeState>, nodes: seq<NodeState>, items: seq<ValkeyNode>,
                             want: int, replicas: int, v: ValkeyNode) {
    && TrueOf(owner, all) && (forall n :: n in nodes ==> n in all) && Deletes(nodes, items, want, replicas, v)
    && exists n :: ScrapedAt(all, n, v.podIP) && OwnedSet(owner, n.id) != {}
  }

  lemma OneServing(n: NodeState, items: seq<ValkeyNode>, want: int, replicas: int, v: ValkeyNode)
    requires n.id != "" && WellFormed(n.slots) && Choice(items, want, replicas) == Some(v)
    requires !IsDraining(n, PositionsOf(items), want)
    ensures Deletes([n], items, want, replicas, v)
  {
    assert Coherent([n]);
    hide Group, Choice, PositionsOf, IsDraining;
    forall p | p in ShardPrimaries(Group([n]).shards) ensures !IsDraining(p, PositionsOf(items), want) {
      ShardPrimariesOwn([n], p);
    }
  }

  lemma OnlyChoice(items: seq<ValkeyNode>, want: int, replicas: int, v: ValkeyNode)
    requires v in items && IsGone(v, want, replicas)
    requires forall n :: n in items && n != v ==> !IsGone(n, want, replicas)
    ensures Choice(items, want, replicas) == Some(v)
  {
    SurplusMembers(items, want, replicas);
    ExcessMembers(items, want);
    if ExtraReplicas(items, want, replicas) != [] {
      FirstSurplus(items, want, replicas);
    } else {
      FirstExcess(items, want);
    }
  }

  /** The dial failed: shard 1 is to go, and its primary b, which owns slot 2, is deleted unseen. */
  lemma DeletesUnreached() returns (owner: Owner, all: seq<NodeState>, items: seq<ValkeyNode>)
    ensures all != [] && items != [] && !IsScraped(all[1..], "b")
    ensures LosesSlots(owner, all, all[1..], items, 1, 0, items[0])
    ensures forall n :: n in items ==> n.IsPlaced()
  {
    var a := Serving("a", "x", [SlotRange(0, 1)], Table("a", "b"));
    var b := Serving("b", "y", [SlotRange(2, 2)], Table("a", "b"));
    var v := ValkeyNode("b", "y", Some(1), Some(0));
    owner, all, items := map[0 := "a", 1 := "a", 2 := "b"], [b, a], [v, ValkeyNode("a", "x", Some(0), Some(0))];
    assert all[1..] == [a];
    assert forall s: int :: Covers(a.slots, s) <==> 0 <= s <= 1 by { assert a.slots[0] in a.slots; }
    assert forall s: int :: Covers(b.slots, s) <==> s == 2 by { assert b.slots[0] in b.slots; }
    assert TrueOf(owner, all);
    HostOf("x");
    HostOf("y");
    PositionsFacts(items, "x");
    OnlyChoice(items, 1, 0, v);
    hide PositionsOf, Choice, HostFromAddr;
    OneServing(a, items, 1, 0, v);
    assert ScrapedAt(all, b, "y") && 2 in OwnedSet(owner, "b");
  }

  /** The node label does not parse: the pod of shard 1 has no position, so its slots are not
      drained, but its shard label has it deleted. */
  lemma DeletesUnlabelled() returns (owner: Owner, all: seq<NodeState>, items: seq<ValkeyNode>)
    ensures items != [] && AllReported(all) && items[0].nodeLabel.None?
    ensures LosesSlots(owner, all, all, items, 1, 0, items[0])
  {
    var a := Serving("a", "x", [SlotRange(0, TOTAL_SLOTS - 1)], Table("a", "a"));
    var v := ValkeyNode("a", "x", Some(1), None);
    owner, all, items := Filled(a.slots[0], "a"), [a], [v];
    IntervalMembers(a.slots[0]);
    assert forall s: int :: Covers(a.slots, s) <==> 0 <= s < TOTAL_SLOTS by { assert a.slots[0] in a.slots; }
    assert TrueOf(owner, all);
    HostOf("x");
    PositionsFacts(items, "x");
    OnlyChoice(items, 1, 0, v);
    hide PositionsOf, Choice, HostFromAddr;
    OneServing(a, items, 1, 0, v);
    assert ScrapedAt(all, a, "x") && 0 in OwnedSet(owner, "a");
  }

  /** A failover made node 1 of shard 0 its primary, and now no replicas are wanted. */
  lemma DeletesPromoted() returns (owner: Owner, all: seq<NodeState>, items: seq<ValkeyNode>)
    ensures items != [] && AllReported(all) && forall n :: n in items ==> n.IsPlaced()
    ensures LosesSlots(owner, all, all, items, 1, 0, items[0])
  {
    var peers := map["a" := PeerView("a", ["slave"], "b"), "b" := PeerView("b", ["master"], "-")];
    var b, v := Serving("b", "y", [SlotRange(0, TOTAL_SLOTS - 1)], peers), ValkeyNode("b", "y", Some(0), Some(1));
    var a := b.(id := "a", addr := "x" + PORT_SUFFIX, role := Replica, primaryID := "b", slots := []);
    owner, all, items := Filled(b.slots[0], "b"), [b, a], [v, ValkeyNode("a", "x", Some(0), Some(0))];
    IntervalMembers(b.slots[0]);
    assert forall s: int :: Covers(b.slots, s) <==> 0 <= s < TOTAL_SLOTS by { assert b.slots[0] in b.slots; }
    assert TrueOf(owner, all);
    HostOf("y");
    SurplusMembers(items, 1, 0);
    OnlyChoice(items, 1, 0, v);
    assert Coherent(all);
    assert ScrapedAt(all, b, "y") && 0 in OwnedSet(owner, "b");
  }
}
