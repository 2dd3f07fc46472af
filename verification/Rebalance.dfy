/** Whole rebalance runs: the planner's moves applied to the ownership map, one per
    reconcile, until it plans none (pkg/valkey/plan.go, rebalance.go). */
module Rebalance {
  import opened Sorting
  import opened SlotRanges
  import opened EvenSplit
  import opened ClusterView
  import opened Planner
  import opened Ownership

  // ----- sums

  function Abs(x: int): (r: nat) { if x < 0 then -x else x }

  lemma {:induction false} SumUpdate(s: seq<int>, i: nat, x: int)
    requires i < |s|
    ensures Sum(s[i := x]) == Sum(s) - s[i] + x
  {
    var n := |s| - 1;
    if i == n {
      assert s[i := x][..n] == s[..n];
    } else {
      assert s[i := x][..n] == s[..n][i := x];
      SumUpdate(s[..n], i, x);
    }
  }

  lemma {:induction false} SumAtMost(s: seq<int>, c: int)
    requires forall i :: 0 <= i < |s| ==> s[i] <= c
    ensures Sum(s) <= |s| * c
  {
    if s == [] {
    } else {
      SumAtMost(s[..|s| - 1], c);
    }
  }

  lemma {:induction false} SumNegate(s: seq<int>)
    ensures Sum(seq(|s|, i requires 0 <= i < |s| => -s[i])) == -Sum(s)
  {
    if s == [] {
    } else {
      SumNegate(s[..|s| - 1]);
      var t := seq(|s|, i requires 0 <= i < |s| => -s[i]);
      var front := s[..|s| - 1];
      assert t[..|s| - 1] == seq(|front|, i requires 0 <= i < |front| => -front[i]);
    }
  }

  /** Terms that cancel out, none above one: each is at most `n - 1` away from zero. */
  lemma ZeroSumBound(d: seq<int>, k: nat)
    requires Sum(d) == 0 && k < |d| && forall i :: 0 <= i < |d| ==> d[i] <= 1
    ensures Abs(d[k]) <= |d| - 1
  {
    assert |d| == 1 ==> Sum(d) == d[0] + Sum(d[..0]);
    SumUpdate(d, k, 1);
    SumAtMost(d[k := 1], 1);
  }

  // ----- ownership against targets

  ghost predicate Primaried(ps: seq<NodeState>) {
    && ps != []
    && (forall i :: 0 <= i < |ps| ==> ps[i].IsPrimary())
    && (forall i, j :: 0 <= i < j < |ps| ==> ps[i].id != ps[j].id)
  }

  /** Every slot has exactly one owner, and it is one of the primaries. */
  ghost predicate Partitioned(owner: Owner, ps: seq<NodeState>) {
    && (forall s: int :: s in owner <==> 0 <= s < TOTAL_SLOTS)
    && (forall s :: s in owner ==> exists i :: 0 <= i < |ps| && owner[s] == ps[i].id)
  }

  ghost function Held(owner: Owner, ps: seq<NodeState>): (r: seq<int>) {
    seq(|ps|, i requires 0 <= i < |ps| => |OwnedSet(owner, ps[i].id)|)
  }

  ghost function Deviation(owner: Owner, ps: seq<NodeState>): (d: seq<int>)
    ensures |d| == |ps|
  {
    seq(|ps|, i requires 0 <= i < |ps| => |OwnedSet(owner, ps[i].id)| - Targets(|ps|)[i])
  }

  ghost function Distances(d: seq<int>): (r: seq<int>) {
    seq(|d|, i requires 0 <= i < |d| => Abs(d[i]))
  }

  /** How far the cluster is from its targets. */
  ghost function Imbalance(owner: Owner, ps: seq<NodeState>): (r: int) {
    Sum(Distances(Deviation(owner, ps)))
  }

  lemma {:induction false} DistancesNonNegative(d: seq<int>)
    ensures Sum(Distances(d)) >= 0
  {
    if d == [] {
    } else {
      DistancesNonNegative(d[..|d| - 1]);
      assert Distances(d)[..|d| - 1] == Distances(d[..|d| - 1]);
    }
  }

  ghost function HeldByFirst(owner: Owner, ps: seq<NodeState>, k: nat): (r: set<int>)
    requires k <= |ps|
  {
    set s | s in owner && exists i :: 0 <= i < k && owner[s] == ps[i].id
  }

  lemma {:induction false} HeldPrefix(owner: Owner, ps: seq<NodeState>, k: nat)
    requires Primaried(ps) && k <= |ps|
    ensures Sum(Held(owner, ps)[..k]) == |HeldByFirst(owner, ps, k)|
  {
    if k == 0 {
      assert HeldByFirst(owner, ps, 0) == {};
    } else {
      HeldPrefix(owner, ps, k - 1);
      assert Held(owner, ps)[..k][..k - 1] == Held(owner, ps)[..k - 1];
      var before, mine := HeldByFirst(owner, ps, k - 1), OwnedSet(owner, ps[k - 1].id);
      assert HeldByFirst(owner, ps, k) == before + mine;
      assert before !! mine;
    }
  }

  lemma {:induction false} SumDifference(a: seq<int>, b: seq<int>, d: seq<int>)
    requires |a| == |b| == |d| && forall i :: 0 <= i < |a| ==> d[i] == a[i] - b[i]
    ensures Sum(d) == Sum(a) - Sum(b)
  {
    var n := |a| - 1;
    if n >= 0 { SumDifference(a[..n], b[..n], d[..n]); }
  }

  lemma AllHeld(owner: Owner, ps: seq<NodeState>)
    requires Partitioned(owner, ps)
    ensures |HeldByFirst(owner, ps, |ps|)| == TOTAL_SLOTS
  {
    AllSlotsFacts();
    forall s ensures s in AllSlots() <==> s in HeldByFirst(owner, ps, |ps|) {
      assert s in owner <==> 0 <= s < TOTAL_SLOTS;
    }
    ListCard(AllSlots(), HeldByFirst(owner, ps, |ps|));
  }

  /** Surpluses and deficits cancel out. */
  lemma DeviationSum(owner: Owner, ps: seq<NodeState>)
    requires Primaried(ps) && Partitioned(owner, ps)
    ensures Sum(Deviation(owner, ps)) == 0
  {
    HeldPrefix(owner, ps, |ps|);
    assert Held(owner, ps)[..|ps|] == Held(owner, ps);
    AllHeld(owner, ps);
    TargetsSum(|ps|);
    hide Sum, HeldByFirst, Partitioned, Primaried;
    SumDifference(Held(owner, ps), Targets(|ps|), Deviation(owner, ps));
  }

  // ----- one move

  function Plan(owner: Owner, ps: seq<NodeState>): (r: Option<Move>) {
    RebalancePlan(Scrape(owner, ps), |ps|)
  }

  /** What the operator plans from a fresh scrape of all nodes is this plan. */
  lemma PlanFromScrape(owner: Owner, nodes: seq<NodeState>)
    requires Healthy(nodes)
    ensures var ps := Sort(Primaries(nodes), AddrLe);
            RebalancePlan(Effective(Group(Scrape(owner, nodes))), |ps|) == Plan(owner, ps)
  {
    EffectiveScrape(owner, nodes);
  }

  lemma ScrapeCounts(owner: Owner, ps: seq<NodeState>, i: nat)
    requires Primaried(ps) && InSpace(owner) && i < |ps|
    ensures Canonical(Scrape(owner, ps)[i].slots)
    ensures Surplus(Scrape(owner, ps), i) == Deviation(owner, ps)[i]
    ensures forall s :: s in Expand(Scrape(owner, ps)[i].slots) <==> s in OwnedSet(owner, ps[i].id)
  {
    SlotsOfFacts(owner, ps[i].id);
  }

  /** The source and destination of a planned move, and what makes it legal. */
  lemma PlanIndices(owner: Owner, ps: seq<NodeState>, m: Move) returns (src: nat, dst: nat)
    requires Primaried(ps) && InSpace(owner) && Plan(owner, ps) == Some(m)
    ensures src < |ps| && dst < |ps| && src != dst && m.src == ps[src].id && m.dst == ps[dst].id
    ensures m.src != m.dst && Canonical(m.ranges)
    ensures 2 <= m.NumSlots() <= BATCH_SIZE
    ensures m.NumSlots() <= Deviation(owner, ps)[src] && m.NumSlots() <= -Deviation(owner, ps)[dst]
    ensures forall s: int :: Covers(m.ranges, s) ==> s in OwnedSet(owner, m.src)
  {
    var scraped := Scrape(owner, ps);
    forall i | 0 <= i < |ps| ensures Canonical(scraped[i].slots) { ScrapeCounts(owner, ps, i); }
    PlanMeetsSpec(scraped, |ps|);
    src, dst :| 0 <= src < |ps| && 0 <= dst < |ps| && MoveSpec(scraped, src, dst, m);
    ScrapeCounts(owner, ps, src);
    ScrapeCounts(owner, ps, dst);
    assert ps[src].id != ps[dst].id;
    ExpandMembers(m.ranges);
    forall s: int | Covers(m.ranges, s) ensures s in OwnedSet(owner, m.src) {
      assert s in Expand(scraped[src].slots)[..m.NumSlots()];
      assert s in Expand(scraped[src].slots);
    }
  }

  /** Every planned move keeps the partition, crosses neither target, moves 2 to 400 slots
      and brings the cluster closer to its targets by twice what it moves. */
  lemma MoveImproves(owner: Owner, ps: seq<NodeState>, m: Move)
    requires Primaried(ps) && Partitioned(owner, ps) && Plan(owner, ps) == Some(m)
    ensures Partitioned(ApplyMove(owner, m), ps)
    ensures 2 <= m.NumSlots() <= BATCH_SIZE
    ensures Imbalance(ApplyMove(owner, m), ps) == Imbalance(owner, ps) - 2 * m.NumSlots()
    ensures exists src, dst :: && 0 <= src < |ps| && 0 <= dst < |ps| && ps[src].id == m.src && ps[dst].id == m.dst
                               && Deviation(ApplyMove(owner, m), ps)[src] >= 0
                               && Deviation(ApplyMove(owner, m), ps)[dst] <= 0
    ensures forall s :: s in owner && !Covers(m.ranges, s) ==> ApplyMove(owner, m)[s] == owner[s]
  {
    hide RebalancePlan, Scrape, Deviation, Distances, OwnedSet, Covers, Canonical;
    var src, dst := PlanIndices(owner, ps, m);
    DeviationAfter(owner, ps, m, src, dst);
    ImbalanceAfter(Deviation(owner, ps), src, dst, m.NumSlots());
    MoveKeepsPartition(owner, ps, m, dst);
    assert ps[src].id == m.src && ps[dst].id == m.dst;
  }

  lemma MoveKeepsPartition(owner: Owner, ps: seq<NodeState>, m: Move, dst: nat)
    requires Partitioned(owner, ps) && dst < |ps| && m.dst == ps[dst].id
    ensures Partitioned(ApplyMove(owner, m), ps)
    ensures forall s :: s in owner && !Covers(m.ranges, s) ==> ApplyMove(owner, m)[s] == owner[s]
  {
  }

  lemma DeviationAfter(owner: Owner, ps: seq<NodeState>, m: Move, src: nat, dst: nat)
    requires Primaried(ps) && src < |ps| && dst < |ps| && m.src == ps[src].id && m.dst == ps[dst].id && src != dst
    requires Canonical(m.ranges) && forall s: int :: Covers(m.ranges, s) ==> s in OwnedSet(owner, m.src)
    ensures var d := Deviation(owner, ps);
            Deviation(ApplyMove(owner, m), ps) == d[src := d[src] - m.NumSlots()][dst := d[dst] + m.NumSlots()]
  {
    ApplyMoveCounts(owner, m);
  }

  lemma ImbalanceAfter(d: seq<int>, src: nat, dst: nat, count: nat)
    requires src < |d| && dst < |d| && src != dst && count <= d[src] && count <= -d[dst]
    ensures Sum(Distances(d[src := d[src] - count][dst := d[dst] + count])) == Sum(Distances(d)) - 2 * count
  {
    var a := Distances(d);
    assert Distances(d[src := d[src] - count][dst := d[dst] + count])
        == a[src := a[src] - count][dst := a[dst] - count];
    SumUpdate(a, src, a[src] - count);
    SumUpdate(a[src := a[src] - count], dst, a[dst] - count);
  }

  // ----- whole runs

  /** The ownership a run ends in. */
  ghost function Settled(owner: Owner, ps: seq<NodeState>): (r: Owner)
    requires Primaried(ps) && Partitioned(owner, ps)
    decreases Imbalance(owner, ps)
  {
    DistancesNonNegative(Deviation(owner, ps));
    match Plan(owner, ps)
    case None => owner
    case Some(m) =>
      MoveImproves(owner, ps, m);
      DistancesNonNegative(Deviation(ApplyMove(owner, m), ps));
      Settled(ApplyMove(owner, m), ps)
  }

  ghost function MoveCount(owner: Owner, ps: seq<NodeState>): (r: nat)
    requires Primaried(ps) && Partitioned(owner, ps)
    decreases Imbalance(owner, ps)
  {
    DistancesNonNegative(Deviation(owner, ps));
    match Plan(owner, ps)
    case None => 0
    case Some(m) =>
      MoveImproves(owner, ps, m);
      DistancesNonNegative(Deviation(ApplyMove(owner, m), ps));
      1 + MoveCount(ApplyMove(owner, m), ps)
  }

  /** There is nothing to plan exactly when no surplus, or no deficit, exceeds one slot. */
  lemma NoPlanIff(owner: Owner, ps: seq<NodeState>)
    requires Primaried(ps) && InSpace(owner)
    ensures Plan(owner, ps).None? <==>
            (forall i :: 0 <= i < |ps| ==> Deviation(owner, ps)[i] <= 1) ||
            (forall i :: 0 <= i < |ps| ==> Deviation(owner, ps)[i] >= -1)
  {
    var scraped, d := Scrape(owner, ps), Deviation(owner, ps);
    forall i | 0 <= i < |ps| ensures Surplus(scraped, i) == d[i] { ScrapeCounts(owner, ps, i); }
    hide Surplus, Deviation, Batch, Scrape;
    FirstFacts(scraped, 0);
  }

  lemma NoPlanBound(owner: Owner, ps: seq<NodeState>, i: nat)
    requires Primaried(ps) && Partitioned(owner, ps) && i < |ps|
    ensures Plan(owner, ps).None? ==> Abs(Deviation(owner, ps)[i]) <= |ps| - 1
  {
    hide Plan, Deviation;
    var d := Deviation(owner, ps);
    NoPlanIff(owner, ps);
    DeviationSum(owner, ps);
    if Plan(owner, ps).Some? {
    } else if forall k :: 0 <= k < |ps| ==> d[k] <= 1 {
      ZeroSumBound(d, i);
    } else {
      SumNegate(d);
      ZeroSumBound(seq(|d|, k requires 0 <= k < |d| => -d[k]), i);
    }
  }

  /** Every run ends, after at most Imbalance / 4 moves, in a partition the planner leaves
      alone, where every primary is within shards - 1 slots of its target. */
  lemma {:induction false} RunSettles(owner: Owner, ps: seq<NodeState>)
    requires Primaried(ps) && Partitioned(owner, ps)
    ensures var final := Settled(owner, ps);
            && Partitioned(final, ps)
            && Plan(final, ps).None?
            && 4 * MoveCount(owner, ps) <= Imbalance(owner, ps) - Imbalance(final, ps)
            && (forall i :: 0 <= i < |ps| ==> Abs(Deviation(final, ps)[i]) <= |ps| - 1)
    decreases Imbalance(owner, ps)
  {
    DistancesNonNegative(Deviation(owner, ps));
    if Plan(owner, ps).Some? {
      var owner' := ApplyMove(owner, Plan(owner, ps).value);
      MoveImproves(owner, ps, Plan(owner, ps).value);
      DistancesNonNegative(Deviation(owner', ps));
      RunSettles(owner', ps);
    } else {
      forall i | 0 <= i < |ps| ensures Abs(Deviation(owner, ps)[i]) <= |ps| - 1 { NoPlanBound(owner, ps, i); }
    }
  }

  // ----- how balanced a finished run is

  ghost predicate WithinOne(owner: Owner, ps: seq<NodeState>) {
    forall i :: 0 <= i < |ps| ==> Abs(Deviation(owner, ps)[i]) <= 1
  }

  /** Layouts the planner leaves alone: the even one, but with the first slot of each of the
      shards 1 to `k` handed to shard 0. */
  ghost function Lopsided(ps: seq<NodeState>, k: nat): (r: Owner)
    requires k < |ps|
  {
    if k == 0 then EvenOwner(ps, |ps|) else Lopsided(ps, k - 1)[EvenRange(|ps|, k).start := ps[0].id]
  }

  lemma HandOver(owner: Owner, s: int, to: string, id: string)
    ensures OwnedSet(owner[s := to], id) == if id == to then OwnedSet(owner, id) + {s} else OwnedSet(owner, id) - {s}
  {
  }

  lemma DifferentOwners(owner: Owner, s: int, a: string, b: string)
    requires s in OwnedSet(owner, a) && a != b
    ensures s !in OwnedSet(owner, b)
  {
  }

  lemma FirstOfRange(ps: seq<NodeState>, k: nat)
    requires Primaried(ps) && k < |ps| && k < TOTAL_SLOTS
    ensures EvenRange(|ps|, k).start in OwnedSet(EvenOwner(ps, |ps|), ps[k].id)
  {
    hide Offset, EvenOwner, OwnedSet, Targets;
    ChunkNonEmpty(TOTAL_SLOTS, |ps|, k);
    OffsetStep(TOTAL_SLOTS, |ps|, k);
    EvenOwnedSet(ps, k);
  }

  /** Shard 0 has gained `k` slots, shards 1 to `k` have lost one each, the rest own their range. */
  lemma {:induction false} LopsidedShare(ps: seq<NodeState>, k: nat, i: nat)
    requires Primaried(ps) && k < |ps| && k < TOTAL_SLOTS && i < |ps|
    ensures |OwnedSet(Lopsided(ps, k), ps[i].id)| == Targets(|ps|)[i] + (if i == 0 then k else if i <= k then -1 else 0)
    ensures i > k ==> OwnedSet(Lopsided(ps, k), ps[i].id) == OwnedSet(EvenOwner(ps, |ps|), ps[i].id)
  {
    hide EvenOwner, OwnedSet, EvenRange, Targets;
    if k == 0 {
      EvenOwnedSet(ps, i);
    } else {
      var before, s := Lopsided(ps, k - 1), EvenRange(|ps|, k).start;
      LopsidedShare(ps, k - 1, i);
      LopsidedShare(ps, k - 1, k);
      FirstOfRange(ps, k);
      HandOver(before, s, ps[0].id, ps[i].id);
      if i != k { DifferentOwners(before, s, ps[k].id, ps[i].id); }
    }
  }

  lemma {:induction false} LopsidedPartitioned(ps: seq<NodeState>, k: nat)
    requires Primaried(ps) && k < |ps| && k < TOTAL_SLOTS
    ensures Partitioned(Lopsided(ps, k), ps)
  {
    hide EvenOwner, EvenRange, Partitioned, Primaried;
    EvenPartitioned(ps);
    if k == 0 {
    } else {
      LopsidedPartitioned(ps, k - 1);
      FirstOfRange(ps, k);
      OwnedIsSlot(EvenOwner(ps, |ps|), ps, EvenRange(|ps|, k).start, ps[k].id);
      PartitionKept(Lopsided(ps, k - 1), ps, EvenRange(|ps|, k).start, 0);
    }
  }

  lemma OwnedIsSlot(owner: Owner, ps: seq<NodeState>, s: int, id: string)
    requires Partitioned(owner, ps) && s in OwnedSet(owner, id)
    ensures 0 <= s < TOTAL_SLOTS
  {
  }

  lemma PartitionKept(owner: Owner, ps: seq<NodeState>, s: int, j: nat)
    requires Partitioned(owner, ps) && 0 <= s < TOTAL_SLOTS && j < |ps|
    ensures Partitioned(owner[s := ps[j].id], ps)
  {
  }

  lemma EvenPartitioned(ps: seq<NodeState>)
    requires Primaried(ps)
    ensures Partitioned(EvenOwner(ps, |ps|), ps)
  {
    hide Offset, EvenOwner;
    var even, n := EvenOwner(ps, |ps|), |ps|;
    OffsetEnds(TOTAL_SLOTS, n);
    forall s: int
      ensures s in even <==> 0 <= s < TOTAL_SLOTS
      ensures s in even ==> exists i :: 0 <= i < |ps| && even[s] == ps[i].id
    {
      EvenOwnerFacts(ps, n, s);
    }
  }

  /** The bound is attained: with any number of shards that the slots suffice for, a run may rest
      with one shard that far above its target. */
  lemma BoundAttained(ps: seq<NodeState>) returns (owner: Owner)
    requires Primaried(ps) && |ps| <= TOTAL_SLOTS
    ensures Partitioned(owner, ps) && Plan(owner, ps).None? && Deviation(owner, ps)[0] == |ps| - 1
  {
    owner := Lopsided(ps, |ps| - 1);
    LopsidedRests(ps, |ps| - 1);
  }

  lemma LopsidedRests(ps: seq<NodeState>, k: nat)
    requires Primaried(ps) && k < |ps| && k < TOTAL_SLOTS
    ensures Partitioned(Lopsided(ps, k), ps) && Plan(Lopsided(ps, k), ps).None?
              && Deviation(Lopsided(ps, k), ps)[0] == k
  {
    hide Lopsided, Plan, OwnedSet, Targets;
    LopsidedPartitioned(ps, k);
    forall i | 0 <= i < |ps| ensures Deviation(Lopsided(ps, k), ps)[i] >= -1 { LopsidedShare(ps, k, i); }
    LopsidedShare(ps, k, 0);
    NoPlanIff(Lopsided(ps, k), ps);
  }

  /** The planner's own comment promises that it stops within one slot of balance. That is
      what happens on every layout exactly when there are at most two shards. */
  lemma WithinOneIffTwoShards(ps: seq<NodeState>)
    requires Primaried(ps)
    ensures (forall owner: Owner :: Partitioned(owner, ps) && Plan(owner, ps).None? ==> WithinOne(owner, ps))
            <==> |ps| <= 2
  {
    if |ps| <= 2 {
      forall owner: Owner, i | Partitioned(owner, ps) && Plan(owner, ps).None? && 0 <= i < |ps|
        ensures Abs(Deviation(owner, ps)[i]) <= 1
      {
        NoPlanBound(owner, ps, i);
      }
    } else {
      LopsidedRests(ps, 2);
      assert !WithinOne(Lopsided(ps, 2), ps);
    }
  }
}
