/** The deterministic move planners (pkg/valkey/plan.go) and the unassigned-slot
    computation (pkg/valkey/topology.go). */
module Planner {
  import opened Sorting
  import opened SlotRanges
  import opened EvenSplit
  import opened ClusterView

  const TOLERANCE: int := 1

  datatype Move = Move(src: string, dst: string, ranges: seq<SlotRange>) {
    function NumSlots(): (r: int) { CountSlots(ranges) }
  }

  /** The lowest `count` slots of an owner, as ranges. */
  function Batch(slots: seq<SlotRange>, count: int): (r: seq<SlotRange>) {
    Compact(Sort(Take(Expand(slots), count), IntLe))
  }

  // ----- rebalancing

  function Surplus(ps: seq<NodeState>, i: nat): (r: int)
    requires i < |ps|
  {
    ps[i].NumSlots() - Targets(|ps|)[i]
  }

  /** First index from `i` on whose surplus exceeds the tolerance, or the length. */
  function FirstOver(ps: seq<NodeState>, i: nat): (r: nat)
    requires i <= |ps|
    decreases |ps| - i
  {
    if i == |ps| || Surplus(ps, i) > TOLERANCE then i else FirstOver(ps, i + 1)
  }

  function FirstUnder(ps: seq<NodeState>, i: nat): (r: nat)
    requires i <= |ps|
    decreases |ps| - i
  {
    if i == |ps| || -Surplus(ps, i) > TOLERANCE then i else FirstUnder(ps, i + 1)
  }

  function RebalancePlan(ps: seq<NodeState>, shards: int): (r: Option<Move>) {
    if shards <= 0 || |ps| != shards then None
    else
      var src, dst := FirstOver(ps, 0), FirstUnder(ps, 0);
      FirstFacts(ps, 0);
      if src == |ps| || dst == |ps| then None
      else
        var count := Min(Min(Surplus(ps, src), -Surplus(ps, dst)), BATCH_SIZE);
        Some(Move(ps[src].id, ps[dst].id, Batch(ps[src].slots, count)))
  }

  lemma {:induction false} FirstFacts(ps: seq<NodeState>, i: nat)
    requires i <= |ps|
    ensures i <= FirstOver(ps, i) <= |ps| && i <= FirstUnder(ps, i) <= |ps|
    ensures forall k :: i <= k < FirstOver(ps, i) ==> Surplus(ps, k) <= TOLERANCE
    ensures forall k :: i <= k < FirstUnder(ps, i) ==> -Surplus(ps, k) <= TOLERANCE
    ensures FirstOver(ps, i) < |ps| ==> Surplus(ps, FirstOver(ps, i)) > TOLERANCE
    ensures FirstUnder(ps, i) < |ps| ==> -Surplus(ps, FirstUnder(ps, i)) > TOLERANCE
    decreases |ps| - i
  {
    if i < |ps| { FirstFacts(ps, i + 1); }
  }

  /** The scan of `PlanRebalanceMove`: the first primary over its target and the first one under it. */
  method ScanTargets(ps: seq<NodeState>, targets: seq<int>) returns (src: nat, dst: nat)
    requires ps != [] && targets == Targets(|ps|)
    ensures src == FirstOver(ps, 0) <= |ps| && dst == FirstUnder(ps, 0) <= |ps|
  {
    hide CountSlots, ChunkSize;
    src, dst := |ps|, |ps|;
    for i := 0 to |ps|
      invariant src <= |ps| && dst <= |ps|
      invariant FirstOver(ps, 0) == if src < |ps| then src else FirstOver(ps, i)
      invariant FirstUnder(ps, 0) == if dst < |ps| then dst else FirstUnder(ps, i)
    {
      if src == |ps| && ps[i].NumSlots() - targets[i] > TOLERANCE {
        src := i;
      }
      if dst == |ps| && targets[i] - ps[i].NumSlots() > TOLERANCE {
        dst := i;
      }
    }
  }

  /** `PlanRebalanceMove`. */
  method PlanRebalanceMove(s: ClusterState, shards: int) returns (move: Option<Move>)
    ensures move == RebalancePlan(Effective(s.AsView()), shards)
    ensures move.Some? <==> Uneven(Effective(s.AsView()), shards)
  {
    PlanIff(Effective(s.AsView()), shards);
    hide Uneven, Compact, Sort, Expand, Take, Covers, Canonical, ChunkSize, Effective, Distinct, WellFormed, Sum,
        FirstOver, FirstUnder;
    if shards <= 0 {
      return None;
    }
    var ps := EffectiveShards(s);
    if |ps| != shards {
      return None;
    }
    var targets := TargetSlotsPerShard(shards);
    var src, dst := ScanTargets(ps, targets);
    if src == |ps| || dst == |ps| {
      return None;
    }
    var count := Min(Min(ps[src].NumSlots() - targets[src], targets[dst] - ps[dst].NumSlots()), BATCH_SIZE);
    var slots := TakeSlots(ps[src].slots, count);
    var ranges := SlotsToRanges(slots);
    return Some(Move(ps[src].id, ps[dst].id, ranges));
  }

  /** The same nodes scraped in any order give the same source, destination and ranges. */
  lemma PlanOrderFree(a: seq<NodeState>, b: seq<NodeState>, shards: int)
    requires Coherent(a) && Coherent(b) && DistinctAddresses(a) && multiset(a) == multiset(b)
    ensures RebalancePlan(Effective(Group(a)), shards) == RebalancePlan(Effective(Group(b)), shards)
  {
    EffectiveOrderFree(a, b);
  }

  /** The primaries are as many as the wanted shards, one of them is more than one slot over its
      target and one more than one slot under it. */
  ghost predicate Uneven(ps: seq<NodeState>, shards: int) {
    && shards > 0 && |ps| == shards
    && (exists i :: 0 <= i < |ps| && ps[i].NumSlots() - Targets(|ps|)[i] > TOLERANCE)
    && (exists i :: 0 <= i < |ps| && Targets(|ps|)[i] - ps[i].NumSlots() > TOLERANCE)
  }

  /** There is a plan exactly when the slots are uneven over the wanted number of primaries. */
  lemma PlanIff(ps: seq<NodeState>, shards: int)
    ensures RebalancePlan(ps, shards).Some? <==> Uneven(ps, shards)
  {
    hide Batch, CountSlots, ChunkSize;
    FirstFacts(ps, 0);
    assert forall k :: 0 <= k < |ps| ==> Surplus(ps, k) == ps[k].NumSlots() - Targets(|ps|)[k];
  }

  /** What a plan is, and exactly when there is none. */
  ghost predicate PlanSpec(ps: seq<NodeState>, shards: int, plan: Option<Move>)
  {
    match plan
    case None =>
      || shards <= 0 || |ps| != shards
      || (forall k :: 0 <= k < |ps| ==> Surplus(ps, k) <= TOLERANCE)
      || (forall k :: 0 <= k < |ps| ==> -Surplus(ps, k) <= TOLERANCE)
    case Some(m) =>
      exists src, dst :: 0 <= src < |ps| && 0 <= dst < |ps| && MoveSpec(ps, src, dst, m)
  }

  /** `m` goes from the first primary over its target to the first one under it. It takes the
      lowest slots of the source, at least 2 and at most 400 of them, and as many as fit without
      pushing either side past its target. */
  ghost predicate MoveSpec(ps: seq<NodeState>, src: nat, dst: nat, m: Move)
    requires src < |ps| && dst < |ps|
  {
    var count := m.NumSlots();
    && m.src == ps[src].id && m.dst == ps[dst].id && src != dst
    && (forall k :: 0 <= k < src ==> ps[k].NumSlots() - Targets(|ps|)[k] <= TOLERANCE)
    && (forall k :: 0 <= k < dst ==> Targets(|ps|)[k] - ps[k].NumSlots() <= TOLERANCE)
    && 2 <= count <= BATCH_SIZE && count <= Surplus(ps, src) && count <= -Surplus(ps, dst)
    && (count == BATCH_SIZE || count == Surplus(ps, src) || count == -Surplus(ps, dst))
    && Canonical(m.ranges)
    && count <= |Expand(ps[src].slots)| && Expand(m.ranges) == Expand(ps[src].slots)[..count]
  }

  lemma BatchFacts(slots: seq<SlotRange>, count: nat)
    requires Canonical(slots) && count <= CountSlots(slots)
    ensures |Expand(slots)| == CountSlots(slots)
    ensures Canonical(Batch(slots, count))
    ensures Expand(Batch(slots, count)) == Expand(slots)[..count]
    ensures CountSlots(Batch(slots, count)) == count
  {
    ExpandCount(slots);
    CanonicalIncreasing(slots);
    var taken := Take(Expand(slots), count);
    assert taken == Expand(slots)[..count];
    IncreasingIsSorted(taken);
    CompactExpand(taken);
    CompactCanonical(taken);
    ExpandCount(Compact(taken));
  }

  lemma PlanMeetsSpec(ps: seq<NodeState>, shards: int)
    requires forall i :: 0 <= i < |ps| ==> Canonical(ps[i].slots)
    ensures PlanSpec(ps, shards, RebalancePlan(ps, shards))
  {
    hide Canonical, Batch, Surplus, Expand, CountSlots, MoveSpec;
    FirstFacts(ps, 0);
    var src, dst := FirstOver(ps, 0), FirstUnder(ps, 0);
    if src < |ps| && dst < |ps| { PlannedMove(ps, src, dst); }
  }

  lemma PlannedMove(ps: seq<NodeState>, src: nat, dst: nat)
    requires src < |ps| && dst < |ps| && Surplus(ps, src) > TOLERANCE && -Surplus(ps, dst) > TOLERANCE
    requires forall k :: 0 <= k < src ==> Surplus(ps, k) <= TOLERANCE
    requires forall k :: 0 <= k < dst ==> -Surplus(ps, k) <= TOLERANCE
    requires Canonical(ps[src].slots)
    ensures var count := Min(Min(Surplus(ps, src), -Surplus(ps, dst)), BATCH_SIZE);
            MoveSpec(ps, src, dst, Move(ps[src].id, ps[dst].id, Batch(ps[src].slots, count)))
  {
    hide Canonical, Batch, Expand, CountSlots, ChunkSize;
    BatchFacts(ps[src].slots, Min(Min(Surplus(ps, src), -Surplus(ps, dst)), BATCH_SIZE));
    assert Surplus(ps, src) != Surplus(ps, dst);
    assert forall k :: 0 <= k < |ps| ==> Surplus(ps, k) == ps[k].NumSlots() - Targets(|ps|)[k];
  }

  // ----- draining

  /** First primary other than the source in an address-sorted candidate list. */
  function FirstDrainTarget(candidates: seq<NodeState>, srcID: string): (r: Option<NodeState>) {
    if candidates == [] then None
    else if candidates[0].id != srcID && candidates[0].IsPrimary() then Some(candidates[0])
    else FirstDrainTarget(candidates[1..], srcID)
  }

  function DrainPlan(src: Option<NodeState>, remaining: seq<NodeState>, batch: int): (r: Option<Move>) {
    if src.None? || batch <= 0 || src.value.NumSlots() == 0 then None
    else match FirstDrainTarget(Sort(remaining, AddrLe), src.value.id)
         case None => None
         case Some(dst) =>
           Some(Move(src.value.id, dst.id, Batch(src.value.slots, Min(src.value.NumSlots(), batch))))
  }

  /** `PlanDrainMove`. */
  method PlanDrainMove(src: Option<NodeState>, remaining: seq<NodeState>, batch: int) returns (move: Option<Move>)
    ensures move == DrainPlan(src, remaining, batch)
    ensures move.Some? <==>
            && src.Some? && batch > 0 && src.value.NumSlots() != 0
            && exists c :: c in remaining && c.role == Primary && c.id != src.value.id
  {
    DrainPlanIff(src, remaining, batch);
    if src.None? || batch <= 0 {
      return None;
    }
    var srcCount := src.value.NumSlots();
    if srcCount == 0 {
      return None;
    }
    var candidates := Sort(remaining, AddrLe);
    var dst: Option<NodeState> := None;
    for i := 0 to |candidates|
      invariant dst == None
      invariant FirstDrainTarget(candidates, src.value.id) == FirstDrainTarget(candidates[i..], src.value.id)
    {
      assert candidates[i..][1..] == candidates[i + 1..];
      if candidates[i].id != src.value.id && candidates[i].IsPrimary() {
        dst := Some(candidates[i]);
        break;
      }
    }
    if dst.None? {
      return None;
    }
    var slots := TakeSlots(src.value.slots, Min(srcCount, batch));
    var ranges := SlotsToRanges(slots);
    return Some(Move(src.value.id, dst.value.id, ranges));
  }

  lemma {:induction false} FirstDrainTargetFacts(candidates: seq<NodeState>, srcID: string)
    requires Sorted(candidates, AddrLe)
    ensures match FirstDrainTarget(candidates, srcID)
            case None => forall c :: c in candidates && c.IsPrimary() ==> c.id == srcID
            case Some(d) => && d in candidates && d.IsPrimary() && d.id != srcID
                            && forall c :: c in candidates && c.IsPrimary() && c.id != srcID ==> c == d || AddrLe(d, c)
  {
    if candidates == [] {
    } else {
      FirstDrainTargetFacts(candidates[1..], srcID);
      assert candidates == [candidates[0]] + candidates[1..];
      forall c | c in candidates[1..] ensures AddrLe(candidates[0], c) {
        var k :| 0 <= k < |candidates[1..]| && candidates[1..][k] == c;
        assert candidates[k + 1] == c;
      }
    }
  }

  /** There is a drain plan exactly when there is something to drain and somebody to take it. */
  lemma DrainPlanIff(src: Option<NodeState>, remaining: seq<NodeState>, batch: int)
    ensures DrainPlan(src, remaining, batch).Some? <==>
            && src.Some? && batch > 0 && src.value.NumSlots() != 0
            && exists c :: c in remaining && c.role == Primary && c.id != src.value.id
  {
    if src.Some? {
      AddrPreorder();
      SortPermutes(remaining, AddrLe);
      SortSorts(remaining, AddrLe);
      FirstDrainTargetFacts(Sort(remaining, AddrLe), src.value.id);
    }
  }

  /** A drain move goes to the lowest-addressed surviving primary and carries the lowest
      min(owned, batch) slots; there is none only when nothing is left or nobody can take it. */
  lemma DrainPlanMeetsSpec(src: NodeState, remaining: seq<NodeState>, batch: nat)
    requires Canonical(src.slots) && batch > 0
    ensures match DrainPlan(Some(src), remaining, batch)
            case None => src.slots == [] || forall c :: c in remaining && c.IsPrimary() ==> c.id == src.id
            case Some(m) =>
              && m.src == src.id && Canonical(m.ranges)
              && m.NumSlots() == Min(src.NumSlots(), batch) > 0
              && m.NumSlots() <= |Expand(src.slots)| && Expand(m.ranges) == Expand(src.slots)[..m.NumSlots()]
              && exists d :: && d in remaining && d.IsPrimary() && d.id == m.dst != src.id
                             && forall c :: c in remaining && c.IsPrimary() && c.id != src.id ==> c == d || AddrLe(d, c)
  {
    AddrPreorder();
    SortPermutes(remaining, AddrLe);
    SortSorts(remaining, AddrLe);
    FirstDrainTargetFacts(Sort(remaining, AddrLe), src.id);
    CountPositive(src.slots);
    BatchFacts(src.slots, Min(src.NumSlots(), batch));
  }

  // ----- unassigned slots

  /** `GetUnassignedSlots`: exactly the complement, within the slot space, of what the
      shards own, whatever those lists look like; in normal form when they are well formed. */
  method GetUnassignedSlots(shards: seq<ShardState>) returns (remaining: seq<SlotRange>)
    ensures forall slot: int ::
              Covers(remaining, slot) <==> 0 <= slot < TOTAL_SLOTS && !OwnedByShard(shards, slot)
    ensures WellFormed(remaining)
    ensures remaining == [] <==> forall slot: int :: 0 <= slot < TOTAL_SLOTS ==> OwnedByShard(shards, slot)
    ensures (forall sh :: sh in shards ==> WellFormed(sh.slots)) ==> Canonical(remaining)
  {
    remaining := [SlotRange(0, TOTAL_SLOTS - 1)];
    assert remaining[0] in remaining;
    ghost var ok := forall sh :: sh in shards ==> WellFormed(sh.slots);
    for i := 0 to |shards|
      invariant forall slot: int ::
                  Covers(remaining, slot) <==> 0 <= slot < TOTAL_SLOTS && !OwnedByShard(shards[..i], slot)
      invariant WellFormed(remaining)
      invariant ok ==> Canonical(remaining)
    {
      assert shards[..i + 1] == shards[..i] + [shards[i]];
      var owned := shards[i].slots;
      for j := 0 to |owned|
        invariant forall slot: int ::
                    Covers(remaining, slot) <==>
                    0 <= slot < TOTAL_SLOTS && !OwnedByShard(shards[..i], slot) && !Covers(owned[..j], slot)
        invariant WellFormed(remaining)
        invariant ok ==> Canonical(remaining)
      {
        assert owned[..j + 1] == owned[..j] + [owned[j]];
        AppendAddsSlots(owned[..j], owned[j]);
        assert ok ==> WellFormed(owned);
        remaining := SubtractOne(remaining, owned[j]);
      }
      assert owned[..|owned|] == owned;
      OwnedByShardSnoc(shards[..i], shards[i]);
    }
    assert shards[..|shards|] == shards;
    FirstSlot(remaining);
  }

  lemma OwnedByShardSnoc(shards: seq<ShardState>, sh: ShardState)
    ensures forall slot: int ::
              OwnedByShard(shards + [sh], slot) <==> OwnedByShard(shards, slot) || Covers(sh.slots, slot)
  {
    assert forall x :: x in shards + [sh] <==> x in shards || x == sh;
  }
}
