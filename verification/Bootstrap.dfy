/** Bootstrap slot assignment (bootstrap.go): each pending primary gets its even share of the
    unassigned slots, one ADDSLOTSRANGE at a time, and a pass may stop anywhere. */
module Bootstrap {
  import opened Sorting
  import opened SlotRanges
  import opened EvenSplit
  import opened ClusterView
  import opened Planner
  import opened Ownership
  import opened Engine
  import opened Positions

  // ----- who is pending

  predicate Eligible(n: NodeState, positions: Positions, allowIsolated: bool) {
    && (allowIsolated || !n.IsIsolated())
    && PositionFor(positions, n).Some? && PositionFor(positions, n).value.IsPrimary()
  }

  function Eligibles(nodes: seq<NodeState>, positions: Positions, allowIsolated: bool): (r: seq<NodeState>) {
    if nodes == [] then []
    else
      var last, before := nodes[|nodes| - 1], Eligibles(nodes[..|nodes| - 1], positions, allowIsolated);
      if Eligible(last, positions, allowIsolated) then before + [last] else before
  }

  /** A node that may be given slots: it has met another node, or need not, and it sits at node
      index 0 of its shard. */
  predicate Seedable(n: NodeState, positions: Positions, iso: bool) {
    (iso || n.knownNodes > 1) && TrimPort(n.addr) in positions && positions[TrimPort(n.addr)].node == 0
  }

  lemma {:induction false} EligiblesMembers(nodes: seq<NodeState>, positions: Positions, iso: bool)
    ensures forall n :: n in Eligibles(nodes, positions, iso) <==> n in nodes && Seedable(n, positions, iso)
  {
    hide TrimPort;
    if nodes == [] {
    } else {
      EligiblesMembers(nodes[..|nodes| - 1], positions, iso);
      assert nodes == nodes[..|nodes| - 1] + [nodes[|nodes| - 1]];
    }
  }

  /** `pendingPrimaries`. */
  method PendingPrimaries(s: ClusterState, positions: Positions, allowIsolated: bool) returns (out: seq<NodeState>)
    ensures out == Sort(Eligibles(s.pendingNodes, positions, allowIsolated), AddrLe) && Sorted(out, AddrLe)
    ensures forall n :: n in out <==> n in s.pendingNodes && Seedable(n, positions, allowIsolated)
  {
    EligiblesMembers(s.pendingNodes, positions, allowIsolated);
    SortPermutes(Eligibles(s.pendingNodes, positions, allowIsolated), AddrLe);
    AddrPreorder();
    SortSorts(Eligibles(s.pendingNodes, positions, allowIsolated), AddrLe);
    out := [];
    var nodes := s.pendingNodes;
    for i := 0 to |nodes|
      invariant out == Eligibles(nodes[..i], positions, allowIsolated)
    {
      var n := nodes[i];
      assert nodes[..i + 1][..i] == nodes[..i];
      if n.IsIsolated() && !allowIsolated {
        continue;
      }
      var pos := PositionFor(positions, n);
      if pos.None? || !pos.value.IsPrimary() {
        continue;
      }
      out := out + [n];
    }
    assert nodes[..|nodes|] == nodes;
    out := Sort(out, AddrLe);
  }

  // ----- one pass

  /** Ownership after the first `k` assignments; nodes without a connection are passed over. */
  ghost function AssignFirst(owner: Owner, ps: seq<NodeState>, chunks: seq<seq<SlotRange>>, k: nat): (r: Owner)
    requires k <= |ps| == |chunks|
  {
    if k == 0 then owner
    else
      var before := AssignFirst(owner, ps, chunks, k - 1);
      if ps[k - 1].hasClient then AddSlots(before, ps[k - 1].id, chunks[k - 1]) else before
  }

  /** A command is sent to this primary. */
  predicate Attempts(p: NodeState, ranges: seq<SlotRange>) { ranges != [] && p.hasClient }

  function Served(ps: seq<NodeState>, chunks: seq<seq<SlotRange>>, k: nat): (r: nat)
    requires k <= |ps| == |chunks|
  {
    if k == 0 then 0 else Served(ps, chunks, k - 1) + if Attempts(ps[k - 1], chunks[k - 1]) then 1 else 0
  }

  /** The last command of a failed pass took effect although its reply was lost. */
  predicate Unheard(ps: seq<NodeState>, chunks: seq<seq<SlotRange>>, k: nat, t: Trouble, ok: bool)
    requires k <= |ps| == |chunks|
  {
    !ok && k == t.at + 1 && t.wire == ReplyLost && Attempts(ps[t.at], chunks[t.at])
  }

  /** The first `k` primaries have been served, as far as commands are sent to them, and the rest
      were not only because a command failed: it was struck by the trouble, or the engine refused
      a slot. */
  ghost predicate Reached(owner: Owner, ps: seq<NodeState>, chunks: seq<seq<SlotRange>>, k: nat, t: Trouble, ok: bool)
    requires |ps| == |chunks|
  {
    && k <= |ps|
    && (forall i :: 0 <= i < k && Attempts(ps[i], chunks[i]) ==> Unowned(AssignFirst(owner, ps, chunks, i), chunks[i]))
    && if Unheard(ps, chunks, k, t, ok) then true
       else
         && (ok <==> k == |ps|)
         && (forall i :: 0 <= i < k && Attempts(ps[i], chunks[i]) ==> t.On(i) == Intact)
         && (!ok ==>
               && Attempts(ps[k], chunks[k])
               && (t.On(k) == Dropped || !Unowned(AssignFirst(owner, ps, chunks, k), chunks[k])))
  }

  /** `assignSlotsToPendingPrimaries`. */
  method AssignSlotsToPendingPrimaries(e: Engine, s: ClusterState, positions: Positions, shards: int, replicas: int,
                                       t: Trouble)
    returns (count: nat, ok: bool, ghost unassigned: seq<SlotRange>, ghost plans: seq<seq<SlotRange>>, ghost k: nat)
    modifies e`owner
    ensures forall slot: int ::
              Covers(unassigned, slot) <==> 0 <= slot < TOTAL_SLOTS && !OwnedByShard(s.shards, slot)
    ensures (forall sh :: sh in s.shards ==> WellFormed(sh.slots)) ==> Canonical(unassigned)
    ensures var ps := Sort(Eligibles(s.pendingNodes, positions, shards == 1 && replicas == 0), AddrLe);
            && |plans| == |ps| && plans == EvenChunks(Expand(unassigned), |ps|)
            && Reached(old(e.owner), ps, plans, k, t, ok)
            && count + (if Unheard(ps, plans, k, t, ok) then 1 else 0) == Served(ps, plans, k)
            && e.owner == AssignFirst(old(e.owner), ps, plans, k)
            && (ok ==> forall i, slot :: 0 <= i < |ps| && ps[i].hasClient && slot in Expand(plans[i]) ==>
                  slot in e.owner && e.owner[slot] == ps[i].id)
    ensures forall slot :: slot in old(e.owner) ==> slot in e.owner && e.owner[slot] == old(e.owner)[slot]
    ensures forall slot :: slot in e.owner && slot !in old(e.owner) ==>
              exists n :: n in s.pendingNodes && n.hasClient && n.id == e.owner[slot]
                  && Seedable(n, positions, shards == 1 && replicas == 0)
  {
    hide Eligibles, Sort, EvenChunks, SlotRanges.WellFormed, Seedable, Sorted;
    var primaries := PendingPrimaries(s, positions, shards == 1 && replicas == 0);
    var free := GetUnassignedSlots(s.shards);
    unassigned, plans, k := free, seq(|primaries|, _ => []), |primaries|;
    if |primaries| == 0 {
      NoChunks(Expand(free));
      assert e.owner == old(e.owner);
      return 0, true, unassigned, plans, k;
    }
    if |free| == 0 {
      NothingToAssign(e.owner, primaries, plans, k);
      return 0, true, unassigned, plans, k;
    }
    var split := SplitUnassignedEvenly(free, |primaries|);
    plans := split;
    count, ok, k := AssignEach(e, primaries, split, t);
    hide Reached, Served, AssignFirst, Unheard;
    forall slot | slot in e.owner && slot !in old(e.owner)
      ensures exists n :: n in s.pendingNodes && n.hasClient && n.id == e.owner[slot]
                  && Seedable(n, positions, shards == 1 && replicas == 0)
    {
      ghost var i :| 0 <= i < |primaries| && primaries[i].hasClient && primaries[i].id == e.owner[slot];
      assert primaries[i] in primaries;
    }
  }

  method AssignEach(e: Engine, ps: seq<NodeState>, plans: seq<seq<SlotRange>>, t: Trouble)
    returns (count: nat, ok: bool, ghost k: nat)
    requires |plans| == |ps|
    modifies e`owner
    ensures Reached(old(e.owner), ps, plans, k, t, ok)
    ensures count + (if Unheard(ps, plans, k, t, ok) then 1 else 0) == Served(ps, plans, k)
    ensures e.owner == AssignFirst(old(e.owner), ps, plans, k)
    ensures ok ==> forall i, slot :: 0 <= i < |ps| && ps[i].hasClient && slot in Expand(plans[i]) ==>
              slot in e.owner && e.owner[slot] == ps[i].id
    ensures forall slot :: slot in old(e.owner) ==> slot in e.owner && e.owner[slot] == old(e.owner)[slot]
    ensures forall slot :: slot in e.owner && slot !in old(e.owner) ==>
              exists i :: 0 <= i < |ps| && ps[i].hasClient && slot in Expand(plans[i]) && ps[i].id == e.owner[slot]
  {
    hide AddSlots, Unowned;
    count := 0;
    for i := 0 to |ps|
      invariant e.owner == AssignFirst(old(e.owner), ps, plans, i) && count == Served(ps, plans, i)
      invariant forall j :: 0 <= j < i && Attempts(ps[j], plans[j]) ==>
                  t.On(j) == Intact && Unowned(AssignFirst(old(e.owner), ps, plans, j), plans[j])
    {
      if |plans[i]| == 0 || !ps[i].hasClient {
        AddNothing(e.owner, ps[i].id, plans[i]);
        continue;
      }
      ghost var accepted := t.On(i) == ReplyLost && Unowned(e.owner, plans[i]);
      var reply := e.AddSlotsRange(ps[i].id, plans[i], t.On(i));
      if reply != Accepted {
        AssignOutcome(old(e.owner), ps, plans, if accepted then i + 1 else i);
        return count, false, if accepted then i + 1 else i;
      }
      count := count + 1;
    }
    AssignOutcome(old(e.owner), ps, plans, |ps|);
    AssignGivesAll(old(e.owner), ps, plans);
    return count, true, |ps|;
  }

  lemma AssignOutcome(owner: Owner, ps: seq<NodeState>, chunks: seq<seq<SlotRange>>, k: nat)
    requires k <= |ps| == |chunks|
    ensures var owner' := AssignFirst(owner, ps, chunks, k);
            && (forall s :: s in owner ==> s in owner' && owner'[s] == owner[s])
            && forall s :: s in owner' && s !in owner ==>
                 exists i :: 0 <= i < |ps| && ps[i].hasClient && s in Expand(chunks[i]) && ps[i].id == owner'[s]
  {
    hide AssignFirst;
    forall s | s in owner
      ensures s in AssignFirst(owner, ps, chunks, k) && AssignFirst(owner, ps, chunks, k)[s] == owner[s]
    {
      AssignKeeps(owner, ps, chunks, k, s);
    }
    forall s | s in AssignFirst(owner, ps, chunks, k) && s !in owner
      ensures exists i :: 0 <= i < |ps| && ps[i].hasClient && s in Expand(chunks[i])
                  && ps[i].id == AssignFirst(owner, ps, chunks, k)[s]
    {
      AssignOrigin(owner, ps, chunks, k, s);
    }
  }

  lemma {:induction false} AssignGives(owner: Owner, ps: seq<NodeState>, chunks: seq<seq<SlotRange>>, k: nat, i: nat,
                                       s: int)
    requires i < k <= |ps| == |chunks| && ps[i].hasClient && s in Expand(chunks[i])
    requires Unowned(AssignFirst(owner, ps, chunks, i), chunks[i])
    ensures s in AssignFirst(owner, ps, chunks, k) && AssignFirst(owner, ps, chunks, k)[s] == ps[i].id
  {
    if k == i + 1 {
      ExpandMembers(chunks[i]);
    } else {
      AssignGives(owner, ps, chunks, k - 1, i, s);
    }
  }

  lemma AssignGivesAll(owner: Owner, ps: seq<NodeState>, chunks: seq<seq<SlotRange>>)
    requires |ps| == |chunks|
    requires forall i :: 0 <= i < |ps| && Attempts(ps[i], chunks[i]) ==>
               Unowned(AssignFirst(owner, ps, chunks, i), chunks[i])
    ensures forall i, s :: 0 <= i < |ps| && ps[i].hasClient && s in Expand(chunks[i]) ==>
              s in AssignFirst(owner, ps, chunks, |ps|) && AssignFirst(owner, ps, chunks, |ps|)[s] == ps[i].id
  {
    hide AssignFirst, Unowned;
    forall i, s | 0 <= i < |ps| && ps[i].hasClient && s in Expand(chunks[i])
      ensures s in AssignFirst(owner, ps, chunks, |ps|) && AssignFirst(owner, ps, chunks, |ps|)[s] == ps[i].id
    {
      assert chunks[i] != [];
      AssignGives(owner, ps, chunks, |ps|, i, s);
    }
  }

  lemma NoChunks(slots: seq<int>)
    ensures EvenChunks(slots, 0) == []
  {
  }

  lemma AddNothing(owner: Owner, id: string, ranges: seq<SlotRange>)
    ensures ranges == [] ==> AddSlots(owner, id, ranges) == owner
  {
  }

  lemma {:induction false} NothingToAssign(owner: Owner, ps: seq<NodeState>, plans: seq<seq<SlotRange>>, k: nat)
    requires k <= |ps| == |plans| && forall i :: 0 <= i < |plans| ==> plans[i] == []
    ensures AssignFirst(owner, ps, plans, k) == owner && Served(ps, plans, k) == 0
    ensures ps != [] ==> plans == EvenChunks([], |ps|)
  {
    if ps == [] {
    } else {
      forall i | 0 <= i < |ps| ensures EvenChunks([], |ps|)[i] == [] { assert Chunk([], |ps|, i) == []; }
    }
    if k == 0 {
    } else {
      NothingToAssign(owner, ps, plans, k - 1);
      AddNothing(owner, ps[k - 1].id, []);
    }
  }

  // ----- what a pass establishes

  function UnownedIn(owner: Owner, slots: seq<int>): (r: seq<int>) {
    if slots == [] then []
    else
      var last := slots[|slots| - 1];
      UnownedIn(owner, slots[..|slots| - 1]) + (if last in owner then [] else [last])
  }

  /** The unassigned slots in ascending order. */
  function Free(owner: Owner): (r: seq<int>) { UnownedIn(owner, AllSlots()) }

  lemma {:induction false} UnownedInFacts(owner: Owner, slots: seq<int>)
    requires StrictlyIncreasing(slots)
    ensures StrictlyIncreasing(UnownedIn(owner, slots))
    ensures forall s :: s in UnownedIn(owner, slots) <==> s in slots && s !in owner
  {
    if slots == [] {
    } else {
      var last, front := slots[|slots| - 1], slots[..|slots| - 1];
      UnownedInFacts(owner, front);
      assert slots == front + [last];
      IncreasingConcat(UnownedIn(owner, front), [last], last - 1);
    }
  }

  lemma FreeFacts(owner: Owner)
    ensures StrictlyIncreasing(Free(owner))
    ensures forall s :: s in Free(owner) <==> 0 <= s < TOTAL_SLOTS && s !in owner
  {
    AllSlotsFacts();
    UnownedInFacts(owner, AllSlots());
  }

  lemma IncreasingUnique(a: seq<int>, b: seq<int>)
    requires StrictlyIncreasing(a) && StrictlyIncreasing(b) && forall s :: s in a <==> s in b
    ensures a == b
  {
    CompactExpand(a);
    CompactExpand(b);
    CompactCanonical(a);
    CompactCanonical(b);
    ExpandMembers(Compact(a));
    ExpandMembers(Compact(b));
    CanonicalUnique(Compact(a), Compact(b));
  }

  /** The list the pass splits is `Free`: whatever the scrape reported, its ranges expand to
      the unassigned slots in ascending order. */
  lemma UnassignedIsFree(owner: Owner, unassigned: seq<SlotRange>)
    requires Canonical(unassigned)
    requires forall s: int :: Covers(unassigned, s) <==> 0 <= s < TOTAL_SLOTS && s !in owner
    ensures Expand(unassigned) == Free(owner)
  {
    FreeFacts(owner);
    CanonicalIncreasing(unassigned);
    ExpandMembers(unassigned);
    IncreasingUnique(Expand(unassigned), Free(owner));
  }

  ghost predicate Connected(ps: seq<NodeState>) {
    && (forall i :: 0 <= i < |ps| ==> ps[i].hasClient)
    && (forall i, j :: 0 <= i < j < |ps| ==> ps[i].id != ps[j].id)
  }

  /** Ownership after `k` assignments of the chunks of `free`, slot by slot. */
  lemma {:induction false} AssignFacts(owner: Owner, ps: seq<NodeState>, free: seq<int>, k: nat, s: int)
    requires Connected(ps) && k <= |ps| && ps != [] && StrictlyIncreasing(free)
    requires forall x :: x in free ==> x !in owner
    ensures Offset(|free|, |ps|, k) <= |free|
    ensures var owner' := AssignFirst(owner, ps, EvenChunks(free, |ps|), k);
            && (s in owner' <==> s in owner || s in free[..Offset(|free|, |ps|, k)])
            && (s in owner ==> owner'[s] == owner[s])
            && (s in owner' && s !in owner ==> exists i :: 0 <= i < k && owner'[s] == ps[i].id)
            && (forall i :: 0 <= i < k && s in Chunk(free, |ps|, i) ==> s in owner' && owner'[s] == ps[i].id)
  {
    hide Offset, Chunk, EvenChunks, AddSlots, StrictlyIncreasing;
    OffsetBound(|free|, |ps|, k);
    if k == 0 {
      OffsetEnds(|free|, |ps|);
    } else {
      AssignFacts(owner, ps, free, k - 1, s);
      var before := AssignFirst(owner, ps, EvenChunks(free, |ps|), k - 1);
      AddSlotsAt(before, ps[k - 1].id, EvenChunks(free, |ps|)[k - 1], s);
      if s in Chunk(free, |ps|, k - 1) { ChunkAfterPrefix(free, |ps|, k - 1, s); }
      ChunkExact(free, |ps|, k - 1);
      ChunkIsSlice(free, |ps|, k - 1);
      forall i | 0 <= i < k - 1 && s in Chunk(free, |ps|, i) ensures s !in Chunk(free, |ps|, k - 1) {
        ChunksDisjoint(free, |ps|, i, k - 1, s);
      }
    }
  }

  lemma AddSlotsAt(owner: Owner, id: string, ranges: seq<SlotRange>, s: int)
    ensures s in AddSlots(owner, id, ranges) <==> s in owner || s in Expand(ranges)
    ensures s in AddSlots(owner, id, ranges) ==>
              AddSlots(owner, id, ranges)[s] == if s in owner then owner[s] else id
  {
  }

  lemma ChunkIsSlice(free: seq<int>, n: nat, i: nat)
    requires i < n
    ensures Offset(|free|, n, i) <= Offset(|free|, n, i + 1) <= |free|
    ensures free[..Offset(|free|, n, i + 1)] == free[..Offset(|free|, n, i)] + Chunk(free, n, i)
  {
    OffsetBound(|free|, n, i + 1);
    OffsetMonotone(|free|, n, i, i + 1);
  }

  lemma ChunksDisjoint(free: seq<int>, n: nat, i: nat, j: nat, s: int)
    requires i < j < n && StrictlyIncreasing(free) && s in Chunk(free, n, i)
    ensures s !in Chunk(free, n, j)
  {
    OffsetBound(|free|, n, j + 1);
    OffsetMonotone(|free|, n, i, i + 1);
    OffsetMonotone(|free|, n, i + 1, j);
    OffsetMonotone(|free|, n, j, j + 1);
  }

  /** Every ADDSLOTSRANGE of a pass asks only for slots nobody owns, so none is refused. */
  lemma AssignAccepted(owner: Owner, ps: seq<NodeState>, free: seq<int>, k: nat)
    requires Connected(ps) && k < |ps| && StrictlyIncreasing(free)
    requires forall x :: x in free ==> x !in owner
    ensures Unowned(AssignFirst(owner, ps, EvenChunks(free, |ps|), k), EvenChunks(free, |ps|)[k])
  {
    hide Offset, Chunk, EvenChunks, AssignFirst;
    var ranges := EvenChunks(free, |ps|)[k];
    ChunkExact(free, |ps|, k);
    ExpandMembers(ranges);
    forall s: int | Covers(ranges, s) ensures s !in AssignFirst(owner, ps, EvenChunks(free, |ps|), k) {
      AssignFacts(owner, ps, free, k, s);
      assert s in Chunk(free, |ps|, k);
      ChunkAfterPrefix(free, |ps|, k, s);
    }
  }

  lemma ChunkAfterPrefix(free: seq<int>, n: nat, k: nat, s: int)
    requires k < n && StrictlyIncreasing(free) && s in Chunk(free, n, k)
    ensures Offset(|free|, n, k) <= |free|
    ensures s in free && s !in free[..Offset(|free|, n, k)]
  {
    OffsetBound(|free|, n, k + 1);
    OffsetMonotone(|free|, n, k, k + 1);
  }

  // ----- stopping and resuming

  function Slotless(owner: Owner, ps: seq<NodeState>): (r: seq<NodeState>) {
    if ps == [] then []
    else
      var last, before := ps[|ps| - 1], Slotless(owner, ps[..|ps| - 1]);
      if OwnedSet(owner, last.id) == {} then before + [last] else before
  }

  /** A pass over the candidates that still own nothing, stopping after `k` assignments. */
  ghost function Pass(owner: Owner, cands: seq<NodeState>, k: nat): (r: Owner) {
    var ps := Slotless(owner, cands);
    AssignFirst(owner, ps, EvenChunks(Free(owner), |ps|), Min(k, |ps|))
  }

  ghost function FullPass(owner: Owner, cands: seq<NodeState>): (r: Owner) {
    Pass(owner, cands, |Slotless(owner, cands)|)
  }

  lemma {:induction false} SlotlessConcat(owner: Owner, a: seq<NodeState>, b: seq<NodeState>)
    ensures Slotless(owner, a + b) == Slotless(owner, a) + Slotless(owner, b)
  {
    if b == [] {
      assert a + b == a;
    } else {
      assert (a + b)[..|a + b| - 1] == a + b[..|b| - 1];
      SlotlessConcat(owner, a, b[..|b| - 1]);
    }
  }

  lemma {:induction false} SlotlessMembers(owner: Owner, ps: seq<NodeState>)
    ensures forall n :: n in Slotless(owner, ps) <==> n in ps && OwnedSet(owner, n.id) == {}
  {
    if ps == [] {
    } else {
      SlotlessMembers(owner, ps[..|ps| - 1]);
      assert ps == ps[..|ps| - 1] + [ps[|ps| - 1]];
    }
  }

  lemma {:induction false} SlotlessAll(owner: Owner, ps: seq<NodeState>)
    requires forall p :: p in ps ==> OwnedSet(owner, p.id) == {}
    ensures Slotless(owner, ps) == ps
  {
    hide OwnedSet;
    if ps == [] {
    } else {
      var last, front := ps[|ps| - 1], ps[..|ps| - 1];
      assert last in ps;
      SlotlessAll(owner, front);
      assert ps == front + [last];
    }
  }

  lemma {:induction false} SlotlessNone(owner: Owner, ps: seq<NodeState>)
    requires forall p :: p in ps ==> OwnedSet(owner, p.id) != {}
    ensures Slotless(owner, ps) == []
  {
    hide OwnedSet;
    if ps == [] {
    } else {
      assert ps[|ps| - 1] in ps;
      SlotlessNone(owner, ps[..|ps| - 1]);
    }
  }

  lemma {:induction false} SlotlessConnected(owner: Owner, ps: seq<NodeState>)
    requires Connected(ps)
    ensures Connected(Slotless(owner, ps))
  {
    if ps == [] {
    } else {
      var last, front := ps[|ps| - 1], ps[..|ps| - 1];
      SlotlessConnected(owner, front);
      SlotlessMembers(owner, front);
      var kept := Slotless(owner, front);
      forall i | 0 <= i < |kept| ensures kept[i].id != last.id {
        assert kept[i] in front;
      }
    }
  }

  /** Those who own nothing later are among those who own nothing now. */
  lemma {:induction false} SlotlessTwice(owner: Owner, owner': Owner, ps: seq<NodeState>)
    requires forall n :: n in ps && OwnedSet(owner', n.id) == {} ==> OwnedSet(owner, n.id) == {}
    ensures Slotless(owner', Slotless(owner, ps)) == Slotless(owner', ps)
  {
    if ps == [] {
    } else {
      var last, front := ps[|ps| - 1], ps[..|ps| - 1];
      assert last in ps;
      SlotlessTwice(owner, owner', front);
      SlotlessConcat(owner', Slotless(owner, front), Slotless(owner, [last]));
      assert Slotless(owner, [last]) == if OwnedSet(owner, last.id) == {} then [last] else [];
      assert Slotless(owner', [last]) == if OwnedSet(owner', last.id) == {} then [last] else [];
    }
  }

  /** After `k` assignments of non-empty chunks, exactly the first `k` have left the pending list. */
  lemma PendingAfter(owner: Owner, cands: seq<NodeState>, ps: seq<NodeState>, free: seq<int>, k: nat)
    requires Connected(cands) && ps == Slotless(owner, cands) != [] && free == Free(owner)
    requires k <= |ps| && k <= |free|
    ensures Slotless(AssignFirst(owner, ps, EvenChunks(free, |ps|), k), cands) == ps[k..]
  {
    hide Free, Chunk, Offset, EvenChunks, AssignFirst, Connected, StrictlyIncreasing, OwnedSet, Slotless;
    SlotlessConnected(owner, cands);
    FreeFacts(owner);
    var owner' := AssignFirst(owner, ps, EvenChunks(free, |ps|), k);
    assert Slotless(owner', cands) == Slotless(owner', ps) by {
      forall n | n in cands && OwnedSet(owner', n.id) == {} ensures OwnedSet(owner, n.id) == {} {
        OwnersRemain(owner, ps, free, k, n.id);
      }
      SlotlessTwice(owner, owner', cands);
    }
    assert Slotless(owner', ps) == ps[k..] by {
      assert ps == ps[..k] + ps[k..];
      SlotlessConcat(owner', ps[..k], ps[k..]);
      SlotlessMembers(owner, cands);
      HeadLeaves(owner, ps, free, k);
      TailStays(owner, ps, free, k);
    }
  }

  lemma HeadLeaves(owner: Owner, ps: seq<NodeState>, free: seq<int>, k: nat)
    requires Connected(ps) && k <= |ps| && k <= |free| && StrictlyIncreasing(free) && ps != []
    requires forall x :: x in free ==> x !in owner
    ensures Slotless(AssignFirst(owner, ps, EvenChunks(free, |ps|), k), ps[..k]) == []
  {
    hide Chunk, EvenChunks, AssignFirst, Connected, StrictlyIncreasing, OwnedSet, Slotless;
    var owner', head := AssignFirst(owner, ps, EvenChunks(free, |ps|), k), ps[..k];
    forall i | 0 <= i < |head| ensures OwnedSet(owner', head[i].id) != {} { FirstKOwn(owner, ps, free, k, i); }
    SlotlessNone(owner', head);
  }

  lemma TailStays(owner: Owner, ps: seq<NodeState>, free: seq<int>, k: nat)
    requires Connected(ps) && k <= |ps| && StrictlyIncreasing(free) && ps != []
    requires forall n :: n in ps ==> OwnedSet(owner, n.id) == {}
    requires forall x :: x in free ==> x !in owner
    ensures Slotless(AssignFirst(owner, ps, EvenChunks(free, |ps|), k), ps[k..]) == ps[k..]
  {
    hide Chunk, EvenChunks, AssignFirst, Connected, StrictlyIncreasing, OwnedSet, Slotless;
    var owner', tail := AssignFirst(owner, ps, EvenChunks(free, |ps|), k), ps[k..];
    forall i | 0 <= i < |tail| ensures OwnedSet(owner', tail[i].id) == {} {
      assert tail[i] == ps[k + i] && ps[k + i] in ps;
      OthersOwnNothing(owner, ps, free, k, k + i);
    }
    SlotlessAll(owner', tail);
  }

  lemma OwnersRemain(owner: Owner, ps: seq<NodeState>, free: seq<int>, k: nat, id: string)
    requires Connected(ps) && k <= |ps| && ps != [] && StrictlyIncreasing(free)
    requires forall x :: x in free ==> x !in owner
    ensures OwnedSet(owner, id) <= OwnedSet(AssignFirst(owner, ps, EvenChunks(free, |ps|), k), id)
  {
    hide Offset, Chunk, EvenChunks, AssignFirst;
    forall s | s in OwnedSet(owner, id) ensures s in OwnedSet(AssignFirst(owner, ps, EvenChunks(free, |ps|), k), id) {
      AssignFacts(owner, ps, free, k, s);
    }
  }

  lemma FirstKOwn(owner: Owner, ps: seq<NodeState>, free: seq<int>, k: nat, i: nat)
    requires Connected(ps) && i < k <= |ps| && k <= |free| && StrictlyIncreasing(free)
    requires forall x :: x in free ==> x !in owner
    ensures OwnedSet(AssignFirst(owner, ps, EvenChunks(free, |ps|), k), ps[i].id) != {}
  {
    ChunkNonEmpty(|free|, |ps|, i);
    OffsetStep(|free|, |ps|, i);
    ChunkIsSlice(free, |ps|, i);
    hide Offset, EvenChunks, AssignFirst;
    var s := Chunk(free, |ps|, i)[0];
    AssignFacts(owner, ps, free, k, s);
    assert s in OwnedSet(AssignFirst(owner, ps, EvenChunks(free, |ps|), k), ps[i].id);
  }

  lemma OthersOwnNothing(owner: Owner, ps: seq<NodeState>, free: seq<int>, k: nat, i: nat)
    requires Connected(ps) && k <= i < |ps| && StrictlyIncreasing(free) && OwnedSet(owner, ps[i].id) == {}
    requires forall x :: x in free ==> x !in owner
    ensures OwnedSet(AssignFirst(owner, ps, EvenChunks(free, |ps|), k), ps[i].id) == {}
  {
    hide Offset, Chunk, EvenChunks, AssignFirst;
    var owner' := AssignFirst(owner, ps, EvenChunks(free, |ps|), k);
    forall s | s in owner' ensures owner'[s] != ps[i].id {
      AssignFacts(owner, ps, free, k, s);
      assert s in owner ==> s !in OwnedSet(owner, ps[i].id);
    }
  }

  /** The slots still unassigned after `k` assignments are the tail of the list. */
  lemma FreeAfter(owner: Owner, ps: seq<NodeState>, k: nat)
    requires Connected(ps) && k <= |ps| && ps != []
    ensures var free := Free(owner);
            && Offset(|free|, |ps|, k) <= |free|
            && Free(AssignFirst(owner, ps, EvenChunks(free, |ps|), k)) == free[Offset(|free|, |ps|, k)..]
  {
    var free := Free(owner);
    FreeFacts(owner);
    OffsetBound(|free|, |ps|, k);
    hide Offset, Chunk, EvenChunks, AssignFirst, Free;
    var owner', off := AssignFirst(owner, ps, EvenChunks(free, |ps|), k), Offset(|free|, |ps|, k);
    FreeFacts(owner');
    forall s: int ensures s in Free(owner') <==> s in free[off..] {
      AssignFacts(owner, ps, free, k, s);
      SplitMembers(free, off, s);
    }
    IncreasingUnique(Free(owner'), free[off..]);
  }

  lemma SplitMembers(free: seq<int>, off: nat, s: int)
    requires StrictlyIncreasing(free) && off <= |free|
    ensures s in free[off..] <==> s in free && s !in free[..off]
  {
    assert free == free[..off] + free[off..];
  }

  lemma {:induction false} AssignSplit(owner: Owner, ps: seq<NodeState>, chunks: seq<seq<SlotRange>>, k: nat, j: nat)
    requires |ps| == |chunks| && k + j <= |ps|
    ensures AssignFirst(AssignFirst(owner, ps, chunks, k), ps[k..], chunks[k..], j)
         == AssignFirst(owner, ps, chunks, k + j)
  {
    if j == 0 {
    } else {
      AssignSplit(owner, ps, chunks, k, j - 1);
    }
  }

  /** Chunks beyond the number of slots are empty, so stopping among them changes nothing. */
  lemma {:induction false} IdleTail(owner: Owner, ps: seq<NodeState>, free: seq<int>, k: nat)
    requires |free| <= k <= |ps| && ps != []
    ensures AssignFirst(owner, ps, EvenChunks(free, |ps|), k)
         == AssignFirst(owner, ps, EvenChunks(free, |ps|), Min(k, |free|))
  {
    if k > |free| {
      IdleTail(owner, ps, free, k - 1);
      ChunkNonEmpty(|free|, |ps|, k - 1);
      OffsetStep(|free|, |ps|, k - 1);
      ChunkIsSlice(free, |ps|, k - 1);
      assert Chunk(free, |ps|, k - 1) == [];
      AddNothing(AssignFirst(owner, ps, EvenChunks(free, |ps|), k - 1), ps[k - 1].id, []);
    }
  }

  /** A pass stopped after `k` assignments, followed by a complete pass planned afresh from
      what is then unassigned and who is then pending, ends in the uninterrupted ownership. */
  lemma ResumeReachesSame(owner: Owner, cands: seq<NodeState>, k: nat)
    requires Connected(cands)
    ensures FullPass(Pass(owner, cands, k), cands) == FullPass(owner, cands)
  {
    var ps, free := Slotless(owner, cands), Free(owner);
    SlotlessConnected(owner, cands);
    if ps == [] {
      assert Pass(owner, cands, k) == owner;
    } else {
      ResumeFrom(owner, cands, ps, free, k);
    }
  }

  lemma ResumeFrom(owner: Owner, cands: seq<NodeState>, ps: seq<NodeState>, free: seq<int>, k: nat)
    requires Connected(cands) && Connected(ps) && ps == Slotless(owner, cands) != [] && free == Free(owner)
    ensures FullPass(Pass(owner, cands, k), cands) == FullPass(owner, cands)
  {
    hide Free, Offset, EvenChunks, Slotless, AssignFirst, Connected, FullPass, Pass;
    var n, chunks := |ps|, EvenChunks(free, |ps|);
    var j := Min(Min(k, n), |free|);
    var owner' := AssignFirst(owner, ps, chunks, j);
    PassUntil(owner, cands, ps, free, k);
    PendingAfter(owner, cands, ps, free, j);
    FreeAfter(owner, ps, j);
    if j < n { ResidueChunks(free, n, j); }
    AssignSplit(owner, ps, chunks, j, n - j);
    assert EvenChunks(Free(owner'), n - j) == chunks[j..];
    FullPassIs(owner, cands, ps);
    FullPassIs(owner', cands, ps[j..]);
  }

  lemma PassUntil(owner: Owner, cands: seq<NodeState>, ps: seq<NodeState>, free: seq<int>, k: nat)
    requires ps == Slotless(owner, cands) != [] && free == Free(owner)
    ensures Pass(owner, cands, k) == AssignFirst(owner, ps, EvenChunks(free, |ps|), Min(Min(k, |ps|), |free|))
  {
    if Min(k, |ps|) > |free| { IdleTail(owner, ps, free, Min(k, |ps|)); }
  }

  lemma FullPassIs(owner: Owner, cands: seq<NodeState>, ps: seq<NodeState>)
    requires ps == Slotless(owner, cands)
    ensures FullPass(owner, cands) == AssignFirst(owner, ps, EvenChunks(Free(owner), |ps|), |ps|)
  {
  }

  ghost function Passes(owner: Owner, cands: seq<NodeState>, stops: seq<nat>): (r: Owner)
    decreases |stops|
  {
    if stops == [] then owner else Passes(Pass(owner, cands, stops[0]), cands, stops[1..])
  }

  /** However often bootstrap is interrupted, and wherever, it ends in the same ownership. */
  lemma {:induction false} CrashResume(owner: Owner, cands: seq<NodeState>, stops: seq<nat>)
    requires Connected(cands)
    ensures FullPass(Passes(owner, cands, stops), cands) == FullPass(owner, cands)
    decreases |stops|
  {
    if stops == [] {
    } else {
      CrashResume(Pass(owner, cands, stops[0]), cands, stops[1..]);
      ResumeReachesSame(owner, cands, stops[0]);
    }
  }

  /** A complete pass with anyone pending leaves no slot unassigned and reassigns none. */
  lemma FullPassCovers(owner: Owner, cands: seq<NodeState>)
    requires Connected(cands) && Slotless(owner, cands) != []
    ensures Free(FullPass(owner, cands)) == []
    ensures forall s :: s in owner ==> s in FullPass(owner, cands) && FullPass(owner, cands)[s] == owner[s]
  {
    var ps := Slotless(owner, cands);
    SlotlessConnected(owner, cands);
    FreeAfter(owner, ps, |ps|);
    OffsetEnds(|Free(owner)|, |ps|);
    FreeFacts(owner);
    forall s | s in owner ensures s in FullPass(owner, cands) && FullPass(owner, cands)[s] == owner[s] {
      AssignFacts(owner, ps, Free(owner), |ps|, s);
    }
  }

  // ----- what a fresh scrape shows

  /** A scrape template: slots come from the engine, and every owner is a scraped primary. */
  ghost predicate Scrapable(owner: Owner, nodes: seq<NodeState>) {
    && Healthy(nodes) && InSpace(owner)
    && (forall i :: 0 <= i < |nodes| ==> nodes[i].slots == [])
    && (forall s :: s in owner ==> exists i :: 0 <= i < |nodes| && nodes[i].IsPrimary() && nodes[i].id == owner[s])
  }

  /** From a scrape, the slots outside every shard are exactly the unowned ones. */
  lemma ScrapedUnassigned(owner: Owner, nodes: seq<NodeState>, s: int)
    requires Scrapable(owner, nodes)
    ensures OwnedByShard(Group(Scrape(owner, nodes)).shards, s) <==> s in owner
  {
    var scraped := Scrape(owner, nodes);
    HealthyScrape(owner, nodes);
    forall i | 0 <= i < |nodes| && nodes[i].IsPrimary()
      ensures Canonical(scraped[i].slots) && (Covers(scraped[i].slots, s) <==> s in OwnedSet(owner, nodes[i].id))
    {
      SlotsOfFacts(owner, nodes[i].id);
    }
    ShardsOwnPrimariesSlots(scraped, s);
    if s in owner {
      var i :| 0 <= i < |nodes| && nodes[i].IsPrimary() && nodes[i].id == owner[s];
      assert scraped[i] in scraped;
    }
  }

  lemma SlotlessSnoc(owner: Owner, a: seq<NodeState>, n: NodeState)
    ensures Slotless(owner, a + [n]) ==
            if OwnedSet(owner, n.id) == {} then Slotless(owner, a) + [n] else Slotless(owner, a)
  {
    assert (a + [n])[..|a|] == a;
  }

  lemma SlotlessCons(owner: Owner, n: NodeState, s: seq<NodeState>)
    ensures Slotless(owner, [n] + s) ==
            if OwnedSet(owner, n.id) == {} then [n] + Slotless(owner, s) else Slotless(owner, s)
  {
    SlotlessConcat(owner, [n], s);
    SlotlessSnoc(owner, [], n);
    assert [] + [n] == [n];
  }

  lemma PendingSnoc(nodes: seq<NodeState>, n: NodeState)
    ensures Group(nodes + [n]).pending == if n.IsPending() then Group(nodes).pending + [n] else Group(nodes).pending
  {
    assert (nodes + [n])[..|nodes|] == nodes;
  }

  lemma PendingWhenSlotless(owner: Owner, n: NodeState)
    requires InSpace(owner) && n.slots == []
    ensures ScrapeNode(owner, n).IsPending() <==> n.IsPrimary() && OwnedSet(owner, n.id) == {}
    ensures ScrapeNode(owner, n).IsPending() ==> ScrapeNode(owner, n) == n
  {
    SlotsOfFacts(owner, n.id);
    CountPositive(SlotsOf(owner, n.id));
  }

  lemma ScrapeSnoc(owner: Owner, nodes: seq<NodeState>)
    requires nodes != []
    ensures Scrape(owner, nodes) ==
            Scrape(owner, nodes[..|nodes| - 1]) + [ScrapeNode(owner, nodes[|nodes| - 1])]
  {
    hide ScrapeNode;
  }

  lemma {:induction false} PendingIsSlotless(owner: Owner, nodes: seq<NodeState>)
    requires InSpace(owner) && forall i :: 0 <= i < |nodes| ==> nodes[i].slots == []
    ensures Group(Scrape(owner, nodes)).pending == Slotless(owner, Primaries(nodes))
  {
    if nodes == [] {
    } else {
      hide Group, Slotless, ScrapeNode, OwnedSet;
      var last, front := nodes[|nodes| - 1], nodes[..|nodes| - 1];
      PendingIsSlotless(owner, front);
      ScrapeSnoc(owner, nodes);
      PendingSnoc(Scrape(owner, front), ScrapeNode(owner, last));
      PendingWhenSlotless(owner, last);
      SlotlessSnoc(owner, Primaries(front), last);
    }
  }

  lemma EligiblesSnoc(nodes: seq<NodeState>, n: NodeState, positions: Positions, iso: bool)
    ensures Eligibles(nodes + [n], positions, iso) ==
            if Eligible(n, positions, iso) then Eligibles(nodes, positions, iso) + [n]
                else Eligibles(nodes, positions, iso)
  {
    assert (nodes + [n])[..|nodes|] == nodes;
  }

  lemma {:induction false} EligiblesSlotless(owner: Owner, nodes: seq<NodeState>, positions: Positions, iso: bool)
    ensures Eligibles(Slotless(owner, nodes), positions, iso) == Slotless(owner, Eligibles(nodes, positions, iso))
  {
    if nodes == [] {
    } else {
      var last, front := nodes[|nodes| - 1], nodes[..|nodes| - 1];
      EligiblesSlotless(owner, front, positions, iso);
      SlotlessSnoc(owner, Eligibles(front, positions, iso), last);
      EligiblesSnoc(Slotless(owner, front), last, positions, iso);
    }
  }

  lemma {:induction false} SlotlessInsert(owner: Owner, n: NodeState, s: seq<NodeState>)
    requires Sorted(s, AddrLe)
    ensures Slotless(owner, Insert(n, s, AddrLe)) ==
            if OwnedSet(owner, n.id) == {} then Insert(n, Slotless(owner, s), AddrLe) else Slotless(owner, s)
  {
    hide OwnedSet, StringLe;
    if s == [] || AddrLe(n, s[0]) {
      SlotlessCons(owner, n, s);
      if Slotless(owner, s) != [] { BelowAll(owner, n, s); }
    } else {
      SlotlessInsert(owner, n, s[1..]);
      SlotlessInsertBehind(owner, n, s[0], s[1..]);
      assert s == [s[0]] + s[1..];
    }
  }

  lemma SlotlessInsertBehind(owner: Owner, n: NodeState, head: NodeState, rest: seq<NodeState>)
    requires !AddrLe(n, head)
    requires Slotless(owner, Insert(n, rest, AddrLe)) ==
             if OwnedSet(owner, n.id) == {} then Insert(n, Slotless(owner, rest), AddrLe) else Slotless(owner, rest)
    ensures Slotless(owner, Insert(n, [head] + rest, AddrLe)) ==
            if OwnedSet(owner, n.id) == {} then Insert(n, Slotless(owner, [head] + rest), AddrLe)
            else Slotless(owner, [head] + rest)
  {
    hide OwnedSet, Slotless, Insert;
    InsertBehind(n, head, rest);
    InsertBehind(n, head, Slotless(owner, rest));
    SlotlessCons(owner, head, Insert(n, rest, AddrLe));
    SlotlessCons(owner, head, rest);
  }

  lemma InsertBehind(n: NodeState, head: NodeState, rest: seq<NodeState>)
    requires !AddrLe(n, head)
    ensures Insert(n, [head] + rest, AddrLe) == [head] + Insert(n, rest, AddrLe)
  {
    assert ([head] + rest)[1..] == rest;
  }

  lemma SlotlessNil(owner: Owner)
    ensures Slotless(owner, []) == []
  {
  }

  lemma {:induction false} SlotlessSort(owner: Owner, s: seq<NodeState>)
    ensures Sort(Slotless(owner, s), AddrLe) == Slotless(owner, Sort(s, AddrLe))
  {
    hide TotalPreorder, Slotless, AddrLe;
    if s == [] {
      SlotlessNil(owner);
    } else {
      SlotlessSort(owner, s[1..]);
      AddrPreorder();
      SortSorts(s[1..], AddrLe);
      SlotlessInsert(owner, s[0], Sort(s[1..], AddrLe));
      assert s == [s[0]] + s[1..];
      SlotlessCons(owner, s[0], s[1..]);
      var rest := Slotless(owner, s[1..]);
      assert ([s[0]] + rest)[1..] == rest;
    }
  }

  /** The pass's pending list is the fixed list of eligible primaries, less those that own
      slots by now. */
  lemma ScrapedPending(owner: Owner, nodes: seq<NodeState>, positions: Positions, iso: bool)
    requires Scrapable(owner, nodes)
    ensures Sort(Eligibles(Group(Scrape(owner, nodes)).pending, positions, iso), AddrLe)
         == Slotless(owner, Sort(Eligibles(Primaries(nodes), positions, iso), AddrLe))
  {
    PendingIsSlotless(owner, nodes);
    EligiblesSlotless(owner, Primaries(nodes), positions, iso);
    SlotlessSort(owner, Eligibles(Primaries(nodes), positions, iso));
  }

  lemma BelowAll(owner: Owner, n: NodeState, s: seq<NodeState>)
    requires s != [] && Sorted(s, AddrLe) && AddrLe(n, s[0]) && Slotless(owner, s) != []
    ensures AddrLe(n, Slotless(owner, s)[0])
  {
    SlotlessMembers(owner, s);
    AddrPreorder();
    var m := Slotless(owner, s)[0];
    assert m in s;
    var k :| 0 <= k < |s| && s[k] == m;
    if k > 0 {
      assert AddrLe(s[0], s[k]);
      StringLeTransitive(n.addr, s[0].addr, m.addr);
    }
  }

  // ----- reconciling to the end

  /** The primaries bootstrap is to serve, whether they own slots yet or not. */
  function Candidates(nodes: seq<NodeState>, positions: Positions, shards: int, replicas: int): (r: seq<NodeState>) {
    Sort(Eligibles(Primaries(nodes), positions, shards == 1 && replicas == 0), AddrLe)
  }

  lemma ScrapedShardsWellFormed(owner: Owner, nodes: seq<NodeState>)
    requires Scrapable(owner, nodes)
    ensures forall sh :: sh in Group(Scrape(owner, nodes)).shards ==> WellFormed(sh.slots)
  {
    var scraped := Scrape(owner, nodes);
    HealthyScrape(owner, nodes);
    GroupEstablishesInv(scraped);
    GroupNodes(scraped);
    hide Group, Healthy, Coherent;
    var shards := Group(scraped).shards;
    forall sh | sh in shards ensures WellFormed(sh.slots) {
      var i :| 0 <= i < |shards| && shards[i] == sh;
      assert ShardInv(scraped, shards[i]);
      if sh.Primary().Some? {
        var k :| 0 <= k < |scraped| && scraped[k] == sh.Primary().value;
        SlotsOfFacts(owner, nodes[k].id);
      }
    }
  }

  /** What the pass splits, planned from a fresh scrape, is the list of unowned slots. */
  lemma ScrapedFree(owner: Owner, nodes: seq<NodeState>, unassigned: seq<SlotRange>)
    requires Scrapable(owner, nodes) && Canonical(unassigned)
    requires forall s: int ::
               Covers(unassigned, s) <==> 0 <= s < TOTAL_SLOTS && !OwnedByShard(Group(Scrape(owner, nodes)).shards, s)
    ensures Expand(unassigned) == Free(owner)
  {
    hide OwnedByShard, Group, Scrapable, Canonical;
    forall s: int ensures Covers(unassigned, s) <==> 0 <= s < TOTAL_SLOTS && s !in owner {
      ScrapedUnassigned(owner, nodes, s);
    }
    UnassignedIsFree(owner, unassigned);
  }

  lemma {:induction false} AssignKeeps(owner: Owner, ps: seq<NodeState>, chunks: seq<seq<SlotRange>>, k: nat, s: int)
    requires k <= |ps| == |chunks| && s in owner
    ensures s in AssignFirst(owner, ps, chunks, k) && AssignFirst(owner, ps, chunks, k)[s] == owner[s]
  {
    if k == 0 {
    } else {
      AssignKeeps(owner, ps, chunks, k - 1, s);
    }
  }

  /** Assigning gives slots of the chunks, to the listed primaries. */
  lemma {:induction false} AssignOrigin(owner: Owner, ps: seq<NodeState>, chunks: seq<seq<SlotRange>>, k: nat, s: int)
    requires k <= |ps| == |chunks| && s in AssignFirst(owner, ps, chunks, k) && s !in owner
    ensures exists i :: 0 <= i < k && ps[i].hasClient && s in Expand(chunks[i])
                && AssignFirst(owner, ps, chunks, k)[s] == ps[i].id
  {
    if k == 0 {
    } else if s in AssignFirst(owner, ps, chunks, k - 1) {
      AssignOrigin(owner, ps, chunks, k - 1, s);
    }
  }

  lemma CandidatesAreNodes(owner: Owner, nodes: seq<NodeState>, positions: Positions, shards: int, replicas: int)
    ensures forall p :: p in Slotless(owner, Candidates(nodes, positions, shards, replicas)) ==>
              p in nodes && p.IsPrimary()
  {
    var iso := shards == 1 && replicas == 0;
    SlotlessMembers(owner, Candidates(nodes, positions, shards, replicas));
    SortPermutes(Eligibles(Primaries(nodes), positions, iso), AddrLe);
    EligiblesMembers(Primaries(nodes), positions, iso);
    PrimariesMembers(nodes);
  }

  lemma NewlyAssigned(owner: Owner, ps: seq<NodeState>, k: nat, s: int)
    requires k <= |ps| && s !in owner && s in AssignFirst(owner, ps, EvenChunks(Free(owner), |ps|), k)
    ensures 0 <= s < TOTAL_SLOTS
    ensures exists p :: p in ps && p.id == AssignFirst(owner, ps, EvenChunks(Free(owner), |ps|), k)[s]
  {
    var free := Free(owner);
    FreeFacts(owner);
    hide Free, EvenChunks, AssignFirst, Expand, Chunk, Offset, ChunkSize, StrictlyIncreasing;
    AssignOrigin(owner, ps, EvenChunks(free, |ps|), k, s);
    var i :| 0 <= i < k && s in Expand(EvenChunks(free, |ps|)[i])
        && AssignFirst(owner, ps, EvenChunks(free, |ps|), k)[s] == ps[i].id;
    ChunkExact(free, |ps|, i);
    ChunkAfterPrefix(free, |ps|, i, s);
    assert ps[i] in ps;
  }

  lemma PassKeepsScrapable(owner: Owner, nodes: seq<NodeState>, positions: Positions, shards: int, replicas: int,
                           k: nat)
    requires Scrapable(owner, nodes)
    ensures Scrapable(Pass(owner, Candidates(nodes, positions, shards, replicas), k), nodes)
  {
    hide Candidates, Slotless, Healthy, EvenChunks, AssignFirst, Free;
    var cands := Candidates(nodes, positions, shards, replicas);
    var ps, owner' := Slotless(owner, cands), Pass(owner, cands, k);
    CandidatesAreNodes(owner, nodes, positions, shards, replicas);
    forall s | s in owner'
      ensures 0 <= s < TOTAL_SLOTS
      ensures exists i :: 0 <= i < |nodes| && nodes[i].IsPrimary() && nodes[i].id == owner'[s]
    {
      if s in owner {
        AssignKeeps(owner, ps, EvenChunks(Free(owner), |ps|), Min(k, |ps|), s);
      } else {
        NewlyAssigned(owner, ps, Min(k, |ps|), s);
        var p :| p in ps && p.id == owner'[s];
        assert p in nodes;
      }
    }
  }

  /** One reconcile pass: scrape, assemble, assign. It is the pass of the resumption results;
      the engine refuses none of its commands, so only a dropped command or a lost reply can cut
      it short. */
  method AssignPass(e: Engine, nodes: seq<NodeState>, positions: Positions, shards: int, replicas: int, t: Trouble)
    returns (count: nat, ok: bool, ghost k: nat)
    requires Scrapable(e.owner, nodes)
    modifies e`owner
    ensures var cands := Candidates(nodes, positions, shards, replicas);
            && e.owner == Pass(old(e.owner), cands, k)
            && (ok ==> e.owner == FullPass(old(e.owner), cands))
            && (Connected(cands) && !ok ==> CutShort(|cands|, k, t))
    ensures Scrapable(e.owner, nodes)
    ensures SeedsOnly(old(e.owner), e.owner, nodes, positions, shards == 1 && replicas == 0)
  {
    hide Scrapable, Candidates, Canonical, SlotRanges.WellFormed, Slotless, Free, EvenChunks, Connected, Seedable;
    hide Reached, Served, AssignFirst, Unheard;
    var scraped := Scrape(e.owner, nodes);
    AnsweredAll(scraped);
    var s := new ClusterState(Answered(scraped));
    ghost var unassigned, plans;
    count, ok, unassigned, plans, k := AssignSlotsToPendingPrimaries(e, s, positions, shards, replicas, t);
    ScrapedPass(old(e.owner), nodes, positions, shards, replicas, unassigned, plans, k, t, ok);
    PassKeepsScrapable(old(e.owner), nodes, positions, shards, replicas, k);
    SeedsAreNodes(old(e.owner), e.owner, nodes, positions, shards == 1 && replicas == 0);
  }

  /** Slots keep their owners, and new owners are connected primaries that may be given slots. */
  ghost predicate SeedsOnly(before: Owner, after: Owner, nodes: seq<NodeState>, positions: Positions, iso: bool) {
    && (forall s :: s in before ==> s in after && after[s] == before[s])
    && forall s :: s in after && s !in before ==>
         exists n :: n in nodes && n.id == after[s] && n.hasClient && n.role == Primary && Seedable(n, positions, iso)
  }

  lemma SeedsAreNodes(before: Owner, after: Owner, nodes: seq<NodeState>, positions: Positions, iso: bool)
    requires forall s :: s in before ==> s in after && after[s] == before[s]
    requires forall s :: s in after && s !in before ==>
               exists n :: n in Group(Scrape(before, nodes)).pending && n.hasClient && n.id == after[s]
                   && Seedable(n, positions, iso)
    ensures SeedsOnly(before, after, nodes, positions, iso)
  {
    var scraped := Scrape(before, nodes);
    GroupPlaces(scraped);
    hide Group;
    forall s | s in after && s !in before
      ensures exists n :: n in nodes && n.id == after[s] && n.hasClient && n.role == Primary
                  && Seedable(n, positions, iso)
    {
      var m :| m in Group(scraped).pending && m.hasClient && m.id == after[s] && Seedable(m, positions, iso);
      var k :| 0 <= k < |scraped| && scraped[k] == m;
      assert nodes[k] in nodes && m == ScrapeNode(before, nodes[k]);
    }
  }

  lemma SeedsCompose(a: Owner, b: Owner, c: Owner, nodes: seq<NodeState>, positions: Positions, iso: bool)
    requires SeedsOnly(a, b, nodes, positions, iso) && SeedsOnly(b, c, nodes, positions, iso)
    ensures SeedsOnly(a, c, nodes, positions, iso)
  {
    hide Seedable;
  }

  /** The trouble struck, before or after its command took effect. */
  predicate CutShort(n: nat, k: nat, t: Trouble) {
    t.at < n && t.wire != Intact && k == if t.wire == Dropped then t.at else t.at + 1
  }

  lemma ScrapedPass(owner: Owner, nodes: seq<NodeState>, positions: Positions, shards: int, replicas: int,
                    unassigned: seq<SlotRange>, plans: seq<seq<SlotRange>>, k: nat, t: Trouble, ok: bool)
    requires Scrapable(owner, nodes)
    requires var v, iso := Group(Scrape(owner, nodes)), shards == 1 && replicas == 0;
             var ps := Sort(Eligibles(v.pending, positions, iso), AddrLe);
             && (forall s: int :: Covers(unassigned, s) <==> 0 <= s < TOTAL_SLOTS && !OwnedByShard(v.shards, s))
             && ((forall sh :: sh in v.shards ==> WellFormed(sh.slots)) ==> Canonical(unassigned))
             && |plans| == |ps| && plans == EvenChunks(Expand(unassigned), |ps|)
             && Reached(owner, ps, plans, k, t, ok)
    ensures var cands, iso := Candidates(nodes, positions, shards, replicas), shards == 1 && replicas == 0;
            var ps := Sort(Eligibles(Group(Scrape(owner, nodes)).pending, positions, iso), AddrLe);
            && AssignFirst(owner, ps, plans, k) == Pass(owner, cands, k)
            && (ok ==> Pass(owner, cands, k) == FullPass(owner, cands))
            && (Connected(cands) && !ok ==> CutShort(|cands|, k, t))
  {
    hide Scrapable, Slotless, Free, EvenChunks, Connected, AssignFirst, Sort, Eligibles, Group, OwnedByShard;
    var cands := Candidates(nodes, positions, shards, replicas);
    var ps := Slotless(owner, cands);
    ScrapedPending(owner, nodes, positions, shards == 1 && replicas == 0);
    ScrapedShardsWellFormed(owner, nodes);
    ScrapedFree(owner, nodes, unassigned);
    if Connected(cands) && !ok {
      SlotlessConnected(owner, cands);
      FreeFacts(owner);
      if k < |ps| { AssignAccepted(owner, ps, Free(owner), k); }
      SlotlessShorter(owner, cands);
    }
  }

  lemma {:induction false} SlotlessShorter(owner: Owner, ps: seq<NodeState>)
    ensures |Slotless(owner, ps)| <= |ps|
  {
    if ps == [] {
    } else {
      SlotlessShorter(owner, ps[..|ps| - 1]);
    }
  }

  /** Reconcile through any number of passes, each cut short by a dropped command or a lost reply
      wherever `troubles` says, and one undisturbed pass at the end: the ownership is that of a
      single undisturbed pass. */
  method AssignUntilDone(e: Engine, nodes: seq<NodeState>, positions: Positions, shards: int, replicas: int,
                         troubles: seq<Trouble>)
    requires Scrapable(e.owner, nodes) && Connected(Candidates(nodes, positions, shards, replicas))
    modifies e`owner
    ensures e.owner == FullPass(old(e.owner), Candidates(nodes, positions, shards, replicas))
    ensures SeedsOnly(old(e.owner), e.owner, nodes, positions, shards == 1 && replicas == 0)
  {
    hide Scrapable, Candidates, Connected, Pass, FullPass, Seedable;
    ghost var cands := Candidates(nodes, positions, shards, replicas);
    for i := 0 to |troubles|
      invariant Scrapable(e.owner, nodes) && FullPass(e.owner, cands) == FullPass(old(e.owner), cands)
      invariant SeedsOnly(old(e.owner), e.owner, nodes, positions, shards == 1 && replicas == 0)
    {
      ghost var before := e.owner;
      var count, ok, k := AssignPass(e, nodes, positions, shards, replicas, troubles[i]);
      ResumeReachesSame(before, cands, k);
      SeedsCompose(old(e.owner), before, e.owner, nodes, positions, shards == 1 && replicas == 0);
    }
    ghost var before := e.owner;
    var count, ok, k := AssignPass(e, nodes, positions, shards, replicas, Trouble(0, Intact));
    SeedsCompose(old(e.owner), before, e.owner, nodes, positions, shards == 1 && replicas == 0);
  }
}
