/** Re-forming a restored cluster (restore_reform.go): every shard's seeded primary already
    owns some slots of its even-split range and is assigned the rest of that range. */
module RestoreReform {
  import opened SlotRanges
  import opened EvenSplit
  import opened ClusterView
  import opened Ownership
  import opened Engine
  import opened Positions

  // ----- one pass

  /** A node the pass acts on: connected and labelled primary of one of the shards. */
  predicate Resolved(positions: Positions, shards: nat, n: NodeState) {
    && n.hasClient && PositionFor(positions, n).Some? && PositionFor(positions, n).value.IsPrimary()
    && 0 <= PositionFor(positions, n).value.shard < shards
  }

  function ShardOf(positions: Positions, shards: nat, n: NodeState): (r: nat)
    requires Resolved(positions, shards, n)
  {
    PositionFor(positions, n).value.shard
  }

  /** The slots of a range that a node does not report as its own. */
  ghost function Gap(want: SlotRange, own: seq<SlotRange>): (r: set<int>) {
    set s | s in Interval(want) && !Covers(own, s)
  }

  /** Ownership after the first `k` scraped nodes have been handled. */
  ghost function Reform(owner: Owner, nodes: seq<NodeState>, positions: Positions, shards: nat, k: nat): (r: Owner)
    requires k <= |nodes|
  {
    if k == 0 then owner
    else
      var before, n := Reform(owner, nodes, positions, shards, k - 1), nodes[k - 1];
      if Resolved(positions, shards, n)
      then AddSet(before, n.id, Gap(EvenRange(shards, ShardOf(positions, shards, n)), n.slots))
      else before
  }

  ghost function GapOf(positions: Positions, shards: nat, n: NodeState): (r: set<int>) {
    if Resolved(positions, shards, n) then Gap(EvenRange(shards, ShardOf(positions, shards, n)), n.slots) else {}
  }

  ghost predicate Clear(owner: Owner, slots: set<int>) { forall s :: s in slots ==> s !in owner }

  /** The gap a node is to be sent can be assigned after the first `i` nodes. */
  ghost predicate Fits(owner: Owner, nodes: seq<NodeState>, positions: Positions, shards: nat, i: nat)
    requires i < |nodes|
  {
    Clear(Reform(owner, nodes, positions, shards, i), GapOf(positions, shards, nodes[i]))
  }

  /** The last command of a failed pass took effect although its reply was lost. */
  ghost predicate Unheard(nodes: seq<NodeState>, positions: Positions, shards: nat, k: nat, t: Trouble, ok: bool) {
    !ok && k == t.at + 1 <= |nodes| && t.wire == ReplyLost && GapOf(positions, shards, nodes[t.at]) != {}
  }

  /** The first `k` nodes have been handled, and the rest were not only because a command failed:
      it was struck by the trouble, or the engine refused a slot. */
  ghost predicate Reached(owner: Owner, nodes: seq<NodeState>, positions: Positions, shards: nat, k: nat, t: Trouble,
                          ok: bool) {
    && k <= |nodes|
    && (forall i :: 0 <= i < k && GapOf(positions, shards, nodes[i]) != {} ==> Fits(owner, nodes, positions, shards, i))
    && if Unheard(nodes, positions, shards, k, t, ok) then true
       else
         && (ok <==> k == |nodes|)
         && (forall i :: 0 <= i < k && GapOf(positions, shards, nodes[i]) != {} ==> t.On(i) == Intact)
         && (!ok ==>
               && GapOf(positions, shards, nodes[k]) != {}
               && (t.On(k) == Dropped || !Fits(owner, nodes, positions, shards, k)))
  }

  /** `assignRestoreSlotRanges`. Shard labels are the operator's own, so not negative. */
  method AssignRestoreSlotRanges(e: Engine, s: ClusterState, positions: Positions, shards: nat, t: Trouble)
    returns (acted: bool, ok: bool, ghost k: nat)
    requires forall ip :: ip in positions ==> positions[ip].shard >= 0
    requires shards <= TOTAL_SLOTS
    modifies e`owner
    ensures Reached(old(e.owner), s.nodes, positions, shards, k, t, ok)
    ensures e.owner == Reform(old(e.owner), s.nodes, positions, shards, k)
    ensures acted <==> ok && exists i :: 0 <= i < |s.nodes| && GapOf(positions, shards, s.nodes[i]) != {}
    ensures acted <==> ok && exists n, slot :: n in s.nodes && Lacks(n, positions, shards, slot)
    ensures FillsOnly(old(e.owner), e.owner, s.nodes, positions, shards)
    ensures ok ==> FillsAll(e.owner, s.nodes, positions, shards)
  {
    acted, ok, k := FillEach(e, s.nodes, positions, shards, t);
    ReformFillsOnly(old(e.owner), s.nodes, positions, shards, k);
    if ok { ReformFillsAll(old(e.owner), s.nodes, positions, shards); }
    SomethingLacks(s.nodes, positions, shards);
  }

  lemma Pick<T>(slots: set<T>) returns (slot: T)
    requires slots != {}
    ensures slot in slots
  {
    slot :| slot in slots;
  }

  lemma SomethingLacks(nodes: seq<NodeState>, positions: Positions, shards: nat)
    ensures (exists i :: 0 <= i < |nodes| && GapOf(positions, shards, nodes[i]) != {}) <==>
            exists n, slot :: n in nodes && Lacks(n, positions, shards, slot)
  {
    hide Lacks, GapOf;
    forall n, slot | n in nodes ensures slot in GapOf(positions, shards, n) <==> Lacks(n, positions, shards, slot) {
      GapLacks(n, positions, shards, slot);
    }
    if i :| 0 <= i < |nodes| && GapOf(positions, shards, nodes[i]) != {} {
      var slot := Pick(GapOf(positions, shards, nodes[i]));
      assert nodes[i] in nodes && Lacks(nodes[i], positions, shards, slot);
    }
  }

  /** The node is connected, sits at node index 0 of one of the shards, and does not report this
      slot of the shard's range. */
  ghost predicate Lacks(n: NodeState, positions: Positions, shards: nat, s: int) {
    && n.hasClient && TrimPort(n.addr) in positions
    && var p := positions[TrimPort(n.addr)];
       p.node == 0 && 0 <= p.shard < shards && EvenRange(shards, p.shard).Has(s) && !Covers(n.slots, s)
  }

  /** Slots keep their owners, and a new owner is a node that lacked the slot. */
  ghost predicate FillsOnly(before: Owner, after: Owner, nodes: seq<NodeState>, positions: Positions, shards: nat) {
    && (forall s :: s in before ==> s in after && after[s] == before[s])
    && forall s :: s in after && s !in before ==>
         exists n :: n in nodes && Lacks(n, positions, shards, s) && n.id == after[s]
  }

  /** Every node owns every slot it lacked. */
  ghost predicate FillsAll(after: Owner, nodes: seq<NodeState>, positions: Positions, shards: nat) {
    forall n, s :: n in nodes && Lacks(n, positions, shards, s) ==> s in after && after[s] == n.id
  }

  lemma GapLacks(n: NodeState, positions: Positions, shards: nat, s: int)
    ensures s in GapOf(positions, shards, n) <==> Lacks(n, positions, shards, s)
  {
    if Resolved(positions, shards, n) { IntervalMembers(EvenRange(shards, ShardOf(positions, shards, n))); }
    hide EvenRange, Interval;
  }

  lemma {:induction false} ReformFillsOnly(owner: Owner, nodes: seq<NodeState>, positions: Positions, shards: nat,
                                           k: nat)
    requires k <= |nodes|
    ensures FillsOnly(owner, Reform(owner, nodes, positions, shards, k), nodes, positions, shards)
  {
    hide Lacks, Gap, EvenRange;
    if k == 0 {
    } else {
      ReformFillsOnly(owner, nodes, positions, shards, k - 1);
      var n := nodes[k - 1];
      assert n in nodes;
      forall s ensures s in GapOf(positions, shards, n) <==> Lacks(n, positions, shards, s) {
        GapLacks(n, positions, shards, s);
      }
    }
  }

  lemma {:induction false} ReformGives(owner: Owner, nodes: seq<NodeState>, positions: Positions, shards: nat, k: nat,
                                       i: nat, s: int)
    requires i < k <= |nodes| && s in GapOf(positions, shards, nodes[i]) && Fits(owner, nodes, positions, shards, i)
    ensures s in Reform(owner, nodes, positions, shards, k)
    ensures Reform(owner, nodes, positions, shards, k)[s] == nodes[i].id
  {
    hide Gap, EvenRange;
    if k == i + 1 {
    } else {
      ReformGives(owner, nodes, positions, shards, k - 1, i, s);
    }
  }

  lemma ReformFillsAll(owner: Owner, nodes: seq<NodeState>, positions: Positions, shards: nat)
    requires forall i :: 0 <= i < |nodes| && GapOf(positions, shards, nodes[i]) != {} ==>
               Fits(owner, nodes, positions, shards, i)
    ensures FillsAll(Reform(owner, nodes, positions, shards, |nodes|), nodes, positions, shards)
  {
    hide Lacks, GapOf, Fits, Reform;
    forall n, s | n in nodes && Lacks(n, positions, shards, s)
      ensures s in Reform(owner, nodes, positions, shards, |nodes|)
                && Reform(owner, nodes, positions, shards, |nodes|)[s] == n.id
    {
      var i :| 0 <= i < |nodes| && nodes[i] == n;
      GapLacks(n, positions, shards, s);
      ReformGives(owner, nodes, positions, shards, |nodes|, i, s);
    }
  }

  method FillEach(e: Engine, nodes: seq<NodeState>, positions: Positions, shards: nat, t: Trouble)
    returns (acted: bool, ok: bool, ghost k: nat)
    requires (forall ip :: ip in positions ==> positions[ip].shard >= 0) && shards <= TOTAL_SLOTS
    modifies e`owner
    ensures Reached(old(e.owner), nodes, positions, shards, k, t, ok)
    ensures e.owner == Reform(old(e.owner), nodes, positions, shards, k)
    ensures acted <==> ok && exists i :: 0 <= i < |nodes| && GapOf(positions, shards, nodes[i]) != {}
  {
    hide GapOf, Clear, AddSet, EvenRange, Gap, PositionFor;
    acted := false;
    var ranges := EvenSplitRanges(shards);
    for i := 0 to |nodes|
      invariant e.owner == Reform(old(e.owner), nodes, positions, shards, i)
      invariant acted <==> exists j :: 0 <= j < i && GapOf(positions, shards, nodes[j]) != {}
      invariant forall j :: 0 <= j < i && GapOf(positions, shards, nodes[j]) != {} ==>
                  t.On(j) == Intact && Fits(old(e.owner), nodes, positions, shards, j)
    {
      ghost var accepted := t.On(i) == ReplyLost && Fits(old(e.owner), nodes, positions, shards, i);
      var fill := FillGap(e, nodes[i], positions, shards, ranges, t.On(i));
      if fill == Broken {
        return false, false, if accepted then i + 1 else i;
      }
      acted := acted || fill == Filled;
    }
    return acted, true, |nodes|;
  }

  datatype Fill = Skipped | Filled | Broken

  /** One node of the pass. */
  method FillGap(e: Engine, n: NodeState, positions: Positions, shards: nat, ranges: seq<SlotRange>, wire: Wire)
    returns (fill: Fill)
    requires (forall ip :: ip in positions ==> positions[ip].shard >= 0) && shards <= TOTAL_SLOTS
    requires |ranges| == shards && forall i :: 0 <= i < shards ==> ranges[i] == EvenRange(shards, i)
    modifies e`owner
    ensures fill == (if GapOf(positions, shards, n) == {} then Skipped
                     else if wire != Intact || !Clear(old(e.owner), GapOf(positions, shards, n)) then Broken
                     else Filled)
    ensures var gap := GapOf(positions, shards, n);
            e.owner == if Resolved(positions, shards, n) && (gap == {} || (wire != Dropped && Clear(old(e.owner), gap)))
                       then AddSet(old(e.owner), n.id, Gap(EvenRange(shards, ShardOf(positions, shards, n)), n.slots))
                       else old(e.owner)
  {
    hide Gap, EvenRange, AddSet;
    var pos := PositionFor(positions, n);
    if !n.hasClient || pos.None? || !pos.value.IsPrimary() || pos.value.shard >= |ranges| {
      return Skipped;
    }
    var want := ranges[pos.value.shard];
    var gap := SubtractRanges([want], n.slots);
    WellFormedRange(shards, pos.value.shard);
    GapIs(want, n.slots, gap);
    if |gap| == 0 {
      AddEmpty(e.owner, n.id);
      return Skipped;
    }
    GapUnowned(e.owner, want, n.slots, gap);
    var reply := e.AddSlotsRange(n.id, gap, wire);
    return if reply == Accepted then Filled else Broken;
  }

  lemma WellFormedRange(n: nat, i: nat)
    requires i < n <= TOTAL_SLOTS
    ensures EvenRange(n, i).WellFormed()
  {
    ChunkNonEmpty(TOTAL_SLOTS, n, i);
    OffsetStep(TOTAL_SLOTS, n, i);
  }

  lemma GapUnowned(owner: Owner, want: SlotRange, own: seq<SlotRange>, gap: seq<SlotRange>)
    requires (set x | x in Expand(gap)) == Gap(want, own)
    ensures Unowned(owner, gap) <==> Clear(owner, Gap(want, own))
  {
    ExpandMembers(gap);
    assert forall s :: s in Expand(gap) <==> s in Gap(want, own);
  }

  lemma GapIs(want: SlotRange, own: seq<SlotRange>, gap: seq<SlotRange>)
    requires forall s: int :: Covers(gap, s) <==> Covers([want], s) && !Covers(own, s)
    ensures (set x | x in Expand(gap)) == Gap(want, own)
    ensures Canonical(gap) ==> (gap == [] <==> Gap(want, own) == {})
  {
    if Canonical(gap) { FirstSlot(gap); }
    ExpandMembers(gap);
    IntervalMembers(want);
    assert forall r :: r in [want] <==> r == want;
    forall s: int ensures s in Expand(gap) <==> s in Gap(want, own) {
      assert Covers([want], s) <==> want.Has(s);
    }
  }

  lemma AddEmpty(owner: Owner, id: string)
    ensures AddSet(owner, id, {}) == owner
  {
  }

  // ----- what passes achieve

  /** `ps[i]` is the primary of shard `i`, and the scraped nodes resolve to exactly these. */
  ghost predicate Layout(nodes: seq<NodeState>, positions: Positions, ps: seq<NodeState>) {
    && 1 <= |ps| <= TOTAL_SLOTS
    && (forall i, j :: 0 <= i < j < |ps| ==> ps[i].id != ps[j].id)
    && (forall k :: 0 <= k < |nodes| && Resolved(positions, |ps|, nodes[k]) ==>
          nodes[k].IsPrimary() && nodes[k].id == ps[ShardOf(positions, |ps|, nodes[k])].id)
    && (forall j, k ::
          0 <= j < k < |nodes| && Resolved(positions, |ps|, nodes[j]) && Resolved(positions, |ps|, nodes[k]) ==>
          ShardOf(positions, |ps|, nodes[j]) != ShardOf(positions, |ps|, nodes[k]))
    && (forall i :: 0 <= i < |ps| ==> Present(nodes, positions, |ps|, i))
  }

  ghost predicate Present(nodes: seq<NodeState>, positions: Positions, shards: nat, i: nat) {
    exists k :: 0 <= k < |nodes| && Resolved(positions, shards, nodes[k]) && ShardOf(positions, shards, nodes[k]) == i
  }

  /** Every owned slot belongs to the primary in whose even-split range it lies. */
  ghost predicate InPlace(owner: Owner, ps: seq<NodeState>) {
    forall s :: s in owner ==> exists i :: 0 <= i < |ps| && owner[s] == ps[i].id && EvenRange(|ps|, i).Has(s)
  }

  lemma RangesDisjoint(n: nat, i: nat, j: nat, s: int)
    requires i < n && j < n && EvenRange(n, i).Has(s) && EvenRange(n, j).Has(s)
    ensures i == j
  {
    hide Offset;
    if i < j { OffsetMonotone(TOTAL_SLOTS, n, i + 1, j); }
    if j < i { OffsetMonotone(TOTAL_SLOTS, n, j + 1, i); }
  }

  lemma RangeInSpace(n: nat, i: nat, s: int)
    requires i < n && EvenRange(n, i).Has(s)
    ensures 0 <= s < TOTAL_SLOTS
  {
    OffsetBound(TOTAL_SLOTS, n, i + 1);
    hide Offset;
  }

  lemma InPlaceInSpace(owner: Owner, ps: seq<NodeState>)
    requires InPlace(owner, ps) && ps != []
    ensures InSpace(owner)
  {
    forall s | s in owner ensures 0 <= s < TOTAL_SLOTS {
      var i :| 0 <= i < |ps| && owner[s] == ps[i].id && EvenRange(|ps|, i).Has(s);
      RangeInSpace(|ps|, i, s);
    }
  }

  /** The gap of one node in a fresh scrape: the part of its range it does not own. */
  lemma ScrapedGap(owner: Owner, n: NodeState, want: SlotRange, s: int)
    requires InSpace(owner) && n.IsPrimary()
    ensures s in Gap(want, ScrapeNode(owner, n).slots) <==> want.Has(s) && s !in OwnedSet(owner, n.id)
  {
    IntervalMembers(want);
    SlotsOfFacts(owner, n.id);
  }

  ghost predicate Handled(nodes: seq<NodeState>, positions: Positions, shards: nat, k: nat, s: int)
    requires k <= |nodes| && shards > 0
  {
    exists j :: 0 <= j < k && Resolved(positions, shards, nodes[j])
                && EvenRange(shards, ShardOf(positions, shards, nodes[j])).Has(s)
  }

  ghost predicate RightOwner(owner: Owner, ps: seq<NodeState>, s: int) {
    forall i :: 0 <= i < |ps| && EvenRange(|ps|, i).Has(s) ==> s in owner && owner[s] == ps[i].id
  }

  /** Ownership slot by slot after `k` nodes of a fresh scrape: what was owned stays, and the
      ranges handled so far are filled by their own primaries. */
  lemma {:induction false} ReformFacts(owner: Owner, nodes: seq<NodeState>, positions: Positions, ps: seq<NodeState>,
                                       k: nat, s: int)
    requires Layout(nodes, positions, ps) && InPlace(owner, ps) && k <= |nodes|
    ensures var owner' := Reform(owner, Scrape(owner, nodes), positions, |ps|, k);
            && (s in owner' <==> s in owner || Handled(nodes, positions, |ps|, k, s))
            && (s in owner' ==> RightOwner(owner', ps, s) && exists i :: 0 <= i < |ps| && EvenRange(|ps|, i).Has(s))
  {
    hide EvenRange, Gap;
    var scraped := Scrape(owner, nodes);
    if k == 0 {
      if s in owner { PlacedRight(owner, ps, s); }
    } else {
      ReformFacts(owner, nodes, positions, ps, k - 1, s);
      var n, before := nodes[k - 1], Reform(owner, scraped, positions, |ps|, k - 1);
      assert scraped[k - 1] == ScrapeNode(owner, n);
      if Resolved(positions, |ps|, n) {
        var i := ShardOf(positions, |ps|, n);
        InPlaceInSpace(owner, ps);
        ScrapedGap(owner, n, EvenRange(|ps|, i), s);
        if s in owner { PlacedRight(owner, ps, s); }
        if EvenRange(|ps|, i).Has(s) {
          forall j | 0 <= j < |ps| && EvenRange(|ps|, j).Has(s) ensures j == i { RangesDisjoint(|ps|, i, j, s); }
        }
      }
    }
  }

  lemma PlacedRight(owner: Owner, ps: seq<NodeState>, s: int)
    requires InPlace(owner, ps) && s in owner
    ensures RightOwner(owner, ps, s) && exists i :: 0 <= i < |ps| && EvenRange(|ps|, i).Has(s)
  {
    var i :| 0 <= i < |ps| && owner[s] == ps[i].id && EvenRange(|ps|, i).Has(s);
    forall j | 0 <= j < |ps| && EvenRange(|ps|, j).Has(s) ensures j == i { RangesDisjoint(|ps|, i, j, s); }
  }

  /** Every ADDSLOTSRANGE of a pass asks only for unowned slots, so the engine accepts it. */
  lemma ReformAccepted(owner: Owner, nodes: seq<NodeState>, positions: Positions, ps: seq<NodeState>, k: nat)
    requires Layout(nodes, positions, ps) && InPlace(owner, ps) && k < |nodes| && Resolved(positions, |ps|, nodes[k])
    ensures var scraped := Scrape(owner, nodes);
            var gap := Gap(EvenRange(|ps|, ShardOf(positions, |ps|, nodes[k])), scraped[k].slots);
            forall s :: s in gap ==> s !in Reform(owner, scraped, positions, |ps|, k)
  {
    hide Offset, Reform;
    var scraped, i := Scrape(owner, nodes), ShardOf(positions, |ps|, nodes[k]);
    InPlaceInSpace(owner, ps);
    forall s | s in Gap(EvenRange(|ps|, i), scraped[k].slots) ensures s !in Reform(owner, scraped, positions, |ps|, k) {
      ScrapedGap(owner, nodes[k], EvenRange(|ps|, i), s);
      ReformFacts(owner, nodes, positions, ps, k, s);
      if s in owner { PlacedRight(owner, ps, s); }
      NotHandledBefore(nodes, positions, ps, k, s);
    }
  }

  lemma NotHandledBefore(nodes: seq<NodeState>, positions: Positions, ps: seq<NodeState>, k: nat, s: int)
    requires Layout(nodes, positions, ps) && k < |nodes| && Resolved(positions, |ps|, nodes[k])
    requires EvenRange(|ps|, ShardOf(positions, |ps|, nodes[k])).Has(s)
    ensures !Handled(nodes, positions, |ps|, k, s)
  {
    hide Offset;
    forall j | 0 <= j < k && Resolved(positions, |ps|, nodes[j])
      ensures !EvenRange(|ps|, ShardOf(positions, |ps|, nodes[j])).Has(s)
    {
      var a, b := ShardOf(positions, |ps|, nodes[j]), ShardOf(positions, |ps|, nodes[k]);
      assert a != b;
      if EvenRange(|ps|, a).Has(s) { RangesDisjoint(|ps|, a, b, s); }
    }
  }

  /** A pass that stops anywhere leaves every slot in its own shard's range. */
  lemma ReformKeepsInPlace(owner: Owner, nodes: seq<NodeState>, positions: Positions, ps: seq<NodeState>, k: nat)
    requires Layout(nodes, positions, ps) && InPlace(owner, ps) && k <= |nodes|
    ensures InPlace(Reform(owner, Scrape(owner, nodes), positions, |ps|, k), ps)
  {
    hide Offset, Reform;
    var owner' := Reform(owner, Scrape(owner, nodes), positions, |ps|, k);
    forall s | s in owner'
      ensures exists i :: 0 <= i < |ps| && owner'[s] == ps[i].id && EvenRange(|ps|, i).Has(s)
    {
      ReformFacts(owner, nodes, positions, ps, k, s);
    }
  }

  /** A complete pass ends in the even layout of all 16384 slots, whatever the seeds had claimed. */
  lemma FullReform(owner: Owner, nodes: seq<NodeState>, positions: Positions, ps: seq<NodeState>)
    requires Layout(nodes, positions, ps) && InPlace(owner, ps)
    ensures Reform(owner, Scrape(owner, nodes), positions, |ps|, |nodes|) == EvenOwner(ps, |ps|)
  {
    hide Offset, Reform, EvenOwner;
    var a, b := Reform(owner, Scrape(owner, nodes), positions, |ps|, |nodes|), EvenOwner(ps, |ps|);
    forall s: int ensures (s in a <==> s in b) && (s in a ==> a[s] == b[s]) {
      ReformFacts(owner, nodes, positions, ps, |nodes|, s);
      EvenOwnerFacts(ps, |ps|, s);
      forall i | 0 <= i < |ps| && EvenRange(|ps|, i).Has(s) ensures Handled(nodes, positions, |ps|, |nodes|, s) {
        assert Present(nodes, positions, |ps|, i);
      }
    }
    assert a.Keys == b.Keys;
  }

  /** Ownership after a sequence of passes, each planned from a fresh scrape and cut off. */
  ghost function Reforms(owner: Owner, nodes: seq<NodeState>, positions: Positions, shards: nat,
                         stops: seq<nat>): (r: Owner)
    requires forall i :: 0 <= i < |stops| ==> stops[i] <= |nodes|
    decreases |stops|
  {
    if stops == [] then owner
    else Reforms(Reform(owner, Scrape(owner, nodes), positions, shards, stops[0]), nodes, positions, shards, stops[1..])
  }

  /** However often the re-form is interrupted, and wherever, a complete pass then ends in the
      even layout. */
  lemma {:induction false} ReformResumes(owner: Owner, nodes: seq<NodeState>, positions: Positions, ps: seq<NodeState>,
                                         stops: seq<nat>)
    requires Layout(nodes, positions, ps) && InPlace(owner, ps) && forall i :: 0 <= i < |stops| ==> stops[i] <= |nodes|
    ensures var stopped := Reforms(owner, nodes, positions, |ps|, stops);
            && InPlace(stopped, ps)
            && Reform(stopped, Scrape(stopped, nodes), positions, |ps|, |nodes|)
            == Reform(owner, Scrape(owner, nodes), positions, |ps|, |nodes|)
            == EvenOwner(ps, |ps|)
    decreases |stops|
  {
    hide Layout, InPlace, Reform, EvenOwner;
    FullReform(owner, nodes, positions, ps);
    if stops == [] {
    } else {
      ReformKeepsInPlace(owner, nodes, positions, ps, stops[0]);
      ReformResumes(Reform(owner, Scrape(owner, nodes), positions, |ps|, stops[0]), nodes, positions, ps, stops[1..]);
    }
  }
}
