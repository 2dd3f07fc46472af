/** Slot ownership as the engine holds it: a map from slot to primary node ID. A scrape
    reports, for each primary, the ranges of the slots it owns in ascending order. */
module Ownership {
  import opened Sorting
  import opened SlotRanges
  import opened EvenSplit
  import opened ClusterView
  import opened Planner

  type Owner = map<int, string>

  function OwnedSet(owner: Owner, id: string): (r: set<int>) {
    set s | s in owner && owner[s] == id
  }

  function OwnedIn(owner: Owner, id: string, slots: seq<int>): (r: seq<int>) {
    if slots == [] then []
    else
      var last := slots[|slots| - 1];
      OwnedIn(owner, id, slots[..|slots| - 1]) + (if last in owner && owner[last] == id then [last] else [])
  }

  /** The ranges CLUSTER NODES prints for one primary. */
  function SlotsOf(owner: Owner, id: string): (r: seq<SlotRange>) {
    Compact(OwnedIn(owner, id, AllSlots()))
  }

  ghost predicate InSpace(owner: Owner) { forall s :: s in owner ==> 0 <= s < TOTAL_SLOTS }

  lemma {:induction false} OwnedInFacts(owner: Owner, id: string, slots: seq<int>)
    requires StrictlyIncreasing(slots)
    ensures StrictlyIncreasing(OwnedIn(owner, id, slots))
    ensures forall s :: s in OwnedIn(owner, id, slots) <==> s in slots && s in owner && owner[s] == id
  {
    if slots == [] {
    } else {
      var last, front := slots[|slots| - 1], slots[..|slots| - 1];
      OwnedInFacts(owner, id, front);
      assert slots == front + [last];
      IncreasingConcat(OwnedIn(owner, id, front), [last], last - 1);
    }
  }

  lemma {:induction false} ListCard(s: seq<int>, S: set<int>)
    requires StrictlyIncreasing(s) && forall x :: x in s <==> x in S
    ensures |s| == |S|
  {
    if s == [] {
      assert forall x :: x in S ==> x in s;
    } else {
      var last, front := s[|s| - 1], s[..|s| - 1];
      assert s == front + [last];
      ListCard(front, S - {last});
    }
  }

  /** What a scrape reports about one primary: a normal form of exactly the slots it owns. */
  lemma SlotsOfFacts(owner: Owner, id: string)
    requires InSpace(owner)
    ensures Canonical(SlotsOf(owner, id))
    ensures forall s: int :: Covers(SlotsOf(owner, id), s) <==> s in OwnedSet(owner, id)
    ensures forall s :: s in Expand(SlotsOf(owner, id)) <==> s in OwnedSet(owner, id)
    ensures CountSlots(SlotsOf(owner, id)) == |OwnedSet(owner, id)|
  {
    AllSlotsFacts();
    OwnedInFacts(owner, id, AllSlots());
    var list := OwnedIn(owner, id, AllSlots());
    ListCard(list, OwnedSet(owner, id));
    CompactExpand(list);
    CompactCanonical(list);
    ExpandMembers(Compact(list));
    ExpandCount(Compact(list));
  }

  // ----- scrapes

  function ScrapeNode(owner: Owner, n: NodeState): (r: NodeState) {
    n.(slots := if n.IsPrimary() then SlotsOf(owner, n.id) else [])
  }

  function Scrape(owner: Owner, nodes: seq<NodeState>): (r: seq<NodeState>) {
    seq(|nodes|, i requires 0 <= i < |nodes| => ScrapeNode(owner, nodes[i]))
  }

  /** The fixed part of a healthy cluster: unique IDs and addresses, one primary per shard. */
  ghost predicate Healthy(nodes: seq<NodeState>) {
    && (forall i :: 0 <= i < |nodes| ==> nodes[i].id != "")
    && (forall i, j :: 0 <= i < j < |nodes| ==> nodes[i].id != nodes[j].id && nodes[i].addr != nodes[j].addr)
    && (forall i, j :: 0 <= i < j < |nodes| && nodes[i].IsPrimary() && nodes[j].IsPrimary() ==>
          nodes[i].shardID != nodes[j].shardID)
  }

  lemma HealthyScrape(owner: Owner, nodes: seq<NodeState>)
    requires Healthy(nodes)
    ensures Coherent(Scrape(owner, nodes)) && DistinctAddresses(Scrape(owner, nodes))
  {
  }

  lemma {:induction false} PrimariesScrape(owner: Owner, nodes: seq<NodeState>)
    ensures Primaries(Scrape(owner, nodes)) == Scrape(owner, Primaries(nodes))
  {
    if nodes == [] {
    } else {
      var front := nodes[..|nodes| - 1];
      PrimariesScrape(owner, front);
      assert Scrape(owner, nodes)[..|nodes| - 1] == Scrape(owner, front);
    }
  }

  lemma {:induction false} InsertScrape(owner: Owner, n: NodeState, s: seq<NodeState>)
    ensures Insert(ScrapeNode(owner, n), Scrape(owner, s), AddrLe) == Scrape(owner, Insert(n, s, AddrLe))
  {
    if s != [] && !AddrLe(n, s[0]) {
      InsertScrape(owner, n, s[1..]);
      assert Scrape(owner, s)[1..] == Scrape(owner, s[1..]);
    }
  }

  lemma {:induction false} SortScrape(owner: Owner, s: seq<NodeState>)
    ensures Sort(Scrape(owner, s), AddrLe) == Scrape(owner, Sort(s, AddrLe))
  {
    if s == [] {
    } else {
      SortScrape(owner, s[1..]);
      assert Scrape(owner, s)[1..] == Scrape(owner, s[1..]);
      InsertScrape(owner, s[0], Sort(s[1..], AddrLe));
    }
  }

  /** However ownership changes, and whichever primaries currently own nothing, planning
      always sees the same primaries in the same order. */
  lemma EffectiveScrape(owner: Owner, nodes: seq<NodeState>)
    requires Healthy(nodes)
    ensures Effective(Group(Scrape(owner, nodes))) == Scrape(owner, Sort(Primaries(nodes), AddrLe))
  {
    HealthyScrape(owner, nodes);
    EffectiveArePrimaries(Scrape(owner, nodes));
    PrimariesScrape(owner, nodes);
    SortScrape(owner, Primaries(nodes));
  }

  // ----- engine effects

  /** A completed CLUSTER MIGRATESLOTS. */
  ghost function ApplyMove(owner: Owner, m: Move): (r: Owner) {
    map s | s in owner :: if Covers(m.ranges, s) then m.dst else owner[s]
  }

  /** A CLUSTER ADDSLOTSRANGE the engine accepted. */
  function AddSlots(owner: Owner, id: string, ranges: seq<SlotRange>): (r: Owner) {
    AddSet(owner, id, set x | x in Expand(ranges))
  }

  function AddSet(owner: Owner, id: string, slots: set<int>): (r: Owner) {
    map s | s in owner.Keys + slots :: if s in owner then owner[s] else id
  }

  ghost predicate Unowned(owner: Owner, ranges: seq<SlotRange>) {
    forall s :: Covers(ranges, s) ==> s !in owner
  }

  lemma ApplyMoveSets(owner: Owner, m: Move)
    requires m.src != m.dst
    requires forall s: int :: Covers(m.ranges, s) ==> s in OwnedSet(owner, m.src)
    ensures ApplyMove(owner, m).Keys == owner.Keys
    ensures var moved := set s | s in OwnedSet(owner, m.src) && Covers(m.ranges, s);
            && OwnedSet(ApplyMove(owner, m), m.src) == OwnedSet(owner, m.src) - moved
            && OwnedSet(ApplyMove(owner, m), m.dst) == OwnedSet(owner, m.dst) + moved
    ensures forall id :: id != m.src && id != m.dst ==> OwnedSet(ApplyMove(owner, m), id) == OwnedSet(owner, id)
  {
  }

  /** A move of owned slots takes exactly its size from the source and gives it to the
      destination; every other node keeps what it has. */
  lemma ApplyMoveCounts(owner: Owner, m: Move)
    requires m.src != m.dst && Canonical(m.ranges)
    requires forall s: int :: Covers(m.ranges, s) ==> s in OwnedSet(owner, m.src)
    ensures |OwnedSet(ApplyMove(owner, m), m.src)| == |OwnedSet(owner, m.src)| - m.NumSlots()
    ensures |OwnedSet(ApplyMove(owner, m), m.dst)| == |OwnedSet(owner, m.dst)| + m.NumSlots()
    ensures forall id :: id != m.src && id != m.dst ==> OwnedSet(ApplyMove(owner, m), id) == OwnedSet(owner, id)
  {
    ApplyMoveSets(owner, m);
    var moved := set s | s in OwnedSet(owner, m.src) && Covers(m.ranges, s);
    CanonicalIncreasing(m.ranges);
    ExpandMembers(m.ranges);
    ExpandCount(m.ranges);
    ListCard(Expand(m.ranges), moved);
    assert moved <= OwnedSet(owner, m.src) && moved !! OwnedSet(owner, m.dst);
  }

  // ----- the even layout

  /** The first `k` shards each own their contiguous even-split range. */
  ghost function EvenOwner(ps: seq<NodeState>, k: nat): (r: Owner)
    requires k <= |ps|
  {
    if k == 0 then map[]
    else EvenOwner(ps, k - 1) + Filled(EvenRange(|ps|, k - 1), ps[k - 1].id)
  }

  function Filled(r: SlotRange, id: string): (out: Owner) {
    map s | s in Interval(r) :: id
  }

  lemma IntervalMembers(r: SlotRange)
    ensures forall s :: s in Interval(r) <==> r.Has(s)
  {
    forall s | r.Has(s) ensures s in Interval(r) { assert Interval(r)[s - r.start] == s; }
  }

  lemma {:induction false} EvenOwnerFacts(ps: seq<NodeState>, k: nat, s: int)
    requires k <= |ps| && ps != []
    ensures s in EvenOwner(ps, k) <==> 0 <= s < Offset(TOTAL_SLOTS, |ps|, k)
    ensures forall i :: 0 <= i < k && EvenRange(|ps|, i).Has(s) ==>
              s in EvenOwner(ps, k) && EvenOwner(ps, k)[s] == ps[i].id
    ensures s in EvenOwner(ps, k) ==> exists i :: 0 <= i < k && EvenRange(|ps|, i).Has(s)
  {
    hide Offset, Interval;
    if k == 0 {
      OffsetEnds(TOTAL_SLOTS, |ps|);
    } else {
      EvenOwnerFacts(ps, k - 1, s);
      IntervalMembers(EvenRange(|ps|, k - 1));
      OffsetMonotone(TOTAL_SLOTS, |ps|, k - 1, k);
      forall i | 0 <= i < k - 1 && EvenRange(|ps|, i).Has(s) ensures !EvenRange(|ps|, k - 1).Has(s) {
        OffsetMonotone(TOTAL_SLOTS, |ps|, i + 1, k - 1);
      }
      if EvenRange(|ps|, k - 1).Has(s) { OffsetMonotone(TOTAL_SLOTS, |ps|, 0, k - 1); }
    }
  }

  /** In the even layout each shard owns exactly its range, hence exactly its target. */
  lemma EvenOwnedSet(ps: seq<NodeState>, i: nat)
    requires i < |ps| && forall a, b :: 0 <= a < b < |ps| ==> ps[a].id != ps[b].id
    ensures forall s :: s in OwnedSet(EvenOwner(ps, |ps|), ps[i].id) <==> EvenRange(|ps|, i).Has(s)
    ensures |OwnedSet(EvenOwner(ps, |ps|), ps[i].id)| == Targets(|ps|)[i]
  {
    hide Offset, EvenOwner, Interval, ChunkSize;
    var owner, r := EvenOwner(ps, |ps|), EvenRange(|ps|, i);
    forall s ensures s in OwnedSet(owner, ps[i].id) <==> r.Has(s) { EvenOwnerFacts(ps, |ps|, s); }
    IntervalMembers(r);
    IntervalIncreasing(r);
    ListCard(Interval(r), OwnedSet(owner, ps[i].id));
    OffsetStep(TOTAL_SLOTS, |ps|, i);
  }

  lemma IntervalIncreasing(r: SlotRange)
    ensures StrictlyIncreasing(Interval(r))
    ensures |Interval(r)| == if r.end < r.start then 0 else r.Count()
  {
  }
}
