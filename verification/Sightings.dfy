/** What a scrape that need not have reached every node tells about slot ownership. */
module Sightings {
  import opened SlotRanges
  import opened ClusterView
  import opened Planner
  import opened Ownership

  /** Ownership that a scrape is true of: a scraped node owns exactly the slots it reports. */
  ghost predicate TrueOf(owner: Owner, nodes: seq<NodeState>) {
    && InSpace(owner)
    && forall n, s: int :: n in nodes ==> (s in OwnedSet(owner, n.id) <==> n.IsPrimary() && Covers(n.slots, s))
  }

  ghost predicate Reported(nodes: seq<NodeState>, s: int) {
    exists n :: n in nodes && n.IsPrimary() && Covers(n.slots, s)
  }

  /** Every slot is reported by a scraped primary. */
  ghost predicate AllReported(nodes: seq<NodeState>) {
    forall s: int :: 0 <= s < TOTAL_SLOTS ==> Reported(nodes, s)
  }

  ghost predicate IsScraped(nodes: seq<NodeState>, id: string) { exists n :: n in nodes && n.id == id }

  ghost predicate AllWellFormed(nodes: seq<NodeState>) { forall n :: n in nodes ==> WellFormed(n.slots) }

  /** The slot check finds nothing unassigned exactly when every slot is reported. */
  lemma NothingUnassignedIff(nodes: seq<NodeState>)
    requires Coherent(nodes) && AllWellFormed(nodes)
    ensures (forall s: int :: 0 <= s < TOTAL_SLOTS ==> OwnedByShard(Group(nodes).shards, s)) <==> AllReported(nodes)
  {
    forall s: int ensures OwnedByShard(Group(nodes).shards, s) <==> Reported(nodes, s) {
      ShardsOwnPrimariesSlots(nodes, s);
    }
  }

  lemma ReportedElsewhere(owner: Owner, nodes: seq<NodeState>, id: string)
    requires TrueOf(owner, nodes) && AllReported(nodes) && !IsScraped(nodes, id)
    ensures OwnedSet(owner, id) == {}
  {
    forall s | s in owner ensures owner[s] != id {
      assert Reported(nodes, s);
      var n :| n in nodes && n.IsPrimary() && Covers(n.slots, s);
      assert s in OwnedSet(owner, n.id);
    }
  }

  lemma MayOwn(owner: Owner, nodes: seq<NodeState>, id: string, s: int)
    requires TrueOf(owner, nodes) && !IsScraped(nodes, id) && 0 <= s < TOTAL_SLOTS && !Reported(nodes, s)
    ensures TrueOf(owner[s := id], nodes)
  {
    forall n, t: int | n in nodes
      ensures t in OwnedSet(owner[s := id], n.id) <==> n.IsPrimary() && Covers(n.slots, t)
    {
      assert t in OwnedSet(owner, n.id) <==> n.IsPrimary() && Covers(n.slots, t);
    }
  }

  /** A scraped node owns what it says. */
  lemma ScrapedOwns(owner: Owner, nodes: seq<NodeState>, n: NodeState)
    requires TrueOf(owner, nodes) && n in nodes && WellFormed(n.slots)
    ensures OwnsSlots(n) <==> OwnedSet(owner, n.id) != {}
  {
    CountPositive(n.slots);
    if OwnsSlots(n) {
      FirstSlot(n.slots);
      assert n.slots[0].start in OwnedSet(owner, n.id);
    } else {
      forall s ensures s !in OwnedSet(owner, n.id) {}
    }
  }

  /** The node `id` owns no slot in any ownership the scrape is true of if and only if, when it was
      scraped, it reports none, and when it was not, the others report them all. */
  lemma OwnsNothingIff(truth: Owner, nodes: seq<NodeState>, id: string)
    requires AllWellFormed(nodes) && TrueOf(truth, nodes)
    ensures (if IsScraped(nodes, id) then forall n :: n in nodes && n.id == id ==> !OwnsSlots(n)
             else AllReported(nodes)) <==>
            forall owner :: TrueOf(owner, nodes) ==> OwnedSet(owner, id) == {}
  {
    if IsScraped(nodes, id) {
      forall owner, n | TrueOf(owner, nodes) && n in nodes && n.id == id
        ensures OwnsSlots(n) <==> OwnedSet(owner, id) != {}
      {
        ScrapedOwns(owner, nodes, n);
      }
    } else if AllReported(nodes) {
      forall owner | TrueOf(owner, nodes) ensures OwnedSet(owner, id) == {} { ReportedElsewhere(owner, nodes, id); }
    } else {
      var s: int :| 0 <= s < TOTAL_SLOTS && !Reported(nodes, s);
      MayOwn(truth, nodes, id, s);
      assert s in OwnedSet(truth[s := id], id);
    }
  }
}
