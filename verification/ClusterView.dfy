/** The assembled view of a scraped cluster (pkg/valkey/state.go and the shard
    selections of pkg/valkey/topology.go). */
module ClusterView {
  import opened Sorting
  import opened SlotRanges

  datatype Option<+T> = None | Some(value: T)

  datatype Role = Primary | Replica

  datatype PeerView = PeerView(id: string, flags: seq<string>, primaryID: string)

  datatype NodeState = NodeState(
    id: string, shardID: string, addr: string, flags: seq<string>, primaryID: string, linkUp: bool,
    role: Role, offset: int, slots: seq<SlotRange>, knownNodes: int, clusterSize: int,
    peers: map<string, PeerView>, hasClient: bool)
  {
    predicate IsPrimary() { role == Primary }
    predicate IsReplica() { role == Replica }
    function NumSlots(): (r: int) { CountSlots(slots) }
    predicate IsPending() { IsPrimary() && NumSlots() == 0 }
    predicate IsIsolated() { knownNodes <= 1 }
  }

  datatype ShardState = ShardState(id: string, primaryID: string, slots: seq<SlotRange>, nodes: seq<NodeState>) {
    /** The first node carrying the shard's primary ID. */
    function Primary(): (r: Option<NodeState>) { FindID(nodes, primaryID) }
  }

  datatype View = View(nodes: seq<NodeState>, shards: seq<ShardState>, pending: seq<NodeState>)

  function FindID(nodes: seq<NodeState>, id: string): (r: Option<NodeState>) {
    if nodes == [] then None
    else if nodes[0].id == id then Some(nodes[0])
    else FindID(nodes[1..], id)
  }

  function FindShard(shards: seq<ShardState>, id: string): (r: nat) {
    if shards == [] || shards[0].id == id then 0 else 1 + FindShard(shards[1..], id)
  }

  lemma {:induction false} FindShardFacts(shards: seq<ShardState>, id: string)
    ensures FindShard(shards, id) <= |shards|
    ensures forall k :: 0 <= k < FindShard(shards, id) ==> shards[k].id != id
    ensures FindShard(shards, id) < |shards| ==> shards[FindShard(shards, id)].id == id
  {
    if shards != [] && shards[0].id != id { FindShardFacts(shards[1..], id); }
  }

  // ----- grouping, as a fold over the scraped nodes

  function JoinShard(sh: ShardState, n: NodeState): (r: ShardState) {
    var sh' := sh.(nodes := sh.nodes + [n]);
    if n.IsPrimary() then sh'.(primaryID := n.id, slots := n.slots) else sh'
  }

  function GroupStep(v: View, n: NodeState): (r: View) {
    FindShardFacts(v.shards, n.shardID);
    if n.IsPending() then View(v.nodes + [n], v.shards, v.pending + [n])
    else
      var i := FindShard(v.shards, n.shardID);
      var shards := if i < |v.shards| then v.shards else v.shards + [ShardState(n.shardID, "", [], [])];
      View(v.nodes + [n], shards[i := JoinShard(shards[i], n)], v.pending)
  }

  function Group(nodes: seq<NodeState>): (r: View) {
    if nodes == [] then View([], [], []) else GroupStep(Group(nodes[..|nodes| - 1]), nodes[|nodes| - 1])
  }

  function NonNil(nodes: seq<Option<NodeState>>): (r: seq<NodeState>) {
    if nodes == [] then []
    else
      var before := NonNil(nodes[..|nodes| - 1]);
      match nodes[|nodes| - 1] case Some(n) => before + [n] case None => before
  }

  /** Every node answered its dial. */
  function Answered(nodes: seq<NodeState>): (r: seq<Option<NodeState>>) {
    seq(|nodes|, i requires 0 <= i < |nodes| => Some(nodes[i]))
  }

  lemma {:induction false} AnsweredAll(nodes: seq<NodeState>)
    ensures NonNil(Answered(nodes)) == nodes
  {
    if nodes == [] {
    } else {
      var n := |nodes| - 1;
      AnsweredAll(nodes[..n]);
      assert Answered(nodes)[..n] == Answered(nodes[..n]);
    }
  }

  function ByID(nodes: seq<NodeState>): (r: map<string, NodeState>) {
    if nodes == [] then map[]
    else
      var m, n := ByID(nodes[..|nodes| - 1]), nodes[|nodes| - 1];
      if n.id != "" then m[n.id := n] else m
  }

  function ByAddr(nodes: seq<NodeState>): (r: map<string, NodeState>) {
    if nodes == [] then map[]
    else
      var m, n := ByAddr(nodes[..|nodes| - 1]), nodes[|nodes| - 1];
      if n.addr != "" then m[n.addr := n] else m
  }

  /** The mutable assembly: one pass builds the flat list and the indexes, a second pass
      groups the nodes, creating shards on first sight. */
  class ClusterState {
    var nodes: seq<NodeState>
    var shards: seq<ShardState>
    var pendingNodes: seq<NodeState>
    var byID: map<string, NodeState>
    var byAddr: map<string, NodeState>

    function AsView(): (r: View)
      reads this
    {
      View(nodes, shards, pendingNodes)
    }

    constructor (scraped: seq<Option<NodeState>>)
      ensures AsView() == Group(NonNil(scraped))
      ensures nodes == NonNil(scraped) && byID == ByID(nodes) && byAddr == ByAddr(nodes)
    {
      nodes, shards, pendingNodes, byID, byAddr := [], [], [], map[], map[];
      new;
      Index(scraped);
      GroupShards();
    }

    /** The flat list and the indexes; an unreachable node leaves no entry. */
    method Index(scraped: seq<Option<NodeState>>)
      requires nodes == [] && byID == map[] && byAddr == map[]
      modifies this
      ensures nodes == NonNil(scraped) && byID == ByID(nodes) && byAddr == ByAddr(nodes)
      ensures shards == old(shards) && pendingNodes == old(pendingNodes)
    {
      assert ByID([]) == map[] && ByAddr([]) == map[];
      assert NonNil(scraped[..0]) == [];
      hide ByID, ByAddr, NonNil;
      for i := 0 to |scraped|
        invariant nodes == NonNil(scraped[..i])
        invariant byID == ByID(nodes) && byAddr == ByAddr(nodes)
        invariant shards == old(shards) && pendingNodes == old(pendingNodes)
      {
        NonNilSnoc(scraped, i);
        if scraped[i].None? {
          continue;
        }
        var n := scraped[i].value;
        IndexSnoc(nodes, n);
        nodes := nodes + [n];
        if n.id != "" {
          byID := byID[n.id := n];
        }
        if n.addr != "" {
          byAddr := byAddr[n.addr := n];
        }
      }
      assert scraped[..|scraped|] == scraped;
    }

    method GroupShards()
      requires shards == [] && pendingNodes == []
      modifies this
      ensures AsView() == Group(nodes)
      ensures nodes == old(nodes) && byID == old(byID) && byAddr == old(byAddr)
    {
      hide Group;
      var all := nodes;
      GroupEmpty(all[..0]);
      for i := 0 to |all|
        invariant nodes == all && byID == old(byID) && byAddr == old(byAddr)
        invariant View(all[..i], shards, pendingNodes) == Group(all[..i])
      {
        var n := all[i];
        GroupSnoc(all, i);
        if n.IsPrimary() && n.NumSlots() == 0 {
          pendingNodes := pendingNodes + [n];
          continue;
        }
        var k := ShardFor(n.shardID);
        var sh := shards[k];
        sh := sh.(nodes := sh.nodes + [n]);
        if n.IsPrimary() {
          sh := sh.(primaryID := n.id, slots := n.slots);
        }
        shards := shards[k := sh];
      }
      assert all[..|all|] == all;
    }

    /** `shardFor`: the index of the shard with this ID, appended if it was absent. */
    method ShardFor(id: string) returns (k: nat)
      modifies this`shards
      ensures k == FindShard(old(shards), id) < |shards|
      ensures shards == if k < |old(shards)| then old(shards) else old(shards) + [ShardState(id, "", [], [])]
    {
      FindShardFacts(shards, id);
      k := FindShard(shards, id);
      if k < |shards| {
        return;
      }
      shards := shards + [ShardState(id, "", [], [])];
    }
  }

  /** What was scraped, in order, without the nodes that did not answer. */
  lemma {:induction false} NonNilFacts(nodes: seq<Option<NodeState>>)
    ensures forall n :: n in NonNil(nodes) <==> Some(n) in nodes
    ensures |NonNil(nodes)| <= |nodes| && (None !in nodes ==> |NonNil(nodes)| == |nodes|)
  {
    if nodes == [] {
    } else {
      NonNilFacts(nodes[..|nodes| - 1]);
      assert nodes == nodes[..|nodes| - 1] + [nodes[|nodes| - 1]];
    }
  }

  lemma NonNilSnoc(nodes: seq<Option<NodeState>>, i: nat)
    requires i < |nodes|
    ensures NonNil(nodes[..i + 1]) == if nodes[i].Some? then NonNil(nodes[..i]) + [nodes[i].value]
              else NonNil(nodes[..i])
  {
    assert nodes[..i + 1][..i] == nodes[..i];
  }

  lemma IndexSnoc(nodes: seq<NodeState>, n: NodeState)
    ensures ByID(nodes + [n]) == if n.id != "" then ByID(nodes)[n.id := n] else ByID(nodes)
    ensures ByAddr(nodes + [n]) == if n.addr != "" then ByAddr(nodes)[n.addr := n] else ByAddr(nodes)
  {
    assert (nodes + [n])[..|nodes|] == nodes;
  }

  lemma GroupEmpty(nodes: seq<NodeState>)
    requires nodes == []
    ensures Group(nodes) == View([], [], [])
  {
  }

  lemma GroupSnoc(nodes: seq<NodeState>, i: nat)
    requires i < |nodes|
    ensures nodes[..i + 1] == nodes[..i] + [nodes[i]]
    ensures Group(nodes[..i + 1]) == GroupStep(Group(nodes[..i]), nodes[i])
  {
    assert nodes[..i + 1][..i] == nodes[..i];
  }

  lemma {:induction false} GroupNodes(nodes: seq<NodeState>)
    ensures Group(nodes).nodes == nodes
  {
    if nodes == [] {
    } else {
      GroupNodes(nodes[..|nodes| - 1]);
    }
  }

  // ----- effective shards

  predicate AddrLe(a: NodeState, b: NodeState) { StringLe(a.addr, b.addr) }

  function Primaries(nodes: seq<NodeState>): (r: seq<NodeState>) {
    if nodes == [] then []
    else
      var last, before := nodes[|nodes| - 1], Primaries(nodes[..|nodes| - 1]);
      if last.IsPrimary() then before + [last] else before
  }

  function ShardPrimaries(shards: seq<ShardState>): (r: seq<NodeState>) {
    if shards == [] then []
    else
      ShardPrimaries(shards[..|shards| - 1]) +
      (match shards[|shards| - 1].Primary() case Some(p) => [p] case None => [])
  }

  /** `effectiveShards`: the slot-owning primaries and the pending ones, by address. */
  method EffectiveShards(s: ClusterState) returns (out: seq<NodeState>)
    ensures out == Effective(s.AsView())
  {
    out := [];
    for i := 0 to |s.shards|
      invariant out == ShardPrimaries(s.shards[..i])
    {
      assert s.shards[..i + 1][..i] == s.shards[..i];
      match s.shards[i].Primary()
      case Some(p) => out := out + [p];
      case None =>
    }
    assert s.shards[..|s.shards|] == s.shards;
    ghost var owners := out;
    for i := 0 to |s.pendingNodes|
      invariant out == owners + Primaries(s.pendingNodes[..i])
    {
      assert s.pendingNodes[..i + 1][..i] == s.pendingNodes[..i];
      if s.pendingNodes[i].IsPrimary() {
        out := out + [s.pendingNodes[i]];
      }
    }
    assert s.pendingNodes[..|s.pendingNodes|] == s.pendingNodes;
    out := Sort(out, AddrLe);
  }

  function Effective(v: View): (r: seq<NodeState>) {
    Sort(ShardPrimaries(v.shards) + Primaries(v.pending), AddrLe)
  }

  /** What a healthy scrape satisfies: node IDs are present and unique, and no two
      slot-owning primaries claim the same shard. */
  ghost predicate Coherent(nodes: seq<NodeState>) {
    && (forall n :: n in nodes ==> n.id != "")
    && (forall i, j :: 0 <= i < j < |nodes| ==> nodes[i].id != nodes[j].id)
    && (forall a, b :: a in nodes && b in nodes && OwnsSlots(a) && OwnsSlots(b) && a.shardID == b.shardID ==> a == b)
  }

  predicate OwnsSlots(n: NodeState) { n.IsPrimary() && n.NumSlots() != 0 }

  /** How often a node is listed. */
  function Tally(s: seq<NodeState>, x: NodeState): (r: nat) { multiset(s)[x] }

  ghost predicate GroupInv(v: View) {
    && (forall i, j :: 0 <= i < j < |v.shards| ==> v.shards[i].id != v.shards[j].id)
    && (forall i :: 0 <= i < |v.shards| ==> ShardInv(v.nodes, v.shards[i]))
    && (forall x :: Tally(ShardPrimaries(v.shards), x) + Tally(Primaries(v.pending), x) == Tally(Primaries(v.nodes), x))
  }

  /** A shard has a primary exactly when one of its members owns slots, and that member is it. */
  ghost predicate ShardInv(nodes: seq<NodeState>, sh: ShardState) {
    && (forall n :: n in sh.nodes ==> n in nodes && n.shardID == sh.id)
    && match sh.Primary()
       case None => sh.primaryID == "" && sh.slots == [] && forall n :: n in sh.nodes ==> !n.IsPrimary()
       case Some(p) => p in sh.nodes && OwnsSlots(p) && sh.slots == p.slots
  }

  lemma {:induction false} FindIDFacts(nodes: seq<NodeState>, id: string)
    ensures match FindID(nodes, id)
            case Some(n) => exists k :: 0 <= k < |nodes| && nodes[k] == n && n.id == id
                                && forall j :: 0 <= j < k ==> nodes[j].id != id
            case None => forall n :: n in nodes ==> n.id != id
  {
    if nodes != [] && nodes[0].id != id {
      FindIDFacts(nodes[1..], id);
      if FindID(nodes, id).Some? {
        var k :| 0 <= k < |nodes[1..]| && nodes[1..][k] == FindID(nodes, id).value
            && forall j :: 0 <= j < k ==> nodes[1..][j].id != id;
        assert nodes[k + 1] == FindID(nodes, id).value;
        forall j | 0 <= j < k + 1 ensures nodes[j].id != id { assert j > 0 ==> nodes[j] == nodes[1..][j - 1]; }
      }
    }
  }

  lemma {:induction false} FindIDAppend(nodes: seq<NodeState>, n: NodeState, id: string)
    ensures FindID(nodes + [n], id) ==
            if FindID(nodes, id).Some? then FindID(nodes, id) else if n.id == id then Some(n) else None
  {
    if nodes == [] {
      assert nodes + [n] == [n];
    } else {
      assert (nodes + [n])[1..] == nodes[1..] + [n];
      FindIDAppend(nodes[1..], n, id);
    }
  }

  function PrimaryBag(sh: ShardState): (r: seq<NodeState>) {
    match sh.Primary() case Some(p) => [p] case None => []
  }

  lemma ShardPrimariesSnoc(shards: seq<ShardState>, x: NodeState)
    requires shards != []
    ensures Tally(ShardPrimaries(shards), x)
         == Tally(ShardPrimaries(shards[..|shards| - 1]), x) + Tally(PrimaryBag(shards[|shards| - 1]), x)
  {
  }

  lemma {:induction false} ShardPrimariesUpdate(shards: seq<ShardState>, i: nat, sh: ShardState, x: NodeState)
    requires i < |shards|
    ensures Tally(ShardPrimaries(shards[i := sh]), x) + Tally(PrimaryBag(shards[i]), x)
         == Tally(ShardPrimaries(shards), x) + Tally(PrimaryBag(sh), x)
  {
    hide ShardPrimaries, PrimaryBag, Tally;
    var n := |shards| - 1;
    ShardPrimariesSnoc(shards, x);
    ShardPrimariesSnoc(shards[i := sh], x);
    if i == n {
      assert shards[i := sh][..n] == shards[..n];
    } else {
      assert shards[i := sh][..n] == shards[..n][i := sh];
      ShardPrimariesUpdate(shards[..n], i, sh, x);
    }
  }

  /** Joining one more node to its shard. */
  lemma JoinFacts(nodes: seq<NodeState>, sh: ShardState, n: NodeState)
    requires Coherent(nodes + [n]) && !n.IsPending() && n.shardID == sh.id
    requires ShardInv(nodes, sh)
    ensures ShardInv(nodes + [n], JoinShard(sh, n))
    ensures PrimaryBag(JoinShard(sh, n)) == PrimaryBag(sh) + (if n.IsPrimary() then [n] else [])
  {
    NewcomerIsDifferent(nodes, n);
    FindIDFacts(sh.nodes, n.id);
    FindIDFacts(sh.nodes, sh.primaryID);
    FindIDAppend(sh.nodes, n, n.id);
    FindIDAppend(sh.nodes, n, sh.primaryID);
  }

  lemma NewcomerIsDifferent(nodes: seq<NodeState>, n: NodeState)
    requires Coherent(nodes + [n])
    ensures n.id != ""
    ensures forall m :: m in nodes ==> m.id != n.id
    ensures forall m :: m in nodes && OwnsSlots(m) && OwnsSlots(n) ==> m.shardID != n.shardID
  {
    var all := nodes + [n];
    assert all[|nodes|] == n && n in all;
    forall m | m in nodes
      ensures m.id != n.id && (OwnsSlots(m) && OwnsSlots(n) ==> m.shardID != n.shardID)
    {
      var k :| 0 <= k < |nodes| && nodes[k] == m;
      assert all[k] == m && m in all;
    }
  }

  lemma PrimariesSnoc(nodes: seq<NodeState>, n: NodeState)
    ensures Primaries(nodes + [n]) == if n.IsPrimary() then Primaries(nodes) + [n] else Primaries(nodes)
  {
    assert (nodes + [n])[..|nodes|] == nodes;
  }

  lemma GroupStepInv(v: View, n: NodeState)
    requires Coherent(v.nodes + [n]) && GroupInv(v)
    ensures GroupInv(GroupStep(v, n))
  {
    PrimariesSnoc(v.nodes, n);
    if n.IsPending() {
      PrimariesSnoc(v.pending, n);
      forall i | 0 <= i < |v.shards| ensures ShardInv(v.nodes + [n], v.shards[i]) { ShardInvGrows(v, n, i); }
    } else {
      FindShardFacts(v.shards, n.shardID);
      var i := FindShard(v.shards, n.shardID);
      if i < |v.shards| {
        JoinExisting(v, n, i);
      } else {
        BlankShard(v, n.shardID);
        JoinExisting(v.(shards := v.shards + [ShardState(n.shardID, "", [], [])]), n, i);
      }
    }
  }

  lemma ShardInvGrows(v: View, n: NodeState, i: nat)
    requires i < |v.shards| && ShardInv(v.nodes, v.shards[i])
    ensures ShardInv(v.nodes + [n], v.shards[i])
  {
  }

  lemma BlankShard(v: View, id: string)
    requires GroupInv(v) && forall k :: 0 <= k < |v.shards| ==> v.shards[k].id != id
    ensures GroupInv(v.(shards := v.shards + [ShardState(id, "", [], [])]))
  {
    hide Tally, Primaries;
    var shards := v.shards + [ShardState(id, "", [], [])];
    assert ShardPrimaries(shards) == ShardPrimaries(v.shards) by {
      assert shards[..|v.shards|] == v.shards;
    }
  }

  lemma JoinExisting(v: View, n: NodeState, i: nat)
    requires Coherent(v.nodes + [n]) && GroupInv(v) && !n.IsPending()
    requires i < |v.shards| && v.shards[i].id == n.shardID
    ensures GroupInv(View(v.nodes + [n], v.shards[i := JoinShard(v.shards[i], n)], v.pending))
  {
    hide Coherent, Primaries, ShardPrimaries, ShardInv, Tally;
    var v' := View(v.nodes + [n], v.shards[i := JoinShard(v.shards[i], n)], v.pending);
    forall k | 0 <= k < |v.shards| ensures ShardInv(v'.nodes, v'.shards[k]) {
      if k == i {
        JoinFacts(v.nodes, v.shards[i], n);
      } else {
        ShardInvGrows(v, n, k);
      }
    }
    forall x
      ensures Tally(ShardPrimaries(v'.shards), x) + Tally(Primaries(v'.pending), x) == Tally(Primaries(v'.nodes), x)
    {
      JoinTally(v, n, i, x);
    }
  }

  lemma JoinTally(v: View, n: NodeState, i: nat, x: NodeState)
    requires Coherent(v.nodes + [n]) && !n.IsPending()
    requires i < |v.shards| && v.shards[i].id == n.shardID && ShardInv(v.nodes, v.shards[i])
    ensures Tally(ShardPrimaries(v.shards[i := JoinShard(v.shards[i], n)]), x) + Tally(Primaries(v.nodes), x)
         == Tally(ShardPrimaries(v.shards), x) + Tally(Primaries(v.nodes + [n]), x)
  {
    hide Coherent, Primaries, ShardPrimaries, ShardInv, PrimaryBag;
    JoinFacts(v.nodes, v.shards[i], n);
    PrimariesSnoc(v.nodes, n);
    ShardPrimariesUpdate(v.shards, i, JoinShard(v.shards[i], n), x);
  }

  lemma {:induction false} GroupEstablishesInv(nodes: seq<NodeState>)
    requires Coherent(nodes)
    ensures GroupInv(Group(nodes))
  {
    if nodes == [] {
    } else {
      var front := nodes[..|nodes| - 1];
      assert nodes == front + [nodes[|nodes| - 1]];
      GroupEstablishesInv(front);
      GroupNodes(front);
      GroupStepInv(Group(front), nodes[|nodes| - 1]);
    }
  }

  /** The shard bookkeeping is invisible: the effective shards are simply all live
      primaries, slot-owning or not, in address order. */
  lemma EffectiveArePrimaries(nodes: seq<NodeState>)
    requires Coherent(nodes) && DistinctAddresses(nodes)
    ensures Effective(Group(nodes)) == Sort(Primaries(nodes), AddrLe)
  {
    var v := Group(nodes);
    GroupNodes(nodes);
    GroupEstablishesInv(nodes);
    AddressOrder(nodes);
    var effective := ShardPrimaries(v.shards) + Primaries(v.pending);
    assert multiset(effective) == multiset(Primaries(nodes)) by {
      forall x ensures multiset(effective)[x] == multiset(Primaries(nodes))[x] {
        assert Tally(Primaries(nodes), x) == Tally(ShardPrimaries(v.shards), x) + Tally(Primaries(v.pending), x);
      }
    }
    SortOrderFree(Primaries(nodes), effective, AddrLe);
  }

  ghost predicate DistinctAddresses(nodes: seq<NodeState>) {
    forall a, b :: a in nodes && b in nodes && a.addr == b.addr ==> a == b
  }

  lemma {:induction false} PrimariesMembers(nodes: seq<NodeState>)
    ensures forall n :: n in Primaries(nodes) <==> n in nodes && n.IsPrimary()
  {
    if nodes == [] {
    } else {
      PrimariesMembers(nodes[..|nodes| - 1]);
      assert nodes == nodes[..|nodes| - 1] + [nodes[|nodes| - 1]];
    }
  }

  lemma AddrPreorder()
    ensures TotalPreorder(AddrLe)
  {
    StringOrder();
  }

  lemma AddressOrder(nodes: seq<NodeState>)
    requires DistinctAddresses(nodes)
    ensures TotalPreorder(AddrLe) && TieFree(Primaries(nodes), AddrLe)
  {
    AddrPreorder();
    hide TotalPreorder, Primaries;
    PrimariesMembers(nodes);
    forall a, b | a in Primaries(nodes) && b in Primaries(nodes) && AddrLe(a, b) && AddrLe(b, a) ensures a == b {
      StringLeAntisymmetric(a.addr, b.addr);
    }
  }

  lemma {:induction false} PrimariesMultiset(nodes: seq<NodeState>, n: NodeState)
    ensures multiset(Primaries(nodes))[n] == if n.IsPrimary() then multiset(nodes)[n] else 0
  {
    if nodes == [] {
    } else {
      PrimariesMultiset(nodes[..|nodes| - 1], n);
      assert nodes == nodes[..|nodes| - 1] + [nodes[|nodes| - 1]];
    }
  }

  /** Scraping the same nodes in another order yields the same effective shards. */
  lemma EffectiveOrderFree(a: seq<NodeState>, b: seq<NodeState>)
    requires Coherent(a) && Coherent(b) && DistinctAddresses(a) && multiset(a) == multiset(b)
    ensures Effective(Group(a)) == Effective(Group(b))
  {
    PermutationFacts(a, b);
    forall n ensures multiset(Primaries(a))[n] == multiset(Primaries(b))[n] {
      PrimariesMultiset(a, n);
      PrimariesMultiset(b, n);
    }
    assert multiset(Primaries(a)) == multiset(Primaries(b));
    AddressOrder(a);
    SortOrderFree(Primaries(a), Primaries(b), AddrLe);
    EffectiveArePrimaries(a);
    EffectiveArePrimaries(b);
  }

  // ----- which slots the shards own

  ghost predicate OwnedByShard(shards: seq<ShardState>, slot: int) {
    exists sh :: sh in shards && Covers(sh.slots, slot)
  }

  lemma {:induction false} ShardPrimariesMembers(shards: seq<ShardState>, p: NodeState)
    ensures p in ShardPrimaries(shards) <==> exists i :: 0 <= i < |shards| && shards[i].Primary() == Some(p)
  {
    if shards == [] {
    } else {
      var front := shards[..|shards| - 1];
      ShardPrimariesMembers(front, p);
      assert forall i :: 0 <= i < |front| ==> front[i] == shards[i];
    }
  }

  lemma {:induction false} PendingArePending(nodes: seq<NodeState>)
    ensures forall n :: n in Group(nodes).pending ==> n.IsPending()
  {
    if nodes == [] {
    } else {
      PendingArePending(nodes[..|nodes| - 1]);
    }
  }

  /** The shards own exactly what the scraped primaries report. */
  lemma ShardsOwnPrimariesSlots(nodes: seq<NodeState>, slot: int)
    requires Coherent(nodes) && forall n :: n in nodes ==> WellFormed(n.slots)
    ensures OwnedByShard(Group(nodes).shards, slot) <==>
              exists n :: n in nodes && n.IsPrimary() && Covers(n.slots, slot)
  {
    var v := Group(nodes);
    GroupNodes(nodes);
    GroupEstablishesInv(nodes);
    if OwnedByShard(v.shards, slot) {
      var sh :| sh in v.shards && Covers(sh.slots, slot);
      var i :| 0 <= i < |v.shards| && v.shards[i] == sh;
      assert ShardInv(v.nodes, v.shards[i]);
    }
    forall n | n in nodes && n.IsPrimary() && Covers(n.slots, slot) ensures OwnedByShard(v.shards, slot) {
      SlotOwnerHasShard(v, n);
      var i :| 0 <= i < |v.shards| && v.shards[i].Primary() == Some(n);
      assert ShardInv(v.nodes, v.shards[i]) && v.shards[i] in v.shards;
    }
  }

  lemma SlotOwnerHasShard(v: View, n: NodeState)
    requires GroupInv(v) && v == Group(v.nodes) && n in v.nodes && n.IsPrimary() && WellFormed(n.slots) && n.slots != []
    ensures exists i :: 0 <= i < |v.shards| && v.shards[i].Primary() == Some(n)
  {
    hide ShardInv, ShardPrimaries, Primaries, Group;
    CountPositive(n.slots);
    PendingArePending(v.nodes);
    PrimariesMembers(v.nodes);
    PrimariesMembers(v.pending);
    assert Tally(ShardPrimaries(v.shards), n) + Tally(Primaries(v.pending), n) == Tally(Primaries(v.nodes), n);
    ShardPrimariesMembers(v.shards, n);
  }

  /** The shard primaries of a coherent scrape are its slot-owning primaries. */
  lemma ShardPrimariesOwn(nodes: seq<NodeState>, p: NodeState)
    requires Coherent(nodes) && forall n :: n in nodes ==> WellFormed(n.slots)
    ensures p in ShardPrimaries(Group(nodes).shards) <==> p in nodes && OwnsSlots(p)
  {
    var v := Group(nodes);
    GroupNodes(nodes);
    GroupEstablishesInv(nodes);
    ShardPrimariesMembers(v.shards, p);
    if p in ShardPrimaries(v.shards) {
      var i :| 0 <= i < |v.shards| && v.shards[i].Primary() == Some(p);
      assert ShardInv(v.nodes, v.shards[i]);
    }
    if p in nodes && OwnsSlots(p) {
      CountPositive(p.slots);
      SlotOwnerHasShard(v, p);
    }
  }

  // ----- what the assembly holds, for every scrape

  /** The position of the last primary in the list. */
  ghost predicate LastPrimary(nodes: seq<NodeState>, k: int) {
    0 <= k < |nodes| && nodes[k].role == Primary && forall j :: k < j < |nodes| ==> nodes[j].role != Primary
  }

  /** A shard holds its primary's ID and slots, those of the last one to join, if any. */
  ghost predicate NamesPrimary(sh: ShardState) {
    if exists k :: LastPrimary(sh.nodes, k)
    then forall k :: LastPrimary(sh.nodes, k) ==> sh.primaryID == sh.nodes[k].id && sh.slots == sh.nodes[k].slots
    else sh.primaryID == "" && sh.slots == []
  }

  predicate Waits(n: NodeState) { n.role == Primary && CountSlots(n.slots) == 0 }

  /** A shard lists exactly the nodes of its ID that do not wait for slots. */
  ghost predicate ListsMembers(sh: ShardState, nodes: seq<NodeState>) {
    sh.nodes != [] && forall n :: n in sh.nodes <==> n in nodes && n.shardID == sh.id && !Waits(n)
  }

  /** Every node either waits for slots or is listed in the one shard of its ID. */
  ghost predicate Places(v: View, nodes: seq<NodeState>) {
    && (forall n :: n in v.pending <==> n in nodes && Waits(n))
    && (forall i, j :: 0 <= i < j < |v.shards| ==> v.shards[i].id != v.shards[j].id)
    && (forall sh :: sh in v.shards ==> ListsMembers(sh, nodes) && NamesPrimary(sh))
    && forall n :: n in nodes && !Waits(n) ==> exists sh :: sh in v.shards && sh.id == n.shardID
  }

  lemma JoinNames(sh: ShardState, n: NodeState)
    requires NamesPrimary(sh)
    ensures NamesPrimary(JoinShard(sh, n))
  {
    var sh', last := JoinShard(sh, n), |sh.nodes|;
    assert sh'.nodes[last] == n;
    forall k | k != last ensures LastPrimary(sh'.nodes, k) <==> LastPrimary(sh.nodes, k) && !n.IsPrimary() {
      assert 0 <= k < last ==> sh'.nodes[k] == sh.nodes[k];
      assert forall j :: 0 <= j < last ==> sh'.nodes[j] == sh.nodes[j];
      assert LastPrimary(sh'.nodes, k) ==> sh'.nodes[last].role != Primary;
    }
    assert LastPrimary(sh'.nodes, last) <==> n.IsPrimary();
  }

  lemma JoinLists(sh: ShardState, nodes: seq<NodeState>, n: NodeState)
    requires n.shardID == sh.id && !Waits(n)
    requires forall m :: m in sh.nodes <==> m in nodes && m.shardID == sh.id && !Waits(m)
    ensures ListsMembers(JoinShard(sh, n), nodes + [n])
  {
    hide Waits;
    assert n in JoinShard(sh, n).nodes;
  }

  lemma StepPlaces(v: View, nodes: seq<NodeState>, n: NodeState)
    requires Places(v, nodes)
    ensures Places(GroupStep(v, n), nodes + [n])
  {
    FindShardFacts(v.shards, n.shardID);
    var i, v' := FindShard(v.shards, n.shardID), GroupStep(v, n);
    if n.IsPending() {
      assert forall sh :: sh in v.shards && ListsMembers(sh, nodes) ==> ListsMembers(sh, nodes + [n]);
    } else {
      var sh := if i < |v.shards| then v.shards[i] else ShardState(n.shardID, "", [], []);
      assert i < |v.shards| ==> v.shards[i] in v.shards;
      JoinNames(sh, n);
      forall m | m in nodes && m.shardID == sh.id ensures Waits(m) || m in sh.nodes {}
      JoinLists(sh, nodes, n);
      JoinedShards(v, nodes, n, i, sh);
    }
  }

  lemma JoinedShards(v: View, nodes: seq<NodeState>, n: NodeState, i: nat, sh: ShardState)
    requires Places(v, nodes) && !n.IsPending() && i == FindShard(v.shards, n.shardID) <= |v.shards|
    requires forall k :: 0 <= k < |v.shards| && k != i ==> v.shards[k].id != n.shardID
    requires sh.id == n.shardID && sh == if i < |v.shards| then v.shards[i] else ShardState(n.shardID, "", [], [])
    requires NamesPrimary(JoinShard(sh, n)) && ListsMembers(JoinShard(sh, n), nodes + [n])
    ensures Places(GroupStep(v, n), nodes + [n])
  {
    hide NamesPrimary, FindShard;
    var v', joined := GroupStep(v, n), JoinShard(sh, n);
    assert v'.shards[i] == joined && |v'.shards| == if i < |v.shards| then |v.shards| else |v.shards| + 1;
    forall k | 0 <= k < |v'.shards| && k != i
      ensures v'.shards[k] == v.shards[k] && v.shards[k] in v.shards && ListsMembers(v'.shards[k], nodes + [n])
    {
      assert ListsMembers(v.shards[k], nodes);
    }
    forall m | m in nodes + [n] && !Waits(m) ensures exists s :: s in v'.shards && s.id == m.shardID {
      if m.shardID == n.shardID {
        assert joined in v'.shards;
      } else {
        var s :| s in v.shards && s.id == m.shardID;
        var k :| 0 <= k < |v.shards| && v.shards[k] == s;
        assert v'.shards[k] in v'.shards;
      }
    }
  }

  /** The grouping puts every scraped node where it belongs, coherent or not. */
  lemma {:induction false} GroupPlaces(nodes: seq<NodeState>)
    ensures Places(Group(nodes), nodes)
  {
    if nodes == [] {
    } else {
      var front := nodes[..|nodes| - 1];
      GroupPlaces(front);
      hide Places, GroupStep;
      assert nodes == front + [nodes[|nodes| - 1]];
      StepPlaces(Group(front), front, nodes[|nodes| - 1]);
    }
  }

  /** The position of the last scraped node with the ID. */
  ghost predicate LastWithID(nodes: seq<NodeState>, id: string, k: int) {
    0 <= k < |nodes| && nodes[k].id == id && forall j :: k < j < |nodes| ==> nodes[j].id != id
  }

  ghost predicate LastWithAddr(nodes: seq<NodeState>, addr: string, k: int) {
    0 <= k < |nodes| && nodes[k].addr == addr && forall j :: k < j < |nodes| ==> nodes[j].addr != addr
  }

  /** The index by ID holds the last scraped node of each non-empty key, and nothing else. */
  lemma {:induction false} ByIDFacts(nodes: seq<NodeState>, key: string)
    ensures key in ByID(nodes) <==> key != "" && exists n :: n in nodes && n.id == key
    ensures key in ByID(nodes) ==> exists k :: LastWithID(nodes, key, k) && ByID(nodes)[key] == nodes[k]
  {
    if nodes == [] {
    } else {
      var last, front := |nodes| - 1, nodes[..|nodes| - 1];
      ByIDFacts(front, key);
      assert nodes == front + [nodes[last]];
      if nodes[last].id == key {
        assert LastWithID(nodes, key, last) && nodes[last] in nodes;
      } else if key in ByID(front) {
        var k :| LastWithID(front, key, k) && ByID(front)[key] == front[k];
        assert LastWithID(nodes, key, k);
      }
    }
  }

  /** The index by address holds the last scraped node of each non-empty key, and nothing else. */
  lemma {:induction false} ByAddrFacts(nodes: seq<NodeState>, key: string)
    ensures key in ByAddr(nodes) <==> key != "" && exists n :: n in nodes && n.addr == key
    ensures key in ByAddr(nodes) ==> exists k :: LastWithAddr(nodes, key, k) && ByAddr(nodes)[key] == nodes[k]
  {
    if nodes == [] {
    } else {
      var last, front := |nodes| - 1, nodes[..|nodes| - 1];
      ByAddrFacts(front, key);
      assert nodes == front + [nodes[last]];
      if nodes[last].addr == key {
        assert LastWithAddr(nodes, key, last) && nodes[last] in nodes;
      } else if key in ByAddr(front) {
        var k :| LastWithAddr(front, key, k) && ByAddr(front)[key] == front[k];
        assert LastWithAddr(nodes, key, k);
      }
    }
  }
}
