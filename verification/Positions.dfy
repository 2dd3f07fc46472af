/** Where a scraped node sits in the topology: the (shard, node) labels of the ValkeyNode
    whose pod IP the scrape dialled (bootstrap.go). */
module Positions {
  import opened ClusterView

  datatype Position = Position(shard: int, node: int) {
    predicate IsPrimary() { node == 0 }
  }

  /** A node object; a label that is missing or not a number is None. */
  datatype ValkeyNode = ValkeyNode(name: string, podIP: string, shardLabel: Option<int>, nodeLabel: Option<int>) {
    function ShardIndex(): (r: int) { if shardLabel.Some? then shardLabel.value else 0 }
    function NodeIndex(): (r: int) { if nodeLabel.Some? then nodeLabel.value else 0 }
    /** It has a pod IP and both its labels parse. */
    predicate IsPlaced() { podIP != "" && shardLabel.Some? && nodeLabel.Some? }
    function Place(): (r: Position)
      requires IsPlaced()
    {
      Position(shardLabel.value, nodeLabel.value)
    }
  }

  /** Pod IP to position. */
  type Positions = map<string, Position>

  /** The position of each pod IP: that of the last placed node carrying it. */
  function PositionsOf(items: seq<ValkeyNode>): (r: Positions) {
    if items == [] then map[]
    else
      var rest, n := PositionsOf(items[1..]), items[0];
      if n.IsPlaced() && n.podIP !in rest then rest[n.podIP := n.Place()] else rest
  }

  lemma {:induction false} PositionsSnoc(items: seq<ValkeyNode>, n: ValkeyNode)
    ensures PositionsOf(items + [n]) == if n.IsPlaced() then PositionsOf(items)[n.podIP := n.Place()]
                                        else PositionsOf(items)
  {
    if items == [] {
      assert PositionsOf(([] + [n])[1..]) == map[];
    } else {
      PositionsSnoc(items[1..], n);
      assert (items + [n])[1..] == items[1..] + [n];
    }
  }

  /** `positionsByIP`: a node without a pod IP, or with a label that does not parse, has no entry. */
  method PositionsByIP(items: seq<ValkeyNode>) returns (out: Positions)
    ensures out == PositionsOf(items)
  {
    out := map[];
    for i := 0 to |items|
      invariant out == PositionsOf(items[..i])
    {
      var n := items[i];
      assert items[..i + 1] == items[..i] + [n];
      PositionsSnoc(items[..i], n);
      if n.podIP == "" {
        continue;
      }
      if n.shardLabel.None? || n.nodeLabel.None? {
        continue;
      }
      out := out[n.podIP := Position(n.shardLabel.value, n.nodeLabel.value)];
    }
    assert items[..|items|] == items;
  }

  /** An entry is the position of a listed node, and of no node after it with that pod IP. */
  lemma {:induction false} PositionsFacts(items: seq<ValkeyNode>, ip: string)
    ensures ip in PositionsOf(items) <==> exists n :: n in items && n.IsPlaced() && n.podIP == ip
    ensures ip in PositionsOf(items) ==>
              exists k :: 0 <= k < |items| && items[k].IsPlaced() && items[k].podIP == ip
                  && PositionsOf(items)[ip] == items[k].Place()
                  && forall j :: k < j < |items| && items[j].IsPlaced() ==> items[j].podIP != ip
  {
    if items == [] {
    } else {
      var rest := items[1..];
      PositionsFacts(rest, ip);
      assert forall n :: n in items <==> n == items[0] || n in rest;
      if ip in PositionsOf(rest) {
        var k :| 0 <= k < |rest| && rest[k].IsPlaced() && rest[k].podIP == ip
            && PositionsOf(rest)[ip] == rest[k].Place()
            && forall j :: k < j < |rest| && rest[j].IsPlaced() ==> rest[j].podIP != ip;
        assert items[k + 1] == rest[k];
        forall j | k + 1 < j < |items| && items[j].IsPlaced() ensures items[j].podIP != ip {
          assert items[j] == rest[j - 1];
        }
      } else if ip in PositionsOf(items) {
        forall j | 0 < j < |items| && items[j].IsPlaced() ensures items[j].podIP != ip {
          assert items[j] == rest[j - 1] && items[j] in rest;
        }
        assert items[0].podIP == ip && PositionsOf(items)[ip] == items[0].Place();
      }
    }
  }

  const PORT_SUFFIX: string := ":6379"

  /** `strings.TrimSuffix(addr, ":6379")`. */
  function TrimPort(addr: string): (r: string) {
    if |addr| >= |PORT_SUFFIX| && addr[|addr| - |PORT_SUFFIX|..] == PORT_SUFFIX
    then addr[..|addr| - |PORT_SUFFIX|] else addr
  }

  /** `hostFromAddr`: everything before the last colon, or the whole address. */
  function HostFromAddr(addr: string): (r: string) {
    var i := LastColon(addr, |addr|);
    if i < |addr| then addr[..i] else addr
  }

  /** Index of the last colon among the first `n` characters, or the length. */
  function LastColon(addr: string, n: nat): (i: nat)
    requires n <= |addr|
    ensures i <= |addr|
  {
    if n == 0 then |addr| else if addr[n - 1] == ':' then n - 1 else LastColon(addr, n - 1)
  }

  lemma HostOf(host: string)
    ensures HostFromAddr(host + PORT_SUFFIX) == host
  {
    var s, n := host + PORT_SUFFIX, |host|;
    assert s[n] == ':' && s[n + 1] == '6' && s[n + 2] == '3' && s[n + 3] == '7' && s[n + 4] == '9';
    assert LastColon(s, n + 1) == n;
    assert LastColon(s, n + 3) == LastColon(s, n + 2) == LastColon(s, n + 1);
    assert LastColon(s, n + 5) == LastColon(s, n + 4) == LastColon(s, n + 3);
  }

  /** Trimming undoes the client port and leaves every other address alone. */
  lemma TrimFacts(addr: string)
    ensures TrimPort(addr + ":6379") == addr
    ensures (forall host: string :: addr != host + ":6379") ==> TrimPort(addr) == addr
  {
    var full := addr + ":6379";
    assert full[|addr|..] == ":6379" && full[..|addr|] == addr;
    if |addr| >= 5 && addr[|addr| - 5..] == ":6379" { assert addr == addr[..|addr| - 5] + ":6379"; }
  }

  /** The host is what stands before the last colon; without a colon, the whole address. */
  lemma HostFacts(addr: string)
    ensures ':' !in addr ==> HostFromAddr(addr) == addr
    ensures forall i :: 0 <= i < |addr| && addr[i] == ':' && ':' !in addr[i + 1..] ==> HostFromAddr(addr) == addr[..i]
  {
    LastColonFacts(addr, |addr|);
  }

  lemma {:induction false} LastColonFacts(addr: string, n: nat)
    requires n <= |addr|
    ensures var i := LastColon(addr, n);
            if ':' in addr[..n] then i < n && addr[i] == ':' && ':' !in addr[i + 1..n] else i == |addr|
  {
    if n == 0 {
    } else {
      LastColonFacts(addr, n - 1);
      assert addr[..n] == addr[..n - 1] + [addr[n - 1]];
    }
  }

  function PositionFor(positions: Positions, n: NodeState): (r: Option<Position>) {
    var ip := TrimPort(n.addr);
    if ip in positions then Some(positions[ip]) else None
  }
}
