/** Backup sets in object storage: the key layout (pkg/backup/keys.go), the manifest, and the
    in-memory store (pkg/backup/fake.go) whose semantics the sidecar relies on. */
module BackupStore {
  import opened Sorting
  import opened SlotText
  import opened Coverage

  // ----- keys

  /** What Kubernetes guarantees of cluster and backup names: not empty and no slash. (Nor are
      they ever "." or "..", so `path.Join` cleans nothing away.) */
  predicate PlainName(s: string) { s != "" && '/' !in s }

  function SetPrefix(cluster: string, backup: string): (r: string) { cluster + "/" + backup }

  const MANIFEST: string := "manifest.json"

  function ManifestKey(cluster: string, backup: string): (r: string) { SetPrefix(cluster, backup) + "/" + MANIFEST }

  function ShardName(i: int): (r: string) { "shard-" + Itoa(i) }

  function ShardRDBRelKey(i: int): (r: string) { ShardName(i) + "/dump.rdb" }

  function ShardRDBKey(cluster: string, backup: string, i: int): (r: string) {
    SetPrefix(cluster, backup) + "/" + ShardRDBRelKey(i)
  }

  /** Boundary-matched prefix, as `List` matches it. */
  predicate Under(key: string, prefix: string) {
    key == prefix || (|key| > |prefix| && key[..|prefix|] == prefix && key[|prefix|] == '/')
  }

  lemma SetParts(cluster: string, backup: string, rest: string)
    requires PlainName(cluster) && PlainName(backup)
    ensures var k := SetPrefix(cluster, backup) + "/" + rest;
            && Find(k, '/') == |cluster| && k[..|cluster|] == cluster
            && Find(k[|cluster| + 1..], '/') == |backup| && k[|cluster| + 1..][..|backup|] == backup
            && k[|cluster| + 1..][|backup| + 1..] == rest
  {
    var k := SetPrefix(cluster, backup) + "/" + rest;
    assert k == cluster + ['/'] + (backup + "/" + rest);
    FindAt(cluster, '/', backup + "/" + rest);
    assert k[|cluster| + 1..] == backup + ['/'] + rest;
    FindAt(backup, '/', rest);
  }

  /** A key inside a set determines the set and the rest of the key. */
  lemma SetKeyUnique(c: string, b: string, rest: string, c': string, b': string, rest': string)
    requires PlainName(c) && PlainName(b) && PlainName(c') && PlainName(b')
    requires SetPrefix(c, b) + "/" + rest == SetPrefix(c', b') + "/" + rest'
    ensures c == c' && b == b' && rest == rest'
  {
    SetParts(c, b, rest);
    SetParts(c', b', rest');
  }

  /** Listing a set's prefix never reaches into another set. */
  lemma UnderOnlyOwnSet(c: string, b: string, c': string, b': string, rest: string)
    requires PlainName(c) && PlainName(b) && PlainName(c') && PlainName(b')
    ensures Under(SetPrefix(c', b') + "/" + rest, SetPrefix(c, b)) <==> c == c' && b == b'
  {
    var k, p := SetPrefix(c', b') + "/" + rest, SetPrefix(c, b);
    if Under(k, p) {
      SetParts(c', b', rest);
      if k == p {
        PrefixHasOneSlash(c, b);
      } else {
        assert k == p + "/" + k[|p| + 1..];
        SetKeyUnique(c', b', rest, c, b, k[|p| + 1..]);
      }
    }
  }

  lemma PrefixHasOneSlash(c: string, b: string)
    requires PlainName(c) && PlainName(b)
    ensures var p := SetPrefix(c, b);
            Find(p, '/') == |c| && Find(p[|c| + 1..], '/') == |b| == |p[|c| + 1..]|
  {
    var p := SetPrefix(c, b);
    assert p == c + ['/'] + b;
    FindAt(c, '/', b);
    assert p[|c| + 1..] == b;
    FindAt(b, '/', "");
  }

  lemma ManifestIsNoRDB(c: string, b: string, c': string, b': string, i: int)
    requires PlainName(c) && PlainName(b) && PlainName(c') && PlainName(b')
    ensures ManifestKey(c, b) != ShardRDBKey(c', b', i)
  {
    assert MANIFEST[0] == 'm' && ShardRDBRelKey(i)[0] == 's';
    if ManifestKey(c, b) == ShardRDBKey(c', b', i) {
      SetKeyUnique(c, b, MANIFEST, c', b', ShardRDBRelKey(i));
    }
  }

  lemma ItoaInjective(i: int, j: int)
    requires Itoa(i) == Itoa(j)
    ensures i == j
  {
    DigitsFacts(if i < 0 then -i else i);
    DigitsFacts(if j < 0 then -j else j);
    assert i < 0 <==> Itoa(i)[0] == '-';
    assert j < 0 <==> Itoa(j)[0] == '-';
    if i < 0 { assert Itoa(i)[1..] == Digits(-i) && Itoa(j)[1..] == Digits(-j); }
  }

  lemma RelKeyIndex(i: int, j: int)
    requires ShardRDBRelKey(i) == ShardRDBRelKey(j)
    ensures i == j
  {
    hide Itoa;
    var tail := "/dump.rdb";
    assert ShardRDBRelKey(i) == "shard-" + Itoa(i) + tail && ShardRDBRelKey(j) == "shard-" + Itoa(j) + tail;
    assert Itoa(i) == ShardRDBRelKey(i)[6..|ShardRDBRelKey(i)| - 9] == Itoa(j);
    ItoaInjective(i, j);
  }

  /** Distinct shards of a set never share an object. */
  lemma RDBKeysDistinct(c: string, b: string, i: int, j: int)
    requires PlainName(c) && PlainName(b) && i != j
    ensures ShardRDBKey(c, b, i) != ShardRDBKey(c, b, j)
  {
    hide ShardRDBRelKey;
    if ShardRDBKey(c, b, i) == ShardRDBKey(c, b, j) {
      SetKeyUnique(c, b, ShardRDBRelKey(i), c, b, ShardRDBRelKey(j));
      RelKeyIndex(i, j);
    }
  }

  // ----- objects

  type Bytes = seq<int>

  datatype ShardManifest = ShardManifest(
    index: int, nodeID: string, slotRanges: string, rdbKey: string, size: nat, sha256: string, replOffset: int)

  datatype Manifest = Manifest(
    cluster: string, backupName: string, consistency: string, slotCoverage: string, shards: seq<ShardManifest>)

  /** A stored object: an RDB dump, or a manifest (its JSON form stands for it). */
  datatype Object = Rdb(bytes: Bytes) | Doc(manifest: Manifest)

  type Objects = map<string, Object>

  datatype Op = Put(key: string, item: Object) | Delete(key: string)

  function Apply(objects: Objects, op: Op): (r: Objects) {
    match op
    case Put(k, v) => objects[k := v]
    case Delete(k) => objects - {k}
  }

  function Replay(objects: Objects, ops: seq<Op>): (r: Objects) {
    if ops == [] then objects else Apply(Replay(objects, ops[..|ops| - 1]), ops[|ops| - 1])
  }

  lemma {:induction false} ReplayConcat(objects: Objects, a: seq<Op>, b: seq<Op>)
    ensures Replay(objects, a + b) == Replay(Replay(objects, a), b)
  {
    if b == [] {
      assert a + b == a;
    } else {
      assert (a + b)[..|a + b| - 1] == a + b[..|b| - 1];
      ReplayConcat(objects, a, b[..|b| - 1]);
    }
  }

  /** The in-memory store: a map of objects and a log of the mutations applied to it. */
  class FakeStore {
    var objects: Objects
    var ops: seq<Op>

    constructor ()
      ensures objects == map[] && ops == []
    {
      objects, ops := map[], [];
    }

    method PutObject(key: string, item: Object, fail: bool) returns (ok: bool)
      modifies this
      ensures ok == !fail
      ensures ops == if ok then old(ops) + [Put(key, item)] else old(ops)
      ensures objects == if ok then old(objects)[key := item] else old(objects)
    {
      if fail {
        return false;
      }
      objects := objects[key := item];
      ops := ops + [Put(key, item)];
      return true;
    }

    method DeleteObject(key: string, fail: bool) returns (ok: bool)
      modifies this
      ensures ok == !fail
      ensures ops == if ok then old(ops) + [Delete(key)] else old(ops)
      ensures objects == if ok then old(objects) - {key} else old(objects)
    {
      if fail {
        return false;
      }
      objects := objects - {key};
      ops := ops + [Delete(key)];
      return true;
    }

    /** The keys under a prefix, each once, sorted, whatever order the map is walked in. The
        empty prefix lists everything; a trailing slash is ignored. */
    method List(prefix: string) returns (keys: seq<string>)
      ensures Sorted(keys, StringLe)
      ensures Distinct(keys)
      ensures forall k :: k in keys <==> k in objects && Listed(k, prefix)
      ensures forall k :: k in keys <==> k in objects && IsBelow(k, prefix)
    {
      forall k: string ensures Listed(k, prefix) <==> IsBelow(k, prefix) { ListedIs(k, prefix); }
      hide IsBelow;
      var out: seq<string> := [];
      var left := objects.Keys;
      while left != {}
        invariant left <= objects.Keys
        invariant forall k :: k in out <==> k in objects && k !in left && Listed(k, prefix)
        invariant Distinct(out)
        decreases left
      {
        var k :| k in left;
        left := left - {k};
        if Listed(k, prefix) {
          out := out + [k];
        }
      }
      keys := Sort(out, StringLe);
      SortPermutes(out, StringLe);
      StringOrder();
      SortSorts(out, StringLe);
      SortKeepsDistinct(out, StringLe);
    }
  }

  /** The prefix itself, or the prefix as a directory and anything after it; all for the empty one. */
  ghost predicate IsBelow(key: string, prefix: string) {
    || prefix == "" || key == prefix
    || (if prefix[|prefix| - 1] == '/' then prefix else prefix + "/") <= key
  }

  lemma ListedIs(key: string, prefix: string)
    ensures Listed(key, prefix) <==> IsBelow(key, prefix)
  {
    if prefix != "" && key != prefix {
      var dir := if prefix[|prefix| - 1] == '/' then prefix else prefix + "/";
      var bare := TrimSlash(prefix);
      assert dir == bare + "/";
      if |key| > |bare| && key[..|bare|] == bare && key[|bare|] == '/' {
        assert key[..|dir|] == key[..|bare|] + [key[|bare|]];
      }
      if dir <= key {
        assert key[|bare|] == dir[|bare|] == '/' && key[..|bare|] == dir[..|bare|];
      }
    }
  }

  predicate Listed(key: string, prefix: string) {
    prefix == "" || key == prefix || (Under(key, TrimSlash(prefix)) && key != TrimSlash(prefix))
  }

  function TrimSlash(prefix: string): (r: string) {
    if prefix != "" && prefix[|prefix| - 1] == '/' then prefix[..|prefix| - 1] else prefix
  }
}
