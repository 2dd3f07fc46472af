/** The dumps of a present manifest are the bytes it vouches for: each has its recorded hash.
    A run overwrites dumps in place, so this needs the set's manifest out of the way first. */
module BackupHashes {
  import opened Sorting
  import opened ClusterView
  import opened BackupStore
  import opened BackupSets

  type Hash = Bytes -> string

  predicate Holds(objects: Objects, hash: Hash, key: string, sha256: string) {
    key in objects && objects[key].Rdb? && hash(objects[key].bytes) == sha256
  }

  /** The fragments of a set's manifest, if there is one. */
  function Named(objects: Objects, c: string, b: string): (r: seq<ShardManifest>) {
    var mk := ManifestKey(c, b);
    if mk in objects && objects[mk].Doc? then objects[mk].manifest.shards else []
  }

  ghost predicate Intact(objects: Objects, hash: Hash, c: string, b: string) {
    forall i :: 0 <= i < |Named(objects, c, b)| ==>
      Holds(objects, hash, ShardRDBKey(c, b, Named(objects, c, b)[i].index), Named(objects, c, b)[i].sha256)
  }

  ghost predicate Whole(objects: Objects, hash: Hash) {
    forall c, b :: PlainName(c) && PlainName(b) ==> Intact(objects, hash, c, b)
  }

  /** A dump written to a set whose manifest names nothing disturbs no set. */
  lemma PutKeepsWhole(objects: Objects, hash: Hash, c: string, b: string, i: int, item: Object)
    requires PlainName(c) && PlainName(b) && Whole(objects, hash) && Named(objects, c, b) == []
    ensures Whole(objects[ShardRDBKey(c, b, i) := item], hash)
    ensures Named(objects[ShardRDBKey(c, b, i) := item], c, b) == []
  {
    ManifestIsNoRDB(c, b, c, b, i);
    forall c', b' | PlainName(c') && PlainName(b') ensures Intact(objects[ShardRDBKey(c, b, i) := item], hash, c', b') {
      PutKeepsIntact(objects, hash, c, b, i, item, c', b');
    }
  }

  lemma PutKeepsIntact(objects: Objects, hash: Hash, c: string, b: string, i: int, item: Object, c': string, b': string)
    requires PlainName(c) && PlainName(b) && PlainName(c') && PlainName(b')
    requires Intact(objects, hash, c', b') && Named(objects, c, b) == []
    ensures Intact(objects[ShardRDBKey(c, b, i) := item], hash, c', b')
  {
    hide PlainName, ShardRDBKey, ManifestKey;
    ManifestIsNoRDB(c', b', c, b, i);
    var frags := Named(objects, c', b');
    forall k | 0 <= k < |frags| ensures ShardRDBKey(c', b', frags[k].index) != ShardRDBKey(c, b, i) {
      if ShardRDBKey(c', b', frags[k].index) == ShardRDBKey(c, b, i) {
        SameKeySameSet(c, b, i, c', b', frags[k].index);
      }
    }
  }

  lemma SameKeySameSet(c: string, b: string, i: int, c': string, b': string, i': int)
    requires PlainName(c) && PlainName(b) && PlainName(c') && PlainName(b')
    requires ShardRDBKey(c', b', i') == ShardRDBKey(c, b, i)
    ensures c == c' && b == b'
  {
    SetKeyUnique(c', b', ShardRDBRelKey(i'), c, b, ShardRDBRelKey(i));
  }

  lemma {:induction false} PutsKeepWhole(objects: Objects, o: Options, k: nat)
    requires PlainName(o.cluster) && PlainName(o.backup)
    requires Whole(objects, o.hash) && Named(objects, o.cluster, o.backup) == []
    requires k <= |Snapshots(o, Sort(o.shards, IndexLe)).puts|
    ensures var objects' := Replay(objects, Snapshots(o, Sort(o.shards, IndexLe)).puts[..k]);
            Whole(objects', o.hash) && Named(objects', o.cluster, o.backup) == []
  {
    hide Sort, Snapshots, Whole, PlainName, Named;
    var p := Snapshots(o, Sort(o.shards, IndexLe));
    if k == 0 {
    } else {
      PutsKeepWhole(objects, o, k - 1);
      SnapshotFacts(o, Sort(o.shards, IndexLe));
      assert p.puts[..k][..k - 1] == p.puts[..k - 1];
      PutKeepsWhole(Replay(objects, p.puts[..k - 1]), o.hash, o.cluster, o.backup, p.frags[k - 1].index,
          p.puts[k - 1].item);
    }
  }

  /** The manifest of a completed run vouches for the dumps just written. */
  lemma ManifestKeepsWhole(objects: Objects, hash: Hash, c: string, b: string, man: Manifest)
    requires PlainName(c) && PlainName(b) && Whole(objects, hash)
    requires forall i :: 0 <= i < |man.shards| ==>
               Holds(objects, hash, ShardRDBKey(c, b, man.shards[i].index), man.shards[i].sha256)
    ensures Whole(objects[ManifestKey(c, b) := Doc(man)], hash)
  {
    hide PlainName, ShardRDBKey, ManifestKey;
    var objects' := objects[ManifestKey(c, b) := Doc(man)];
    forall c', b' | PlainName(c') && PlainName(b') ensures Intact(objects', hash, c', b') {
      assert Intact(objects, hash, c', b');
      if ManifestKey(c', b') == ManifestKey(c, b) { SameManifestSameSet(c, b, c', b'); }
      var frags := Named(objects', c', b');
      assert frags == if ManifestKey(c', b') == ManifestKey(c, b) then man.shards else Named(objects, c', b');
      forall i | 0 <= i < |frags| ensures Holds(objects', hash, ShardRDBKey(c', b', frags[i].index), frags[i].sha256) {
        ManifestIsNoRDB(c, b, c', b', frags[i].index);
      }
    }
  }

  lemma SameManifestSameSet(c: string, b: string, c': string, b': string)
    requires PlainName(c) && PlainName(b) && PlainName(c') && PlainName(b') && ManifestKey(c', b') == ManifestKey(c, b)
    ensures c == c' && b == b'
  {
    SetKeyUnique(c', b', MANIFEST, c, b, MANIFEST);
  }

  lemma WrittenDumpsHold(objects: Objects, o: Options, i: nat)
    requires PlainName(o.cluster) && PlainName(o.backup) && OnePerIndex(o.shards)
    requires i < |Snapshots(o, Sort(o.shards, IndexLe)).frags|
    ensures var p := Snapshots(o, Sort(o.shards, IndexLe));
            Holds(Replay(objects, p.puts), o.hash, ShardRDBKey(o.cluster, o.backup, p.frags[i].index),
                p.frags[i].sha256)
  {
    hide Sort, Snapshots, PlainName, ShardRDBKey, Replay, OnePerIndex, FindFragment;
    DumpStored(objects, o, i);
  }

  /** A run on a set whose manifest names nothing, cut off after any operation. */
  lemma BackupKeepsWhole(objects: Objects, o: Options, k: nat)
    requires PlainName(o.cluster) && PlainName(o.backup) && OnePerIndex(o.shards) && k <= |BackupOps(o)|
    requires Whole(objects, o.hash) && Named(objects, o.cluster, o.backup) == []
    ensures Whole(Replay(objects, BackupOps(o)[..k]), o.hash)
  {
    hide Sort, Snapshots, PlainName, Whole, Named, OnePerIndex, Holds;
    var p, ops := Snapshots(o, Sort(o.shards, IndexLe)), BackupOps(o);
    if k <= |p.puts| {
      PutsKeepWhole(objects, o, k);
      assert ops[..k] == p.puts[..k];
    } else {
      PutsKeepWhole(objects, o, |p.puts|);
      assert p.puts[..|p.puts|] == p.puts;
      assert ops[..k] == p.puts + [ops[|p.puts|]];
      ReplayConcat(objects, p.puts, [ops[|p.puts|]]);
      ReplayOne(Replay(objects, p.puts), ops[|p.puts|]);
      forall i | 0 <= i < |p.frags| { WrittenDumpsHold(objects, o, i); }
      ManifestKeepsWhole(Replay(objects, p.puts), o.hash, o.cluster, o.backup, WrittenManifest(o).value);
    }
  }

  lemma CleanupKeepsWhole(objects: Objects, hash: Hash, ops: seq<Op>, c: string, b: string)
    requires PlainName(c) && PlainName(b) && IsCleanup(ops, c, b) && Whole(objects, hash)
    ensures Whole(Replay(objects, ops), hash)
  {
    hide IsCleanup, PlainName, Replay;
    if ops == [] {
      ReplayNothing(objects);
    } else {
      CleanupFacts(objects, ops, c, b);
      var objects' := Replay(objects, ops);
      forall c', b' | PlainName(c') && PlainName(b') ensures Intact(objects', hash, c', b') {
        assert Intact(objects, hash, c', b');
        var frags := Named(objects', c', b');
        forall i | 0 <= i < |frags|
          ensures Holds(objects', hash, ShardRDBKey(c', b', frags[i].index), frags[i].sha256)
        {
          assert frags == Named(objects, c', b');
          UnderOnlyOwnSet(c, b, c', b', ShardRDBRelKey(frags[i].index));
        }
      }
    }
  }

  /** Each backup finds its set's manifest absent, or naming nothing, and has one primary per index. */
  ghost predicate Fresh(history: seq<Segment>, hash: Hash)
    requires forall i :: 0 <= i < |history| ==> ValidSegment(history[i])
  {
    forall i :: 0 <= i < |history| && history[i].Backup? ==>
      && history[i].o.hash == hash && OnePerIndex(history[i].o.shards)
      && Named(After(map[], history[..i]), history[i].o.cluster, history[i].o.backup) == []
  }

  /** Over such histories, each run cut off anywhere, a present manifest's dumps have their hashes. */
  lemma {:induction false} FreshHistoriesAreWhole(history: seq<Segment>, hash: Hash)
    requires (forall i :: 0 <= i < |history| ==> ValidSegment(history[i])) && Fresh(history, hash)
    ensures Whole(After(map[], history), hash)
  {
    if history == [] {
    } else {
      var n := |history| - 1;
      forall i | 0 <= i < n ensures history[..n][..i] == history[..i] {}
      FreshHistoriesAreWhole(history[..n], hash);
      var before := After(map[], history[..n]);
      match history[n]
      case Backup(o, k) => BackupKeepsWhole(before, o, k);
      case Cleanup(c, b, ops) => CleanupKeepsWhole(before, hash, ops, c, b);
    }
  }

  // ----- and only there

  /** One dump of a second run over a manifest's set, then a crash: other bytes under the old hash. */
  lemma RerunBreaks(objects: Objects, hash: Hash, c: string, b: string, z: Bytes) returns (o: Options)
    requires PlainName(c) && PlainName(b) && Named(objects, c, b) != [] && hash(z) != Named(objects, c, b)[0].sha256
    ensures o.cluster == c && o.backup == b && o.hash == hash && OnePerIndex(o.shards)
    ensures 1 <= |BackupOps(o)| && !Whole(Replay(objects, BackupOps(o)[..1]), hash)
  {
    var f := Named(objects, c, b)[0];
    var sp := ShardPrimary(f.index, "", [], 0);
    o := Options(c, b, BEST_EFFORT, [sp], _ => Some(z), {}, hash);
    var op := Put(ShardRDBKey(c, b, f.index), Rdb(z));
    OneDump(o, sp, op);
    ReplayOne(objects, op);
    ManifestIsNoRDB(c, b, c, b, f.index);
    var objects' := Replay(objects, [op]);
    assert Named(objects', c, b) == Named(objects, c, b);
    assert !Holds(objects', hash, ShardRDBKey(c, b, Named(objects', c, b)[0].index), f.sha256);
  }

  lemma OneDump(o: Options, sp: ShardPrimary, op: Op)
    requires o.shards == [sp] && o.unwritable == {} && o.stream(sp.index).Some?
    requires op == Put(ShardRDBKey(o.cluster, o.backup, sp.index), Rdb(o.stream(sp.index).value))
    ensures 1 <= |BackupOps(o)| && BackupOps(o)[..1] == [op]
  {
    hide ShardRDBKey;
    assert Sort([sp], IndexLe) == [sp];
    assert [sp][..0] == [];
    assert Snapshots(o, [sp]).puts == [op];
  }

  /** Running backups over a sound store can break no hash, wherever they stop, if and only if the
      set's manifest is absent or names nothing. */
  lemma RerunIff(objects: Objects, hash: Hash, c: string, b: string, x: Bytes, y: Bytes)
    requires PlainName(c) && PlainName(b) && Whole(objects, hash) && hash(x) != hash(y)
    ensures Named(objects, c, b) == [] <==>
            forall o: Options, k: nat | o.cluster == c && o.backup == b && o.hash == hash && OnePerIndex(o.shards)
                     && k <= |BackupOps(o)| ::
              Whole(Replay(objects, BackupOps(o)[..k]), hash)
  {
    hide Whole, PlainName, Named, BackupOps;
    if Named(objects, c, b) == [] {
      forall o: Options, k: nat | o.cluster == c && o.backup == b && o.hash == hash && OnePerIndex(o.shards)
               && k <= |BackupOps(o)|
        ensures Whole(Replay(objects, BackupOps(o)[..k]), hash)
      {
        BackupKeepsWhole(objects, o, k);
      }
    } else {
      var z := if hash(x) != Named(objects, c, b)[0].sha256 then x else y;
      var o := RerunBreaks(objects, hash, c, b, z);
    }
  }
}
