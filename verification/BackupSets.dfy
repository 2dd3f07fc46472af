/** The backup sidecar's three modes against one store: backup (manifest written last), cleanup
    (manifest deleted first) and download (cmd/valkey-backup). Runs may stop after any store
    operation. */
module BackupSets {
  import opened Sorting
  import opened SlotRanges
  import opened ClusterView
  import opened Coverage
  import opened SlotText
  import opened BackupStore

  const BEST_EFFORT: string := "best-effort"
  const COMPLETE: string := "complete"
  const PARTIAL: string := "partial"

  datatype ShardPrimary = ShardPrimary(index: int, nodeID: string, slots: seq<SlotRange>, replOffset: int)

  /** The run's inputs. `stream` is what opening a shard's RDB source yields; `unwritable`
      holds the keys the store refuses; `hash` is SHA-256 in hex. */
  datatype Options = Options(
    cluster: string, backup: string, consistency: string, shards: seq<ShardPrimary>,
    stream: int -> Option<Bytes>, unwritable: set<string>, hash: Bytes -> string)

  predicate IndexLe(a: ShardPrimary, b: ShardPrimary) { a.index <= b.index }

  // ----- backup

  function Fragment(o: Options, sp: ShardPrimary, bytes: Bytes): (r: ShardManifest) {
    ShardManifest(sp.index, sp.nodeID, Format(sp.slots), ShardRDBRelKey(sp.index), |bytes|, o.hash(bytes),
        sp.replOffset)
  }

  function RDBKey(o: Options, sp: ShardPrimary): (r: string) { ShardRDBKey(o.cluster, o.backup, sp.index) }

  predicate Captures(o: Options, sp: ShardPrimary) {
    o.stream(sp.index).Some? && RDBKey(o, sp) !in o.unwritable
  }

  /** What the snapshot loop has done: the puts, the manifest fragments and the captured
      ranges, and whether a strict run has given up. */
  datatype Progress = Progress(puts: seq<Op>, frags: seq<ShardManifest>, captured: seq<SlotRange>, failed: bool)

  function SnapshotStep(o: Options, p: Progress, sp: ShardPrimary): (r: Progress) {
    if p.failed then p
    else if Captures(o, sp) then
      var bytes := o.stream(sp.index).value;
      Progress(p.puts + [Put(RDBKey(o, sp), Rdb(bytes))], p.frags + [Fragment(o, sp, bytes)], p.captured + sp.slots,
          false)
    else p.(failed := o.consistency != BEST_EFFORT)
  }

  function Snapshots(o: Options, shards: seq<ShardPrimary>): (r: Progress) {
    if shards == [] then Progress([], [], [], false)
    else SnapshotStep(o, Snapshots(o, shards[..|shards| - 1]), shards[|shards| - 1])
  }

  ghost function WrittenManifest(o: Options): (r: Option<Manifest>) {
    var p := Snapshots(o, Sort(o.shards, IndexLe));
    if p.failed || (o.consistency != BEST_EFFORT && !ExactCover(p.captured))
       || ManifestKey(o.cluster, o.backup) in o.unwritable
    then None
    else
      var coverage := if ExactCover(p.captured) then COMPLETE else PARTIAL;
      Some(Manifest(o.cluster, o.backup, o.consistency, coverage, p.frags))
  }

  /** Every mutation of a run, in order: the dumps, then at most one manifest. */
  ghost function BackupOps(o: Options): (r: seq<Op>) {
    var puts := Snapshots(o, Sort(o.shards, IndexLe)).puts;
    match WrittenManifest(o)
    case None => puts
    case Some(man) => puts + [Put(ManifestKey(o.cluster, o.backup), Doc(man))]
  }

  /** `snapshotShard`: stream one dump into the store; None when opening or writing fails. */
  method SnapshotShard(o: Options, sp: ShardPrimary, store: FakeStore) returns (frag: Option<ShardManifest>)
    modifies store
    ensures frag == if Captures(o, sp) then Some(Fragment(o, sp, o.stream(sp.index).value)) else None
    ensures var op := if Captures(o, sp) then [Put(RDBKey(o, sp), Rdb(o.stream(sp.index).value))] else [];
            store.ops == old(store.ops) + op && store.objects == Replay(old(store.objects), op)
  {
    var bytes := o.stream(sp.index);
    if bytes.None? {
      return None;
    }
    var op := Put(RDBKey(o, sp), Rdb(bytes.value));
    ReplayOne(store.objects, op);
    var stored := store.PutObject(op.key, op.item, op.key in o.unwritable);
    if !stored {
      return None;
    }
    return Some(Fragment(o, sp, bytes.value));
  }

  lemma ReplayOne(objects: Objects, op: Op)
    ensures Replay(objects, [op]) == Apply(objects, op)
  {
    assert [op][..0] == [];
  }

  /** `runBackup`. */
  method RunBackup(o: Options, store: FakeStore) returns (ok: bool)
    modifies store
    ensures ok <==> WrittenManifest(o).Some?
    ensures store.ops == old(store.ops) + BackupOps(o)
    ensures store.objects == Replay(old(store.objects), BackupOps(o))
  {
    hide Replay, ExactCover, Format, Fragment, RDBKey, Sort;
    var shards := Sort(o.shards, IndexLe);
    var frags, captured := [], [];
    ghost var p := Progress([], [], [], false);
    ReplayNothing(store.objects);
    for i := 0 to |shards|
      invariant p == Snapshots(o, shards[..i]) && !p.failed
      invariant frags == p.frags && captured == p.captured
      invariant store.ops == old(store.ops) + p.puts
      invariant store.objects == Replay(old(store.objects), p.puts)
    {
      assert shards[..i + 1][..i] == shards[..i];
      var sp := shards[i];
      ghost var before := p;
      p := SnapshotStep(o, p, sp);
      var frag := SnapshotShard(o, sp, store);
      if frag.None? {
        ReplayNothing(Replay(old(store.objects), before.puts));
        if o.consistency != BEST_EFFORT {
          FailureSticks(o, shards, i + 1);
          return false;
        }
        continue;
      }
      ReplayConcat(old(store.objects), before.puts, [Put(RDBKey(o, sp), Rdb(o.stream(sp.index).value))]);
      frags, captured := frags + [frag.value], captured + sp.slots;
    }
    assert shards[..|shards|] == shards;
    var complete := AssertCoverage(captured);
    if !complete && o.consistency != BEST_EFFORT {
      return false;
    }
    var man := Manifest(o.cluster, o.backup, o.consistency, if complete then COMPLETE else PARTIAL, frags);
    var op := Put(ManifestKey(o.cluster, o.backup), Doc(man));
    ReplayConcat(old(store.objects), p.puts, [op]);
    ReplayOne(store.objects, op);
    ok := store.PutObject(op.key, op.item, op.key in o.unwritable);
  }

  lemma ReplayNothing(objects: Objects)
    ensures Replay(objects, []) == objects
  {
  }

  lemma {:induction false} FailureSticks(o: Options, shards: seq<ShardPrimary>, i: nat)
    requires i <= |shards| && Snapshots(o, shards[..i]).failed
    ensures Snapshots(o, shards) == Snapshots(o, shards[..i])
    decreases |shards| - i
  {
    if i < |shards| {
      assert shards[..i + 1][..i] == shards[..i];
      FailureSticks(o, shards, i + 1);
    } else {
      assert shards[..i] == shards;
    }
  }

  // ----- what a backup writes, said without the loop

  /** The shard's stream opens and its dump can be written. */
  predicate CanTake(o: Options, sp: ShardPrimary) {
    o.stream(sp.index).Some? && ShardRDBKey(o.cluster, o.backup, sp.index) !in o.unwritable
  }

  /** What the manifest says of one shard. */
  predicate Describes(o: Options, sp: ShardPrimary, f: ShardManifest) {
    && CanTake(o, sp) && f.index == sp.index && f.nodeID == sp.nodeID && f.slotRanges == Format(sp.slots)
    && f.rdbKey == ShardRDBRelKey(sp.index) && f.size == |o.stream(sp.index).value|
    && f.sha256 == o.hash(o.stream(sp.index).value) && f.replOffset == sp.replOffset
  }

  /** The slots of the shards taken, in order. */
  ghost function TakenSlots(o: Options, shards: seq<ShardPrimary>): (r: seq<SlotRange>) {
    if shards == [] then []
    else
      var before, last := TakenSlots(o, shards[..|shards| - 1]), shards[|shards| - 1];
      if CanTake(o, last) then before + last.slots else before
  }

  /** The loop gives up exactly when a strict run meets a shard it cannot take. Otherwise every shard
      it can take, and no other, has its dump stored and its line in the manifest, in order. */
  lemma {:induction false} SnapshotsAre(o: Options, shards: seq<ShardPrimary>)
    ensures var p := Snapshots(o, shards);
            && (p.failed <==> o.consistency != BEST_EFFORT && exists sp :: sp in shards && !CanTake(o, sp))
            && (!p.failed ==>
                  && p.captured == TakenSlots(o, shards)
                  && (forall sp :: sp in shards && CanTake(o, sp) ==> exists f :: f in p.frags && Describes(o, sp, f))
                  && (forall f :: f in p.frags ==> exists sp :: sp in shards && Describes(o, sp, f))
                  && (forall sp :: sp in shards && CanTake(o, sp) ==>
                        Put(ShardRDBKey(o.cluster, o.backup, sp.index), Rdb(o.stream(sp.index).value)) in p.puts))
  {
    hide Format, ShardRDBKey, ShardRDBRelKey;
    if shards == [] {
    } else {
      var front, last := shards[..|shards| - 1], shards[|shards| - 1];
      SnapshotsAre(o, front);
      assert shards == front + [last];
      if !Snapshots(o, front).failed && CanTake(o, last) {
        var f := Fragment(o, last, o.stream(last.index).value);
        assert Describes(o, last, f);
        SnapshotTaken(o, Snapshots(o, front), Snapshots(o, shards), front, last, f);
      }
    }
  }

  lemma SnapshotTaken(o: Options, p: Progress, q: Progress, front: seq<ShardPrimary>, last: ShardPrimary,
                      f: ShardManifest)
    requires Describes(o, last, f) && q.frags == p.frags + [f]
    requires (forall sp :: sp in front && CanTake(o, sp) ==> exists f :: f in p.frags && Describes(o, sp, f))
    requires (forall f :: f in p.frags ==> exists sp :: sp in front && Describes(o, sp, f))
    ensures forall sp :: sp in front + [last] && CanTake(o, sp) ==> exists f :: f in q.frags && Describes(o, sp, f)
    ensures forall f :: f in q.frags ==> exists sp :: sp in front + [last] && Describes(o, sp, f)
  {
    hide Describes;
    assert f in q.frags && last in front + [last];
    forall sp | sp in front + [last] && CanTake(o, sp) ensures exists g :: g in q.frags && Describes(o, sp, g) {
      if sp in front { var g :| g in p.frags && Describes(o, sp, g); assert g in q.frags; }
    }
    forall g | g in q.frags ensures exists sp :: sp in front + [last] && Describes(o, sp, g) {
      if g in p.frags { var sp :| sp in front && Describes(o, sp, g); assert sp in front + [last]; }
    }
  }

  lemma {:induction false} FragmentsInOrder(o: Options, shards: seq<ShardPrimary>)
    requires Sorted(shards, IndexLe)
    ensures var frags := Snapshots(o, shards).frags;
            && (forall f :: f in frags ==> shards != [] && f.index <= shards[|shards| - 1].index)
            && forall i, j :: 0 <= i < j < |frags| ==> frags[i].index <= frags[j].index
  {
    if shards == [] {
    } else {
      var front := shards[..|shards| - 1];
      FragmentsInOrder(o, front);
      FragmentsSnoc(o, shards);
      assert front != [] ==> IndexLe(front[|front| - 1], shards[|shards| - 1]);
      hide Snapshots;
      assert forall i :: 0 <= i < |Snapshots(o, front).frags| ==>
          Snapshots(o, front).frags[i] in Snapshots(o, front).frags;
    }
  }

  /** When a run writes its manifest, and what it says: a strict one only if every shard could be
      taken and their slots are an exact cover; a best-effort one always. It lists exactly the
      shards taken, and calls itself complete exactly if their slots are an exact cover. */
  lemma ManifestIs(o: Options)
    ensures var shards := Sort(o.shards, IndexLe);
            && (WrittenManifest(o).Some? <==>
                && ManifestKey(o.cluster, o.backup) !in o.unwritable
                && (o.consistency == "best-effort"
                    || ((forall sp :: sp in o.shards ==> CanTake(o, sp)) && ExactCover(TakenSlots(o, shards)))))
            && (WrittenManifest(o).Some? ==>
                  var man := WrittenManifest(o).value;
                  && man.cluster == o.cluster && man.backupName == o.backup && man.consistency == o.consistency
                  && man.slotCoverage == (if ExactCover(TakenSlots(o, shards)) then "complete" else "partial")
                  && (forall sp :: sp in o.shards && CanTake(o, sp) ==>
                        exists f :: f in man.shards && Describes(o, sp, f))
                  && (forall f :: f in man.shards ==> exists sp :: sp in o.shards && Describes(o, sp, f))
                  && (forall i, j :: 0 <= i < j < |man.shards| ==> man.shards[i].index <= man.shards[j].index))
  {
    var shards := Sort(o.shards, IndexLe);
    SortPermutes(o.shards, IndexLe);
    SnapshotsAre(o, shards);
    assert TotalPreorder(IndexLe);
    SortSorts(o.shards, IndexLe);
    FragmentsInOrder(o, shards);
    hide Sort, Snapshots, TakenSlots, ExactCover, Describes, CanTake;
    assert forall sp :: sp in shards <==> sp in o.shards;
  }

  // ----- cleanup

  /** The mutations of a cleanup, complete or cut short: the manifest goes first, then only
      objects of the set. */
  ghost predicate IsCleanup(ops: seq<Op>, cluster: string, backup: string) {
    ops != [] ==>
      && ops[0] == Delete(ManifestKey(cluster, backup))
      && forall i :: 1 <= i < |ops| ==> ops[i].Delete? && Under(ops[i].key, SetPrefix(cluster, backup))
  }

  /** The store less everything under the prefix. */
  function Without(objects: Objects, prefix: string): (r: Objects) {
    map k | k in objects && !Under(k, prefix) :: objects[k]
  }

  /** `runCleanup`; `undeletable` holds the keys the store fails on. */
  method RunCleanup(cluster: string, backup: string, undeletable: set<string>, store: FakeStore) returns (ok: bool)
    requires PlainName(cluster) && PlainName(backup)
    modifies store
    ensures old(store.ops) <= store.ops && IsCleanup(store.ops[|old(store.ops)|..], cluster, backup)
    ensures store.objects == Replay(old(store.objects), store.ops[|old(store.ops)|..])
    ensures ok ==> store.objects == Without(old(store.objects), SetPrefix(cluster, backup))
    ensures ok <==> && ManifestKey(cluster, backup) !in undeletable
                    && forall k :: k in old(store.objects) && Under(k, SetPrefix(cluster, backup)) ==> k !in undeletable
  {
    hide Under, Listed, Replay, StringLe, Cleaning;
    var prefix, manifestKey := SetPrefix(cluster, backup), ManifestKey(cluster, backup);
    ghost var before := store.objects;
    PrefixPlain(cluster, backup);
    ReplayNothing(before);
    ok := store.DeleteObject(manifestKey, manifestKey in undeletable);
    if !ok {
      return;
    }
    ghost var trace := [Delete(manifestKey)];
    ReplayOne(before, trace[0]);
    var keys := store.List(prefix);
    CleaningStart(before, cluster, backup, keys);
    var deleted, more := DeleteKeys(keys, undeletable, prefix, store, before);
    trace := trace + more;
    ReplayConcat(before, [Delete(manifestKey)], more);
    assert store.ops[|old(store.ops)|..] == [Delete(manifestKey)] + more;
    if !deleted {
      return false;
    }
    CleaningDone(before, store.objects, prefix);
    var remaining := store.List(prefix);
    EmptyIff(remaining);
    ok := |remaining| == 0;
  }

  lemma EmptyIff(keys: seq<string>)
    ensures keys == [] <==> forall k :: k !in keys
  {
    if keys != [] { assert keys[0] in keys; }
  }

  /** Delete the listed keys in turn, up to the first the store fails on. */
  method DeleteKeys(keys: seq<string>, undeletable: set<string>, prefix: string, store: FakeStore,
                    ghost before: Objects)
    returns (ok: bool, ghost trace: seq<Op>)
    requires Cleaning(before, store.objects, prefix, keys) && forall k :: k in keys ==> Under(k, prefix)
    modifies store
    ensures store.ops == old(store.ops) + trace && store.objects == Replay(old(store.objects), trace)
    ensures forall i :: 0 <= i < |trace| ==> trace[i].Delete? && Under(trace[i].key, prefix)
    ensures ok ==> Cleaning(before, store.objects, prefix, [])
    ensures ok <==> forall k :: k in keys ==> k !in undeletable
  {
    hide Under, Replay, Cleaning;
    trace := [];
    ReplayNothing(store.objects);
    assert keys[0..] == keys;
    for i := 0 to |keys|
      invariant store.ops == old(store.ops) + trace && store.objects == Replay(old(store.objects), trace)
      invariant forall i :: 0 <= i < |trace| ==> trace[i].Delete? && Under(trace[i].key, prefix)
      invariant Cleaning(before, store.objects, prefix, keys[i..])
      invariant forall j :: 0 <= j < i ==> keys[j] !in undeletable
    {
      assert keys[i] in keys;
      CleaningStep(before, store.objects, prefix, keys[i..]);
      assert keys[i..][1..] == keys[i + 1..];
      ReplayConcat(old(store.objects), trace, [Delete(keys[i])]);
      ReplayOne(store.objects, Delete(keys[i]));
      assert old(store.ops) + trace + [Delete(keys[i])] == old(store.ops) + (trace + [Delete(keys[i])]);
      var deleted := store.DeleteObject(keys[i], keys[i] in undeletable);
      if !deleted {
        return false, trace;
      }
      trace := trace + [Delete(keys[i])];
    }
    assert keys[|keys|..] == [];
    return true, trace;
  }

  /** Nothing outside the set has changed, and what is left of it is still to be deleted. */
  ghost predicate Cleaning(before: Objects, objects: Objects, prefix: string, left: seq<string>) {
    && (forall k :: k in objects ==> k in before && objects[k] == before[k])
    && (forall k :: k in before && !Under(k, prefix) ==> k in objects)
    && (forall k :: k in objects && Under(k, prefix) ==> k in left)
  }

  lemma CleaningStart(before: Objects, cluster: string, backup: string, keys: seq<string>)
    requires var objects := before - {ManifestKey(cluster, backup)};
             forall k :: k in objects && Under(k, SetPrefix(cluster, backup)) ==> k in keys
    ensures Cleaning(before, before - {ManifestKey(cluster, backup)}, SetPrefix(cluster, backup), keys)
  {
    ManifestUnder(cluster, backup);
  }

  lemma CleaningStep(before: Objects, objects: Objects, prefix: string, left: seq<string>)
    requires Cleaning(before, objects, prefix, left) && left != [] && Under(left[0], prefix)
    ensures Cleaning(before, objects - {left[0]}, prefix, left[1..])
  {
    assert left == [left[0]] + left[1..];
  }

  lemma CleaningDone(before: Objects, objects: Objects, prefix: string)
    requires Cleaning(before, objects, prefix, [])
    ensures objects == Without(before, prefix)
    ensures forall k :: k in objects ==> !Under(k, prefix)
  {
  }

  lemma PrefixPlain(cluster: string, backup: string)
    requires PlainName(cluster) && PlainName(backup)
    ensures forall k :: Listed(k, SetPrefix(cluster, backup)) <==> Under(k, SetPrefix(cluster, backup))
  {
    var p := SetPrefix(cluster, backup);
    assert p[|p| - 1] == backup[|backup| - 1];
    assert TrimSlash(p) == p;
  }

  lemma ManifestUnder(cluster: string, backup: string)
    ensures Under(ManifestKey(cluster, backup), SetPrefix(cluster, backup))
  {
  }

  // ----- histories

  /** One run, as far as it got. */
  datatype Segment = Backup(o: Options, reached: nat) | Cleanup(cluster: string, backup: string, ops: seq<Op>)

  ghost predicate ValidSegment(seg: Segment) {
    match seg
    case Backup(o, k) => PlainName(o.cluster) && PlainName(o.backup) && k <= |BackupOps(o)|
    case Cleanup(c, b, ops) => PlainName(c) && PlainName(b) && IsCleanup(ops, c, b)
  }

  ghost function SegmentOps(seg: Segment): (r: seq<Op>)
    requires ValidSegment(seg)
  {
    match seg
    case Backup(o, k) => BackupOps(o)[..k]
    case Cleanup(c, b, ops) => ops
  }

  ghost function After(objects: Objects, history: seq<Segment>): (r: Objects)
    requires forall i :: 0 <= i < |history| ==> ValidSegment(history[i])
  {
    if history == [] then objects
    else Replay(After(objects, history[..|history| - 1]), SegmentOps(history[|history| - 1]))
  }

  /** A present manifest names only dumps that are present. */
  ghost predicate Sound(objects: Objects) {
    forall c, b :: PlainName(c) && PlainName(b) ==> SetSound(objects, c, b)
  }

  ghost predicate SetSound(objects: Objects, c: string, b: string) {
    ManifestKey(c, b) in objects && objects[ManifestKey(c, b)].Doc? ==>
      forall i :: 0 <= i < |objects[ManifestKey(c, b)].manifest.shards| ==>
        ShardRDBKey(c, b, objects[ManifestKey(c, b)].manifest.shards[i].index) in objects
  }

  /** The dumps a run has stored back its fragments, and no put touches a manifest. */
  lemma {:induction false} SnapshotFacts(o: Options, shards: seq<ShardPrimary>)
    ensures var p := Snapshots(o, shards);
            && |p.puts| == |p.frags|
            && forall i :: 0 <= i < |p.puts| ==>
                 && p.puts[i].Put? && p.puts[i].key == ShardRDBKey(o.cluster, o.backup, p.frags[i].index)
                 && p.puts[i].item.Rdb? && p.frags[i].sha256 == o.hash(p.puts[i].item.bytes)
                 && o.stream(p.frags[i].index) == Some(p.puts[i].item.bytes)
  {
    if shards == [] {
    } else {
      SnapshotFacts(o, shards[..|shards| - 1]);
    }
  }

  lemma {:induction false} PutsPresent(objects: Objects, puts: seq<Op>, i: nat)
    requires i < |puts| && forall k :: 0 <= k < |puts| ==> puts[k].Put?
    ensures puts[i].key in Replay(objects, puts)
  {
    if i < |puts| - 1 { PutsPresent(objects, puts[..|puts| - 1], i); }
  }

  lemma PutKeepsSound(objects: Objects, c: string, b: string, i: int, item: Object)
    requires PlainName(c) && PlainName(b) && Sound(objects)
    ensures Sound(objects[ShardRDBKey(c, b, i) := item])
  {
    var objects' := objects[ShardRDBKey(c, b, i) := item];
    forall c', b' | PlainName(c') && PlainName(b') ensures SetSound(objects', c', b') {
      ManifestIsNoRDB(c', b', c, b, i);
      assert SetSound(objects, c', b');
    }
  }

  lemma {:induction false} PutsKeepSound(objects: Objects, o: Options, k: nat)
    requires PlainName(o.cluster) && PlainName(o.backup) && Sound(objects)
    requires k <= |Snapshots(o, Sort(o.shards, IndexLe)).puts|
    ensures Sound(Replay(objects, Snapshots(o, Sort(o.shards, IndexLe)).puts[..k]))
  {
    hide Sort, Snapshots, Sound, PlainName;
    var p := Snapshots(o, Sort(o.shards, IndexLe));
    if k == 0 {
    } else {
      PutsKeepSound(objects, o, k - 1);
      SnapshotFacts(o, Sort(o.shards, IndexLe));
      assert p.puts[..k][..k - 1] == p.puts[..k - 1];
      PutKeepsSound(Replay(objects, p.puts[..k - 1]), o.cluster, o.backup, p.frags[k - 1].index, p.puts[k - 1].item);
    }
  }

  /** Writing the manifest is sound because all its dumps were written before it. */
  lemma ManifestLastIsSound(objects: Objects, o: Options, man: Manifest)
    requires PlainName(o.cluster) && PlainName(o.backup) && Sound(objects)
    requires forall i :: 0 <= i < |man.shards| ==> ShardRDBKey(o.cluster, o.backup, man.shards[i].index) in objects
    ensures Sound(objects[ManifestKey(o.cluster, o.backup) := Doc(man)])
  {
    var objects' := objects[ManifestKey(o.cluster, o.backup) := Doc(man)];
    forall c, b | PlainName(c) && PlainName(b) ensures SetSound(objects', c, b) {
      assert SetSound(objects, c, b);
      if ManifestKey(c, b) == ManifestKey(o.cluster, o.backup) {
        SetKeyUnique(c, b, MANIFEST, o.cluster, o.backup, MANIFEST);
      }
    }
  }

  lemma BackupKeepsSound(objects: Objects, o: Options, k: nat)
    requires PlainName(o.cluster) && PlainName(o.backup) && Sound(objects) && k <= |BackupOps(o)|
    ensures Sound(Replay(objects, BackupOps(o)[..k]))
  {
    var p, ops := Snapshots(o, Sort(o.shards, IndexLe)), BackupOps(o);
    if k <= |p.puts| {
      PutsKeepSound(objects, o, k);
      assert ops[..k] == p.puts[..k];
    } else {
      PutsKeepSound(objects, o, |p.puts|);
      assert p.puts[..|p.puts|] == p.puts;
      SnapshotFacts(o, Sort(o.shards, IndexLe));
      var man := WrittenManifest(o).value;
      assert ops[..k] == p.puts + [ops[|p.puts|]];
      ReplayConcat(objects, p.puts, [ops[|p.puts|]]);
      ReplayOne(Replay(objects, p.puts), ops[|p.puts|]);
      forall i | 0 <= i < |man.shards|
        ensures ShardRDBKey(o.cluster, o.backup, man.shards[i].index) in Replay(objects, p.puts)
      {
        PutsPresent(objects, p.puts, i);
      }
      ManifestLastIsSound(Replay(objects, p.puts), o, man);
    }
  }

  /** During a cleanup its own manifest is gone and every other set is as before. */
  lemma {:induction false} CleanupFacts(objects: Objects, ops: seq<Op>, c: string, b: string)
    requires IsCleanup(ops, c, b) && ops != []
    ensures ManifestKey(c, b) !in Replay(objects, ops)
    ensures forall k :: k in Replay(objects, ops) ==> k in objects && Replay(objects, ops)[k] == objects[k]
    ensures forall k :: k in objects && !Under(k, SetPrefix(c, b)) ==> k in Replay(objects, ops)
  {
    ManifestUnder(c, b);
    var front := ops[..|ops| - 1];
    if front == [] {
    } else {
      CleanupFacts(objects, front, c, b);
    }
  }

  lemma CleanupKeepsSound(objects: Objects, ops: seq<Op>, c: string, b: string)
    requires PlainName(c) && PlainName(b) && IsCleanup(ops, c, b) && Sound(objects)
    ensures Sound(Replay(objects, ops))
  {
    if ops != [] {
      CleanupFacts(objects, ops, c, b);
      var objects' := Replay(objects, ops);
      forall c', b' | PlainName(c') && PlainName(b') ensures SetSound(objects', c', b') {
        assert SetSound(objects, c', b');
        if ManifestKey(c', b') in objects' && objects'[ManifestKey(c', b')].Doc? {
          var shards := objects'[ManifestKey(c', b')].manifest.shards;
          forall i | 0 <= i < |shards| ensures ShardRDBKey(c', b', shards[i].index) in objects' {
            UnderOnlyOwnSet(c, b, c', b', ShardRDBRelKey(shards[i].index));
          }
        }
      }
    }
  }

  /** Over any sequence of backup and cleanup runs, each stopped anywhere, a manifest that is
      present never names a missing dump. */
  lemma {:induction false} HistoriesAreSound(history: seq<Segment>)
    requires forall i :: 0 <= i < |history| ==> ValidSegment(history[i])
    ensures Sound(After(map[], history))
  {
    if history == [] {
    } else {
      HistoriesAreSound(history[..|history| - 1]);
      var before := After(map[], history[..|history| - 1]);
      match history[|history| - 1]
      case Backup(o, k) => BackupKeepsSound(before, o, k);
      case Cleanup(c, b, ops) => CleanupKeepsSound(before, ops, c, b);
    }
  }

  // ----- download

  function FindFragment(shards: seq<ShardManifest>, index: int): (r: Option<ShardManifest>) {
    if shards == [] then None
    else if shards[0].index == index then Some(shards[0])
    else FindFragment(shards[1..], index)
  }

  ghost predicate FirstWithIndex(shards: seq<ShardManifest>, index: int, i: int) {
    0 <= i < |shards| && shards[i].index == index && forall j :: 0 <= j < i ==> shards[j].index != index
  }

  /** What a download of one shard writes, right or wrong: the dump, if manifest, fragment and dump exist. */
  function Streamed(objects: Objects, cluster: string, backup: string, index: int): (r: Option<Bytes>) {
    var mk, rk := ManifestKey(cluster, backup), ShardRDBKey(cluster, backup, index);
    if mk !in objects || !objects[mk].Doc? || FindFragment(objects[mk].manifest.shards, index).None? then None
    else if rk !in objects || !objects[rk].Rdb? then None
    else Some(objects[rk].bytes)
  }

  /** What a successful download of one shard yields. */
  function Download(objects: Objects, cluster: string, backup: string, index: int,
                    hash: Bytes -> string): (r: Option<Bytes>) {
    match Streamed(objects, cluster, backup, index)
    case None => None
    case Some(bytes) =>
      var f := FindFragment(objects[ManifestKey(cluster, backup)].manifest.shards, index).value;
      if f.sha256 != "" && hash(bytes) != f.sha256 then None else Some(bytes)
  }

  /** `runDownload`: the manifest is read first, and the bytes count only if their hash is the
      recorded one. The destination has the bytes before the hash is known. */
  method RunDownload(store: FakeStore, cluster: string, backup: string, index: int, hash: Bytes -> string)
    returns (ok: bool, dst: Bytes)
    ensures ok <==> Download(store.objects, cluster, backup, index, hash).Some?
    ensures ok ==>
              && ManifestKey(cluster, backup) in store.objects && store.objects[ManifestKey(cluster, backup)].Doc?
              && exists i :: && 0 <= i < |store.objects[ManifestKey(cluster, backup)].manifest.shards|
                             && var f := store.objects[ManifestKey(cluster, backup)].manifest.shards[i];
                                f.index == index && (f.sha256 == "" || f.sha256 == hash(dst))
    ensures dst == (match Streamed(store.objects, cluster, backup, index) case Some(bytes) => bytes case None => [])
    ensures ok <==>
            var mk, rk := ManifestKey(cluster, backup), ShardRDBKey(cluster, backup, index);
            && mk in store.objects && store.objects[mk].Doc? && rk in store.objects && store.objects[rk].Rdb?
            && exists i :: && FirstWithIndex(store.objects[mk].manifest.shards, index, i)
                           && var sha := store.objects[mk].manifest.shards[i].sha256;
                              sha == "" || sha == hash(store.objects[rk].bytes)
  {
    dst := [];
    var mk := ManifestKey(cluster, backup);
    if mk !in store.objects || !store.objects[mk].Doc? {
      return false, dst;
    }
    var shards := store.objects[mk].manifest.shards;
    FindFragmentFacts(shards, index);
    var frag := FindFragment(shards, index);
    if frag.None? {
      return false, dst;
    }
    var key := ShardRDBKey(cluster, backup, index);
    if key !in store.objects || !store.objects[key].Rdb? {
      return false, dst;
    }
    dst := store.objects[key].bytes;
    return frag.value.sha256 == "" || hash(dst) == frag.value.sha256, dst;
  }

  lemma {:induction false} FindFragmentFacts(shards: seq<ShardManifest>, index: int)
    ensures match FindFragment(shards, index)
            case Some(f) => exists i :: FirstWithIndex(shards, index, i) && shards[i] == f
            case None => forall i :: 0 <= i < |shards| ==> shards[i].index != index
  {
    if shards != [] && shards[0].index != index {
      FindFragmentFacts(shards[1..], index);
      if FindFragment(shards, index).Some? {
        var i :| 0 <= i < |shards[1..]| && shards[1..][i] == FindFragment(shards, index).value;
        assert shards[i + 1] == FindFragment(shards, index).value;
      }
    }
  }

  // ----- backup, then download

  /** One live primary per shard index. */
  ghost predicate OnePerIndex(shards: seq<ShardPrimary>) {
    Distinct(shards) && forall x, y :: x in shards && y in shards && x.index == y.index ==> x == y
  }

  lemma {:induction false} FragmentSource(o: Options, shards: seq<ShardPrimary>, i: nat)
    requires i < |Snapshots(o, shards).frags|
    ensures exists x :: x in shards && x.index == Snapshots(o, shards).frags[i].index
  {
    var last, front := shards[|shards| - 1], shards[..|shards| - 1];
    if i < |Snapshots(o, front).frags| {
      FragmentSource(o, front, i);
      var x :| x in front && x.index == Snapshots(o, front).frags[i].index;
      assert x in shards;
    } else {
      assert last in shards;
    }
  }

  lemma NoFragments(o: Options)
    ensures Snapshots(o, []).frags == []
  {
  }

  lemma FragmentsSnoc(o: Options, shards: seq<ShardPrimary>)
    requires shards != []
    ensures var before, frags := Snapshots(o, shards[..|shards| - 1]).frags, Snapshots(o, shards).frags;
            frags == before || exists f: ShardManifest :: f.index == shards[|shards| - 1].index && frags == before + [f]
  {
  }

  lemma {:induction false} FragmentsDistinct(o: Options, shards: seq<ShardPrimary>)
    requires OnePerIndex(shards)
    ensures var frags := Snapshots(o, shards).frags;
            forall i, j :: 0 <= i < j < |frags| ==> frags[i].index != frags[j].index
  {
    hide Snapshots;
    if shards == [] {
      NoFragments(o);
    } else {
      var last, front := shards[|shards| - 1], shards[..|shards| - 1];
      FragmentsDistinct(o, front);
      FragmentsSnoc(o, shards);
      var before := Snapshots(o, front).frags;
      forall i | 0 <= i < |before| ensures before[i].index != last.index {
        FragmentSource(o, front, i);
        var x :| x in front && x.index == before[i].index;
        var k :| 0 <= k < |front| && front[k] == x;
        assert shards[k] == x && x in shards && last in shards && x != last;
      }
    }
  }

  lemma {:induction false} FindUnique(shards: seq<ShardManifest>, i: nat)
    requires i < |shards| && forall a, b :: 0 <= a < b < |shards| ==> shards[a].index != shards[b].index
    ensures FindFragment(shards, shards[i].index) == Some(shards[i])
  {
    if i == 0 {
    } else {
      FindUnique(shards[1..], i - 1);
    }
  }

  lemma {:induction false} PutSurvives(objects: Objects, puts: seq<Op>, i: nat)
    requires i < |puts| && (forall k :: 0 <= k < |puts| ==> puts[k].Put?)
    requires forall a, b :: 0 <= a < b < |puts| ==> puts[a].key != puts[b].key
    ensures puts[i].key in Replay(objects, puts) && Replay(objects, puts)[puts[i].key] == puts[i].item
  {
    if i < |puts| - 1 { PutSurvives(objects, puts[..|puts| - 1], i); }
  }

  /** What a run has stored for one of its fragments. */
  lemma DumpStored(objects: Objects, o: Options, i: nat)
    requires PlainName(o.cluster) && PlainName(o.backup) && OnePerIndex(o.shards)
    requires i < |Snapshots(o, Sort(o.shards, IndexLe)).frags|
    ensures var p := Snapshots(o, Sort(o.shards, IndexLe));
            var key, after := ShardRDBKey(o.cluster, o.backup, p.frags[i].index), Replay(objects, p.puts);
            && key in after && after[key].Rdb? && o.stream(p.frags[i].index) == Some(after[key].bytes)
            && p.frags[i].sha256 == o.hash(after[key].bytes)
            && FindFragment(p.frags, p.frags[i].index) == Some(p.frags[i])
  {
    var sorted := Sort(o.shards, IndexLe);
    SortPermutes(o.shards, IndexLe);
    SortKeepsDistinct(o.shards, IndexLe);
    FragmentsDistinct(o, sorted);
    SnapshotFacts(o, sorted);
    hide Sort, Snapshots, PlainName, ShardRDBKey, Replay, FindFragment, OnePerIndex;
    var p := Snapshots(o, sorted);
    forall a, b | 0 <= a < b < |p.puts| ensures p.puts[a].key != p.puts[b].key {
      RDBKeysDistinct(o.cluster, o.backup, p.frags[a].index, p.frags[b].index);
    }
    PutSurvives(objects, p.puts, i);
    FindUnique(p.frags, i);
  }

  /** After a successful backup with one primary per index, downloading any recorded shard
      delivers exactly the bytes that were streamed from its primary. */
  lemma BackupThenDownload(objects: Objects, o: Options, i: nat)
    requires PlainName(o.cluster) && PlainName(o.backup) && OnePerIndex(o.shards)
    requires WrittenManifest(o).Some? && i < |WrittenManifest(o).value.shards|
    ensures var index := WrittenManifest(o).value.shards[i].index;
            Download(Replay(objects, BackupOps(o)), o.cluster, o.backup, index, o.hash) == o.stream(index)
  {
    hide Snapshots, Sort, ExactCover, Replay, ManifestKey, ShardRDBKey, PlainName, OnePerIndex, FindFragment;
    var p, man := Snapshots(o, Sort(o.shards, IndexLe)), WrittenManifest(o).value;
    var op := Put(ManifestKey(o.cluster, o.backup), Doc(man));
    assert BackupOps(o) == p.puts + [op];
    ReplayConcat(objects, p.puts, [op]);
    ReplayOne(Replay(objects, p.puts), op);
    DumpStored(objects, o, i);
    ManifestIsNoRDB(o.cluster, o.backup, o.cluster, o.backup, p.frags[i].index);
  }
}
