/** The gate a restore passes before anything is provisioned (perconavalkeyrestore/validate.go),
    and what every strict backup guarantees about it. */
module RestoreCompat {
  import opened Sorting
  import opened SlotRanges
  import opened EvenSplit
  import opened ClusterView
  import opened Coverage
  import opened SlotText
  import opened BackupStore
  import opened BackupSets

  function Lower(s: string): (r: string) {
    seq(|s|, i requires 0 <= i < |s| => if 'A' <= s[i] <= 'Z' then (s[i] as int + 32) as char else s[i])
  }

  /** `strings.EqualFold` against a lower-case ASCII word without k or s. */
  predicate EqualFold(s: string, word: string) { Lower(s) == word }

  /** The ranges of every fragment, or an error if one does not parse. */
  function ParseShards(shards: seq<ShardManifest>): (r: Result<seq<seq<SlotRange>>>)
    ensures r.Ok? ==> |r.value| == |shards|
  {
    if shards == [] then Ok([])
    else
      var init, last := ParseShards(shards[..|shards| - 1]), ParseRanges(shards[|shards| - 1].slotRanges);
      if init.Err? || last.Err? then Err else Ok(init.value + [last.value])
  }

  ghost predicate IsPartial(man: Manifest, groups: seq<seq<SlotRange>>) {
    !ExactCover(Flatten(groups)) || EqualFold(man.slotCoverage, PARTIAL)
  }

  /** When a restore may go ahead. */
  ghost predicate Accepts(man: Manifest, allowPartial: bool, template: Option<int>) {
    && man.shards != [] && ParseShards(man.shards).Ok?
    && (allowPartial || !IsPartial(man, ParseShards(man.shards).value))
    && (template.Some? ==> template.value == |man.shards|)
  }

  /** The fragments parse exactly when each one does, and to what each one says. */
  lemma {:induction false} ParseShardsAre(shards: seq<ShardManifest>)
    ensures ParseShards(shards).Ok? <==> forall i :: 0 <= i < |shards| ==> ParseRanges(shards[i].slotRanges).Ok?
    ensures ParseShards(shards).Ok? ==> forall i :: 0 <= i < |shards| ==>
              ParseRanges(shards[i].slotRanges) == Ok(ParseShards(shards).value[i])
  {
    hide ParseRanges;
    if shards == [] {
    } else {
      var front, last := shards[..|shards| - 1], |shards| - 1;
      ParseShardsAre(front);
      assert forall i :: 0 <= i < last ==> front[i] == shards[i];
      assert ParseShards(shards).Ok? ==> ParseRanges(shards[last].slotRanges).Ok?;
    }
  }

  /** Letter by letter the same, in either case. */
  lemma FoldIs(s: string, word: string)
    requires forall i :: 0 <= i < |word| ==> 'a' <= word[i] <= 'z'
    ensures EqualFold(s, word) <==>
            |s| == |word| && forall i :: 0 <= i < |s| ==> s[i] == word[i] || s[i] as int + 32 == word[i] as int
  {
    assert |Lower(s)| == |s|;
    forall i | 0 <= i < |s| && i < |word|
      ensures Lower(s)[i] == word[i] <==> s[i] == word[i] || s[i] as int + 32 == word[i] as int
    {}
    if |s| == |word| && (forall i :: 0 <= i < |s| ==> Lower(s)[i] == word[i]) { assert Lower(s) == word; }
  }

  method ParseAll(shards: seq<ShardManifest>) returns (r: Result<seq<seq<SlotRange>>>)
    ensures r == ParseShards(shards)
  {
    var perShard := [];
    for i := 0 to |shards|
      invariant ParseShards(shards[..i]) == Ok(perShard)
    {
      assert shards[..i + 1][..i] == shards[..i];
      var ranges := ParseManifestSlotRanges(shards[i].slotRanges);
      if ranges.Err? {
        ParseErrorSticks(shards, i + 1);
        return Err;
      }
      perShard := perShard + [ranges.value];
    }
    assert shards[..|shards|] == shards;
    return Ok(perShard);
  }

  /** `validateCompat`. `template` is the shard count of a cluster template, if one is given. */
  method ValidateCompat(man: Manifest, allowPartial: bool, template: Option<int>) returns (r: Result<Verdict>)
    ensures r.Ok? <==> Accepts(man, allowPartial, template)
    ensures r.Ok? <==>
            && man.shards != [] && (forall i :: 0 <= i < |man.shards| ==> ParseRanges(man.shards[i].slotRanges).Ok?)
            && ParseShards(man.shards).Ok?
            && (allowPartial
                || (ExactCover(Flatten(ParseShards(man.shards).value)) && !EqualFold(man.slotCoverage, "partial")))
            && (template == None || template == Some(|man.shards|))
    ensures r.Ok? ==> var ranges := Flatten(ParseShards(man.shards).value);
                      && (r.value.complete <==> ExactCover(ranges)) && (r.value.overlap <==> Overlaps(ranges))
                      && r.value.covered == |CoveredSet(ranges)|
  {
    ParseShardsAre(man.shards);
    hide ParseRanges;
    if |man.shards| == 0 {
      return Err;
    }
    var parsed := ParseAll(man.shards);
    if parsed.Err? {
      return Err;
    }
    hide ParseShards, EqualFold;
    var perShard := parsed.value;
    ParsedInBounds(man.shards);
    var verdict := ValidateManifestCoverage(perShard);
    if verdict.Err? {
      return Err;
    }
    OverlapIsPartial(Flatten(perShard));
    var partial := verdict.value.overlap || !verdict.value.complete || EqualFold(man.slotCoverage, PARTIAL);
    if partial && !allowPartial {
      return Err;
    }
    if template.Some? && template.value != |man.shards| {
      return Err;
    }
    return verdict;
  }

  lemma OverlapIsPartial(ranges: seq<SlotRange>)
    ensures Overlaps(ranges) ==> !ExactCover(ranges)
  {
    if Overlaps(ranges) && ExactCover(ranges) {
      var s: int :| CoverCount(ranges, s) >= 2;
      assert CoverCount(ranges, s) <= 1;
    }
  }

  lemma {:induction false} ParseErrorSticks(shards: seq<ShardManifest>, i: nat)
    requires i <= |shards| && ParseShards(shards[..i]).Err?
    ensures ParseShards(shards).Err?
    decreases |shards| - i
  {
    if i < |shards| {
      assert shards[..i + 1][..i] == shards[..i];
      ParseErrorSticks(shards, i + 1);
    } else {
      assert shards[..i] == shards;
    }
  }

  /** Whatever parses is in bounds, so the bitmap never reports an error here. */
  lemma {:induction false} ParsedInBounds(shards: seq<ShardManifest>)
    ensures ParseShards(shards).Ok? ==> AllInBounds(Flatten(ParseShards(shards).value))
  {
    if shards != [] && ParseShards(shards).Ok? {
      ParsedInBounds(shards[..|shards| - 1]);
      var groups := ParseShards(shards).value;
      assert groups[..|groups| - 1] == ParseShards(shards[..|shards| - 1]).value;
    }
  }

  // ----- backups that restore

  lemma {:induction false} InBoundsPrefix(a: seq<SlotRange>, b: seq<SlotRange>)
    requires AllInBounds(a + b)
    ensures AllInBounds(a) && AllInBounds(b)
  {
    forall i | 0 <= i < |a| ensures InBounds(a[i]) { assert (a + b)[i] == a[i]; }
    forall i | 0 <= i < |b| ensures InBounds(b[i]) { assert (a + b)[|a| + i] == b[i]; }
  }

  /** What a backup wrote parses back to what it captured, shard by shard. */
  lemma {:induction false} FragmentsParse(o: Options, shards: seq<ShardPrimary>)
    requires AllInBounds(Snapshots(o, shards).captured)
    ensures var p := Snapshots(o, shards);
            ParseShards(p.frags).Ok? && Flatten(ParseShards(p.frags).value) == p.captured
  {
    if shards == [] {
    } else {
      var p, before, sp := Snapshots(o, shards), Snapshots(o, shards[..|shards| - 1]), shards[|shards| - 1];
      if before.failed || !Captures(o, sp) {
        FragmentsParse(o, shards[..|shards| - 1]);
        SameFragments(before.frags, p.frags);
      } else {
        InBoundsPrefix(before.captured, sp.slots);
        FragmentsParse(o, shards[..|shards| - 1]);
        FormatParses(sp.slots);
        AppendFragment(before.frags, Fragment(o, sp, o.stream(sp.index).value), sp.slots);
      }
    }
  }

  lemma SameFragments(a: seq<ShardManifest>, b: seq<ShardManifest>)
    requires a == b
    ensures ParseShards(a) == ParseShards(b)
  {
  }

  lemma AppendFragment(frags: seq<ShardManifest>, f: ShardManifest, slots: seq<SlotRange>)
    requires ParseShards(frags).Ok? && ParseRanges(f.slotRanges) == Ok(slots)
    ensures ParseShards(frags + [f]) == Ok(ParseShards(frags).value + [slots])
    ensures Flatten(ParseShards(frags).value + [slots]) == Flatten(ParseShards(frags).value) + slots
  {
    assert (frags + [f])[..|frags|] == frags;
    var groups := ParseShards(frags).value;
    assert (groups + [slots])[..|groups|] == groups;
  }

  lemma {:induction false} ExactCoverInBounds(ranges: seq<SlotRange>)
    requires ExactCover(ranges)
    ensures AllInBounds(ranges) && ranges != []
  {
    forall i | 0 <= i < |ranges| ensures InBounds(ranges[i]) {
      var r := ranges[i];
      assert r in ranges && r.Has(r.start) && r.Has(r.end);
      CoverCountPositive(ranges, r.start);
      CoverCountPositive(ranges, r.end);
      assert CoverCount(ranges, r.start) == if 0 <= r.start < TOTAL_SLOTS then 1 else 0;
      assert CoverCount(ranges, r.end) == if 0 <= r.end < TOTAL_SLOTS then 1 else 0;
    }
    assert CoverCount(ranges, 0) == 1;
  }

  lemma {:induction false} CapturedHasFragments(o: Options, shards: seq<ShardPrimary>)
    ensures Snapshots(o, shards).frags == [] ==> Snapshots(o, shards).captured == []
  {
    if shards == [] {
    } else {
      CapturedHasFragments(o, shards[..|shards| - 1]);
    }
  }

  /** Every manifest a strict backup writes records a cover of all slots and passes the
      restore gate without the partial-restore opt-in, exactly unless a template asks for a
      different shard count. */
  lemma StrictBackupRestores(o: Options, template: Option<int>)
    requires o.consistency != BEST_EFFORT && WrittenManifest(o).Some?
    ensures var man := WrittenManifest(o).value;
            && (Accepts(man, false, template) <==> (template.Some? ==> template.value == |man.shards|))
            && ParseShards(man.shards).Ok? && ExactCover(Flatten(ParseShards(man.shards).value))
  {
    var sorted := Sort(o.shards, IndexLe);
    var p := Snapshots(o, sorted);
    ExactCoverInBounds(p.captured);
    CapturedHasFragments(o, sorted);
    FragmentsParse(o, sorted);
    assert Lower(COMPLETE)[0] == 'c' && PARTIAL[0] == 'p';
  }
}
