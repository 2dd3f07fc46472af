/** The even split of slots over shards, computed in three places: slot targets
    (`targetSlotsPerShard`), the bootstrap's chunks of unassigned slots
    (`SplitUnassignedEvenly`, both pkg/valkey/slots.go) and the restore's contiguous
    ranges (`evenSplitRanges`, restore_reform.go). */
module EvenSplit {
  import opened Sorting
  import opened SlotRanges

  function Min(a: int, b: int): (r: int) { if a < b then a else b }

  /** Go's integer division truncates toward zero. */
  function GoDiv(a: int, b: int): (r: int)
    requires b != 0
  {
    if a >= 0 then a / b else -(-a / b)
  }

  function GoMod(a: int, b: int): (r: int)
    requires b != 0
  {
    a - GoDiv(a, b) * b
  }

  // ----- arithmetic of the split

  /** Share of chunk `i` when `total` slots are dealt to `n` chunks, remainder to the lowest. */
  function ChunkSize(total: nat, n: nat, i: nat): (r: nat)
    requires n > 0
  {
    total / n + (if i < total % n then 1 else 0)
  }

  /** Slots dealt to the chunks before chunk `i`. */
  function Offset(total: nat, n: nat, i: nat): (r: nat)
    requires n > 0
  {
    i * (total / n) + Min(i, total % n)
  }

  lemma DivModUnique(x: int, d: int, q: int, r: int)
    requires d > 0 && 0 <= r < d && x == d * q + r
    ensures x / d == q && x % d == r
  {
    var q', r' := x / d, x % d;
    assert d * (q - q') == r' - r;
    assert q - q' >= 1 ==> d * (q - q') >= d;
    assert q - q' <= -1 ==> d * (q - q') <= -d;
  }

  lemma OffsetStep(total: nat, n: nat, i: nat)
    requires n > 0
    ensures Offset(total, n, i + 1) == Offset(total, n, i) + ChunkSize(total, n, i)
  {
    assert (i + 1) * (total / n) == i * (total / n) + total / n;
  }

  lemma OffsetEnds(total: nat, n: nat)
    requires n > 0
    ensures Offset(total, n, 0) == 0 && Offset(total, n, n) == total
  {
    assert 0 * (total / n) == 0;
    assert n * (total / n) + total % n == total;
  }

  lemma {:induction false} OffsetMonotone(total: nat, n: nat, i: nat, j: nat)
    requires n > 0 && i <= j
    ensures Offset(total, n, i) <= Offset(total, n, j)
    decreases j - i
  {
    if i < j {
      OffsetStep(total, n, i);
      OffsetMonotone(total, n, i + 1, j);
    }
  }

  lemma OffsetBound(total: nat, n: nat, i: nat)
    requires n > 0 && i <= n
    ensures Offset(total, n, i) <= total
  {
    OffsetMonotone(total, n, i, n);
    OffsetEnds(total, n);
  }

  /** Dealing what the first `k` chunks left over to the other `n - k` continues the same deal. */
  lemma ResidueOffset(total: nat, n: nat, k: nat, i: nat)
    requires k < n && i <= n - k
    ensures Offset(total, n, k) <= total
    ensures Offset(total, n, k) + Offset(total - Offset(total, n, k), n - k, i) == Offset(total, n, k + i)
  {
    OffsetBound(total, n, k);
    var base, rem := total / n, total % n;
    var left := total - Offset(total, n, k);
    assert left == (n - k) * base + (rem - Min(k, rem)) by {
      assert total == n * base + rem;
      assert (n - k) * base == n * base - k * base;
    }
    DivModUnique(left, n - k, base, rem - Min(k, rem));
    assert (k + i) * base == k * base + i * base;
  }

  // ----- targets

  function Sum(s: seq<int>): (r: int) {
    if s == [] then 0 else s[|s| - 1] + Sum(s[..|s| - 1])
  }

  function Targets(n: nat): (r: seq<int>)
    requires n > 0
  {
    seq(n, i requires 0 <= i < n => ChunkSize(TOTAL_SLOTS, n, i))
  }

  lemma {:induction false} TargetsPrefixSum(n: nat, k: nat)
    requires n > 0 && k <= n
    ensures Sum(Targets(n)[..k]) == Offset(TOTAL_SLOTS, n, k)
  {
    if k == 0 {
      OffsetEnds(TOTAL_SLOTS, n);
    } else {
      TargetsPrefixSum(n, k - 1);
      OffsetStep(TOTAL_SLOTS, n, k - 1);
      assert Targets(n)[..k][..k - 1] == Targets(n)[..k - 1];
    }
  }

  lemma TargetsSum(n: nat)
    requires n > 0
    ensures Sum(Targets(n)) == TOTAL_SLOTS
  {
    TargetsPrefixSum(n, n);
    OffsetEnds(TOTAL_SLOTS, n);
    assert Targets(n)[..n] == Targets(n);
  }

  /** `targetSlotsPerShard`: targets that add up to every slot and differ by at most one,
      the larger ones first. */
  method TargetSlotsPerShard(n: int) returns (out: seq<int>)
    ensures n <= 0 ==> out == []
    ensures n > 0 ==> out == Targets(n) && Sum(out) == TOTAL_SLOTS
    ensures forall i, j :: 0 <= i < j < |out| ==> out[j] <= out[i] <= out[j] + 1
  {
    if n <= 0 {
      return [];
    }
    var base, rem := TOTAL_SLOTS / n, TOTAL_SLOTS % n;
    out := [];
    for i := 0 to n
      invariant out == Targets(n)[..i]
    {
      out := out + [if i < rem then base + 1 else base];
    }
    TargetsSum(n);
  }

  // ----- chunks of unassigned slots

  /** Chunk `i` of dealing the listed slots to `n` chunks in list order. */
  function Chunk(slots: seq<int>, n: nat, i: nat): (r: seq<int>)
    requires i < n
  {
    OffsetBound(|slots|, n, i + 1);
    OffsetMonotone(|slots|, n, i, i + 1);
    slots[Offset(|slots|, n, i)..Offset(|slots|, n, i + 1)]
  }

  function ChunkRanges(slots: seq<int>, n: nat, i: nat): (r: seq<SlotRange>)
    requires i < n
  {
    Compact(Sort(Chunk(slots, n, i), IntLe))
  }

  function EvenChunks(slots: seq<int>, n: nat): (chunks: seq<seq<SlotRange>>)
    ensures |chunks| == n
  {
    seq(n, i requires 0 <= i < n => ChunkRanges(slots, n, i))
  }

  /** `SplitUnassignedEvenly`: peel the lowest share off the list, `n` times. A negative
      `n` makes the Go code panic. */
  method SplitUnassignedEvenly(unassigned: seq<SlotRange>, n: int) returns (out: seq<seq<SlotRange>>)
    requires n >= 0
    ensures |out| == n
    ensures WellFormed(unassigned) ==> out == EvenChunks(Expand(unassigned), n)
  {
    hide GoDiv, GoMod, ChunkSize, Peeled, Chunk, Compact, Sort, Covers, Canonical, Distinct, WellFormed, Take,
        CountSlots, Expand;
    out := [];
    if n <= 0 {
      return;
    }
    var total := CountSlots(unassigned);
    var base, rem := GoDiv(total, n), GoMod(total, n);
    ghost var ok, slots := WellFormed(unassigned), Expand(unassigned);
    if ok { SplitStart(unassigned, n); }
    var rest := unassigned;
    for i := 0 to n
      invariant |out| == i
      invariant ok ==> WellFormed(rest) && Peeled(slots, n, i, Expand(rest))
      invariant ok ==> forall k :: 0 <= k < i ==> out[k] == ChunkRanges(slots, n, k)
    {
      var want := if i < rem then base + 1 else base;
      if ok {
        ChunkSizeIs(|slots|, n, i);
        SplitStep(slots, n, i, Expand(rest));
        ExpandCount(rest);
      }
      if want == 0 {
        out := out + [[]];
        continue;
      }
      var taken := TakeSlots(rest, want);
      var chunk := SlotsToRanges(taken);
      out := out + [chunk];
      rest := RemoveLowestSlots(rest, want);
    }
  }

  /** `rest` is what dealing the first `i` chunks leaves. */
  ghost predicate Peeled(slots: seq<int>, n: nat, i: nat, rest: seq<int>)
    requires n > 0
  {
    Offset(|slots|, n, i) <= |slots| && rest == slots[Offset(|slots|, n, i)..]
  }

  lemma SplitStart(unassigned: seq<SlotRange>, n: nat)
    requires WellFormed(unassigned) && n > 0
    ensures var slots, total := Expand(unassigned), CountSlots(unassigned);
            && GoDiv(total, n) == |slots| / n && GoMod(total, n) == |slots| % n
            && Peeled(slots, n, 0, slots)
  {
    ExpandCount(unassigned);
    OffsetEnds(CountSlots(unassigned), n);
  }

  lemma ChunkSizeIs(total: nat, n: nat, i: nat)
    requires n > 0
    ensures (if i < total % n then total / n + 1 else total / n) == ChunkSize(total, n, i)
  {
  }

  lemma SplitStep(slots: seq<int>, n: nat, i: nat, rest: seq<int>)
    requires i < n && Peeled(slots, n, i, rest)
    ensures var want := ChunkSize(|slots|, n, i);
            && want <= |rest|
            && Take(rest, want) == Chunk(slots, n, i)
            && Peeled(slots, n, i + 1, rest[want..])
            && (want == 0 ==> ChunkRanges(slots, n, i) == [] && rest[want..] == rest)
  {
    OffsetStep(|slots|, n, i);
    OffsetBound(|slots|, n, i + 1);
  }

  function Flatten(groups: seq<seq<SlotRange>>): (r: seq<SlotRange>) {
    if groups == [] then [] else Flatten(groups[..|groups| - 1]) + groups[|groups| - 1]
  }

  lemma SliceIncreasing(s: seq<int>, a: nat, b: nat)
    requires StrictlyIncreasing(s) && a <= b <= |s|
    ensures StrictlyIncreasing(s[a..b])
  {
  }

  /** Each chunk is in normal form and holds exactly its share of the list. */
  lemma ChunkExact(slots: seq<int>, n: nat, i: nat)
    requires StrictlyIncreasing(slots) && i < n
    ensures Canonical(EvenChunks(slots, n)[i])
    ensures Expand(EvenChunks(slots, n)[i]) == Chunk(slots, n, i)
    ensures CountSlots(EvenChunks(slots, n)[i]) == ChunkSize(|slots|, n, i)
  {
    var c := Chunk(slots, n, i);
    OffsetStep(|slots|, n, i);
    OffsetBound(|slots|, n, i + 1);
    SliceIncreasing(slots, Offset(|slots|, n, i), Offset(|slots|, n, i + 1));
    IncreasingIsSorted(c);
    CompactExpand(c);
    CompactCanonical(c);
    ExpandCount(Compact(c));
  }

  lemma {:induction false} ChunksPrefix(slots: seq<int>, n: nat, k: nat)
    requires StrictlyIncreasing(slots) && n > 0 && k <= n
    ensures Offset(|slots|, n, k) <= |slots|
    ensures Expand(Flatten(EvenChunks(slots, n)[..k])) == slots[..Offset(|slots|, n, k)]
  {
    hide Offset, EvenChunks, Expand, StrictlyIncreasing;
    OffsetBound(|slots|, n, k);
    if k == 0 {
      OffsetEnds(|slots|, n);
      ExpandNothing([]);
    } else {
      ChunksPrefix(slots, n, k - 1);
      ChunkExact(slots, n, k - 1);
      OffsetStep(|slots|, n, k - 1);
      var chunks := EvenChunks(slots, n);
      assert chunks[..k][..k - 1] == chunks[..k - 1];
      ExpandConcat(Flatten(chunks[..k - 1]), chunks[k - 1]);
    }
  }

  /** The chunks, read in order, list every slot once and in ascending order. */
  lemma EvenSplitPartition(slots: seq<int>, n: nat)
    requires StrictlyIncreasing(slots) && n > 0
    ensures Expand(Flatten(EvenChunks(slots, n))) == slots
    ensures forall i, j :: 0 <= i < j < n ==>
              CountSlots(EvenChunks(slots, n)[j]) <= CountSlots(EvenChunks(slots, n)[i])
                                                  <= CountSlots(EvenChunks(slots, n)[j]) + 1
  {
    ChunksPrefix(slots, n, n);
    OffsetEnds(|slots|, n);
    assert EvenChunks(slots, n)[..n] == EvenChunks(slots, n);
    forall i | 0 <= i < n
      ensures CountSlots(EvenChunks(slots, n)[i]) == ChunkSize(|slots|, n, i)
    {
      ChunkExact(slots, n, i);
    }
  }

  /** Re-splitting what the first `k` chunks left gives exactly the remaining chunks. */
  lemma ResidueChunks(slots: seq<int>, n: nat, k: nat)
    requires k < n
    ensures Offset(|slots|, n, k) <= |slots|
    ensures EvenChunks(slots[Offset(|slots|, n, k)..], n - k) == EvenChunks(slots, n)[k..]
  {
    OffsetBound(|slots|, n, k);
    var rest := slots[Offset(|slots|, n, k)..];
    var tail := EvenChunks(rest, n - k);
    forall i | 0 <= i < n - k ensures tail[i] == EvenChunks(slots, n)[k..][i] {
      ResidueChunk(slots, n, k, i);
    }
  }

  lemma ResidueChunk(slots: seq<int>, n: nat, k: nat, i: nat)
    requires k < n && i < n - k
    ensures Offset(|slots|, n, k) <= |slots|
    ensures Chunk(slots[Offset(|slots|, n, k)..], n - k, i) == Chunk(slots, n, k + i)
  {
    hide Offset;
    OffsetBound(|slots|, n, k + i + 1);
    OffsetMonotone(|slots|, n, k + i, k + i + 1);
    ResidueOffset(|slots|, n, k, i);
    ResidueOffset(|slots|, n, k, i + 1);
    var off := Offset(|slots|, n, k);
    var a, b := Offset(|slots|, n, k + i) - off, Offset(|slots|, n, k + i + 1) - off;
    assert slots[off..][a..b] == slots[off + a..off + b];
  }

  // ----- contiguous ranges

  function EvenRange(n: nat, i: nat): (r: SlotRange)
    requires n > 0
  {
    SlotRange(Offset(TOTAL_SLOTS, n, i), Offset(TOTAL_SLOTS, n, i + 1) - 1)
  }

  /** `evenSplitRanges`: consecutive ranges from slot 0. */
  method EvenSplitRanges(n: int) returns (out: seq<SlotRange>)
    ensures n <= 0 ==> out == []
    ensures n > 0 ==> |out| == n && forall i :: 0 <= i < n ==> out[i] == EvenRange(n, i)
  {
    out := [];
    if n <= 0 {
      return;
    }
    var base, rem := TOTAL_SLOTS / n, TOTAL_SLOTS % n;
    var start := 0;
    OffsetEnds(TOTAL_SLOTS, n);
    for i := 0 to n
      invariant |out| == i && start == Offset(TOTAL_SLOTS, n, i)
      invariant forall k :: 0 <= k < i ==> out[k] == EvenRange(n, k)
    {
      OffsetStep(TOTAL_SLOTS, n, i);
      var size := if i < rem then base + 1 else base;
      out := out + [SlotRange(start, start + size - 1)];
      start := start + size;
    }
  }

  function AllSlots(): (r: seq<int>) {
    Interval(SlotRange(0, TOTAL_SLOTS - 1))
  }

  lemma AllSlotsFacts()
    ensures |AllSlots()| == TOTAL_SLOTS
    ensures forall i :: 0 <= i < TOTAL_SLOTS ==> AllSlots()[i] == i
    ensures StrictlyIncreasing(AllSlots())
    ensures forall s :: s in AllSlots() <==> 0 <= s < TOTAL_SLOTS
  {
    forall s | 0 <= s < TOTAL_SLOTS ensures s in AllSlots() { assert AllSlots()[s] == s; }
  }

  lemma CompactInterval(r: SlotRange)
    requires r.WellFormed()
    ensures Compact(Interval(r)) == [r]
  {
    var s := Interval(r);
    assert StrictlyIncreasing(s);
    CompactExpand(s);
    CompactCanonical(s);
    assert Expand([r]) == s + Expand([]);
    ExpandMembers(Compact(s));
    ExpandMembers([r]);
    CanonicalUnique(Compact(s), [r]);
  }

  lemma ChunkNonEmpty(total: nat, n: nat, i: nat)
    requires i < n
    ensures ChunkSize(total, n, i) > 0 <==> i < total
  {
    if total < n {
      DivModUnique(total, n, 0, total);
    } else {
      assert total / n >= 1;
    }
  }

  lemma FullChunk(n: nat, i: nat)
    requires i < n
    ensures Chunk(AllSlots(), n, i) == Interval(EvenRange(n, i))
  {
    AllSlotsFacts();
    OffsetStep(TOTAL_SLOTS, n, i);
    OffsetBound(TOTAL_SLOTS, n, i + 1);
  }

  /** The three implementations agree on the whole slot space: chunk `i` is the single
      range `EvenRange(n, i)`, of the target's size, exactly for the shards that get a
      slot at all. (Beyond 16384 shards the restore's range degenerates to end < start.) */
  lemma SplitsAgree(n: nat, i: nat)
    requires i < n
    ensures EvenChunks(AllSlots(), n)[i] == [EvenRange(n, i)] <==> i < TOTAL_SLOTS
    ensures i >= TOTAL_SLOTS ==> EvenChunks(AllSlots(), n)[i] == []
    ensures EvenRange(n, i).Count() == Targets(n)[i] == CountSlots(EvenChunks(AllSlots(), n)[i])
  {
    AllSlotsFacts();
    var c := Chunk(AllSlots(), n, i);
    ChunkNonEmpty(TOTAL_SLOTS, n, i);
    ChunkExact(AllSlots(), n, i);
    OffsetStep(TOTAL_SLOTS, n, i);
    FullChunk(n, i);
    IncreasingIsSorted(c);
    if i < TOTAL_SLOTS { CompactInterval(EvenRange(n, i)); }
  }
}
