/** The two slot-coverage checkers: the backup's sort-and-scan (cmd/valkey-backup/backup.go)
    and the restore's bitmap (perconavalkeyrestore/slots.go), against one specification. */
module Coverage {
  import opened Sorting
  import opened SlotRanges
  import opened EvenSplit
  import opened Ownership

  /** How many of the ranges contain a slot. */
  function CoverCount(ranges: seq<SlotRange>, s: int): (r: nat) {
    if ranges == [] then 0 else (if ranges[0].Has(s) then 1 else 0) + CoverCount(ranges[1..], s)
  }

  ghost predicate CoversOnce(ranges: seq<SlotRange>, from: int) {
    forall s: int :: CoverCount(ranges, s) == if from <= s < TOTAL_SLOTS then 1 else 0
  }

  /** All ranges well formed, every slot of the space covered exactly once, nothing else covered. */
  ghost predicate ExactCover(ranges: seq<SlotRange>) {
    WellFormed(ranges) && CoversOnce(ranges, 0)
  }

  lemma {:induction false} CoverCountConcat(a: seq<SlotRange>, b: seq<SlotRange>, s: int)
    ensures CoverCount(a + b, s) == CoverCount(a, s) + CoverCount(b, s)
  {
    if a == [] {
      assert a + b == b;
    } else {
      assert (a + b)[1..] == a[1..] + b;
      CoverCountConcat(a[1..], b, s);
    }
  }

  lemma CoverCountSnoc(a: seq<SlotRange>, r: SlotRange, s: int)
    ensures CoverCount(a + [r], s) == CoverCount(a, s) + (if r.Has(s) then 1 else 0)
  {
    CoverCountConcat(a, [r], s);
  }

  lemma {:induction false} CoverCountInsert(r: SlotRange, ranges: seq<SlotRange>, s: int)
    ensures CoverCount(Insert(r, ranges, RangeLe), s) == CoverCount(ranges, s) + (if r.Has(s) then 1 else 0)
  {
    if ranges != [] && !RangeLe(r, ranges[0]) { CoverCountInsert(r, ranges[1..], s); }
  }

  lemma {:induction false} CoverCountSort(ranges: seq<SlotRange>, s: int)
    ensures CoverCount(Sort(ranges, RangeLe), s) == CoverCount(ranges, s)
  {
    if ranges == [] {
    } else {
      CoverCountSort(ranges[1..], s);
      CoverCountInsert(ranges[0], Sort(ranges[1..], RangeLe), s);
    }
  }

  lemma {:induction false} CoverCountPositive(ranges: seq<SlotRange>, s: int)
    ensures CoverCount(ranges, s) >= 1 <==> Covers(ranges, s)
  {
    if ranges == [] {
    } else {
      CoverCountPositive(ranges[1..], s);
      assert forall r :: r in ranges <==> r == ranges[0] || r in ranges[1..];
    }
  }

  // ----- sort and scan

  predicate Scan(sorted: seq<SlotRange>, next: int) {
    if sorted == [] then next == TOTAL_SLOTS
    else sorted[0].start == next && sorted[0].start <= sorted[0].end && Scan(sorted[1..], sorted[0].end + 1)
  }

  /** `assertCoverage`: true for "complete". */
  method AssertCoverage(ranges: seq<SlotRange>) returns (complete: bool)
    ensures complete <==> ExactCover(ranges)
  {
    ScanDecides(ranges);
    if |ranges| == 0 {
      return false;
    }
    var sorted := Sort(ranges, RangeLe);
    SortPermutes(ranges, RangeLe);
    if sorted[0].start != 0 {
      return false;
    }
    var next := 0;
    for i := 0 to |sorted|
      invariant Scan(sorted, 0) <==> Scan(sorted[i..], next)
    {
      assert sorted[i..][1..] == sorted[i + 1..];
      if sorted[i].start != next {
        return false;
      }
      if sorted[i].end < sorted[i].start {
        return false;
      }
      next := sorted[i].end + 1;
    }
    if next != TOTAL_SLOTS {
      return false;
    }
    return true;
  }

  lemma ScanDecides(ranges: seq<SlotRange>)
    ensures Scan(Sort(ranges, RangeLe), 0) <==> ExactCover(ranges)
  {
    var sorted := Sort(ranges, RangeLe);
    SortedRangesFacts(ranges);
    SortPermutes(ranges, RangeLe);
    ScanExact(sorted, 0);
    forall s: int ensures CoverCount(sorted, s) == CoverCount(ranges, s) { CoverCountSort(ranges, s); }
    if WellFormed(sorted) {
      forall i | 0 <= i < |ranges| ensures ranges[i].WellFormed() { assert ranges[i] in sorted; }
    }
  }

  lemma {:induction false} ScanPast(sorted: seq<SlotRange>, next: int)
    requires next > TOTAL_SLOTS
    ensures !Scan(sorted, next)
  {
    if sorted != [] && sorted[0].start == next && sorted[0].start <= sorted[0].end {
      ScanPast(sorted[1..], sorted[0].end + 1);
    }
  }

  /** A sorted list scans clean from `next` exactly when it covers next..16383 once each. */
  lemma {:induction false} ScanExact(sorted: seq<SlotRange>, next: int)
    requires Sorted(sorted, RangeLe) && next <= TOTAL_SLOTS
    ensures Scan(sorted, next) <==> WellFormed(sorted) && CoversOnce(sorted, next)
  {
    if sorted == [] {
      assert CoversOnce(sorted, next) ==> CoverCount(sorted, next) == if next < TOTAL_SLOTS then 1 else 0;
    } else {
      var r, rest := sorted[0], sorted[1..];
      assert sorted == [r] + rest;
      if WellFormed(sorted) && CoversOnce(sorted, next) {
        FirstStartsAt(sorted, next);
        assert CoverCount(sorted, r.end) >= 1;
        forall s: int ensures CoverCount(rest, s) == if r.end + 1 <= s < TOTAL_SLOTS then 1 else 0 {
          assert CoverCount(sorted, s) == (if r.Has(s) then 1 else 0) + CoverCount(rest, s);
        }
        assert CoversOnce(rest, r.end + 1);
        ScanExact(rest, r.end + 1);
      } else if r.start == next && r.start <= r.end {
        if r.end + 1 <= TOTAL_SLOTS {
          ScanExact(rest, r.end + 1);
          if Scan(rest, r.end + 1) { ConsCovers(r, rest, next); }
        } else {
          ScanPast(rest, r.end + 1);
        }
      }
    }
  }

  lemma FirstStartsAt(sorted: seq<SlotRange>, next: int)
    requires sorted != [] && Sorted(sorted, RangeLe) && WellFormed(sorted) && CoversOnce(sorted, next)
               && next <= TOTAL_SLOTS
    ensures sorted[0].start == next && sorted[0].end < TOTAL_SLOTS
  {
    var r := sorted[0];
    assert CoverCount(sorted, r.start) >= 1 && CoverCount(sorted, r.end) >= 1;
    assert CoverCount(sorted, next) == 1;
    CoverCountPositive(sorted, next);
    var q :| q in sorted && q.Has(next);
    var k :| 0 <= k < |sorted| && sorted[k] == q;
    assert k > 0 ==> RangeLe(sorted[0], sorted[k]);
  }

  lemma ConsCovers(r: SlotRange, rest: seq<SlotRange>, next: int)
    requires r.start == next && r.WellFormed() && WellFormed(rest) && CoversOnce(rest, r.end + 1) && r.end < TOTAL_SLOTS
    ensures WellFormed([r] + rest) && CoversOnce([r] + rest, next)
  {
    assert ([r] + rest)[1..] == rest;
    forall s: int ensures CoverCount([r] + rest, s) == if next <= s < TOTAL_SLOTS then 1 else 0 {
      assert CoverCount(rest, s) == if r.end + 1 <= s < TOTAL_SLOTS then 1 else 0;
    }
  }

  // ----- bitmap

  datatype Verdict = Verdict(covered: nat, complete: bool, overlap: bool)

  datatype Result<+T> = Ok(value: T) | Err

  predicate InBounds(r: SlotRange) { 0 <= r.start <= r.end < TOTAL_SLOTS }

  predicate AllInBounds(ranges: seq<SlotRange>) {
    forall i :: 0 <= i < |ranges| ==> InBounds(ranges[i])
  }

  ghost function CoveredSet(ranges: seq<SlotRange>): (r: set<int>) {
    set s | s in AllSlots() && CoverCount(ranges, s) >= 1
  }

  ghost predicate Overlaps(ranges: seq<SlotRange>) {
    exists s: int :: CoverCount(ranges, s) >= 2
  }

  /** The bitmap and its two counters describe the ranges marked so far. */
  ghost predicate Marked(seen: seq<bool>, covered: nat, overlap: bool, ranges: seq<SlotRange>) {
    && |seen| == TOTAL_SLOTS
    && (forall s :: 0 <= s < TOTAL_SLOTS ==> (seen[s] <==> CoverCount(ranges, s) >= 1))
    && covered == |CoveredSet(ranges)|
    && (overlap <==> Overlaps(ranges))
  }

  /** `validateManifestCoverage` over the per-shard ranges. */
  method ValidateManifestCoverage(groups: seq<seq<SlotRange>>) returns (r: Result<Verdict>)
    ensures r.Err? <==> !AllInBounds(Flatten(groups))
    ensures r.Ok? ==> && (r.value.complete <==> ExactCover(Flatten(groups)))
                      && (r.value.overlap <==> Overlaps(Flatten(groups)))
                      && r.value.covered == |CoveredSet(Flatten(groups))|
  {
    var seen := new bool[TOTAL_SLOTS](_ => false);
    var overlap, covered := false, 0;
    ghost var done: seq<SlotRange> := [];
    MarkedNothing(seen[..]);
    for i := 0 to |groups|
      invariant done == Flatten(groups[..i]) && AllInBounds(done)
      invariant Marked(seen[..], covered, overlap, done)
    {
      assert groups[..i + 1][..i] == groups[..i];
      var shard := groups[i];
      for j := 0 to |shard|
        invariant done == Flatten(groups[..i]) + shard[..j] && AllInBounds(done)
        invariant Marked(seen[..], covered, overlap, done)
      {
        var rng := shard[j];
        if rng.start < 0 || rng.end >= TOTAL_SLOTS || rng.start > rng.end {
          OutOfBounds(groups, i, j);
          return Err;
        }
        covered, overlap := MarkRange(seen, covered, overlap, rng, done);
        done := done + [rng];
      }
      assert shard[..|shard|] == shard;
    }
    assert groups[..|groups|] == groups;
    CompleteIff(done, covered, overlap);
    var complete := covered == TOTAL_SLOTS && !overlap;
    return Ok(Verdict(covered, complete, overlap));
  }

  /** The innermost loop: mark every slot of one range. */
  method MarkRange(seen: array<bool>, covered: nat, overlap: bool, rng: SlotRange, ghost done: seq<SlotRange>)
    returns (covered': nat, overlap': bool)
    requires InBounds(rng) && seen.Length == TOTAL_SLOTS && Marked(seen[..], covered, overlap, done)
    modifies seen
    ensures Marked(seen[..], covered', overlap', done + [rng])
  {
    covered', overlap' := covered, overlap;
    MarkedStart(seen[..], covered, overlap, done, rng.start);
    var slot := rng.start;
    while slot <= rng.end
      invariant rng.start <= slot <= rng.end + 1
      invariant Marked(seen[..], covered', overlap', done + [SlotRange(rng.start, slot - 1)])
    {
      MarkedStep(seen[..], covered', overlap', done, rng.start, slot);
      if seen[slot] {
        overlap' := true;
      } else {
        seen[slot] := true;
        covered' := covered' + 1;
      }
      slot := slot + 1;
    }
  }

  lemma MarkedNothing(seen: seq<bool>)
    requires |seen| == TOTAL_SLOTS && forall s :: 0 <= s < TOTAL_SLOTS ==> !seen[s]
    ensures Marked(seen, 0, false, [])
  {
    assert CoveredSet([]) == {};
  }

  lemma MarkedStart(seen: seq<bool>, covered: nat, overlap: bool, done: seq<SlotRange>, start: int)
    requires Marked(seen, covered, overlap, done)
    ensures Marked(seen, covered, overlap, done + [SlotRange(start, start - 1)])
  {
    var more := done + [SlotRange(start, start - 1)];
    forall s: int ensures CoverCount(more, s) == CoverCount(done, s) {
      CoverCountSnoc(done, SlotRange(start, start - 1), s);
    }
    assert CoveredSet(more) == CoveredSet(done);
  }

  /** Marking one more slot of the current range. */
  lemma MarkedStep(seen: seq<bool>, covered: nat, overlap: bool, done: seq<SlotRange>, start: int, slot: int)
    requires 0 <= start <= slot < TOTAL_SLOTS
    requires Marked(seen, covered, overlap, done + [SlotRange(start, slot - 1)])
    ensures seen[slot] ==> Marked(seen, covered, true, done + [SlotRange(start, slot)])
    ensures !seen[slot] ==> Marked(seen[slot := true], covered + 1, overlap, done + [SlotRange(start, slot)])
  {
    var a, b := done + [SlotRange(start, slot - 1)], done + [SlotRange(start, slot)];
    forall s: int ensures CoverCount(b, s) == CoverCount(a, s) + (if s == slot then 1 else 0) {
      CoverCountSnoc(done, SlotRange(start, slot - 1), s);
      CoverCountSnoc(done, SlotRange(start, slot), s);
    }
    OneMoreCovered(a, b, slot);
    OverlapsAfter(a, b, slot);
  }

  lemma OneMoreCovered(a: seq<SlotRange>, b: seq<SlotRange>, slot: int)
    requires 0 <= slot < TOTAL_SLOTS
    requires forall s: int :: CoverCount(b, s) == CoverCount(a, s) + (if s == slot then 1 else 0)
    ensures |CoveredSet(b)| == |CoveredSet(a)| + (if CoverCount(a, slot) >= 1 then 0 else 1)
  {
    hide AllSlots, CoverCount;
    AllSlotsFacts();
    forall s: int ensures s in CoveredSet(b) <==> s in CoveredSet(a) || s == slot {
      assert CoverCount(b, s) == CoverCount(a, s) + (if s == slot then 1 else 0);
    }
    assert CoveredSet(b) == CoveredSet(a) + {slot};
    assert slot in CoveredSet(a) <==> CoverCount(a, slot) >= 1;
  }

  lemma OverlapsAfter(a: seq<SlotRange>, b: seq<SlotRange>, slot: int)
    requires forall s: int :: CoverCount(b, s) == CoverCount(a, s) + (if s == slot then 1 else 0)
    ensures Overlaps(b) <==> Overlaps(a) || CoverCount(a, slot) >= 1
  {
    if Overlaps(a) {
      var s: int :| CoverCount(a, s) >= 2;
      assert CoverCount(b, s) >= 2;
    }
    if CoverCount(a, slot) >= 1 { assert CoverCount(b, slot) >= 2; }
  }

  lemma OutOfBounds(groups: seq<seq<SlotRange>>, i: nat, j: nat)
    requires i < |groups| && j < |groups[i]| && !InBounds(groups[i][j])
    ensures !AllInBounds(Flatten(groups))
  {
    FlattenMember(groups, i, groups[i][j]);
    var k :| 0 <= k < |Flatten(groups)| && Flatten(groups)[k] == groups[i][j];
  }

  lemma {:induction false} FlattenMember(groups: seq<seq<SlotRange>>, i: nat, r: SlotRange)
    requires i < |groups| && r in groups[i]
    ensures r in Flatten(groups)
  {
    if i < |groups| - 1 { FlattenMember(groups[..|groups| - 1], i, r); }
  }

  lemma CompleteIff(ranges: seq<SlotRange>, covered: nat, overlap: bool)
    requires AllInBounds(ranges) && covered == |CoveredSet(ranges)| && (overlap <==> Overlaps(ranges))
    ensures covered == TOTAL_SLOTS && !overlap <==> ExactCover(ranges)
  {
    AllSlotsFacts();
    var all := set s | s in AllSlots();
    ListCard(AllSlots(), all);
    assert CoveredSet(ranges) <= all;
    if covered == TOTAL_SLOTS { SubsetOfSameSize(CoveredSet(ranges), all); }
    if CoversOnce(ranges, 0) { assert CoveredSet(ranges) == all; }
    forall s: int | !(0 <= s < TOTAL_SLOTS) ensures CoverCount(ranges, s) == 0 {
      CoverCountPositive(ranges, s);
    }
    if covered == TOTAL_SLOTS && !overlap {
      forall s: int ensures CoverCount(ranges, s) == if 0 <= s < TOTAL_SLOTS then 1 else 0 {
        assert CoverCount(ranges, s) < 2;
        assert 0 <= s < TOTAL_SLOTS ==> s in CoveredSet(ranges);
      }
    }
  }

  lemma {:induction false} SubsetOfSameSize(a: set<int>, b: set<int>)
    requires a <= b && |a| == |b|
    ensures a == b
  {
    assert b == a + (b - a);
    assert |b - a| == 0;
  }

  /** Both verdicts depend only on which ranges there are, not on their order or grouping. */
  lemma CoverPermutes(a: seq<SlotRange>, b: seq<SlotRange>)
    requires multiset(a) == multiset(b)
    ensures ExactCover(a) <==> ExactCover(b)
  {
    RangeOrder(a);
    SortOrderFree(a, b, RangeLe);
    ScanDecides(a);
    ScanDecides(b);
  }

  lemma RangeOrder(a: seq<SlotRange>)
    ensures TotalPreorder(RangeLe) && TieFree(a, RangeLe)
  {
  }
}
