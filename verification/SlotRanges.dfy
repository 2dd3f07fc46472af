/** Slot ranges (pkg/valkey/slots.go): inclusive intervals of hash slots, the list
    algebra over them, and the set of slots a list denotes. Nothing here assumes that a
    range is well formed; where that matters the contracts say so. */
module SlotRanges {
  import opened Sorting

  const TOTAL_SLOTS: int := 16384
  const BATCH_SIZE: int := 400

  datatype SlotRange = SlotRange(start: int, end: int) {
    function Count(): (r: int) { end - start + 1 }
    predicate Has(slot: int) { start <= slot <= end }
    predicate WellFormed() { start <= end }
  }

  predicate WellFormed(ranges: seq<SlotRange>) {
    forall i :: 0 <= i < |ranges| ==> ranges[i].WellFormed()
  }

  /** The slots a list of ranges denotes, as a predicate. */
  ghost predicate Covers(ranges: seq<SlotRange>, slot: int) {
    exists r :: r in ranges && r.Has(slot)
  }

  ghost predicate SameSlots(a: seq<SlotRange>, b: seq<SlotRange>) {
    forall s: int :: Covers(a, s) <==> Covers(b, s)
  }

  /** Each range ends before the next one starts, with at least one slot between. */
  predicate Gapped(ranges: seq<SlotRange>) {
    forall i :: 0 <= i < |ranges| - 1 ==> ranges[i].end + 1 < ranges[i + 1].start
  }

  /** The minimal form: sorted, disjoint, non-adjacent, no empty range. */
  predicate Canonical(ranges: seq<SlotRange>) {
    WellFormed(ranges) && Gapped(ranges)
  }

  function CountSlots(ranges: seq<SlotRange>): (r: int) {
    if ranges == [] then 0 else ranges[0].Count() + CountSlots(ranges[1..])
  }

  predicate StrictlyIncreasing(s: seq<int>) {
    forall i, j :: 0 <= i < j < |s| ==> s[i] < s[j]
  }

  // ----- flat expansion

  function Interval(r: SlotRange): (s: seq<int>) {
    if r.end < r.start then [] else seq(r.end - r.start + 1, i => r.start + i)
  }

  function Expand(ranges: seq<SlotRange>): (r: seq<int>) {
    if ranges == [] then [] else Interval(ranges[0]) + Expand(ranges[1..])
  }

  lemma Associative(a: seq<int>, b: seq<int>, c: seq<int>)
    ensures a + (b + c) == (a + b) + c
  {
  }

  lemma {:induction false} ExpandConcat(a: seq<SlotRange>, b: seq<SlotRange>)
    ensures Expand(a + b) == Expand(a) + Expand(b)
  {
    hide Interval;
    if a == [] {
      assert a + b == b;
    } else {
      ExpandConcat(a[1..], b);
      assert (a + b)[1..] == a[1..] + b && (a + b)[0] == a[0];
      Associative(Interval(a[0]), Expand(a[1..]), Expand(b));
    }
  }

  lemma ExpandSnoc(a: seq<SlotRange>, r: SlotRange)
    ensures Expand(a + [r]) == Expand(a) + Interval(r)
  {
    ExpandConcat(a, [r]);
    assert Expand([r]) == Interval(r) + Expand([]);
  }

  lemma {:induction false} ExpandMembers(ranges: seq<SlotRange>)
    ensures forall s :: s in Expand(ranges) <==> Covers(ranges, s)
  {
    if ranges == [] {
    } else {
      ExpandMembers(ranges[1..]);
      assert forall r :: r in ranges <==> r == ranges[0] || r in ranges[1..];
      forall s ensures s in Interval(ranges[0]) <==> ranges[0].Has(s) {
        if ranges[0].Has(s) { assert Interval(ranges[0])[s - ranges[0].start] == s; }
      }
    }
  }

  lemma {:induction false} ExpandCount(ranges: seq<SlotRange>)
    requires WellFormed(ranges)
    ensures |Expand(ranges)| == CountSlots(ranges)
  {
    if ranges == [] {
    } else {
      ExpandCount(ranges[1..]);
    }
  }

  lemma {:induction false} CountPositive(ranges: seq<SlotRange>)
    requires WellFormed(ranges)
    ensures CountSlots(ranges) >= 0
    ensures CountSlots(ranges) == 0 <==> ranges == []
  {
    if ranges == [] {
    } else {
      CountPositive(ranges[1..]);
    }
  }

  // ----- canonical lists

  lemma {:induction false} CanonicalSpread(ranges: seq<SlotRange>, i: nat, j: nat)
    requires Canonical(ranges) && i < j < |ranges|
    ensures ranges[i].end + 1 < ranges[j].start
    decreases j - i
  {
    if i + 1 < j {
      CanonicalSpread(ranges, i + 1, j);
      assert ranges[i + 1] in ranges;
    }
  }

  lemma IncreasingConcat(a: seq<int>, b: seq<int>, bound: int)
    requires StrictlyIncreasing(a) && StrictlyIncreasing(b)
    requires (forall s :: s in a ==> s <= bound) && (forall s :: s in b ==> s > bound)
    ensures StrictlyIncreasing(a + b)
  {
    forall i, j | 0 <= i < j < |a + b| ensures (a + b)[i] < (a + b)[j] {
      if i < |a| <= j { assert a[i] in a && b[j - |a|] in b; }
    }
  }

  lemma {:induction false} CanonicalIncreasing(ranges: seq<SlotRange>)
    requires Canonical(ranges)
    ensures StrictlyIncreasing(Expand(ranges))
  {
    if ranges == [] {
    } else {
      CanonicalIncreasing(ranges[1..]);
      ExpandMembers(ranges[1..]);
      forall s | s in Expand(ranges[1..]) ensures s > ranges[0].end {
        var r :| r in ranges[1..] && r.Has(s);
        var k :| 0 <= k < |ranges[1..]| && ranges[1..][k] == r;
        CanonicalSpread(ranges, 0, k + 1);
      }
      IncreasingConcat(Interval(ranges[0]), Expand(ranges[1..]), ranges[0].end);
    }
  }

  /** The slots of a canonical list beyond its first range. */
  lemma CanonicalTail(ranges: seq<SlotRange>, s: int)
    requires Canonical(ranges) && ranges != []
    ensures Covers(ranges[1..], s) <==> Covers(ranges, s) && s > ranges[0].end
    ensures Covers(ranges[1..], s) ==> s > ranges[0].end + 1
  {
    if Covers(ranges[1..], s) {
      var r :| r in ranges[1..] && r.Has(s);
      var k :| 0 <= k < |ranges[1..]| && ranges[1..][k] == r;
      CanonicalSpread(ranges, 0, k + 1);
    }
    assert forall r :: r in ranges <==> r == ranges[0] || r in ranges[1..];
  }

  /** Canonical form is a normal form: it is determined by the denoted set alone. */
  lemma {:induction false} CanonicalUnique(a: seq<SlotRange>, b: seq<SlotRange>)
    requires Canonical(a) && Canonical(b) && SameSlots(a, b)
    ensures a == b
  {
    if a == [] || b == [] {
      FirstSlot(a);
      FirstSlot(b);
    } else {
      FirstRange(a, b);
      FirstRange(b, a);
      forall s: int ensures Covers(a[1..], s) <==> Covers(b[1..], s) {
        CanonicalTail(a, s);
        CanonicalTail(b, s);
      }
      CanonicalUnique(a[1..], b[1..]);
      assert a == [a[0]] + a[1..] && b == [b[0]] + b[1..];
    }
  }

  lemma FirstSlot(ranges: seq<SlotRange>)
    requires WellFormed(ranges)
    ensures ranges != [] ==> Covers(ranges, ranges[0].start)
  {
    if ranges != [] { assert ranges[0] in ranges && ranges[0].Has(ranges[0].start); }
  }

  lemma FirstRange(a: seq<SlotRange>, b: seq<SlotRange>)
    requires Canonical(a) && Canonical(b) && SameSlots(a, b) && a != [] && b != []
    ensures a[0].start >= b[0].start
    ensures a[0].start == b[0].start ==> a[0].end <= b[0].end
  {
    var s := a[0].start;
    assert a[0].Has(s) && a[0] in a;
    assert Covers(b, s);
    CanonicalTail(b, s);
    assert Covers(b[1..], s) || b[0].Has(s) by {
      assert forall r :: r in b <==> r == b[0] || r in b[1..];
    }
    if a[0].start == b[0].start && a[0].end > b[0].end {
      var t := b[0].end + 1;
      assert a[0].Has(t) && Covers(a, t);
      assert Covers(b, t);
      CanonicalTail(b, t);
      assert false;
    }
  }

  // ----- collapsing slots into ranges

  function Extend(ranges: seq<SlotRange>, slot: int): (r: seq<SlotRange>) {
    if ranges != [] && slot == ranges[|ranges| - 1].end + 1
    then ranges[|ranges| - 1 := SlotRange(ranges[|ranges| - 1].start, slot)]
    else ranges + [SlotRange(slot, slot)]
  }

  /** The ranges of a list of slots, collapsing each run of consecutive slots. */
  function Compact(s: seq<int>): (r: seq<SlotRange>) {
    if s == [] then [] else Extend(Compact(s[..|s| - 1]), s[|s| - 1])
  }

  lemma ExtendExpand(ranges: seq<SlotRange>, slot: int)
    requires WellFormed(ranges)
    ensures WellFormed(Extend(ranges, slot))
    ensures Expand(Extend(ranges, slot)) == Expand(ranges) + [slot]
  {
    hide Expand, Interval;
    if ranges != [] && slot == ranges[|ranges| - 1].end + 1 {
      var last, body := ranges[|ranges| - 1], ranges[..|ranges| - 1];
      var longer := SlotRange(last.start, slot);
      assert ranges == body + [last] && Extend(ranges, slot) == body + [longer];
      ExpandSnoc(body, last);
      ExpandSnoc(body, longer);
      IntervalGrows(last);
      Associative(Expand(body), Interval(last), [slot]);
    } else {
      ExpandSnoc(ranges, SlotRange(slot, slot));
      IntervalOne(slot);
    }
  }

  lemma IntervalGrows(r: SlotRange)
    requires r.WellFormed()
    ensures Interval(SlotRange(r.start, r.end + 1)) == Interval(r) + [r.end + 1]
  {
  }

  lemma IntervalOne(slot: int)
    ensures Interval(SlotRange(slot, slot)) == [slot]
  {
  }

  lemma {:induction false} CompactExpand(s: seq<int>)
    ensures WellFormed(Compact(s))
    ensures Expand(Compact(s)) == s
  {
    if s == [] {
    } else {
      CompactExpand(s[..|s| - 1]);
      ExtendExpand(Compact(s[..|s| - 1]), s[|s| - 1]);
    }
  }

  lemma {:induction false} CompactCanonical(s: seq<int>)
    requires StrictlyIncreasing(s)
    ensures Canonical(Compact(s))
    ensures s != [] ==> Compact(s) != [] && Compact(s)[|Compact(s)| - 1].end == s[|s| - 1]
  {
    if s == [] {
    } else {
      CompactCanonical(s[..|s| - 1]);
    }
  }

  /** `SlotsToRanges` (slots.go): sort a copy, then collapse runs in one pass. */
  method SlotsToRanges(slots: seq<int>) returns (r: seq<SlotRange>)
    ensures r == Compact(Sort(slots, IntLe))
    ensures WellFormed(r)
    ensures forall s :: Covers(r, s) <==> s in slots
    ensures CountSlots(r) == |slots|
    ensures Distinct(slots) ==> Canonical(r)
  {
    hide Sort, Canonical, Covers, WellFormed, CountSlots, Distinct;
    SortPermutes(slots, IntLe);
    CompactSorted(slots);
    var ordered := Sort(slots, IntLe);
    if |slots| == 0 {
      return [];
    }
    r := [];
    var start, prev := ordered[0], ordered[0];
    for i := 1 to |ordered|
      invariant prev == ordered[i - 1]
      invariant r + [SlotRange(start, prev)] == Compact(ordered[..i])
    {
      var slot := ordered[i];
      assert ordered[..i + 1][..i] == ordered[..i];
      if slot == prev + 1 {
        prev := slot;
      } else {
        r := r + [SlotRange(start, prev)];
        start, prev := slot, slot;
      }
    }
    r := r + [SlotRange(start, prev)];
    assert ordered[..|ordered|] == ordered;
  }

  lemma CompactSorted(slots: seq<int>)
    ensures var r := Compact(Sort(slots, IntLe));
            && WellFormed(r)
            && (forall s :: Covers(r, s) <==> s in slots)
            && CountSlots(r) == |slots|
            && (Distinct(slots) ==> Canonical(r))
  {
    var ordered := Sort(slots, IntLe);
    SortPermutes(slots, IntLe);
    CompactExpand(ordered);
    ExpandMembers(Compact(ordered));
    ExpandCount(Compact(ordered));
    if Distinct(slots) {
      SortedDistinct(slots);
      CompactCanonical(ordered);
    }
  }

  lemma SortedDistinct(slots: seq<int>)
    requires Distinct(slots)
    ensures StrictlyIncreasing(Sort(slots, IntLe))
  {
    var t := Sort(slots, IntLe);
    SortKeepsDistinct(slots, IntLe);
    SortSorts(slots, IntLe);
    forall i, j | 0 <= i < j < |t| ensures t[i] < t[j] { assert IntLe(t[i], t[j]); }
  }

  lemma IncreasingIsSorted(s: seq<int>)
    requires StrictlyIncreasing(s)
    ensures Sort(s, IntLe) == s
  {
    SortIdentity(s, IntLe);
  }

  // ----- normalisation and set difference

  predicate RangeLe(a: SlotRange, b: SlotRange) {
    a.start < b.start || (a.start == b.start && a.end <= b.end)
  }

  /** `NormalizeSlotRanges`: sort by start, then merge every range into its predecessor
      when it begins inside it or immediately after it. */
  method NormalizeSlotRanges(ranges: seq<SlotRange>) returns (out: seq<SlotRange>)
    ensures SameSlots(out, ranges)
    ensures Gapped(out)
    ensures WellFormed(ranges) ==> Canonical(out)
  {
    if |ranges| == 0 {
      return [];
    }
    SortedRangesFacts(ranges);
    var sorted := Sort(ranges, RangeLe);
    out := [sorted[0]];
    assert sorted[..1] == [sorted[0]];
    for i := 1 to |sorted|
      invariant out != [] && Gapped(out)
      invariant out[|out| - 1].start <= sorted[i - 1].start
      invariant SameSlots(out, sorted[..i])
      invariant WellFormed(ranges) ==> WellFormed(out)
    {
      var r, last := sorted[i], out[|out| - 1];
      assert RangeLe(sorted[i - 1], r);
      MergeFacts(out, r, sorted[..i]);
      assert sorted[..i + 1] == sorted[..i] + [r];
      if r.start <= last.end + 1 {
        if r.end > last.end {
          out := out[|out| - 1 := last.(end := r.end)];
        }
      } else {
        out := out + [r];
      }
    }
    assert sorted[..|sorted|] == sorted;
  }

  lemma SortedRangesFacts(ranges: seq<SlotRange>)
    ensures var sorted := Sort(ranges, RangeLe);
            && |sorted| == |ranges|
            && Sorted(sorted, RangeLe)
            && SameSlots(sorted, ranges)
            && (WellFormed(ranges) ==> WellFormed(sorted))
  {
    var sorted := Sort(ranges, RangeLe);
    SortPermutes(ranges, RangeLe);
    SortSorts(ranges, RangeLe);
    if WellFormed(ranges) {
      forall i | 0 <= i < |sorted| ensures sorted[i].WellFormed() { assert sorted[i] in ranges; }
    }
  }

  lemma AppendAddsSlots(a: seq<SlotRange>, r: SlotRange)
    ensures forall s: int :: Covers(a + [r], s) <==> Covers(a, s) || r.Has(s)
  {
    assert forall x :: x in a + [r] <==> x in a || x == r;
  }

  function Merge(out: seq<SlotRange>, r: SlotRange): (merged: seq<SlotRange>)
    requires out != []
  {
    var last := out[|out| - 1];
    if r.start <= last.end + 1
    then if r.end > last.end then out[|out| - 1 := last.(end := r.end)] else out
    else out + [r]
  }

  lemma MergeFacts(out: seq<SlotRange>, r: SlotRange, done: seq<SlotRange>)
    requires out != [] && Gapped(out) && out[|out| - 1].start <= r.start && SameSlots(out, done)
    ensures SameSlots(Merge(out, r), done + [r])
    ensures Gapped(Merge(out, r)) && Merge(out, r)[|Merge(out, r)| - 1].start <= r.start
    ensures WellFormed(out) && r.WellFormed() ==> WellFormed(Merge(out, r))
  {
    var n, merged := |out| - 1, Merge(out, r);
    AppendAddsSlots(done, r);
    if r.start <= out[n].end + 1 {
      assert out == out[..n] + [out[n]] && merged == out[..n] + [merged[n]];
      AppendAddsSlots(out[..n], out[n]);
      AppendAddsSlots(out[..n], merged[n]);
    } else {
      AppendAddsSlots(out, r);
    }
  }

  /** `subtractSlotRange`: the fragments of one range left after removing another. */
  function SubtractSlotRange(base: SlotRange, remove: SlotRange): (r: seq<SlotRange>)
    ensures forall s: int :: Covers(r, s) <==> base.Has(s) && !remove.Has(s)
    ensures base.WellFormed() ==> WellFormed(r)
  {
    if remove.end < base.start || remove.start > base.end then
      assert base in [base];
      [base]
    else
      var low := if remove.start > base.start then [SlotRange(base.start, remove.start - 1)] else [];
      var high := if remove.end < base.end then [SlotRange(remove.end + 1, base.end)] else [];
      assert low != [] ==> low[0] in low + high;
      assert high != [] ==> high[0] in low + high;
      low + high
  }

  /** One inner loop of `SubtractRanges` and `GetUnassignedSlots`: remove one range
      from every fragment. Canonical lists stay canonical when the removed range is not empty. */
  method SubtractOne(current: seq<SlotRange>, remove: SlotRange) returns (next: seq<SlotRange>)
    ensures forall s: int :: Covers(next, s) <==> Covers(current, s) && !remove.Has(s)
    ensures WellFormed(current) ==> WellFormed(next)
    ensures Canonical(current) && remove.WellFormed() ==> Canonical(next)
  {
    next := [];
    for i := 0 to |current|
      invariant forall s: int :: Covers(next, s) <==> Covers(current[..i], s) && !remove.Has(s)
      invariant WellFormed(current) ==> WellFormed(next)
      invariant Canonical(current) && remove.WellFormed() ==> Gapped(next)
      invariant Canonical(current) && next != [] ==> i > 0 && next[|next| - 1].end <= current[i - 1].end
    {
      assert current[..i + 1] == current[..i] + [current[i]];
      var before, part := next, SubtractSlotRange(current[i], remove);
      assert current[i] in current;
      next := next + part;
      forall s: int ensures Covers(next, s) <==> Covers(current[..i + 1], s) && !remove.Has(s) {
        assert Covers(next, s) <==> Covers(before, s) || Covers(part, s);
      }
    }
    assert current[..|current|] == current;
  }

  /** `SubtractRanges`: exact set difference, for every input, in normal form whenever
      the minuend is well formed. */
  method SubtractRanges(base: seq<SlotRange>, remove: seq<SlotRange>) returns (r: seq<SlotRange>)
    ensures forall s: int :: Covers(r, s) <==> Covers(base, s) && !Covers(remove, s)
    ensures WellFormed(base) ==> Canonical(r)
  {
    var current := NormalizeSlotRanges(base);
    var removals := NormalizeSlotRanges(remove);
    for i := 0 to |removals|
      invariant forall s: int :: Covers(current, s) <==> Covers(base, s) && !Covers(removals[..i], s)
      invariant WellFormed(base) ==> WellFormed(current)
    {
      assert removals[..i + 1] == removals[..i] + [removals[i]];
      current := SubtractOne(current, removals[i]);
    }
    assert removals[..|removals|] == removals;
    r := NormalizeSlotRanges(current);
  }

  // ----- taking and dropping the lowest slots

  function Take(s: seq<int>, n: int): (r: seq<int>) {
    if n <= 0 then [] else if n >= |s| then s else s[..n]
  }

  /** `takeSlots`: the first `n` slots of the flat expansion. */
  method TakeSlots(ranges: seq<SlotRange>, n: int) returns (out: seq<int>)
    ensures out == Take(Expand(ranges), n)
    ensures out <= Expand(ranges) && (n <= 0 ==> out == []) && (0 < n <= |Expand(ranges)| ==> |out| == n)
    ensures n > |Expand(ranges)| ==> out == Expand(ranges)
  {
    hide Expand, Interval;
    if n <= 0 {
      return [];
    }
    out := [];
    ghost var all := Expand(ranges);
    assert ranges[0..] == ranges;
    for i := 0 to |ranges|
      invariant out + Expand(ranges[i..]) == all && |out| < n
    {
      var slot := ranges[i].start;
      ghost var rest := Expand(ranges[i + 1..]);
      ExpandHead(ranges, i);
      while slot <= ranges[i].end && |out| < n
        invariant ranges[i].start <= slot
        invariant out + (Interval(SlotRange(slot, ranges[i].end)) + rest) == all && |out| <= n
      {
        TakeOne(out, slot, ranges[i].end, rest);
        out := out + [slot];
        slot := slot + 1;
      }
      if |out| == n {
        return;
      }
      NothingLeft(slot, ranges[i].end, rest);
    }
    ExpandNothing(ranges[|ranges|..]);
  }

  lemma ExpandHead(ranges: seq<SlotRange>, i: nat)
    requires i < |ranges|
    ensures Expand(ranges[i..]) == Interval(SlotRange(ranges[i].start, ranges[i].end)) + Expand(ranges[i + 1..])
  {
    assert ranges[i..][1..] == ranges[i + 1..];
  }

  lemma NothingLeft(slot: int, end: int, rest: seq<int>)
    requires slot > end
    ensures Interval(SlotRange(slot, end)) + rest == rest
  {
  }

  lemma ExpandNothing(ranges: seq<SlotRange>)
    requires ranges == []
    ensures Expand(ranges) == []
  {
  }

  lemma TakeOne(out: seq<int>, slot: int, end: int, rest: seq<int>)
    requires slot <= end
    ensures out + (Interval(SlotRange(slot, end)) + rest)
         == (out + [slot]) + (Interval(SlotRange(slot + 1, end)) + rest)
  {
    assert Interval(SlotRange(slot, end)) == [slot] + Interval(SlotRange(slot + 1, end));
  }

  /** `removeLowestSlots`: the ranges left after dropping the first `n` slots. */
  method RemoveLowestSlots(ranges: seq<SlotRange>, n: int) returns (remaining: seq<SlotRange>)
    ensures WellFormed(ranges) ==> WellFormed(remaining)
    ensures WellFormed(ranges) && 0 <= n <= CountSlots(ranges) ==>
              |Expand(ranges)| >= n && Expand(remaining) == Expand(ranges)[n..]
    ensures WellFormed(ranges) && n > CountSlots(ranges) ==> remaining == []
    ensures WellFormed(ranges) && n <= 0 ==> remaining == ranges
  {
    hide Dropped, Expand, CountSlots;
    remaining := [];
    var left := n;
    ghost var all, ok := Expand(ranges), WellFormed(ranges) && 0 <= n <= CountSlots(ranges);
    if ok { DropStart(ranges, n); }
    assert ranges[0..] == ranges;
    for i := 0 to |ranges|
      invariant WellFormed(ranges) ==> WellFormed(remaining)
      invariant ok ==> Dropped(all, n, left, remaining, ranges[i..])
      invariant WellFormed(ranges) && n > CountSlots(ranges) ==> remaining == [] && left > CountSlots(ranges[i..])
      invariant WellFormed(ranges) && n <= 0 ==> remaining == ranges[..i] && left == n
    {
      var r := ranges[i];
      if WellFormed(ranges) { CountFrom(ranges, i); }
      if ok { DropStep(all, n, left, remaining, ranges[i..]); }
      assert ranges[i..][1..] == ranges[i + 1..];
      if left >= r.Count() {
        left := left - r.Count();
      } else if left > 0 {
        remaining := remaining + [SlotRange(r.start + left, r.end)];
        left := 0;
      } else {
        remaining := remaining + [r];
      }
    }
    if ok { DropEnd(ranges, n, left, remaining); }
    assert ranges[..|ranges|] == ranges;
  }

  lemma CountFrom(ranges: seq<SlotRange>, i: nat)
    requires WellFormed(ranges) && i < |ranges|
    ensures CountSlots(ranges[i..]) == ranges[i].Count() + CountSlots(ranges[i + 1..])
              && CountSlots(ranges[i + 1..]) >= 0
  {
    assert ranges[i..][1..] == ranges[i + 1..];
    CountPositive(ranges[i + 1..]);
  }

  /** `left` of the `n` slots are still to be dropped, from the ranges in `rest`. */
  ghost predicate Dropped(all: seq<int>, n: nat, left: int, remaining: seq<SlotRange>, rest: seq<SlotRange>) {
    && 0 <= left <= n <= |all|
    && (left > 0 ==> remaining == [] && all[n - left..] == Expand(rest))
    && (left == 0 ==> Expand(remaining) + Expand(rest) == all[n..])
  }

  lemma DropStart(ranges: seq<SlotRange>, n: nat)
    requires WellFormed(ranges) && n <= CountSlots(ranges)
    ensures Dropped(Expand(ranges), n, n, [], ranges[0..])
  {
    ExpandCount(ranges);
    assert ranges[0..] == ranges;
  }

  lemma DropEnd(ranges: seq<SlotRange>, n: nat, left: int, remaining: seq<SlotRange>)
    requires Dropped(Expand(ranges), n, left, remaining, ranges[|ranges|..])
    ensures |Expand(ranges)| >= n && Expand(remaining) == Expand(ranges)[n..]
  {
  }

  lemma DropStep(all: seq<int>, n: nat, left: int, remaining: seq<SlotRange>, rest: seq<SlotRange>)
    requires Dropped(all, n, left, remaining, rest) && rest != [] && WellFormed(rest)
    ensures left >= 0
    ensures left >= rest[0].Count() ==> Dropped(all, n, left - rest[0].Count(), remaining, rest[1..])
    ensures 0 < left < rest[0].Count() ==>
              Dropped(all, n, 0, remaining + [SlotRange(rest[0].start + left, rest[0].end)], rest[1..])
    ensures left == 0 ==> Dropped(all, n, 0, remaining + [rest[0]], rest[1..])
  {
    if left == 0 {
      ExpandSnoc(remaining, rest[0]);
      Associative(Expand(remaining), Interval(rest[0]), Expand(rest[1..]));
    } else if left < rest[0].Count() {
      DropPart(rest[0], left, Expand(rest[1..]));
    } else {
      assert (Interval(rest[0]) + Expand(rest[1..]))[rest[0].Count()..] == Expand(rest[1..]);
    }
  }

  lemma DropPart(r: SlotRange, left: nat, tail: seq<int>)
    requires left < r.Count()
    ensures var cut := SlotRange(r.start + left, r.end);
            Expand([] + [cut]) + tail == (Interval(r) + tail)[left..]
  {
    var cut := SlotRange(r.start + left, r.end);
    ExpandSnoc([], cut);
    assert Interval(r)[left..] == Interval(cut);
  }
}
