/** Retention of scheduled backups (perconavalkeybackup/retention.go): which finished backups
    of a schedule are deleted under its keep and age limits. */
module Retention {
  import opened Sorting
  import opened ClusterView
  import BackupScheduler

  datatype Backup = Backup(name: string, phase: BackupScheduler.Phase, deleting: bool, completed: Option<int>,
                           created: int) {
    /** `completionTime`. */
    function CompletionTime(): (r: int) { if completed.Some? then completed.value else created }

    predicate Counts() { !deleting && phase.Succeeded? }
  }

  predicate NewestFirst(a: Backup, b: Backup) {
    a.CompletionTime() > b.CompletionTime() || (a.CompletionTime() == b.CompletionTime() && StringLe(b.name, a.name))
  }

  function Counted(items: seq<Backup>): (r: seq<Backup>) {
    if items == [] then []
    else
      var before, b := Counted(items[..|items| - 1]), items[|items| - 1];
      if b.Counts() then before + [b] else before
  }

  /** The counted backups, newest first. */
  function Ranking(items: seq<Backup>): (r: seq<Backup>) { Sort(Counted(items), NewestFirst) }

  predicate Expired(b: Backup, idx: nat, keep: int, keepAge: int, now: int) {
    (keep > 0 && idx >= keep) || (keepAge > 0 && now - b.CompletionTime() > keepAge)
  }

  ghost predicate DistinctNames(items: seq<Backup>) {
    forall i, j :: 0 <= i < j < |items| ==> items[i].name != items[j].name
  }

  /** `cut` splits a ranking into what is kept and what goes. */
  ghost predicate IsCut(ranking: seq<Backup>, cut: nat, keep: int, keepAge: int, now: int) {
    && cut <= |ranking|
    && (forall i :: 0 <= i < cut ==> !Expired(ranking[i], i, keep, keepAge, now))
    && (forall i :: cut <= i < |ranking| ==> Expired(ranking[i], i, keep, keepAge, now))
  }

  /** `selectSurplus`: the surplus is a tail of the ranking, with an age limit as without. */
  method SelectSurplus(items: seq<Backup>, keep: int, keepAge: int, now: int)
    returns (surplus: seq<Backup>, ghost cut: nat)
    ensures IsCut(Ranking(items), cut, keep, keepAge, now) && surplus == Ranking(items)[cut..]
    ensures forall b :: b in surplus ==> b in items && b.Counts()
    ensures keepAge <= 0 && keep > 0 ==> |surplus| == if |Counted(items)| > keep then |Counted(items)| - keep else 0
    ensures keepAge <= 0 && keep <= 0 ==> surplus == []
    ensures keep <= 0 && keepAge > 0 ==>
              forall b :: b in surplus <==> b in items && IsFinished(b) && now - When(b) > keepAge
    ensures DistinctNames(items) ==> forall b :: b in surplus <==> IsSurplus(items, b, keep, keepAge, now)
  {
    hide IsSurplus, IsFinished, When;
    var counted: seq<Backup> := [];
    for i := 0 to |items|
      invariant counted == Counted(items[..i])
    {
      assert items[..i + 1][..i] == items[..i];
      if items[i].deleting {
        continue;
      }
      if items[i].phase.Succeeded? {
        counted := counted + [items[i]];
      }
    }
    assert items[..|items|] == items;
    var ranking := Sort(counted, NewestFirst);
    RankingFacts(items);
    surplus, cut := [], 0;
    for idx := 0 to |ranking|
      invariant cut <= idx && surplus == ranking[cut..idx]
      invariant forall i :: 0 <= i < cut ==> !Expired(ranking[i], i, keep, keepAge, now)
      invariant forall i :: cut <= i < idx ==> Expired(ranking[i], i, keep, keepAge, now)
    {
      if Expired(ranking[idx], idx, keep, keepAge, now) {
        surplus := surplus + [ranking[idx]];
      } else {
        if cut < idx { OlderExpires(ranking, cut, idx, keep, keepAge, now); }
        cut := idx + 1;
      }
    }
    CutSize(ranking, cut, keep, keepAge, now);
    if keep <= 0 && keepAge > 0 { AgeSurplus(items, cut, keep, keepAge, now); }
    if DistinctNames(items) { SurplusIs(items, cut, keep, keepAge, now); }
  }

  // ----- the surplus, said without the ranking

  predicate IsFinished(b: Backup) { !b.deleting && b.phase == BackupScheduler.Succeeded }

  function When(b: Backup): (r: int) { if b.completed.Some? then b.completed.value else b.created }

  /** The finished backups that are newer; of two equally old ones, the one with the greater name. */
  ghost function Newer(items: seq<Backup>, b: Backup): (r: set<Backup>) {
    set c | c in items && IsFinished(c) && IsNewer(c, b)
  }

  predicate IsNewer(c: Backup, b: Backup) {
    When(c) > When(b) || (When(c) == When(b) && StringLe(b.name, c.name) && c.name != b.name)
  }

  /** A finished backup with as many newer ones as are to be kept, or past its age. */
  ghost predicate IsSurplus(items: seq<Backup>, b: Backup, keep: int, keepAge: int, now: int) {
    && b in items && IsFinished(b)
    && ((keep > 0 && |Newer(items, b)| >= keep) || (keepAge > 0 && now - When(b) > keepAge))
  }

  lemma TailMembers(ranking: seq<Backup>, cut: nat, keep: int, keepAge: int, now: int)
    requires IsCut(ranking, cut, keep, keepAge, now)
    ensures forall b :: b in ranking[cut..] ==>
              exists i :: cut <= i < |ranking| && ranking[i] == b && Expired(b, i, keep, keepAge, now)
    ensures forall i :: 0 <= i < |ranking| && Expired(ranking[i], i, keep, keepAge, now) ==>
              ranking[i] in ranking[cut..]
  {
    forall b | b in ranking[cut..]
      ensures exists i :: cut <= i < |ranking| && ranking[i] == b && Expired(b, i, keep, keepAge, now)
    {
      var j :| 0 <= j < |ranking[cut..]| && ranking[cut..][j] == b;
      assert ranking[cut + j] == b;
    }
    forall i | 0 <= i < |ranking| && Expired(ranking[i], i, keep, keepAge, now) ensures ranking[i] in ranking[cut..] {
      assert i >= cut;
      assert ranking[cut..][i - cut] == ranking[i];
    }
  }

  /** With only an age limit, the surplus is whatever is past it. */
  lemma AgeSurplus(items: seq<Backup>, cut: nat, keep: int, keepAge: int, now: int)
    requires IsCut(Ranking(items), cut, keep, keepAge, now) && keep <= 0 && keepAge > 0
    ensures forall b :: b in Ranking(items)[cut..] <==> b in items && IsFinished(b) && now - When(b) > keepAge
  {
    TailMembers(Ranking(items), cut, keep, keepAge, now);
    RankingFacts(items);
    hide Ranking;
    var ranking := Ranking(items);
    forall b | b in items && IsFinished(b) && now - When(b) > keepAge ensures b in ranking[cut..] {
      var i :| 0 <= i < |ranking| && ranking[i] == b;
      assert Expired(ranking[i], i, keep, keepAge, now);
    }
    assert forall b :: b in ranking[cut..] ==> b in ranking;
  }

  /** The rank of a backup is the number of newer ones. */
  lemma RankIs(items: seq<Backup>, i: nat)
    requires DistinctNames(items) && i < |Ranking(items)|
    ensures |Newer(items, Ranking(items)[i])| == i
  {
    var ranking := Ranking(items);
    RankingFacts(items);
    RankingDistinct(items);
    hide Ranking, Distinct;
    var b := ranking[i];
    assert b in ranking;
    forall c ensures c in Newer(items, b) <==> c in ranking[..i] {
      if c in ranking[..i] {
        var j :| 0 <= j < i && ranking[j] == c;
        assert NewestFirst(ranking[j], ranking[i]) && c in ranking;
        DifferentNames(items, ranking, j, i);
      } else if c in Newer(items, b) {
        assert c in ranking;
        var j :| 0 <= j < |ranking| && ranking[j] == c;
        assert j > i ==> NewestFirst(b, c);
        NotBoth(b, c);
      }
    }
    PrefixCard(ranking, i, Newer(items, b));
  }

  lemma DifferentNames(items: seq<Backup>, ranking: seq<Backup>, j: nat, i: nat)
    requires DistinctNames(items) && j < i < |ranking| && Distinct(ranking) && forall b :: b in ranking ==> b in items
    ensures ranking[j].name != ranking[i].name
  {
    assert ranking[j] in items && ranking[i] in items;
    var p :| 0 <= p < |items| && items[p] == ranking[j];
    var q :| 0 <= q < |items| && items[q] == ranking[i];
    assert ranking[j] != ranking[i];
  }

  lemma NotBoth(b: Backup, c: Backup)
    ensures !(NewestFirst(b, c) && IsNewer(c, b))
  {
    if StringLe(b.name, c.name) && StringLe(c.name, b.name) { StringLeAntisymmetric(b.name, c.name); }
  }

  lemma {:induction false} PrefixCard(s: seq<Backup>, i: nat, S: set<Backup>)
    requires i <= |s| && Distinct(s) && forall c :: c in S <==> c in s[..i]
    ensures |S| == i
  {
    if i == 0 {
      assert S == {};
    } else {
      var x := s[i - 1];
      assert s[..i] == s[..i - 1] + [x];
      assert x !in s[..i - 1];
      PrefixCard(s, i - 1, S - {x});
    }
  }

  lemma SurplusIs(items: seq<Backup>, cut: nat, keep: int, keepAge: int, now: int)
    requires DistinctNames(items) && IsCut(Ranking(items), cut, keep, keepAge, now)
    ensures forall b :: b in Ranking(items)[cut..] <==> IsSurplus(items, b, keep, keepAge, now)
  {
    var ranking := Ranking(items);
    TailMembers(ranking, cut, keep, keepAge, now);
    RankingFacts(items);
    hide Ranking, Newer;
    forall i | 0 <= i < |ranking|
      ensures Expired(ranking[i], i, keep, keepAge, now) <==> IsSurplus(items, ranking[i], keep, keepAge, now)
    {
      assert ranking[i] in ranking;
      RankIs(items, i);
    }
    forall b | IsSurplus(items, b, keep, keepAge, now) ensures b in ranking[cut..] {
      assert b in ranking;
      var i :| 0 <= i < |ranking| && ranking[i] == b;
    }
  }

  lemma NewestFirstOrder()
    ensures TotalPreorder(NewestFirst)
  {
    StringOrder();
  }

  lemma {:induction false} CountedFacts(items: seq<Backup>)
    ensures forall b :: b in Counted(items) <==> b in items && b.Counts()
    ensures DistinctNames(items) ==> DistinctNames(Counted(items))
  {
    if items == [] {
    } else {
      var front, last := items[..|items| - 1], items[|items| - 1];
      CountedFacts(front);
      assert items == front + [last];
      if DistinctNames(items) {
        assert DistinctNames(front);
        assert forall b :: b in front ==> b.name != last.name;
        assert forall i :: 0 <= i < |Counted(front)| ==> Counted(front)[i] in front;
      }
    }
  }

  lemma RankingFacts(items: seq<Backup>)
    ensures Sorted(Ranking(items), NewestFirst) && |Ranking(items)| == |Counted(items)|
    ensures forall b :: b in Ranking(items) <==> b in items && b.Counts()
  {
    CountedFacts(items);
    NewestFirstOrder();
    SortSorts(Counted(items), NewestFirst);
    SortPermutes(Counted(items), NewestFirst);
  }

  lemma OlderExpires(ranking: seq<Backup>, i: nat, j: nat, keep: int, keepAge: int, now: int)
    requires i < j < |ranking| && Sorted(ranking, NewestFirst) && Expired(ranking[i], i, keep, keepAge, now)
    ensures Expired(ranking[j], j, keep, keepAge, now)
  {
    assert NewestFirst(ranking[i], ranking[j]);
  }

  lemma CutSize(ranking: seq<Backup>, cut: nat, keep: int, keepAge: int, now: int)
    requires IsCut(ranking, cut, keep, keepAge, now)
    ensures keepAge <= 0 && keep > 0 ==> cut == if |ranking| > keep then keep else |ranking|
    ensures keepAge <= 0 && keep <= 0 ==> cut == |ranking|
  {
    if cut < |ranking| { assert Expired(ranking[cut], cut, keep, keepAge, now); }
    if cut > 0 { assert !Expired(ranking[cut - 1], cut - 1, keep, keepAge, now); }
  }

  lemma CutUnique(ranking: seq<Backup>, c: nat, d: nat, keep: int, keepAge: int, now: int)
    requires IsCut(ranking, c, keep, keepAge, now) && IsCut(ranking, d, keep, keepAge, now)
    ensures c == d
  {
    assert c < |ranking| ==> Expired(ranking[c], c, keep, keepAge, now);
    assert d < |ranking| ==> Expired(ranking[d], d, keep, keepAge, now);
  }

  // ----- independence of the list order, and stability over passes

  lemma NamesBreakTies(s: seq<Backup>)
    requires DistinctNames(s)
    ensures TieFree(s, NewestFirst) && Distinct(s)
  {
    forall x, y | x in s && y in s && NewestFirst(x, y) && NewestFirst(y, x) ensures x == y {
      StringLeAntisymmetric(x.name, y.name);
    }
  }

  lemma RankingByMembers(items: seq<Backup>, ranked: seq<Backup>)
    requires DistinctNames(items) && Distinct(ranked) && Sorted(ranked, NewestFirst)
    requires forall b :: b in ranked <==> b in items && b.Counts()
    ensures Ranking(items) == ranked
  {
    CountedFacts(items);
    NewestFirstOrder();
    NamesBreakTies(Counted(items));
    SameMembersSameCounts(Counted(items), ranked);
    SortSorts(Counted(items), NewestFirst);
    SortPermutes(Counted(items), NewestFirst);
    assert forall b :: b in Counted(items) <==> b in Ranking(items);
    SortedUnique(Ranking(items), ranked, NewestFirst);
  }

  lemma RankingDistinct(items: seq<Backup>)
    requires DistinctNames(items)
    ensures Distinct(Ranking(items))
  {
    CountedFacts(items);
    NamesBreakTies(Counted(items));
    SortKeepsDistinct(Counted(items), NewestFirst);
  }

  /** The selection depends on which backups are listed, not on the order of the list. */
  lemma SelectionOrderFree(a: seq<Backup>, b: seq<Backup>, c: nat, d: nat, keep: int, keepAge: int, now: int)
    requires DistinctNames(a) && DistinctNames(b) && forall x :: x in a <==> x in b
    requires IsCut(Ranking(a), c, keep, keepAge, now) && IsCut(Ranking(b), d, keep, keepAge, now)
    ensures Ranking(a)[c..] == Ranking(b)[d..]
  {
    RankingFacts(b);
    RankingDistinct(b);
    RankingByMembers(a, Ranking(b));
    CutUnique(Ranking(b), c, d, keep, keepAge, now);
  }

  /** The list a later pass sees: the surplus is gone or terminating, everything else still counts. */
  ghost predicate SurvivorsOf(items: seq<Backup>, surplus: seq<Backup>, rest: seq<Backup>) {
    DistinctNames(rest) && forall b: Backup :: (b in rest && b.Counts()) <==>
        (b in items && b.Counts() && b !in surplus)
  }

  /** Retention is settled after one pass: run again on the survivors it deletes nothing. */
  lemma SettledAfterOnePass(items: seq<Backup>, rest: seq<Backup>, c: nat, d: nat, keep: int, keepAge: int, now: int)
    requires DistinctNames(items) && IsCut(Ranking(items), c, keep, keepAge, now)
    requires SurvivorsOf(items, Ranking(items)[c..], rest) && IsCut(Ranking(rest), d, keep, keepAge, now)
    ensures Ranking(rest)[d..] == []
  {
    var ranking := Ranking(items);
    var kept := ranking[..c];
    RankingFacts(items);
    RankingDistinct(items);
    assert ranking == kept + ranking[c..];
    assert forall b :: b in kept <==> b in rest && b.Counts();
    RankingByMembers(rest, kept);
    CutUnique(kept, c, d, keep, keepAge, now);
  }
}
