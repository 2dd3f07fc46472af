/** Slot ranges as text: the CLUSTER NODES form "0-100,500" that the backup writes into its
    manifest (pkg/valkey/slots.go) and the restore parses (perconavalkeyrestore/slots.go). */
module SlotText {
  import opened SlotRanges
  import opened Coverage

  // ----- decimal integers (strconv)

  const MAX_INT: int := 9223372036854775807
  const MIN_INT: int := -9223372036854775808

  predicate IsDigit(c: char) { '0' <= c <= '9' }

  function DigitChar(d: int): (r: char)
    requires 0 <= d < 10
  {
    '0' + d as char
  }

  function Digits(n: nat): (r: string) {
    if n < 10 then [DigitChar(n)] else Digits(n / 10) + [DigitChar(n % 10)]
  }

  function Itoa(n: int): (r: string) {
    if n < 0 then "-" + Digits(-n) else Digits(n)
  }

  predicate AllDigits(s: string) { forall i :: 0 <= i < |s| ==> IsDigit(s[i]) }

  function Value(s: string): (n: int)
    requires AllDigits(s)
    ensures n >= 0
  {
    if s == [] then 0 else 10 * Value(s[..|s| - 1]) + (s[|s| - 1] - '0') as int
  }

  function Atoi(s: string): (r: Result<int>) {
    var negative := s != [] && s[0] == '-';
    var digits := if s != [] && (s[0] == '-' || s[0] == '+') then s[1..] else s;
    if digits == [] || !AllDigits(digits) then Err
    else
      var n: int := if negative then -Value(digits) else Value(digits);
      if MIN_INT <= n <= MAX_INT then Ok(n) else Err
  }

  lemma {:induction false} DigitsFacts(n: nat)
    ensures Digits(n) != [] && AllDigits(Digits(n)) && Value(Digits(n)) == n
  {
    if n >= 10 {
      DigitsFacts(n / 10);
      var s := Digits(n);
      assert s[..|s| - 1] == Digits(n / 10);
    } else {
      assert Digits(n)[..0] == [];
    }
  }

  /** A printed number parses back, as far as a 64-bit integer reaches. */
  lemma AtoiItoa(n: int)
    ensures MIN_INT <= n <= MAX_INT <==> Atoi(Itoa(n)) == Ok(n)
  {
    DigitsFacts(if n < 0 then -n else n);
    if n < 0 { assert Itoa(n)[1..] == Digits(-n); }
  }

  // ----- string primitives (strings)

  predicate IsSpace(c: char) {
    c in "\t\n\r " || c == 11 as char || c == 12 as char || c == 0x85 as char || c == 0xA0 as char
    || c == 0x1680 as char || 0x2000 as char <= c <= 0x200a as char || c == 0x2028 as char || c == 0x2029 as char
    || c == 0x202f as char || c == 0x205f as char || c == 0x3000 as char
  }

  function TrimLeft(s: string): (r: string) {
    if s != [] && IsSpace(s[0]) then TrimLeft(s[1..]) else s
  }

  function TrimRight(s: string): (r: string) {
    if s != [] && IsSpace(s[|s| - 1]) then TrimRight(s[..|s| - 1]) else s
  }

  function TrimSpace(s: string): (r: string) { TrimRight(TrimLeft(s)) }

  /** Position of the first occurrence of a character, or the length. */
  function Find(s: string, c: char): (i: nat)
    ensures i <= |s|
  {
    if s == [] || s[0] == c then 0 else 1 + Find(s[1..], c)
  }

  function Split(s: string, c: char): (parts: seq<string>)
    ensures parts != []
  {
    if Find(s, c) == |s| then [s] else [s[..Find(s, c)]] + Split(s[Find(s, c) + 1..], c)
  }

  function Join(parts: seq<string>, c: char): (r: string) {
    if parts == [] then "" else if |parts| == 1 then parts[0] else parts[0] + [c] + Join(parts[1..], c)
  }

  lemma {:induction false} FindAt(s: string, c: char, rest: string)
    requires c !in s
    ensures Find(s + [c] + rest, c) == |s|
    ensures Find(s, c) == |s|
  {
    if s == [] {
    } else {
      FindAt(s[1..], c, rest);
      assert (s + [c] + rest)[1..] == s[1..] + [c] + rest;
    }
  }

  /** Splitting undoes joining when no part contains the separator. */
  lemma {:induction false} SplitJoin(parts: seq<string>, c: char)
    requires parts != [] && forall i :: 0 <= i < |parts| ==> c !in parts[i]
    ensures Split(Join(parts, c), c) == parts
  {
    FindAt(parts[0], c, if |parts| == 1 then "" else Join(parts[1..], c));
    if |parts| > 1 {
      SplitJoin(parts[1..], c);
      var s, k := Join(parts, c), |parts[0]|;
      assert s[..k] == parts[0] && s[k + 1..] == Join(parts[1..], c);
    }
  }

  // ----- printing

  /** `SlotRange.String`. */
  function Show(r: SlotRange): (out: string) {
    if r.start == r.end then Itoa(r.start) else Itoa(r.start) + "-" + Itoa(r.end)
  }

  function ShowAll(ranges: seq<SlotRange>): (r: seq<string>) {
    seq(|ranges|, i requires 0 <= i < |ranges| => Show(ranges[i]))
  }

  function Format(ranges: seq<SlotRange>): (r: string) { Join(ShowAll(ranges), ',') }

  /** `FormatSlotRanges`. */
  method FormatSlotRanges(ranges: seq<SlotRange>) returns (s: string)
    ensures s == Format(ranges)
    ensures AllInBounds(ranges) ==> ParseRanges(s) == Ok(ranges)
  {
    var parts := [];
    for i := 0 to |ranges|
      invariant |parts| == i && forall k :: 0 <= k < i ==> parts[k] == Show(ranges[k])
    {
      parts := parts + [Show(ranges[i])];
    }
    assert parts == ShowAll(ranges);
    s := Join(parts, ',');
    if AllInBounds(ranges) { FormatParses(ranges); }
  }

  // ----- parsing

  /** `parseOneRange`: one token, with bounds. */
  function ParseOneRange(tok: string): (r: Result<SlotRange>)
    ensures r.Ok? ==> InBounds(r.value)
  {
    var cut := Find(tok, '-');
    var start := Atoi(TrimSpace(tok[..cut]));
    if start.Err? then Err
    else
      var end := if cut < |tok| then Atoi(TrimSpace(tok[cut + 1..])) else start;
      if end.Err? || start.value < 0 || end.value >= TOTAL_SLOTS || start.value > end.value then Err
      else Ok(SlotRange(start.value, end.value))
  }

  function ParseTokens(tokens: seq<string>): (r: Result<seq<SlotRange>>)
    ensures r.Ok? ==> AllInBounds(r.value)
  {
    if tokens == [] then Ok([])
    else
      var init, tok := ParseTokens(tokens[..|tokens| - 1]), TrimSpace(tokens[|tokens| - 1]);
      if init.Err? || tok == "" then init
      else match ParseOneRange(tok)
           case Err => Err
           case Ok(r) => Ok(init.value + [r])
  }

  /** The ranges a manifest field denotes; anything but in-bounds ranges is an error. */
  function ParseRanges(s: string): (r: Result<seq<SlotRange>>)
    ensures r.Ok? ==> AllInBounds(r.value)
  {
    var t := TrimSpace(s);
    if t == "" then Ok([]) else ParseTokens(Split(t, ','))
  }

  /** `parseManifestSlotRanges`. */
  method ParseManifestSlotRanges(s: string) returns (r: Result<seq<SlotRange>>)
    ensures r == ParseRanges(s)
    ensures forall ranges :: r == Ok(ranges) <==> IsManifestText(s, ranges)
  {
    hide IsManifestText, TrimSpace, Split, ParseTokens;
    forall ranges ensures ParseRanges(s) == Ok(ranges) <==> IsManifestText(s, ranges) { ManifestTextIs(s, ranges); }
    var t := TrimSpace(s);
    if t == "" {
      return Ok([]);
    }
    r := ParseEach(Split(t, ','));
  }

  method ParseEach(tokens: seq<string>) returns (r: Result<seq<SlotRange>>)
    ensures r == ParseTokens(tokens)
    ensures forall ranges :: r == Ok(ranges) <==> TokensDenote(tokens, ranges)
  {
    forall ranges ensures ParseTokens(tokens) == Ok(ranges) <==> TokensDenote(tokens, ranges) {
      TokensAre(tokens, ranges);
    }
    hide TokensDenote, TrimSpace, ParseOneRange;
    var ranges := [];
    for i := 0 to |tokens|
      invariant ParseTokens(tokens[..i]) == Ok(ranges)
    {
      assert tokens[..i + 1][..i] == tokens[..i];
      var tok := TrimSpace(tokens[i]);
      if tok == "" {
        continue;
      }
      var rng := ParseOneRange(tok);
      if rng.Err? {
        ErrorSticks(tokens, i + 1);
        return Err;
      }
      ranges := ranges + [rng.value];
    }
    assert tokens[..|tokens|] == tokens;
    return Ok(ranges);
  }

  lemma {:induction false} ErrorSticks(tokens: seq<string>, i: nat)
    requires i <= |tokens| && ParseTokens(tokens[..i]).Err?
    ensures ParseTokens(tokens).Err?
    decreases |tokens| - i
  {
    if i < |tokens| {
      assert tokens[..i + 1][..i] == tokens[..i];
      ErrorSticks(tokens, i + 1);
    } else {
      assert tokens[..i] == tokens;
    }
  }

  /** `parseSlotRange` of pkg/valkey/slots.go, used on CLUSTER NODES output: no bounds, no trimming. */
  function ParseSlotRange(s: string): (r: Result<SlotRange>) {
    var cut := Find(s, '-');
    if cut == |s| then
      match Atoi(s) case Err => Err case Ok(n) => Ok(SlotRange(n, n))
    else
      var lo, hi := Atoi(s[..cut]), Atoi(s[cut + 1..]);
      if lo.Err? || hi.Err? || lo.value > hi.value then Err else Ok(SlotRange(lo.value, hi.value))
  }

  // ----- round trips

  predicate Plain(s: string) { s != [] && forall i :: 0 <= i < |s| ==> IsDigit(s[i]) || s[i] == '-' }

  lemma {:induction false} PlainTrim(s: string)
    requires Plain(s)
    ensures TrimSpace(s) == s
  {
    assert !IsSpace(s[0]) && !IsSpace(s[|s| - 1]);
  }

  lemma ShowPlain(r: SlotRange)
    requires 0 <= r.start <= r.end
    ensures Plain(Show(r))
  {
    DigitsFacts(r.start);
    DigitsFacts(r.end);
  }

  /** Where a shown range is cut, and what the two halves are. */
  lemma ShowCut(r: SlotRange)
    requires 0 <= r.start <= r.end
    ensures var s := Show(r);
            && Find(s, '-') == |Digits(r.start)| && s[..Find(s, '-')] == Digits(r.start)
            && (r.start == r.end <==> Find(s, '-') == |s|)
            && (r.start < r.end ==> s[Find(s, '-') + 1..] == Digits(r.end))
  {
    DigitsFacts(r.start);
    FindAt(Digits(r.start), '-', Digits(r.end));
  }

  /** Both parsers invert the printer on every range within 64 bits that the engine can print. */
  lemma ParseShow(r: SlotRange)
    requires 0 <= r.start <= r.end <= MAX_INT
    ensures ParseSlotRange(Show(r)) == Ok(r)
    ensures r.end < TOTAL_SLOTS <==> ParseOneRange(Show(r)) == Ok(r)
  {
    ShowCut(r);
    AtoiItoa(r.start);
    AtoiItoa(r.end);
    DigitsFacts(r.start);
    DigitsFacts(r.end);
    PlainTrim(Digits(r.start));
    PlainTrim(Digits(r.end));
  }

  lemma ShownToken(r: SlotRange)
    requires InBounds(r)
    ensures TrimSpace(Show(r)) == Show(r) != "" && ParseOneRange(Show(r)) == Ok(r)
  {
    ShowPlain(r);
    PlainTrim(Show(r));
    ParseShow(r);
  }

  lemma {:induction false} ParseTokensShow(ranges: seq<SlotRange>)
    requires AllInBounds(ranges)
    ensures ParseTokens(ShowAll(ranges)) == Ok(ranges)
  {
    hide TrimSpace, ParseOneRange, Show, Plain;
    if ranges == [] {
    } else {
      var n := |ranges| - 1;
      ParseTokensShow(ranges[..n]);
      assert ShowAll(ranges)[..n] == ShowAll(ranges[..n]);
      ShownToken(ranges[n]);
      assert ranges == ranges[..n] + [ranges[n]];
      assert ShowAll(ranges)[n] == Show(ranges[n]);
    }
  }

  lemma {:induction false} JoinEnds(parts: seq<string>)
    requires parts != [] && forall i :: 0 <= i < |parts| ==> Plain(parts[i])
    ensures var s := Join(parts, ','); s != [] && !IsSpace(s[0]) && !IsSpace(s[|s| - 1])
  {
    if |parts| > 1 { JoinEnds(parts[1..]); }
  }

  /** Every in-bounds slot list survives the manifest unchanged. */
  lemma FormatParses(ranges: seq<SlotRange>)
    requires AllInBounds(ranges)
    ensures ParseRanges(Format(ranges)) == Ok(ranges)
  {
    var parts := ShowAll(ranges);
    if ranges != [] {
      forall i | 0 <= i < |parts| ensures Plain(parts[i]) && ',' !in parts[i] { ShowPlain(ranges[i]); }
      JoinEnds(parts);
      SplitJoin(parts, ',');
      ParseTokensShow(ranges);
    }
  }

  // ----- the accepted texts, said without the parsers

  predicate Spaces(s: string) { forall i :: 0 <= i < |s| ==> IsSpace(s[i]) }

  /** No space at either end. */
  predicate Tight(s: string) { s == "" || (!IsSpace(s[0]) && !IsSpace(s[|s| - 1])) }

  /** The text with any spaces around it. */
  ghost predicate Padded(s: string, core: string) {
    Tight(core) && exists l, r :: s == l + core + r && Spaces(l) && Spaces(r)
  }

  /** Decimal digits with an optional sign, within 64 bits. */
  ghost predicate Numeral(t: string, n: int) {
    && MIN_INT <= n <= MAX_INT
    && exists d :: d != "" && AllDigits(d)
         && (((t == d || t == "+" + d) && n == Value(d)) || (t == "-" + d && n == -Value(d)))
  }

  lemma AtoiIs(t: string, n: int)
    ensures Atoi(t) == Ok(n) <==> Numeral(t, n)
  {
    if Atoi(t) == Ok(n) {
      var d := if t[0] == '-' || t[0] == '+' then t[1..] else t;
      assert t[0] == '-' ==> t == "-" + d;
      assert t[0] == '+' ==> t == "+" + d;
    }
    if Numeral(t, n) {
      var d :| d != "" && AllDigits(d)
          && (((t == d || t == "+" + d) && n == Value(d)) || (t == "-" + d && n == -Value(d)));
      assert IsDigit(d[0]);
      assert t != d ==> t[1..] == d;
    }
  }

  lemma SpacesJoin(a: string, b: string)
    requires Spaces(a) && Spaces(b)
    ensures Spaces(a + b)
  {
    hide IsSpace;
  }

  lemma {:induction false} TrimLeftFacts(s: string)
    ensures |TrimLeft(s)| <= |s| && TrimLeft(s) == s[|s| - |TrimLeft(s)|..]
    ensures Spaces(s[..|s| - |TrimLeft(s)|]) && (TrimLeft(s) != "" ==> !IsSpace(TrimLeft(s)[0]))
  {
    hide IsSpace;
    if s != [] && IsSpace(s[0]) {
      TrimLeftFacts(s[1..]);
      var k := |s[1..]| - |TrimLeft(s[1..])|;
      SpacesJoin([s[0]], s[1..][..k]);
      hide Spaces;
      assert s[..k + 1] == [s[0]] + s[1..][..k];
      assert s[k + 1..] == s[1..][k..];
    } else {
      assert s[..0] == [] && s[0..] == s;
    }
  }

  lemma {:induction false} TrimRightFacts(s: string)
    ensures |TrimRight(s)| <= |s| && s == TrimRight(s) + s[|TrimRight(s)|..] && Spaces(s[|TrimRight(s)|..])
    ensures TrimRight(s) != "" ==> !IsSpace(TrimRight(s)[|TrimRight(s)| - 1])
  {
    hide IsSpace;
    if s != [] && IsSpace(s[|s| - 1]) {
      var front := s[..|s| - 1];
      TrimRightFacts(front);
      var k := |TrimRight(front)|;
      SpacesJoin(front[k..], [s[|s| - 1]]);
      assert s[k..] == front[k..] + [s[|s| - 1]];
      assert s == front + [s[|s| - 1]] == TrimRight(front) + s[k..];
    } else {
      assert s[|s|..] == [];
    }
  }

  /** Trimming takes away exactly the spaces around. */
  lemma TrimIs(s: string, core: string)
    ensures TrimSpace(s) == core <==> Padded(s, core)
  {
    var left := TrimLeft(s);
    TrimLeftFacts(s);
    TrimRightFacts(left);
    hide TrimLeft, TrimRight, IsSpace;
    var t := TrimSpace(s);
    var l, r := s[..|s| - |left|], left[|t|..];
    assert s == l + left;
    assert s == l + t + r && Spaces(l) && Spaces(r);
    assert t != "" ==> t[0] == left[0];
    assert Padded(s, t);
    if Padded(s, core) { PaddedUnique(s, core, t); }
  }

  /** Whatever is no space lies in the core. */
  lemma InCore(s: string, l: string, core: string, r: string, i: nat)
    requires s == l + core + r && Spaces(l) && Spaces(r) && i < |s| && !IsSpace(s[i])
    ensures |l| <= i < |l| + |core|
  {
    assert forall k :: 0 <= k < |l| ==> s[k] == l[k];
    assert forall k :: |l| + |core| <= k < |s| ==> s[k] == r[k - |l| - |core|];
  }

  lemma PaddedUnique(s: string, a: string, b: string)
    requires Padded(s, a) && Padded(s, b)
    ensures a == b
  {
    hide IsSpace;
    var l, r :| s == l + a + r && Spaces(l) && Spaces(r);
    var p, q :| s == p + b + q && Spaces(p) && Spaces(q);
    if a != "" {
      assert s[|l|] == a[0] && s[|l| + |a| - 1] == a[|a| - 1];
      InCore(s, p, b, q, |l|);
      InCore(s, p, b, q, |l| + |a| - 1);
    }
    if b != "" {
      assert s[|p|] == b[0] && s[|p| + |b| - 1] == b[|b| - 1];
      InCore(s, l, a, r, |p|);
      InCore(s, l, a, r, |p| + |b| - 1);
    }
    assert a == s[|l|..|l| + |a|] && b == s[|p|..|p| + |b|];
  }

  /** One slot, or two with the first dash between them, spaces around them allowed; in bounds and
      in order. */
  ghost predicate IsRangeText(tok: string, r: SlotRange) {
    && 0 <= r.start <= r.end < TOTAL_SLOTS
    && if '-' in tok
       then exists x, y, a, b :: && tok == x + "-" + y && '-' !in x && Padded(x, a) && Numeral(a, r.start)
                                 && Padded(y, b) && Numeral(b, r.end)
       else r.start == r.end && exists a :: Padded(tok, a) && Numeral(a, r.start)
  }

  lemma {:induction false} FindFacts(s: string, c: char)
    ensures c !in s[..Find(s, c)] && (Find(s, c) < |s| <==> c in s) && (Find(s, c) < |s| ==> s[Find(s, c)] == c)
  {
    if s == [] || s[0] == c {
    } else {
      FindFacts(s[1..], c);
      assert s[..Find(s, c)] == [s[0]] + s[1..][..Find(s[1..], c)];
    }
  }

  lemma FirstDash(tok: string, x: string, y: string)
    requires tok == x + "-" + y && '-' !in x
    ensures Find(tok, '-') == |x| && tok[..|x|] == x && tok[|x| + 1..] == y
  {
    FindAt(x, '-', y);
  }

  lemma TrimmedNumeral(s: string, n: int)
    ensures Atoi(TrimSpace(s)) == Ok(n) <==> exists a :: Padded(s, a) && Numeral(a, n)
  {
    TrimIs(s, TrimSpace(s));
    AtoiIs(TrimSpace(s), n);
    forall a | Padded(s, a) ensures a == TrimSpace(s) { TrimIs(s, a); }
  }

  lemma RangeTextIs(tok: string, r: SlotRange)
    ensures ParseOneRange(tok) == Ok(r) <==> IsRangeText(tok, r)
  {
    var cut := Find(tok, '-');
    FindFacts(tok, '-');
    hide Find, TrimSpace, Atoi, Padded, Numeral;
    TrimmedNumeral(tok[..cut], r.start);
    if '-' in tok {
      var x, y := tok[..cut], tok[cut + 1..];
      assert tok == x + "-" + y;
      TrimmedNumeral(y, r.end);
      forall p, q | tok == p + "-" + q && '-' !in p ensures p == x && q == y { FirstDash(tok, p, q); }
    } else {
      assert tok[..cut] == tok;
    }
  }

  /** The tokens that are not blank, in order, denote the ranges. */
  ghost predicate TokensDenote(tokens: seq<string>, ranges: seq<SlotRange>) {
    if tokens == [] then ranges == []
    else
      var front, last := tokens[..|tokens| - 1], tokens[|tokens| - 1];
      if Padded(last, "") then TokensDenote(front, ranges)
      else && ranges != [] && TokensDenote(front, ranges[..|ranges| - 1])
           && exists core :: Padded(last, core) && IsRangeText(core, ranges[|ranges| - 1])
  }

  lemma {:induction false} TokensAre(tokens: seq<string>, ranges: seq<SlotRange>)
    ensures ParseTokens(tokens) == Ok(ranges) <==> TokensDenote(tokens, ranges)
  {
    hide ParseOneRange, IsRangeText, Padded, TrimSpace;
    if tokens == [] {
    } else {
      var front, last := tokens[..|tokens| - 1], tokens[|tokens| - 1];
      var core := TrimSpace(last);
      TrimIs(last, "");
      TrimIs(last, core);
      forall c | Padded(last, c) ensures c == core { TrimIs(last, c); }
      if core == "" {
        TokensAre(front, ranges);
      } else if ranges == [] {
        OneMore(front, core);
      } else {
        TokensAre(front, ranges[..|ranges| - 1]);
        RangeTextIs(core, ranges[|ranges| - 1]);
        Appended(ParseTokens(front), ParseOneRange(core), ranges);
      }
    }
  }

  lemma OneMore(front: seq<string>, core: string)
    ensures ParseTokens(front).Ok? && ParseOneRange(core).Ok? ==>
              ParseTokens(front).value + [ParseOneRange(core).value] != []
  {
  }

  lemma Appended(init: Result<seq<SlotRange>>, one: Result<SlotRange>, ranges: seq<SlotRange>)
    requires ranges != []
    ensures (init.Ok? && one.Ok? && init.value + [one.value] == ranges) <==>
            init == Ok(ranges[..|ranges| - 1]) && one == Ok(ranges[|ranges| - 1])
  {
    if init.Ok? && one.Ok? && init.value + [one.value] == ranges { assert ranges[..|ranges| - 1] == init.value; }
  }

  /** Splitting gives the one list without the separator that joins to the text. */
  lemma {:induction false} SplitIs(s: string, c: char)
    ensures Join(Split(s, c), c) == s && forall p :: p in Split(s, c) ==> c !in p
    decreases |s|
  {
    FindFacts(s, c);
    var k := Find(s, c);
    if k < |s| {
      SplitIs(s[k + 1..], c);
      assert s == s[..k] + [c] + s[k + 1..];
      assert Split(s, c)[1..] == Split(s[k + 1..], c);
    }
  }

  /** A blank field denotes no ranges; otherwise comma-separated tokens, blank ones skipped. */
  ghost predicate IsManifestText(s: string, ranges: seq<SlotRange>) {
    if Padded(s, "") then ranges == []
    else
      exists core, tokens :: && Padded(s, core) && tokens != [] && Join(tokens, ',') == core
                             && (forall t :: t in tokens ==> ',' !in t) && TokensDenote(tokens, ranges)
  }

  lemma ManifestTextIs(s: string, ranges: seq<SlotRange>)
    ensures ParseRanges(s) == Ok(ranges) <==> IsManifestText(s, ranges)
  {
    var core := TrimSpace(s);
    TrimIs(s, "");
    TrimIs(s, core);
    forall c | Padded(s, c) ensures c == core { TrimIs(s, c); }
    hide TrimSpace, Padded, ParseTokens, TokensDenote, Split, Join;
    if core != "" {
      SplitIs(core, ',');
      TokensAre(Split(core, ','), ranges);
      forall tokens | tokens != [] && Join(tokens, ',') == core && forall t :: t in tokens ==> ',' !in t
        ensures tokens == Split(core, ',')
      {
        assert forall i :: 0 <= i < |tokens| ==> tokens[i] in tokens;
        SplitJoin(tokens, ',');
      }
    }
  }

  /** What the engine prints: one slot, or two with a dash between them, in order; no spaces. */
  lemma SlotRangeTextIs(s: string, r: SlotRange)
    ensures ParseSlotRange(s) == Ok(r) <==>
            if '-' in s
            then r.start <= r.end
                 && exists x, y :: s == x + "-" + y && '-' !in x && Numeral(x, r.start) && Numeral(y, r.end)
            else r.start == r.end && Numeral(s, r.start)
  {
    var cut := Find(s, '-');
    FindFacts(s, '-');
    hide Find, Atoi, Numeral;
    AtoiIs(s, r.start);
    if '-' in s {
      var x, y := s[..cut], s[cut + 1..];
      assert s == x + "-" + y;
      AtoiIs(x, r.start);
      AtoiIs(y, r.end);
      forall p, q | s == p + "-" + q && '-' !in p ensures p == x && q == y { FirstDash(s, p, q); }
    }
  }
}
