/** The regular expressions of the extractor, each as a matcher at a fixed start
    position, with `re.search` and `re.finditer` over them.

    Every pattern here is a chain of greedy runs (`\s+`, `\s*`, `[\d,]+`, `[\d.]+`, `\d+`)
    separated by literals, where the character after a greedy run can never continue the
    next element if the run were shorter; backtracking therefore never finds a different
    match, and the leftmost-greedy match at a position is computed by taking each run in
    full. */
module Patterns {
  import opened Text

  datatype Option<T> = None | Some(value: T) {
    predicate IsFailure() { None? }
    function PropagateFailure<U>(): Option<U> requires None? { None }
    function Extract(): T requires Some? { value }
  }

  /** The patterns of the extractor, by the role they play. */
  datatype Pattern =
    | ZoneHeader        // Zone\s+1\s+2\s+3\s+4\s+5\s+6\s+7\s+8\s+9(?:\s+10)?
    | EnvelopeRow(n: nat)   // Envelopes?  then n times \s+([\d,]+)
    | WeightRow(n: nat)     // ([\d.]+)\s*kg  then n times \s+([\d,]+)
    | RangeRow(n: nat)      // ([\d]+)\s*-\s*([\d]+)\s*kg  then n times \s+([\d,]+)
    | AboveLabel        // Above\s+(\d+)\s*kg
    | MinRateRow        // Min\s+rate  then 9 times \s+([\d,]+)
    | RangeLabel        // ([\d]+)\s*-\s*([\d]+)\s*kg
    | PricePerKgRow     // Price\s+per\s+kg  then 9 times \s+([\d,]+)
    | OrMoreLabel       // (\d+)\s*kg\s+or\s+more
    | PriceToken        // ([\d,]+)

  /** A match: `group(0)` is `s[start..end]`; `groups` are the label captures and
      `prices` the price captures, in order. */
  datatype Hit = Hit(start: nat, end: nat, groups: seq<string>, prices: seq<string>)

  /** A captured `[\d,]+` token. */
  predicate IsPriceToken(t: string)
  {
    t != [] && forall k :: 0 <= k < |t| ==> IsPriceChar(t[k])
  }

  predicate IsDigitGroup(g: string)
  {
    g != [] && AllDigits(g)
  }

  predicate IsDecimalGroup(g: string)
  {
    g != [] && forall k :: 0 <= k < |g| ==> IsDecimalChar(g[k])
  }

  /** How many prices a pattern captures. */
  function PriceCount(pat: Pattern): nat
  {
    match pat
    case EnvelopeRow(n) => n
    case WeightRow(n) => n
    case RangeRow(n) => n
    case MinRateRow => 9
    case PricePerKgRow => 9
    case _ => 0
  }

  /** The captures a hit of `pat` has: the number of prices, and the number and
      character classes of the label groups. */
  predicate Shaped(pat: Pattern, h: Hit)
  {
    && |h.prices| == PriceCount(pat)
    && (forall i :: 0 <= i < |h.prices| ==> IsPriceToken(h.prices[i]))
    && match pat
       case WeightRow(_) => |h.groups| == 1 && IsDecimalGroup(h.groups[0])
       case RangeRow(_) => |h.groups| == 2 && IsDigitGroup(h.groups[0]) && IsDigitGroup(h.groups[1])
       case RangeLabel => |h.groups| == 2 && IsDigitGroup(h.groups[0]) && IsDigitGroup(h.groups[1])
       case AboveLabel => |h.groups| == 1 && IsDigitGroup(h.groups[0])
       case OrMoreLabel => |h.groups| == 1 && IsDigitGroup(h.groups[0])
       case PriceToken => |h.groups| == 1 && IsPriceToken(h.groups[0])
       case _ => h.groups == []
  }

  /** A literal. */
  function Lit(s: string, p: nat, word: string): (r: Option<nat>)
    requires p <= |s|
    ensures r.Some? <==> OccursAt(s, word, p)
    ensures r.Some? ==> r.value == p + |word| <= |s|
  {
    if OccursAt(s, word, p) then Some(p + |word|) else None
  }

  /** `\s*` */
  function Spaces0(s: string, p: nat): (e: nat)
    requires p <= |s|
    ensures p <= e <= |s|
  {
    RunEnd(s, p, Space)
  }

  /** A greedy run of at least one `cls` character: `\s+`, `\d+`, `[\d,]+`, `[\d.]+`. */
  function Run1(s: string, p: nat, cls: CharClass): (r: Option<nat>)
    requires p <= |s|
    ensures r.Some? ==> p < r.value <= |s|
    ensures r.Some? ==> forall k :: p <= k < r.value ==> InClass(s[k], cls)
    ensures r.Some? ==> r.value == |s| || !InClass(s[r.value], cls)
    ensures r.None? <==> p == |s| || !InClass(s[p], cls)
  {
    var e := RunEnd(s, p, cls);
    if e > p then Some(e) else None
  }

  /** `n` times `\s+([\d,]+)`: the first `n` whitespace-separated price tokens from `p`. */
  function PriceList(s: string, p: nat, n: nat): (r: Option<(seq<string>, nat)>)
    requires p <= |s|
    ensures r.Some? ==> |r.value.0| == n && p <= r.value.1 <= |s|
    ensures r.Some? ==> forall i :: 0 <= i < |r.value.0| ==> IsPriceToken(r.value.0[i])
    decreases n
  {
    if n == 0 then Some(([], p))
    else
      var q :- Run1(s, p, Space);
      var e :- Run1(s, q, PriceChar);
      var rest :- PriceList(s, e, n - 1);
      Some(([s[q..e]] + rest.0, rest.1))
  }

  /** The digits of the zone header, one per column. */
  const ZoneDigits: string := "123456789"

  /** `\s+d` for each column `d` from `ZoneDigits[i]` on to 9. */
  function HeaderColumns(s: string, p: nat, i: nat): (r: Option<nat>)
    requires p <= |s| && i <= |ZoneDigits|
    ensures r.Some? ==> p <= r.value <= |s|
    ensures r.Some? ==> forall k :: p <= k < r.value ==> s[k] != '0'
    decreases |ZoneDigits| - i
  {
    if i == |ZoneDigits| then Some(p)
    else
      var q :- Run1(s, p, Space);
      var e :- Lit(s, q, [ZoneDigits[i]]);
      assert s[q] == ZoneDigits[i] by { assert s[q..e][0] == s[q]; }
      HeaderColumns(s, e, i + 1)
  }

  /** The optional `(?:\s+10)` after the ninth column: the end it reaches, if present. */
  function TenthColumn(s: string, e: nat): (r: Option<nat>)
    requires e <= |s|
    ensures r.Some? ==> e + 2 <= r.value <= |s| && OccursAt(s, "10", r.value - 2)
  {
    var q :- Run1(s, e, Space);
    Lit(s, q, "10")
  }

  /** `Zone\s+1\s+2\s+3\s+4\s+5\s+6\s+7\s+8\s+9` at `p`: where the ninth column ends.
      No character of it is a '0'. */
  function HeaderEnd(s: string, p: nat): (r: Option<nat>)
    requires p <= |s|
    ensures r.Some? ==> p + 4 <= r.value <= |s|
    ensures r.Some? ==> forall k :: p <= k < r.value ==> s[k] != '0'
  {
    var z :- Lit(s, p, "Zone");
    assert forall k :: p <= k < z ==> s[k] != '0' by {
      forall k | p <= k < z ensures s[k] != '0' {
        assert s[k] == s[p..z][k - p];
      }
    }
    HeaderColumns(s, z, 0)
  }

  /** `Zone\s+1\s+2\s+3\s+4\s+5\s+6\s+7\s+8\s+9(?:\s+10)?` at `p`. */
  function MatchZoneHeader(s: string, p: nat): (r: Option<Hit>)
    requires p <= |s|
    ensures r.Some? ==> r.value.start == p < r.value.end <= |s| && Shaped(ZoneHeader, r.value)
  {
    var e :- HeaderEnd(s, p);
    var end := match TenthColumn(s, e) case Some(t) => t case None => e;
    Some(Hit(p, end, [], []))
  }

  /** `Envelopes?` and `n` prices at `p`; the optional `s` is taken when present. */
  function MatchEnvelopeRow(s: string, p: nat, n: nat): (r: Option<Hit>)
    requires p <= |s|
    ensures r.Some? ==> r.value.start == p < r.value.end <= |s| && Shaped(EnvelopeRow(n), r.value)
  {
    var e :- Lit(s, p, "Envelope");
    var e' := if OccursAt(s, "s", e) then e + 1 else e;
    var ps :- PriceList(s, e', n);
    Some(Hit(p, ps.1, [], ps.0))
  }

  /** `([\d.]+)\s*kg` and `n` prices at `p`. */
  function MatchWeightRow(s: string, p: nat, n: nat): (r: Option<Hit>)
    requires p <= |s|
    ensures r.Some? ==> r.value.start == p < r.value.end <= |s| && Shaped(WeightRow(n), r.value)
  {
    var w :- Run1(s, p, DecimalChar);
    var k :- Lit(s, Spaces0(s, w), "kg");
    var ps :- PriceList(s, k, n);
    Some(Hit(p, ps.1, [s[p..w]], ps.0))
  }

  /** `([\d]+)\s*-\s*([\d]+)\s*kg` at `p`: the two bounds and the end of `kg`. */
  function MatchRangeHead(s: string, p: nat): (r: Option<(string, string, nat)>)
    requires p <= |s|
    ensures r.Some? ==> p < r.value.2 <= |s| && IsDigitGroup(r.value.0) && IsDigitGroup(r.value.1)
  {
    var a :- Run1(s, p, Digit);
    var d :- Lit(s, Spaces0(s, a), "-");
    var b0 := Spaces0(s, d);
    var b :- Run1(s, b0, Digit);
    var k :- Lit(s, Spaces0(s, b), "kg");
    Some((s[p..a], s[b0..b], k))
  }

  /** A range label followed by `n` prices, all at `p`. */
  function MatchRangeRow(s: string, p: nat, n: nat): (r: Option<Hit>)
    requires p <= |s|
    ensures r.Some? ==> r.value.start == p < r.value.end <= |s| && Shaped(RangeRow(n), r.value)
  {
    var head :- MatchRangeHead(s, p);
    var ps :- PriceList(s, head.2, n);
    Some(Hit(p, ps.1, [head.0, head.1], ps.0))
  }

  /** A range label alone at `p`. */
  function MatchRangeLabel(s: string, p: nat): (r: Option<Hit>)
    requires p <= |s|
    ensures r.Some? ==> r.value.start == p < r.value.end <= |s| && Shaped(RangeLabel, r.value)
  {
    var head :- MatchRangeHead(s, p);
    Some(Hit(p, head.2, [head.0, head.1], []))
  }

  /** `Above\s+(\d+)\s*kg` at `p`. */
  function MatchAboveLabel(s: string, p: nat): (r: Option<Hit>)
    requires p <= |s|
    ensures r.Some? ==> r.value.start == p < r.value.end <= |s| && Shaped(AboveLabel, r.value)
  {
    var a :- Lit(s, p, "Above");
    var n0 :- Run1(s, a, Space);
    var n :- Run1(s, n0, Digit);
    var k :- Lit(s, Spaces0(s, n), "kg");
    Some(Hit(p, k, [s[n0..n]], []))
  }

  /** `Min\s+rate` and 9 prices at `p`. */
  function MatchMinRateRow(s: string, p: nat): (r: Option<Hit>)
    requires p <= |s|
    ensures r.Some? ==> r.value.start == p < r.value.end <= |s| && Shaped(MinRateRow, r.value)
  {
    var m :- Lit(s, p, "Min");
    var r0 :- Run1(s, m, Space);
    var r :- Lit(s, r0, "rate");
    var ps :- PriceList(s, r, 9);
    Some(Hit(p, ps.1, [], ps.0))
  }

  /** `Price\s+per\s+kg` and 9 prices at `p`. */
  function MatchPricePerKgRow(s: string, p: nat): (r: Option<Hit>)
    requires p <= |s|
    ensures r.Some? ==> r.value.start == p < r.value.end <= |s| && Shaped(PricePerKgRow, r.value)
  {
    var a :- Lit(s, p, "Price");
    var b0 :- Run1(s, a, Space);
    var b :- Lit(s, b0, "per");
    var c0 :- Run1(s, b, Space);
    var c :- Lit(s, c0, "kg");
    var ps :- PriceList(s, c, 9);
    Some(Hit(p, ps.1, [], ps.0))
  }

  /** `(\d+)\s*kg\s+or\s+more` at `p`. */
  function MatchOrMoreLabel(s: string, p: nat): (r: Option<Hit>)
    requires p <= |s|
    ensures r.Some? ==> r.value.start == p < r.value.end <= |s| && Shaped(OrMoreLabel, r.value)
  {
    var n :- Run1(s, p, Digit);
    var k :- Lit(s, Spaces0(s, n), "kg");
    var o0 :- Run1(s, k, Space);
    var o :- Lit(s, o0, "or");
    var m0 :- Run1(s, o, Space);
    var m :- Lit(s, m0, "more");
    Some(Hit(p, m, [s[p..n]], []))
  }

  /** `([\d,]+)` at `p`. */
  function MatchPriceToken(s: string, p: nat): (r: Option<Hit>)
    requires p <= |s|
    ensures r.Some? ==> r.value.start == p < r.value.end <= |s| && Shaped(PriceToken, r.value)
  {
    var e :- Run1(s, p, PriceChar);
    Some(Hit(p, e, [s[p..e]], []))
  }

  /** The match of `pat` starting exactly at `p`, if any. */
  function MatchAt(pat: Pattern, s: string, p: nat): (r: Option<Hit>)
    requires p <= |s|
    ensures r.Some? ==> r.value.start == p < r.value.end <= |s| && Shaped(pat, r.value)
  {
    match pat
    case ZoneHeader => MatchZoneHeader(s, p)
    case EnvelopeRow(n) => MatchEnvelopeRow(s, p, n)
    case WeightRow(n) => MatchWeightRow(s, p, n)
    case RangeRow(n) => MatchRangeRow(s, p, n)
    case RangeLabel => MatchRangeLabel(s, p)
    case AboveLabel => MatchAboveLabel(s, p)
    case MinRateRow => MatchMinRateRow(s, p)
    case PricePerKgRow => MatchPricePerKgRow(s, p)
    case OrMoreLabel => MatchOrMoreLabel(s, p)
    case PriceToken => MatchPriceToken(s, p)
  }

  /** The results of matching `pat` at every position of `s`, end of string included. */
  function Matches(pat: Pattern, s: string): (ms: seq<Option<Hit>>)
    ensures |ms| == |s| + 1
  {
    seq(|s| + 1, p requires 0 <= p <= |s| => MatchAt(pat, s, p))
  }

  /** The first position at or after `from` where `ms` holds a match, or `|ms|` when
      there is none. */
  function FirstIndex(ms: seq<Option<Hit>>, from: nat): (i: nat)
    requires from <= |ms|
    ensures from <= i <= |ms|
    ensures i < |ms| ==> ms[i].Some?
    ensures forall q :: from <= q < i ==> ms[q].None?
    decreases |ms| - from
  {
    if from == |ms| || ms[from].Some? then from else FirstIndex(ms, from + 1)
  }

  /** `re.search(pat, s[from:])`: the match at the leftmost position at or after `from`
      where `pat` matches. */
  function Search(pat: Pattern, s: string, from: nat): (r: Option<Hit>)
    requires from <= |s|
    ensures r.Some? ==> from <= r.value.start < r.value.end <= |s| && Shaped(pat, r.value)
  {
    var i := FirstIndex(Matches(pat, s), from);
    if i <= |s| then MatchAt(pat, s, i) else None
  }

  /** `Search` finds a match exactly where there is one. */
  lemma SearchIsLeftmost(pat: Pattern, s: string, from: nat, h: Hit)
    requires from <= |s| && Search(pat, s, from) == Some(h)
    ensures MatchAt(pat, s, h.start) == Some(h)
  {
    var i := FirstIndex(Matches(pat, s), from);
    assert MatchAt(pat, s, i) == Some(h);
  }

  /** No match starts between `from` and the match `h` that `Search` finds. */
  lemma SearchNoEarlier(pat: Pattern, s: string, from: nat, h: Hit, q: nat)
    requires from <= |s| && Search(pat, s, from) == Some(h) && from <= q < h.start
    ensures MatchAt(pat, s, q).None?
  {
    var ms := Matches(pat, s);
    var i := FirstIndex(ms, from);
    assert MatchAt(pat, s, i) == Some(h);
    assert ms[q] == MatchAt(pat, s, q) && ms[q].None?;
  }

  /** Where `Search` finds nothing, no match starts at or after `from`. */
  lemma SearchNoneNoMatch(pat: Pattern, s: string, from: nat, q: nat)
    requires from <= q <= |s| && Search(pat, s, from).None?
    ensures MatchAt(pat, s, q).None?
  {
    var ms := Matches(pat, s);
    assert ms[q] == MatchAt(pat, s, q) && ms[q].None?;
  }

  /** `re.finditer(pat, s)` from position `from`: the leftmost match, then the matches
      after the position where it ended. */
  function FindAll(pat: Pattern, s: string, from: nat): (hits: seq<Hit>)
    requires from <= |s|
    ensures forall h <- hits :: from <= h.start < h.end <= |s| && Shaped(pat, h)
    ensures forall i :: 0 < i < |hits| ==> hits[i - 1].end <= hits[i].start
    ensures hits == [] <==> Search(pat, s, from).None?
    decreases |s| - from
  {
    match Search(pat, s, from)
    case Some(h) => [h] + FindAll(pat, s, h.end)
    case None => []
  }

  /** Every match `FindAll` reports is the match at its own start. */
  lemma {:induction false} FindAllHit(pat: Pattern, s: string, from: nat, i: nat)
    requires from <= |s| && i < |FindAll(pat, s, from)|
    ensures MatchAt(pat, s, FindAll(pat, s, from)[i].start) == Some(FindAll(pat, s, from)[i])
    decreases |s| - from
  {
    var h := Search(pat, s, from).value;
    assert FindAll(pat, s, from) == [h] + FindAll(pat, s, h.end);
    if i == 0 {
      SearchIsLeftmost(pat, s, from, h);
    } else {
      FindAllHit(pat, s, h.end, i - 1);
    }
  }

  /** A pattern that ends at `end` occurs in `s[p..end]`. */
  lemma OccursAtEnd(s: string, pat: string, p: nat, end: nat)
    requires p + |pat| <= end <= |s| && OccursAt(s, pat, end - |pat|)
    ensures Contains(s[p..end], pat)
  {
    assert s[p..end][end - |pat| - p..end - p] == s[end - |pat|..end];
    assert OccursAt(s[p..end], pat, end - |pat| - p);
    ContainsIff(s[p..end], pat);
  }

  /** A stretch without '0' does not contain "10", and "10" does not end at its end. */
  lemma NoZeroNoTen(s: string, p: nat, e: nat)
    requires p <= e <= |s|
    requires forall k :: p <= k < e ==> s[k] != '0'
    ensures !Contains(s[p..e], "10")
    ensures !(p + 2 <= e && OccursAt(s, "10", e - 2))
  {
    assert '0' !in s[p..e] by {
      forall k | 0 <= k < |s[p..e]| ensures s[p..e][k] != '0' {
        assert s[p..e][k] == s[p + k];
      }
    }
    NotContainsChar(s[p..e], "10", '0');
    if p + 2 <= e {
      assert s[e - 2..e][1] == s[e - 1] != '0';
    }
  }

  /** A stretch `s[p..end]` whose only '0' can be that of a final "10" contains "10"
      exactly when it ends with one. */
  lemma TenIffEndsWithTen(s: string, p: nat, e: nat, end: nat)
    requires p <= e <= end <= |s|
    requires forall k :: p <= k < e ==> s[k] != '0'
    requires end == e || (e + 2 <= end && OccursAt(s, "10", end - 2))
    ensures Contains(s[p..end], "10") <==> p + 2 <= end && OccursAt(s, "10", end - 2)
  {
    if end == e {
      NoZeroNoTen(s, p, e);
    } else {
      OccursAtEnd(s, "10", p, end);
    }
  }

  /** A zone-header match ends where its ninth column ends, or two characters later
      with a "10"; up to the ninth column there is no '0'. */
  lemma ZoneHeaderShape(s: string, p: nat, h: Hit)
    requires p <= |s| && MatchZoneHeader(s, p) == Some(h)
    ensures HeaderEnd(s, p).Some?
    ensures var e := HeaderEnd(s, p).value;
            && p <= e <= h.end <= |s|
            && (forall k :: p <= k < e ==> s[k] != '0')
            && (h.end == e || (e + 2 <= h.end && OccursAt(s, "10", h.end - 2)))
  {
    var e := HeaderEnd(s, p);
    assert e.Some?;
    TenthColumnEnd(s, e.value, h.end);
  }

  /** The optional tenth column ends the header two characters after the ninth, or the
      header ends with the ninth. */
  lemma TenthColumnEnd(s: string, e: nat, end: nat)
    requires e <= |s|
    requires end == match TenthColumn(s, e) case Some(t) => t case None => e
    ensures e <= end <= |s|
    ensures end == e || (e + 2 <= end && OccursAt(s, "10", end - 2))
  {
  }

  /** The first zone header found from `from` ends where its ninth column ends, or two
      characters later with a "10"; `e` is where the ninth column ends. */
  lemma ZoneSearchShape(s: string, from: nat, h: Hit) returns (e: nat)
    requires from <= |s| && Search(ZoneHeader, s, from) == Some(h)
    ensures h.start <= e <= h.end <= |s|
    ensures forall k :: h.start <= k < e ==> s[k] != '0'
    ensures h.end == e || (e + 2 <= h.end && OccursAt(s, "10", h.end - 2))
  {
    SearchIsLeftmost(ZoneHeader, s, from, h);
    ZoneHeaderShape(s, h.start, h);
    e := HeaderEnd(s, h.start).value;
  }
}
