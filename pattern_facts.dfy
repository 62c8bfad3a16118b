/** What the matches of the extractor's patterns are made of: `re.finditer` reports every
    match in turn, and every capture is a piece of the matched text. */
module PatternFacts {
  import opened Text
  import opened Patterns

  // ---------------------------------------------------------------------------------
  // re.finditer

  /** `re.finditer` skips nothing: its first match is the one `re.search` finds, each
      later match is the one `re.search` finds from the end of the previous match, and
      after the last match `re.search` finds nothing. First, `FindAll` starts with the
      match found from `from`. */
  lemma FindAllFirst(pat: Pattern, s: string, from: nat)
    requires from <= |s| && FindAll(pat, s, from) != []
    ensures Search(pat, s, from) == Some(FindAll(pat, s, from)[0])
  {
  }

  /** Each match after the first is the first match found from the end of the one
      before it: `FindAll` skips no match. */
  lemma {:induction false} FindAllNext(pat: Pattern, s: string, from: nat, i: nat)
    requires from <= |s| && i + 1 < |FindAll(pat, s, from)|
    ensures var hits := FindAll(pat, s, from);
            hits[i].end <= |s| && Search(pat, s, hits[i].end) == Some(hits[i + 1])
    decreases |s| - from
  {
    var h := Search(pat, s, from).value;
    var rest := FindAll(pat, s, h.end);
    assert FindAll(pat, s, from) == [h] + rest;
    if i == 0 {
      FindAllFirst(pat, s, h.end);
    } else {
      FindAllNext(pat, s, h.end, i - 1);
    }
  }

  /** After the last match there is no other: `FindAll` stops only when the search
      from the end of the last match fails. */
  lemma {:induction false} FindAllLast(pat: Pattern, s: string, from: nat)
    requires from <= |s| && FindAll(pat, s, from) != []
    ensures var hits := FindAll(pat, s, from);
            hits[|hits| - 1].end <= |s| && Search(pat, s, hits[|hits| - 1].end).None?
    decreases |s| - from
  {
    var h := Search(pat, s, from).value;
    var rest := FindAll(pat, s, h.end);
    assert FindAll(pat, s, from) == [h] + rest;
    if rest != [] {
      FindAllLast(pat, s, h.end);
    }
  }

  // ---------------------------------------------------------------------------------
  // Captures are pieces of the text

  /** The captures `cs` occur in `s` at the offsets `offs`, from left to right without
      overlapping, all inside `s[lo..hi]`. */
  predicate CapturedAt(s: string, cs: seq<string>, offs: seq<nat>, lo: nat, hi: nat)
  {
    && |offs| == |cs| && lo <= hi <= |s|
    && (forall i :: 0 <= i < |cs| ==>
          lo <= offs[i] && offs[i] + |cs[i]| <= hi && s[offs[i]..offs[i] + |cs[i]|] == cs[i])
    && (forall i :: 0 < i < |cs| ==> offs[i - 1] + |cs[i - 1]| <= offs[i])
  }

  lemma CapturedAppend(s: string, cs1: seq<string>, o1: seq<nat>, cs2: seq<string>, o2: seq<nat>,
                       lo: nat, mid: nat, hi: nat)
    requires CapturedAt(s, cs1, o1, lo, mid) && CapturedAt(s, cs2, o2, mid, hi)
    ensures CapturedAt(s, cs1 + cs2, o1 + o2, lo, hi)
  {
    var cs, os := cs1 + cs2, o1 + o2;
    forall i | 0 <= i < |cs|
      ensures lo <= os[i] && os[i] + |cs[i]| <= hi && s[os[i]..os[i] + |cs[i]|] == cs[i]
    {
      if i < |cs1| {
        assert cs[i] == cs1[i] && os[i] == o1[i];
      } else {
        assert cs[i] == cs2[i - |cs1|] && os[i] == o2[i - |cs1|];
      }
    }
    forall i | 0 < i < |cs| ensures os[i - 1] + |cs[i - 1]| <= os[i] {
      if i < |cs1| {
        assert cs[i - 1] == cs1[i - 1] && os[i - 1] == o1[i - 1] && os[i] == o1[i];
      } else if i == |cs1| {
        assert cs[i - 1] == cs1[i - 1] && os[i - 1] == o1[i - 1];
        assert cs[i] == cs2[0] && os[i] == o2[0];
      } else {
        assert cs[i - 1] == cs2[i - 1 - |cs1|] && os[i - 1] == o2[i - 1 - |cs1|];
        assert os[i] == o2[i - |cs1|];
      }
    }
  }

  lemma CapturedWiden(s: string, cs: seq<string>, offs: seq<nat>, lo: nat, hi: nat, lo': nat, hi': nat)
    requires CapturedAt(s, cs, offs, lo, hi) && lo' <= lo && hi <= hi' <= |s|
    ensures CapturedAt(s, cs, offs, lo', hi')
  {
  }

  /** The `n` price tokens `PriceList` captures are pieces of the text after `p`. */
  lemma {:induction false} PriceListCaptures(s: string, p: nat, n: nat) returns (offs: seq<nat>)
    requires p <= |s| && PriceList(s, p, n).Some?
    ensures CapturedAt(s, PriceList(s, p, n).value.0, offs, p, PriceList(s, p, n).value.1)
    decreases n
  {
    if n == 0 {
      offs := [];
    } else {
      var q, e := PriceListSplit(s, p, n);
      var rest := PriceList(s, e, n - 1).value;
      var restOffs := PriceListCaptures(s, e, n - 1);
      OneCapture(s, q, e, p, e);
      CapturedAppend(s, [s[q..e]], [q], rest.0, restOffs, p, e, rest.1);
      offs := [q] + restOffs;
    }
  }

  /** The first price of a non-empty price list: spaces from `p` to `q`, the price from
      `q` to `e`, and the rest of the list after `e`. */
  lemma PriceListSplit(s: string, p: nat, n: nat) returns (q: nat, e: nat)
    requires p <= |s| && 0 < n && PriceList(s, p, n).Some?
    ensures p <= q <= e <= |s| && PriceList(s, e, n - 1).Some?
    ensures PriceList(s, p, n).value
            == ([s[q..e]] + PriceList(s, e, n - 1).value.0, PriceList(s, e, n - 1).value.1)
  {
    q := Run1(s, p, Space).value;
    e := Run1(s, q, PriceChar).value;
  }

  /** A capture taken as `s[a..b]` inside `s[lo..hi]`. */
  lemma OneCapture(s: string, a: nat, b: nat, lo: nat, hi: nat)
    requires lo <= a <= b <= hi <= |s|
    ensures CapturedAt(s, [s[a..b]], [a], lo, hi)
  {
  }

  lemma EnvelopeCaptures(s: string, p: nat, n: nat) returns (offs: seq<nat>)
    requires p <= |s| && MatchEnvelopeRow(s, p, n).Some?
    ensures var h := MatchEnvelopeRow(s, p, n).value;
            CapturedAt(s, h.groups + h.prices, offs, h.start, h.end)
  {
    var e := p + |"Envelope"|;
    var e' := if OccursAt(s, "s", e) then e + 1 else e;
    var ps := PriceList(s, e', n).value;
    assert MatchEnvelopeRow(s, p, n).value == Hit(p, ps.1, [], ps.0);
    offs := PriceListCaptures(s, e', n);
    CapturedWiden(s, ps.0, offs, e', ps.1, p, ps.1);
    assert [] + ps.0 == ps.0;
  }

  lemma WeightRowCaptures(s: string, p: nat, n: nat) returns (offs: seq<nat>)
    requires p <= |s| && MatchWeightRow(s, p, n).Some?
    ensures var h := MatchWeightRow(s, p, n).value;
            CapturedAt(s, h.groups + h.prices, offs, h.start, h.end)
  {
    var w := Run1(s, p, DecimalChar).value;
    var k := Lit(s, Spaces0(s, w), "kg").value;
    var ps := PriceList(s, k, n).value;
    assert MatchWeightRow(s, p, n).value == Hit(p, ps.1, [s[p..w]], ps.0);
    var priceOffs := PriceListCaptures(s, k, n);
    OneCapture(s, p, w, p, k);
    CapturedAppend(s, [s[p..w]], [p], ps.0, priceOffs, p, k, ps.1);
    offs := [p] + priceOffs;
  }

  /** The two bounds of a range label are pieces of the label. */
  /** The positions `MatchRangeHead` passes through: the end of the first bound, the
      start and end of the second and the end of `kg`. */
  lemma RangeHeadSplit(s: string, p: nat) returns (a: nat, b0: nat, b: nat, k: nat)
    requires p <= |s| && MatchRangeHead(s, p).Some?
    ensures p <= a <= b0 <= b <= k <= |s|
    ensures MatchRangeHead(s, p).value == (s[p..a], s[b0..b], k)
  {
    a := Run1(s, p, Digit).value;
    var d := Lit(s, Spaces0(s, a), "-").value;
    b0 := Spaces0(s, d);
    b := Run1(s, b0, Digit).value;
    k := Lit(s, Spaces0(s, b), "kg").value;
  }

  lemma RangeHeadCaptures(s: string, p: nat) returns (offs: seq<nat>)
    requires p <= |s| && MatchRangeHead(s, p).Some?
    ensures var head := MatchRangeHead(s, p).value;
            CapturedAt(s, [head.0, head.1], offs, p, head.2)
  {
    var a, b0, b, k := RangeHeadSplit(s, p);
    TwoCaptures(s, p, a, b0, b, k);
    offs := [p, b0];
  }

  /** Two captures `s[p..a]` and `s[b0..b]` inside `s[p..k]`. */
  lemma TwoCaptures(s: string, p: nat, a: nat, b0: nat, b: nat, k: nat)
    requires p <= a <= b0 <= b <= k <= |s|
    ensures CapturedAt(s, [s[p..a], s[b0..b]], [p, b0], p, k)
  {
    OneCapture(s, p, a, p, b0);
    OneCapture(s, b0, b, b0, k);
    CapturedAppend(s, [s[p..a]], [p], [s[b0..b]], [b0], p, b0, k);
    assert [s[p..a]] + [s[b0..b]] == [s[p..a], s[b0..b]];
    assert [p] + [b0] == [p, b0];
  }

  lemma RangeRowCaptures(s: string, p: nat, n: nat) returns (offs: seq<nat>)
    requires p <= |s| && MatchRangeRow(s, p, n).Some?
    ensures var h := MatchRangeRow(s, p, n).value;
            CapturedAt(s, h.groups + h.prices, offs, h.start, h.end)
  {
    var head := MatchRangeHead(s, p).value;
    var ps := PriceList(s, head.2, n).value;
    assert MatchRangeRow(s, p, n).value == Hit(p, ps.1, [head.0, head.1], ps.0);
    var headOffs := RangeHeadCaptures(s, p);
    var priceOffs := PriceListCaptures(s, head.2, n);
    CapturedAppend(s, [head.0, head.1], headOffs, ps.0, priceOffs, p, head.2, ps.1);
    offs := headOffs + priceOffs;
  }

  lemma RangeLabelCaptures(s: string, p: nat) returns (offs: seq<nat>)
    requires p <= |s| && MatchRangeLabel(s, p).Some?
    ensures var h := MatchRangeLabel(s, p).value;
            CapturedAt(s, h.groups + h.prices, offs, h.start, h.end)
  {
    var head := MatchRangeHead(s, p).value;
    assert MatchRangeLabel(s, p).value == Hit(p, head.2, [head.0, head.1], []);
    offs := RangeHeadCaptures(s, p);
    assert [head.0, head.1] + [] == [head.0, head.1];
  }

  lemma AboveLabelCaptures(s: string, p: nat) returns (offs: seq<nat>)
    requires p <= |s| && MatchAboveLabel(s, p).Some?
    ensures var h := MatchAboveLabel(s, p).value;
            CapturedAt(s, h.groups + h.prices, offs, h.start, h.end)
  {
    var a := Lit(s, p, "Above").value;
    var n0 := Run1(s, a, Space).value;
    var n := Run1(s, n0, Digit).value;
    var k := Lit(s, Spaces0(s, n), "kg").value;
    assert MatchAboveLabel(s, p).value == Hit(p, k, [s[n0..n]], []);
    OneCapture(s, n0, n, p, k);
    assert [s[n0..n]] + [] == [s[n0..n]];
    offs := [n0];
  }

  lemma MinRateCaptures(s: string, p: nat) returns (offs: seq<nat>)
    requires p <= |s| && MatchMinRateRow(s, p).Some?
    ensures var h := MatchMinRateRow(s, p).value;
            CapturedAt(s, h.groups + h.prices, offs, h.start, h.end)
  {
    var m := Lit(s, p, "Min").value;
    var r0 := Run1(s, m, Space).value;
    var r := Lit(s, r0, "rate").value;
    var ps := PriceList(s, r, 9).value;
    assert MatchMinRateRow(s, p).value == Hit(p, ps.1, [], ps.0);
    offs := PriceListCaptures(s, r, 9);
    CapturedWiden(s, ps.0, offs, r, ps.1, p, ps.1);
    assert [] + ps.0 == ps.0;
  }

  lemma PricePerKgCaptures(s: string, p: nat) returns (offs: seq<nat>)
    requires p <= |s| && MatchPricePerKgRow(s, p).Some?
    ensures var h := MatchPricePerKgRow(s, p).value;
            CapturedAt(s, h.groups + h.prices, offs, h.start, h.end)
  {
    var a := Lit(s, p, "Price").value;
    var b0 := Run1(s, a, Space).value;
    var b := Lit(s, b0, "per").value;
    var c0 := Run1(s, b, Space).value;
    var c := Lit(s, c0, "kg").value;
    var ps := PriceList(s, c, 9).value;
    assert MatchPricePerKgRow(s, p).value == Hit(p, ps.1, [], ps.0);
    offs := PriceListCaptures(s, c, 9);
    CapturedWiden(s, ps.0, offs, c, ps.1, p, ps.1);
    assert [] + ps.0 == ps.0;
  }

  lemma OrMoreCaptures(s: string, p: nat) returns (offs: seq<nat>)
    requires p <= |s| && MatchOrMoreLabel(s, p).Some?
    ensures var h := MatchOrMoreLabel(s, p).value;
            CapturedAt(s, h.groups + h.prices, offs, h.start, h.end)
  {
    var n := Run1(s, p, Digit).value;
    var k := Lit(s, Spaces0(s, n), "kg").value;
    var o0 := Run1(s, k, Space).value;
    var o := Lit(s, o0, "or").value;
    var m0 := Run1(s, o, Space).value;
    var m := Lit(s, m0, "more").value;
    assert MatchOrMoreLabel(s, p).value == Hit(p, m, [s[p..n]], []);
    OneCapture(s, p, n, p, m);
    assert [s[p..n]] + [] == [s[p..n]];
    offs := [p];
  }

  lemma PriceTokenCaptures(s: string, p: nat) returns (offs: seq<nat>)
    requires p <= |s| && MatchPriceToken(s, p).Some?
    ensures var h := MatchPriceToken(s, p).value;
            CapturedAt(s, h.groups + h.prices, offs, h.start, h.end)
  {
    var e := Run1(s, p, PriceChar).value;
    assert MatchPriceToken(s, p).value == Hit(p, e, [s[p..e]], []);
    OneCapture(s, p, e, p, e);
    assert [s[p..e]] + [] == [s[p..e]];
    offs := [p];
  }

  /** Every capture of a match, label groups first and then prices, is a piece of the
      matched text `s[h.start..h.end]`, and the pieces come from left to right. */
  lemma MatchCaptures(pat: Pattern, s: string, p: nat) returns (offs: seq<nat>)
    requires p <= |s| && MatchAt(pat, s, p).Some?
    ensures var h := MatchAt(pat, s, p).value;
            CapturedAt(s, h.groups + h.prices, offs, h.start, h.end)
  {
    match pat
    case ZoneHeader =>
      offs := [];
    case EnvelopeRow(n) =>
      offs := EnvelopeCaptures(s, p, n);
    case WeightRow(n) =>
      offs := WeightRowCaptures(s, p, n);
    case RangeRow(n) =>
      offs := RangeRowCaptures(s, p, n);
    case RangeLabel =>
      offs := RangeLabelCaptures(s, p);
    case AboveLabel =>
      offs := AboveLabelCaptures(s, p);
    case MinRateRow =>
      offs := MinRateCaptures(s, p);
    case PricePerKgRow =>
      offs := PricePerKgCaptures(s, p);
    case OrMoreLabel =>
      offs := OrMoreCaptures(s, p);
    case PriceToken =>
      offs := PriceTokenCaptures(s, p);
  }

  // ---------------------------------------------------------------------------------
  // Reading a price list

  /** Price tokens printed one after another, each after a single space. */
  function Spaced(toks: seq<string>): string
  {
    if toks == [] then [] else " " + toks[0] + Spaced(toks[1..])
  }

  /** A greedy run over exactly the `len` characters at `p`: all are in the class and the
      one after them is not. */
  lemma RunExactly(s: string, p: nat, len: nat, cls: CharClass)
    requires 0 < len && p + len <= |s|
    requires forall k :: p <= k < p + len ==> InClass(s[k], cls)
    requires p + len == |s| || !InClass(s[p + len], cls)
    ensures Run1(s, p, cls) == Some(p + len)
  {
  }

  /** One step of reading a price list: a run of spaces up to `q`, a token up to `e`,
      then the rest of the list. */
  lemma PriceListUnfold(s: string, p: nat, q: nat, e: nat, t: string, m: nat, rest: (seq<string>, nat))
    requires p <= q <= e <= |s| && s[q..e] == t
    requires Run1(s, p, Space) == Some(q) && Run1(s, q, PriceChar) == Some(e)
    requires PriceList(s, e, m) == Some(rest)
    ensures PriceList(s, p, m + 1) == Some(([t] + rest.0, rest.1))
  {
  }

  /** One token: a space, then a price token `t` that ends where the text ends or at a
      character that cannot continue it, is one run of spaces and one run of price
      characters. */
  lemma TokenRuns(s: string, p: nat, t: string)
    requires IsPriceToken(t) && p + 1 + |t| <= |s|
    requires s[p] == ' ' && s[p + 1..p + 1 + |t|] == t
    requires p + 1 + |t| == |s| || !IsPriceChar(s[p + 1 + |t|])
    ensures Run1(s, p, Space) == Some(p + 1)
    ensures Run1(s, p + 1, PriceChar) == Some(p + 1 + |t|)
  {
    var q := p + 1;
    assert s[q] == t[0];
    RunExactly(s, p, 1, Space);
    forall k | q <= k < q + |t| ensures IsPriceChar(s[k]) {
      assert s[k] == t[k - q];
    }
    RunExactly(s, q, |t|, PriceChar);
  }

  /** From `p` to `stop` the text is the tokens `toks`, each after a single space. */
  predicate SpacedAt(s: string, p: nat, toks: seq<string>, stop: nat)
    decreases |toks|
  {
    if toks == [] then stop == p
    else
      var e := p + 1 + |toks[0]|;
      && e <= |s| && s[p] == ' ' && s[p + 1..e] == toks[0]
      && SpacedAt(s, e, toks[1..], stop)
  }

  /** Text that reads a space, `t` and `rest` from `p` has each of them in its place. */
  lemma SliceSpaced(s: string, p: nat, t: string, rest: string)
    requires p + 1 + |t| + |rest| <= |s| && s[p..p + 1 + |t| + |rest|] == " " + t + rest
    ensures s[p] == ' ' && s[p + 1..p + 1 + |t|] == t
    ensures s[p + 1 + |t|..p + 1 + |t| + |rest|] == rest
  {
    var all := s[p..p + 1 + |t| + |rest|];
    assert s[p] == all[0];
    forall k | 0 <= k < |t| ensures s[p + 1 + k] == t[k] {
      assert s[p + 1 + k] == all[1 + k];
    }
    forall k | 0 <= k < |rest| ensures s[p + 1 + |t| + k] == rest[k] {
      assert s[p + 1 + |t| + k] == all[1 + |t| + k];
    }
  }

  /** Text reading `Spaced(toks)` from `p` reads a space, the first token, then the rest. */
  lemma SpacedHead(s: string, p: nat, toks: seq<string>)
    requires toks != []
    requires p + |Spaced(toks)| <= |s| && s[p..p + |Spaced(toks)|] == Spaced(toks)
    ensures var e := p + 1 + |toks[0]|;
            e + |Spaced(toks[1..])| == p + |Spaced(toks)| &&
            s[p] == ' ' && s[p + 1..e] == toks[0] &&
            s[e..e + |Spaced(toks[1..])|] == Spaced(toks[1..])
  {
    assert Spaced(toks) == " " + toks[0] + Spaced(toks[1..]);
    SliceSpaced(s, p, toks[0], Spaced(toks[1..]));
  }

  /** Text reading `Spaced(toks)` from `p` holds the tokens one by one up to the end of
      that text. */
  lemma {:induction false} SpacedAtOf(s: string, p: nat, toks: seq<string>)
    requires p + |Spaced(toks)| <= |s| && s[p..p + |Spaced(toks)|] == Spaced(toks)
    ensures SpacedAt(s, p, toks, p + |Spaced(toks)|)
    decreases |toks|
  {
    if toks != [] {
      SpacedHead(s, p, toks);
      SpacedAtOf(s, p + 1 + |toks[0]|, toks[1..]);
    }
  }

  /** Where the text from `p` holds the tokens `toks`, each after one space, and the
      character after them (if any) cannot continue a token, the price list read from `p`
      is exactly `toks`. */
  lemma {:induction false} PriceListTokens(s: string, p: nat, toks: seq<string>, stop: nat)
    requires forall i :: 0 <= i < |toks| ==> IsPriceToken(toks[i])
    requires SpacedAt(s, p, toks, stop)
    requires stop == |s| || (stop < |s| && !IsPriceChar(s[stop]))
    ensures PriceList(s, p, |toks|) == Some((toks, stop))
    decreases |toks|
  {
    if toks != [] {
      var e := SpacedAtStep(s, p, toks, stop);
      PriceListTokens(s, e, toks[1..], stop);
      PriceListFirstToken(s, p, toks, stop, e);
    }
  }

  /** A price list whose first token is read as one space at `p` and then the token up
      to `e`, where the rest of the list starts. */
  lemma PriceListFirstToken(s: string, p: nat, toks: seq<string>, stop: nat, e: nat)
    requires toks != [] && IsPriceToken(toks[0])
    requires e == p + 1 + |toks[0]| <= |s| && s[p] == ' ' && s[p + 1..e] == toks[0]
    requires Run1(s, p, Space) == Some(p + 1) && Run1(s, p + 1, PriceChar) == Some(e)
    requires PriceList(s, e, |toks[1..]|) == Some((toks[1..], stop))
    ensures PriceList(s, p, |toks|) == Some((toks, stop))
  {
    PriceListUnfold(s, p, p + 1, e, toks[0], |toks[1..]|, (toks[1..], stop));
    assert |toks[1..]| + 1 == |toks| && [toks[0]] + toks[1..] == toks;
  }


  /** The first token of tokens spaced from `p`: a space at `p`, the token up to `e`, a
      character after it that cannot continue it, and the other tokens spaced from `e`. */
  lemma SpacedAtStep(s: string, p: nat, toks: seq<string>, stop: nat) returns (e: nat)
    requires toks != [] && forall i :: 0 <= i < |toks| ==> IsPriceToken(toks[i])
    requires SpacedAt(s, p, toks, stop)
    requires stop == |s| || (stop < |s| && !IsPriceChar(s[stop]))
    ensures e == p + 1 + |toks[0]| <= |s|
    ensures s[p] == ' ' && s[p + 1..e] == toks[0]
    ensures e == |s| || !IsPriceChar(s[e])
    ensures Run1(s, p, Space) == Some(p + 1) && Run1(s, p + 1, PriceChar) == Some(e)
    ensures SpacedAt(s, e, toks[1..], stop)
    ensures forall i :: 0 <= i < |toks[1..]| ==> IsPriceToken(toks[1..][i])
  {
    e := p + 1 + |toks[0]|;
    var tail := toks[1..];
    forall i | 0 <= i < |tail| ensures IsPriceToken(tail[i]) {
      assert tail[i] == toks[i + 1];
    }
    if tail != [] {
      assert s[e] == ' ';
    }
    TokenRuns(s, p, toks[0]);
  }


  /** The converse of `PriceListCaptures`: where the text after `p` is the tokens `toks`,
      each after one space, followed by the end of the text or a character that cannot
      continue a token, the price list read from `p` is exactly `toks`. */
  lemma PriceListSpaced(s: string, p: nat, toks: seq<string>)
    requires forall i :: 0 <= i < |toks| ==> IsPriceToken(toks[i])
    requires p + |Spaced(toks)| <= |s| && s[p..p + |Spaced(toks)|] == Spaced(toks)
    requires p + |Spaced(toks)| == |s| || !IsPriceChar(s[p + |Spaced(toks)|])
    ensures PriceList(s, p, |toks|) == Some((toks, p + |Spaced(toks)|))
  {
    SpacedAtOf(s, p, toks);
    PriceListTokens(s, p, toks, p + |Spaced(toks)|);
  }

  /** Where the pattern matches at the very start, `re.search` from the start finds that
      match. */
  lemma SearchAtStart(pat: Pattern, s: string, h: Hit)
    requires MatchAt(pat, s, 0) == Some(h)
    ensures Search(pat, s, 0) == Some(h)
  {
    assert Matches(pat, s)[0].Some?;
  }

  /** A line reading "Envelopes" and then price tokens, each after one space, is matched
      by `Envelopes?` with that many prices from its first character to its end, with
      the tokens as captures. */
  lemma SearchEnvelopeLine(toks: seq<string>)
    requires forall i :: 0 <= i < |toks| ==> IsPriceToken(toks[i])
    ensures var s := "Envelopes" + Spaced(toks);
            Search(EnvelopeRow(|toks|), s, 0) == Some(Hit(0, |s|, [], toks))
  {
    var s := "Envelopes" + Spaced(toks);
    assert |s| == 9 + |Spaced(toks)|;
    assert PriceList(s, 9, |toks|) == Some((toks, |s|)) by {
      assert s[9..9 + |Spaced(toks)|] == Spaced(toks);
      PriceListSpaced(s, 9, toks);
    }
    assert Lit(s, 0, "Envelope") == Some(8) by {
      assert s[0..8] == "Envelope";
    }
    assert OccursAt(s, "s", 8) by {
      assert s[8..9] == "s";
    }
    SearchAtStart(EnvelopeRow(|toks|), s, Hit(0, |s|, [], toks));
  }
}
