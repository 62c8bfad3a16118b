/** `extract_rate_table`: the rate table of a standard (non-freight) service, read from
    the window of text that starts at the service's marker. */
module Standard {
  import opened Text
  import opened Weights
  import opened Rates
  import opened Patterns
  import opened Ordering

  /** Length of the window taken from the marker on. */
  const SectionLength: nat := 20000
  /** Length of the documents window when no "Non-Documents" heading follows. */
  const DocumentsLength: nat := 8000
  /** Length of the non-documents window. */
  const NonDocumentsLength: nat := 12000
  /** Heaviest single weight kept among the non-document rows. */
  const SingleWeightCeiling: real := 20.0

  /** The results of the steps of a loop over matches, each step adding zero or more rows
      or raising; the rows of all steps in order, or `ValueError` if any step raises. */
  function Gather(steps: seq<Result<seq<Row>>>): (r: Result<seq<Row>>)
    ensures r.Ok? <==> forall i :: 0 <= i < |steps| ==> steps[i].Ok?
  {
    if steps == [] then Ok([])
    else
      var init := steps[..|steps| - 1];
      assert forall i :: 0 <= i < |init| ==> init[i] == steps[i];
      match Gather(init)
      case ValueError => ValueError
      case Ok(rows) =>
        match steps[|steps| - 1]
        case ValueError => ValueError
        case Ok(more) => Ok(rows + more)
  }

  /** The rows gathered are exactly the rows the steps add. */
  lemma {:induction false} GatherMembers(steps: seq<Result<seq<Row>>>, x: Row)
    requires Gather(steps).Ok?
    ensures x in Gather(steps).value <==> exists i :: 0 <= i < |steps| && x in steps[i].value
  {
    if steps != [] {
      var init := steps[..|steps| - 1];
      GatherMembers(init, x);
      assert forall i :: 0 <= i < |init| ==> init[i] == steps[i];
    }
  }

  /** When every step adds exactly one row, the result is those rows, in step order. */
  lemma {:induction false} GatherSingletons(steps: seq<Result<seq<Row>>>)
    requires forall i :: 0 <= i < |steps| ==> steps[i].Ok? && |steps[i].value| == 1
    ensures Gather(steps).Ok? && |Gather(steps).value| == |steps|
    ensures forall i :: 0 <= i < |steps| ==> Gather(steps).value[i] == steps[i].value[0]
  {
    if steps != [] {
      var init := steps[..|steps| - 1];
      GatherSingletons(init);
    }
  }

  /** The indices, below `n`, of the steps that add a row, in increasing order. */
  function Adding(steps: seq<Result<seq<Row>>>, n: nat): (ks: seq<nat>)
    requires n <= |steps| && forall i :: 0 <= i < |steps| ==> steps[i].Ok?
    ensures forall a :: 0 <= a < |ks| ==> ks[a] < n && steps[ks[a]].value != []
    ensures forall a, b :: 0 <= a < b < |ks| ==> ks[a] < ks[b]
  {
    if n == 0 then []
    else Adding(steps, n - 1) + (if steps[n - 1].value != [] then [n - 1] else [])
  }

  /** A step is among those that add a row exactly when it does add one. */
  lemma {:induction false} AddingMembers(steps: seq<Result<seq<Row>>>, n: nat, i: nat)
    requires n <= |steps| && forall i :: 0 <= i < |steps| ==> steps[i].Ok?
    ensures i in Adding(steps, n) <==> i < n && steps[i].value != []
  {
    if n > 0 {
      AddingMembers(steps, n - 1, i);
    }
  }

  /** When every step adds at most one row, the rows of the first `n` steps are the rows
      of the steps that add one, in step order. */
  lemma {:induction false} GatherAtMostOne(steps: seq<Result<seq<Row>>>, n: nat)
    requires n <= |steps|
    requires forall i :: 0 <= i < |steps| ==> steps[i].Ok? && |steps[i].value| <= 1
    ensures Gather(steps[..n]).Ok?
    ensures var rows := Gather(steps[..n]).value;
            var ks := Adding(steps, n);
            && |rows| == |ks|
            && forall a :: 0 <= a < |ks| ==> steps[ks[a]].value == [rows[a]]
  {
    if n > 0 {
      GatherAtMostOne(steps, n - 1);
      assert steps[..n][..n - 1] == steps[..n - 1];
    }
  }

  // ---------------------------------------------------------------------------------
  // Zone count and envelope row

  /** `num_zones`: 10 when the first zone header found contains "10", 9 otherwise
      (also when there is no header at all). */
  function ZoneCount(section: string): (n: nat)
    ensures n == 9 || n == 10
  {
    HeaderZones(section, Search(ZoneHeader, section, 0))
  }

  /** The zone count given the header match `m`. */
  function HeaderZones(section: string, m: Option<Hit>): nat
    requires m.Some? ==> m.value.start <= m.value.end <= |section|
  {
    match m
    case Some(h) => if Contains(section[h.start..h.end], "10") then 10 else 9
    case None => 9
  }

  /** The envelope row: the first `Envelope(s)` label followed by `n` prices, if any. */
  function EnvelopeRows(section: string, n: nat): (r: Result<seq<Row>>)
    ensures r.Ok? ==> |r.value| <= 1
    ensures r.Ok? && r.value != [] ==>
              && Search(EnvelopeRow(n), section, 0).Some?
              && var h := Search(EnvelopeRow(n), section, 0).value;
                 r.value[0].weight == Envelope && r.value[0].pricing == Fixed &&
                 PriceValues(h.prices) == Ok(r.value[0].zones)
    ensures Search(EnvelopeRow(n), section, 0).None? ==> r == Ok([])
  {
    match Search(EnvelopeRow(n), section, 0)
    case None => Ok([])
    case Some(h) =>
      var zones :- PriceValues(h.prices);
      Ok([Row(Envelope, Fixed, zones)])
  }

  // ---------------------------------------------------------------------------------
  // Documents

  /** One document row per weight-row match, with the label as printed. */
  function DocumentStep(h: Hit, n: nat): Result<seq<Row>>
    requires Shaped(WeightRow(n), h)
  {
    var zones :- PriceValues(h.prices);
    Ok([Row(Weight(h.groups[0]), Fixed, zones)])
  }

  function DocumentSteps(hits: seq<Hit>, n: nat): seq<Result<seq<Row>>>
    requires forall h <- hits :: Shaped(WeightRow(n), h)
  {
    seq(|hits|, i requires 0 <= i < |hits| => DocumentStep(hits[i], n))
  }

  /** The `for match in re.finditer(weight_pattern, doc_text)` loop. */
  function DocumentRows(docText: string, n: nat): Result<seq<Row>>
  {
    Gather(DocumentSteps(FindAll(WeightRow(n), docText, 0), n))
  }

  // ---------------------------------------------------------------------------------
  // Non-documents

  function RangeStep(h: Hit, n: nat): Result<seq<Row>>
    requires Shaped(RangeRow(n), h)
  {
    var zones :- PriceValues(h.prices);
    Ok([Row(Range(h.groups[0], h.groups[1]), PerKg, zones)])
  }

  function RangeSteps(hits: seq<Hit>, n: nat): seq<Result<seq<Row>>>
    requires forall h <- hits :: Shaped(RangeRow(n), h)
  {
    seq(|hits|, i requires 0 <= i < |hits| => RangeStep(hits[i], n))
  }

  /** The `weight_ranges` loop: one per-kg row per range-row match. */
  function RangeRows(ndText: string, n: nat): Result<seq<Row>>
  {
    Gather(RangeSteps(FindAll(RangeRow(n), ndText, 0), n))
  }

  /** `range_endpoints`: the upper bounds of the ranges. */
  function Endpoints(ranges: seq<Row>): set<nat>
  {
    set r <- ranges | r.weight.Range? :: NatOf(r.weight.hi)
  }

  /** One iteration of the single-weight loop: `float(weight)` raises on a malformed
      label; a weight whose integer part is a range endpoint is skipped before its prices
      are read; the prices are converted; the row is kept only up to 20 kg. */
  function SingleStep(h: Hit, n: nat, endpoints: set<nat>): Result<seq<Row>>
    requires Shaped(WeightRow(n), h)
  {
    var w := h.groups[0];
    if !IsDecimal(w) then ValueError
    else if Value(w).Floor in endpoints then Ok([])
    else
      var zones :- PriceValues(h.prices);
      if Value(w) <= SingleWeightCeiling then Ok([Row(Weight(w), Fixed, zones)]) else Ok([])
  }

  function SingleSteps(hits: seq<Hit>, n: nat, endpoints: set<nat>): seq<Result<seq<Row>>>
    requires forall h <- hits :: Shaped(WeightRow(n), h)
  {
    seq(|hits|, i requires 0 <= i < |hits| => SingleStep(hits[i], n, endpoints))
  }

  function SingleRows(ndText: string, n: nat, endpoints: set<nat>): Result<seq<Row>>
  {
    Gather(SingleSteps(FindAll(WeightRow(n), ndText, 0), n, endpoints))
  }

  /** The line of the "Above" label: from the first occurrence of the matched text
      `ndText[start..end]` to the next newline, or to the end of the text. */
  function AboveLine(ndText: string, start: nat, end: nat): string
    requires start <= end <= |ndText|
  {
    var matched := ndText[start..end];
    var lineStart := Find(ndText, matched, 0);
    assert lineStart >= 0 by { assert OccursAt(ndText, matched, start); }
    var newline := Find(ndText, "\n", lineStart);
    var lineEnd := if newline == -1 then |ndText| else newline;
    ndText[lineStart..lineEnd]
  }

  /** The "Above" row of a line with `[\d,]+` tokens `tokens`: the last `n` of them when
      there are at least `n` (the threshold itself counts as a token). */
  function AboveRow(threshold: string, tokens: seq<string>, n: nat): (r: Result<seq<Row>>)
    requires forall i :: 0 <= i < |tokens| ==> IsPriceToken(tokens[i])
    ensures r.Ok? ==> |r.value| <= 1
    ensures r.Ok? ==> forall row <- r.value :: row.weight == Above(threshold) && row.pricing == PerKg && |row.zones| == n
  {
    if |tokens| >= n then
      var last := tokens[|tokens| - n..];
      assert forall i :: 0 <= i < |last| ==> IsPriceToken(last[i]) by {
        forall i | 0 <= i < |last| ensures IsPriceToken(last[i]) {
          assert last[i] == tokens[|tokens| - n + i];
        }
      }
      var zones :- PriceValues(last);
      Ok([Row(Above(threshold), PerKg, zones)])
    else Ok([])
  }

  /** The "Above N kg" row: the first such label, priced from its line. */
  function AboveRows(ndText: string, n: nat): (r: Result<seq<Row>>)
    ensures r.Ok? ==> |r.value| <= 1
    ensures r.Ok? ==> forall row <- r.value :: row.weight.Above? && row.pricing == PerKg && |row.zones| == n
  {
    match Search(AboveLabel, ndText, 0)
    case None => Ok([])
    case Some(h) => AboveRow(h.groups[0], LineTokens(AboveLine(ndText, h.start, h.end)), n)
  }

  /** `re.findall(r'([\d,]+)', line)` */
  function LineTokens(line: string): (toks: seq<string>)
    ensures forall i :: 0 <= i < |toks| ==> IsPriceToken(toks[i])
  {
    var hits := FindAll(PriceToken, line, 0);
    seq(|hits|, i requires 0 <= i < |hits| => hits[i].groups[0])
  }

  /** `result["non_documents"]` before sorting: the kept single weights, then the ranges,
      then the "Above" row. */
  function NonDocumentRows(ndText: string, n: nat): Result<seq<Row>>
  {
    var ranges :- RangeRows(ndText, n);
    var singles :- SingleRows(ndText, n, Endpoints(ranges));
    var above :- AboveRows(ndText, n);
    Ok(singles + ranges + above)
  }

  // ---------------------------------------------------------------------------------
  // The whole table

  /** `section.find('Documents')`; this also finds the word inside "Non-Documents". */
  function DocumentsStart(section: string): int
  {
    Find(section, "Documents", 0)
  }

  /** `section.find('Non-Documents')` */
  function NonDocumentsStart(section: string): int
  {
    Find(section, "Non-Documents", 0)
  }

  /** `doc_text`: from the first "Documents" up to the first "Non-Documents" (empty when
      that comes first), or 8000 characters when there is no "Non-Documents". */
  function DocumentsText(section: string): string
    requires DocumentsStart(section) >= 0
  {
    var d := DocumentsStart(section);
    var nd := NonDocumentsStart(section);
    Slice(section, d, if nd < 0 then d + DocumentsLength else nd)
  }

  /** `non_doc_text`: 12000 characters from the first "Non-Documents". */
  function NonDocumentsText(section: string): string
    requires NonDocumentsStart(section) >= 0
  {
    var nd := NonDocumentsStart(section);
    Slice(section, nd, nd + NonDocumentsLength)
  }

  /** `result["envelopes"]`: empty for a service without envelopes. */
  function SectionEnvelopes(section: string, n: nat, hasEnvelope: bool): Result<seq<Row>>
  {
    if hasEnvelope then EnvelopeRows(section, n) else Ok([])
  }

  /** `result["documents"]`: empty when the window has no "Documents". */
  function SectionDocuments(section: string, n: nat): Result<seq<Row>>
  {
    if DocumentsStart(section) < 0 then Ok([]) else DocumentRows(DocumentsText(section), n)
  }

  /** `result["non_documents"]` before sorting: empty when the window has no "Non-Documents". */
  function SectionNonDocuments(section: string, n: nat): Result<seq<Row>>
  {
    if NonDocumentsStart(section) < 0 then Ok([]) else NonDocumentRows(NonDocumentsText(section), n)
  }

  /** The table read from a window that starts at the marker. */
  function TableOf(section: string, hasEnvelope: bool): Result<ServiceTable>
  {
    var n := ZoneCount(section);
    var envelopes :- SectionEnvelopes(section, n, hasEnvelope);
    var documents :- SectionDocuments(section, n);
    var collected :- SectionNonDocuments(section, n);
    Ok(ServiceTable(envelopes, documents, Dedup(InsertionSort(collected, Key))))
  }

  /** `extract_rate_table(text, _, start_marker, has_envelope)` */
  function RateTable(text: string, marker: string, hasEnvelope: bool): Result<ServiceTable>
  {
    var start := Find(text, marker, 0);
    if start < 0 then Ok(EmptyTable)
    else TableOf(Slice(text, start, start + SectionLength), hasEnvelope)
  }

  // ---------------------------------------------------------------------------------
  // The loops

  /** Appends one document row per weight-row match of `docText`. */
  method CollectDocuments(hits: seq<Hit>, n: nat) returns (r: Result<seq<Row>>)
    requires forall h <- hits :: Shaped(WeightRow(n), h)
    ensures r == Gather(DocumentSteps(hits, n))
  {
    ghost var steps := DocumentSteps(hits, n);
    var documents: seq<Row> := [];
    for i := 0 to |hits|
      invariant Gather(steps[..i]) == Ok(documents)
    {
      var h := hits[i];
      assert Shaped(WeightRow(n), h);
      var prices := PriceValues(h.prices);
      assert steps[i] == DocumentStep(h, n);
      if prices.ValueError? {
        assert !steps[i].Ok?;
        return ValueError;
      }
      assert steps[..i + 1][..i] == steps[..i];
      documents := documents + [Row(Weight(h.groups[0]), Fixed, prices.value)];
    }
    assert steps[..|hits|] == steps;
    return Ok(documents);
  }

  /** Builds `weight_ranges`. */
  method CollectRanges(hits: seq<Hit>, n: nat) returns (r: Result<seq<Row>>)
    requires forall h <- hits :: Shaped(RangeRow(n), h)
    ensures r == Gather(RangeSteps(hits, n))
  {
    ghost var steps := RangeSteps(hits, n);
    var ranges: seq<Row> := [];
    for i := 0 to |hits|
      invariant Gather(steps[..i]) == Ok(ranges)
    {
      var h := hits[i];
      assert Shaped(RangeRow(n), h);
      var prices := PriceValues(h.prices);
      assert steps[i] == RangeStep(h, n);
      if prices.ValueError? {
        assert !steps[i].Ok?;
        return ValueError;
      }
      assert steps[..i + 1][..i] == steps[..i];
      ranges := ranges + [Row(Range(h.groups[0], h.groups[1]), PerKg, prices.value)];
    }
    assert steps[..|hits|] == steps;
    return Ok(ranges);
  }

  /** Fills `range_endpoints` from the ranges. */
  method EndpointSet(ranges: seq<Row>) returns (endpoints: set<nat>)
    ensures endpoints == Endpoints(ranges)
  {
    endpoints := {};
    for i := 0 to |ranges|
      invariant endpoints == Endpoints(ranges[..i])
    {
      assert ranges[..i + 1] == ranges[..i] + [ranges[i]];
      if ranges[i].weight.Range? {
        endpoints := endpoints + {NatOf(ranges[i].weight.hi)};
      }
    }
    assert ranges[..|ranges|] == ranges;
  }

  /** The single-weight loop, with its `continue` on range endpoints. */
  method CollectSingles(hits: seq<Hit>, n: nat, endpoints: set<nat>) returns (r: Result<seq<Row>>)
    requires forall h <- hits :: Shaped(WeightRow(n), h)
    ensures r == Gather(SingleSteps(hits, n, endpoints))
  {
    ghost var steps := SingleSteps(hits, n, endpoints);
    var singles: seq<Row> := [];
    for i := 0 to |hits|
      invariant Gather(steps[..i]) == Ok(singles)
    {
      var h := hits[i];
      assert Shaped(WeightRow(n), h);
      var weight := h.groups[0];
      assert steps[i] == SingleStep(h, n, endpoints);
      assert steps[..i + 1][..i] == steps[..i];
      if !IsDecimal(weight) {
        assert !steps[i].Ok?;
        return ValueError;
      }
      var weightVal := Value(weight);
      if weightVal.Floor in endpoints {
        assert steps[i] == Ok([]);
        assert singles + [] == singles;
        continue;
      }
      var prices := PriceValues(h.prices);
      if prices.ValueError? {
        assert !steps[i].Ok?;
        return ValueError;
      }
      if weightVal <= SingleWeightCeiling {
        singles := singles + [Row(Weight(weight), Fixed, prices.value)];
      } else {
        assert steps[i] == Ok([]);
        assert singles + [] == singles;
      }
    }
    assert steps[..|hits|] == steps;
    return Ok(singles);
  }

  /** The non-document part of `extract_rate_table`: ranges, their endpoints, the single
      weights, then the "Above" row. */
  method CollectNonDocuments(ndText: string, n: nat) returns (r: Result<seq<Row>>)
    ensures r == NonDocumentRows(ndText, n)
  {
    var ranges := CollectRanges(FindAll(RangeRow(n), ndText, 0), n);
    if ranges.ValueError? {
      return ValueError;
    }
    var endpoints := EndpointSet(ranges.value);
    var singles := CollectSingles(FindAll(WeightRow(n), ndText, 0), n, endpoints);
    if singles.ValueError? {
      return ValueError;
    }
    var collected := singles.value + ranges.value;
    var above := AboveRows(ndText, n);
    if above.ValueError? {
      return ValueError;
    }
    collected := collected + above.value;
    return Ok(collected);
  }

  /** The `if doc_section_start != -1` block. */
  method ExtractDocuments(section: string, n: nat) returns (r: Result<seq<Row>>)
    ensures r == SectionDocuments(section, n)
  {
    var d := Find(section, "Documents", 0);
    if d == -1 {
      return Ok([]);
    }
    var nd := Find(section, "Non-Documents", 0);
    var docText := Slice(section, d, if nd != -1 then nd else d + DocumentsLength);
    r := CollectDocuments(FindAll(WeightRow(n), docText, 0), n);
  }

  /** The `if non_doc_section_start != -1` block. */
  method ExtractNonDocuments(section: string, n: nat) returns (r: Result<seq<Row>>)
    ensures r == SectionNonDocuments(section, n)
  {
    var nd := Find(section, "Non-Documents", 0);
    if nd == -1 {
      return Ok([]);
    }
    r := CollectNonDocuments(Slice(section, nd, nd + NonDocumentsLength), n);
  }

  /** `extract_rate_table` once the window is cut out. */
  method ExtractSection(section: string, hasEnvelope: bool) returns (r: Result<ServiceTable>)
    ensures r == TableOf(section, hasEnvelope)
  {
    var n := ZoneCount(section);
    var envelopes: seq<Row> := [];
    if hasEnvelope {
      var env := EnvelopeRows(section, n);
      if env.ValueError? {
        return ValueError;
      }
      envelopes := env.value;
    }
    var documents := ExtractDocuments(section, n);
    if documents.ValueError? {
      return ValueError;
    }
    var collected := ExtractNonDocuments(section, n);
    if collected.ValueError? {
      return ValueError;
    }
    var sorted := SortBy(collected.value, Key);
    var nonDocuments := DedupRows(sorted);
    return Ok(ServiceTable(envelopes, documents.value, nonDocuments));
  }

  /** `extract_rate_table(text, _, start_marker, has_envelope)`, step by step. */
  method ExtractRateTable(text: string, marker: string, hasEnvelope: bool) returns (r: Result<ServiceTable>)
    ensures r == RateTable(text, marker, hasEnvelope)
  {
    var start := Find(text, marker, 0);
    if start == -1 {
      return Ok(EmptyTable);
    }
    r := ExtractSection(Slice(text, start, start + SectionLength), hasEnvelope);
  }
}
