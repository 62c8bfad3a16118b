/** What `extract_rate_table` promises about the tables it returns. */
module StandardFacts {
  import opened Text
  import opened Weights
  import opened Rates
  import opened Patterns
  import opened Ordering
  import opened Standard

  /** Without the marker the result is the empty table, not an error. */
  lemma MissingMarker(text: string, marker: string, hasEnvelope: bool)
    requires !Contains(text, marker)
    ensures RateTable(text, marker, hasEnvelope) == Ok(EmptyTable)
  {
    ContainsIff(text, marker);
    assert Find(text, marker, 0) == -1;
  }

  /** A service read without envelopes has an empty envelope list. */
  lemma NoEnvelopeTable(text: string, marker: string)
    requires RateTable(text, marker, false).Ok?
    ensures RateTable(text, marker, false).value.envelopes == []
  {
  }

  /** With a zone header, the table has ten zones exactly when the first header found
      ends with the optional "10" column. */
  lemma ZoneCountTen(section: string, h: Hit)
    requires Search(ZoneHeader, section, 0) == Some(h)
    ensures ZoneCount(section) == 10 <==> h.start + 2 <= h.end && OccursAt(section, "10", h.end - 2)
  {
    var e := ZoneSearchShape(section, 0, h);
    HeaderZonesTen(section, h, e);
  }

  /** The "10" test on a header whose ninth column ends at `e`. */
  lemma HeaderZonesTen(section: string, h: Hit, e: nat)
    requires h.start <= e <= h.end <= |section|
    requires forall k :: h.start <= k < e ==> section[k] != '0'
    requires h.end == e || (e + 2 <= h.end && OccursAt(section, "10", h.end - 2))
    ensures HeaderZones(section, Some(h)) == 10 <==>
              h.start + 2 <= h.end && OccursAt(section, "10", h.end - 2)
  {
    TenIffEndsWithTen(section, h.start, e, h.end);
  }

  /** Without a zone header, the table has nine zones. */
  lemma ZoneCountNoHeader(section: string)
    requires Search(ZoneHeader, section, 0).None?
    ensures ZoneCount(section) == 9
  {
  }

  /** The envelope list holds at most one row, labelled "Envelope", with fixed pricing
      and one price per zone, read from the first envelope line; it is empty for a
      service without envelopes. */
  lemma EnvelopeFacts(section: string, hasEnvelope: bool)
    requires TableOf(section, hasEnvelope).Ok?
    ensures var envelopes := TableOf(section, hasEnvelope).value.envelopes;
            && |envelopes| <= 1
            && (forall row <- envelopes ::
                  row.weight == Envelope && row.pricing == Fixed && |row.zones| == ZoneCount(section))
            && (!hasEnvelope ==> envelopes == [])
  {
    var n := ZoneCount(section);
    if hasEnvelope {
      var r := EnvelopeRows(section, n);
      assert r.Ok?;
      if r.value != [] {
        var h := Search(EnvelopeRow(n), section, 0).value;
        assert |h.prices| == n;
      }
    }
  }

  /** The document rows are the weight-row matches of the documents window, one row per
      match in the order met, each with its label as printed, fixed pricing and the
      `n` prices of the match. */
  lemma {:induction false} DocumentsInEncounterOrder(docText: string, n: nat)
    requires DocumentRows(docText, n).Ok?
    ensures var rows := DocumentRows(docText, n).value;
            var hits := FindAll(WeightRow(n), docText, 0);
            && |rows| == |hits|
            && forall i :: 0 <= i < |hits| ==>
                 && rows[i].weight == Weight(hits[i].groups[0])
                 && rows[i].pricing == Fixed
                 && |rows[i].zones| == n
                 && PriceValues(hits[i].prices) == Ok(rows[i].zones)
  {
    var hits := FindAll(WeightRow(n), docText, 0);
    var steps := DocumentSteps(hits, n);
    forall i | 0 <= i < |steps| ensures steps[i].Ok? && |steps[i].value| == 1 {
      assert steps[i] == DocumentStep(hits[i], n);
    }
    GatherSingletons(steps);
    forall i | 0 <= i < |hits|
      ensures DocumentRows(docText, n).value[i].weight == Weight(hits[i].groups[0])
      ensures DocumentRows(docText, n).value[i].pricing == Fixed
      ensures |DocumentRows(docText, n).value[i].zones| == n
      ensures PriceValues(hits[i].prices) == Ok(DocumentRows(docText, n).value[i].zones)
    {
      assert steps[i] == DocumentStep(hits[i], n);
      assert Shaped(WeightRow(n), hits[i]);
    }
  }

  /** The envelope list read from a section is decided by the first envelope match alone:
      none without a match; with one, a single fixed-price "Envelope" row of that match's
      prices when they all convert, and `ValueError` when one does not. */
  lemma EnvelopeFromFirstMatch(section: string, n: nat)
    ensures Search(EnvelopeRow(n), section, 0).None? ==> EnvelopeRows(section, n) == Ok([])
    ensures Search(EnvelopeRow(n), section, 0).Some? ==>
              var h := Search(EnvelopeRow(n), section, 0).value;
              && (PriceValues(h.prices).Ok? ==>
                    EnvelopeRows(section, n) == Ok([Row(Envelope, Fixed, PriceValues(h.prices).value)]))
              && (PriceValues(h.prices).ValueError? ==> EnvelopeRows(section, n) == ValueError)
  {
  }

  /** The range rows are the range-row matches of the non-documents window, one per-kg row
      per match in the order met, labelled with the two bounds as printed and priced with
      the `n` prices of the match. */
  lemma {:induction false} RangesInEncounterOrder(ndText: string, n: nat)
    requires RangeRows(ndText, n).Ok?
    ensures var rows := RangeRows(ndText, n).value;
            var hits := FindAll(RangeRow(n), ndText, 0);
            && |rows| == |hits|
            && forall i :: 0 <= i < |hits| ==>
                 && PriceValues(hits[i].prices).Ok?
                 && rows[i] == Row(Range(hits[i].groups[0], hits[i].groups[1]), PerKg, PriceValues(hits[i].prices).value)
  {
    var hits := FindAll(RangeRow(n), ndText, 0);
    var steps := RangeSteps(hits, n);
    forall i | 0 <= i < |steps| ensures steps[i].Ok? && |steps[i].value| == 1 {
      assert steps[i] == RangeStep(hits[i], n);
    }
    GatherSingletons(steps);
    forall i | 0 <= i < |hits|
      ensures PriceValues(hits[i].prices).Ok?
      ensures RangeRows(ndText, n).value[i]
              == Row(Range(hits[i].groups[0], hits[i].groups[1]), PerKg, PriceValues(hits[i].prices).value)
    {
      assert steps[i] == RangeStep(hits[i], n);
      assert Shaped(RangeRow(n), hits[i]);
    }
  }

  /** The single-weight loop keeps a weight-row match when its label is a well-formed
      decimal, its integer part is not a range endpoint and it is at most 20 kg. */
  predicate KeptSingle(h: Hit, endpoints: set<nat>)
    requires |h.groups| == 1
  {
    var w := h.groups[0];
    IsDecimal(w) && Value(w).Floor !in endpoints && Value(w) <= SingleWeightCeiling
  }

  /** The matches the single-weight loop keeps, in the order met. */
  function KeptSingles(hits: seq<Hit>, endpoints: set<nat>): (kept: seq<Hit>)
    requires forall h <- hits :: |h.groups| == 1
    ensures forall h <- kept :: h in hits
  {
    if hits == [] then []
    else
      var last := hits[|hits| - 1];
      KeptSingles(hits[..|hits| - 1], endpoints) + (if KeptSingle(last, endpoints) then [last] else [])
  }

  /** A match is kept exactly when it is among the matches and passes the loop's tests. */
  lemma {:induction false} KeptSinglesMembers(hits: seq<Hit>, endpoints: set<nat>, h: Hit)
    requires forall h <- hits :: |h.groups| == 1
    ensures h in KeptSingles(hits, endpoints) <==> h in hits && KeptSingle(h, endpoints)
  {
    if hits != [] {
      var init := hits[..|hits| - 1];
      KeptSinglesMembers(init, endpoints, h);
      assert hits == init + [hits[|hits| - 1]];
    }
  }

  /** One step of the single-weight loop that does not fail adds the match's row exactly
      when the match is kept, and its prices then all convert. */
  lemma SingleStepKept(h: Hit, n: nat, endpoints: set<nat>)
    requires Shaped(WeightRow(n), h)
    requires SingleStep(h, n, endpoints).Ok?
    ensures KeptSingle(h, endpoints) ==> PriceValues(h.prices).Ok?
    ensures SingleStep(h, n, endpoints).value
            == if KeptSingle(h, endpoints) then [Row(Weight(h.groups[0]), Fixed, PriceValues(h.prices).value)] else []
  {
  }

  /** The rows of steps that all succeed are the rows of all but the last step followed by
      the rows of the last one. */
  lemma GatherLast(steps: seq<Result<seq<Row>>>)
    requires steps != [] && Gather(steps).Ok?
    ensures Gather(steps[..|steps| - 1]).Ok? && steps[|steps| - 1].Ok?
    ensures Gather(steps).value == Gather(steps[..|steps| - 1]).value + steps[|steps| - 1].value
  {
  }

  /** The single-weight rows, when no conversion fails, are the kept matches in the
      order met: each labelled as printed, with fixed pricing and the match's prices. */
  lemma {:induction false} SinglesAreKept(hits: seq<Hit>, n: nat, endpoints: set<nat>)
    requires forall h <- hits :: Shaped(WeightRow(n), h)
    requires Gather(SingleSteps(hits, n, endpoints)).Ok?
    ensures var rows := Gather(SingleSteps(hits, n, endpoints)).value;
            var kept := KeptSingles(hits, endpoints);
            && |rows| == |kept|
            && forall i :: 0 <= i < |kept| ==>
                 && kept[i] in hits
                 && PriceValues(kept[i].prices).Ok?
                 && rows[i] == Row(Weight(kept[i].groups[0]), Fixed, PriceValues(kept[i].prices).value)
  {
    if hits != [] {
      var steps := SingleSteps(hits, n, endpoints);
      var init := hits[..|hits| - 1];
      var last := hits[|hits| - 1];
      assert steps[..|steps| - 1] == SingleSteps(init, n, endpoints);
      assert steps[|steps| - 1] == SingleStep(last, n, endpoints);
      GatherLast(steps);
      assert forall h <- init :: h in hits;
      SinglesAreKept(init, n, endpoints);
      SingleStepKept(last, n, endpoints);
    }
  }

  /** `SinglesAreKept` for the matches of the non-documents window. */
  lemma SingleRowsKept(ndText: string, n: nat, endpoints: set<nat>)
    requires SingleRows(ndText, n, endpoints).Ok?
    ensures var rows := SingleRows(ndText, n, endpoints).value;
            var kept := KeptSingles(FindAll(WeightRow(n), ndText, 0), endpoints);
            && |rows| == |kept|
            && forall i :: 0 <= i < |kept| ==>
                 && kept[i] in FindAll(WeightRow(n), ndText, 0)
                 && PriceValues(kept[i].prices).Ok?
                 && rows[i] == Row(Weight(kept[i].groups[0]), Fixed, PriceValues(kept[i].prices).value)
  {
    SinglesAreKept(FindAll(WeightRow(n), ndText, 0), n, endpoints);
  }

  /** What the "Above" step yields for a line with tokens `tokens`: nothing when the line
      has fewer than `n` tokens; otherwise one per-kg row labelled with the threshold whose
      zones are the last `n` tokens converted in order, or `ValueError` when one of them
      does not convert. */
  predicate AboveOutcome(r: Result<seq<Row>>, threshold: string, tokens: seq<string>, n: nat)
    requires forall i :: 0 <= i < |tokens| ==> IsPriceToken(tokens[i])
  {
    && (|tokens| < n ==> r == Ok([]))
    && (|tokens| >= n && (forall i :: |tokens| - n <= i < |tokens| ==> IsPriceToken(tokens[i]) && PriceValue(tokens[i]).Ok?) ==>
          && r.Ok? && |r.value| == 1
          && r.value[0].weight == Above(threshold) && r.value[0].pricing == PerKg
          && |r.value[0].zones| == n
          && forall i :: 0 <= i < n ==>
               IsPriceToken(tokens[|tokens| - n + i]) && r.value[0].zones[i] == PriceValue(tokens[|tokens| - n + i]).value)
    && (|tokens| >= n && (exists i :: |tokens| - n <= i < |tokens| && IsPriceToken(tokens[i]) && PriceValue(tokens[i]).ValueError?) ==>
          r == ValueError)
  }

  /** The "Above" row of a line is the outcome `AboveOutcome` describes. */
  lemma AboveRowValues(threshold: string, tokens: seq<string>, n: nat)
    requires forall i :: 0 <= i < |tokens| ==> IsPriceToken(tokens[i])
    ensures AboveOutcome(AboveRow(threshold, tokens, n), threshold, tokens, n)
  {
    if |tokens| >= n {
      var last := tokens[|tokens| - n..];
      forall i | 0 <= i < n ensures last[i] == tokens[|tokens| - n + i] {
      }
      if exists i :: |tokens| - n <= i < |tokens| && IsPriceToken(tokens[i]) && PriceValue(tokens[i]).ValueError? {
        var i :| |tokens| - n <= i < |tokens| && IsPriceToken(tokens[i]) && PriceValue(tokens[i]).ValueError?;
        assert last[i - (|tokens| - n)] == tokens[i];
        assert forall j :: 0 <= j < |last| ==> IsPriceToken(last[j]);
        assert PriceValues(last).ValueError?;
      }
    }
  }

  /** The "Above" rows of the non-documents window come from the first "Above N kg" label
      alone: none without such a label; otherwise the outcome of `AboveRowValues` on the
      tokens of that label's line, with the captured threshold `N` as the label. */
  lemma AboveRowsOrigin(ndText: string, n: nat)
    ensures Search(AboveLabel, ndText, 0).None? ==> AboveRows(ndText, n) == Ok([])
    ensures Search(AboveLabel, ndText, 0).Some? ==>
              var h := Search(AboveLabel, ndText, 0).value;
              AboveOutcome(AboveRows(ndText, n), h.groups[0], LineTokens(AboveLine(ndText, h.start, h.end)), n)
  {
    if Search(AboveLabel, ndText, 0).Some? {
      var h := Search(AboveLabel, ndText, 0).value;
      AboveRowValues(h.groups[0], LineTokens(AboveLine(ndText, h.start, h.end)), n);
    }
  }

  /** The documents of the table are exactly the rows of the documents window, unsorted
      and not de-duplicated; there are none without a "Documents" heading. */
  lemma TableDocuments(section: string, hasEnvelope: bool)
    requires TableOf(section, hasEnvelope).Ok?
    ensures var documents := TableOf(section, hasEnvelope).value.documents;
            if DocumentsStart(section) < 0 then documents == []
            else DocumentRows(DocumentsText(section), ZoneCount(section)) == Ok(documents)
  {
  }

  // ---------------------------------------------------------------------------------
  // Non-documents

  /** A non-document row: a single weight of at most 20 kg with fixed pricing, or a range
      or "Above" row priced per kg; one price per zone. */
  predicate NonDocumentShape(row: Row, n: nat)
  {
    && |row.zones| == n
    && match row.weight
       case Weight(w) => row.pricing == Fixed && IsDecimal(w) && Value(w) <= SingleWeightCeiling
       case Range(_, _) => row.pricing == PerKg
       case Above(_) => row.pricing == PerKg
       case _ => false
  }

  /** No single weight has the upper bound of a listed range as its integer part. */
  predicate NoEndpointWeights(rows: seq<Row>)
  {
    forall a, b :: 0 <= a < |rows| && 0 <= b < |rows| && rows[a].weight.Weight? && rows[b].weight.Range? ==>
      Value(rows[a].weight.w).Floor != NatOf(rows[b].weight.hi)
  }

  /** At most one row is an "Above" row. */
  predicate SingleAbove(rows: seq<Row>)
  {
    forall a, b :: 0 <= a < |rows| && 0 <= b < |rows| && rows[a].weight.Above? && rows[b].weight.Above? ==>
      rows[a] == rows[b]
  }

  /** The row one iteration of the range loop makes. */
  lemma RangeStepShape(h: Hit, n: nat, row: Row)
    requires Shaped(RangeRow(n), h) && RangeStep(h, n).Ok?
    requires row in RangeStep(h, n).value
    ensures row.weight.Range? && row.pricing == PerKg && |row.zones| == n
  {
  }

  /** Every range row is a per-kg row with `n` prices. */
  lemma RangeRowsShape(ndText: string, n: nat)
    requires RangeRows(ndText, n).Ok?
    ensures forall row <- RangeRows(ndText, n).value ::
              row.weight.Range? && row.pricing == PerKg && |row.zones| == n
  {
    var hits := FindAll(RangeRow(n), ndText, 0);
    var steps := RangeSteps(hits, n);
    forall row <- RangeRows(ndText, n).value
      ensures row.weight.Range? && row.pricing == PerKg && |row.zones| == n
    {
      GatherMembers(steps, row);
      var i :| 0 <= i < |steps| && row in steps[i].value;
      var h := hits[i];
      assert h in hits && steps[i] == RangeStep(h, n);
      RangeStepShape(h, n, row);
    }
  }

  /** A row one iteration of the single-weight loop keeps. */
  lemma SingleStepShape(h: Hit, n: nat, endpoints: set<nat>, row: Row)
    requires Shaped(WeightRow(n), h) && SingleStep(h, n, endpoints).Ok?
    requires row in SingleStep(h, n, endpoints).value
    ensures row.weight.Weight? && NonDocumentShape(row, n) && Value(row.weight.w).Floor !in endpoints
  {
  }

  /** Every kept single weight is a well-formed weight of at most 20 kg, with fixed
      pricing and `n` prices, whose integer part is not an endpoint. */
  lemma SingleRowsShape(ndText: string, n: nat, endpoints: set<nat>)
    requires SingleRows(ndText, n, endpoints).Ok?
    ensures forall row <- SingleRows(ndText, n, endpoints).value ::
              && row.weight.Weight? && NonDocumentShape(row, n)
              && Value(row.weight.w).Floor !in endpoints
  {
    var hits := FindAll(WeightRow(n), ndText, 0);
    var steps := SingleSteps(hits, n, endpoints);
    forall row <- SingleRows(ndText, n, endpoints).value
      ensures row.weight.Weight? && NonDocumentShape(row, n) && Value(row.weight.w).Floor !in endpoints
    {
      GatherMembers(steps, row);
      var i :| 0 <= i < |steps| && row in steps[i].value;
      assert steps[i] == SingleStep(hits[i], n, endpoints);
      SingleStepShape(hits[i], n, endpoints, row);
    }
  }

  /** Single weights, then ranges, then at most one "Above" row, as collected. */
  lemma {:induction false} ConcatenationShape(singles: seq<Row>, ranges: seq<Row>, above: seq<Row>, n: nat)
    requires forall row <- singles ::
               row.weight.Weight? && NonDocumentShape(row, n) && Value(row.weight.w).Floor !in Endpoints(ranges)
    requires forall row <- ranges :: row.weight.Range? && row.pricing == PerKg && |row.zones| == n
    requires |above| <= 1 && forall row <- above :: row.weight.Above? && row.pricing == PerKg && |row.zones| == n
    ensures var rows := singles + ranges + above;
            && (forall row <- rows :: NonDocumentShape(row, n))
            && NoEndpointWeights(rows)
            && SingleAbove(rows)
  {
    var rows := singles + ranges + above;
    var s, r := |singles|, |ranges|;
    forall k | 0 <= k < |rows|
      ensures k < s ==> rows[k] == singles[k] && rows[k] in singles
      ensures s <= k < s + r ==> rows[k] == ranges[k - s] && rows[k] in ranges
      ensures s + r <= k ==> rows[k] == above[k - s - r] && rows[k] in above
    {
    }
    forall a, b | 0 <= a < |rows| && 0 <= b < |rows| && rows[a].weight.Weight? && rows[b].weight.Range?
      ensures Value(rows[a].weight.w).Floor != NatOf(rows[b].weight.hi)
    {
      assert NatOf(rows[b].weight.hi) in Endpoints(ranges);
    }
  }

  /** The rows collected before sorting: each has the non-document shape, no single
      weight is a range endpoint, and there is at most one "Above" row. */
  lemma CollectedShape(ndText: string, n: nat)
    requires NonDocumentRows(ndText, n).Ok?
    ensures var rows := NonDocumentRows(ndText, n).value;
            && (forall row <- rows :: NonDocumentShape(row, n))
            && NoEndpointWeights(rows)
            && SingleAbove(rows)
  {
    var ranges := RangeRows(ndText, n).value;
    var singles := SingleRows(ndText, n, Endpoints(ranges)).value;
    RangeRowsShape(ndText, n);
    SingleRowsShape(ndText, n, Endpoints(ranges));
    ConcatenationShape(singles, ranges, AboveRows(ndText, n).value, n);
  }

  /** Every row of the final list is the normalised form of a collected row. */
  lemma FinalRowOrigin(collected: seq<Row>, x: Row)
    requires x in Dedup(InsertionSort(collected, Key))
    ensures exists y :: y in collected && x == NormalizeRow(y)
  {
    var sorted := InsertionSort(collected, Key);
    DedupOnlyFirsts(sorted, x);
    var i :| 0 <= i < |sorted| && x == NormalizeRow(sorted[i]) && FirstOfItsWeight(sorted, i);
    InsertionSortPermutes(collected, Key);
    assert sorted[i] in multiset(sorted);
  }

  /** Normalising keeps a row's shape, its key, and its weight's integer part. */
  lemma NormalizeKeepsShape(row: Row, n: nat)
    requires NonDocumentShape(row, n)
    ensures NonDocumentShape(NormalizeRow(row), n)
    ensures row.weight.Weight? ==> Value(NormalizeRow(row).weight.w) == Value(row.weight.w)
  {
    if row.weight.Weight? {
      CanonParts(row.weight.w);
      CanonValue(row.weight.w);
    }
  }

  /** The final list, as a whole, is made of normalised collected rows. */
  lemma FinalOrigins(collected: seq<Row>)
    ensures forall x <- Dedup(InsertionSort(collected, Key)) ::
              exists y :: y in collected && x == NormalizeRow(y)
  {
    forall x <- Dedup(InsertionSort(collected, Key)) ensures exists y :: y in collected && x == NormalizeRow(y) {
      FinalRowOrigin(collected, x);
    }
  }

  /** Normalising a single weight and a range keeps the weight off the range's endpoint. */
  lemma NormalizedOffEndpoint(single: Row, range: Row, n: nat)
    requires NonDocumentShape(single, n) && single.weight.Weight? && range.weight.Range?
    requires Value(single.weight.w).Floor != NatOf(range.weight.hi)
    ensures Value(NormalizeRow(single).weight.w).Floor != NatOf(NormalizeRow(range).weight.hi)
  {
    NormalizeKeepsShape(single, n);
  }

  /** The shape facts of the collected rows hold for any list of their normalised forms. */
  lemma NormalizedShape(collected: seq<Row>, rows: seq<Row>, n: nat)
    requires forall x <- rows :: exists y :: y in collected && x == NormalizeRow(y)
    requires forall row <- collected :: NonDocumentShape(row, n)
    requires NoEndpointWeights(collected) && SingleAbove(collected)
    ensures forall row <- rows :: NonDocumentShape(row, n)
    ensures NoEndpointWeights(rows) && SingleAbove(rows)
  {
    forall x <- rows ensures NonDocumentShape(x, n) {
      var y :| y in collected && x == NormalizeRow(y);
      NormalizeKeepsShape(y, n);
    }
    forall a, b | 0 <= a < |rows| && 0 <= b < |rows| && rows[a].weight.Weight? && rows[b].weight.Range?
      ensures Value(rows[a].weight.w).Floor != NatOf(rows[b].weight.hi)
    {
      assert rows[a] in rows && rows[b] in rows;
      var y1 :| y1 in collected && rows[a] == NormalizeRow(y1);
      var y2 :| y2 in collected && rows[b] == NormalizeRow(y2);
      var i1 :| 0 <= i1 < |collected| && collected[i1] == y1;
      var i2 :| 0 <= i2 < |collected| && collected[i2] == y2;
      NormalizedOffEndpoint(y1, y2, n);
    }
    forall a, b | 0 <= a < |rows| && 0 <= b < |rows| && rows[a].weight.Above? && rows[b].weight.Above?
      ensures rows[a] == rows[b]
    {
      assert rows[a] in rows && rows[b] in rows;
      var y1 :| y1 in collected && rows[a] == NormalizeRow(y1);
      var y2 :| y2 in collected && rows[b] == NormalizeRow(y2);
      var i1 :| 0 <= i1 < |collected| && collected[i1] == y1;
      var i2 :| 0 <= i2 < |collected| && collected[i2] == y2;
    }
  }

  /** In a sorted, de-duplicated list of non-document rows whose ranges all start below
      10000 kg, the "Above" row comes last. */
  lemma AboveLast(rows: seq<Row>, n: nat)
    requires forall row <- rows :: NonDocumentShape(row, n)
    requires SortedBy(rows, Key) && SingleAbove(rows)
    requires forall a, b :: 0 <= a < b < |rows| ==> Render(rows[a].weight) != Render(rows[b].weight)
    requires forall row <- rows :: row.weight.Range? ==> Value(row.weight.lo) < AboveSortKey
    ensures forall i :: 0 <= i < |rows| && rows[i].weight.Above? ==> i == |rows| - 1
  {
    forall i | 0 <= i < |rows| - 1 ensures !rows[i].weight.Above? {
      assert Key(rows[i]) <= Key(rows[i + 1]);
      assert rows[i + 1] in rows;
    }
  }

  /** What sorting and de-duplicating the collected rows yields: the rows keep their
      shape, no weight is a range endpoint, at most one row is "Above", the list is
      ordered by `get_sort_key`, its printed labels are distinct and normalised, and the
      "Above" row is last when every range starts below 10000 kg. */
  lemma FinalFacts(collected: seq<Row>, n: nat)
    requires forall row <- collected :: NonDocumentShape(row, n)
    requires NoEndpointWeights(collected) && SingleAbove(collected)
    ensures var rows := Dedup(InsertionSort(collected, Key));
            && (forall row <- rows :: NonDocumentShape(row, n))
            && NoEndpointWeights(rows) && SingleAbove(rows)
            && SortedBy(rows, Key)
            && (forall a, b :: 0 <= a < b < |rows| ==> Render(rows[a].weight) != Render(rows[b].weight))
            && (forall row <- rows :: NormalizeLabel(row.weight) == row.weight)
            && ((forall row <- rows :: row.weight.Range? ==> Value(row.weight.lo) < AboveSortKey) ==>
                  forall i :: 0 <= i < |rows| && rows[i].weight.Above? ==> i == |rows| - 1)
  {
    var sorted := InsertionSort(collected, Key);
    var rows := Dedup(sorted);
    FinalOrigins(collected);
    NormalizedShape(collected, rows, n);
    InsertionSortIsStable(collected, Key);
    DedupSorted(sorted);
    DedupDistinct(sorted);
    DedupNormalized(sorted);
    if forall row <- rows :: row.weight.Range? ==> Value(row.weight.lo) < AboveSortKey {
      AboveLast(rows, n);
    }
  }

  /** `extract_rate_table`'s non-document list, with `n` the zone count of the section:
      empty without a "Non-Documents" heading, and otherwise the facts of `FinalFacts`. */
  lemma NonDocumentsFacts(section: string, hasEnvelope: bool)
    requires TableOf(section, hasEnvelope).Ok?
    ensures var rows := TableOf(section, hasEnvelope).value.nonDocuments;
            var n := ZoneCount(section);
            && (NonDocumentsStart(section) < 0 ==> rows == [])
            && (forall row <- rows :: NonDocumentShape(row, n))
            && NoEndpointWeights(rows) && SingleAbove(rows)
            && SortedBy(rows, Key)
            && (forall a, b :: 0 <= a < b < |rows| ==> Render(rows[a].weight) != Render(rows[b].weight))
            && (forall row <- rows :: NormalizeLabel(row.weight) == row.weight)
            && ((forall row <- rows :: row.weight.Range? ==> Value(row.weight.lo) < AboveSortKey) ==>
                  forall i :: 0 <= i < |rows| && rows[i].weight.Above? ==> i == |rows| - 1)
  {
    var n := ZoneCount(section);
    var collected := if NonDocumentsStart(section) < 0 then []
                     else NonDocumentRows(NonDocumentsText(section), n).value;
    assert TableOf(section, hasEnvelope).value.nonDocuments == Dedup(InsertionSort(collected, Key));
    if NonDocumentsStart(section) >= 0 {
      CollectedShape(NonDocumentsText(section), n);
    }
    FinalFacts(collected, n);
  }

  /** A digit string converts to the number it denotes. */
  lemma DigitTokenValue(t: string)
    requires t != [] && AllDigits(t)
    ensures PriceValue(t) == Ok(NatOf(t))
  {
    RemoveCommasDigits(t);
  }

  /** An "Above N kg" line that prints a price for every zone: the threshold, being the
      first `[\d,]+` token of the line, is dropped and the zones are the line's prices. */
  lemma AboveFullLine(threshold: string, prices: seq<string>, n: nat)
    requires threshold != [] && AllDigits(threshold)
    requires |prices| == n && forall i :: 0 <= i < |prices| ==> IsPriceToken(prices[i])
    ensures var tokens := [threshold] + prices;
            && (forall i :: 0 <= i < |tokens| ==> IsPriceToken(tokens[i]))
            && (forall i :: 0 <= i < |prices| ==> forall k :: 0 <= k < |prices[i]| ==> IsPriceChar(prices[i][k]))
            && AboveRow(threshold, tokens, n) ==
                 if PriceValues(prices).Ok? then Ok([Row(Above(threshold), PerKg, PriceValues(prices).value)])
                 else ValueError
  {
    var tokens := [threshold] + prices;
    assert tokens[|tokens| - n..] == prices;
  }

  /** An "Above N kg" line that prints one price fewer than there are zones: the threshold
      itself becomes the first zone's price. */
  lemma AboveShortLine(threshold: string, prices: seq<string>, n: nat)
    requires threshold != [] && AllDigits(threshold)
    requires |prices| + 1 == n && forall i :: 0 <= i < |prices| ==> IsPriceToken(prices[i])
    ensures var tokens := [threshold] + prices;
            && (forall i :: 0 <= i < |tokens| ==> IsPriceToken(tokens[i]))
            && (forall i :: 0 <= i < |prices| ==> forall k :: 0 <= k < |prices[i]| ==> IsPriceChar(prices[i][k]))
            && AboveRow(threshold, tokens, n) ==
                 if PriceValues(prices).Ok? then
                   Ok([Row(Above(threshold), PerKg, [NatOf(threshold)] + PriceValues(prices).value)])
                 else ValueError
  {
    var tokens := [threshold] + prices;
    assert tokens[|tokens| - n..] == tokens;
    DigitTokenValue(threshold);
    assert tokens[1..] == prices;
  }
}
