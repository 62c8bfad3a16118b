/** What `extract_freight_rates` promises about the tables it returns. */
module FreightFacts {
  import opened Text
  import opened Rates
  import opened Patterns
  import opened Freight
  import Standard

  /** Without the marker the result is the empty table. */
  lemma FreightMissingMarker(text: string, marker: string)
    requires !Contains(text, marker)
    ensures FreightTable(text, marker) == Ok(EmptyTable)
  {
    ContainsIff(text, marker);
    assert Find(text, marker, 0) == -1;
  }

  /** The price list of the label on line `i` is looked for on the two lines after it
      only, and it is the first of them that holds one; `k` is that line, or the end
      of the look-ahead when there is none. */
  lemma PriceLineIsFirst(lines: seq<string>, i: nat) returns (k: nat)
    requires i < |lines|
    ensures i < k <= LookAheadEnd(lines, i) <= i + 3
    ensures forall m :: i < m < k ==> Search(PricePerKgRow, lines[m], 0).None?
    ensures k < LookAheadEnd(lines, i) ==>
              && Search(PricePerKgRow, lines[k], 0).Some?
              && PriceLineAfter(lines, i) == Search(PricePerKgRow, lines[k], 0)
    ensures k == LookAheadEnd(lines, i) ==> PriceLineAfter(lines, i).None?
  {
    var stop := LookAheadEnd(lines, i);
    var ms := LineSearches(PricePerKgRow, lines[..stop]);
    k := FirstIndex(ms, i + 1);
    forall m | i < m < k
      ensures Search(PricePerKgRow, lines[m], 0).None?
    {
      assert ms[m] == Search(PricePerKgRow, lines[m], 0);
    }
    if k < stop {
      assert ms[k] == Search(PricePerKgRow, lines[k], 0);
    }
  }

  /** A freight row: the minimum rate, a weight band or an "or more" row, priced per kg
      in nine zones. */
  predicate FreightShape(row: Row)
  {
    && row.pricing == PerKg
    && |row.zones| == FreightZones
    && (row.weight.MinRate? || row.weight.Range? || row.weight.OrMore?)
  }

  /** The position of a kind of row in a freight table. */
  function Rank(l: Label): nat
  {
    match l
    case MinRate => 0
    case Range(_, _) => 1
    case OrMore(_) => 2
    case _ => 3
  }

  /** Every row the band loop adds is a band row. */
  lemma {:induction false} BandsShape(lines: seq<string>)
    requires Standard.Gather(BandSteps(lines)).Ok?
    ensures forall row <- Standard.Gather(BandSteps(lines)).value ::
              row.weight.Range? && FreightShape(row)
  {
    var steps := BandSteps(lines);
    forall row <- Standard.Gather(steps).value ensures row.weight.Range? && FreightShape(row) {
      Standard.GatherMembers(steps, row);
      var i :| 0 <= i < |steps| && row in steps[i].value;
      assert steps[i] == BandStep(lines, i);
    }
  }

  /** Every row the "or more" loop adds is an "or more" row. */
  lemma {:induction false} OrMoreShape(lines: seq<string>)
    requires Standard.Gather(OrMoreSteps(lines)).Ok?
    ensures forall row <- Standard.Gather(OrMoreSteps(lines)).value ::
              row.weight.OrMore? && FreightShape(row)
  {
    var steps := OrMoreSteps(lines);
    forall row <- Standard.Gather(steps).value ensures row.weight.OrMore? && FreightShape(row) {
      Standard.GatherMembers(steps, row);
      var i :| 0 <= i < |steps| && row in steps[i].value;
      assert steps[i] == OrMoreStep(lines, i);
    }
  }

  /** A minimum-rate part, a band part and an "or more" part laid end to end are ordered
      by kind, and only the first part can hold a minimum rate. */
  lemma {:induction false} FreightConcatenation(minRate: seq<Row>, bands: seq<Row>, orMore: seq<Row>)
    requires |minRate| <= 1 && forall row <- minRate :: row.weight == MinRate && FreightShape(row)
    requires forall row <- bands :: row.weight.Range? && FreightShape(row)
    requires forall row <- orMore :: row.weight.OrMore? && FreightShape(row)
    ensures var rows := minRate + bands + orMore;
            && (forall row <- rows :: FreightShape(row))
            && (forall a, b :: 0 <= a < b < |rows| ==> Rank(rows[a].weight) <= Rank(rows[b].weight))
            && (forall a :: 0 <= a < |rows| && rows[a].weight.MinRate? ==> a == 0)
  {
    var rows := minRate + bands + orMore;
    var m, r := |minRate|, |bands|;
    assert forall k :: 0 <= k < |rows| ==>
      && (k < m ==> rows[k] in minRate)
      && (m <= k < m + r ==> rows[k] in bands)
      && (m + r <= k ==> rows[k] in orMore);
  }

  /** A freight table: no envelopes, no documents, and non-document rows that are the
      minimum rate first, then the weight bands, then the "or more" rows, all per kg in
      nine zones. */
  predicate FreightTableShape(t: ServiceTable)
  {
    && t.envelopes == [] && t.documents == []
    && (forall row <- t.nonDocuments :: FreightShape(row))
    && (forall a, b :: 0 <= a < b < |t.nonDocuments| ==>
          Rank(t.nonDocuments[a].weight) <= Rank(t.nonDocuments[b].weight))
    && (forall a :: 0 <= a < |t.nonDocuments| && t.nonDocuments[a].weight.MinRate? ==> a == 0)
  }

  /** Every freight table has that shape. */
  lemma FreightTableFacts(text: string, marker: string)
    requires FreightTable(text, marker).Ok?
    ensures FreightTableShape(FreightTable(text, marker).value)
  {
    var start := Find(text, marker, 0);
    if start >= 0 {
      var section := FreightSection(text, start, marker);
      var lines := SplitLines(section);
      BandsShape(lines);
      OrMoreShape(lines);
      FreightConcatenation(MinRateRows(section).value, Standard.Gather(BandSteps(lines)).value,
                           Standard.Gather(OrMoreSteps(lines)).value);
    }
  }

  /** Every band row comes from a line holding a band label, priced from the first
      `Price per kg` line among the two lines after it. */
  lemma BandOrigin(lines: seq<string>, row: Row)
    requires Standard.Gather(BandSteps(lines)).Ok?
    requires row in Standard.Gather(BandSteps(lines)).value
    ensures exists i ::
              && 0 <= i < |lines|
              && Search(RangeLabel, lines[i], 0).Some?
              && PriceLineAfter(lines, i).Some?
              && var h := Search(RangeLabel, lines[i], 0).value;
                 row.weight == Range(h.groups[0], h.groups[1]) &&
                 PriceValues(PriceLineAfter(lines, i).value.prices) == Ok(row.zones)
  {
    var steps := BandSteps(lines);
    Standard.GatherMembers(steps, row);
    var i :| 0 <= i < |steps| && row in steps[i].value;
    assert steps[i] == BandStep(lines, i);
  }

  /** Every "or more" row comes from a line holding an "N kg or more" label, priced from
      the first `Price per kg` line among the two lines after it. */
  lemma OrMoreOrigin(lines: seq<string>, row: Row)
    requires Standard.Gather(OrMoreSteps(lines)).Ok?
    requires row in Standard.Gather(OrMoreSteps(lines)).value
    ensures exists i ::
              && 0 <= i < |lines|
              && Search(OrMoreLabel, lines[i], 0).Some?
              && PriceLineAfter(lines, i).Some?
              && row.weight == OrMore(Search(OrMoreLabel, lines[i], 0).value.groups[0])
              && PriceValues(PriceLineAfter(lines, i).value.prices) == Ok(row.zones)
  {
    var steps := OrMoreSteps(lines);
    Standard.GatherMembers(steps, row);
    var i :| 0 <= i < |steps| && row in steps[i].value;
    assert steps[i] == OrMoreStep(lines, i);
  }

  /** Line `i` gives a band row: it holds a band label and one of the two lines after it
      holds a `Price per kg` list. */
  predicate BandLine(lines: seq<string>, i: nat)
    requires i < |lines|
  {
    Search(RangeLabel, lines[i], 0).Some? && PriceLineAfter(lines, i).Some?
  }

  /** `row` is the band row of line `i`: the band as printed, per kg, priced from the
      line's price line. */
  predicate BandRowOf(lines: seq<string>, i: nat, row: Row)
    requires i < |lines| && BandLine(lines, i)
  {
    var h := Search(RangeLabel, lines[i], 0).value;
    var p := PriceLineAfter(lines, i).value;
    PriceValues(p.prices).Ok? && row == Row(Range(h.groups[0], h.groups[1]), PerKg, PriceValues(p.prices).value)
  }

  /** A band step that does not fail adds a row exactly for a band line, and that row
      is the line's band row. */
  lemma BandStepOutcome(lines: seq<string>, i: nat)
    requires i < |lines| && BandStep(lines, i).Ok?
    ensures BandStep(lines, i).value != [] <==> BandLine(lines, i)
    ensures BandLine(lines, i) ==> BandRowOf(lines, i, BandStep(lines, i).value[0])
  {
  }

  /** The band rows, when no conversion fails, are the band rows of the band lines, one
      per line and in line order: `ks` lists those lines, increasing. */
  lemma BandsInLineOrder(lines: seq<string>) returns (ks: seq<nat>)
    requires Standard.Gather(BandSteps(lines)).Ok?
    ensures |Standard.Gather(BandSteps(lines)).value| == |ks|
    ensures forall a, b :: 0 <= a < b < |ks| ==> ks[a] < ks[b]
    ensures forall i :: 0 <= i < |lines| ==> (i in ks <==> BandLine(lines, i))
    ensures forall a :: 0 <= a < |ks| ==>
              && ks[a] < |lines| && BandLine(lines, ks[a])
              && BandRowOf(lines, ks[a], Standard.Gather(BandSteps(lines)).value[a])
  {
    var steps := BandSteps(lines);
    forall i | 0 <= i < |steps| ensures steps[i].Ok? && |steps[i].value| <= 1 {
      assert steps[i] == BandStep(lines, i);
    }
    Standard.GatherAtMostOne(steps, |steps|);
    assert steps[..|steps|] == steps;
    ks := Standard.Adding(steps, |steps|);
    forall i | 0 <= i < |lines| ensures i in ks <==> BandLine(lines, i) {
      Standard.AddingMembers(steps, |steps|, i);
      assert steps[i] == BandStep(lines, i);
      BandStepOutcome(lines, i);
    }
    forall a | 0 <= a < |ks|
      ensures BandLine(lines, ks[a]) && BandRowOf(lines, ks[a], Standard.Gather(steps).value[a])
    {
      assert steps[ks[a]] == BandStep(lines, ks[a]);
      BandStepOutcome(lines, ks[a]);
    }
  }

  /** Line `i` gives an "or more" row: it holds an "N kg or more" label and one of the
      two lines after it holds a `Price per kg` list. */
  predicate OrMoreLine(lines: seq<string>, i: nat)
    requires i < |lines|
  {
    Search(OrMoreLabel, lines[i], 0).Some? && PriceLineAfter(lines, i).Some?
  }

  /** `row` is the "or more" row of line `i`: the weight as printed, per kg, priced from
      the line's price line. */
  predicate OrMoreRowOf(lines: seq<string>, i: nat, row: Row)
    requires i < |lines| && OrMoreLine(lines, i)
  {
    var h := Search(OrMoreLabel, lines[i], 0).value;
    var p := PriceLineAfter(lines, i).value;
    PriceValues(p.prices).Ok? && row == Row(OrMore(h.groups[0]), PerKg, PriceValues(p.prices).value)
  }

  /** An "or more" step that does not fail adds a row exactly for an "or more" line, and
      that row is the line's "or more" row. */
  lemma OrMoreStepOutcome(lines: seq<string>, i: nat)
    requires i < |lines| && OrMoreStep(lines, i).Ok?
    ensures OrMoreStep(lines, i).value != [] <==> OrMoreLine(lines, i)
    ensures OrMoreLine(lines, i) ==> OrMoreRowOf(lines, i, OrMoreStep(lines, i).value[0])
  {
  }

  /** The "or more" rows, when no conversion fails, are the rows of the "or more" lines,
      one per line and in line order: `ks` lists those lines, increasing. */
  lemma OrMoreInLineOrder(lines: seq<string>) returns (ks: seq<nat>)
    requires Standard.Gather(OrMoreSteps(lines)).Ok?
    ensures |Standard.Gather(OrMoreSteps(lines)).value| == |ks|
    ensures forall a, b :: 0 <= a < b < |ks| ==> ks[a] < ks[b]
    ensures forall i :: 0 <= i < |lines| ==> (i in ks <==> OrMoreLine(lines, i))
    ensures forall a :: 0 <= a < |ks| ==>
              && ks[a] < |lines| && OrMoreLine(lines, ks[a])
              && OrMoreRowOf(lines, ks[a], Standard.Gather(OrMoreSteps(lines)).value[a])
  {
    var steps := OrMoreSteps(lines);
    forall i | 0 <= i < |steps| ensures steps[i].Ok? && |steps[i].value| <= 1 {
      assert steps[i] == OrMoreStep(lines, i);
    }
    Standard.GatherAtMostOne(steps, |steps|);
    assert steps[..|steps|] == steps;
    ks := Standard.Adding(steps, |steps|);
    forall i | 0 <= i < |lines| ensures i in ks <==> OrMoreLine(lines, i) {
      Standard.AddingMembers(steps, |steps|, i);
      assert steps[i] == OrMoreStep(lines, i);
      OrMoreStepOutcome(lines, i);
    }
    forall a | 0 <= a < |ks|
      ensures OrMoreLine(lines, ks[a]) && OrMoreRowOf(lines, ks[a], Standard.Gather(steps).value[a])
    {
      assert steps[ks[a]] == OrMoreStep(lines, ks[a]);
      OrMoreStepOutcome(lines, ks[a]);
    }
  }
}
