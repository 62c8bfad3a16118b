/** `extract_freight_rates`: the Express Freight tables, which have no envelope and no
    document rows, only a minimum rate and per-kg prices for weight bands, each price
    list printed on a line of its own below the band's label. */
module Freight {
  import opened Text
  import opened Rates
  import opened Patterns
  import Standard

  /** The text that starts the next service's section. */
  const NextServiceMarker: string := "UPS Worldwide"

  /** How much text is taken when no later service follows. */
  const FreightWindow: nat := 3000

  /** Freight tables always have nine zones. */
  const FreightZones: nat := 9

  /** `section`: the text from `start` up to the next "UPS Worldwide" found after the
      marker, or a window of 3000 characters (cut at the end of the text) when there is
      none; no "UPS Worldwide" starts inside it past the marker. */
  function FreightSection(text: string, start: nat, marker: string): (section: string)
    ensures forall k :: 0 <= k < |section| ==> start + k < |text| && section[k] == text[start + k]
    ensures var next := Find(text, NextServiceMarker, start + |marker|);
            next >= 0 ==> start + |section| == next
    ensures var next := Find(text, NextServiceMarker, start + |marker|);
            next < 0 ==> |section| == if |text| <= start then 0
                                  else if start + FreightWindow <= |text| then FreightWindow
                                  else |text| - start
    ensures forall j :: start + |marker| <= j < start + |section| ==> !OccursAt(text, NextServiceMarker, j)
  {
    var next := Find(text, NextServiceMarker, start + |marker|);
    if next >= 0 then Slice(text, start, next) else Slice(text, start, start + FreightWindow)
  }

  /** The "Min rate" row: the first `Min\s+rate` line with nine prices, if any. */
  function MinRateRows(section: string): (r: Result<seq<Row>>)
    ensures r.Ok? ==> |r.value| <= 1
    ensures r.Ok? ==> forall row <- r.value ::
              row.weight == MinRate && row.pricing == PerKg && |row.zones| == FreightZones
    ensures Search(MinRateRow, section, 0).None? ==> r == Ok([])
    ensures Search(MinRateRow, section, 0).Some? ==>
              var h := Search(MinRateRow, section, 0).value;
              && (r.Ok? <==> PriceValues(h.prices).Ok?)
              && (r.Ok? ==> r.value == [Row(MinRate, PerKg, PriceValues(h.prices).value)])
  {
    match Search(MinRateRow, section, 0)
    case None => Ok([])
    case Some(h) =>
      var zones :- PriceValues(h.prices);
      Ok([Row(MinRate, PerKg, zones)])
  }

  /** `min(i + 3, len(lines))`: the price list of the label on line `i` is looked for on
      the two lines that follow it. */
  function LookAheadEnd(lines: seq<string>, i: nat): (stop: nat)
    requires i < |lines|
    ensures i < stop <= |lines| && stop <= i + 3
    ensures stop == |lines| || stop == i + 3
  {
    if i + 3 <= |lines| then i + 3 else |lines|
  }

  /** The first `pat` match on every line. */
  function LineSearches(pat: Pattern, lines: seq<string>): (ms: seq<Option<Hit>>)
    ensures |ms| == |lines|
  {
    seq(|lines|, i requires 0 <= i < |lines| => Search(pat, lines[i], 0))
  }

  /** The price line for the label on line `i`: the first of the two lines after it
      that holds a `Price per kg` list of nine prices (the inner `for j` loop with its
      `break`). */
  function PriceLineAfter(lines: seq<string>, i: nat): (r: Option<Hit>)
    requires i < |lines|
    ensures r.Some? ==> Shaped(PricePerKgRow, r.value)
  {
    var stop := LookAheadEnd(lines, i);
    var k := FirstIndex(LineSearches(PricePerKgRow, lines[..stop]), i + 1);
    if k < stop then Search(PricePerKgRow, lines[k], 0) else None
  }

  /** One iteration of the weight-band loop: a row when line `i` holds a
      `(\d+)\s*-\s*(\d+)\s*kg` label and a price line follows. */
  function BandStep(lines: seq<string>, i: nat): (r: Result<seq<Row>>)
    requires i < |lines|
    ensures r.Ok? ==> |r.value| <= 1
    ensures r.Ok? ==> forall row <- r.value ::
              row.weight.Range? && row.pricing == PerKg && |row.zones| == FreightZones
  {
    match Search(RangeLabel, lines[i], 0)
    case None => Ok([])
    case Some(h) =>
      match PriceLineAfter(lines, i)
      case None => Ok([])
      case Some(p) =>
        var zones :- PriceValues(p.prices);
        Ok([Row(Range(h.groups[0], h.groups[1]), PerKg, zones)])
  }

  function BandSteps(lines: seq<string>): seq<Result<seq<Row>>>
  {
    seq(|lines|, i requires 0 <= i < |lines| => BandStep(lines, i))
  }

  /** One iteration of the "or more" loop: a row when line `i` holds a
      `(\d+)\s*kg\s+or\s+more` label and a price line follows. */
  function OrMoreStep(lines: seq<string>, i: nat): (r: Result<seq<Row>>)
    requires i < |lines|
    ensures r.Ok? ==> |r.value| <= 1
    ensures r.Ok? ==> forall row <- r.value ::
              row.weight.OrMore? && row.pricing == PerKg && |row.zones| == FreightZones
  {
    match Search(OrMoreLabel, lines[i], 0)
    case None => Ok([])
    case Some(h) =>
      match PriceLineAfter(lines, i)
      case None => Ok([])
      case Some(p) =>
        var zones :- PriceValues(p.prices);
        Ok([Row(OrMore(h.groups[0]), PerKg, zones)])
  }

  function OrMoreSteps(lines: seq<string>): seq<Result<seq<Row>>>
  {
    seq(|lines|, i requires 0 <= i < |lines| => OrMoreStep(lines, i))
  }

  /** `result["non_documents"]`: the minimum rate, then the weight bands in line order,
      then the "or more" rows in line order. */
  function FreightRows(section: string): Result<seq<Row>>
  {
    var lines := SplitLines(section);
    var minRate :- MinRateRows(section);
    var bands :- Standard.Gather(BandSteps(lines));
    var orMore :- Standard.Gather(OrMoreSteps(lines));
    Ok(minRate + bands + orMore)
  }

  /** `extract_freight_rates(text, _, start_marker)` */
  function FreightTable(text: string, marker: string): Result<ServiceTable>
  {
    var start := Find(text, marker, 0);
    if start < 0 then Ok(EmptyTable)
    else
      var rows :- FreightRows(FreightSection(text, start, marker));
      Ok(ServiceTable([], [], rows))
  }

  // ---------------------------------------------------------------------------------
  // The loops

  /** The look-ahead loop over the lines after line `i`. */
  method FindPriceLine(lines: seq<string>, i: nat) returns (r: Option<Hit>)
    requires i < |lines|
    ensures r == PriceLineAfter(lines, i)
  {
    var stop := LookAheadEnd(lines, i);
    ghost var ms := LineSearches(PricePerKgRow, lines[..stop]);
    for j := i + 1 to stop
      invariant FirstIndex(ms, j) == FirstIndex(ms, i + 1)
    {
      var m := Search(PricePerKgRow, lines[j], 0);
      assert ms[j] == m;
      if m.Some? {
        return m;
      }
    }
    return None;
  }

  /** The body of the weight-band loop for line `i`. */
  method BandAt(lines: seq<string>, i: nat) returns (r: Result<seq<Row>>)
    requires i < |lines|
    ensures r == BandStep(lines, i)
  {
    var head := Search(RangeLabel, lines[i], 0);
    if head.None? {
      return Ok([]);
    }
    var p := FindPriceLine(lines, i);
    if p.None? {
      return Ok([]);
    }
    var prices := PriceValues(p.value.prices);
    if prices.ValueError? {
      return ValueError;
    }
    return Ok([Row(Range(head.value.groups[0], head.value.groups[1]), PerKg, prices.value)]);
  }

  /** The body of the "or more" loop for line `i`. */
  method OrMoreAt(lines: seq<string>, i: nat) returns (r: Result<seq<Row>>)
    requires i < |lines|
    ensures r == OrMoreStep(lines, i)
  {
    var head := Search(OrMoreLabel, lines[i], 0);
    if head.None? {
      return Ok([]);
    }
    var p := FindPriceLine(lines, i);
    if p.None? {
      return Ok([]);
    }
    var prices := PriceValues(p.value.prices);
    if prices.ValueError? {
      return ValueError;
    }
    return Ok([Row(OrMore(head.value.groups[0]), PerKg, prices.value)]);
  }

  /** The weight-band loop. */
  method CollectBands(lines: seq<string>) returns (r: Result<seq<Row>>)
    ensures r == Standard.Gather(BandSteps(lines))
  {
    ghost var steps := BandSteps(lines);
    var bands: seq<Row> := [];
    for i := 0 to |lines|
      invariant Standard.Gather(steps[..i]) == Ok(bands)
    {
      assert steps[..i + 1][..i] == steps[..i];
      var step := BandAt(lines, i);
      assert steps[i] == step;
      if step.ValueError? {
        return ValueError;
      }
      bands := bands + step.value;
    }
    assert steps[..|lines|] == steps;
    return Ok(bands);
  }

  /** The "or more" loop. */
  method CollectOrMore(lines: seq<string>) returns (r: Result<seq<Row>>)
    ensures r == Standard.Gather(OrMoreSteps(lines))
  {
    ghost var steps := OrMoreSteps(lines);
    var rows: seq<Row> := [];
    for i := 0 to |lines|
      invariant Standard.Gather(steps[..i]) == Ok(rows)
    {
      assert steps[..i + 1][..i] == steps[..i];
      var step := OrMoreAt(lines, i);
      assert steps[i] == step;
      if step.ValueError? {
        return ValueError;
      }
      rows := rows + step.value;
    }
    assert steps[..|lines|] == steps;
    return Ok(rows);
  }

  /** `extract_freight_rates(text, _, start_marker)`, step by step. */
  method ExtractFreightRates(text: string, marker: string) returns (r: Result<ServiceTable>)
    ensures r == FreightTable(text, marker)
  {
    var start := Find(text, marker, 0);
    if start == -1 {
      return Ok(EmptyTable);
    }
    var section := FreightSection(text, start, marker);
    var minRate := MinRateRows(section);
    if minRate.ValueError? {
      return ValueError;
    }
    var lines := SplitLines(section);
    var bands := CollectBands(lines);
    if bands.ValueError? {
      return ValueError;
    }
    var orMore := CollectOrMore(lines);
    if orMore.ValueError? {
      return ValueError;
    }
    return Ok(ServiceTable([], [], minRate.value + bands.value + orMore.value));
  }
}
