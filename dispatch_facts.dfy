/** What `extract_all_services_manual` promises about the services it returns. */
module DispatchFacts {
  import opened Text
  import opened Rates
  import opened Standard
  import opened StandardFacts
  import opened Freight
  import opened FreightFacts
  import opened Dispatch

  /** Expedited has no envelope row. */
  lemma ExpeditedHasNoEnvelopes(text: string)
    requires AllServices(text).Ok?
    ensures AllServices(text).value["expedited"].envelopes == []
  {
    var expedited := RateTable(text, ExpeditedMarker, false);
    assert expedited.Ok? && AllServices(text).value["expedited"] == expedited.value;
    NoEnvelopeTable(text, ExpeditedMarker);
  }

  /** Both freight services have neither envelopes nor documents, and their rows are per
      kg in nine zones, the minimum rate first, then the bands, then "or more". */
  lemma FreightServices(text: string)
    requires AllServices(text).Ok?
    ensures FreightTableShape(AllServices(text).value["express_freight"])
    ensures FreightTableShape(AllServices(text).value["express_freight_midday"])
  {
    FreightTableFacts(text, ExpressFreightMarker);
    FreightTableFacts(text, ExpressFreightMiddayMarker);
  }

  /** A text holding none of the headings gives six empty tables. */
  lemma NoHeadings(text: string)
    requires !Contains(text, ExpressMarker) && !Contains(text, ExpressSaverMarker)
    requires !Contains(text, ExpeditedMarker)
    requires !Contains(text, ExpressFreightMarker) && !Contains(text, ExpressFreightMiddayMarker)
    ensures AllServices(text).Ok?
    ensures forall key <- ServiceKeys :: AllServices(text).value[key] == EmptyTable
  {
    MissingMarker(text, ExpressMarker, true);
    MissingMarker(text, ExpressSaverMarker, true);
    MissingMarker(text, ExpeditedMarker, false);
    FreightMissingMarker(text, ExpressFreightMarker);
    FreightMissingMarker(text, ExpressFreightMiddayMarker);
  }

  /** The Express Freight heading is a prefix of the Express Freight Midday heading, so
      wherever the Midday heading occurs the Express Freight search finds a heading there
      or earlier: when the Midday table comes first, Express Freight reads it. */
  lemma FreightHeadingIsPrefix(text: string)
    requires Contains(text, ExpressFreightMiddayMarker)
    ensures 0 <= Find(text, ExpressFreightMarker, 0) <= Find(text, ExpressFreightMiddayMarker, 0)
  {
    ContainsIff(text, ExpressFreightMiddayMarker);
    var m := Find(text, ExpressFreightMiddayMarker, 0);
    assert ExpressFreightMiddayMarker[..|ExpressFreightMarker|] == ExpressFreightMarker;
    assert OccursAt(text, ExpressFreightMarker, m);
  }
}
