/** `extract_all_services_manual`: the six services of the rate guide, each read from the
    section that starts at its heading. */
module Dispatch {
  import opened Text
  import opened Rates
  import opened Standard
  import opened Freight

  /** The heading shared by Express and Express Plus. */
  const ExpressMarker: string := "Export - UPS Worldwide Express\U{00AE} and UPS Worldwide Express Plus\U{00AE}"
  const ExpressSaverMarker: string := "Export - UPS Worldwide Express Saver\U{2122}"
  const ExpeditedMarker: string := "UPS Worldwide Expedited\U{00AE}"
  const ExpressFreightMarker: string := "Export - UPS Worldwide Express Freight\U{2122}"
  const ExpressFreightMiddayMarker: string := "Export - UPS Worldwide Express Freight\U{2122} Midday"

  /** The keys of the returned dictionary. */
  const ServiceKeys: set<string> :=
    {"express", "express_plus", "express_saver", "expedited", "express_freight", "express_freight_midday"}

  /** The services dictionary; a `ValueError` raised while reading any service ends the
      whole extraction. Each key holds the table read from its own heading, with
      envelopes for every standard service but Expedited. */
  function AllServices(text: string): (r: Result<map<string, ServiceTable>>)
    ensures r.Ok? <==>
              && RateTable(text, ExpressMarker, true).Ok?
              && RateTable(text, ExpressSaverMarker, true).Ok?
              && RateTable(text, ExpeditedMarker, false).Ok?
              && FreightTable(text, ExpressFreightMarker).Ok?
              && FreightTable(text, ExpressFreightMiddayMarker).Ok?
    ensures r.Ok? ==> r.value.Keys == ServiceKeys
    ensures r.Ok? ==>
              && r.value["express"] == RateTable(text, ExpressMarker, true).value
              && r.value["express_plus"] == RateTable(text, ExpressMarker, true).value
              && r.value["express_saver"] == RateTable(text, ExpressSaverMarker, true).value
              && r.value["expedited"] == RateTable(text, ExpeditedMarker, false).value
              && r.value["express_freight"] == FreightTable(text, ExpressFreightMarker).value
              && r.value["express_freight_midday"] == FreightTable(text, ExpressFreightMiddayMarker).value
  {
    var express :- RateTable(text, ExpressMarker, true);
    // The same call again: it returns the same table.
    var expressPlus := RateTable(text, ExpressMarker, true).value;
    var expressSaver :- RateTable(text, ExpressSaverMarker, true);
    var expedited :- RateTable(text, ExpeditedMarker, false);
    var expressFreight :- FreightTable(text, ExpressFreightMarker);
    var expressFreightMidday :- FreightTable(text, ExpressFreightMiddayMarker);
    Ok(Services(express, expressPlus, expressSaver, expedited, expressFreight, expressFreightMidday))
  }

  /** The `services` dictionary built from the six tables. */
  function Services(express: ServiceTable, expressPlus: ServiceTable, expressSaver: ServiceTable,
                    expedited: ServiceTable, expressFreight: ServiceTable,
                    expressFreightMidday: ServiceTable): (m: map<string, ServiceTable>)
    ensures m.Keys == ServiceKeys
    ensures && m["express"] == express && m["express_plus"] == expressPlus
            && m["express_saver"] == expressSaver && m["expedited"] == expedited
            && m["express_freight"] == expressFreight
            && m["express_freight_midday"] == expressFreightMidday
  {
    map[
      "express" := express,
      "express_plus" := expressPlus,
      "express_saver" := expressSaver,
      "expedited" := expedited,
      "express_freight" := expressFreight,
      "express_freight_midday" := expressFreightMidday
    ]
  }

  /** `extract_all_services_manual(text)`, one extraction after another. */
  method ExtractAllServices(text: string) returns (r: Result<map<string, ServiceTable>>)
    ensures r == AllServices(text)
  {
    var express := ExtractRateTable(text, ExpressMarker, true);
    if express.ValueError? {
      return ValueError;
    }
    var expressPlus := ExtractRateTable(text, ExpressMarker, true);
    if expressPlus.ValueError? {
      return ValueError;
    }
    var expressSaver := ExtractRateTable(text, ExpressSaverMarker, true);
    if expressSaver.ValueError? {
      return ValueError;
    }
    var expedited := ExtractRateTable(text, ExpeditedMarker, false);
    if expedited.ValueError? {
      return ValueError;
    }
    var expressFreight := ExtractFreightRates(text, ExpressFreightMarker);
    if expressFreight.ValueError? {
      return ValueError;
    }
    var expressFreightMidday := ExtractFreightRates(text, ExpressFreightMiddayMarker);
    if expressFreightMidday.ValueError? {
      return ValueError;
    }
    return Ok(Services(express.value, expressPlus.value, expressSaver.value, expedited.value,
                       expressFreight.value, expressFreightMidday.value));
  }
}
