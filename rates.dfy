/** The records the extractor produces: one priced row per weight label, grouped per
    service into envelopes, documents and non-documents. */
module Rates {
  import opened Text
  import opened Weights

  /** A computation that either yields a value or raises Python's `ValueError`
      (a malformed weight label or a comma-only price token). */
  datatype Result<T> = Ok(value: T) | ValueError {
    predicate IsFailure() { ValueError? }
    function PropagateFailure<U>(): Result<U> requires ValueError? { ValueError }
    function Extract(): T requires Ok? { value }
  }

  /** `pricing_type`: absent (fixed price per row) or `"per_kg"`. */
  datatype Pricing = Fixed | PerKg

  /** The `weight` label of a row, by the shape it is printed in. */
  datatype Label =
    | Envelope                         // "Envelope"
    | Weight(w: string)                // "<w> kg", w matched by [\d.]+
    | Range(lo: string, hi: string)    // "<lo>-<hi> kg"
    | Above(n: string)                 // "Above <n> kg"
    | MinRate                          // "Min rate"
    | OrMore(n: string)                // "<n> kg or more"

  /** The label as it appears in the output's `weight` field. */
  function Render(l: Label): string
  {
    match l
    case Envelope => "Envelope"
    case Weight(w) => w + " kg"
    case Range(lo, hi) => lo + "-" + hi + " kg"
    case Above(n) => "Above " + n + " kg"
    case MinRate => "Min rate"
    case OrMore(n) => n + " kg or more"
  }

  /** The label pieces are what the patterns capture: `[\d.]+` for a single weight and
      `\d+` for range bounds and thresholds. */
  predicate WellFormedLabel(l: Label)
  {
    match l
    case Weight(w) => forall k :: 0 <= k < |w| ==> IsDecimalChar(w[k])
    case Range(lo, hi) => AllDigits(lo) && AllDigits(hi)
    case Above(n) => AllDigits(n)
    case OrMore(n) => AllDigits(n)
    case _ => true
  }

  /** One rate row; `zones[i]` is the price for `zone_{i+1}`. */
  datatype Row = Row(weight: Label, pricing: Pricing, zones: seq<nat>)

  /** One service's rate table. */
  datatype ServiceTable = ServiceTable(envelopes: seq<Row>, documents: seq<Row>, nonDocuments: seq<Row>)

  /** `{"envelopes": [], "documents": [], "non_documents": []}` */
  const EmptyTable: ServiceTable := ServiceTable([], [], [])

  /** `int(t.replace(',', ''))` for a `[\d,]+` token: raises `ValueError` exactly when the
      token is made of commas only. */
  function PriceValue(t: string): (r: Result<nat>)
    requires forall k :: 0 <= k < |t| ==> IsPriceChar(t[k])
    ensures r.ValueError? <==> forall k :: 0 <= k < |t| ==> t[k] == ','
    ensures r.Ok? ==> r.value == NatOf(RemoveCommas(t))
  {
    var d := RemoveCommas(t);
    if d == [] then
      assert forall k :: 0 <= k < |t| ==> t[k] == ',' by {
        forall k | 0 <= k < |t| ensures t[k] == ',' {
          assert t[k] in t;
        }
      }
      ValueError
    else
      assert d[0] in t && d[0] != ',';
      Ok(NatOf(d))
  }

  /** The price list comprehension `[int(m.group(i).replace(',', '')) for i in ...]`:
      every token converted in order, or `ValueError` if any conversion raises. */
  function PriceValues(toks: seq<string>): (r: Result<seq<nat>>)
    requires forall i :: 0 <= i < |toks| ==> forall k :: 0 <= k < |toks[i]| ==> IsPriceChar(toks[i][k])
    ensures r.Ok? <==> forall i :: 0 <= i < |toks| ==> PriceValue(toks[i]).Ok?
    ensures r.Ok? ==> |r.value| == |toks|
    ensures r.Ok? ==> forall i :: 0 <= i < |toks| ==> r.value[i] == PriceValue(toks[i]).value
  {
    if toks == [] then Ok([])
    else
      match PriceValue(toks[0])
      case ValueError => ValueError
      case Ok(v) =>
        match PriceValues(toks[1..])
        case ValueError => ValueError
        case Ok(vs) => Ok([v] + vs)
  }

  /** Tokens that convert one by one to `vals` convert together to exactly `vals`. */
  lemma PriceValuesOk(toks: seq<string>, vals: seq<nat>)
    requires forall i :: 0 <= i < |toks| ==> forall k :: 0 <= k < |toks[i]| ==> IsPriceChar(toks[i][k])
    requires |toks| == |vals|
    requires forall i :: 0 <= i < |toks| ==> PriceValue(toks[i]) == Ok(vals[i])
    ensures PriceValues(toks) == Ok(vals)
  {
    var r := PriceValues(toks);
    assert r.Ok?;
    assert r.value == vals;
  }

  /** The sort key of every "Above N kg" row, whatever N is. */
  const AboveSortKey: real := 10000.0

  /** `get_sort_key`: the lower bound of a range, 10000 for "Above", the value of a
      single weight. The remaining labels never occur among standard non-document rows. */
  function SortKey(l: Label): real
  {
    match l
    case Range(lo, _) => Value(lo)
    case Above(_) => AboveSortKey
    case Weight(w) => Value(w)
    case _ => 0.0
  }

  /** `normalize_weight`: ranges and "Above" labels are kept; a single weight that `float`
      accepts is respelled canonically; anything else is kept (the `except` branch). */
  function NormalizeLabel(l: Label): (r: Label)
    ensures r.Weight? <==> l.Weight?
    ensures !l.Weight? ==> r == l
  {
    match l
    case Weight(w) => if IsDecimal(w) then Weight(Canon(w)) else l
    case _ => l
  }

  /** The row with its label replaced by the normalised one (`item["weight"] = normalized`). */
  function NormalizeRow(r: Row): (n: Row)
    ensures n.pricing == r.pricing && n.zones == r.zones
    ensures n.weight == NormalizeLabel(r.weight)
  {
    r.(weight := NormalizeLabel(r.weight))
  }

  /** The string `seen_weights` remembers for a row. */
  function DedupKey(r: Row): string
  {
    Render(NormalizeLabel(r.weight))
  }

  lemma NoCharInWeight(w: string, c: char)
    requires forall k :: 0 <= k < |w| ==> IsDecimalChar(w[k])
    requires !IsDecimalChar(c)
    ensures c !in w
  {
  }

  /** `get_sort_key` and `normalize_weight` test the printed label with `"-" in s` and
      `"Above" in s`; on well-formed labels these tests pick out exactly the range and
      the "Above" constructors, so dispatching on the constructor is the same decision. */
  lemma RenderDispatch(l: Label)
    requires WellFormedLabel(l)
    ensures '-' in Render(l) <==> l.Range?
    ensures Contains(Render(l), "Above") <==> l.Above?
  {
    var s := Render(l);
    match l
    case Range(lo, hi) =>
      assert s[|lo|] == '-';
      assert 'A' !in s;
      NotContainsChar(s, "Above", 'A');
    case Above(n) =>
      assert s[0..5] == "Above";
      assert OccursAt(s, "Above", 0);
      ContainsIff(s, "Above");
      assert '-' !in s;
    case Weight(w) =>
      NoCharInWeight(w, '-');
      NoCharInWeight(w, 'A');
      assert '-' !in s && 'A' !in s;
      NotContainsChar(s, "Above", 'A');
    case OrMore(n) =>
      assert '-' !in s && 'A' !in s;
      NotContainsChar(s, "Above", 'A');
    case Envelope =>
      assert '-' !in s && 'A' !in s;
      NotContainsChar(s, "Above", 'A');
    case MinRate =>
      assert '-' !in s && 'A' !in s;
      NotContainsChar(s, "Above", 'A');
  }

  /** Normalising twice is normalising once. */
  lemma NormalizeIdempotent(l: Label)
    ensures NormalizeLabel(NormalizeLabel(l)) == NormalizeLabel(l)
  {
    if l.Weight? && IsDecimal(l.w) {
      CanonParts(l.w);
      CanonIdempotent(l.w);
    }
  }

  /** Normalising a label does not move it in the sort order. */
  lemma NormalizeKeepsSortKey(l: Label)
    ensures SortKey(NormalizeLabel(l)) == SortKey(l)
  {
    if l.Weight? && IsDecimal(l.w) {
      CanonValue(l.w);
    }
  }
}
