# UPS rate-guide extractor, manual (regex) path

This project models the regex-based extractor that reads the export rate tables of a
UPS tariff guide from the text of its PDF, and it proves properties of that model.
The extractor is `app/services/manual_extractor.py`. Six services are read:

- Express and Express Plus, which share one table;
- Express Saver;
- Expedited, which has no envelope row;
- Express Freight and Express Freight Midday.

For each service the result is a table with three lists of priced rows:

- `envelopes`;
- `documents`;
- `non_documents`.

Each row has a weight label, an optional `per_kg` pricing type, and one price per zone.

The **standard services** (`extract_rate_table`) work as follows:

- The section is a 20000-character window starting at the service heading.
- The window's zone header decides whether there are 9 or 10 zones.
- The envelope row is read once, and only for services that have one.
- Document rows are read in encounter order.
- Non-document rows are collected from three sources:
  - single weights up to 20 kg that are not the upper end of a range;
  - ranges;
  - one "Above N kg" row.
- Those rows are stably sorted by `get_sort_key`, then deduplicated by their normalised
  label. The first occurrence of each label is kept.

The **freight services** (`extract_freight_rates`) work as follows:

- The section runs from the heading to the next "UPS Worldwide".
- Each table has 9 zones.
- The table holds a "Min rate" row, then weight bands, then "N kg or more" rows.
- The label of a band or an "or more" row is on one line. Its "Price per kg" list is on
  one of the next two lines.

Modules, in dependency order:

- `Text`: `str.find`, slicing, `split('\n')`, digit strings and `.replace(',', '')`.
- `Weights`: Python's `float()` of a `[\d.]+` label, and the `f"{val}"` / `f"{int(val)}"`
  respelling of a label in `normalize_weight`.
- `Patterns`: one matcher per regular expression of the module, plus `re.search` (leftmost
  match), `re.finditer` (successive non-overlapping matches) and `re.findall`.
- `Rates`: rows, labels, the `Result` of a computation that can raise `ValueError`,
  `get_sort_key` and `normalize_weight`.
- `Ordering`: Python's stable `list.sort(key=...)` as an insertion sort that is proved to
  be the unique stable sort, and the dedup loop.
- `Standard` and `StandardFacts`: `extract_rate_table` and its properties.
- `Freight` and `FreightFacts`: `extract_freight_rates` and its properties.
- `Dispatch` and `DispatchFacts`: `extract_all_services_manual` and its properties.
- `Samples`: concrete values that appear in the source's comments and sample data.

Each loop of the source is a method with loop invariants. Its `ensures` ties the result to
a specification function, and the properties are proved as lemmas about that function.

## Model

| member | source | states |
|---|---|---|
| Text.Find | app/services/manual_extractor.py:12 | `str.find`: -1 exactly when the pattern occurs nowhere at or after `from`. Otherwise the first occurrence at or after `from`. |
| Text.ContainsIff | app/services/manual_extractor.py:28 | Python's `in` on strings holds exactly when the pattern occurs at some index. |
| Text.Slice | app/services/manual_extractor.py:18 | Python's `s[a:b]` clamps to the string. When `a < len` and `a < b`, the result has `min(b, len) - a` characters. Otherwise it is empty. Its k-th character is `s[a + k]`. |
| Text.LineEnd | app/services/manual_extractor.py:248 | `find('\n', start)`, falling back to `len`: no newline before the end, and a newline at the end unless the end is the end of the text. |
| Text.SplitLines | app/services/manual_extractor.py:248 | `split('\n')` yields at least one line, and no line contains a newline. |
| Text.SplitLinesJoin | app/services/manual_extractor.py:248 | Joining the lines of `split('\n')` with newlines gives back the section. |
| Text.RemoveCommas | app/services/manual_extractor.py:40 | `.replace(',', '')` leaves no comma and keeps every other character. |
| Text.RemoveCommasAppend | app/services/manual_extractor.py:40 | Removing commas from two pieces of text put together is removing them from each piece, so the kept characters stay in their order, each as often as it occurs. |
| Text.RemoveCommasDigits | app/services/manual_extractor.py:40 | A token with no comma is unchanged by the replace. |
| Weights.FirstDot | app/services/manual_extractor.py:105 | Locates the decimal point of a `[\d.]+` label: no point before it, and a point at it when it is inside the label. |
| Weights.CanonParts | app/services/manual_extractor.py:174-180 | The respelled label is still a decimal. Its integer part has no leading zeros and its fraction has no trailing zeros. |
| Weights.CanonIdempotent | app/services/manual_extractor.py:174-180 | Respelling a respelled label changes nothing. |
| Weights.CanonValue | app/services/manual_extractor.py:174-180 | The respelled label has the same numeric value as the original. |
| Weights.FloorValue | app/services/manual_extractor.py:108 | `int(weight_val)` is the integer part of the label. |
| Weights.WholeIffNoPoint | app/services/manual_extractor.py:177-180 | `val == int(val)` holds exactly when the fraction digits are all zeros. |
| Patterns.MatchZoneHeader | app/services/manual_extractor.py:27 | A zone-header match starts where it was tried, ends inside the text and has no captured groups. |
| Patterns.MatchEnvelopeRow | app/services/manual_extractor.py:34-36 | An envelope match captures exactly `n` price tokens made of digits and commas. Each capture is the matched text at its place in the match (PatternFacts.MatchCaptures). |
| Patterns.MatchWeightRow | app/services/manual_extractor.py:49-51 | A weight-row match captures one `[\d.]+` weight and exactly `n` price tokens. Each capture is the matched text at its place in the match (PatternFacts.MatchCaptures). |
| Patterns.MatchRangeRow | app/services/manual_extractor.py:80-82 | A range-row match captures two digit groups and exactly `n` price tokens. Each capture is the matched text at its place in the match (PatternFacts.MatchCaptures). |
| Patterns.MatchAboveLabel | app/services/manual_extractor.py:131 | An "Above N kg" match captures one digit group. Each capture is the matched text at its place in the match (PatternFacts.MatchCaptures). |
| Patterns.MatchPriceToken | app/services/manual_extractor.py:141 | A `([\d,]+)` match captures one price token. Each capture is the matched text at its place in the match (PatternFacts.MatchCaptures). |
| Patterns.MatchMinRateRow | app/services/manual_extractor.py:229 | A "Min rate" match captures exactly 9 price tokens. Each capture is the matched text at its place in the match (PatternFacts.MatchCaptures). |
| Patterns.MatchRangeLabel | app/services/manual_extractor.py:244 | A freight band label captures two digit groups. Each capture is the matched text at its place in the match (PatternFacts.MatchCaptures). |
| Patterns.MatchPricePerKgRow | app/services/manual_extractor.py:245 | A "Price per kg" match captures exactly 9 price tokens. Each capture is the matched text at its place in the match (PatternFacts.MatchCaptures). |
| Patterns.MatchOrMoreLabel | app/services/manual_extractor.py:271 | An "N kg or more" match captures one digit group. Each capture is the matched text at its place in the match (PatternFacts.MatchCaptures). |
| Patterns.MatchAt | app/services/manual_extractor.py:27 | A match tried at `p` starts at `p` and has the pattern's shape. |
| Patterns.FirstIndex | app/services/manual_extractor.py:258-267 | The first index at or after `from` that holds a match. No earlier index holds one. |
| Patterns.Search | app/services/manual_extractor.py:27 | `re.search` returns a match of the pattern's shape that starts at or after `from`. |
| Patterns.SearchIsLeftmost | app/services/manual_extractor.py:27 | The match `re.search` returns is the match that starts at its own start position. |
| Patterns.SearchNoEarlier | app/services/manual_extractor.py:27 | No match starts before the one `re.search` returns. |
| Patterns.SearchNoneNoMatch | app/services/manual_extractor.py:27 | When `re.search` finds nothing, the pattern matches at no position. |
| Patterns.FindAll | app/services/manual_extractor.py:64 | `re.finditer` yields matches in text order that do not overlap. It yields none exactly when `re.search` finds none. That it skips no match is stated by PatternFacts.FindAllFirst, FindAllNext and FindAllLast. |
| Patterns.FindAllHit | app/services/manual_extractor.py:64 | Each match `re.finditer` yields is the pattern's match at that match's start. |
| PatternFacts.FindAllFirst | app/services/manual_extractor.py:64 | The first match `re.finditer` yields is the match `re.search` finds. |
| PatternFacts.FindAllNext | app/services/manual_extractor.py:64 | Each later match is the match `re.search` finds from the end of the previous one, so no match is skipped. |
| PatternFacts.FindAllLast | app/services/manual_extractor.py:64 | `re.search` finds nothing after the end of the last match `re.finditer` yields. |
| PatternFacts.MatchCaptures | app/services/manual_extractor.py:36-38 | Every group of a match, labels first and prices after, is the text at some offset inside the matched span. The offsets increase and the groups do not overlap. |
| PatternFacts.PriceListCaptures | app/services/manual_extractor.py:38 | The `n` price tokens read after a label are pieces of the text after it, from left to right. |
| PatternFacts.PriceListTokens | app/services/manual_extractor.py:33-36 | Where the text holds price tokens, each after one space, and the next character cannot continue a token, the price list read there is exactly those tokens and ends after the last one. |
| PatternFacts.PriceListSpaced | app/services/manual_extractor.py:33-36 | The same, for tokens printed one after another, each after a single space. |
| PatternFacts.SearchEnvelopeLine | app/services/manual_extractor.py:33-36 | A line reading "Envelopes" and then `n` space-separated price tokens is matched by the `n`-price envelope pattern over the whole line, with those tokens as its captures. |
| Patterns.ZoneHeaderShape | app/services/manual_extractor.py:27 | A zone header is the nine columns, which contain no '0', optionally followed by a tenth column that ends in "10". |
| Patterns.ZoneSearchShape | app/services/manual_extractor.py:27 | The same shape holds for the header `re.search` finds. |
| Patterns.NoZeroNoTen | app/services/manual_extractor.py:28 | Text with no '0' neither contains "10" nor ends with it. |
| Patterns.TenIffEndsWithTen | app/services/manual_extractor.py:28 | For a header of that shape, `'10' in zone_header.group()` holds exactly when the header ends with "10". |
| Rates.PriceValue | app/services/manual_extractor.py:40 | `int(t.replace(',', ''))` raises `ValueError` exactly when the token is commas only. Otherwise it is the number the digits spell. |
| Rates.PriceValues | app/services/manual_extractor.py:40 | The price comprehension succeeds exactly when every token converts. The prices are then, in order, one per token. |
| Rates.PriceValuesOk | app/services/manual_extractor.py:40 | When each token converts to the matching entry of a list of numbers, the price comprehension yields that list. |
| Rates.NormalizeLabel | app/services/manual_extractor.py:169-182 | `normalize_weight` changes only single-weight labels, and these stay single weights. |
| Rates.NormalizeRow | app/services/manual_extractor.py:194 | Replacing the label keeps the pricing type and the prices. |
| Rates.RenderDispatch | app/services/manual_extractor.py:157-160 | On a printed label, `"-" in s` holds exactly for ranges and `"Above" in s` exactly for "Above" rows. Dispatching on the label's kind is therefore the source's test. |
| Rates.NormalizeIdempotent | app/services/manual_extractor.py:169-182 | Normalising a normalised label changes nothing. |
| Rates.NormalizeKeepsSortKey | app/services/manual_extractor.py:154-182 | Normalising a label does not change its `get_sort_key`. |
| Ordering.WithKey | app/services/manual_extractor.py:166 | The rows with a given key are at most as many as the rows. Their contents are stated by Ordering.WithKeyFilter. |
| Ordering.WithKeyFilter | app/services/manual_extractor.py:166 | Every row picked for a key has that key. Each row with the key is picked as often as it occurs, and no other row is picked. |
| Ordering.Insert | app/services/manual_extractor.py:166 | Inserting one row into the sorted prefix adds exactly one row. |
| Ordering.InsertionSort | app/services/manual_extractor.py:166 | Sorting keeps the number of rows. |
| Ordering.InsertMultiset | app/services/manual_extractor.py:166 | Insertion adds the row and loses nothing. |
| Ordering.InsertionSortPermutes | app/services/manual_extractor.py:166 | The sorted list is a permutation of the collected rows. |
| Ordering.InsertSorted | app/services/manual_extractor.py:166 | Inserting into a sorted list keeps it sorted by key. |
| Ordering.InsertStable | app/services/manual_extractor.py:166 | Insertion puts the new row after every row with the same key. |
| Ordering.InsertionSortIsStable | app/services/manual_extractor.py:166 | The result is sorted by `get_sort_key`. It is a permutation, and rows with equal keys keep their original order, as in Python's stable `list.sort`. |
| Ordering.SortedAgreeingEqual | app/services/manual_extractor.py:166 | Two sorted lists that hold the same rows for each key are equal. |
| Ordering.StableSortUnique | app/services/manual_extractor.py:166 | Any stable sort of the rows is this one, so the model agrees with Python's sort whatever algorithm that uses. |
| Ordering.InsertAt | app/services/manual_extractor.py:166 | Insertion places the row just before the first row with a larger key. |
| Ordering.SortBy | app/services/manual_extractor.py:166 | `result["non_documents"].sort(key=get_sort_key)`, by a loop that builds the stable sort. |
| Ordering.DedupRows | app/services/manual_extractor.py:184-196 | The dedup loop computes the dedup of the sorted rows. |
| Ordering.DedupFromKeys | app/services/manual_extractor.py:184-196 | No kept label is in `seen_weights` when it is kept, and no two kept labels are equal. |
| Ordering.DedupDistinct | app/services/manual_extractor.py:184-196 | After dedup, no two non-document rows carry the same label. |
| Ordering.DedupFromOrigin | app/services/manual_extractor.py:184-196 | Every kept row is the normalised form of an input row that is the first with its normalised label. |
| Ordering.DedupOnlyFirsts | app/services/manual_extractor.py:184-196 | Only first occurrences survive: each kept row comes from the first row with its normalised label. |
| Ordering.DedupFromKeepsFirst | app/services/manual_extractor.py:184-196 | A row that is the first with its normalised label, and whose label is not yet in `seen_weights`, is kept. |
| Ordering.DedupKeepsFirst | app/services/manual_extractor.py:184-196 | Every first occurrence is kept, in normalised form. |
| Ordering.DedupNormalized | app/services/manual_extractor.py:194 | Every kept label is already normalised. |
| Ordering.DedupFromSorted | app/services/manual_extractor.py:184-196 | Dropping rows from a sorted list keeps it sorted. |
| Ordering.DedupSorted | app/services/manual_extractor.py:166-196 | The deduplicated list is still sorted by `get_sort_key`. |
| Ordering.FirstOfItsWeightShift | app/services/manual_extractor.py:184-196 | Past the first row, a row is the first with its label exactly when it is so in the rest of the list and its label differs from the first row's. |
| Ordering.KeptFrom | app/services/manual_extractor.py:184-196 | The positions the dedup loop keeps lie inside the list and increase. |
| Ordering.DedupFromAtKept | app/services/manual_extractor.py:184-196 | The dedup result is the normalised rows at those positions, in the same order. |
| Ordering.KeptFromMembers | app/services/manual_extractor.py:184-196 | A position is kept exactly when its row is the first with its normalised label and that label is not yet in `seen_weights`. |
| Ordering.DedupKeepsOrder | app/services/manual_extractor.py:184-196 | Dedup keeps the input order. Its result is the first row of each normalised label, normalised, taken at strictly increasing positions. Every such first row is among them. |
| Standard.Gather | app/services/manual_extractor.py:64-71 | The accumulated rows exist exactly when no iteration raised `ValueError`. |
| Standard.GatherMembers | app/services/manual_extractor.py:64-71 | A row is in the result exactly when some iteration produced it. |
| Standard.GatherSingletons | app/services/manual_extractor.py:64-71 | When every iteration appends one row, the i-th row is that of the i-th iteration. |
| Standard.Adding | app/services/manual_extractor.py:250-285 | The iterations that append a row, listed in increasing order. |
| Standard.AddingMembers | app/services/manual_extractor.py:250-285 | An iteration is listed exactly when it appends a row. |
| Standard.GatherAtMostOne | app/services/manual_extractor.py:250-285 | When each iteration appends at most one row, the rows are those of the appending iterations, one each, in iteration order. |
| Standard.ZoneCount | app/services/manual_extractor.py:27-28 | `num_zones` is 9 or 10. |
| Standard.EnvelopeRows | app/services/manual_extractor.py:32-45 | There is at most one envelope row. It is labelled "Envelope", has fixed pricing, and holds the prices of the first envelope match. A window with no envelope match yields none. StandardFacts.EnvelopeFromFirstMatch states both directions. |
| Standard.AboveRow | app/services/manual_extractor.py:139-151 | The "Above" line yields at most one row. That row is labelled "Above N kg", priced per kg, with `num_zones` prices. |
| Standard.AboveRows | app/services/manual_extractor.py:131-151 | The non-document text yields at most one "Above" row, priced per kg, with `num_zones` prices. Where the row comes from is stated by StandardFacts.AboveRowsOrigin. |
| Standard.LineTokens | app/services/manual_extractor.py:141 | Every token `re.findall(r'([\d,]+)', line)` returns is a price token. |
| Standard.CollectDocuments | app/services/manual_extractor.py:64-71 | The document loop gathers one row per weight match, stopping at the first `ValueError`. |
| Standard.CollectRanges | app/services/manual_extractor.py:84-95 | The range loop computes the specified range rows: the loop's result is the rows of all iterations, or `ValueError` when one raises. StandardFacts.RangesInEncounterOrder gives one row per match, in order. |
| Standard.EndpointSet | app/services/manual_extractor.py:99-101 | `range_endpoints` is the set of upper ends of the ranges. |
| Standard.CollectSingles | app/services/manual_extractor.py:103-122 | The single-weight loop computes the specified single-weight rows, or `ValueError` when `float()` or a price conversion raises. Which matches give rows is stated by StandardFacts.SinglesAreKept. |
| Standard.CollectNonDocuments | app/services/manual_extractor.py:74-151 | The non-document block collects single weights, then ranges, then the "Above" row. |
| Standard.ExtractDocuments | app/services/manual_extractor.py:53-71 | `result["documents"]`: no rows when "Documents" is absent, otherwise the rows of `doc_text`. |
| Standard.ExtractNonDocuments | app/services/manual_extractor.py:73-151 | The unsorted `result["non_documents"]`: no rows when "Non-Documents" is absent, otherwise the rows of the 12000-character `non_doc_text`. |
| Standard.ExtractSection | app/services/manual_extractor.py:17-198 | The table read from the window: envelopes, documents, and the sorted and deduplicated non-documents. |
| Standard.ExtractRateTable | app/services/manual_extractor.py:8-198 | `extract_rate_table`, step by step. |
| StandardFacts.MissingMarker | app/services/manual_extractor.py:12-15 | A heading absent from the text gives the empty table, never an error. |
| StandardFacts.NoEnvelopeTable | app/services/manual_extractor.py:32 | With `has_envelope=False` the table has no envelopes. |
| StandardFacts.ZoneCountTen | app/services/manual_extractor.py:27-28 | The table has 10 zones exactly when the header `re.search` finds ends with the column "10". |
| StandardFacts.HeaderZonesTen | app/services/manual_extractor.py:28 | The same fact stated for the decision on a header of the proved shape. |
| StandardFacts.ZoneCountNoHeader | app/services/manual_extractor.py:28 | A window with no zone header has 9 zones. |
| StandardFacts.EnvelopeFacts | app/services/manual_extractor.py:31-45 | There is at most one envelope row. It is labelled "Envelope", has fixed pricing and `num_zones` prices. There is none without `has_envelope`. |
| StandardFacts.DocumentsInEncounterOrder | app/services/manual_extractor.py:64-71 | Document rows are the weight matches of `doc_text` one to one, in text order and not re-sorted. Each row has the raw weight label, fixed pricing and the converted prices of its match. |
| StandardFacts.EnvelopeFromFirstMatch | app/services/manual_extractor.py:36-45 | The envelope list is decided by the first envelope match alone. Without one it is empty. With one it is a single fixed-price "Envelope" row of that match's prices when they all convert, and `ValueError` otherwise. |
| StandardFacts.RangesInEncounterOrder | app/services/manual_extractor.py:84-95 | The range rows are the range matches one to one, in text order. Each is labelled with the two bounds as printed, priced per kg, with the converted prices of its match. |
| StandardFacts.KeptSinglesMembers | app/services/manual_extractor.py:103-122 | A weight match gives a single-weight row exactly when its label is a decimal, its integer part is no range endpoint and its value is at most 20. |
| StandardFacts.SinglesAreKept | app/services/manual_extractor.py:103-122 | The single-weight rows are the kept matches one to one, in text order. Each is labelled as printed, with fixed pricing and the converted prices of its match. |
| StandardFacts.SingleRowsKept | app/services/manual_extractor.py:103-122 | The same for the weight matches of `non_doc_text`. |
| StandardFacts.AboveRowValues | app/services/manual_extractor.py:139-151 | A line with fewer than `num_zones` tokens gives no "Above" row. Otherwise it gives one per-kg row labelled with the threshold, whose zones are the last `num_zones` tokens converted in order, or `ValueError` when one of them does not convert. |
| StandardFacts.AboveRowsOrigin | app/services/manual_extractor.py:131-151 | Without an "Above N kg" label there is no "Above" row. Otherwise the row is the one StandardFacts.AboveRowValues describes, for the line of the first label and the captured `N`. |
| StandardFacts.TableDocuments | app/services/manual_extractor.py:53-71 | The table's documents are empty without "Documents", otherwise exactly the rows of `doc_text`. |
| StandardFacts.RangeStepShape | app/services/manual_extractor.py:84-95 | A range match gives a range row, priced per kg, with `num_zones` prices. |
| StandardFacts.RangeRowsShape | app/services/manual_extractor.py:84-95 | Every collected range row is a range, priced per kg, with `num_zones` prices. |
| StandardFacts.SingleStepShape | app/services/manual_extractor.py:103-122 | A kept single weight has fixed pricing and a value of at most 20. Its integer part is not a range endpoint. |
| StandardFacts.SingleRowsShape | app/services/manual_extractor.py:103-122 | The same holds for every collected single weight. |
| StandardFacts.ConcatenationShape | app/services/manual_extractor.py:122-151 | Singles, then ranges, then at most one "Above" row: every row is well shaped. No single weight sits on a range endpoint, and there is at most one "Above" row. |
| StandardFacts.CollectedShape | app/services/manual_extractor.py:74-151 | The unsorted non-document rows have those properties. |
| StandardFacts.FinalRowOrigin | app/services/manual_extractor.py:166-196 | Every final non-document row is the normalised form of a collected row. |
| StandardFacts.NormalizeKeepsShape | app/services/manual_extractor.py:169-182 | Normalising keeps a row's shape and the value of a single weight. |
| StandardFacts.FinalOrigins | app/services/manual_extractor.py:166-196 | All final rows come from collected rows by normalisation. |
| StandardFacts.NormalizedOffEndpoint | app/services/manual_extractor.py:108 | A single weight off a range endpoint stays off it after normalisation. |
| StandardFacts.NormalizedShape | app/services/manual_extractor.py:166-196 | Rows drawn from the collected rows by normalisation keep the shape, endpoint and single-"Above" properties. |
| StandardFacts.AboveLast | app/services/manual_extractor.py:154-166 | In the sorted, distinct rows, the "Above" row is the last row, provided every range starts below 10000. |
| StandardFacts.FinalFacts | app/services/manual_extractor.py:166-196 | Sorting and dedup give well-shaped rows that are sorted by `get_sort_key`, have distinct, normalised labels and at most one "Above" row. That row is last when ranges start below 10000. |
| StandardFacts.NonDocumentsFacts | app/services/manual_extractor.py:73-196 | The same facts for the table's `non_documents`, which are empty without "Non-Documents". |
| StandardFacts.DigitTokenValue | app/services/manual_extractor.py:143 | A digit token converts to the number it spells. |
| StandardFacts.AboveFullLine | app/services/manual_extractor.py:141-151 | When the "Above" line holds the threshold and `num_zones` prices, the row takes those prices. |
| StandardFacts.AboveShortLine | app/services/manual_extractor.py:141-151 | When the line holds one price fewer, the last `num_zones` tokens are used, so the threshold becomes the first price. |
| Freight.FreightSection | app/services/manual_extractor.py:208-214 | The section is the text from the heading on. It ends at the next "UPS Worldwide" after the heading when there is one. Otherwise it holds 3000 characters, or fewer at the end of the text. No "UPS Worldwide" starts inside it after the heading. |
| Freight.MinRateRows | app/services/manual_extractor.py:228-237 | Without a "Min rate" match there is no row. With one, there is exactly one per-kg "Min rate" row holding that match's 9 converted prices, or `ValueError` when a price does not convert. |
| Freight.LookAheadEnd | app/services/manual_extractor.py:258 | `min(i + 3, len(lines))` lies strictly after line `i`, at most three lines on. It is either `i + 3` or the number of lines. |
| Freight.PriceLineAfter | app/services/manual_extractor.py:257-267 | The price line found after a label is a "Price per kg" match with 9 prices. |
| Freight.BandStep | app/services/manual_extractor.py:250-267 | A line gives at most one band row: a range, priced per kg, with 9 prices. FreightFacts.BandStepOutcome states when a row is given, and which one. |
| Freight.OrMoreStep | app/services/manual_extractor.py:270-285 | A line gives at most one "or more" row, priced per kg, with 9 prices. FreightFacts.OrMoreStepOutcome states when a row is given, and which one. |
| Freight.FindPriceLine | app/services/manual_extractor.py:258-267 | The inner `for j` loop with its `break` finds the specified price line. |
| Freight.BandAt | app/services/manual_extractor.py:252-267 | One iteration of the band loop. |
| Freight.OrMoreAt | app/services/manual_extractor.py:271-285 | One iteration of the "or more" loop. |
| Freight.CollectBands | app/services/manual_extractor.py:250-267 | The band loop computes the gathered band steps. FreightFacts.BandsInLineOrder gives their content and order. |
| Freight.CollectOrMore | app/services/manual_extractor.py:270-285 | The "or more" loop computes the gathered "or more" steps. FreightFacts.OrMoreInLineOrder gives their content and order. |
| Freight.ExtractFreightRates | app/services/manual_extractor.py:200-287 | `extract_freight_rates`, step by step. |
| FreightFacts.FreightMissingMarker | app/services/manual_extractor.py:203-206 | A heading absent from the text gives the empty table. |
| FreightFacts.PriceLineIsFirst | app/services/manual_extractor.py:257-267 | The price line is the first of the (at most two) lines after the label that matches. No line in between matches. Nothing is found exactly when neither of those lines matches. |
| FreightFacts.BandsShape | app/services/manual_extractor.py:250-267 | Every band row is a range, priced per kg, with 9 prices. |
| FreightFacts.OrMoreShape | app/services/manual_extractor.py:270-285 | Every "or more" row is priced per kg and has 9 prices. |
| FreightFacts.FreightConcatenation | app/services/manual_extractor.py:231-285 | "Min rate", then bands, then "or more": the kinds never go backwards, and "Min rate" can only be first. |
| FreightFacts.FreightTableFacts | app/services/manual_extractor.py:200-287 | A freight table has no envelopes and no documents. Every row is priced per kg with 9 prices, in the order "Min rate" → bands → "or more", and "Min rate" can only be first. |
| FreightFacts.BandOrigin | app/services/manual_extractor.py:250-267 | Every band row comes from a line whose band label it carries. Its prices are those of that line's price line. |
| FreightFacts.OrMoreOrigin | app/services/manual_extractor.py:270-285 | Every "or more" row comes from a line whose "N kg or more" label it carries. Its prices are those of that line's price line. |
| FreightFacts.BandStepOutcome | app/services/manual_extractor.py:250-267 | A band iteration that does not raise appends a row exactly when its line has a band label and a price line follows. That row is the band as printed, per kg, with the price line's converted prices. |
| FreightFacts.BandsInLineOrder | app/services/manual_extractor.py:250-267 | The band rows are one row for each line with a band label and a following price line, and no others. They come in line order, each the band as printed with its price line's converted prices. |
| FreightFacts.OrMoreStepOutcome | app/services/manual_extractor.py:270-285 | An "or more" iteration that does not raise appends a row exactly when its line has an "N kg or more" label and a price line follows. That row is the weight as printed, per kg, with the price line's converted prices. |
| FreightFacts.OrMoreInLineOrder | app/services/manual_extractor.py:270-285 | The "or more" rows are one row for each line with an "N kg or more" label and a following price line, and no others. They come in line order, each with its price line's converted prices. |
| Dispatch.AllServices | app/services/manual_extractor.py:344-394 | The result exists exactly when none of the five distinct extractions raises. It has exactly the six service keys. Each key holds the table of its own call: `extract_rate_table` on its heading, with envelopes for Express, Express Plus and Express Saver and none for Expedited; `extract_freight_rates` on the two freight headings. Express Plus repeats the Express call. |
| Dispatch.Services | app/services/manual_extractor.py:349-384 | The `services` dictionary has the six keys, each holding its own table. |
| Dispatch.ExtractAllServices | app/services/manual_extractor.py:344-394 | `extract_all_services_manual`, one extraction after another. |
| DispatchFacts.ExpeditedHasNoEnvelopes | app/services/manual_extractor.py:368-373 | Expedited never has envelope rows. |
| DispatchFacts.FreightServices | app/services/manual_extractor.py:374-383 | Both freight services have no envelopes and no documents. All their rows are priced per kg with 9 prices: "Min rate" first, then the bands, then "or more". |
| DispatchFacts.NoHeadings | app/services/manual_extractor.py:349-384 | Text containing none of the headings gives six empty tables and no error. |
| DispatchFacts.FreightHeadingIsPrefix | app/services/manual_extractor.py:374-383 | Whenever the Midday heading occurs, the Express Freight heading is found at or before it. This is because the Express Freight heading is a prefix of the Midday one. |
| Samples.EnvelopeFirstPrice | test_envelope_extraction.py:11 | The sample envelope price "3,489" converts to 3489. |
| Samples.EnvelopeSampleTokens | test_envelope_extraction.py:11 | The nine sample envelope prices are price tokens and convert to 3489, 3657, 4373, 4092, 4187, 4823, 5071, 5913 and 4121. |
| Samples.EnvelopeSampleMatch | test_envelope_extraction.py:11 | The sample envelope line is matched, from its start to its end, by the 9-zone envelope pattern, with the nine prices as captures. |
| Samples.EnvelopeSampleRow | test_envelope_extraction.py:11 | Read with 9 zones, the sample envelope line gives exactly one fixed-price "Envelope" row with the prices 3489, 3657, 4373, 4092, 4187, 4823, 5071, 5913 and 4121. |
| Samples.NormalizeWholeSample | app/services/manual_extractor.py:170 | `normalize_weight` turns "1.0 kg" into "1 kg". |
| Samples.CanonFractionSample | app/services/manual_extractor.py:176 | The respelling of "1.50" is "1.5". |
| Samples.NormalizeFractionSample | app/services/manual_extractor.py:176 | `normalize_weight` turns "1.50 kg" into "1.5 kg". |

## Left out

- Printing is not modelled: the progress and summary messages (lines 14, 29, 205, 347, 386-392) are output only. The `service_name` parameter is used only in those messages and is not modelled.
- The code after the `return` at line 287 (lines 289-342) can never run and is not modelled.
- Zones are modelled as a sequence: `zones[i]` is the `zone_{i+1}` entry of the `zones` dictionary.
- The helper keys `start_val`, `end_val` and `weight_val` are not modelled. The source removes them before returning, except `weight_val` on a non-document row that dedup drops, and dropped rows are not returned.
- Python floats are modelled as exact decimals (`real`). For labels of at most 15 significant digits, `float()` keeps the order and the integer part of every label. The `<= 20` test, the endpoint test, the sort keys and the dedup decide as with exact values. A longer label can round in `float()` and change the `<= 20`, endpoint and dedup decisions. That rounding is not modelled, and neither is `repr` switching to exponent notation for very long or very small values.
- Rates.NormalizeLabel: the respelling is Python's `f"{val}"` for labels whose value prints in positional notation. Exponent notation is not modelled.
- `\d` and `\s` are modelled as ASCII digits and ASCII whitespace. Python's Unicode classes also accept other digits and spaces.
- `ValueError` is modelled as a `Result` value that ends the extraction. In the source it is raised, for example by `float('1.2.3')` or by `int(',')`.
- Patterns.MatchAt: matching is modelled by hand-written matchers, one per regular expression, with greedy quantifiers. The general regular-expression engine is not modelled.
- The PDF reading, AI extraction, database and HTTP parts of the repository are not part of this model.

Where a comment in the source promises more than the code does, the model follows the code:

- The comment on line 161 says the "Above X kg" row is put at the end. Its sort key is the constant 10000, while a range sorts by its lower bound. The row is therefore last only when the ranges start below 10000 (StandardFacts.AboveLast, StandardFacts.FinalFacts). A range starting above 10000 kg sorts after it.
- The comment on line 168 describes the deduplication, which covers only `non_documents`. Document rows are kept raw, repeated labels included (StandardFacts.DocumentsInEncounterOrder).
- `section.find('Documents')` also matches the word inside "Non-Documents". When that comes first, `doc_text` is empty, and the model keeps this (Standard.DocumentsText).
- When the "Above" line has fewer than `num_zones + 1` numbers, the code still takes the last `num_zones` numbers. If the line has exactly `num_zones` numbers, the threshold itself becomes the zone 1 price (StandardFacts.AboveShortLine).
- The Express Freight heading is a prefix of the Express Freight Midday heading. Both freight services can therefore start at the same place in the text (DispatchFacts.FreightHeadingIsPrefix).
