# Skip-hire selector: a verified model of its data pipeline

The skip-hire selector is one React page component. It fetches a list of
skip records for a postcode and turns each raw record into a card view
model:
- a VAT-inclusive price and a VAT amount, each rounded to whole pounds;
- a capacity descriptor taken from a fixed nine-entry table;
- a size label, a hire-period label and an image URL.

The page shows the cards filtered by two check boxes ("Road legal only",
"Heavy waste suitable") and sorted by a "Sort by" select (price, or size for
any other value). A click selects one card. Whenever the full list, a flag
or the sort key changes, the displayed list is recomputed from scratch.

This project models that pipeline and its view-state, and proves the
properties the page relies on.

| file | module | what it models |
|---|---|---|
| `options.dfy` | `Options` | the optional value used for absent fields and failed parses |
| `decimal.dfy` | `Decimal` | how a template literal renders an integer (`${n}`), with a parser that inverts it |
| `pricing.dfy` | `Pricing` | `Math.round` of the VAT-inclusive price and of the VAT amount, on exact rationals |
| `capacity.dfy` | `Capacity` | the capacity table and its default entry |
| `records.dfy` | `Records` | the raw API record, the card view model, the per-record transform and the transform of the whole array |
| `filter_sort.dfy` | `FilterSort` | the filter/sort effect: a reference definition (`Displayed`) and the imperative engine (`FilterAndSort`, which sorts in place on an array) |
| `selector.dfy` | `Selector` | the component's state as a class whose invariant is that the displayed list equals `Displayed` of the full list and the settings; the handlers are its methods |

Prices are whole pounds held as integers. `Math.round(x)` is half-up
rounding, i.e. floor(x + 1/2). For a price `p` and a VAT rate `v` this gives:
- final price: `(p * (100 + v) + 50) / 100`;
- VAT amount: `(p * v + 50) / 100`.

Both divisions are floor divisions.

In exact arithmetic on whole-pound prices, the two independently rounded
figures always agree: the final price is exactly the pre-VAT price plus the
VAT amount (`Pricing.FinalPriceIsPricePlusVat`). The reason is that
`p * (100 + v) = 100 * p + p * v`. A mismatch between the two can therefore
only come from the binary floating-point evaluation of either formula (lines
29 and 31), which the model leaves out (see below), or from a price with
pence. For example, 50 at 29% is exactly 14.5 of VAT, but
`50 * (29 / 100)` in doubles lands just below 14.5 and rounds to 14, while the
final price rounds to 65.

`Array.prototype.sort` must be stable (section 23.1.3.30 of ECMA-262, 2024
edition). The model therefore specifies the sort by a stable insertion sort,
`FilterSort.StableSorted`, and proves three things:
- it is sorted;
- it is a permutation of its input;
- it keeps every group of equal keys in input order.

It also proves that any sorted arrangement that keeps equal keys in order
IS `StableSorted` (`FilterSort.StableSortIsUnique`). So the specification
fixes the result of every conforming stable sort, not only of insertion sort.

## Model

| member | source | states |
|---|---|---|
| Decimal.IntStringRoundTrip | src/SkipHireSelector.js:54-60 | reading back the decimal text that `${n}` produces for an integer gives that integer again |
| Decimal.IntStringInjective | src/SkipHireSelector.js:54-60 | two integers render to the same decimal text exactly when they are equal |
| Pricing.RoundHundredths | src/SkipHireSelector.js:29-31 | `Math.round(n / 100)`: the result r is the one integer with 100r - 50 <= n < 100r + 50 (half-up) |
| Pricing.FinalPrice | src/SkipHireSelector.js:29 | the final price is the pre-VAT price times (1 + vat/100), rounded half-up to a whole number |
| Pricing.VatAmount | src/SkipHireSelector.js:31 | the VAT amount is the pre-VAT price times vat/100, rounded half-up to a whole number, independently of the final price |
| Pricing.FinalPriceIsPricePlusVat | src/SkipHireSelector.js:29-31 | with exact arithmetic and a whole-pound price, the separately rounded final price equals the pre-VAT price plus the separately rounded VAT amount |
| Pricing.PricesNonNegative | src/SkipHireSelector.js:29-31 | a non-negative price and rate give a non-negative VAT amount and a final price no lower than the pre-VAT price |
| Pricing.TwoHundredAtTwentyPercent | src/SkipHireSelector.js:29-31 | 200 at 20% gives a final price of 240 and a VAT amount of 40 |
| Capacity.Lookup | src/SkipHireSelector.js:34-47 | the lookup is total: a size in {4, 6, 8, 10, 12, 14, 16, 20, 40} gets its table entry, and every other size gets the "N/A" / "Various projects" default, and only those sizes do |
| Capacity.TableSizes | src/SkipHireSelector.js:35-45 | the table has exactly nine entries, keyed by exactly the known sizes |
| Capacity.LookupExamples | src/SkipHireSelector.js:37-46 | size 8 gives "60-65"/"Large house clearance", size 6 gives "45-50"/"Kitchen renovation", size 25 gives the default |
| Records.Transform | src/SkipHireSelector.js:49-69 | id, size, hire period, road-legal and heavy-waste flags, VAT rate and the optional costs are copied unchanged; the numeric price is `Pricing.FinalPrice` of the pre-VAT price and rate; the capacity is the table lookup of the size; there are no restrictions |
| Records.TransformAll | src/SkipHireSelector.js:28 | the mapped array has one card per raw record |
| Records.TransformAllAt | src/SkipHireSelector.js:28-70 | the transform keeps order: the i-th card is the transform of the i-th raw record |
| Records.LabelsRoundTrip | src/SkipHireSelector.js:54-60 | the size label is the size followed by " Yards" and reads back to the size; the price, pre-VAT and VAT labels are "£" followed by their amount and read back to it; the numeric price is the pre-VAT price plus the VAT amount |
| Records.PeriodLabelRoundTrip | src/SkipHireSelector.js:55 | the hire-period label is the number of days followed by " day hire period" and reads back to that number |
| Records.PriceLabelRoundTrip | src/SkipHireSelector.js:57-60 | a "£" label reads back to the amount it was built from |
| Records.ImageDeterminedBySize | src/SkipHireSelector.js:64 | two records get the same image URL exactly when they have the same size |
| Records.SixYardExample | src/SkipHireSelector.js:28-70 | a 6-yard, 14-day skip at 200 with 20% VAT becomes the card "6 Yards", "14 day hire period", "£240", 240, "£200", "£40", with the 6-yard capacity entry |
| FilterSort.FilterFlags | src/SkipHireSelector.js:89-95 | filtering never lengthens the list |
| FilterSort.FilterMembers | src/SkipHireSelector.js:89-95 | a record is in the filtered list exactly when it is in the input and passes every active flag |
| FilterSort.FilterCompose | src/SkipHireSelector.js:89-95 | filtering by one set of flags and then another is filtering once by the union of the two |
| FilterSort.FilteredIsConjunction | src/SkipHireSelector.js:87-95 | the two successive conditional filters keep exactly the records that pass both active flags, in order |
| FilterSort.FilterNothing | src/SkipHireSelector.js:87 | with no flag active the copy is the full list, in order |
| FilterSort.FilterIdempotent | src/SkipHireSelector.js:89-95 | applying the same flags twice is applying them once |
| FilterSort.FilterOrderIrrelevant | src/SkipHireSelector.js:89-95 | the heavy-waste filter then the road-legal filter gives the same list as the order the page uses |
| FilterSort.StableSorted | src/SkipHireSelector.js:98-102 | the reference sort is ascending by the key and keeps the length |
| FilterSort.StableSortedPermutes | src/SkipHireSelector.js:98-102 | the reference sort is a permutation of its input |
| FilterSort.StableSortedIsStable | src/SkipHireSelector.js:98-102 | the reference sort keeps the records of every key in input order |
| FilterSort.SortedIsFixedPoint | src/SkipHireSelector.js:98-102 | sorting an already sorted list leaves it unchanged |
| FilterSort.SortedStableUnique | src/SkipHireSelector.js:98-102 | two sorted lists with the same records, in the same order within each key, are equal |
| FilterSort.StableSortIsUnique | src/SkipHireSelector.js:98-102 | any sorted arrangement that keeps equal keys in input order is the reference sort |
| FilterSort.SortInPlace | src/SkipHireSelector.js:99-101 | the in-place sort leaves the array holding the stable sort of its old contents |
| FilterSort.InsertNext | src/SkipHireSelector.js:99-101 | one insertion step moves the next element into its place in the sorted prefix, after every element with an equal key, and leaves the rest of the array alone |
| FilterSort.ShiftGreater | src/SkipHireSelector.js:99-101 | the shifting loop of an insertion step moves the run of records just left of position i whose keys all exceed x's one place right, stopping at the first record whose key does not (or at the start), and leaves the rest of the array alone |
| FilterSort.FilterAndSort | src/SkipHireSelector.js:86-105 | the effect (copy, road filter if on, heavy filter if on, in-place sort by price for "price" and by size otherwise) yields exactly the displayed list |
| FilterSort.DisplayedContents | src/SkipHireSelector.js:87-95 | a record is displayed exactly when it is in the full list and passes every active flag; the display is a permutation of the filtered list, never longer than the full list, and with no flag a permutation of the full list |
| FilterSort.DisplayedMultiplicity | src/SkipHireSelector.js:87-95 | a record that passes the active flags is displayed exactly as many times as it occurs in the full list; any other record not at all |
| FilterSort.DisplayedSorted | src/SkipHireSelector.js:98-102 | the display is ascending by price when the key is "price" and by size for any other key |
| FilterSort.DisplayedStable | src/SkipHireSelector.js:89-102 | the displayed records with any one key are the full list's records with that key that pass the flags, in full-list order |
| FilterSort.DisplayedIsTheStableSort | src/SkipHireSelector.js:98-102 | any stable ascending sort of the filtered list gives the display |
| FilterSort.DisplayedIdempotent | src/SkipHireSelector.js:86-105 | running the effect on its own output with the same settings changes nothing |
| Selector.SkipHireSelector.constructor | src/SkipHireSelector.js:5-12 | on mount nothing is selected, both lists are empty, loading is on, no error, both flags off, sorted by size |
| Selector.SkipHireSelector.Refresh | src/SkipHireSelector.js:86-105 | the effect re-establishes the invariant: the displayed list is the full list filtered and sorted by the current settings |
| Selector.SkipHireSelector.FetchCompleted | src/SkipHireSelector.js:17-79 | a body becomes the transformed full list; a non-success status records "Failed to fetch skip data"; a thrown error records its message; loading ends in every case; the selection, flags and key are untouched |
| Selector.SkipHireSelector.SelectSkip | src/SkipHireSelector.js:116-118 | the clicked id becomes the selection, replacing any other: afterwards that id and no other is selected; nothing else changes |
| Selector.SkipHireSelector.AtMostOneSelected | src/SkipHireSelector.js:116-118 | no two different ids are ever selected at once |
| Selector.SkipHireSelector.SetRoadLegalOnly | src/SkipHireSelector.js:259 | the road-legal flag takes the checkbox value and the display is recomputed; the selection is untouched |
| Selector.SkipHireSelector.SetHeavyWasteOnly | src/SkipHireSelector.js:268 | the heavy-waste flag takes the checkbox value and the display is recomputed; the selection is untouched |
| Selector.SkipHireSelector.SetSortBy | src/SkipHireSelector.js:278 | the key takes the selected value and the display is recomputed; the selection and flags are untouched |
| Selector.SkipHireSelector.ClearAllFilters | src/SkipHireSelector.js:446-449 | both flags go off, the key stays, and the display becomes the whole full list re-sorted by the current key |
| Selector.SkipHireSelector.FilterSummary | src/SkipHireSelector.js:286-289 | the "Showing N of M" line appears exactly while a flag is on, with N the displayed count, M the full count and N <= M |
| Selector.SkipHireSelector.ShowsNoResults | src/SkipHireSelector.js:440 | the empty-state panel appears exactly when no record of the full list passes the active flags |
| Selector.SelectTwice | src/SkipHireSelector.js:116-118 | selecting one skip and then another leaves exactly the second selected |
| Selector.SelectionSurvivesFilters | src/SkipHireSelector.js:86-118 | filtering, sorting and clearing the filters keep the selection, even when the selected record is filtered out |

## Left out

- The network request, `response.ok`, `response.json()` and the async timing of the fetch effect (src/SkipHireSelector.js:15-83) are I/O. `FetchCompleted` takes the outcome as a parameter. The console log on failure is not modelled.
- Floating-point prices: the model computes `Math.round` on exact rationals with whole-pound prices and whole-number rates (negative values are rounded half-up as `Math.round` does). Binary doubles (e.g. `1 + 20 / 100` is not exactly 1.2) can round differently at a .5 boundary. Prices with pence are not modelled.
- `Decimal.IntStringRoundTrip`: `${n}` for integers of magnitude 10^21 or more uses exponent notation in JavaScript; the model always renders plain decimal digits.
- Raw field types: the raw record's fields are taken as integers, booleans and optional integers as the API returns them. JavaScript coercion of other types (strings, null sizes) is not modelled.
- The transient render in which the unsorted, unfiltered list is shown right after the fetch (line 73), before the effect runs. The model runs the effect in the same step.
- React's scheduling: the filter/sort effect runs after every change here, even when a setter stores the value it already held. The result is the same list.
- All rendering: the progress steps, help panel, cards, badges, scroll dots and continue button. The `showHelp` toggle is presentational.
- `renderPriceDetails` (lines 120-139): a presentational branch on the optional costs.
- The image `onError` handler and the "Try again" page reload: browser side effects.
- `skip.popular`: never set by the transform, so it is always absent.
- The image URL's host: the model fixes the URL's text and proves it depends only on the size.
