# mtgmarketcap: the crawler and the site's loader, in Dafny

The system estimates the market capitalisation of the first three Magic: The
Gathering sets (Alpha, Beta, Unlimited). A crawler (`crawler.py`) pages
through a card catalog's search results for each set. For each card it
chooses a USD price, converting from EUR when needed. It cleans the
collector number, lower-cases the rarity and picks a thumbnail. It then
looks up the estimated print run of the card's rarity and writes a market
cap (price times prints, to cents). Finally it totals the caps for each set.
The web site (`main.py`) reads a set's CSV file back, converts the numeric
columns and sums the market caps.

The project models this core as follows:

- `wrappers.dfy`: `Option`.
- `numbers.dfy`: the numeric conversions the code relies on.
  - Python's `int()` and `float()` as decimal parsers.
  - `str(int)`.
  - `f"{x:.2f}"` as round-half-even to whole cents.
  - `round(x, 2)`.
  - Their round trips.
- `text.dfy`: `str.strip()` (Python's whitespace set), `str.replace(c, "")`, and `str.lower()`.
- `card_fields.dfy`: the per-record derivations of `fetch_scryfall_cards` and the per-card formula of `compute_and_assign_market_cap`, as pure functions.
- `crawler.dfy`: the crawler's imperative parts.
  - The page loop.
  - Card dictionaries as a `Card` class whose `prints` and `market_cap` fields are assigned in place.
  - The total loop.
  - `main`'s loop over the three sets, with its stop when the prints data is missing.
  - Each method is proved against value-level specification functions (`Collected`, `FetchedCards`, `WithMarketCap`, `SumCaps`, `SetStates`, `SetTotal`).
- `site.dfy`: `load_data_for_set` as a loop over CSV rows, proved against the specification `Load`.
- `pipeline.dfy`: the two halves together. A CSV row the crawler writes reads back with the same prints and market cap. In exact arithmetic, the site's total for a set equals the crawler's rounded total; with binary floats the two can differ in the last digits (see "## Left out").

Inputs that come from outside become parameters:

- The catalog service is a finite sequence of `Page` responses for each set code.
- The prints data is an optional map; `None` means the file does not exist.
- The EUR->USD rate is a `real`.
- A CSV file is an optional sequence of rows; `None` means the file does not exist.

Where the code and its documentation disagree, the model follows the code. The docstring of `compute_and_assign_market_cap` (crawler.py:98) says the market cap stays empty when the USD price is missing. The code reads a missing price as 0.0, so a card with no price and a known non-zero print run gets `"0.00"`. `CardFields.MissingPriceGivesZeroCap` states this.

## Model

| member | source | states |
|---|---|---|
| Numbers.ParseInt | main.py:34 | `int(s)` succeeds exactly on an optional sign followed by one or more digits; the value is non-negative without a minus sign and non-positive with one |
| Numbers.IntToString | crawler.py:131-132 | `str(n)` is all digits for `n >= 0`, and a minus sign followed by digits for negative `n` |
| Numbers.ParseFloat | crawler.py:57 | `float(s)` on decimal text fails on the empty string; without a minus sign the value is non-negative, with one non-positive |
| Numbers.Format2 | crawler.py:58 | `f"{x:.2f}"` starts with a minus sign exactly when `x` is negative, otherwise with a digit, and ends in a point and exactly two digits |
| Numbers.RoundTo2 | crawler.py:196 | `round(x, 2)` is within half a cent of `x` and a whole number of cents |
| Numbers.IntRoundTrip | main.py:34 | a print count written with `str` reads back unchanged with `int`, negative counts included |
| Numbers.Format2RoundTrip | crawler.py:113 | parsing the two-decimal text of `x` gives `x` rounded to whole cents (half to even) |
| Numbers.SignedCentsRoundTrip | crawler.py:113 | a signed whole number of cents, written with two decimals, parses back to its value |
| Numbers.Rounded2OnGrid | crawler.py:113 | every value printed with two decimals is a whole number of cents |
| Numbers.RoundTo2OnGrid | crawler.py:196 | `round(v, 2)` leaves a whole number of cents unchanged |
| Numbers.SumOnGrid | crawler.py:189 | a sum of whole-cent values is a whole number of cents |
| Numbers.RoundHalfEven | crawler.py:196 | the result is within 0.5 of the input, and a tie goes to the even neighbour |
| Numbers.CentsOfWholeCents | crawler.py:113 | a whole number of cents is formatted without rounding |
| Text.Strip | crawler.py:64 | the stripped text neither starts nor ends with whitespace |
| Text.StripRemovesOnlyEnds | crawler.py:64 | the stripped text is a contiguous slice of the input, and what was cut at both ends is all whitespace |
| Text.StripKeepsAbsence | crawler.py:64 | stripping never introduces a character |
| Text.RemoveAll | crawler.py:64 | no `#` is left, and every other character occurs as often as in the input |
| Text.RemoveAllConcat | crawler.py:64 | removing `#` from a concatenation removes it from each part |
| Text.RemoveAllAbsent | crawler.py:64 | text without `#` is left unchanged |
| Text.Lower | crawler.py:67 | same length; each upper-case letter becomes its lower-case partner; every other character is kept in place |
| CardFields.ConvertEur | crawler.py:56-61 | the converted text is empty exactly when the EUR price does not parse; otherwise it parses back to EUR times rate rounded to cents |
| CardFields.ChooseUsd | crawler.py:50-61 | a non-empty USD price is kept; otherwise a non-empty EUR price is converted; otherwise the empty price is kept; the result is non-empty exactly when USD is non-empty or EUR is non-empty and parses |
| CardFields.UsdPriceWins | crawler.py:50-53 | with a non-empty USD price the result does not depend on the rate |
| CardFields.FallbackRateExample | crawler.py:53-58 | 10.00 EUR at rate 1.04 becomes the USD price "10.40" |
| CardFields.CleanCollectorNumber | crawler.py:64 | the cleaned number has no `#` and no surrounding whitespace |
| CardFields.CleanCollectorNumberContent | crawler.py:64 | the cleaned number is a contiguous slice of the `#`-free text, with only whitespace cut before and after it |
| CardFields.Thumbnail | crawler.py:69-74 | the small image URL when non-empty, otherwise the URL synthesised from set code and cleaned number |
| CardFields.FallbackThumbnailShape | crawler.py:74 | the synthesised URL is https, ends in `.jpg`, and holds the set code and the collector number at fixed places |
| CardFields.Normalize | crawler.py:48-82 | the emitted card keeps the name; its collector number is the record's with every `#` removed and surrounding whitespace stripped (so it has no `#` and no whitespace at either end); its USD price is the record's when non-empty, else the converted EUR price when that is non-empty, and it has a price exactly when USD or a parseable EUR price exists; its rarity is the record's with each upper-case letter lowered and nothing else changed; its thumbnail is the small image when non-empty, else the URL built from that cleaned number |
| CardFields.PriceForCap | crawler.py:110 | the unit price is 0.0 for an empty price, the parsed price otherwise, and missing exactly when a non-empty price does not parse (the `ValueError` path) |
| CardFields.SupplyFor | crawler.py:105 | the print count is present exactly when the rarity is a key of the supply table, and is that key's value |
| CardFields.MarketCap | crawler.py:109-117 | the cap is non-empty exactly when the price parses (empty counts as 0.0) and the supply is known and non-zero; it then parses back to price times supply rounded to cents; it is always empty or whole cents |
| CardFields.MissingPriceGivesZeroCap | crawler.py:110-113 | a card without a USD price and a non-zero supply gets "0.00" |
| CardFields.EmptySupplyTableGivesNoCaps | crawler.py:174 | with the empty supply table no card has prints or a market cap |
| CardFields.FallbackRateMarketCap | crawler.py:110-113 | a price of 10.40 with 1100 rare prints gives the cap "11440.00" |
| Crawler.CollectedIsConcatOfReadPages | crawler.py:40-88 | the fetched records are the concatenation, in order, of the pages read before the loop stopped |
| Crawler.CollectedIsPrefix | crawler.py:41-88 | the records the loop keeps are a prefix of all the records the responses carry |
| Crawler.LoopStops | crawler.py:40-88 | for every sequence of responses the loop stops after some number of pages |
| Crawler.CollectedIgnoresLaterPages | crawler.py:42-44 | responses after the loop has stopped change nothing; a failed page keeps the records before it |
| Crawler.CollectedPrefix | crawler.py:40-88 | more responses can only extend the fetched records |
| Crawler.SecondPageFails | crawler.py:42-44 | when the second page fails, only the first page's records are kept |
| Crawler.NormalizeAllAt | crawler.py:46-82 | the i-th emitted card is the i-th record normalised |
| Crawler.NormalizeAllAppend | crawler.py:46-82 | normalising the records of two page runs gives the two runs' cards in order |
| Crawler.FailedPageStops | crawler.py:42-44 | a failed response ends the fetch with exactly the records kept before it |
| Crawler.PageGoesOn | crawler.py:84-86 | a successful page that asks for more adds its records, and the fetch goes on with the next response |
| Crawler.LastPage | crawler.py:87-88 | a successful page that asks for no more adds its records, and the fetch ends |
| Crawler.NewCards | crawler.py:46-82 | one fresh card per record of a page, in order, each holding that record's normalised fields |
| Crawler.Card.constructor | crawler.py:76-82 | a new card holds the five normalised fields, with no prints and no market cap yet |
| Crawler.FetchScryfallCards | crawler.py:25-90 | one fresh card per record of the pages read, in order, each holding that record's normalised fields |
| Crawler.WithMarketCap | crawler.py:101-117 | the card after assignment keeps its fields, has the supply of its rarity as prints, and the market cap of its price and that supply |
| Crawler.ComputeAndAssignMarketCap | crawler.py:101-118 | returns the same list; every card keeps its own fields and gets, in place, the supply of its rarity as prints and the market cap of its price and that supply |
| Crawler.SumCaps | crawler.py:184-191 | the running sum the total loop accumulates, card by card; its own contract only gives 0.0 for all-empty caps, and its meaning (the plain sum of the readable caps) is stated by `SumCapsIsSumOfKnown` |
| Crawler.SumCapsConcat | crawler.py:185-191 | the running total over two runs of cards is the sum of the two totals |
| Crawler.SumCapsIsSumOfKnown | crawler.py:185-191 | the running total equals the plain sum of the non-empty, parseable market caps |
| Crawler.UnknownCapAddsNothing | crawler.py:187-191 | a card with an empty or unparseable market cap leaves the total unchanged, wherever it stands |
| Crawler.WellFormedCapsSumExactly | crawler.py:196 | when every cap is empty or whole cents, the sum is whole cents and rounding it changes nothing |
| Crawler.SetTotalMarketCap | crawler.py:184-196 | the total is the sum of the readable market caps, rounded to cents |
| Crawler.AssignedCapsWellFormed | crawler.py:109-117 | every market cap the crawler assigns is empty or whole cents |
| Crawler.SetTotalIsExactSum | crawler.py:196 | a set's recorded total is exactly the sum of its known caps, and whole cents |
| Crawler.MissingPrintsKeyGivesZeroTotal | crawler.py:174 | a set without an entry in the prints data has no prints, no caps and a zero total |
| Crawler.ProcessSet | crawler.py:170-197 | one set's cards are its fetched cards with prints and caps assigned, and its total is their rounded sum |
| Crawler.RunCrawler | crawler.py:137-197 | without prints data nothing is produced; otherwise alpha, beta and unlimited, in order, with their cards and totals |
| Crawler.CsvRow | crawler.py:126-131 | a written row has exactly the six CSV columns; name, collector number and thumbnail are the card's; the USD cell is the card's price (empty when absent); prints is its decimal text (empty when unknown); the market cap is as assigned |
| Site.ParsePrints | main.py:33-36 | a number exactly when the cell is present and `int` accepts it, and then that number; an empty cell gives None |
| Site.ParseAmount | main.py:39-48 | a number exactly when the cell is non-empty and parses, and then the parsed value |
| Site.MissingColumn | main.py:33-48 | no column is reported exactly when the row has `prints`, `usd` and `market_cap`; a reported column is absent |
| Site.CapTotal | main.py:50-52 | the running sum the loader accumulates over the known caps; its own contract only gives 0.0 when no cap is known, and `Load` and `Pipeline.CapTotalIsSumCaps` state what it sums |
| Site.Load | main.py:30-54 | loading succeeds exactly when every row has the three numeric columns; then it gives one card per row, in order, and the total of the known caps; otherwise the missing column of the first incomplete row |
| Site.LoadDataForSet | main.py:21-56 | a missing file gives no cards and 0.0; otherwise the loop's result is `Load` of the rows |
| Pipeline.WrittenRowComplete | crawler.py:126-131 | a row the crawler writes has every numeric column the site converts |
| Pipeline.RowRoundTrip | main.py:33-48 | the site reads back the crawler's prints, its market cap, and its USD price when non-empty |
| Pipeline.CapTotalIsSumCaps | main.py:50-52 | the site's running total over a file equals the crawler's running total over the same caps |
| Pipeline.SiteTotalMatchesCrawler | main.py:21-56 | loading a set's written file succeeds, gives the crawler's cards' prints, and, in exact arithmetic, sums to the total the crawler recorded |

## Left out

- `fetch_eur_to_usd` (crawler.py:9-23): the HTTP call and its fallback of 1.04. The rate is a parameter; the worked examples use 1.04.
- HTTP itself: the request URL and parameters, headers, and the error printout. A response is a `Page` with its `ok` flag, its records, `has_more` and `next_page`. A set code absent from the catalog map gets no responses.
- The fetch loop ends when the modelled responses run out, even if the last page asked for more. The real loop would keep requesting.
- `write_csv_for_set`, `crawler_output.json` and `last_update.json`: file output is not modelled. The content of a CSV row is modelled (`Crawler.CsvRow`). The CSV quoting round trip is taken as exact (`Pipeline.ReadBack`).
- `load_last_update`, the Flask `index` route and `static/script.js`: presentation, outside the core.
- IEEE-754 floating point: prices and totals are exact `real` numbers. Rounding is exact round-half-even on the decimal value, not on the nearest binary double. Crawler.SetTotalIsExactSum and Pipeline.SiteTotalMatchesCrawler hold in exact arithmetic only: the site adds the caps as floats without rounding (main.py:52) while the crawler records `round(total, 2)` (crawler.py:196), so caps of 0.10 and 0.20 give 0.30000000000000004 on the site and 0.3 in the crawler.
- Numbers.ParseFloat accepts only an optional sign, digits and an optional fraction. It does not accept exponents, `inf`/`nan`, underscores or surrounding whitespace. Numbers.ParseInt accepts only an optional sign and digits.
- Text.Lower lowers ASCII letters only; Python's `lower()` covers all of Unicode.
- CardFields.SupplyFor: supply values are integers. Floats or other JSON values in the prints file are not modelled.
- Crawler.Card: a dictionary field absent before assignment (`prints`, `market_cap`) is modelled as None / "". The CSV writer treats an absent field the same way.
- Site.LoadDataForSet: the reader's row dictionaries are modelled as values, not mutated in place. Extra cells of an over-long row are not modelled.
- Exceptions other than the ones the code catches (a non-string price, say) are not modelled.
