# Price pipeline of the e-commerce scraper, in Dafny

The scraper takes a search term, a currency code, a page count and a "keep the
currency symbol" choice. It runs the search on Amazon and eBay, extracts one
`(Name, Price, Link)` row per listing, and converts every scraped price into the
chosen currency with `convert_price`. It then summarises the prices as a pie
chart: KMeans puts the prices into clusters, and each cluster becomes a slice
labelled with the integer parts of its cheapest and dearest price.

The same pipeline exists in five copies, one per front end:

- `app_fastapi.py`: an HTTP service;
- `products_webscrap.py`: a command-line script;
- `products_webscrap_gradio.py` and `app_gradio.py`: two Gradio apps;
- `app.py`: a form app.

The copies differ in small ways. Where they do, the model takes the copy as a
parameter (`Copies.Copy`).

Modules, one per component:

- `Text`: the Python `str` operations the code uses.
- `Decimal` and `DecimalReadBack`: `float()` on decimal text, the `:.2f` rendering, and the round trip between them.
- `Currency`: the symbol table, read in both directions.
- `Conversion`: `convert_price`.
- `Listings`: `parse_ebay`, `parse_amazon` and `parse_html`, over items whose selector results are `Option` fields.
- `Scrape`: `scrape_website`, over page results given as a map from URL to items.
- `PriceColumn` and `Buckets`: `pie_graph`. The KMeans label of a price is an input function.
- `Frontends`: `scrape_endpoint`, `run_scraper` and the `__main__` questions. The module globals these set are fields of the class `Frontends.Globals`.

Methods that loop in the source are `method`s with loop invariants. Each one is
proved equal to a specification function, and the properties are lemmas about
those functions.

## Model

| member | source | states |
|---|---|---|
| `Currency.Lookup` | products_webscrap.py:65 | `symbols_hash_map.get(symbol, 'usd')`: an unknown symbol gives the default, a known one the value of an entry with that key |
| `Currency.SymbolFor` | products_webscrap_gradio.py:170 | the reverse lookup gives a key whose entry has the code, and fails (IndexError) exactly when no entry has it |
| `Currency.SymbolLooksUpToCode` | products_webscrap.py:313-314 | with distinct keys, the symbol chosen for a supported code looks up to that same code |
| `Currency.BrlIsWrittenRDollar` | products_webscrap_gradio.py:20-23 | the reverse lookup of `brl` is `R$` in both symbol tables |
| `Currency.EuroSignAcrossTables` | app_fastapi.py:49-52 | a `€` price is euros in the sign table, but dollars in app_fastapi.py, whose keys are mis-decoded bytes |
| `Conversion.Clean` | app_fastapi.py:78 | the cleaned text is empty exactly when the input is all whitespace (no-break spaces included), and otherwise has no surrounding whitespace |
| `Text.StripIsSurrounded` | app_fastapi.py:78 | `strip()` gives a slice of the text with only whitespace before and after it |
| `Text.StripUnchanged` | app_fastapi.py:78 | text that begins and ends with a non-space is left as it is |
| `Conversion.CleanIsStripped` | app_fastapi.py:78 | the cleaned text is the no-break-space-replaced text from the end of its leading whitespace on, with only whitespace after it, and begins and ends with a non-space |
| `Text.FirstWordPosition` | app_fastapi.py:79-80 | `split()[0]` is the word that starts where the leading whitespace ends and runs up to whitespace or the end of the text |
| `Text.FirstWordIs` | app_fastapi.py:79-80 | conversely, a leading run of non-whitespace that ends at whitespace or at the end is the first word |
| `Conversion.SourceSymbol` | app_fastapi.py:79-80 | there is no symbol (`split()[0]` raises) exactly when the cleaned text is blank; a symbol that exists is never empty |
| `Conversion.SymbolCharsAppend` | products_webscrap.py:59-60 | dropping digits, dots and commas keeps the other characters in order: the result for `a + b` is that of `a` followed by that of `b` |
| `Conversion.SourceSymbolChars` | products_webscrap.py:59-62 | the symbol a price is written in has no digit, dot, comma or whitespace |
| `Conversion.SourceSymbolDefault` | products_webscrap.py:59-62 | the symbol is `$` exactly when the first word is only digits, dots and commas, or is `$` once they are gone |
| `Conversion.RealsPrice` | products_webscrap.py:59-63 | a price whose first word is `R$` once digits and commas are gone, as in `R$ 12,50`, converts from `brl` |
| `Conversion.BarePrice` | products_webscrap.py:59-63 | a price whose first word is a bare number, as in `12.99`, converts from `usd` |
| `Conversion.UnknownSymbolPrice` | products_webscrap.py:59-63 | a symbol of three or more characters, as the `EUR` of `EUR 5`, is no table key, so the price converts from `usd` |
| `Conversion.NumericChars` | app_fastapi.py:86-87 | the numeric part holds only digits and dots, and holds every digit and dot of the text |
| `Conversion.NumericCharsAppend` | products_webscrap_gradio.py:39 | digits and dots are collected left to right: the numeric part of `a + b` is that of `a` followed by that of `b` |
| `Conversion.PricePartStopsAtTo` | app_fastapi.py:82-85 | the price part has no `to`; it is the whole text exactly when the text has no lowercase `to`; otherwise `to` follows it |
| `Conversion.GuardMakesNoDifference` | products_webscrap_gradio.py:35-38 | the lowercased `'to' in` guard never changes the price part, so an uppercase `TO` leaves the text whole |
| `Conversion.ConvertVariantsAgree` | app_gradio.py:36-37 | the unconditional `split('to')[0]` converts every text exactly as the guarded variant does |
| `Conversion.AmountFailure` | app_fastapi.py:88 | an empty numeric part is amount 0; a non-empty one fails exactly when it has two dots or no digit |
| `Conversion.FallbackCases` | products_webscrap.py:57-78 | the conversion falls back exactly when the text is blank, the numeric part does not parse, or the rate is missing or zero |
| `Conversion.BlankPriceIsZero` | app_gradio.py:30-44 | blank or whitespace-only price text is written `"0.00"` |
| `Conversion.Render` | app.py:49-52 | a fallback is the bare `"0.00"`; an amount is written in two decimals, after `"<symbol> "` only when the symbol is kept |
| `Conversion.SymbolOnlyPrefixes` | app_fastapi.py:93 | with the symbol kept, the price text is the symbol, a space, then exactly the text written without it |
| `Conversion.ConvertedAmountNonNegative` | app.py:46-48 | with positive rates a converted amount is never negative |
| `Decimal.ParseUnsignedFailure` | app_fastapi.py:88 | `float()` of a digits-and-dots string fails exactly when it has two dots or no digit |
| `DecimalReadBack.FormatReadsBack` | app.py:49 | `float()` reads the `:.2f` text of any amount back as that amount rounded to the cent |
| `DecimalReadBack.FormatRoundedStable` | app_fastapi.py:93 | formatting an already-rounded non-negative amount gives the same text, so `"12.34"` at rate 1 stays `"12.34"` |
| `Listings.ParseEbay` | app_fastapi.py:124-141 | the item loop of `parse_ebay` computes its specification, item by item |
| `Listings.ParseEbayOutcome` | products_webscrap.py:127-142 | `parse_ebay` raises the exception of the first item with no title, or priced but without a link; otherwise it returns the kept items' rows in page order, at most one per item |
| `Listings.KeptEbayRows` | app.py:80-94 | a row is in the result exactly when some titled, priced, linked item that is not `Shop on eBay` produces it |
| `Listings.NoSentinelRow` | products_webscrap_gradio.py:72 | no row is named `Shop on eBay` |
| `Listings.ParseAmazon` | products_webscrap.py:81-103 | the card loop of `parse_amazon` computes its specification, stopping at the first AttributeError |
| `Listings.ParseAmazonKeepsPrefix` | products_webscrap.py:90-103 | the rows are those of the titled cards before the first card the copy aborts on; later cards are dropped |
| `Listings.FastapiReadsWholePage` | app_fastapi.py:99-121 | app_fastapi.py never aborts: every titled card gives a row |
| `Listings.KeptAmazonRows` | app.py:63-73 | every row comes from a titled card with that name, and links to `https://amazon.com` (or `N/A` in app_fastapi.py) |
| `Listings.AppPricesMissingAsZero` | app.py:66-67 | in app.py a card without a price converts the text `"0.00"` and is kept |
| `Listings.ParseHtml` | products_webscrap.py:145-153 | `parse_html` dispatches as its specification says |
| `Listings.ParseHtmlOtherSites` | app_gradio.py:98-102 | a URL naming neither eBay nor AliExpress gives no rows |
| `Listings.AliexpressRaises` | products_webscrap.py:147-148 | an `aliexpress` URL raises NameError in products_webscrap.py (the parser is commented out) even if it also names eBay |
| `Scrape.PageUrl` | app.py:117 | the page URL is the search URL followed by `&page=` and the decimal text of the page number |
| `Scrape.PageUrlInjective` | app.py:117 | different page numbers give different page URLs |
| `Scrape.ScrapePage` | app_fastapi.py:165-183 | one loop pass routes the page to the browser or to `fetch_html` as its specification says |
| `Scrape.ScrapeWebsite` | products_webscrap.py:170-185 | the page loop computes its specification for every page count |
| `Scrape.ScrapeOutcome` | app.py:114-126 | if no page raises, the result is pages 1..`pages` concatenated in order; otherwise it is the first page's exception |
| `Scrape.NoPagesNoRows` | products_webscrap.py:172 | `pages < 1` scrapes nothing |
| `Scrape.FailedFetchAddsNothing` | products_webscrap_gradio.py:109-113 | a page whose fetch gives nothing adds no rows |
| `Scrape.SearchTermRoutesToBrowser` | app_gradio.py:110-111 | a search URL containing `amazon` anywhere, even in the search term, sends every page to the browser |
| `Scrape.AmazonPrefixRoutesToBrowser` | app_fastapi.py:167 | in the older copies a search URL starting with `https://amazon` sends every page to the browser |
| `PriceColumn.ReadPieces` | products_webscrap_gradio.py:138-140 | the inner loop reads every piece in order, or fails at the first unreadable one |
| `PriceColumn.ReadRow` | app_fastapi.py:214-220 | the numbers of one row are read as the specification says: all comma pieces, or the whole text |
| `PriceColumn.ExtractPrices` | products_webscrap.py:256-263 | the price loop of the older copies computes its specification |
| `PriceColumn.ReadEachPointwise` | app_gradio.py:170-171 | the comprehension succeeds exactly when every row reads, and then gives one number per row in row order |
| `PriceColumn.CommaFreeRow` | app.py:150-151 | for a comma-free price, reading every comma piece and reading up to the first comma give the same single number |
| `PriceColumn.RenderedReadsBack` | app_fastapi.py:93 | a converted price text has no comma, and without its symbol reads back as the amount rounded to the cent |
| `PriceColumn.ConvertedRowsReadBack` | app_fastapi.py:213-220 | every copy reads back the Price column its converter wrote as the converted amounts, one per row and in row order |
| `PriceColumn.TableSymbolsDistinct` | app.py:32-35 | every table symbol has a character no amount text has, so `replace` finds it only where it was written |
| `Buckets.UniqueLabels` | app.py:155 | `np.unique`: strictly ascending, and holds exactly the labels that occur |
| `Buckets.Trunc` | app.py:156-157 | `int()` truncates toward zero |
| `Buckets.BucketCountsSum` | products_webscrap.py:271-276 | the slice counts add up to the number of prices |
| `Buckets.BucketsAscending` | app_fastapi.py:224-229 | the slices come in strictly ascending label order |
| `Buckets.BucketsCover` | app.py:155-157 | a cluster has a slice exactly when some price carries its label |
| `Buckets.BucketOfBounds` | app_gradio.py:176-177 | a slice holds at least one price, its min is at most its max, and every price of its cluster lies between them once truncated |
| `Buckets.BucketsBounds` | products_webscrap_gradio.py:147-148 | the same holds for every slice of the chart |
| `Buckets.SlicesAtMostPrices` | app_gradio.py:175-177 | there are never more slices than prices |
| `Buckets.PieGraphCases` | app.py:144-153 | no rows: no chart; unreadable prices: ValueError; fewer than five prices: KMeans' ValueError; otherwise the clustered chart |
| `Buckets.ClusterChartSlices` | products_webscrap.py:278-279 | one legend per slice, counts adding up to the prices, each legend `"Around "` (older copies) + symbol + `min-max` |
| `Frontends.EbaySearchForAmazonProduct` | app_gradio.py:190-211 | the eBay search for a product named `amazon…`, such as "amazon echo", goes to the browser in app_gradio.py (its term keeps `amazon`) but to `fetch_html` in products_webscrap_gradio.py |
| `Frontends.ScrapeAll` | app_gradio.py:217-218 | the loop over search URLs computes its specification |
| `Frontends.ScrapeTwoSites` | products_webscrap_gradio.py:181-183 | Amazon rows come first, then eBay's; an exception from the first URL skips the second |
| `Frontends.CheckRequest` | app_fastapi.py:249-266 | 400 for an empty search, else for a code outside the table values, else for pages below 1 |
| `Frontends.EndpointSettings` | app_fastapi.py:261-285 | the code passed down is the lowered request code, the symbol is the first table key for it (so it is a key and looks up to the code), and the rates are the fetched ones |
| `Frontends.ScrapeEndpoint` | app_fastapi.py:246-304 | the endpoint answers as its specification says |
| `Frontends.EndpointOrder` | app_fastapi.py:249-266 | the checks take effect in order; a failed rate fetch is 500; a success reports at least one record |
| `Frontends.NoDataIsServerError` | app_fastapi.py:289-304 | a valid request that scrapes no rows gets 500: the 404 raised inside the `try` is caught and re-raised |
| `Frontends.SearchTerm` | app_gradio.py:190-192 | the lowercased, underscored term is empty exactly when the product name is |
| `Frontends.PagesFieldCases` | app.py:185 | a digit string reads as its number, so `"0"` is 0 pages; any other text, the empty one included, gives 3 |
| `Frontends.Globals.constructor` | products_webscrap.py:13 | at import, symbol removal is on |
| `Frontends.Globals.RunScraper` | products_webscrap_gradio.py:159-190 | `run_scraper` sets the globals as `AfterRunScraper` says and returns what `RunScraperSpec` says |
| `Frontends.Globals.Finish` | app.py:196-203 | the Amazon and eBay searches are scraped with the current globals, then charted |
| `Frontends.RunScraperOrder` | app.py:174-185 | the name is checked first, the currency second; then the run scrapes with removal = `not remove_symbol` and the first symbol listed for the code |
| `Frontends.RefusedRunLeaksCurrency` | products_webscrap_gradio.py:165-168 | a run refused for its currency still leaves that code in the `currency` global, and keeps the previous symbol, flag and rates |
| `Frontends.AcceptedRunSettings` | app_gradio.py:194-200 | an accepted run leaves a supported code, removal = `not remove_symbol`, and as symbol the first table key for the code, which maps back to it |
| `Frontends.BrlRun` | products_webscrap_gradio.py:170 | choosing `BRL` writes `R$` in front of prices |
| `Frontends.ZeroPagesScrapeNothing` | app_gradio.py:201 | pages `"0"` completes with no rows and no chart |
| `Frontends.RemovalChoice` | products_webscrap.py:316-325 | an answer is refused exactly when its lowercase form is not accepted; it turns removal off exactly when it is accepted and a no-answer |
| `Frontends.CliRemovalFlag` | products_webscrap.py:324-325 | only the no-answers turn symbol removal off; other accepted answers leave it as it was |
| `Frontends.AnswerTupleAsWritten` | products_webscrap.py:319 | as written, the answers `Y` and `nah` are refused, though `nah` is a no-answer |
| `Frontends.AnswerTupleCorrected` | products_webscrap.py:319-325 | with `'nah', 'y'` as two entries, every no-answer is accepted, `Y`/`y`/empty keep removal on, and `N`/`nah` turn it off |
| `Frontends.ParseInt` | products_webscrap.py:327-334 | `int()` succeeds exactly when the stripped text is digits with at most one leading sign, and then reads a digit string as its value |
| `Frontends.ParseIntOfNegative` | products_webscrap.py:329-330 | a minus sign before the text of a number reads as its negative |
| `Frontends.ParseIntRefuses` | products_webscrap.py:331-334 | text with a non-digit after its optional sign, such as `1.5`, `3 pages` or `a1`, makes the script exit |
| `Frontends.ParseIntOfNat` | products_webscrap.py:329-330 | the decimal text of any number reads back as that number |
| `Frontends.Globals.RunCli` | products_webscrap.py:292-351 | the script, with the answer tuple as a parameter, sets the globals as `AfterCli` says and ends as `CliSpec` says |
| `Frontends.CliAsWrittenExits` | products_webscrap.py:316-323 | with the tuple as written, the answers `Y`, `y` and `nah` end the script with the answer message |
| `Frontends.CliCorrectedGoesOn` | products_webscrap.py:319-325 | with the intended tuple the same answers go on: `Y` and `y` keep removal as it was, `nah` turns it off |

## Left out

- Network I/O is replaced by parameters:
  - the currency catalogue and rate documents (`requests.get(...).json()`): a rate table, or None where the fetch raises;
  - `fetch_html` and the browser's page loads: a map from page URL to page items.
- app_fastapi.py fetches the rate document again inside every `convert_price` call. The model assumes each fetch returns the table the endpoint fetched.
- The browser and session lifecycle (launch, close, async context managers) is left out. So are `time.sleep` / `asyncio.sleep`, logging and locale.
- In app_fastapi.py, `wait_for_selector` timing out on a page with no result cards is modelled as a page with no cards. Both give no rows.
- BeautifulSoup and CSS selector matching are left out. An item is the `Option` result of each selector it is asked for.
- KMeans is left out. The label of each price is an input function `real -> Cluster`, so equal prices share a cluster. The only part of KMeans modelled is that it raises for fewer than five samples.
- Matplotlib drawing, CSV writing, output paths, file downloads and the FastAPI/Gradio wiring are left out. So are the status texts that embed timestamps or file names: a completed run is `Completed(rows, chart)`.
- The supported-currency list in the refusal messages is built from the fetched catalogue. It is a string parameter.
- Prices are exact reals, not binary floats. `:.2f` is modelled as round-half-even of the exact value, and Python's `-0.00` does not exist.
- `float()` is modelled for decimal literals only: no exponents, `inf`, `nan` or underscores. The converter only ever passes it digits and dots.
- `int()` is modelled without underscores between digits.
- `str.isdigit` is modelled for ASCII digits only, and `str.lower` for ASCII letters only. `str.isspace` uses Python's full whitespace set.
- The global `search_field` that products_webscrap_gradio.py sets is left out. It only feeds the chart title.
- `DecimalReadBack.FormatRoundedStable`: stated only for non-negative amounts, because of Python's negative zero.
- `Frontends.Globals.RunCli`: its outcome is stated only for a run that starts with symbol removal on. That is always the case for the script, which runs once per process.

## Where the description of the system and the code differ

The model follows the code:

- The static-HTML adapter (`parse_ebay`) does not just skip items missing a field. The title is read outside the `try`, so a missing title raises AttributeError out of `parse_ebay`. A missing link raises TypeError, which `except AttributeError` does not catch. Only a missing price is skipped.
- Only app_fastapi.py and app.py read a missing Amazon price as `"0.00"`. The other copies stop at that card and drop the rest of the page.
- Slices come in ascending label order (`np.unique`), not in cluster-assignment order.
- Fewer than five prices do not give fewer slices: `KMeans(n_clusters=5)` raises ValueError.
- Only app_fastapi.py reports "no data" (as 500). The other front ends complete with no rows.
- The Gradio apps and app.py accept `"0"` pages.
- In app_fastapi.py a failed rate fetch inside `convert_price` falls back to `"0.00"`, not to a run failure.

## Findings

| source | as written | input that shows it | evidently intended | confidence | as-written member | corrected member |
|---|---|---|---|---|---|---|
| products_webscrap.py:319 | `'nah' 'y'` (no comma) concatenates into one entry, `'nahy'` | answer `Y`, the prompt's own suggestion, or `nah`: the script exits with "only accept Yes, Y, No and N" | `'nah', 'y'` as two entries, so `y` keeps removal on and `nah` turns it off as line 324 expects | high; not executed | `Frontends.AnswerTupleAsWritten`, `Frontends.CliAsWrittenExits` | `Frontends.AnswerTupleCorrected`, `Frontends.CliCorrectedGoesOn` |
