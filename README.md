# ekademe catalog scraper — Dafny model

The scraper walks the paginated product listing of two categories (`men`, then
`women`) on one browser page. On every listing page it reads the next-page
control. While that control reports `aria-hidden="false"` it extracts the
product cards of the current page and moves on. At the end it returns the
whole product list together with the distinct brands, in order of first
occurrence.

This project models that core against an abstract page source. It does not
model a browser.

- `wrappers.dfy` — `Option` and `Result`.
- `extractor.dfy` — `getAllItems`. A `Card` records what each element query of
  a product card returns, and `None` stands for a query that matched nothing.
  Extraction gives one `Product` per card, in card order. It fails at the first
  card that lacks a required element, and in that case it yields no partial list.
- `paginator.dfy` — `getCategory` and the listing URL template. A category's
  catalog is a finite `seq<Page>`: `catalog[i]` is what the page with index
  `i + 1` shows once fully loaded. The traversal is a `while` loop over
  `pageIndex` with a `productList` accumulator. Its reference definition is
  `CategoryResult`, built on `Halt`, the first page that does not let the
  traversal go on.
- `aggregator.dfy` — `getData`. It concatenates the men's results and then the
  women's, and computes the brand list as in `[...new Set(productList.map(brand))]`.

The code extracts a page's items only on the branch that also advances
(index.js:72-80). So the page whose next-page control is not `'false'` is
recognised as the last page, but its own items are never collected. For a
2-page category with 3 + 2 cards, one might expect 5 records. As written, the
code returns the 3 records of page 1, and the model keeps that behaviour.
`Paginator.TwoPageCategoryKeepsFirstPageOnly` proves this example, and
`Paginator.StopsAtFirstPageNotFalse` states the general case.

## Model

| member | source | states |
|---|---|---|
| `Extractor.ExtractCard` | index.js:96-124 | A card extracts iff every required element is present. A failure names an absent element, and every element dereferenced before it (price, title, image, brand, sizes) is present. On success each field is the matched element's text or `src`. The price comes from `Price` when present, otherwise from `PriceBrief`. |
| `Extractor.ExtractAll` | index.js:92-128 | A page extracts iff every card does. On success there is exactly one record per card, equal position by position to that card's record. On failure the error names the first failing card and its missing element, and no partial list is returned. |
| `Extractor.GetAllItems` | index.js:91-129 | The `for` loop that pushes one record per card returns exactly `ExtractAll` of the page's cards. |
| `Paginator.DecimalRoundTrip` | index.js:63 | Reading back the decimal rendering of a page index gives that index. |
| `Paginator.PageUrlInjective` | index.js:63 | About `PageUrl`, the model of the line-63 template: two page indices of one category give the same listing URL only if they are equal. |
| `Paginator.PageUrlsDistinct` | index.js:63-64 | The URLs navigated to during a traversal (pages 1, 2, …) are pairwise distinct, so no page is loaded twice (for page indices as unbounded integers; see Left out). |
| `Paginator.Halt` | index.js:70-80 | The first position at or after the start where the page is missing, does not read exactly `'false'`, or fails extraction. Every page before it advances and extracts. |
| `Paginator.CollectedLength` | index.js:74-76 | The accumulated list has one record per card of the pages it covers. |
| `Paginator.CollectedPrefix` | index.js:76 | The accumulator only grows: the list after fewer pages is a prefix of the list after more pages. |
| `Paginator.CategoryResult` | index.js:55-89 | A traversal succeeds iff the page where it halts exists, has a next-page control, and that control does not read exactly `'false'`. `'true'` and an absent attribute both stop it. |
| `Paginator.StopsAtFirstPageNotFalse` | index.js:72-82 | On success the stop is at the first page whose attribute is not `'false'`. The result concatenates, in page order, the items of the pages before it. Its length is their card count, and the stopping page's cards are never included. |
| `Paginator.CategoryFailureCases` | index.js:64-74 | On failure the error names the page where the traversal halted and the reason: the index is beyond the catalog, the next-page control is missing (the attribute read throws), or a card fails extraction on an advancing page. |
| `Paginator.TwoPageCategoryKeepsFirstPageOnly` | index.js:72-80 | In a 2-page category (3 cards, then 2 cards of another brand, hidden on page 2) both pages are visited, only page 1's 3 records are returned, and page 2's record is not among them. |
| `Paginator.GetCategory` | index.js:55-89 | The loop from `pageIndex = 1` returns exactly `CategoryResult`. It navigates to the listing URLs of pages 1 … k, where k is one past `Halt`, and to no page beyond k. |
| `Aggregator.Dedup` | index.js:40 | The `Set`-order deduplication has no repeated value and holds exactly the values of its input. |
| `Aggregator.DedupFirstOccurrenceOrder` | index.js:40 | The deduplicated values are in strictly increasing order of their first occurrence in the input. |
| `Aggregator.DedupOfDistinct` | index.js:40 | A list without repeated values deduplicates to itself. |
| `Aggregator.DedupIdempotent` | index.js:40 | Deduplicating twice gives the same list as deduplicating once. |
| `Aggregator.Brands` | index.js:40 | No brand is listed twice. A string is listed iff some product carries it as its brand (exact string equality). |
| `Aggregator.BrandsFirstOccurrenceOrder` | index.js:40 | Brands are listed in the order of the first product that carries each one. |
| `Aggregator.GetData` | index.js:25-51 | Succeeds iff both category traversals succeed. `productList` is the men's records followed by the women's, and its length is the sum of the two. `brands` is `Brands(productList)`. A men's failure is returned without visiting the women's category. The navigations are the men's pages and then the women's. |

## Left out

- HTTP server, its routes, port and timeouts (index.js:1-23): I/O outside the core.
- Browser launch, viewport, `newPage` and `browser.close` (index.js:26-38): browser lifecycle. The page session is replaced by a catalog value per category.
- `scrollPageToBottom` (index.js:66-69): a foreign lazy-loading library with timing delays. Every page is taken as already fully loaded.
- The DOM queries `$`, `$$`, `$eval`, `getProperty` and `jsonValue`. The `Card` and `Page` datatypes give what they return. The selector strings are an external markup contract and appear only as comments.
- The extra `page.goto` to the fixed `nl/shopping/Men` URL (index.js:77). The navigation in `goToPage` (index.js:63-64) supersedes it, so `visited` records only that navigation.
- Error propagation: in the code, a throw inside the `goToPage` continuation is an unhandled rejection, and `getCategory` never resolves; the request hangs or the process exits, depending on Node's unhandled-rejection mode. For the throws the model has (a missing next-page control, a missing card element, an index past the catalog) it returns a `Failure` instead.
- Navigating past the last page of the finite catalog is modelled as the error `NoSuchPage`. What the real site serves there is not modelled. The code puts no bound on `pageIndex`: if the site answered every index with a control reading `'false'`, `getCategory` would never stop. The model's loop terminates only because the catalog is a finite sequence.
- A rejected `page.goto` (index.js:64, and the unawaited one at index.js:77 whose `.then` starts the next page) is not represented: every catalog page loads. In the code it is an unhandled rejection like the others, and a rejection at line 77 ends the traversal without resolving it.
- Promise/`.then` plumbing, the implicit global loop counter `i` (index.js:95) and `console.log` (index.js:42-45): within one request, none of them affects the results.
- Concurrency between requests: `i` is a global and `getAllItems` awaits inside its loop (index.js:99-117), so overlapping `GET /api` requests share one counter and one loop can skip cards or index past its own card list. The model covers one request at a time, with a loop-local index.
- `Paginator.PageUrlsDistinct`: `pageIndex` is a JavaScript Number; the model's `nat` ignores that `pageIndex + 1` stops changing at 2^53 and that numbers from 10^21 on render in exponent form, so "no page is loaded twice" holds of the model's unbounded index only.
