# Price-History, modelled in Dafny

Price-History is a price tracker for Amazon India and Flipkart products. A
signed-in user submits a product address. The server scrapes the product's
name, price and image: a headless browser reads Amazon pages, and a product
API answers for Flipkart. The server stores the product under the address
with its query string removed, so one address is tracked once per user. A
scheduled job re-scrapes every stored product every six hours. It records
each price change in an append-only price history and recomputes a buy/wait
recommendation. A one-off script normalises histories written in older
formats. The browser pages validate the forms and show each product: an arrow
and a colour for the last change, the lowest and highest price, a table of
changes, and a searchable, sortable list with summary statistics.

The model has one module per part of the program:

- `Recommendation`: the recommendation heuristic.
- `Platform`: the platform classification, the scraper dispatch and the
  Flipkart API scraper.
- `Canonical`: the two URL-cleaning rules.
- `Products`: the stored product as a class. Its fields are assigned in
  place, `Doc()` is its value, and the store is a class holding the products.
- `Controller`: `addOrUpdateProduct` and `getProducts`.
- `Updater`: the scheduled pass.
- `AmazonBrowser` and `AmazonHttp`: the two Amazon scrapers, which share the
  price-text parsing of `PriceText`.
- `Migration`: the migration script.
- `Validation`, `TrackProducts`, `ProductCard`, `PriceHistoryPage` and
  `MyProducts`: the front-end logic.
- `Domain`, `Text` and `Wrappers`: the shared records, the string helpers
  (`trim`, `includes`, `toLowerCase`, `split("?")[0]`, `a || b || c`) and
  `Option`/`Result`.

The parts that take time or touch the outside world are parameters:

- the scrapers' network and browser answers;
- `new URL(...)` validity;
- the clock (`today`, `now`, the schema's load time);
- whether the user confirms a deletion;
- the outcome of a request.

The scheduled pass takes its scraper as a function from URL to scrape result.
`Updater.Dispatcher(env)` is the function the job uses: the platform dispatch
`scrapeProduct` under the scraper answers `env`.

Four places where the model follows what the code does:

- **The "Buy" verdict is unreachable.** Its guard (below the mean) is already
  caught by the "Strong Buy" test before it.
- **Platform classification is a substring test over the whole URL.** A
  Flipkart address whose query mentions `amazon.in` is scraped as Amazon.
- **`validateUrl` runs on the untrimmed text.** A pasted address with a leading
  space is refused.
- **Cleaning removes only one trailing `/`.** So the cleaning is not
  idempotent on addresses that end in `//`.

The product schema calls the sample date `Date`, with a capital letter. The
migration script reads `date`, `Date` and `createdAt` in that order, and
writes `date` itself: `date` is not a path of the schema. Every entry the
application writes has only `Date`, so the first run of the migration marks
every product with a history changed and writes it back
(`Migration.EntryWithoutDateRewrites`).

## Model

| member | source | states |
|---|---|---|
| Wrappers.FirstSome | priceHistoryFrontend/src/pages/PriceHistory.jsx:21 | the first present element: None exactly when every element is absent, otherwise the element at the first index holding one |
| Text.Trim | priceHistoryFrontend/src/pages/TrackProducts.jsx:24 | `trim()`: empty exactly when the text is all whitespace; otherwise neither end is whitespace |
| Text.TrimWindow | priceHistoryFrontend/src/pages/TrackProducts.jsx:24 | the trimmed text is a window of the input with only whitespace before and after it |
| Text.OrElse | scrapers/amazonScraper.js:41 | the `a \|\| b \|\| c` chain on strings: "" exactly when all are "", otherwise the first non-empty one |
| Text.ToLower | priceHistoryFrontend/src/pages/MyTrackProducts.jsx:47 | `toLowerCase()` keeps the length and maps each character on its own |
| Text.Before | controllers/productController.js:9 | `split("?")[0]`: a `?`-free prefix of the text that reaches either the end or the first `?` |
| Text.ContainsAt | scrapers/platformScraper.js:6-7 | `includes`: an occurrence of the word at some position makes it true |
| Text.ContainsWitness | scrapers/platformScraper.js:6-7 | `includes` is true only because of an occurrence of the word at some position |
| Text.OrElseOfTwo | scrapers/amazonScraper.js:26 | `a \|\| b`: the first when it is non-empty, else the second |
| Text.OrElseOfThree | scrapers/amazonAPI.js:84 | `a \|\| b \|\| c`: the first non-empty of the first two, else the third |
| Text.Utf16Length | priceHistoryFrontend/src/utils/validation.js:15 | JavaScript's `length`: between the number of characters and twice it, and equal to it when every character is in the Basic Multilingual Plane |
| Text.Utf16LengthAppend | priceHistoryFrontend/src/utils/validation.js:15 | the `length` of a concatenation is the sum of the parts' lengths |
| Domain.Prices | utils/aiRecommendation.js:4 | `priceHistory.map(p => p.price)`: same length, price by price |
| Recommendation.Positive | utils/aiRecommendation.js:4 | the `p > 0` filter keeps only positive prices, and is empty exactly when no price is positive |
| Recommendation.GetRecommendation | utils/aiRecommendation.js:1-15 | the answer is always "Strong Buy", "wait" or "Neutral", and never "Buy" |
| Recommendation.FromPositive | utils/aiRecommendation.js:5-14 | the verdict on the positive prices never yields "Buy" |
| Recommendation.Verdict | utils/aiRecommendation.js:11-14 | the four-way test never reaches "Buy" |
| Recommendation.CompareWithMean | utils/aiRecommendation.js:7 | comparing `cur * n` with the sum decides the same as comparing `cur` with the mean, both ways |
| Recommendation.FromPositiveByMean | utils/aiRecommendation.js:7-14 | the verdict is the test against the mean and against the last positive price |
| Recommendation.VerdictOfHistory | utils/aiRecommendation.js:4-14 | with a positive price in the history, the answer is the verdict against the mean and the last positive price |
| Recommendation.NeutralWithoutPositivePrice | utils/aiRecommendation.js:2-5 | no history, an empty one, or one with no positive price gives "Neutral" whatever the current price |
| Recommendation.Classification | utils/aiRecommendation.js:9-14 | "Strong Buy" iff below the mean or below the last positive price; "wait" iff neither and above the mean; "Neutral" iff equal to the mean and not below the last price |
| Recommendation.BuyGuardCoveredByStrongBuy | utils/aiRecommendation.js:11-12 | every price that passes the "Buy" guard has already been answered "Strong Buy" |
| Recommendation.PricesAppend | utils/aiRecommendation.js:4 | the price projection distributes over concatenation |
| Recommendation.PositiveAppend | utils/aiRecommendation.js:4 | the positive filter distributes over concatenation |
| Recommendation.PositiveOfInsert | utils/aiRecommendation.js:4 | inserting a non-positive sample anywhere leaves the filtered prices unchanged |
| Recommendation.IgnoresNonPositiveSample | utils/aiRecommendation.js:4-14 | inserting a zero or negative sample anywhere in the history does not change the recommendation |
| Recommendation.ThroughPositive | utils/aiRecommendation.js:4-5 | the answer for a history is the verdict on its positive prices |
| Recommendation.SingleSampleIsNeutral | controllers/productController.js:56 | a new product, whose history is its one scraped price, is labelled "Neutral" |
| Recommendation.DependsOnPricesOnly | utils/aiRecommendation.js:4 | histories with the same prices get the same answer, whatever their dates |
| Platform.GetPlatform | scrapers/platformScraper.js:5-9 | Amazon iff the URL contains `amazon.in`; Flipkart iff it does not but contains `flipkart.com`; otherwise the "Unsupported platform" error |
| Platform.ClassifiesByQueryText | scrapers/platformScraper.js:6 | an address of another site whose query mentions `amazon.in` is classified as Amazon |
| Platform.Query | scrapers/platformScraper.js:18 | a query string is found only in a URL that has a `?` |
| Platform.SearchParam | scrapers/platformScraper.js:18 | `searchParams.get(key)` finds a value only in a URL with a `?` |
| Platform.SearchParamAfter | scrapers/platformScraper.js:18 | the parameter is read from the text after the first `?` |
| Platform.SearchParamOfParts | scrapers/platformScraper.js:18 | a URL made of a `?`-free base, a `?` and a query, with no `#`, has that query's parameters |
| Platform.ParamOfSinglePair | scrapers/platformScraper.js:18 | a query that is a single `key=value` pair gives `value` for `key` |
| Platform.FlipkartWithoutQueryHasNullPid | scrapers/platformScraper.js:18 | a URL without `?` gives a null `pid` |
| Platform.ScrapeFlipkartApi | scrapers/flipkartScraper.js:3-25 | a failed call gives the empty result; otherwise the price is the API's price or 0, the name is the title when there is one and a non-empty name is the title, the image is the first listed image when there is one and a non-empty image is it |
| Platform.ScrapeProduct | scrapers/platformScraper.js:11-22 | an unsupported URL throws "Unsupported platform"; Amazon goes to the browser scraper; Flipkart parses the URL and passes only its `pid` to the API |
| Platform.UnsupportedConsultsNoScraper | scrapers/platformScraper.js:11-12 | for an unsupported URL no scraper is consulted: the outcome is the same whatever they would answer |
| Platform.FlipkartSeesOnlyPid | scrapers/platformScraper.js:17-19 | two parsable Flipkart URLs with the same `pid` scrape the same |
| Platform.DispatchFailures | scrapers/platformScraper.js:11-22 | a failure is "Unsupported platform", the URL parse error, or the Amazon scraper's own; the final throw is unreachable |
| Canonical.PatternsWellFormed | controllers/productController.js:8-13 | both patterns' markers start with `/` and their fixed parts hold no `?` |
| Canonical.SegmentEnd | controllers/productController.js:8 | `[^/]+` can only stop at the first `/` or the end |
| Canonical.IdEnd | controllers/productController.js:8 | the greedy id class stops at the first non-id character |
| Canonical.MatchAt | controllers/productController.js:8-13 | a match starting at a position is prefix, slug, marker and a maximal id run |
| Canonical.MatchAtComplete | controllers/productController.js:8-13 | every text of the language at a position is found, and the found match is the longest |
| Canonical.MatchInPrefix | controllers/productController.js:8-13 | a match in a prefix is still a match in the whole text |
| Canonical.ShapedAlone | controllers/productController.js:8-13 | a matched text cut out of the URL is still in the language |
| Canonical.MatchAlone | controllers/productController.js:8-13 | a matched text on its own is one whole match |
| Canonical.FirstMatch | controllers/productController.js:8-13 | the leftmost match: none starts earlier, and None means none exists |
| Canonical.Clean | controllers/productController.js:7-15 | with a match, the result is one whole match contained in the URL; without one, a `?`-free prefix of the URL |
| Canonical.NoMatchAfterFallback | controllers/productController.js:9-14 | the fallback output holds no match |
| Canonical.CleanAmazonUrl | controllers/productController.js:7-10 | `cleanAmazonUrl`: the matched `/dp/` address, or the `?`-free prefix |
| Canonical.CleanFlipkartUrl | controllers/productController.js:12-15 | `cleanFlipkartUrl`: the matched `/p/` address, or the `?`-free prefix |
| Canonical.CleanMatchStable | controllers/productController.js:7-15 | a URL with a match cleans to the match, which cleans to itself |
| Canonical.CleanFallback | controllers/productController.js:9 | without a match, the URL cleans to the text before its `?` with one trailing `/` removed |
| Canonical.StripSlashTwice | controllers/productController.js:9 | removing a trailing `/` a second time changes the text exactly when it ended in `//` |
| Canonical.CleanFallbackStableIff | controllers/productController.js:9 | without a match, cleaning twice differs from cleaning once exactly when the text before the `?` ends in `//` |
| Canonical.CleanIdempotentIff | controllers/productController.js:9-14 | cleaning is idempotent exactly when it is not a fallback whose text ends in `//` |
| Canonical.BeforeAbsent | controllers/productController.js:9 | splitting a `?`-free text at `?` returns it whole |
| Canonical.NoMatchInShortText | controllers/productController.js:8-13 | a text shorter than the host prefix holds no match |
| Canonical.ShortUrlFallback | controllers/productController.js:9 | a URL too short to match and without `?` cleans to itself with one trailing `/` removed |
| Canonical.DoubleSlashNotIdempotent | controllers/productController.js:9 | "https://x.com//" cleans to "https://x.com/" and then to "https://x.com" |
| Canonical.QuestionMarkInMatch | controllers/productController.js:8-13 | inside a match a `?` can only sit in the slug |
| Canonical.QueryInMatch | controllers/productController.js:8-13 | a `?` in a matched text lies in its slug |
| Canonical.CleanOfMatch | controllers/productController.js:8-9 | a URL with a match cleans to the leftmost match |
| Canonical.QueryOnlyInSlug | controllers/productController.js:7-15 | a cleaned URL keeps a `?` only inside the slug of a match |
| Products.Repriced | controllers/productController.js:59-70 | a changed price moves the current price to previous and appends one sample; an unchanged one only recomputes the recommendation; identity, name, image and `lastChecked` are kept |
| Products.Checked | cron/priceUpdater.js:11-23 | the updater's step is the controller's reconciliation, plus `lastChecked` set to the check time |
| Products.NewDoc | controllers/productController.js:47-57 | a new product: the scraped fields, previous price 0, a one-sample history, "Neutral", and the schema's `lastChecked` default |
| Products.NewDocConsistent | controllers/productController.js:47-57 | a new product is consistent: its history ends at its current price, and its label is the one the history gives |
| Products.RepricedConsistent | controllers/productController.js:59-70 | reconciling or checking keeps a product consistent at any price |
| Products.RepricedIdempotent | controllers/productController.js:60-69 | a second update at the same price changes nothing |
| Products.HistoryAppendOnly | controllers/productController.js:60-63 | an update keeps every earlier sample and appends one exactly when the price changed |
| Products.Product.constructor | models/product.js:8-21 | a stored product holds the given document |
| Products.Product.Reprice | controllers/productController.js:59-70 | the in-place field assignments leave the document `Repriced` |
| Products.Product.Check | cron/priceUpdater.js:11-22 | the in-place assignments leave the document `Checked` |
| Products.DocsOf | cron/priceUpdater.js:8 | the stored documents, in order |
| Products.FindIndex | controllers/productController.js:44 | the first document with that URL and owner, and None only when none has both |
| Products.FindIndexAt | controllers/productController.js:44 | a match with no earlier match is the one found |
| Products.FindIndexAbsent | controllers/productController.js:44 | with no matching document, nothing is found |
| Products.Store.constructor | models/product.js:18 | an empty collection whose `lastChecked` default is fixed at load time |
| Products.Store.FindOne | controllers/productController.js:44 | the scan returns `FindIndex` of the stored documents |
| Products.Store.RepriceAt | controllers/productController.js:59-72 | only the chosen document changes, to `Repriced`; ids stay distinct |
| Products.Store.CheckAt | cron/priceUpdater.js:11-23 | only the chosen document changes, to `Checked`; the product list and the distinct ids stay |
| Products.Store.Insert | controllers/productController.js:72 | saving a new product appends its document under a fresh id |
| Controller.MapError | controllers/productController.js:76-89 | 400 iff the message mentions "Unsupported platform" or "Failed to scrape", or the error is a ValidationError; each of the three gets its own reply, in that order of precedence; otherwise 500 with the message |
| Controller.CleanKey | controllers/productController.js:40-41 | an address containing `amazon.in` is cleaned by the Amazon rule and every other one by the Flipkart rule |
| Controller.Admit | controllers/productController.js:22-39 | admitted iff a URL is given, it parses, the scrape succeeds and yields a name; the admitted value is the scrape |
| Controller.AddOrUpdate | controllers/productController.js:17-90 | 200 exactly when admitted; a refused request stores nothing; a 200 reply carries the product |
| Controller.AddOrUpdateProduct | controllers/productController.js:17-90 | on the store, the reply and the stored documents are those of `AddOrUpdate` |
| Controller.NameDecidesAcceptance | controllers/productController.js:37-39 | an empty scraped name is refused with 400 and nothing stored; a name is accepted even at price 0 |
| Controller.UnsupportedUrlRejected | controllers/productController.js:80-81 | a parsable URL of neither platform gets the "Unsupported platform" reply and nothing is stored |
| Controller.CreateOrReconcile | controllers/productController.js:41-70 | an untracked (cleaned URL, owner) pair appends one new "Neutral" document; a tracked one reconciles the first match in place |
| Controller.AddOrUpdateIdempotent | controllers/productController.js:44-72 | repeating a request whose scrape answers the same leaves the store and the reply unchanged: no duplicate and no second sample |
| Controller.AddOrUpdateKeepsConsistent | controllers/productController.js:17-90 | every request keeps every stored document consistent |
| Controller.GetProducts | controllers/productController.js:93-103 | exactly the owner's documents, in stored order, each with its recommendation recomputed from its history and current price and every other field as stored |
| Controller.Unlabelled | controllers/productController.js:100-101 | the documents without their recommendation: the part the refresh must keep |
| Controller.Owned | controllers/productController.js:95 | `find({ user })`: every returned document is a stored one of that owner, and every stored one of that owner is returned |
| Controller.OwnedAppend | controllers/productController.js:95 | the query distributes over concatenation, so the stored order is kept |
| Controller.RefreshIsIdentityOnConsistent | controllers/productController.js:93-103 | on consistent documents the refresh returns the owner's documents unchanged |
| Controller.GetProductsReply | controllers/productController.js:105 | the reply is 200 with the list `GetProducts` gives |
| Controller.CleanedFlipkartHasNoPid | controllers/productController.js:12-15 | a cleaned Flipkart URL has a `pid` only when its slug carries a `?` |
| Controller.SlugMayCarryPid | controllers/productController.js:13 | a URL whose slug holds `?pid=` is its own cleaned form |
| Controller.PidSurvivesInSlug | scrapers/platformScraper.js:18 | that URL still gives a `pid` to the updater |
| Controller.PidParam | scrapers/platformScraper.js:18 | the parameter value runs to the end of the query |
| Updater.Reached | cron/priceUpdater.js:9-10 | the pass gets through exactly the products before the first scrape that throws |
| Updater.Pass | cron/priceUpdater.js:8-24 | the pass returns one document per stored product |
| Updater.PassAt | cron/priceUpdater.js:9-24 | product `i` after the pass: `Checked` at its scraped price when the pass reaches it, untouched otherwise |
| Updater.PassUpdates | cron/priceUpdater.js:9-24 | every product reached is `Checked` at its scraped price and every later one is left as it was |
| Updater.PassFailure | cron/priceUpdater.js:9-10 | the pass fails exactly when some scrape throws, and then with the first such error |
| Updater.Midway | cron/priceUpdater.js:9 | the documents part-way through the loop keep their number, and the next one to visit is still as it was |
| Updater.MidwayStep | cron/priceUpdater.js:10-23 | checking the next product moves the loop on by one product of the pass |
| Updater.MidwayDone | cron/priceUpdater.js:9-24 | once the loop has got as far as the pass gets, the documents are those of the pass |
| Updater.CheckNext | cron/priceUpdater.js:10-23 | one turn of the loop: the next product is checked, or its scrape's error ends the pass there with nothing changed |
| Updater.UnsupportedStopsPass | scrapers/platformScraper.js:5-12 | under the job's dispatcher, a first product on no supported platform ends the pass with "Unsupported platform" and changes nothing |
| Updater.RunPass | cron/priceUpdater.js:8-24 | the loop over the store leaves exactly the documents and the failure of `Pass` |
| Updater.ZeroPriceRecorded | cron/priceUpdater.js:11-14 | a 0 price from the scraper is recorded like any change: it becomes the current price, the old one becomes previous, and one sample is appended |
| Updater.ReachedAreStamped | cron/priceUpdater.js:18-22 | each product reached gets the check time and a fresh recommendation, changed or not |
| Updater.PassKeepsConsistent | cron/priceUpdater.js:8-24 | a pass keeps every document consistent |
| Updater.SecondPassAppendsNothing | cron/priceUpdater.js:11-17 | a second pass at unchanged prices appends no sample |
| PriceText.Strip | scrapers/amazonScraper.js:47 | `replace(/[₹,\s]/g, "")`: keeps every other character and drops every one of the class |
| PriceText.StripAppend | scrapers/amazonScraper.js:47 | stripping distributes over concatenation |
| PriceText.StripIdempotent | scrapers/amazonScraper.js:47 | stripping twice is stripping once |
| PriceText.StretchEnd | scrapers/amazonAPI.js:61 | the end of a greedy run: every character before it is in the run, the one at it is not |
| PriceText.FirstWhere | scrapers/amazonAPI.js:61 | the first position satisfying the test, none before it |
| PriceText.FirstRun | scrapers/amazonAPI.js:61 | `match(/[\d.]+/)`: None iff no digit or dot; otherwise the leftmost run of digits and dots, taken as long as it goes |
| PriceText.LeftmostRunUnique | scrapers/amazonAPI.js:61 | at most one text is the leftmost longest run, so that description fixes the match |
| PriceText.FirstNumber | scrapers/amazonScraper.js:48 | `match(/[0-9]+\.?[0-9]*/)`: None iff no digit; otherwise the number starting at the first digit, with at most one dot, taken as long as the pattern allows |
| PriceText.LeftmostNumberUnique | scrapers/amazonScraper.js:48 | at most one text is the leftmost longest number, so that description fixes the match |
| PriceText.FirstNumberOneDot | scrapers/amazonScraper.js:48 | the number matched holds at most one dot |
| PriceText.DigitsReadWhole | scrapers/amazonAPI.js:61 | a text of digits is matched whole by both patterns |
| PriceText.Pow10 | scrapers/amazonScraper.js:49 | powers of ten are positive |
| PriceText.DecimalValue | scrapers/amazonScraper.js:49 | a decimal written with digits is not negative |
| PriceText.ParseFloat | scrapers/amazonAPI.js:63 | `parseFloat` of a digits-and-dots run is NaN or a non-negative number |
| PriceText.ParseFloatNaN | scrapers/amazonAPI.js:63 | NaN exactly when the run is empty or starts with a dot that no digit follows |
| PriceText.SecondDotEndsNumber | scrapers/amazonAPI.js:63 | `parseFloat` stops at the second dot |
| PriceText.DigitLeadIsFinite | scrapers/amazonScraper.js:49 | a run starting with a digit parses to a number |
| PriceText.ShowNat | priceHistoryFrontend/src/pages/TrackProducts.jsx:48 | a number written in decimal is a non-empty string of digits |
| PriceText.NatOfShowNat | priceHistoryFrontend/src/pages/TrackProducts.jsx:48 | reading back a written number gives the number |
| PriceText.ParseShownNat | scrapers/amazonScraper.js:49 | `parseFloat` of a written number gives the number |
| AmazonHttp.NameAt | scrapers/amazonAPI.js:37-39 | a selector's name is "" or its element's trimmed text |
| AmazonHttp.Names | scrapers/amazonAPI.js:36-42 | each selector's offer, in order |
| AmazonHttp.PriceAt | scrapers/amazonAPI.js:57-66 | a selector offers a price only when its trimmed text is non-empty and holds a run once cleaned |
| AmazonHttp.Prices | scrapers/amazonAPI.js:56-68 | each selector's price offer, in order |
| AmazonHttp.ImageSource | scrapers/amazonAPI.js:84 | the element's `src`, else its `data-old-hires`, else its `data-a-dynamic-image` |
| AmazonHttp.ImageAt | scrapers/amazonAPI.js:82-88 | no element gives ""; an element's image source is offered when it starts with "http" and refused ("") otherwise |
| AmazonHttp.Images | scrapers/amazonAPI.js:81-90 | each selector's image offer, in order |
| AmazonHttp.HttpPrice | scrapers/amazonAPI.js:45-68 | the first selector's price offer, or 0 when none offers one |
| AmazonHttp.FindName | scrapers/amazonAPI.js:27-42 | the loop returns the first non-empty name offer |
| AmazonHttp.FindPrice | scrapers/amazonAPI.js:45-68 | the loop returns `HttpPrice` |
| AmazonHttp.PassOver | scrapers/amazonAPI.js:58-62 | a selector without an offer keeps "no offer so far" |
| AmazonHttp.FindImage | scrapers/amazonAPI.js:71-90 | the loop returns the first image offer |
| AmazonHttp.ScrapeAmazonWithHttp | scrapers/amazonAPI.js:5-104 | a failed fetch throws with the "HTTP scraping failed: " prefix; otherwise the three searches' results, empty name and 0 price included |
| AmazonHttp.HttpNameFirstNonBlank | scrapers/amazonAPI.js:36-42 | the name is "" iff every selector is missing or blank; otherwise it is the trimmed text of the first selector that is not |
| AmazonHttp.NoRunKeepsZero | scrapers/amazonAPI.js:45-62 | without a digit or a dot in any cleaned text, the price stays 0 |
| AmazonHttp.HttpPriceShape | scrapers/amazonAPI.js:63 | a found number is never negative |
| AmazonHttp.HttpImageFirstHttp | scrapers/amazonAPI.js:81-90 | the image is "" iff no selector's element has a source starting with "http"; otherwise it is the source of the first selector whose element has one |
| AmazonBrowser.GetText | scrapers/amazonScraper.js:14-21 | text is read only from an element that exists |
| AmazonBrowser.GetImage | scrapers/amazonScraper.js:23-30 | the image is the element's `src`, else its `data-old-hires`, else "" |
| AmazonBrowser.Texts | scrapers/amazonScraper.js:41 | each selector's text, in order |
| AmazonBrowser.BrowserExtract | scrapers/amazonScraper.js:36-62 | the name is "" iff both name selectors give nothing, the image is "" iff both image selectors give nothing, and the price is never negative |
| AmazonBrowser.BrowserPrice | scrapers/amazonScraper.js:46-50 | the parsed price is never negative, and is 0 when the cleaned text holds no digit |
| AmazonBrowser.ReadName | scrapers/amazonScraper.js:36-37 | `#productTitle`, else `h1` |
| AmazonBrowser.OrElseOfFour | scrapers/amazonScraper.js:39-42 | the `\|\|` chain over four texts is the first non-empty one, else the last |
| AmazonBrowser.ReadPriceString | scrapers/amazonScraper.js:39-42 | the first non-empty text of the four price selectors |
| AmazonBrowser.ReadAltPrice | scrapers/amazonScraper.js:53 | the first non-empty text of the two fallback selectors |
| AmazonBrowser.ParsePrice | scrapers/amazonScraper.js:46-50 | the price changes only when a number is matched, and then to the parsed value |
| AmazonBrowser.ReadImage | scrapers/amazonScraper.js:61-62 | the wrapper image, else `#landingImage` |
| AmazonBrowser.Extract | scrapers/amazonScraper.js:36-65 | the reads in source order give `BrowserExtract` |
| AmazonBrowser.Browser.constructor | scrapers/amazonScraper.js:5 | a launched browser is open, not yet closed, with the given close outcomes |
| AmazonBrowser.Browser.Close | scrapers/amazonScraper.js:64-67 | a call counts one close and throws the outcome given for it; a close that returns leaves the browser closed |
| AmazonBrowser.AmazonScrapeProduct | scrapers/amazonScraper.js:4-71 | a failed launch throws with no browser; a setup failure throws and leaves the browser open; a navigation error closes once and throws the close's error, else its own; otherwise a close that returns gives the extracted fields, and one that throws is closed again by the catch, which throws the second close's error, else the first's |
| AmazonBrowser.NameFallback | scrapers/amazonScraper.js:36-37 | `h1` is used only when `#productTitle` gives nothing |
| AmazonBrowser.SecondFallbackOnlyAtZero | scrapers/amazonScraper.js:45-59 | a non-zero first price stands; at 0 the second fallback alone decides |
| AmazonBrowser.DigitsPriceRoundTrip | scrapers/amazonScraper.js:46-50 | a price written as plain digits reads back as that number |
| AmazonBrowser.DecorationIgnored | scrapers/amazonScraper.js:47 | rupee signs, commas and whitespace do not change the price |
| Migration.RawDate | scripts/migrate_price_history.js:24 | truthy iff one of `date`, `Date`, `createdAt` is; the first truthy one is taken |
| Migration.CoercePrice | scripts/migrate_price_history.js:42 | `Number(price) \|\| 0`: NaN becomes 0, a number is kept |
| Migration.NormalizeEntry | scripts/migrate_price_history.js:20-45 | no usable date: stamped `now` and marked changed; a valid date: kept, and marked only when `date == null` or `date === Date` |
| Migration.NormalizeHistory | scripts/migrate_price_history.js:20 | entry by entry, same length and order |
| Migration.TopTwo | scripts/migrate_price_history.js:48 | the two latest entries under (date, position), and every other entry before the second |
| Migration.SecondLatest | scripts/migrate_price_history.js:48-50 | `sorted[length - 2]`: exactly one other entry sorts after it |
| Migration.MigrateProduct | scripts/migrate_price_history.js:16-58 | the history is normalised; changed iff an entry was marked or the previous price is backfilled; a missing or zero previous price with two or more entries becomes the second-latest price |
| Migration.Writes | scripts/migrate_price_history.js:60-61 | never more write-backs than products |
| Migration.CountChanged | scripts/migrate_price_history.js:60-62 | never more than the products |
| Migration.CountChangedZeroIff | scripts/migrate_price_history.js:60-62 | the count is 0 exactly when no product is marked changed |
| Migration.MigrateOne | scripts/migrate_price_history.js:20-55 | the per-product body computes exactly `MigrateProduct`: the normalised history, the changed flag and the previous price |
| Migration.WritesStep | scripts/migrate_price_history.js:16-64 | the write-backs of a run are the current product's write-back, if it changed, followed by those of the rest |
| Migration.Migrate | scripts/migrate_price_history.js:16-65 | the loop saves exactly the changed products, in order, and counts them |
| Migration.CountMatchesWrites | scripts/migrate_price_history.js:60-62 | the count equals the number of writes |
| Migration.ChangedIgnoresPrices | scripts/migrate_price_history.js:17-55 | whether a product changes does not depend on its sample prices |
| Migration.ValidDateKept | scripts/migrate_price_history.js:36-38 | a valid `date` that is not `=== Date` is kept without marking |
| Migration.LegacyDateMarks | scripts/migrate_price_history.js:33-35 | a date found only in a legacy field is taken and marks the product |
| Migration.EntryWithoutDateRewrites | scripts/migrate_price_history.js:24-35 | a product with any history entry lacking `date` is marked changed, whatever that entry's dates are |
| Migration.FalsyDateReplacedSilently | scripts/migrate_price_history.js:24-38 | a falsy non-null `date` is replaced by the legacy `Date` without marking the product |
| Migration.HistoryShapeKept | scripts/migrate_price_history.js:20-45 | no entry is reordered, added or dropped, and each price is coerced |
| Validation.AfterLetterIff | priceHistoryFrontend/src/utils/validation.js:4 | the automaton for `([ -]?[A-Za-z]+)*$` accepts exactly letters and single separators ending in a letter |
| Validation.NamePatternIff | priceHistoryFrontend/src/utils/validation.js:4 | the regular expression accepts exactly letters and single separators, starting and ending with a letter |
| Validation.ValidateName | priceHistoryFrontend/src/utils/validation.js:2-7 | accepted iff at least three characters and well formed |
| Validation.NameExamples | priceHistoryFrontend/src/utils/validation.js:2-7 | "Al" is well formed but too short; "Mary-Jane Lee" passes; "Ann  Lee" and "Ann-" fail |
| Validation.EmailAtMatches | priceHistoryFrontend/src/utils/validation.js:10 | a witness `@`/`.` pair gives a matched substring |
| Validation.MatchHasEmailAt | priceHistoryFrontend/src/utils/validation.js:10 | a matched substring gives a witness pair |
| Validation.EmailIffSomeMatch | priceHistoryFrontend/src/utils/validation.js:9-12 | accepted iff some substring is non-space, `@`, non-space, `.`, non-space |
| Validation.EmailMonotone | priceHistoryFrontend/src/utils/validation.js:10 | text added around an accepted address keeps it accepted (the pattern is unanchored) |
| Validation.ValidateEmail | priceHistoryFrontend/src/utils/validation.js:9-12 | an accepted address has at least five characters, an `@` and a `.` |
| Validation.HasChar | priceHistoryFrontend/src/utils/validation.js:17-19 | a character class occurs iff some character is in it |
| Validation.ValidatePassword | priceHistoryFrontend/src/utils/validation.js:14-27 | accepted iff at least six UTF-16 code units long with an upper-case letter, a digit and a listed special character |
| Validation.PasswordMonotone | priceHistoryFrontend/src/utils/validation.js:14-27 | appending to an accepted password keeps it accepted |
| Validation.PasswordWitnesses | priceHistoryFrontend/src/utils/validation.js:14-27 | six characters with an upper-case letter, a digit and a special character are accepted |
| Validation.NoLowercaseRequired | priceHistoryFrontend/src/utils/validation.js:14-27 | "ABCDE1!" passes with no lower-case letter |
| Validation.AstralCharCountsTwice | priceHistoryFrontend/src/utils/validation.js:15 | "Aa1!" followed by an emoji is five characters but six code units long, and is accepted |
| TrackProducts.ValidateUrl | priceHistoryFrontend/src/pages/TrackProducts.jsx:12-17 | under either shop's prefix: accepted iff something follows the prefix and its first character is not a line terminator; without either prefix: refused |
| TrackProducts.PrefixesClash | priceHistoryFrontend/src/pages/TrackProducts.jsx:13-14 | two prefixes that differ at a shared position cannot both start a text |
| TrackProducts.InsecureOrBareHostRefused | priceHistoryFrontend/src/pages/TrackProducts.jsx:12-17 | `http://` addresses and hosts without `www.` are refused |
| TrackProducts.PrefixWordContained | scrapers/platformScraper.js:6-7 | a URL that starts with a shop's prefix contains the shop's name, so the substring test finds it |
| TrackProducts.AcceptedHasPlatform | priceHistoryFrontend/src/pages/TrackProducts.jsx:12-17 | an accepted address never makes the server's classification throw, and an Amazon India one is classified as Amazon |
| TrackProducts.FlipkartAddressMayClassifyAsAmazon | priceHistoryFrontend/src/pages/TrackProducts.jsx:14 | a Flipkart address whose query mentions `amazon.in` passes the form and is classified as Amazon |
| TrackProducts.HandleSubmit | priceHistoryFrontend/src/pages/TrackProducts.jsx:19-38 | the request is sent iff the untrimmed text passes `validateUrl`; blank text gets the empty-field message; other refusals get the invalid-URL message |
| TrackProducts.LeadingSpaceRefused | priceHistoryFrontend/src/pages/TrackProducts.jsx:24-32 | a valid address with a leading space is refused |
| TrackProducts.FailureMessage | priceHistoryFrontend/src/pages/TrackProducts.jsx:44-48 | never empty; the server's `error` first, then its `message`, then "Request failed with status" and the status when it is not 0, else the generic text; no response gives the generic text |
| TrackProducts.StatusShownWithoutMessage | priceHistoryFrontend/src/pages/TrackProducts.jsx:48 | without a server message, a non-zero status is shown in decimal |
| ProductCard.PriceChangeIcon | priceHistoryFrontend/src/components/ProductCard.jsx:19-24 | down iff there is a previous price and the current one is lower; up iff higher; flat iff no previous price or equal |
| ProductCard.PriceChangeColor | priceHistoryFrontend/src/components/ProductCard.jsx:12-17 | green iff there is a previous price and the current one is lower; red iff higher; gray iff no previous price or equal |
| ProductCard.ColorMatchesIcon | priceHistoryFrontend/src/components/ProductCard.jsx:12-24 | the colour goes with the arrow: down green, up red, flat gray, each both ways |
| ProductCard.RecommendationColor | priceHistoryFrontend/src/components/ProductCard.jsx:26-30 | green iff the lower-cased label contains "buy"; yellow iff it does not but contains "wait"; blue iff it contains neither |
| ProductCard.MissingCharNotContained | priceHistoryFrontend/src/components/ProductCard.jsx:27-28 | a text missing a character of a word does not contain the word |
| ProductCard.ContainsAfterLower | priceHistoryFrontend/src/components/ProductCard.jsx:27 | letters that lower-case to a word put that word in the lower-cased text |
| ProductCard.StrongBuyIsGreen | priceHistoryFrontend/src/components/ProductCard.jsx:27 | "Strong Buy" is green |
| ProductCard.WaitIsYellow | priceHistoryFrontend/src/components/ProductCard.jsx:28 | "wait" is yellow |
| ProductCard.NeutralIsBlue | priceHistoryFrontend/src/components/ProductCard.jsx:29 | "Neutral" is blue |
| ProductCard.ServerRecommendationColors | priceHistoryFrontend/src/components/ProductCard.jsx:26-30 | each label the server gives gets its own colour |
| ProductCard.BuyWinsOverWait | priceHistoryFrontend/src/components/ProductCard.jsx:27-28 | a text mentioning "buy" is green whatever else it says |
| ProductCard.ToLowerIdempotent | priceHistoryFrontend/src/components/ProductCard.jsx:27 | lower-casing twice is lower-casing once |
| ProductCard.RecommendationColorIgnoresCase | priceHistoryFrontend/src/components/ProductCard.jsx:27-28 | the colour does not depend on letter case |
| ProductCard.TruncateName | priceHistoryFrontend/src/components/ProductCard.jsx:32-34 | a short name is kept; a longer one is its first `maxLength` characters followed by "..." |
| ProductCard.TruncateBounds | priceHistoryFrontend/src/components/ProductCard.jsx:32-34 | at most `maxLength + 3` characters, starting like the name |
| ProductCard.TruncateIdempotent | priceHistoryFrontend/src/components/ProductCard.jsx:32-34 | truncating a shown name again changes nothing |
| ProductCard.CardName | priceHistoryFrontend/src/components/ProductCard.jsx:57 | the card's name is at most 63 characters |
| ProductCard.PreviousPriceRow | priceHistoryFrontend/src/components/ProductCard.jsx:68-80 | the row is shown iff the previous price is positive, and shows that price |
| ProductCard.ShownRowComparesPrices | priceHistoryFrontend/src/components/ProductCard.jsx:68-80 | in a shown row the arrow compares the two prices, both ways |
| PriceHistoryPage.Find | priceHistoryFrontend/src/pages/PriceHistory.jsx:21 | None iff no product has the id; otherwise a listed product with the id |
| PriceHistoryPage.FindFirst | priceHistoryFrontend/src/pages/PriceHistory.jsx:21 | the product found is the first with the id |
| PriceHistoryPage.FetchProduct | priceHistoryFrontend/src/pages/PriceHistory.jsx:17-35 | a failed request shows the fetch error; a missing id shows "Product not found"; when some listed product has the id, the first such product is shown |
| PriceHistoryPage.PageIcon | priceHistoryFrontend/src/pages/PriceHistory.jsx:51-56 | down iff the product has a previous price and the current one is lower; up iff higher; flat iff no product, no previous price or equal |
| PriceHistoryPage.PageColor | priceHistoryFrontend/src/pages/PriceHistory.jsx:44-49 | green iff the product has a previous price and the current one is lower; red iff higher; gray otherwise |
| PriceHistoryPage.PageAgreesWithCard | priceHistoryFrontend/src/pages/PriceHistory.jsx:44-56 | the page shows the same arrow and colour as the card; a missing product looks like one never repriced |
| PriceHistoryPage.ChangeAmount | priceHistoryFrontend/src/pages/PriceHistory.jsx:58-61 | never negative, and the absolute difference when there is a previous price |
| PriceHistoryPage.AmountZeroIffFlat | priceHistoryFrontend/src/pages/PriceHistory.jsx:51-61 | the amount is 0 exactly when the arrow is flat |
| PriceHistoryPage.Lowest | priceHistoryFrontend/src/pages/PriceHistory.jsx:189 | a listed price no larger than any other; None iff there are no prices |
| PriceHistoryPage.Highest | priceHistoryFrontend/src/pages/PriceHistory.jsx:195 | a listed price no smaller than any other; None iff there are no prices |
| PriceHistoryPage.PricesWithinStats | priceHistoryFrontend/src/pages/PriceHistory.jsx:189-195 | every recorded price lies between the lowest and the highest shown |
| PriceHistoryPage.Reverse | priceHistoryFrontend/src/pages/PriceHistory.jsx:221-222 | the copy holds the entries in reverse order |
| PriceHistoryPage.HistoryRows | priceHistoryFrontend/src/pages/PriceHistory.jsx:220-252 | newest first; each row compares with the sample just before it in time; "Initial Price" for the oldest sample and after a 0 price |
| PriceHistoryPage.ChangeIcon | priceHistoryFrontend/src/pages/PriceHistory.jsx:243-249 | up iff the change is positive, down iff negative, flat iff zero |
| PriceHistoryPage.ChangeColor | priceHistoryFrontend/src/pages/PriceHistory.jsx:243-249 | red iff the change is positive, green iff negative, gray iff zero |
| PriceHistoryPage.RowArrowFollowsTime | priceHistoryFrontend/src/pages/PriceHistory.jsx:243-249 | a row's arrow is up iff the price rose since the previous sample and down iff it fell, and its colour goes with it |
| PriceHistoryPage.TableEnds | priceHistoryFrontend/src/pages/PriceHistory.jsx:220-252 | the newest sample heads the table; the oldest closes it as "Initial Price" |
| MyProducts.Search | priceHistoryFrontend/src/pages/MyTrackProducts.jsx:45-48 | keeps exactly the listed products whose lower-cased name contains the lower-cased term |
| MyProducts.SearchAppend | priceHistoryFrontend/src/pages/MyTrackProducts.jsx:46-48 | the filter works piece by piece, so order is kept |
| MyProducts.EmptyTermKeepsAll | priceHistoryFrontend/src/pages/MyTrackProducts.jsx:46-48 | an empty term keeps every product, in order |
| MyProducts.Compare | priceHistoryFrontend/src/pages/MyTrackProducts.jsx:50-63 | the difference of the two keys; under `priceLow` negative iff the first is cheaper, under `priceHigh` negative iff the first is dearer |
| MyProducts.Insert | priceHistoryFrontend/src/pages/MyTrackProducts.jsx:49-64 | insertion adds the one element and loses none |
| MyProducts.InsertKeysFrom | priceHistoryFrontend/src/pages/MyTrackProducts.jsx:49-64 | inserting keeps a lower bound on the keys |
| MyProducts.SortedCons | priceHistoryFrontend/src/pages/MyTrackProducts.jsx:49-64 | a sorted list under a head whose key bounds all of it is sorted |
| MyProducts.InsertSorted | priceHistoryFrontend/src/pages/MyTrackProducts.jsx:49-64 | inserting into a sorted list keeps it sorted |
| MyProducts.Sort | priceHistoryFrontend/src/pages/MyTrackProducts.jsx:49-64 | the sorted list is a permutation of the input |
| MyProducts.SortSorted | priceHistoryFrontend/src/pages/MyTrackProducts.jsx:49-64 | the result is ordered by the comparator's key |
| MyProducts.PriceOrders | priceHistoryFrontend/src/pages/MyTrackProducts.jsx:55-58 | `priceLow` orders by ascending current price; `priceHigh` by descending |
| MyProducts.UnrecognizedKeepsOrder | priceHistoryFrontend/src/pages/MyTrackProducts.jsx:61-62 | a key the comparator does not know leaves the order as it was |
| MyProducts.Displayed | priceHistoryFrontend/src/pages/MyTrackProducts.jsx:45-64 | the shown list is a permutation of the search result, sorted by the chosen key, and holds only matching listed products |
| MyProducts.DropCount | priceHistoryFrontend/src/pages/MyTrackProducts.jsx:71-73 | no more drops than products |
| MyProducts.CurrentPrices | priceHistoryFrontend/src/pages/MyTrackProducts.jsx:70 | the current prices, product by product |
| MyProducts.ProductStats | priceHistoryFrontend/src/pages/MyTrackProducts.jsx:66-76 | nothing iff there are no products; otherwise the total is the product count and bounds the drop count |
| MyProducts.DroppedIffCardShowsDown | priceHistoryFrontend/src/pages/MyTrackProducts.jsx:71-73 | a product counts as a drop exactly when its card shows a down arrow |
| MyProducts.DropCountCountsCards | priceHistoryFrontend/src/pages/MyTrackProducts.jsx:71-73 | the drop count is the number of cards showing a down arrow |
| MyProducts.WithoutId | priceHistoryFrontend/src/pages/MyTrackProducts.jsx:37 | keeps exactly the listed products with another id |
| MyProducts.WithoutIdAppend | priceHistoryFrontend/src/pages/MyTrackProducts.jsx:37 | removal works piece by piece, so order is kept |
| MyProducts.AfterDelete | priceHistoryFrontend/src/pages/MyTrackProducts.jsx:30-42 | the list changes only when the user confirms and the delete succeeds, and then holds no product with that id |
| MyProducts.WithoutAbsentId | priceHistoryFrontend/src/pages/MyTrackProducts.jsx:37 | removing an id no product carries changes nothing |

## Left out

- **Left out as outside the core:**
  - Network, browser and database I/O. Scraper answers, page contents and request outcomes are parameters.
  - Concurrency of the scheduled job with requests.
  - The cron schedule (`0 */6 * * *`).
  - Authentication and routes.
  - `userController.js` and the auth middleware are not part of this model.
  - The chart component.
- **`new URL(...)` and URL parsing.**
  - URL validity is a parameter.
  - The model's `Platform.SearchParam` ignores `#` fragments and does not percent-decode, whereas the real `searchParams.get` decodes `%XX` escapes. A `pid` written with escapes is compared undecoded.
  - `+` is not turned into a space.
- **Dates and time.**
  - `new Date(...)` parsing of legacy values is abstracted in `Migration.JsValue`: its truthiness, its `Number` value and its time.
  - Dates are integers (`day`, `now`); formatting and `toISOString` are left out.
  - The schema's `Date` default is the `today` parameter.
  - `lastChecked`'s default `Date.now()` is evaluated once, when the schema loads; it is `Store.loadTime`.
- Updater.Pass, Updater.RunPass and Migration.NormalizeEntry read the clock once per pass or run: `today` and `now` are single parameters. The source calls `new Date()` for each product in the scheduled job, evaluates the `Date` default at each `push`, and calls `new Date()` for each entry in the migration. So in the model every product of a pass gets the same `lastChecked`, and a pass that crosses midnight cannot date its samples with two different days.
- Migration.NormalizeEntry sets `date`, which is not a path of the entry schema. Whether mongoose's strict mode keeps or drops it on save is not modelled: `Migration.Writes` records the value the script assigns.
- **Floating point.**
  - Prices are exact reals.
  - `Number` is NaN only where the source can produce NaN: the HTTP scraper's `parseFloat` and the migration's `Number(price)`.
  - `Intl.NumberFormat`, `toLocaleString` and the change percentage (`toFixed(2)`) are not modelled.
- **Text.**
  - Case mapping and `\s` are ASCII plus the common whitespace characters.
  - No Unicode normalisation.
  - Strings are sequences of code points. JavaScript's `length` in UTF-16 code units is modelled only where the password check reads it (`Text.Utf16Length`).
- **Saving.**
  - `product.save()` never fails in the model.
  - Mongoose schema casting and validation are not modelled, so the ValidationError branch of `Controller.MapError` is reached only through the error value.
  - In the migration, edits to products that are not written back are dropped.
- **Migration values.**
  - `undefined` and `null` are one `Nullish` value.
  - `===` on objects is identity through `JsValue.DateObj.ref`.
- **MyProducts:** the `newest`, `oldest` and `name` sort keys are left out, because they compare `Date` values and `localeCompare`. `Unrecognized` stands for the default branch.
- **MyProducts.Sort** is a stable insertion sort. Every stable sort gives this order for a consistent comparator. The stability of JavaScript's `Array.prototype.sort` is not stated beyond `MyProducts.UnrecognizedKeepsOrder`.
- **MyProducts.ProductStats** states nothing about `avgPrice` beyond how it is computed (the sum of current prices divided by the count).
- ProductCard.TruncateName and ProductCard.CardName count code points, not the UTF-16 code units that `length` and `substring` count. A name with characters outside the Basic Multilingual Plane is cut at a different place, and a cut through a surrogate pair has no counterpart in the model.
- **PriceHistoryPage.Lowest and PriceHistoryPage.Highest:** `None` stands for the `Infinity` and `-Infinity` that `Math.min` and `Math.max` give for an empty list.
- **AmazonHttp.ScrapeAmazonWithHttp** is modelled, but nothing calls it. `scrapeProduct` dispatches Amazon to the browser scraper only.
- **AmazonBrowser.AmazonScrapeProduct:** a failure between launch and the `try` leaves the browser open. The model shows that leak but nothing further about the browser process.
- **Migration.Migrate** runs on values; the database cursor and `process.exit` are left out.
- **Migration: a product whose second-latest price is 0 is backfilled again on every run.** It is written back every time. Idempotence of the migration is not claimed.
