/**
 * The records that flow between the scrapers, the controller, the scheduled
 * updater and the pages: a price sample, a scrape result, a thrown error and
 * the product document as stored and as sent to the browser.
 */
module Domain {

  /** One `priceHistory` sample; `day` is the schema's default `Date`, the day the sample was pushed. */
  datatype PriceEntry = PriceEntry(price: real, day: int)

  /** What a scraper returns: `{ name, price, image }`. An empty name or a 0 price means "not found". */
  datatype Scraped = Scraped(name: string, price: real, image: string)

  /** A thrown JavaScript error: its `name` (e.g. "ValidationError") and its `message`. */
  datatype Error = Error(name: string, message: string)

  /** A product document with the fields the core reads and writes. */
  datatype ProductDoc = ProductDoc(
    id: nat,
    user: nat,
    name: string,
    url: string,
    image: string,
    currentPrice: real,
    previousPrice: real,
    priceHistory: seq<PriceEntry>,
    recommendation: string,
    lastChecked: int)

  /** The `price` of every sample, in history order. */
  function Prices(h: seq<PriceEntry>): (r: seq<real>)
    ensures |r| == |h|
    ensures forall i :: 0 <= i < |h| ==> r[i] == h[i].price
  {
    if h == [] then [] else [h[0].price] + Prices(h[1..])
  }
}
