/**
 * Platform classification (`getPlatform`) and the scraper dispatch of
 * `scrapeProduct`. The scrapers themselves are oracles: the browser scraper for
 * Amazon and the product-data API for Flipkart are parameters of the dispatch.
 */
module Platform {
  import opened Wrappers
  import opened Text
  import opened Domain

  datatype Platform = Amazon | Flipkart

  const UNSUPPORTED: Error := Error("Error", "Unsupported platform")

  /** What `new URL(url)` throws on a text it cannot parse. */
  const INVALID_URL: Error := Error("TypeError", "Invalid URL")

  /** `getPlatform(url)`: a substring test anywhere in the text, Amazon first. */
  function GetPlatform(url: string): (r: Result<Platform, Error>)
    ensures r == Ok(Amazon) <==> Contains(url, "amazon.in")
    ensures r == Ok(Flipkart) <==> !Contains(url, "amazon.in") && Contains(url, "flipkart.com")
    ensures r.Err? <==> !Contains(url, "amazon.in") && !Contains(url, "flipkart.com")
    ensures r.Err? ==> r.error == UNSUPPORTED
  {
    if Contains(url, "amazon.in") then Ok(Amazon)
    else if Contains(url, "flipkart.com") then Ok(Flipkart)
    else Err(UNSUPPORTED)
  }

  /** The domain is looked for anywhere in the text, not only in the host: a query parameter is enough. */
  lemma ClassifiesByQueryText()
    ensures GetPlatform("https://example.com/?ref=amazon.in") == Ok(Amazon)
  {
    var u := "https://example.com/?ref=amazon.in";
    assert u[25..34] == "amazon.in";
    ContainsAt(u, "amazon.in", 25);
  }

  /** The query of a URL: the text after the first `?` and before the fragment; `None` when there is no `?`. */
  function Query(url: string): (q: Option<string>)
    ensures q.Some? ==> '?' in url
  {
    var beforeFragment := Before(url, '#');
    var k := IndexOf(beforeFragment, '?');
    if k == |beforeFragment| then None else Some(beforeFragment[k + 1..])
  }

  /**
   * `URLSearchParams.get(key)` on a query string: the value of the first
   * `&`-separated, non-empty pair whose name (the text before its first `=`)
   * is `key`; a pair without `=` has the empty value.
   */
  function ParamOf(query: string, key: string): Option<string>
    decreases |query|
  {
    var k := IndexOf(query, '&');
    var pair := query[..k];
    var eq := IndexOf(pair, '=');
    if pair != [] && pair[..eq] == key then Some(if eq < |pair| then pair[eq + 1..] else "")
    else if k == |query| then None
    else ParamOf(query[k + 1..], key)
  }

  /** `new URL(url).searchParams.get(key)` on a URL that parses. */
  function SearchParam(url: string, key: string): (r: Option<string>)
    ensures r.Some? ==> '?' in url
  {
    match Query(url)
    case None => None
    case Some(q) => ParamOf(q, key)
  }

  /** With its first `?` at `n` and no fragment, a URL's parameters are read from the text after `n`. */
  lemma SearchParamAfter(url: string, n: nat, key: string)
    requires n < |url| && url[n] == '?' && '?' !in url[..n] && '#' !in url
    ensures SearchParam(url, key) == ParamOf(url[n + 1..], key)
  {
    IndexOfAt(url, '#', |url|);
    assert url[..|url|] == url;
    IndexOfAt(url, '?', n);
  }

  /** A URL made of a base without `?`, a `?` and a query, with no fragment anywhere, has that query's parameters. */
  lemma SearchParamOfParts(base: string, query: string, key: string)
    requires '?' !in base && '#' !in base && '#' !in query
    ensures SearchParam(base + "?" + query, key) == ParamOf(query, key)
  {
    var url := base + "?" + query;
    assert url[..|base|] == base;
    assert url[|base| + 1..] == query;
    assert '#' !in url by {
      assert forall x :: 0 <= x < |url| ==> url[x] == if x < |base| then base[x] else if x == |base| then '?' else query[x - |base| - 1];
    }
    SearchParamAfter(url, |base|, key);
  }

  /** A query that is one `key=value` pair gives `value` for `key`. */
  lemma ParamOfSinglePair(key: string, value: string)
    requires key != [] && '=' !in key && '&' !in key && '&' !in value
    ensures ParamOf(key + "=" + value, key) == Some(value)
  {
    var q := key + "=" + value;
    assert forall x :: 0 <= x < |q| ==> q[x] == if x < |key| then key[x] else if x == |key| then '=' else value[x - |key| - 1];
    IndexOfAt(q, '&', |q|);
    assert q[..|q|] == q;
    assert q[..|key|] == key;
    IndexOfAt(q, '=', |key|);
    assert q[|key| + 1..] == value;
  }

  /** What the product-data API answers: `data.title`, `data.price` and `data.images` (absent ones as `None` or `[]`). */
  datatype FlipkartData = FlipkartData(title: Option<string>, price: Option<real>, images: seq<string>)

  /** The result `scrapeFlipkartApi` returns when the request or the mapping throws. */
  const EMPTY_SCRAPE: Scraped := Scraped("", 0.0, "")

  /**
   * `scrapeFlipkartApi(pid)`: `api(pid)` is the answer of the product-data
   * API, `None` when the request throws; every failure is caught and becomes
   * the empty result, so this scraper never throws.
   */
  function ScrapeFlipkartApi(pid: Option<string>, api: Option<string> -> Option<FlipkartData>): (r: Scraped)
    ensures api(pid).None? ==> r == EMPTY_SCRAPE
    ensures api(pid).Some? ==> r.price == (if api(pid).value.price.Some? then api(pid).value.price.value else 0.0)
    ensures r.name != "" ==> api(pid).Some? && api(pid).value.title == Some(r.name)
    ensures api(pid).Some? && api(pid).value.title.Some? ==> r.name == api(pid).value.title.value
    ensures api(pid).Some? && api(pid).value.images != [] ==> r.image == api(pid).value.images[0]
    ensures r.image != "" ==> api(pid).Some? && api(pid).value.images != [] && r.image == api(pid).value.images[0]
  {
    match api(pid)
    case None => EMPTY_SCRAPE
    case Some(data) =>
      Scraped(
        if data.title.Some? then data.title.value else "",
        if data.price.Some? then data.price.value else 0.0,
        if |data.images| > 0 then data.images[0] else "")
  }

  /** The collaborators of `scrapeProduct`: URL parsing, the Amazon browser scraper and the Flipkart data API. */
  datatype Scrapers = Scrapers(
    urlParses: string -> bool,
    amazon: string -> Result<Scraped, Error>,
    flipkartApi: Option<string> -> Option<FlipkartData>)

  /** `scrapeProduct(url)`: classify, then hand the whole URL to Amazon or only its `pid` to Flipkart. */
  function ScrapeProduct(url: string, env: Scrapers): (r: Result<Scraped, Error>)
    ensures GetPlatform(url).Err? ==> r == Err(UNSUPPORTED)
    ensures GetPlatform(url) == Ok(Amazon) ==> r == env.amazon(url)
    ensures GetPlatform(url) == Ok(Flipkart) ==>
      r == if env.urlParses(url) then Ok(ScrapeFlipkartApi(SearchParam(url, "pid"), env.flipkartApi)) else Err(INVALID_URL)
  {
    match GetPlatform(url)
    case Err(e) => Err(e)
    case Ok(Amazon) => env.amazon(url)
    case Ok(Flipkart) =>
      if env.urlParses(url) then Ok(ScrapeFlipkartApi(SearchParam(url, "pid"), env.flipkartApi))
      else Err(INVALID_URL)
  }

  /** An unsupported URL fails the same way whatever the scrapers would do: none of them is consulted. */
  lemma UnsupportedConsultsNoScraper(url: string, env1: Scrapers, env2: Scrapers)
    requires !Contains(url, "amazon.in") && !Contains(url, "flipkart.com")
    ensures ScrapeProduct(url, env1) == ScrapeProduct(url, env2) == Err(UNSUPPORTED)
  {
  }

  /** Two Flipkart URLs with the same `pid` scrape to the same result: the rest of the URL is not passed on. */
  lemma FlipkartSeesOnlyPid(u1: string, u2: string, env: Scrapers)
    requires GetPlatform(u1) == Ok(Flipkart) && GetPlatform(u2) == Ok(Flipkart)
    requires env.urlParses(u1) && env.urlParses(u2)
    requires SearchParam(u1, "pid") == SearchParam(u2, "pid")
    ensures ScrapeProduct(u1, env) == ScrapeProduct(u2, env)
  {
  }

  /**
   * The dispatch's own failures are "Unsupported platform" and the URL parse
   * error; every other failure is the Amazon scraper's. The final throw of the
   * source is unreachable: classification yields only the two handled platforms.
   */
  lemma DispatchFailures(url: string, env: Scrapers)
    requires ScrapeProduct(url, env).Err?
    ensures ScrapeProduct(url, env).error == UNSUPPORTED
         || ScrapeProduct(url, env).error == INVALID_URL
         || (GetPlatform(url) == Ok(Amazon) && ScrapeProduct(url, env) == env.amazon(url))
  {
  }

  /** A Flipkart URL without a `pid` asks the API for a null product id. */
  lemma FlipkartWithoutQueryHasNullPid(url: string)
    requires '?' !in url
    ensures SearchParam(url, "pid") == None
  {
  }
}
