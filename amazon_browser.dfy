/**
 * `amazonScrapeProduct`: launch a headless browser, open and set up a page,
 * navigate to the product, read the name, the price and the image through
 * a chain of fallback selectors, and close the browser. The browser is an
 * object that is opened and closed; the page's outcomes (a setup step or
 * the navigation throwing, the rendered elements) are parameters.
 */
module AmazonBrowser {
  import opened Wrappers
  import opened Text
  import opened Domain
  import opened PriceText

  /** What an element of the rendered page offers: its `innerText`, its `src` and its `data-old-hires` attribute ("" when absent). */
  datatype Node = Node(innerText: string, src: string, oldHires: string)

  /**
   * The rendered page: the first element each selector finds. A selector
   * that finds nothing, or whose evaluation throws, is absent.
   */
  type Dom = map<string, Node>

  const NAME_SELECTOR := "#productTitle"
  const NAME_FALLBACK := "h1"
  /** `.a-price-whole`, then the `||` chain read when it is empty. */
  const PRICE_SELECTORS: seq<string> := [".a-price-whole", ".a-price .a-offscreen", "#priceblock_ourprice", "#priceblock_dealprice"]
  const ALT_PRICE_SELECTORS: seq<string> := [".a-offscreen", "[data-a-size=\"l\"] .a-offscreen"]
  const IMAGE_SELECTOR := "#imgTagWrapperId img"
  const IMAGE_FALLBACK := "#landingImage"

  /** `getText(selector)`: the trimmed text of the element, "" when there is none; it never throws. */
  function GetText(dom: Dom, sel: string): (r: string)
    ensures r != "" ==> sel in dom
  {
    if sel in dom then Trim(dom[sel].innerText) else ""
  }

  /** `getImage(selector)`: the element's `src`, else its `data-old-hires`, else ""; it never throws. */
  function GetImage(dom: Dom, sel: string): (r: string)
    ensures r != "" ==> sel in dom && (r == dom[sel].src || (dom[sel].src == "" && r == dom[sel].oldHires))
    ensures sel in dom && dom[sel].src != "" ==> r == dom[sel].src
    ensures sel in dom && dom[sel].src == "" ==> r == dom[sel].oldHires
  {
    if sel in dom then
      OrElseOfTwo(dom[sel].src, dom[sel].oldHires);
      OrElse([dom[sel].src, dom[sel].oldHires])
    else ""
  }

  function Texts(dom: Dom, sels: seq<string>): (r: seq<string>)
    ensures |r| == |sels| && forall i :: 0 <= i < |sels| ==> r[i] == GetText(dom, sels[i])
  {
    seq(|sels|, i requires 0 <= i < |sels| => GetText(dom, sels[i]))
  }

  /**
   * The price a text gives: rupee signs, commas and whitespace deleted, then
   * the first number of digits with at most one dot; 0 when there is none.
   */
  function BrowserPrice(text: string): (r: real)
    ensures r >= 0.0
    ensures FirstNumber(Strip(text, BrowserDropped)).None? ==> r == 0.0
  {
    match FirstNumber(Strip(text, BrowserDropped))
    case None => 0.0
    case Some(m) =>
      DigitLeadIsFinite(m);
      ParseFloat(m).value
  }

  /** What the page yields: each field from the first selector of its fallback chain that gives something. */
  function BrowserExtract(dom: Dom): (r: Scraped)
    ensures r.name == "" <==> GetText(dom, NAME_SELECTOR) == "" && GetText(dom, NAME_FALLBACK) == ""
    ensures r.image == "" <==> GetImage(dom, IMAGE_SELECTOR) == "" && GetImage(dom, IMAGE_FALLBACK) == ""
    ensures r.price >= 0.0
  {
    var names := Texts(dom, [NAME_SELECTOR, NAME_FALLBACK]);
    assert names == [GetText(dom, NAME_SELECTOR), GetText(dom, NAME_FALLBACK)];
    OrElseOfTwo(names[0], names[1]);
    OrElseOfTwo(GetImage(dom, IMAGE_SELECTOR), GetImage(dom, IMAGE_FALLBACK));
    var name := OrElse(names);
    var price := BrowserPrice(OrElse(Texts(dom, PRICE_SELECTORS)));
    var image := OrElse([GetImage(dom, IMAGE_SELECTOR), GetImage(dom, IMAGE_FALLBACK)]);
    Scraped(name,
            if price != 0.0 then price else BrowserPrice(OrElse(Texts(dom, ALT_PRICE_SELECTORS))),
            image)
  }

  /** `name`: `#productTitle`, reassigned from `h1` when empty. */
  method ReadName(dom: Dom) returns (name: string)
    ensures name == OrElse(Texts(dom, [NAME_SELECTOR, NAME_FALLBACK]))
  {
    name := GetText(dom, NAME_SELECTOR);
    if name == "" {
      name := GetText(dom, NAME_FALLBACK);
    }
    var ts := Texts(dom, [NAME_SELECTOR, NAME_FALLBACK]);
    if ts[0] != "" { OrElseAt(ts, 0); } else if ts[1] != "" { OrElseAt(ts, 1); }
  }

  /** The `||` chain over four texts. */
  lemma OrElseOfFour(xs: seq<string>)
    requires |xs| == 4
    ensures OrElse(xs) == if xs[0] != "" then xs[0] else if xs[1] != "" then xs[1] else if xs[2] != "" then xs[2] else xs[3]
  {
    if xs[0] != "" { OrElseAt(xs, 0); }
    else if xs[1] != "" { OrElseAt(xs, 1); }
    else if xs[2] != "" { OrElseAt(xs, 2); }
    else if xs[3] != "" { OrElseAt(xs, 3); }
  }

  /** `priceString`: `.a-price-whole`, reassigned from the `||` chain of the others when empty. */
  method ReadPriceString(dom: Dom) returns (priceString: string)
    ensures priceString == OrElse(Texts(dom, PRICE_SELECTORS))
  {
    ghost var ts := Texts(dom, PRICE_SELECTORS);
    OrElseOfFour(ts);
    priceString := GetText(dom, PRICE_SELECTORS[0]);
    if priceString == "" {
      priceString := GetText(dom, PRICE_SELECTORS[1]);
      if priceString == "" {
        priceString := GetText(dom, PRICE_SELECTORS[2]);
      }
      if priceString == "" {
        priceString := GetText(dom, PRICE_SELECTORS[3]);
      }
    }
  }

  /** `alt`: `.a-offscreen`, else `[data-a-size="l"] .a-offscreen`. */
  method ReadAltPrice(dom: Dom) returns (alt: string)
    ensures alt == OrElse(Texts(dom, ALT_PRICE_SELECTORS))
  {
    alt := GetText(dom, ALT_PRICE_SELECTORS[0]);
    if alt == "" {
      alt := GetText(dom, ALT_PRICE_SELECTORS[1]);
    }
    var ts := Texts(dom, ALT_PRICE_SELECTORS);
    if ts[0] != "" { OrElseAt(ts, 0); } else if ts[1] != "" { OrElseAt(ts, 1); }
  }

  /** The cleaning and matching both price reads share: `price` is assigned only when the pattern matches. */
  method ParsePrice(text: string, price0: real) returns (price: real)
    ensures FirstNumber(Strip(text, BrowserDropped)).None? ==> price == price0
    ensures FirstNumber(Strip(text, BrowserDropped)).Some? ==> price == BrowserPrice(text)
  {
    price := price0;
    if text != "" {
      var m := FirstNumber(Strip(text, BrowserDropped));
      if m.Some? {
        DigitLeadIsFinite(m.value);
        price := ParseFloat(m.value).value;
      }
    }
  }

  /** `image`: the wrapper image, reassigned from `#landingImage` when empty. */
  method ReadImage(dom: Dom) returns (image: string)
    ensures image == OrElse([GetImage(dom, IMAGE_SELECTOR), GetImage(dom, IMAGE_FALLBACK)])
  {
    image := GetImage(dom, IMAGE_SELECTOR);
    if image == "" {
      image := GetImage(dom, IMAGE_FALLBACK);
    }
    var ts := [GetImage(dom, IMAGE_SELECTOR), GetImage(dom, IMAGE_FALLBACK)];
    if ts[0] != "" { OrElseAt(ts, 0); } else if ts[1] != "" { OrElseAt(ts, 1); }
  }

  /** The reads inside the `try`, in the order of the source: the second price read only when the first gave 0. */
  method Extract(dom: Dom) returns (s: Scraped)
    ensures s == BrowserExtract(dom)
  {
    var name := ReadName(dom);
    var priceString := ReadPriceString(dom);
    var price := ParsePrice(priceString, 0.0);
    if price == 0.0 {
      var alt := ReadAltPrice(dom);
      price := ParsePrice(alt, price);
    }
    var image := ReadImage(dom);
    s := Scraped(name, price, image);
  }

  /** What the `k`-th call to `browser.close()` throws, `None` when it returns; calls past the list return. */
  function CloseError(closeErrors: seq<Option<Error>>, k: nat): Option<Error> {
    if k < |closeErrors| then closeErrors[k] else None
  }

  /**
   * A launched headless browser; `closes` counts the calls to
   * `browser.close()` and `closeErrors` says which of them throw.
   */
  class Browser {
    var isOpen: bool
    var closes: nat
    const closeErrors: seq<Option<Error>>

    /** `puppeteer.launch(…)`. */
    constructor (closeErrors: seq<Option<Error>>)
      ensures isOpen && closes == 0 && this.closeErrors == closeErrors
    {
      isOpen, closes, this.closeErrors := true, 0, closeErrors;
    }

    /** `browser.close()`: a close that throws leaves the browser as it was. */
    method Close() returns (failure: Option<Error>)
      modifies this
      ensures failure == CloseError(closeErrors, old(closes))
      ensures closes == old(closes) + 1 && isOpen == (old(isOpen) && failure.Some?)
    {
      failure := CloseError(closeErrors, closes);
      isOpen, closes := isOpen && failure.Some?, closes + 1;
    }
  }

  /**
   * How the browser session goes: whether launching throws, whether opening
   * and setting up the page throws, whether the navigation throws, the page
   * it renders, and which calls to `browser.close()` throw.
   */
  datatype Session = Session(launch: Option<Error>, setup: Option<Error>, navigation: Option<Error>, dom: Dom,
                             closeErrors: seq<Option<Error>>)

  /**
   * `amazonScrapeProduct(url)` for one session. Launching and setting up the
   * page happen before the `try`: a failure there throws, and a browser that
   * was launched stays open. Inside the `try` the navigation or the close
   * after the extraction may throw; the `catch` then closes the browser
   * (again) and rethrows, unless that close throws first.
   */
  method AmazonScrapeProduct(session: Session) returns (r: Result<Scraped, Error>, browser: Browser?)
    ensures session.launch.Some? ==> r == Err(session.launch.value) && browser == null
    ensures session.launch.None? ==> browser != null && fresh(browser) && browser.closeErrors == session.closeErrors
    ensures session.launch.None? && session.setup.Some? ==>
      r == Err(session.setup.value) && browser != null && browser.isOpen && browser.closes == 0
    ensures session.launch.None? && session.setup.None? ==>
      var first := CloseError(session.closeErrors, 0);
      var second := CloseError(session.closeErrors, 1);
      && browser != null
      && (session.navigation.Some? ==>
            r == Err(if first.Some? then first.value else session.navigation.value) && browser.closes == 1)
      && (session.navigation.None? && first.None? ==>
            r == Ok(BrowserExtract(session.dom)) && browser.closes == 1 && !browser.isOpen)
      && (session.navigation.None? && first.Some? ==>
            r == Err(if second.Some? then second.value else first.value) && browser.closes == 2)
  {
    if session.launch.Some? {
      return Err(session.launch.value), null;
    }
    browser := new Browser(session.closeErrors);
    if session.setup.Some? {
      return Err(session.setup.value), browser;
    }
    var thrown := session.navigation;
    if thrown.None? {
      var scraped := Extract(session.dom);
      thrown := browser.Close();
      if thrown.None? {
        return Ok(scraped), browser;
      }
    }
    var again := browser.Close();
    r := Err(if again.Some? then again.value else thrown.value);
  }

  /** The name falls back to `h1` only when `#productTitle` gives nothing. */
  lemma NameFallback(dom: Dom)
    ensures GetText(dom, NAME_SELECTOR) != "" ==> BrowserExtract(dom).name == GetText(dom, NAME_SELECTOR)
    ensures GetText(dom, NAME_SELECTOR) == "" ==> BrowserExtract(dom).name == GetText(dom, NAME_FALLBACK)
  {
    var ts := Texts(dom, [NAME_SELECTOR, NAME_FALLBACK]);
    if ts[0] != "" { OrElseAt(ts, 0); } else if ts[1] != "" { OrElseAt(ts, 1); }
  }

  /** The second price fallback is read only when the first chain gives 0; then it alone decides the price. */
  lemma SecondFallbackOnlyAtZero(dom: Dom)
    ensures var first := BrowserPrice(OrElse(Texts(dom, PRICE_SELECTORS)));
      && (first != 0.0 ==> BrowserExtract(dom).price == first)
      && (first == 0.0 ==> BrowserExtract(dom).price == BrowserPrice(OrElse(Texts(dom, ALT_PRICE_SELECTORS))))
  {
  }

  /** A price text written as plain digits reads back as that number. */
  lemma DigitsPriceRoundTrip(n: nat)
    ensures BrowserPrice(ShowNat(n)) == n as real
  {
    var s := ShowNat(n);
    assert Strip(s, BrowserDropped) == s by {
      assert forall k :: 0 <= k < |s| ==> !BrowserDropped(s[k]);
    }
    DigitsReadWhole(s);
    ParseShownNat(n);
  }

  /**
   * Rupee signs, commas and spaces are ignored wherever they stand: the price
   * of a text is the price of the same text with them removed.
   */
  lemma DecorationIgnored(text: string)
    ensures BrowserPrice(text) == BrowserPrice(Strip(text, BrowserDropped))
  {
    StripIdempotent(text, BrowserDropped);
  }
}
