/**
 * `scrapeAmazonWithHTTP`: fetch the product page over HTTP, then read the
 * name, the price and the image each from the first of a list of CSS
 * selectors that yields one. The fetch is a parameter (the fetched page, or
 * the message of the error the request threw); the page is what the HTML
 * parser lets the scraper see.
 */
module AmazonHttp {
  import opened Wrappers
  import opened Text
  import opened Domain
  import opened PriceText

  /**
   * What `$(selector)` returns when it matches something: the text of all
   * matched elements together, and the attributes of the first of them.
   */
  datatype Element = Element(text: string, attrs: map<string, string>)

  /** A parsed page: the selectors that match, each with what it matches. */
  type Page = map<string, Element>

  const NAME_SELECTORS: seq<string> := [
    "#productTitle",
    ".product-title",
    "h1[data-automation-id=\"product-title\"]",
    ".a-size-large.product-title-word-break",
    "span#productTitle"]

  const PRICE_SELECTORS: seq<string> := [
    ".a-price .a-offscreen",
    ".a-price-whole",
    ".a-price-range .a-offscreen",
    ".a-price.a-text-price.a-size-medium.apexPriceToPay .a-offscreen",
    ".a-price.a-text-price .a-offscreen",
    "span.a-price-symbol + span.a-price-whole",
    ".a-price-current .a-offscreen"]

  const IMAGE_SELECTORS: seq<string> := [
    "#imgTagWrapperId img",
    "#landingImage",
    ".a-dynamic-image",
    "img[data-old-hires]",
    "#main-image",
    ".a-dynamic-image.a-stretch-horizontal"]

  const HTTP_FAILURE_PREFIX := "HTTP scraping failed: "

  /** The scraper's answer; the price is whatever `parseFloat` gave, NaN included. */
  datatype HttpScraped = HttpScraped(name: string, price: Num, image: string)

  /** `element.attr(name)`, with a missing attribute read as "" (both are falsy). */
  function Attr(e: Element, name: string): string {
    if name in e.attrs then e.attrs[name] else ""
  }

  /** The name a selector offers: its trimmed text, "" when it matches nothing. */
  function NameAt(page: Page, sel: string): (r: string)
    ensures r != "" ==> sel in page && r == Trim(page[sel].text)
  {
    if sel in page then Trim(page[sel].text) else ""
  }

  function Names(page: Page, sels: seq<string>): (r: seq<string>)
    ensures |r| == |sels| && forall i :: 0 <= i < |sels| ==> r[i] == NameAt(page, sels[i])
  {
    seq(|sels|, i requires 0 <= i < |sels| => NameAt(page, sels[i]))
  }

  /**
   * The price a selector offers: `None` when it matches nothing, its text is
   * blank, or the cleaned text has no run of digits and dots; otherwise what
   * `parseFloat` makes of the first such run.
   */
  function PriceAt(page: Page, sel: string): (r: Option<Num>)
    ensures r.Some? ==> sel in page && Trim(page[sel].text) != ""
    ensures r.Some? ==> FirstRun(Strip(Trim(page[sel].text), HttpDropped)).Some?
  {
    if sel !in page then None
    else
      var t := Trim(page[sel].text);
      if t == "" then None
      else match FirstRun(Strip(t, HttpDropped))
        case None => None
        case Some(run) => Some(ParseFloat(run))
  }

  function Prices(page: Page, sels: seq<string>): (r: seq<Option<Num>>)
    ensures |r| == |sels| && forall i :: 0 <= i < |sels| ==> r[i] == PriceAt(page, sels[i])
  {
    seq(|sels|, i requires 0 <= i < |sels| => PriceAt(page, sels[i]))
  }

  /** `element.attr('src') || element.attr('data-old-hires') || element.attr('data-a-dynamic-image')`. */
  function ImageSource(e: Element): (r: string)
    ensures Attr(e, "src") != "" ==> r == Attr(e, "src")
    ensures Attr(e, "src") == "" && Attr(e, "data-old-hires") != "" ==> r == Attr(e, "data-old-hires")
    ensures Attr(e, "src") == "" && Attr(e, "data-old-hires") == "" ==> r == Attr(e, "data-a-dynamic-image")
  {
    var xs := [Attr(e, "src"), Attr(e, "data-old-hires"), Attr(e, "data-a-dynamic-image")];
    OrElseOfThree(xs);
    OrElse(xs)
  }

  /** The image a selector offers: its element's image source, if that starts with "http". */
  function ImageAt(page: Page, sel: string): (r: string)
    ensures r == "" || StartsWith(r, "http")
    ensures sel !in page ==> r == ""
    ensures sel in page && StartsWith(ImageSource(page[sel]), "http") ==> r == ImageSource(page[sel])
    ensures sel in page && !StartsWith(ImageSource(page[sel]), "http") ==> r == ""
  {
    if sel !in page then ""
    else
      var src := ImageSource(page[sel]);
      if StartsWith(src, "http") then src else ""
  }

  function Images(page: Page, sels: seq<string>): (r: seq<string>)
    ensures |r| == |sels| && forall i :: 0 <= i < |sels| ==> r[i] == ImageAt(page, sels[i])
  {
    seq(|sels|, i requires 0 <= i < |sels| => ImageAt(page, sels[i]))
  }

  /** The price the search settles on: the first selector's that offers one, 0 when none does. */
  function HttpPrice(page: Page, sels: seq<string>): (r: Num)
    ensures FirstSome(Prices(page, sels)).None? ==> r == Finite(0.0)
    ensures FirstSome(Prices(page, sels)).Some? ==> r == FirstSome(Prices(page, sels)).value
  {
    match FirstSome(Prices(page, sels))
    case None => Finite(0.0)
    case Some(v) => v
  }

  /** The name loop: the first selector whose text trims to something. */
  method FindName(page: Page, sels: seq<string>) returns (name: string)
    ensures name == OrElse(Names(page, sels))
  {
    name := "";
    for i := 0 to |sels|
      invariant forall j :: 0 <= j < i ==> NameAt(page, sels[j]) == ""
    {
      var sel := sels[i];
      if sel in page && Trim(page[sel].text) != "" {
        name := Trim(page[sel].text);
        OrElseAt(Names(page, sels), i);
        break;
      }
    }
    if name == "" {
      assert forall j :: 0 <= j < |sels| ==> Names(page, sels)[j] == "";
    }
  }

  /** The price loop: a selector is passed over unless its cleaned text holds a run of digits and dots. */
  method FindPrice(page: Page, sels: seq<string>) returns (price: Num)
    ensures price == HttpPrice(page, sels)
  {
    price := Finite(0.0);
    var found := false;
    for i := 0 to |sels|
      invariant forall j :: 0 <= j < i ==> PriceAt(page, sels[j]).None?
    {
      var sel := sels[i];
      if sel in page {
        var priceText := Trim(page[sel].text);
        if priceText != "" {
          var cleanPrice := FirstRun(Strip(priceText, HttpDropped));
          if cleanPrice.Some? {
            price := ParseFloat(cleanPrice.value);
            found := true;
            FirstSomeAt(Prices(page, sels), i);
            break;
          }
        }
      }
      PassOver(page, sels, i);
    }
    if !found {
      assert forall j :: 0 <= j < |sels| ==> Prices(page, sels)[j].None?;
    }
  }

  /** One more selector that offers no price keeps "none so far" true. */
  lemma PassOver(page: Page, sels: seq<string>, i: nat)
    requires i < |sels| && PriceAt(page, sels[i]).None?
    requires forall j :: 0 <= j < i ==> PriceAt(page, sels[j]).None?
    ensures forall j :: 0 <= j < i + 1 ==> PriceAt(page, sels[j]).None?
  {
  }

  /** The image loop: the first selector offering an address that starts with "http". */
  method FindImage(page: Page, sels: seq<string>) returns (image: string)
    ensures image == OrElse(Images(page, sels))
  {
    image := "";
    for i := 0 to |sels|
      invariant forall j :: 0 <= j < i ==> ImageAt(page, sels[j]) == ""
    {
      var sel := sels[i];
      if sel in page {
        var src := ImageSource(page[sel]);
        if src != "" && StartsWith(src, "http") {
          image := src;
          OrElseAt(Images(page, sels), i);
          break;
        }
      }
    }
    if image == "" {
      assert forall j :: 0 <= j < |sels| ==> Images(page, sels)[j] == "";
    }
  }

  /**
   * `scrapeAmazonWithHTTP(url)`, given the outcome of the fetch: a failed
   * request throws with the prefixed message; otherwise the three searches run
   * and their results are returned as they are, empty name and 0 price included.
   */
  method ScrapeAmazonWithHttp(fetched: Result<Page, string>) returns (r: Result<HttpScraped, Error>)
    ensures fetched.Err? ==> r == Err(Error("Error", HTTP_FAILURE_PREFIX + fetched.error))
    ensures fetched.Ok? ==> r == Ok(HttpScraped(
      OrElse(Names(fetched.value, NAME_SELECTORS)),
      HttpPrice(fetched.value, PRICE_SELECTORS),
      OrElse(Images(fetched.value, IMAGE_SELECTORS))))
  {
    if fetched.Err? {
      return Err(Error("Error", HTTP_FAILURE_PREFIX + fetched.error));
    }
    var page := fetched.value;
    var name := FindName(page, NAME_SELECTORS);
    var price := FindPrice(page, PRICE_SELECTORS);
    var image := FindImage(page, IMAGE_SELECTORS);
    r := Ok(HttpScraped(name, price, image));
  }

  /** The name found is the trimmed text of the first selector that has some, and "" only when none has. */
  lemma {:induction false} HttpNameFirstNonBlank(page: Page, sels: seq<string>)
    ensures var name := OrElse(Names(page, sels));
      && (name == "" <==> forall i :: 0 <= i < |sels| ==> sels[i] !in page || AllSpace(page[sels[i]].text))
      && (name != "" ==>
            exists k :: 0 <= k < |sels| && sels[k] in page && name == Trim(page[sels[k]].text)
              && forall j :: 0 <= j < k ==> sels[j] !in page || AllSpace(page[sels[j]].text))
  {
    var names := Names(page, sels);
    var name := OrElse(names);
    if name != "" {
      var k :| 0 <= k < |names| && names[k] == name && forall j :: 0 <= j < k ==> names[j] == "";
      assert sels[k] in page && name == Trim(page[sels[k]].text);
      assert forall j :: 0 <= j < k ==> sels[j] !in page || AllSpace(page[sels[j]].text) by {
        forall j | 0 <= j < k ensures sels[j] !in page || AllSpace(page[sels[j]].text) {
          assert names[j] == NameAt(page, sels[j]) == "";
        }
      }
    } else {
      forall i | 0 <= i < |sels| ensures sels[i] !in page || AllSpace(page[sels[i]].text) {
        assert names[i] == NameAt(page, sels[i]) == "";
      }
    }
  }

  /** The price stays 0 when no selector's text holds a digit or a dot once cleaned. */
  lemma NoRunKeepsZero(page: Page, sels: seq<string>)
    requires forall i :: 0 <= i < |sels| && sels[i] in page ==>
      forall k :: 0 <= k < |Strip(Trim(page[sels[i]].text), HttpDropped)| ==>
        !IsRunChar(Strip(Trim(page[sels[i]].text), HttpDropped)[k])
    ensures HttpPrice(page, sels) == Finite(0.0)
  {
    var ps := Prices(page, sels);
    forall i | 0 <= i < |sels| ensures ps[i].None? {
      assert ps[i] == PriceAt(page, sels[i]);
    }
  }

  /** A found price is NaN only when the run starts with a dot not followed by a digit; otherwise it is a number of at least 0. */
  lemma HttpPriceShape(page: Page, sels: seq<string>)
    ensures HttpPrice(page, sels).Finite? ==> HttpPrice(page, sels).value >= 0.0
  {
    var ps := Prices(page, sels);
    var f := FirstSome(ps);
    if f.Some? {
      var k :| 0 <= k < |ps| && ps[k] == f && forall j :: 0 <= j < k ==> ps[j].None?;
      assert f == PriceAt(page, sels[k]);
    }
  }

  /**
   * The image found is the image source of the first selector whose source
   * starts with "http", and "" only when no selector's does.
   */
  lemma HttpImageFirstHttp(page: Page, sels: seq<string>)
    ensures var image := OrElse(Images(page, sels));
      && (image == "" <==> forall i :: 0 <= i < |sels| ==> sels[i] !in page || !StartsWith(ImageSource(page[sels[i]]), "http"))
      && (image != "" ==>
            exists k :: 0 <= k < |sels| && sels[k] in page && image == ImageSource(page[sels[k]])
              && StartsWith(image, "http")
              && forall j :: 0 <= j < k ==> sels[j] !in page || !StartsWith(ImageSource(page[sels[j]]), "http"))
  {
    var images := Images(page, sels);
    var image := OrElse(images);
    if image != "" {
      var k :| 0 <= k < |images| && images[k] == image && forall j :: 0 <= j < k ==> images[j] == "";
      assert image == ImageAt(page, sels[k]);
      forall j | 0 <= j < k ensures sels[j] !in page || !StartsWith(ImageSource(page[sels[j]]), "http") {
        assert images[j] == ImageAt(page, sels[j]) == "";
      }
    } else {
      forall i | 0 <= i < |sels| ensures sels[i] !in page || !StartsWith(ImageSource(page[sels[i]]), "http") {
        assert images[i] == ImageAt(page, sels[i]) == "";
      }
    }
  }
}
