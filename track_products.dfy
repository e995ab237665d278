/**
 * The "track a product" form: the URL gate `validateUrl` and the checks
 * `handleSubmit` makes before it asks the server to add the product, and the
 * message it shows when that request fails.
 */
module TrackProducts {
  import opened Wrappers
  import opened Text
  import opened Platform
  import opened PriceText

  const AMAZON_PREFIX := "https://www.amazon.in/"
  const FLIPKART_PREFIX := "https://www.flipkart.com/"

  const EMPTY_URL_MESSAGE := "Please enter a product URL"
  const INVALID_URL_MESSAGE := "Please enter a valid Amazon India or Flipkart URL"
  const GENERIC_FAILURE := "Failed to add product"
  const STATUS_FAILURE_PREFIX := "Request failed with status "

  /** `/^prefix.+/`: the prefix, then at least one character that is not a line terminator. */
  predicate PrefixThenChar(url: string, prefix: string) {
    StartsWith(url, prefix) && |url| > |prefix| && !IsLineTerminator(url[|prefix|])
  }

  /** `validateUrl(url)`: the Amazon India pattern or the Flipkart pattern. */
  function ValidateUrl(url: string): (r: bool)
    ensures StartsWith(url, AMAZON_PREFIX) ==> (r <==> |url| > |AMAZON_PREFIX| && !IsLineTerminator(url[|AMAZON_PREFIX|]))
    ensures StartsWith(url, FLIPKART_PREFIX) ==> (r <==> |url| > |FLIPKART_PREFIX| && !IsLineTerminator(url[|FLIPKART_PREFIX|]))
    ensures !StartsWith(url, AMAZON_PREFIX) && !StartsWith(url, FLIPKART_PREFIX) ==> !r
  {
    PrefixesClash(url, AMAZON_PREFIX, FLIPKART_PREFIX, 12);
    PrefixThenChar(url, AMAZON_PREFIX) || PrefixThenChar(url, FLIPKART_PREFIX)
  }

  /** Two prefixes that differ at a position both have cannot both start the same text. */
  lemma PrefixesClash(url: string, p: string, q: string, k: nat)
    requires k < |p| && k < |q| && p[k] != q[k]
    ensures !(StartsWith(url, p) && StartsWith(url, q))
  {
  }

  /** `http://` addresses and hosts without `www.` are refused. */
  lemma InsecureOrBareHostRefused(url: string)
    requires StartsWith(url, "http://") || StartsWith(url, "https://amazon.in/") || StartsWith(url, "https://flipkart.com/")
    ensures !ValidateUrl(url)
  {
    PrefixesClash(url, "http://", AMAZON_PREFIX, 4);
    PrefixesClash(url, "http://", FLIPKART_PREFIX, 4);
    PrefixesClash(url, "https://amazon.in/", AMAZON_PREFIX, 8);
    PrefixesClash(url, "https://amazon.in/", FLIPKART_PREFIX, 8);
    PrefixesClash(url, "https://flipkart.com/", AMAZON_PREFIX, 8);
    PrefixesClash(url, "https://flipkart.com/", FLIPKART_PREFIX, 8);
  }

  /** A text that starts with `prefix` contains every word found inside `prefix`. */
  lemma PrefixWordContained(url: string, prefix: string, word: string, at: nat)
    requires StartsWith(url, prefix) && at + |word| <= |prefix| && prefix[at..at + |word|] == word
    ensures Contains(url, word)
  {
    assert url[at..at + |word|] == prefix[at..at + |word|] by {
      assert url[..|prefix|] == prefix;
    }
    ContainsAt(url, word, at);
  }

  /** An accepted address names its shop, so classifying it never throws; an Amazon India address is classified as Amazon. */
  lemma AcceptedHasPlatform(url: string)
    requires ValidateUrl(url)
    ensures GetPlatform(url).Ok?
    ensures PrefixThenChar(url, AMAZON_PREFIX) ==> GetPlatform(url) == Ok(Amazon)
  {
    if PrefixThenChar(url, AMAZON_PREFIX) {
      assert AMAZON_PREFIX[12..21] == "amazon.in";
      PrefixWordContained(url, AMAZON_PREFIX, "amazon.in", 12);
    } else {
      assert FLIPKART_PREFIX[12..24] == "flipkart.com";
      PrefixWordContained(url, FLIPKART_PREFIX, "flipkart.com", 12);
    }
  }

  /** A Flipkart address that mentions `amazon.in` later on passes the gate and is classified as Amazon. */
  lemma FlipkartAddressMayClassifyAsAmazon()
    ensures ValidateUrl("https://www.flipkart.com/p?ref=amazon.in")
    ensures GetPlatform("https://www.flipkart.com/p?ref=amazon.in") == Ok(Amazon)
  {
    var u := "https://www.flipkart.com/p?ref=amazon.in";
    assert u[..|FLIPKART_PREFIX|] == FLIPKART_PREFIX;
    assert u[31..40] == "amazon.in";
    ContainsAt(u, "amazon.in", 31);
  }

  /** What submitting the form does: refuse with a message, or send the add request for the URL. */
  datatype Submit = Refused(error: string) | Request(url: string)

  /**
   * `handleSubmit`'s guards: a blank field is refused first; the untrimmed
   * text must then pass `validateUrl`; only then is the request sent.
   */
  function HandleSubmit(url: string): (r: Submit)
    ensures r.Request? <==> ValidateUrl(url)
    ensures r.Request? ==> r.url == url
    ensures AllSpace(url) ==> r == Refused(EMPTY_URL_MESSAGE)
    ensures !AllSpace(url) && !ValidateUrl(url) ==> r == Refused(INVALID_URL_MESSAGE)
  {
    if Trim(url) == "" then Refused(EMPTY_URL_MESSAGE)
    else if !ValidateUrl(url) then Refused(INVALID_URL_MESSAGE)
    else Request(url)
  }

  /** Leading whitespace is not trimmed before validation: such a URL is refused although its trimmed form passes. */
  lemma LeadingSpaceRefused()
    ensures ValidateUrl("https://www.amazon.in/dp/1")
    ensures HandleSubmit(" https://www.amazon.in/dp/1") == Refused(INVALID_URL_MESSAGE)
  {
    var u := "https://www.amazon.in/dp/1";
    assert u[..|AMAZON_PREFIX|] == AMAZON_PREFIX;
    var v := " " + u;
    assert !IsSpace(v[1]);
    assert !StartsWith(v, AMAZON_PREFIX) && !StartsWith(v, FLIPKART_PREFIX) by {
      assert v[0] != AMAZON_PREFIX[0] && v[0] != FLIPKART_PREFIX[0];
    }
  }

  /** The server's answer to a failed request: its status and the `error` and `message` of its body ("" when absent). */
  datatype Response = Response(status: nat, error: string, message: string)

  /**
   * The message shown when the add request throws: the server's `error`, else
   * its `message`, else the status when there is a (non-zero) one, else a
   * generic text; `None` is a request that got no response at all.
   */
  function FailureMessage(response: Option<Response>): (r: string)
    ensures r != ""
    ensures response.Some? && response.value.error != "" ==> r == response.value.error
    ensures response.None? ==> r == GENERIC_FAILURE
    ensures response.Some? && response.value.error == "" && response.value.message != "" ==> r == response.value.message
    ensures response.Some? && response.value.error == "" && response.value.message == "" ==>
      r == if response.value.status != 0 then STATUS_FAILURE_PREFIX + ShowNat(response.value.status) else GENERIC_FAILURE
  {
    match response
    case None => GENERIC_FAILURE
    case Some(resp) =>
      var fallback := if resp.status != 0 then STATUS_FAILURE_PREFIX + ShowNat(resp.status) else GENERIC_FAILURE;
      var xs := [resp.error, resp.message, fallback];
      OrElseOfThree(xs);
      OrElse(xs)
  }

  /** Without a message from the server, the status is shown, written in decimal. */
  lemma StatusShownWithoutMessage(status: nat)
    requires status != 0
    ensures FailureMessage(Some(Response(status, "", ""))) == STATUS_FAILURE_PREFIX + ShowNat(status)
  {
    var xs := ["", "", STATUS_FAILURE_PREFIX + ShowNat(status)];
    OrElseAt(xs, 2);
  }
}
