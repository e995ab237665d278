/**
 * The product controller: `addOrUpdateProduct` (validate the request, scrape,
 * deduplicate by cleaned URL and owner, create or reconcile) with its error
 * mapping, and the recommendation refresh of `getProducts`.
 *
 * `AddOrUpdate` is the value-level outcome of one request over the stored
 * documents; the method `AddOrUpdateProduct` performs it on the store and is
 * proved to reach that outcome.
 */
module Controller {
  import opened Wrappers
  import opened Text
  import opened Domain
  import opened Recommendation
  import opened Platform
  import opened Canonical
  import opened Products

  const URL_REQUIRED: string := "Product URL is required"
  const INVALID_URL_FORMAT: string := "Invalid URL format"
  const NOT_EXTRACTED: string :=
    "Could not extract product information. Please check if the URL is correct and accessible."
  const UNSUPPORTED_REPLY: string := "Unsupported platform. Please use Amazon India or Flipkart URLs."
  const UNAVAILABLE_REPLY: string :=
    "Unable to fetch product details. The product page might be unavailable or the URL format has changed."
  const INVALID_DATA_REPLY: string := "Invalid product data. Please try again with a different URL."
  const INTERNAL_REPLY: string := "Internal server error. Please try again later."

  /** The JSON body of a reply. */
  datatype Body = Message(error: string) | ProductJson(doc: ProductDoc) | ProductList(docs: seq<ProductDoc>)

  datatype Response = Response(status: nat, body: Body)

  /** The reply to a request and the documents stored after it. */
  datatype Outcome = Outcome(response: Response, docs: seq<ProductDoc>)

  /** The `catch` block: the first test on the error that succeeds picks the reply. */
  function MapError(e: Error): (r: Response)
    ensures r.status == 400 <==>
      Contains(e.message, "Unsupported platform") || Contains(e.message, "Failed to scrape")
      || e.name == "ValidationError"
    ensures r.status != 400 ==> r == Response(500, Message(INTERNAL_REPLY))
    ensures Contains(e.message, "Unsupported platform") ==> r == Response(400, Message(UNSUPPORTED_REPLY))
    ensures !Contains(e.message, "Unsupported platform") && Contains(e.message, "Failed to scrape") ==>
      r == Response(400, Message(UNAVAILABLE_REPLY))
    ensures (!Contains(e.message, "Unsupported platform") && !Contains(e.message, "Failed to scrape")
             && e.name == "ValidationError") ==> r == Response(400, Message(INVALID_DATA_REPLY))
  {
    if Contains(e.message, "Unsupported platform") then Response(400, Message(UNSUPPORTED_REPLY))
    else if Contains(e.message, "Failed to scrape") then Response(400, Message(UNAVAILABLE_REPLY))
    else if e.name == "ValidationError" then Response(400, Message(INVALID_DATA_REPLY))
    else Response(500, Message(INTERNAL_REPLY))
  }

  /** The dedup key: the URL cleaned by the rule of its platform (Amazon when it mentions `amazon.in`). */
  function CleanKey(url: string): (r: string)
    ensures Contains(url, "amazon.in") ==> r == CleanAmazonUrl(url)
    ensures !Contains(url, "amazon.in") ==> r == CleanFlipkartUrl(url)
  {
    if GetPlatform(url) == Ok(Amazon) then CleanAmazonUrl(url) else CleanFlipkartUrl(url)
  }

  /**
   * The checks of `addOrUpdateProduct` before anything is looked up: a URL
   * must be given and parse, the scrape must succeed and yield a name. `url`
   * is `req.body.url` (`None` when absent). `Err` carries the reply.
   */
  function Admit(url: Option<string>, env: Scrapers): (r: Result<Scraped, Response>)
    ensures r.Ok? <==>
      url.Some? && url.value != "" && env.urlParses(url.value)
      && ScrapeProduct(url.value, env).Ok? && ScrapeProduct(url.value, env).value.name != ""
    ensures r.Ok? ==> r.value == ScrapeProduct(url.value, env).value
    ensures r.Err? ==> r.error.status == 400 || r.error.status == 500
  {
    if url.None? || url.value == "" then Err(Response(400, Message(URL_REQUIRED)))
    else if !env.urlParses(url.value) then Err(Response(400, Message(INVALID_URL_FORMAT)))
    else match ScrapeProduct(url.value, env)
      case Err(e) => Err(MapError(e))
      case Ok(s) => if s.name == "" then Err(Response(400, Message(NOT_EXTRACTED))) else Ok(s)
  }

  /**
   * One `addOrUpdateProduct` request: `user` is the authenticated owner,
   * `nextId` the id a new document gets, `today` the date of a new sample and
   * `loadTime` the `lastChecked` default. An admitted scrape creates the
   * document for (cleaned URL, owner) or reconciles the first one found.
   */
  function AddOrUpdate(docs: seq<ProductDoc>, nextId: nat, loadTime: int,
                       url: Option<string>, user: nat, env: Scrapers, today: int): (o: Outcome)
    ensures o.response.status == 200 <==> Admit(url, env).Ok?
    ensures o.response.status != 200 ==> o.docs == docs
    ensures o.response.status == 200 ==> o.response.body.ProductJson?
  {
    match Admit(url, env)
    case Err(reply) => Outcome(reply, docs)
    case Ok(s) =>
      var key := CleanKey(url.value);
      match FindIndex(docs, key, user)
      case None =>
        var d := NewDoc(nextId, user, s, key, today, loadTime);
        Outcome(Response(200, ProductJson(d)), docs + [d])
      case Some(k) =>
        var d := Repriced(docs[k], s.price, today);
        Outcome(Response(200, ProductJson(d)), docs[k := d])
  }

  /**
   * `addOrUpdateProduct` on the store. Saving is not modelled as failing: the
   * object is assigned in place and is the stored record.
   */
  method AddOrUpdateProduct(store: Store, url: Option<string>, user: nat, env: Scrapers, today: int)
    returns (response: Response)
    requires store.Valid()
    modifies store, set p | p in store.products
    ensures store.Valid()
    ensures var o := AddOrUpdate(old(store.Docs()), old(store.nextId), store.loadTime, url, user, env, today);
      response == o.response && store.Docs() == o.docs
  {
    var admitted := Admit(url, env);
    if admitted.Err? {
      return admitted.error;
    }
    var s := admitted.value;
    var key := CleanKey(url.value);
    ghost var docs := store.Docs();
    var k := store.FindOne(key, user);
    if k.None? {
      var d := NewDoc(store.nextId, user, s, key, today, store.loadTime);
      var p := store.Insert(d);
      assert store.Docs() == docs + [d];
      response := Response(200, ProductJson(p.Doc()));
    } else {
      store.RepriceAt(k.value, s.price, today);
      response := Response(200, ProductJson(store.products[k.value].Doc()));
    }
  }

  /** An empty scraped name is refused and nothing is stored; a price of 0 with a name is accepted. */
  lemma NameDecidesAcceptance(docs: seq<ProductDoc>, nextId: nat, loadTime: int,
                              url: string, user: nat, env: Scrapers, today: int)
    requires url != "" && env.urlParses(url) && ScrapeProduct(url, env).Ok?
    ensures var o := AddOrUpdate(docs, nextId, loadTime, Some(url), user, env, today);
      && (ScrapeProduct(url, env).value.name == "" ==>
            o == Outcome(Response(400, Message(NOT_EXTRACTED)), docs))
      && (ScrapeProduct(url, env).value.name != "" ==> o.response.status == 200)
  {
  }

  /** A URL of neither platform that parses gets the "Unsupported platform" reply, and nothing is stored. */
  lemma UnsupportedUrlRejected(docs: seq<ProductDoc>, nextId: nat, loadTime: int,
                               url: string, user: nat, env: Scrapers, today: int)
    requires url != "" && env.urlParses(url)
    requires !Contains(url, "amazon.in") && !Contains(url, "flipkart.com")
    ensures AddOrUpdate(docs, nextId, loadTime, Some(url), user, env, today)
      == Outcome(Response(400, Message(UNSUPPORTED_REPLY)), docs)
  {
    assert Contains(UNSUPPORTED.message, "Unsupported platform") by {
      ContainsAt(UNSUPPORTED.message, "Unsupported platform", 0);
    }
  }

  /**
   * A first request for an untracked (URL, owner) pair creates one document
   * with the scraped price, `previousPrice` 0, a one-sample history and the
   * "Neutral" recommendation; an existing one is reconciled in place.
   */
  lemma CreateOrReconcile(docs: seq<ProductDoc>, nextId: nat, loadTime: int,
                          url: string, user: nat, env: Scrapers, today: int)
    requires AddOrUpdate(docs, nextId, loadTime, Some(url), user, env, today).response.status == 200
    ensures var o := AddOrUpdate(docs, nextId, loadTime, Some(url), user, env, today);
      var s := ScrapeProduct(url, env).value;
      var key := CleanKey(url);
      && (FindIndex(docs, key, user).None? ==>
            && o.docs == docs + [o.response.body.doc]
            && o.response.body.doc == NewDoc(nextId, user, s, key, today, loadTime)
            && o.response.body.doc.recommendation == NEUTRAL)
      && (FindIndex(docs, key, user).Some? ==>
            var k := FindIndex(docs, key, user).value;
            o.docs == docs[k := Repriced(docs[k], s.price, today)])
  {
  }

  /**
   * Repeating a request whose scrape gives the same answer leaves the store as
   * the first request left it: no duplicate document and no second sample.
   */
  lemma {:induction false} AddOrUpdateIdempotent(docs: seq<ProductDoc>, nextId: nat, loadTime: int,
                                                 url: string, user: nat, env: Scrapers, today: int, later: int)
    ensures var o1 := AddOrUpdate(docs, nextId, loadTime, Some(url), user, env, today);
      var o2 := AddOrUpdate(o1.docs, nextId + 1, loadTime, Some(url), user, env, later);
      o2.docs == o1.docs && o2.response == o1.response
  {
    var o1 := AddOrUpdate(docs, nextId, loadTime, Some(url), user, env, today);
    if o1.response.status == 200 {
      var s := ScrapeProduct(url, env).value;
      var key := CleanKey(url);
      match FindIndex(docs, key, user)
      case None =>
        var d := NewDoc(nextId, user, s, key, today, loadTime);
        FindIndexAt(o1.docs, key, user, |docs|);
        SingleSampleIsNeutral(s.price, today);
        assert Repriced(d, s.price, later) == d;
      case Some(k) =>
        var d := Repriced(docs[k], s.price, today);
        FindIndexAt(o1.docs, key, user, k);
        RepricedIdempotent(docs[k], s.price, today, later);
    }
  }

  /** Every request keeps every stored document consistent. */
  lemma AddOrUpdateKeepsConsistent(docs: seq<ProductDoc>, nextId: nat, loadTime: int,
                                   url: Option<string>, user: nat, env: Scrapers, today: int)
    requires forall i :: 0 <= i < |docs| ==> Consistent(docs[i])
    ensures var o := AddOrUpdate(docs, nextId, loadTime, url, user, env, today);
      forall i :: 0 <= i < |o.docs| ==> Consistent(o.docs[i])
  {
    var o := AddOrUpdate(docs, nextId, loadTime, url, user, env, today);
    if o.response.status == 200 {
      var s := ScrapeProduct(url.value, env).value;
      var key := CleanKey(url.value);
      match FindIndex(docs, key, user)
      case None =>
        NewDocConsistent(nextId, user, s, key, today, loadTime);
      case Some(k) =>
        RepricedConsistent(docs[k], s.price, today, 0);
    }
  }

  /** The owner's documents as stored: `find({ user })`. */
  function Owned(docs: seq<ProductDoc>, user: nat): (r: seq<ProductDoc>)
    ensures forall k :: 0 <= k < |r| ==> r[k].user == user && r[k] in docs
    ensures forall i :: 0 <= i < |docs| && docs[i].user == user ==> docs[i] in r
  {
    if docs == [] then []
    else if docs[0].user == user then [docs[0]] + Owned(docs[1..], user)
    else Owned(docs[1..], user)
  }

  /** `find` keeps stored order: the owner's documents of a concatenation are those of each part in turn. */
  lemma {:induction false} OwnedAppend(a: seq<ProductDoc>, b: seq<ProductDoc>, user: nat)
    ensures Owned(a + b, user) == Owned(a, user) + Owned(b, user)
  {
    if a == [] {
      assert a + b == b;
    } else {
      assert (a + b)[0] == a[0] && (a + b)[1..] == a[1..] + b;
      OwnedAppend(a[1..], b, user);
      if a[0].user == user {
        assert Owned(a + b, user) == [a[0]] + (Owned(a[1..], user) + Owned(b, user));
        assert [a[0]] + (Owned(a[1..], user) + Owned(b, user)) == ([a[0]] + Owned(a[1..], user)) + Owned(b, user);
      }
    }
  }

  /** A document with its recommendation recomputed from its history, as the `map` of `getProducts` does. */
  function Relabelled(d: ProductDoc): ProductDoc {
    d.(recommendation := GetRecommendation(Some(d.priceHistory), d.currentPrice))
  }

  /** `getProducts`: the owner's documents in stored order, each with its recommendation recomputed. */
  function GetProducts(docs: seq<ProductDoc>, user: nat): (r: seq<ProductDoc>)
    ensures |r| == |Owned(docs, user)|
    ensures forall k :: 0 <= k < |r| ==> r[k] == Relabelled(Owned(docs, user)[k])
    // Implied by the clause above and `Owned`; kept to state outright that the refresh touches nothing but the label.
    ensures forall k :: 0 <= k < |r| ==> r[k].(recommendation := "") in Unlabelled(docs)
  {
    if docs == [] then []
    else
      var rest := GetProducts(docs[1..], user);
      if docs[0].user == user then [Relabelled(docs[0])] + rest
      else rest
  }

  /** The documents with the recommendation blanked: what the refresh may not change. */
  function Unlabelled(docs: seq<ProductDoc>): (r: seq<ProductDoc>)
    ensures |r| == |docs| && forall i :: 0 <= i < |docs| ==> r[i] == docs[i].(recommendation := "")
  {
    if docs == [] then [] else [docs[0].(recommendation := "")] + Unlabelled(docs[1..])
  }

  /** On consistent documents the refresh of `getProducts` changes nothing: it returns the owner's documents. */
  lemma {:induction false} RefreshIsIdentityOnConsistent(docs: seq<ProductDoc>, user: nat)
    requires forall i :: 0 <= i < |docs| ==> Consistent(docs[i])
    ensures GetProducts(docs, user) == Owned(docs, user)
  {
    if docs != [] {
      RefreshIsIdentityOnConsistent(docs[1..], user);
    }
  }

  /** The reply of `getProducts`. */
  function GetProductsReply(docs: seq<ProductDoc>, user: nat): (r: Response)
    ensures r.status == 200 && r.body == ProductList(GetProducts(docs, user))
  {
    Response(200, ProductList(GetProducts(docs, user)))
  }

  /**
   * A cleaned Flipkart URL keeps no query unless its slug carries a `?`, so
   * the updater later asks the product API for a null `pid`.
   */
  lemma CleanedFlipkartHasNoPid(url: string)
    ensures SearchParam(CleanFlipkartUrl(url), "pid").Some? ==>
      && FirstMatch(FLIPKART, url, 0).Some?
      && var i := FirstMatch(FLIPKART, url, 0).value.0;
         '?' in url[i + |FLIPKART.prefix|..SegmentEnd(url, i + |FLIPKART.prefix|)]
  {
    QueryOnlyInSlug(FLIPKART, url);
  }

  /** ... and the slug can carry one: this URL is its own cleaned form ... */
  lemma SlugMayCarryPid()
    ensures CleanFlipkartUrl("https://www.flipkart.com/?pid=1/p/X1") == "https://www.flipkart.com/?pid=1/p/X1"
  {
    PatternsWellFormed();
    var u := "https://www.flipkart.com/?pid=1/p/X1";
    assert Shaped(FLIPKART, u, 0, 31, |u|) by {
      assert u[0..25] == FLIPKART.prefix;
      assert u[31..34] == FLIPKART.marker;
      assert forall x :: 25 <= x < 31 ==> u[x] != '/';
      assert forall x :: 34 <= x < |u| ==> IdChar(FLIPKART, u[x]);
    }
    MatchAtComplete(FLIPKART, u, 0, 31, |u|);
    assert FirstMatch(FLIPKART, u, 0) == Some((0, |u|));
    assert u[0..|u|] == u;
  }

  /** ... and still carries a `pid`. */
  lemma PidSurvivesInSlug()
    ensures SearchParam("https://www.flipkart.com/?pid=1/p/X1", "pid") == Some("1/p/X1")
  {
    var base := FLIPKART.prefix;
    var q := "pid=1/p/X1";
    assert base + "?" + q == "https://www.flipkart.com/?pid=1/p/X1";
    PatternsWellFormed();
    assert forall x :: 0 <= x < |base| ==> base[x] != '#';
    assert forall x :: 0 <= x < |q| ==> q[x] != '#';
    SearchParamOfParts(base, q, "pid");
    PidParam();
  }

  lemma PidParam()
    ensures ParamOf("pid=1/p/X1", "pid") == Some("1/p/X1")
  {
    var key, value := "pid", "1/p/X1";
    assert key + "=" + value == "pid=1/p/X1";
    assert forall x :: 0 <= x < |value| ==> value[x] != '&';
    ParamOfSinglePair(key, value);
  }
}
