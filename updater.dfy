/**
 * The scheduled price update: one pass over every stored product in `find`
 * order. Each product is scraped; a different price is recorded; the
 * recommendation and `lastChecked` are refreshed whether or not it changed.
 * A scrape that throws is not caught: it ends the pass, with the products
 * before it updated and the rest untouched.
 */
module Updater {
  import opened Wrappers
  import opened Domain
  import opened Recommendation
  import opened Platform
  import opened Products

  /**
   * What the scheduled job calls for each product: the platform dispatcher
   * `ScrapeProduct` under some scraper answers, passed in as a function so
   * the pass can be reasoned about without unfolding the dispatcher.
   */
  type Scrape = string -> Result<Scraped, Error>

  /** The job's scraper: the dispatcher under the answers `env`. */
  function Dispatcher(env: Scrapers): Scrape
  {
    url => ScrapeProduct(url, env)
  }

  /** The number of products the pass gets through: the index of the first whose scrape throws. */
  function Reached(docs: seq<ProductDoc>, scrape: Scrape): (k: nat)
    ensures k <= |docs|
    ensures forall i :: 0 <= i < k ==> scrape(docs[i].url).Ok?
    ensures k < |docs| ==> scrape(docs[k].url).Err?
  {
    if docs == [] then 0
    else if scrape(docs[0].url).Err? then 0
    else 1 + Reached(docs[1..], scrape)
  }

  /** The outcome of a pass: the error that ended it, if any, and the documents after it. */
  datatype PassResult = PassResult(failure: Option<Error>, docs: seq<ProductDoc>)

  /** One pass over `docs`, scraping with `scrape`; `today` dates new samples and `now` is the time of the checks. */
  function Pass(docs: seq<ProductDoc>, scrape: Scrape, today: int, now: int): (r: PassResult)
    ensures |r.docs| == |docs|
  {
    if docs == [] then PassResult(None, [])
    else match scrape(docs[0].url)
      case Err(e) => PassResult(Some(e), docs)
      case Ok(s) =>
        var rest := Pass(docs[1..], scrape, today, now);
        PassResult(rest.failure, [Checked(docs[0], s.price, today, now)] + rest.docs)
  }

  /** Product `i` after the pass: checked at its scraped price when the pass reaches it, untouched otherwise. */
  lemma {:induction false} PassAt(docs: seq<ProductDoc>, scrape: Scrape, today: int, now: int, i: nat)
    requires i < |docs|
    ensures Pass(docs, scrape, today, now).docs[i] ==
      if i < Reached(docs, scrape) then Checked(docs[i], scrape(docs[i].url).value.price, today, now) else docs[i]
  {
    if i > 0 && scrape(docs[0].url).Ok? {
      PassAt(docs[1..], scrape, today, now, i - 1);
      assert docs[1..][i - 1] == docs[i];
    }
  }

  /** The products the pass reaches are checked at their scraped price, and the others are left as they were. */
  lemma PassUpdates(docs: seq<ProductDoc>, scrape: Scrape, today: int, now: int)
    ensures var r := Pass(docs, scrape, today, now); var k := Reached(docs, scrape);
      && (forall i :: 0 <= i < k ==> r.docs[i] == Checked(docs[i], scrape(docs[i].url).value.price, today, now))
      && (forall i :: k <= i < |docs| ==> r.docs[i] == docs[i])
  {
    forall i | 0 <= i < |docs| {
      PassAt(docs, scrape, today, now, i);
    }
  }

  /** The pass fails exactly when some scrape throws, and then with the first such error. */
  lemma {:induction false} PassFailure(docs: seq<ProductDoc>, scrape: Scrape, today: int, now: int)
    ensures var r := Pass(docs, scrape, today, now); var k := Reached(docs, scrape);
      && (r.failure.None? <==> k == |docs|)
      && (k < |docs| ==> r.failure == Some(scrape(docs[k].url).error))
  {
    if docs != [] && scrape(docs[0].url).Ok? {
      PassFailure(docs[1..], scrape, today, now);
      var k := Reached(docs[1..], scrape);
      if k < |docs| - 1 {
        assert docs[1..][k] == docs[k + 1];
      }
    }
  }

  /** The documents part-way through the pass: the first `i` as the pass leaves them, the rest as they were. */
  function Midway(docs: seq<ProductDoc>, scrape: Scrape, today: int, now: int, i: nat): (m: seq<ProductDoc>)
    requires i <= |docs|
    ensures |m| == |docs|
    ensures i < |docs| ==> m[i] == docs[i]
  {
    Pass(docs, scrape, today, now).docs[..i] + docs[i..]
  }

  /** Replacing element `i` of a spliced sequence by `e[i]` moves the splice point one on. */
  lemma SpliceStep<T>(e: seq<T>, d: seq<T>, i: nat, x: T)
    requires i < |e| == |d| && e[i] == x
    ensures (e[..i] + d[i..])[i := x] == e[..i + 1] + d[i + 1..]
  {
    assert e[..i + 1] == e[..i] + [x];
  }

  /** Checking product `i` moves the pass one product on. */
  lemma MidwayStep(docs: seq<ProductDoc>, scrape: Scrape, today: int, now: int, i: nat)
    requires i < Reached(docs, scrape)
    ensures Midway(docs, scrape, today, now, i)[i := Checked(docs[i], scrape(docs[i].url).value.price, today, now)]
      == Midway(docs, scrape, today, now, i + 1)
  {
    PassAt(docs, scrape, today, now, i);
    SpliceStep(Pass(docs, scrape, today, now).docs, docs, i, Checked(docs[i], scrape(docs[i].url).value.price, today, now));
  }

  /** Once the pass has reached every product it gets to, nothing more changes. */
  lemma MidwayDone(docs: seq<ProductDoc>, scrape: Scrape, today: int, now: int)
    ensures Midway(docs, scrape, today, now, Reached(docs, scrape)) == Pass(docs, scrape, today, now).docs
  {
    var k := Reached(docs, scrape);
    var e := Pass(docs, scrape, today, now).docs;
    PassUpdates(docs, scrape, today, now);
    assert e == e[..k] + e[k..];
    assert e[k..] == docs[k..];
  }

  /** One turn of the loop: scrape product `i` and check it, or stop with the scrape's error. */
  method CheckNext(store: Store, scrape: Scrape, today: int, now: int, ghost docs: seq<ProductDoc>, i: nat)
    returns (failure: Option<Error>)
    requires store.Valid() && i < |store.products| && i <= Reached(docs, scrape)
    requires store.Docs() == Midway(docs, scrape, today, now, i)
    modifies store.products[i]
    ensures store.products == old(store.products) && store.Valid()
    ensures failure.None? ==> i < Reached(docs, scrape) && store.Docs() == Midway(docs, scrape, today, now, i + 1)
    ensures failure.Some? ==>
      && i == Reached(docs, scrape)
      && store.Docs() == old(store.Docs())
      && failure == Some(scrape(docs[i].url).error)
  {
    var scraped := scrape(store.products[i].url);
    assert store.products[i].Doc() == store.Docs()[i] == docs[i];
    if scraped.Err? {
      return Some(scraped.error);
    }
    MidwayStep(docs, scrape, today, now, i);
    store.CheckAt(i, scraped.value.price, today, now);
    failure := None;
  }

  /** The scheduled callback's loop, on the store. */
  method RunPass(store: Store, scrape: Scrape, today: int, now: int) returns (failure: Option<Error>)
    requires store.Valid()
    modifies set p | p in store.products
    ensures store.Valid()
    ensures Pass(old(store.Docs()), scrape, today, now) == PassResult(failure, store.Docs())
  {
    ghost var docs := store.Docs();
    ghost var k := Reached(docs, scrape);
    var products := store.products;
    failure := None;
    var i := 0;
    while i < |products|
      invariant products == store.products
      invariant store.Valid()
      invariant 0 <= i <= k && failure.None?
      invariant store.Docs() == Midway(docs, scrape, today, now, i)
    {
      failure := CheckNext(store, scrape, today, now, docs, i);
      if failure.Some? {
        assert Pass(docs, scrape, today, now) == PassResult(failure, store.Docs()) by {
          PassFailure(docs, scrape, today, now);
          MidwayDone(docs, scrape, today, now);
        }
        return;
      }
      i := i + 1;
    }
    assert Pass(docs, scrape, today, now) == PassResult(failure, store.Docs()) by {
      assert i == k;
      PassFailure(docs, scrape, today, now);
      MidwayDone(docs, scrape, today, now);
    }
  }

  /** A price of 0 from the scraper (an empty Flipkart answer, say) is recorded like any other price. */
  lemma ZeroPriceRecorded(d: ProductDoc, scrape: Scrape, today: int, now: int)
    requires scrape(d.url) == Ok(Scraped(d.name, 0.0, d.image))
    requires d.currentPrice != 0.0
    ensures var r := Pass([d], scrape, today, now).docs[0];
      r.currentPrice == 0.0 && r.previousPrice == d.currentPrice
      && r.priceHistory == d.priceHistory + [PriceEntry(0.0, today)]
  {
  }

  /** Under the job's dispatcher, a first product on no supported platform stops the pass at once with "Unsupported platform". */
  lemma UnsupportedStopsPass(docs: seq<ProductDoc>, env: Scrapers, today: int, now: int)
    requires docs != [] && GetPlatform(docs[0].url).Err?
    ensures Reached(docs, Dispatcher(env)) == 0
    ensures Pass(docs, Dispatcher(env), today, now) == PassResult(Some(UNSUPPORTED), docs)
  {
  }

  /** Every product the pass reaches has been checked at `now`, changed or not. */
  lemma ReachedAreStamped(docs: seq<ProductDoc>, scrape: Scrape, today: int, now: int, i: nat)
    requires i < Reached(docs, scrape)
    ensures Pass(docs, scrape, today, now).docs[i].lastChecked == now
    ensures Pass(docs, scrape, today, now).docs[i].recommendation ==
      GetRecommendation(Some(Pass(docs, scrape, today, now).docs[i].priceHistory),
                        Pass(docs, scrape, today, now).docs[i].currentPrice)
  {
    PassUpdates(docs, scrape, today, now);
  }

  /** A pass keeps every stored document consistent. */
  lemma PassKeepsConsistent(docs: seq<ProductDoc>, scrape: Scrape, today: int, now: int)
    requires forall i :: 0 <= i < |docs| ==> Consistent(docs[i])
    ensures forall i :: 0 <= i < |docs| ==> Consistent(Pass(docs, scrape, today, now).docs[i])
  {
    var r := Pass(docs, scrape, today, now);
    PassUpdates(docs, scrape, today, now);
    forall i | 0 <= i < |docs|
      ensures Consistent(r.docs[i])
    {
      if i < Reached(docs, scrape) {
        RepricedConsistent(docs[i], scrape(docs[i].url).value.price, today, now);
      }
    }
  }

  /** A second pass at unchanged prices appends nothing: each product's history is as the first pass left it. */
  lemma {:induction false} SecondPassAppendsNothing(docs: seq<ProductDoc>, scrape: Scrape, today: int, later: int, now: int, now2: int)
    requires Reached(docs, scrape) == |docs|
    ensures var r1 := Pass(docs, scrape, today, now).docs;
      var r2 := Pass(r1, scrape, later, now2).docs;
      forall i :: 0 <= i < |docs| ==> r2[i].priceHistory == r1[i].priceHistory && r2[i].currentPrice == r1[i].currentPrice
  {
    var r1 := Pass(docs, scrape, today, now).docs;
    PassUpdates(docs, scrape, today, now);
    forall i | 0 <= i < |docs| ensures r1[i].url == docs[i].url {
    }
    assert Reached(r1, scrape) == |r1|;
    PassUpdates(r1, scrape, later, now2);
  }
}
