/**
 * The product record and the collection that holds it. A stored product is an
 * object whose fields the controller and the scheduled updater assign in
 * place; `Doc()` is its value. The value-level functions `Repriced` and
 * `Checked` say what one update does, and the lemmas below say what those
 * updates keep.
 */
module Products {
  import opened Wrappers
  import opened Domain
  import opened Recommendation

  /**
   * What an existing product becomes when it is seen again at `price`
   * (the update of both the controller and the updater): a different price
   * shifts `currentPrice` into `previousPrice` and appends one sample dated
   * `today`; the recommendation is recomputed in every case.
   */
  function Repriced(d: ProductDoc, price: real, today: int): (r: ProductDoc)
    ensures r.id == d.id && r.user == d.user && r.url == d.url && r.name == d.name
    ensures r.image == d.image && r.lastChecked == d.lastChecked
    ensures r.currentPrice == price
    ensures r.recommendation == GetRecommendation(Some(r.priceHistory), price)
    ensures price != d.currentPrice ==>
      r.previousPrice == d.currentPrice && r.priceHistory == d.priceHistory + [PriceEntry(price, today)]
    ensures price == d.currentPrice ==>
      r.previousPrice == d.previousPrice && r.priceHistory == d.priceHistory
  {
    if price != d.currentPrice then
      var h := d.priceHistory + [PriceEntry(price, today)];
      d.(previousPrice := d.currentPrice, currentPrice := price, priceHistory := h,
         recommendation := GetRecommendation(Some(h), price))
    else
      d.(recommendation := GetRecommendation(Some(d.priceHistory), d.currentPrice))
  }

  /** The updater's version: `Repriced`, and `lastChecked` set to the time of the check. */
  function Checked(d: ProductDoc, price: real, today: int, now: int): (r: ProductDoc)
    ensures r.lastChecked == now
    ensures r.(lastChecked := d.lastChecked) == Repriced(d, price, today)
  {
    Repriced(d, price, today).(lastChecked := now)
  }

  /**
   * The document the controller creates for a newly tracked product: the
   * scraped fields, `previousPrice` 0, a one-sample history, and `lastChecked`
   * the schema default, which is fixed when the schema is loaded.
   */
  function NewDoc(id: nat, user: nat, s: Scraped, url: string, today: int, loadTime: int): (r: ProductDoc)
    ensures r.id == id && r.user == user && r.url == url
    ensures r.name == s.name && r.image == s.image && r.lastChecked == loadTime
    ensures r.currentPrice == s.price && r.previousPrice == 0.0
    ensures r.priceHistory == [PriceEntry(s.price, today)]
    ensures r.recommendation == NEUTRAL
  {
    SingleSampleIsNeutral(s.price, today);
    var h := [PriceEntry(s.price, today)];
    ProductDoc(id, user, s.name, url, s.image, s.price, 0.0, h, GetRecommendation(Some(h), s.price), loadTime)
  }

  /**
   * The invariant the two writers keep: the history is not empty, its last
   * sample is the current price, and the stored recommendation is the one
   * the history and the current price give.
   */
  predicate Consistent(d: ProductDoc) {
    && |d.priceHistory| > 0
    && d.priceHistory[|d.priceHistory| - 1].price == d.currentPrice
    && d.recommendation == GetRecommendation(Some(d.priceHistory), d.currentPrice)
  }

  lemma NewDocConsistent(id: nat, user: nat, s: Scraped, url: string, today: int, loadTime: int)
    ensures Consistent(NewDoc(id, user, s, url, today, loadTime))
  {
    SingleSampleIsNeutral(s.price, today);
  }

  /** Seeing a consistent product again keeps it consistent, whatever the price. */
  lemma RepricedConsistent(d: ProductDoc, price: real, today: int, now: int)
    requires Consistent(d)
    ensures Consistent(Repriced(d, price, today))
    ensures Consistent(Checked(d, price, today, now))
  {
  }

  /** A second update at the same price changes nothing: the update is idempotent. */
  lemma RepricedIdempotent(d: ProductDoc, price: real, today: int, later: int)
    ensures Repriced(Repriced(d, price, today), price, later) == Repriced(d, price, today)
  {
  }

  /**
   * The history is an append-only log: an update keeps every earlier sample
   * and adds at most one, and adds one exactly when the price changed.
   */
  lemma HistoryAppendOnly(d: ProductDoc, price: real, today: int)
    ensures var h := Repriced(d, price, today).priceHistory;
      && |d.priceHistory| <= |h| <= |d.priceHistory| + 1
      && h[..|d.priceHistory|] == d.priceHistory
      && (|h| == |d.priceHistory| + 1 <==> price != d.currentPrice)
  {
  }

  /** A stored product: its identity is fixed, the rest is assigned by the writers. */
  class Product {
    const id: nat
    const user: nat
    var name: string
    var url: string
    var image: string
    var currentPrice: real
    var previousPrice: real
    var priceHistory: seq<PriceEntry>
    var recommendation: string
    var lastChecked: int

    /** The document this object stores. */
    function Doc(): ProductDoc
      reads this
    {
      ProductDoc(id, user, name, url, image, currentPrice, previousPrice, priceHistory, recommendation, lastChecked)
    }

    constructor (d: ProductDoc)
      ensures Doc() == d
    {
      id, user := d.id, d.user;
      name, url, image := d.name, d.url, d.image;
      currentPrice, previousPrice := d.currentPrice, d.previousPrice;
      priceHistory, recommendation, lastChecked := d.priceHistory, d.recommendation, d.lastChecked;
    }

    /** The price reconciliation, assigned field by field. */
    method Reprice(price: real, today: int)
      modifies this
      ensures Doc() == Repriced(old(Doc()), price, today)
    {
      if currentPrice != price {
        previousPrice := currentPrice;
        currentPrice := price;
        priceHistory := priceHistory + [PriceEntry(price, today)];
      }
      recommendation := GetRecommendation(Some(priceHistory), currentPrice);
    }

    /** The updater's per-product step: reconcile, then stamp the time of the check. */
    method Check(price: real, today: int, now: int)
      modifies this
      ensures Doc() == Checked(old(Doc()), price, today, now)
    {
      if price != currentPrice {
        previousPrice := currentPrice;
        currentPrice := price;
        priceHistory := priceHistory + [PriceEntry(price, today)];
        lastChecked := now;
      }
      recommendation := GetRecommendation(Some(priceHistory), currentPrice);
      lastChecked := now;
    }
  }

  /** The documents of a sequence of stored products, in order. */
  function DocsOf(ps: seq<Product>): (r: seq<ProductDoc>)
    reads set p | p in ps
    ensures |r| == |ps|
    ensures forall i :: 0 <= i < |ps| ==> r[i] == ps[i].Doc()
  {
    if ps == [] then [] else [ps[0].Doc()] + DocsOf(ps[1..])
  }

  /** The index of the first document with this URL and owner: `findOne({ url, user })`. */
  function FindIndex(docs: seq<ProductDoc>, url: string, user: nat): (r: Option<nat>)
    ensures r.Some? ==> r.value < |docs| && docs[r.value].url == url && docs[r.value].user == user
    ensures r.Some? ==> forall i :: 0 <= i < r.value ==> !(docs[i].url == url && docs[i].user == user)
    ensures r.None? ==> forall i :: 0 <= i < |docs| ==> !(docs[i].url == url && docs[i].user == user)
  {
    if docs == [] then None
    else if docs[0].url == url && docs[0].user == user then Some(0)
    else match FindIndex(docs[1..], url, user)
      case None => None
      case Some(k) => Some(k + 1)
  }

  /** The product collection, in the order `find` returns it. */
  class Store {
    var products: seq<Product>
    var nextId: nat
    /** The `lastChecked` default: `Date.now()` evaluated once, when the schema was defined. */
    const loadTime: int

    /** Ids are distinct and below the next one handed out (so the objects are distinct too). */
    ghost predicate Valid()
      reads this, set p | p in products
    {
      && (forall i, j :: 0 <= i < j < |products| ==> products[i].id != products[j].id)
      && (forall i :: 0 <= i < |products| ==> products[i].id < nextId)
    }

    function Docs(): seq<ProductDoc>
      reads this, set p | p in products
    {
      DocsOf(products)
    }

    constructor (loadTime: int)
      ensures Valid() && Docs() == [] && nextId == 0 && this.loadTime == loadTime
    {
      products, nextId := [], 0;
      this.loadTime := loadTime;
    }

    /** `findOne({ url, user })`: a scan for the first product with that URL and owner. */
    method FindOne(url: string, user: nat) returns (k: Option<nat>)
      ensures k == FindIndex(Docs(), url, user)
    {
      var i := 0;
      while i < |products|
        invariant 0 <= i <= |products|
        invariant forall j :: 0 <= j < i ==> !(products[j].url == url && products[j].user == user)
      {
        if products[i].url == url && products[i].user == user {
          k := Some(i);
          FindIndexAt(Docs(), url, user, i);
          return;
        }
        i := i + 1;
      }
      k := None;
      FindIndexAbsent(Docs(), url, user);
    }

    /** The reconciliation of the product at index `k`; the other products are untouched. */
    method RepriceAt(k: nat, price: real, today: int)
      requires Valid() && k < |products|
      modifies products[k]
      ensures products == old(products) && Valid()
      ensures Docs() == old(Docs())[k := Repriced(old(Docs())[k], price, today)]
    {
      var p := products[k];
      p.Reprice(price, today);
      forall i | 0 <= i < |products| && i != k
        ensures products[i].Doc() == old(products[i].Doc())
      {
        assert products[i].id != p.id;
      }
    }

    /** The updater's step on the product at index `k`; the other products are untouched. */
    method CheckAt(k: nat, price: real, today: int, now: int)
      requires Valid() && k < |products|
      modifies products[k]
      ensures products == old(products) && Valid()
      ensures Docs() == old(Docs())[k := Checked(old(Docs())[k], price, today, now)]
    {
      var p := products[k];
      p.Check(price, today, now);
      forall i | 0 <= i < |products| && i != k
        ensures products[i].Doc() == old(products[i].Doc())
      {
        assert products[i].id != p.id;
      }
    }

    /** `new Product(d).save()`: the document is stored under the next id. */
    method Insert(d: ProductDoc) returns (p: Product)
      requires Valid() && d.id == nextId
      modifies this
      ensures Valid() && fresh(p) && p.Doc() == d
      ensures products == old(products) + [p] && nextId == old(nextId) + 1
      ensures Docs() == old(Docs()) + [d]
    {
      p := new Product(d);
      products := products + [p];
      nextId := nextId + 1;
    }
  }

  lemma FindIndexAt(docs: seq<ProductDoc>, url: string, user: nat, i: nat)
    requires i < |docs| && docs[i].url == url && docs[i].user == user
    requires forall j :: 0 <= j < i ==> !(docs[j].url == url && docs[j].user == user)
    ensures FindIndex(docs, url, user) == Some(i)
  {
  }

  lemma FindIndexAbsent(docs: seq<ProductDoc>, url: string, user: nat)
    requires forall j :: 0 <= j < |docs| ==> !(docs[j].url == url && docs[j].user == user)
    ensures FindIndex(docs, url, user) == None
  {
  }
}
