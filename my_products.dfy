/**
 * The "my products" page: the search filter, the price orders of the list,
 * the summary statistics, and the list after a product is removed.
 */
module MyProducts {
  import opened Wrappers
  import opened Text
  import opened Domain
  import opened Recommendation
  import opened ProductCard

  /** A product matches when its lower-cased name contains the lower-cased term. */
  predicate Matches(product: ProductDoc, term: string) {
    Contains(ToLower(product.name), ToLower(term))
  }

  /** `products.filter(product => product.name.toLowerCase().includes(searchTerm.toLowerCase()))`. */
  function Search(products: seq<ProductDoc>, term: string): (r: seq<ProductDoc>)
    ensures |r| <= |products|
    ensures forall i :: 0 <= i < |r| ==> Matches(r[i], term) && r[i] in products
    ensures forall i :: 0 <= i < |products| && Matches(products[i], term) ==> products[i] in r
  {
    if products == [] then []
    else (if Matches(products[0], term) then [products[0]] else []) + Search(products[1..], term)
  }

  /** Filtering works piece by piece, so the kept products stay in their order. */
  lemma {:induction false} SearchAppend(a: seq<ProductDoc>, b: seq<ProductDoc>, term: string)
    ensures Search(a + b, term) == Search(a, term) + Search(b, term)
  {
    if a == [] {
      assert a + b == b;
    } else {
      var head := if Matches(a[0], term) then [a[0]] else [];
      assert (a + b)[0] == a[0] && (a + b)[1..] == a[1..] + b;
      assert Search(a + b, term) == head + Search(a[1..] + b, term);
      SearchAppend(a[1..], b, term);
      assert head + (Search(a[1..], term) + Search(b, term)) == (head + Search(a[1..], term)) + Search(b, term);
    }
  }

  /** An empty search term keeps every product, in order. */
  lemma {:induction false} EmptyTermKeepsAll(products: seq<ProductDoc>)
    ensures Search(products, "") == products
  {
    if products != [] {
      assert ToLower("") == "";
      assert StartsWith(ToLower(products[0].name), "");
      EmptyTermKeepsAll(products[1..]);
    }
  }

  /** The orders the model covers: the two price orders, and a key the comparator does not know. */
  datatype SortBy = PriceHigh | PriceLow | Unrecognized

  /** The comparator's value for `(a, b)`: negative puts `a` first. */
  function Compare(sortBy: SortBy, a: ProductDoc, b: ProductDoc): (r: real)
    ensures r == Key(sortBy, a) - Key(sortBy, b)
    ensures sortBy == PriceLow ==> (r < 0.0 <==> a.currentPrice < b.currentPrice)
    ensures sortBy == PriceHigh ==> (r < 0.0 <==> a.currentPrice > b.currentPrice)
  {
    match sortBy
    case PriceHigh => b.currentPrice - a.currentPrice
    case PriceLow => a.currentPrice - b.currentPrice
    case Unrecognized => 0.0
  }

  /** The number each comparator compares: the comparator is the difference of the keys. */
  function Key(sortBy: SortBy, p: ProductDoc): real {
    match sortBy
    case PriceHigh => -p.currentPrice
    case PriceLow => p.currentPrice
    case Unrecognized => 0.0
  }

  predicate SortedBy(sortBy: SortBy, s: seq<ProductDoc>) {
    forall i, j :: 0 <= i < j < |s| ==> Key(sortBy, s[i]) <= Key(sortBy, s[j])
  }

  /** Put `x` in front of the first product it does not sort after. */
  function Insert(sortBy: SortBy, x: ProductDoc, t: seq<ProductDoc>): (r: seq<ProductDoc>)
    ensures |r| == |t| + 1
    ensures multiset(r) == multiset(t) + multiset{x}
  {
    if t == [] then [x]
    else if Compare(sortBy, x, t[0]) <= 0.0 then [x] + t
    else
      assert t == [t[0]] + t[1..];
      [t[0]] + Insert(sortBy, x, t[1..])
  }

  /** Every product of `s` has a key of at least `k`. */
  predicate KeysFrom(sortBy: SortBy, k: real, s: seq<ProductDoc>) {
    forall i :: 0 <= i < |s| ==> k <= Key(sortBy, s[i])
  }

  /** A lower bound of the keys of `x` and of `t` bounds the keys of the insertion. */
  lemma InsertKeysFrom(sortBy: SortBy, k: real, x: ProductDoc, t: seq<ProductDoc>)
    requires k <= Key(sortBy, x) && KeysFrom(sortBy, k, t)
    ensures KeysFrom(sortBy, k, Insert(sortBy, x, t))
  {
    var r := Insert(sortBy, x, t);
    forall i | 0 <= i < |r| ensures k <= Key(sortBy, r[i]) {
      assert r[i] in multiset(r);
      if r[i] != x {
        assert r[i] in multiset(t);
      }
    }
  }

  /** A sorted list stays sorted under a head whose key bounds all of it. */
  lemma SortedCons(sortBy: SortBy, h: ProductDoc, rest: seq<ProductDoc>)
    requires SortedBy(sortBy, rest) && KeysFrom(sortBy, Key(sortBy, h), rest)
    ensures SortedBy(sortBy, [h] + rest)
  {
    var r := [h] + rest;
    forall i, j | 0 <= i < j < |r| ensures Key(sortBy, r[i]) <= Key(sortBy, r[j]) {
      if i == 0 { assert r[j] == rest[j - 1]; }
      else { assert r[i] == rest[i - 1] && r[j] == rest[j - 1]; }
    }
  }

  /** Insertion keeps a sorted list sorted. */
  lemma {:induction false} InsertSorted(sortBy: SortBy, x: ProductDoc, t: seq<ProductDoc>)
    requires SortedBy(sortBy, t)
    ensures SortedBy(sortBy, Insert(sortBy, x, t))
  {
    if t != [] {
      if Compare(sortBy, x, t[0]) <= 0.0 {
        assert KeysFrom(sortBy, Key(sortBy, x), t) by {
          forall i | 0 <= i < |t| ensures Key(sortBy, x) <= Key(sortBy, t[i]) {
            if i > 0 { assert Key(sortBy, t[0]) <= Key(sortBy, t[i]); }
          }
        }
        SortedCons(sortBy, x, t);
      } else {
        var tail := t[1..];
        InsertSorted(sortBy, x, tail);
        assert KeysFrom(sortBy, Key(sortBy, t[0]), tail) by {
          forall i | 0 <= i < |tail| ensures Key(sortBy, t[0]) <= Key(sortBy, tail[i]) {
            assert tail[i] == t[i + 1];
          }
        }
        InsertKeysFrom(sortBy, Key(sortBy, t[0]), x, tail);
        SortedCons(sortBy, t[0], Insert(sortBy, x, tail));
      }
    }
  }

  /** `.sort(comparator)` on the filtered copy: a stable sort, here by insertion. */
  function Sort(sortBy: SortBy, s: seq<ProductDoc>): (r: seq<ProductDoc>)
    ensures |r| == |s|
    ensures multiset(r) == multiset(s)
  {
    if s == [] then []
    else
      assert s == [s[0]] + s[1..];
      Insert(sortBy, s[0], Sort(sortBy, s[1..]))
  }

  /** The sort orders by the comparator's key. */
  lemma {:induction false} SortSorted(sortBy: SortBy, s: seq<ProductDoc>)
    ensures SortedBy(sortBy, Sort(sortBy, s))
  {
    if s != [] {
      SortSorted(sortBy, s[1..]);
      InsertSorted(sortBy, s[0], Sort(sortBy, s[1..]));
    }
  }

  /** "priceLow" lists the cheapest first and "priceHigh" the dearest first. */
  lemma PriceOrders(s: seq<ProductDoc>)
    ensures forall i, j :: 0 <= i < j < |s| ==> Sort(PriceLow, s)[i].currentPrice <= Sort(PriceLow, s)[j].currentPrice
    ensures forall i, j :: 0 <= i < j < |s| ==> Sort(PriceHigh, s)[i].currentPrice >= Sort(PriceHigh, s)[j].currentPrice
  {
    var lo, hi := Sort(PriceLow, s), Sort(PriceHigh, s);
    SortSorted(PriceLow, s);
    SortSorted(PriceHigh, s);
    forall i, j | 0 <= i < j < |s| ensures hi[i].currentPrice >= hi[j].currentPrice {
      assert Key(PriceHigh, hi[i]) <= Key(PriceHigh, hi[j]);
    }
  }

  /** A key the comparator does not know makes every comparison 0, and the stable sort keeps the order. */
  lemma {:induction false} UnrecognizedKeepsOrder(s: seq<ProductDoc>)
    ensures Sort(Unrecognized, s) == s
  {
    if s != [] {
      UnrecognizedKeepsOrder(s[1..]);
    }
  }

  /** `filteredAndSortedProducts`: the matching products, in the chosen order. */
  function Displayed(products: seq<ProductDoc>, term: string, sortBy: SortBy): (r: seq<ProductDoc>)
    ensures multiset(r) == multiset(Search(products, term))
    ensures SortedBy(sortBy, r)
    ensures forall i :: 0 <= i < |r| ==> Matches(r[i], term) && r[i] in products
  {
    var found := Search(products, term);
    var r := Sort(sortBy, found);
    SortSorted(sortBy, found);
    assert forall i :: 0 <= i < |r| ==> r[i] in found by {
      forall i | 0 <= i < |r| ensures r[i] in found {
        assert r[i] in multiset(r);
      }
    }
    r
  }

  /** `product.previousPrice > 0 && product.currentPrice < product.previousPrice`. */
  predicate Dropped(p: ProductDoc) {
    p.previousPrice > 0.0 && p.currentPrice < p.previousPrice
  }

  function DropCount(products: seq<ProductDoc>): (n: nat)
    ensures n <= |products|
  {
    if products == [] then 0 else (if Dropped(products[0]) then 1 else 0) + DropCount(products[1..])
  }

  function CurrentPrices(products: seq<ProductDoc>): (r: seq<real>)
    ensures |r| == |products|
    ensures forall i :: 0 <= i < |products| ==> r[i] == products[i].currentPrice
  {
    if products == [] then [] else [products[0].currentPrice] + CurrentPrices(products[1..])
  }

  datatype Stats = Stats(totalProducts: nat, avgPrice: real, priceDropCount: nat)

  /** `getProductStats()`: nothing for no products; otherwise the count, the mean current price and the number of price drops. */
  function ProductStats(products: seq<ProductDoc>): (r: Option<Stats>)
    ensures r.None? <==> products == []
    ensures r.Some? ==> r.value.totalProducts == |products| && r.value.priceDropCount <= r.value.totalProducts
  {
    if |products| == 0 then None
    else Some(Stats(|products|, Sum(CurrentPrices(products)) / (|products| as real), DropCount(products)))
  }

  /** A product counts as a drop exactly when its card shows the previous price with a down arrow. */
  lemma DroppedIffCardShowsDown(p: ProductDoc)
    ensures Dropped(p) <==> PreviousPriceRow(p).Some? && PreviousPriceRow(p).value.icon == DOWN
  {
  }

  /** The drop count counts the cards showing a down arrow, one by one. */
  lemma {:induction false} DropCountCountsCards(products: seq<ProductDoc>)
    ensures DropCount(products) == |Cards(products)|
  {
    if products != [] {
      DroppedIffCardShowsDown(products[0]);
      DropCountCountsCards(products[1..]);
    }
  }

  /** The products whose card shows the previous price with a down arrow. */
  function Cards(products: seq<ProductDoc>): seq<ProductDoc> {
    if products == [] then []
    else
      var p := products[0];
      (if PreviousPriceRow(p).Some? && PreviousPriceRow(p).value.icon == DOWN then [p] else [])
        + Cards(products[1..])
  }

  /** `products.filter(product => product._id !== productId)`. */
  function WithoutId(products: seq<ProductDoc>, id: nat): (r: seq<ProductDoc>)
    ensures forall i :: 0 <= i < |r| ==> r[i].id != id && r[i] in products
    ensures forall i :: 0 <= i < |products| && products[i].id != id ==> products[i] in r
  {
    if products == [] then []
    else (if products[0].id != id then [products[0]] else []) + WithoutId(products[1..], id)
  }

  /** Removal works piece by piece, so the remaining products keep their order. */
  lemma {:induction false} WithoutIdAppend(a: seq<ProductDoc>, b: seq<ProductDoc>, id: nat)
    ensures WithoutId(a + b, id) == WithoutId(a, id) + WithoutId(b, id)
  {
    if a == [] {
      assert a + b == b;
    } else {
      assert (a + b)[1..] == a[1..] + b;
      WithoutIdAppend(a[1..], b, id);
    }
  }

  /**
   * `handleDeleteProduct(productId)`: the list is replaced only when the user
   * confirms and the delete request succeeds.
   */
  function AfterDelete(products: seq<ProductDoc>, id: nat, confirmed: bool, deleted: bool): (r: seq<ProductDoc>)
    ensures !confirmed || !deleted ==> r == products
    ensures confirmed && deleted ==> forall i :: 0 <= i < |r| ==> r[i].id != id
  {
    if !confirmed then products
    else if !deleted then products
    else WithoutId(products, id)
  }

  /** Removing an id that no product carries changes nothing. */
  lemma {:induction false} WithoutAbsentId(products: seq<ProductDoc>, id: nat)
    requires forall i :: 0 <= i < |products| ==> products[i].id != id
    ensures WithoutId(products, id) == products
  {
    if products != [] {
      WithoutAbsentId(products[1..], id);
    }
  }
}
