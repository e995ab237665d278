/**
 * The price-history page: the product looked up by its id, the change
 * arrow, colour and amount next to the current price, the lowest and
 * highest price, and the table that lists the history newest first, each
 * row compared with the sample before it.
 */
module PriceHistoryPage {
  import opened Wrappers
  import opened Domain
  import opened ProductCard

  const NOT_FOUND := "Product not found"
  const FETCH_FAILED := "Failed to fetch product details"

  /** `products.find(p => p._id === productId)`: the first product with that id. */
  function Find(products: seq<ProductDoc>, id: nat): (r: Option<ProductDoc>)
    ensures r.None? <==> forall i :: 0 <= i < |products| ==> products[i].id != id
    ensures r.Some? ==> r.value.id == id && r.value in products
  {
    var xs := seq(|products|, i requires 0 <= i < |products| =>
      if products[i].id == id then Some(products[i]) else None);
    assert forall i :: 0 <= i < |products| ==> (xs[i].None? <==> products[i].id != id);
    FirstSome(xs)
  }

  /** The product found is the first one carrying the id. */
  lemma FindFirst(products: seq<ProductDoc>, id: nat, k: nat)
    requires k < |products| && products[k].id == id
    requires forall j :: 0 <= j < k ==> products[j].id != id
    ensures Find(products, id) == Some(products[k])
  {
    var xs := seq(|products|, i requires 0 <= i < |products| =>
      if products[i].id == id then Some(products[i]) else None);
    FirstSomeAt(xs, k);
  }

  /** What the page holds once loading ends: the product, or the error it shows. */
  datatype PageState = Showing(product: ProductDoc) | Failed(error: string)

  /** `fetchProduct()`, given what the products request returned. */
  function FetchProduct(response: Result<seq<ProductDoc>, Error>, id: nat): (r: PageState)
    ensures response.Err? ==> r == Failed(FETCH_FAILED)
    ensures response.Ok? && (forall i :: 0 <= i < |response.value| ==> response.value[i].id != id) ==> r == Failed(NOT_FOUND)
    ensures r.Showing? ==> r.product.id == id && response.Ok? && r.product in response.value
    ensures response.Ok? && (exists i :: 0 <= i < |response.value| && response.value[i].id == id) ==>
      r == Showing(Find(response.value, id).value)
  {
    match response
    case Err(_) => Failed(FETCH_FAILED)
    case Ok(products) =>
      match Find(products, id)
      case None => Failed(NOT_FOUND)
      case Some(p) => Showing(p)
  }

  /** `getPriceChangeIcon()` of the page: a missing product counts as one without a previous price. */
  function PageIcon(product: Option<ProductDoc>): (r: string)
    ensures r == DOWN <==> product.Some? && product.value.previousPrice != 0.0 && product.value.currentPrice < product.value.previousPrice
    ensures r == UP <==> product.Some? && product.value.previousPrice != 0.0 && product.value.currentPrice > product.value.previousPrice
    ensures r == FLAT <==> product.None? || product.value.previousPrice == 0.0 || product.value.currentPrice == product.value.previousPrice
  {
    if product.None? || product.value.previousPrice == 0.0 then FLAT
    else if product.value.currentPrice < product.value.previousPrice then DOWN
    else if product.value.currentPrice > product.value.previousPrice then UP
    else FLAT
  }

  /** `getPriceChangeColor()` of the page. */
  function PageColor(product: Option<ProductDoc>): (r: string)
    ensures r == GREEN <==> product.Some? && product.value.previousPrice != 0.0 && product.value.currentPrice < product.value.previousPrice
    ensures r == RED <==> product.Some? && product.value.previousPrice != 0.0 && product.value.currentPrice > product.value.previousPrice
    ensures r == GRAY <==> product.None? || product.value.previousPrice == 0.0 || product.value.currentPrice == product.value.previousPrice
  {
    if product.None? || product.value.previousPrice == 0.0 then GRAY
    else if product.value.currentPrice < product.value.previousPrice then GREEN
    else if product.value.currentPrice > product.value.previousPrice then RED
    else GRAY
  }

  /** The page and the card show the same arrow and colour for a product, and a missing product looks like one never repriced. */
  lemma PageAgreesWithCard(product: Option<ProductDoc>, blank: ProductDoc)
    requires blank.previousPrice == 0.0
    ensures product.Some? ==> PageIcon(product) == PriceChangeIcon(product.value) && PageColor(product) == PriceChangeColor(product.value)
    ensures product.None? ==> PageIcon(product) == PriceChangeIcon(blank) && PageColor(product) == PriceChangeColor(blank)
  {
  }

  /** `getPriceChangeAmount()`: the size of the change, 0 without a product or a previous price. */
  function ChangeAmount(product: Option<ProductDoc>): (r: real)
    ensures r >= 0.0
    ensures product.Some? && product.value.previousPrice != 0.0 ==>
      r == product.value.currentPrice - product.value.previousPrice
      || r == product.value.previousPrice - product.value.currentPrice
  {
    if product.None? || product.value.previousPrice == 0.0 then 0.0
    else
      var d := product.value.currentPrice - product.value.previousPrice;
      if d < 0.0 then -d else d
  }

  /** The amount is 0 exactly when the arrow is flat. */
  lemma AmountZeroIffFlat(product: Option<ProductDoc>)
    ensures ChangeAmount(product) == 0.0 <==> PageIcon(product) == FLAT
  {
  }

  /** `Math.min(...prices)`; `None` is the `Infinity` it gives for no prices. */
  function Lowest(ps: seq<real>): (r: Option<real>)
    ensures r.None? <==> ps == []
    ensures r.Some? ==> r.value in ps && forall i :: 0 <= i < |ps| ==> r.value <= ps[i]
  {
    if ps == [] then None
    else
      var rest := Lowest(ps[1..]);
      assert forall i :: 1 <= i < |ps| ==> ps[i] == ps[1..][i - 1];
      if rest.None? || ps[0] <= rest.value then Some(ps[0]) else rest
  }

  /** `Math.max(...prices)`; `None` is the `-Infinity` it gives for no prices. */
  function Highest(ps: seq<real>): (r: Option<real>)
    ensures r.None? <==> ps == []
    ensures r.Some? ==> r.value in ps && forall i :: 0 <= i < |ps| ==> ps[i] <= r.value
  {
    if ps == [] then None
    else
      var rest := Highest(ps[1..]);
      assert forall i :: 1 <= i < |ps| ==> ps[i] == ps[1..][i - 1];
      if rest.None? || ps[0] >= rest.value then Some(ps[0]) else rest
  }

  /** Every recorded price lies between the lowest and the highest shown. */
  lemma PricesWithinStats(h: seq<PriceEntry>, i: nat)
    requires i < |h|
    ensures Lowest(Prices(h)).Some? && Highest(Prices(h)).Some?
    ensures Lowest(Prices(h)).value <= h[i].price <= Highest(Prices(h)).value
  {
    assert Prices(h)[i] == h[i].price;
  }

  /** `priceHistory.slice().reverse()`: a reversed copy. */
  function Reverse(h: seq<PriceEntry>): (r: seq<PriceEntry>)
    ensures |r| == |h|
    ensures forall i :: 0 <= i < |h| ==> r[i] == h[|h| - 1 - i]
  {
    if h == [] then [] else Reverse(h[1..]) + [h[0]]
  }

  /** A table row's change column: "Initial Price", or the difference with the previous sample. */
  datatype Change = InitialPrice | Changed(delta: real)

  datatype Row = Row(entry: PriceEntry, change: Change)

  /** The row for position `index` of the reversed history: the sample after it in `arr` is the one before it in time. */
  function RowAt(arr: seq<PriceEntry>, index: nat): (r: Row)
    requires index < |arr|
  {
    var prevPrice := if index < |arr| - 1 then Some(arr[index + 1].price) else None;
    if prevPrice.Some? && prevPrice.value != 0.0 then Row(arr[index], Changed(arr[index].price - prevPrice.value))
    else Row(arr[index], InitialPrice)
  }

  /**
   * The table: newest sample first, each compared with the sample just
   * before it in time; the oldest sample, and one whose predecessor is
   * priced 0, show "Initial Price".
   */
  function HistoryRows(h: seq<PriceEntry>): (rows: seq<Row>)
    ensures |rows| == |h|
    ensures forall i :: 0 <= i < |h| ==> rows[i].entry == h[|h| - 1 - i]
    ensures forall i :: 0 <= i < |h| ==>
      var k := |h| - 1 - i;
      rows[i].change == if k == 0 || h[k - 1].price == 0.0 then InitialPrice else Changed(h[k].price - h[k - 1].price)
  {
    var arr := Reverse(h);
    seq(|arr|, i requires 0 <= i < |arr| => RowAt(arr, i))
  }

  /** The arrow of a changed row: up for a rise, down for a fall, flat otherwise. */
  function ChangeIcon(delta: real): (r: string)
    ensures r == UP <==> delta > 0.0
    ensures r == DOWN <==> delta < 0.0
    ensures r == FLAT <==> delta == 0.0
  {
    if delta > 0.0 then UP else if delta < 0.0 then DOWN else FLAT
  }

  /** The colour of a changed row: red for a rise, green for a fall, gray otherwise. */
  function ChangeColor(delta: real): (r: string)
    ensures r == RED <==> delta > 0.0
    ensures r == GREEN <==> delta < 0.0
    ensures r == GRAY <==> delta == 0.0
  {
    if delta > 0.0 then RED else if delta < 0.0 then GREEN else GRAY
  }

  /** A row's arrow and colour go together as on the card, and a rise since the previous sample is shown as up. */
  lemma RowArrowFollowsTime(h: seq<PriceEntry>, i: nat)
    requires i < |h|
    ensures var row := HistoryRows(h)[i];
      row.change.Changed? ==>
        var k := |h| - 1 - i;
        && (ChangeIcon(row.change.delta) == UP <==> h[k].price > h[k - 1].price)
        && (ChangeIcon(row.change.delta) == DOWN <==> h[k].price < h[k - 1].price)
        && (ChangeIcon(row.change.delta) == UP <==> ChangeColor(row.change.delta) == RED)
        && (ChangeIcon(row.change.delta) == DOWN <==> ChangeColor(row.change.delta) == GREEN)
        && (ChangeIcon(row.change.delta) == FLAT <==> ChangeColor(row.change.delta) == GRAY)
  {
  }

  /** The newest sample heads the table and the oldest closes it as "Initial Price". */
  lemma TableEnds(h: seq<PriceEntry>)
    requires |h| > 0
    ensures HistoryRows(h)[0].entry == h[|h| - 1]
    ensures HistoryRows(h)[|h| - 1] == Row(h[0], InitialPrice)
  {
  }
}
