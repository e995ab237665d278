/**
 * The buy/wait heuristic of `getRecommendation`: the current price is compared
 * with the mean of the positive history prices and with the last positive one.
 * The comparison with the mean is written without a division (`cur * n < sum`);
 * the lemmas restate the outcome against the mean itself.
 */
module Recommendation {
  import opened Wrappers
  import opened Domain

  const STRONG_BUY: string := "Strong Buy"
  const BUY: string := "Buy"
  const WAIT: string := "wait"
  const NEUTRAL: string := "Neutral"

  /** `prices.filter(p => p > 0)`. */
  function Positive(ps: seq<real>): (r: seq<real>)
    ensures |r| <= |ps|
    ensures forall i :: 0 <= i < |r| ==> r[i] > 0.0
    ensures (forall i :: 0 <= i < |ps| ==> ps[i] <= 0.0) <==> r == []
  {
    if ps == [] then []
    else if ps[0] > 0.0 then [ps[0]] + Positive(ps[1..])
    else Positive(ps[1..])
  }

  /** `prices.reduce((a, b) => a + b, 0)`. */
  function Sum(ps: seq<real>): real {
    if ps == [] then 0.0 else ps[0] + Sum(ps[1..])
  }

  /** The arithmetic mean, as the source computes `avgPrice`. */
  function Mean(ps: seq<real>): real
    requires |ps| > 0
  {
    Sum(ps) / (|ps| as real)
  }

  function Last(ps: seq<real>): real
    requires |ps| > 0
  {
    ps[|ps| - 1]
  }

  /** `getRecommendation(priceHistory, currentPrice)`; `None` is a null history. */
  function GetRecommendation(history: Option<seq<PriceEntry>>, currentPrice: real): (r: string)
    ensures r == STRONG_BUY || r == WAIT || r == NEUTRAL
    ensures r != BUY
  {
    if history.None? || |history.value| == 0 then NEUTRAL
    else FromPositive(Positive(Prices(history.value)), currentPrice)
  }

  /** The source's lines 5-14, once the positive prices `prices` have been extracted. */
  function FromPositive(prices: seq<real>, currentPrice: real): (r: string)
    ensures r != BUY
  {
    if |prices| == 0 then NEUTRAL
    else Verdict(currentPrice * (|prices| as real) < Sum(prices),
                 currentPrice * (|prices| as real) > Sum(prices),
                 prices[|prices| - 1] > currentPrice)
  }

  /**
   * The chain of tests that ends the source function, given whether the current
   * price is below the mean, above the mean, and below the last positive price.
   */
  function Verdict(belowMean: bool, aboveMean: bool, recentDrop: bool): (r: string)
    ensures r != BUY
  {
    if belowMean || recentDrop then STRONG_BUY
    else if belowMean then BUY
    else if aboveMean then WAIT
    else NEUTRAL
  }

  /** Comparing `c * n` with the sum of `n` prices is comparing `c` with their mean. */
  lemma CompareWithMean(ps: seq<real>, c: real)
    requires |ps| > 0
    ensures c * (|ps| as real) < Sum(ps) <==> c < Mean(ps)
    ensures c * (|ps| as real) > Sum(ps) <==> c > Mean(ps)
  {
    var n := |ps| as real;
    assert Sum(ps) == Mean(ps) * n;
    if c < Mean(ps) {
      assert c * n < Mean(ps) * n;
    }
    if c > Mean(ps) {
      assert c * n > Mean(ps) * n;
    }
  }

  /** For a non-empty list of positive prices, the verdict is taken against their mean and their last element. */
  lemma FromPositiveByMean(ps: seq<real>, c: real)
    requires |ps| > 0
    ensures FromPositive(ps, c) == Verdict(c < Mean(ps), c > Mean(ps), Last(ps) > c)
  {
    CompareWithMean(ps, c);
  }

  /** With positive prices `ps` in the history, the answer is the verdict against their mean and last element. */
  lemma VerdictOfHistory(h: seq<PriceEntry>, c: real)
    requires Positive(Prices(h)) != []
    ensures var ps := Positive(Prices(h));
      GetRecommendation(Some(h), c) == Verdict(c < Mean(ps), c > Mean(ps), Last(ps) > c)
  {
    var ps := Positive(Prices(h));
    assert |Prices(h)| > 0;
    assert GetRecommendation(Some(h), c) == FromPositive(ps, c);
    FromPositiveByMean(ps, c);
  }

  /** With no history, or no positive price in it, the answer is "Neutral" whatever the current price. */
  lemma NeutralWithoutPositivePrice(history: Option<seq<PriceEntry>>, c: real)
    requires history.Some? ==> forall i :: 0 <= i < |history.value| ==> history.value[i].price <= 0.0
    ensures GetRecommendation(history, c) == NEUTRAL
  {
    if history.Some? {
      var ps := Prices(history.value);
      assert forall i :: 0 <= i < |ps| ==> ps[i] <= 0.0;
    }
  }

  /**
   * The three reachable answers against the mean and the last positive price:
   * "Strong Buy" exactly when the current price is below the mean or below the
   * last positive price, "wait" exactly when it is neither and above the mean,
   * "Neutral" in the remaining case (equal to the mean, not below the last price).
   */
  lemma Classification(h: seq<PriceEntry>, c: real)
    requires Positive(Prices(h)) != []
    ensures var ps := Positive(Prices(h));
      && (GetRecommendation(Some(h), c) == STRONG_BUY <==> c < Mean(ps) || Last(ps) > c)
      && (GetRecommendation(Some(h), c) == WAIT <==> !(c < Mean(ps) || Last(ps) > c) && c > Mean(ps))
      && (GetRecommendation(Some(h), c) == NEUTRAL <==> c == Mean(ps) && Last(ps) <= c)
  {
    VerdictOfHistory(h, c);
  }

  /** The "Buy" guard (below the mean) already makes the first test succeed, so "Buy" is dead code. */
  lemma BuyGuardCoveredByStrongBuy(h: seq<PriceEntry>, c: real)
    requires Positive(Prices(h)) != []
    requires c < Mean(Positive(Prices(h)))
    ensures GetRecommendation(Some(h), c) == STRONG_BUY
  {
    VerdictOfHistory(h, c);
  }

  lemma {:induction false} PricesAppend(a: seq<PriceEntry>, b: seq<PriceEntry>)
    ensures Prices(a + b) == Prices(a) + Prices(b)
  {
  }

  lemma {:induction false} PositiveAppend(a: seq<real>, b: seq<real>)
    ensures Positive(a + b) == Positive(a) + Positive(b)
  {
    if a == [] {
      assert a + b == b;
    } else {
      assert (a + b)[0] == a[0];
      assert (a + b)[1..] == a[1..] + b;
      PositiveAppend(a[1..], b);
    }
  }

  /** Inserting a sample priced at or below 0 anywhere in the history never changes the answer. */
  lemma IgnoresNonPositiveSample(h: seq<PriceEntry>, i: nat, e: PriceEntry, c: real)
    requires i <= |h|
    requires e.price <= 0.0
    ensures GetRecommendation(Some(h[..i] + [e] + h[i..]), c) == GetRecommendation(Some(h), c)
  {
    PositiveOfInsert(h, i, e);
    ThroughPositive(h, c);
    ThroughPositive(h[..i] + [e] + h[i..], c);
  }

  lemma PositiveOfInsert(h: seq<PriceEntry>, i: nat, e: PriceEntry)
    requires i <= |h|
    requires e.price <= 0.0
    ensures Positive(Prices(h[..i] + [e] + h[i..])) == Positive(Prices(h))
  {
    var a, b := Prices(h[..i]), Prices(h[i..]);
    assert Prices([e]) == [e.price];
    assert Positive([e.price]) == [];
    PricesAppend(h[..i] + [e], h[i..]);
    PricesAppend(h[..i], [e]);
    assert h[..i] + h[i..] == h;
    PricesAppend(h[..i], h[i..]);
    calc {
      Positive(Prices(h[..i] + [e] + h[i..]));
      Positive((a + [e.price]) + b);
      { PositiveAppend(a + [e.price], b); }
      Positive(a + [e.price]) + Positive(b);
      { PositiveAppend(a, [e.price]); assert Positive(a) + [] == Positive(a); }
      Positive(a) + Positive(b);
      { PositiveAppend(a, b); }
      Positive(Prices(h));
    }
  }

  /** The answer depends on the history only through its positive prices. */
  lemma ThroughPositive(h: seq<PriceEntry>, c: real)
    ensures GetRecommendation(Some(h), c) == FromPositive(Positive(Prices(h)), c)
  {
    if h == [] {
      assert Prices(h) == [];
    }
  }

  /** A history of one sample evaluated at that sample's price is "Neutral" (a newly tracked product). */
  lemma SingleSampleIsNeutral(p: real, day: int)
    ensures GetRecommendation(Some([PriceEntry(p, day)]), p) == NEUTRAL
  {
    var ps := Prices([PriceEntry(p, day)]);
    assert ps == [p];
    if p > 0.0 {
      assert Positive(ps) == [p];
      assert Sum([p]) == p;
    }
  }

  /** Only the prices of the samples matter, not their days. */
  lemma {:induction false} DependsOnPricesOnly(h: seq<PriceEntry>, g: seq<PriceEntry>, c: real)
    requires Prices(h) == Prices(g)
    ensures GetRecommendation(Some(h), c) == GetRecommendation(Some(g), c)
  {
    assert |h| == |Prices(h)| == |g|;
  }
}
