/**
 * The product card's display rules: the trend arrow and its colour, the
 * colour of the recommendation, the truncated name and whether the
 * previous-price row is shown.
 */
module ProductCard {
  import opened Wrappers
  import opened Text
  import opened Domain
  import opened Recommendation

  const FLAT := "→"
  const DOWN := "↓"
  const UP := "↑"

  const GRAY := "text-gray-400"
  const GREEN := "text-green-400"
  const RED := "text-red-400"
  const YELLOW := "text-yellow-400"
  const BLUE := "text-blue-400"

  const DEFAULT_MAX_LENGTH: nat := 60
  const ELLIPSIS := "..."

  /** `getPriceChangeIcon()`: flat when there is no previous price, else the direction of the change. */
  function PriceChangeIcon(product: ProductDoc): (r: string)
    ensures r == DOWN <==> product.previousPrice != 0.0 && product.currentPrice < product.previousPrice
    ensures r == UP <==> product.previousPrice != 0.0 && product.currentPrice > product.previousPrice
    ensures r == FLAT <==> product.previousPrice == 0.0 || product.currentPrice == product.previousPrice
  {
    if product.previousPrice == 0.0 then FLAT
    else if product.currentPrice < product.previousPrice then DOWN
    else if product.currentPrice > product.previousPrice then UP
    else FLAT
  }

  /** `getPriceChangeColor()`: the same four tests, with colours for results. */
  function PriceChangeColor(product: ProductDoc): (r: string)
    ensures r == GREEN <==> product.previousPrice != 0.0 && product.currentPrice < product.previousPrice
    ensures r == RED <==> product.previousPrice != 0.0 && product.currentPrice > product.previousPrice
    ensures r == GRAY <==> product.previousPrice == 0.0 || product.currentPrice == product.previousPrice
  {
    if product.previousPrice == 0.0 then GRAY
    else if product.currentPrice < product.previousPrice then GREEN
    else if product.currentPrice > product.previousPrice then RED
    else GRAY
  }

  /** The colour always goes with the arrow: down is green, up is red, flat is gray. */
  lemma ColorMatchesIcon(product: ProductDoc)
    ensures PriceChangeIcon(product) == DOWN <==> PriceChangeColor(product) == GREEN
    ensures PriceChangeIcon(product) == UP <==> PriceChangeColor(product) == RED
    ensures PriceChangeIcon(product) == FLAT <==> PriceChangeColor(product) == GRAY
  {
  }

  /** `getRecommendationColor()`: green for anything mentioning "buy" in any case, else yellow for "wait", else blue. */
  function RecommendationColor(recommendation: string): (r: string)
    ensures r == GREEN || r == YELLOW || r == BLUE
    ensures r == GREEN <==> Contains(ToLower(recommendation), "buy")
    ensures r == YELLOW <==> !Contains(ToLower(recommendation), "buy") && Contains(ToLower(recommendation), "wait")
    ensures r == BLUE <==> !Contains(ToLower(recommendation), "buy") && !Contains(ToLower(recommendation), "wait")
  {
    var lower := ToLower(recommendation);
    if Contains(lower, "buy") then GREEN
    else if Contains(lower, "wait") then YELLOW
    else BLUE
  }

  /** A text that misses a character of `t` cannot contain `t`. */
  lemma MissingCharNotContained(s: string, t: string, c: char)
    requires c in t && c !in s
    ensures !Contains(s, t)
  {
    if Contains(s, t) {
      var i := ContainsWitness(s, t);
    }
  }

  /** Letters that lower-case to `w` at position `i` put `w` in the lower-cased text. */
  lemma ContainsAfterLower(s: string, w: string, i: nat)
    requires i + |w| <= |s|
    requires forall k :: 0 <= k < |w| ==> ToLowerChar(s[i + k]) == w[k]
    ensures Contains(ToLower(s), w)
  {
    var lower := ToLower(s);
    assert lower[i..i + |w|] == w;
    ContainsAt(lower, w, i);
  }

  lemma StrongBuyIsGreen()
    ensures RecommendationColor(STRONG_BUY) == GREEN
  {
    var w := "buy";
    assert STRONG_BUY[7] == 'B' && STRONG_BUY[8] == w[1] && STRONG_BUY[9] == w[2];
    assert forall k :: 0 <= k < |w| ==> ToLowerChar(STRONG_BUY[7 + k]) == w[k] by {
      assert ToLowerChar('B') == w[0];
    }
    ContainsAfterLower(STRONG_BUY, w, 7);
  }

  lemma WaitIsYellow()
    ensures RecommendationColor(WAIT) == YELLOW
  {
    var lower := ToLower(WAIT);
    assert lower == "wait";
    MissingCharNotContained(lower, "buy", 'b');
    ContainsAt(lower, "wait", 0);
  }

  lemma NeutralIsBlue()
    ensures RecommendationColor(NEUTRAL) == BLUE
  {
    var lower := ToLower(NEUTRAL);
    assert lower == "neutral";
    assert forall i :: 0 <= i < |lower| ==> lower[i] != 'b' && lower[i] != 'w';
    MissingCharNotContained(lower, "buy", 'b');
    MissingCharNotContained(lower, "wait", 'w');
  }

  /** Every recommendation the server gives gets its own colour: "Strong Buy" green, "wait" yellow, "Neutral" blue. */
  lemma ServerRecommendationColors(history: Option<seq<PriceEntry>>, currentPrice: real)
    ensures var rec := GetRecommendation(history, currentPrice);
      && (rec == STRONG_BUY ==> RecommendationColor(rec) == GREEN)
      && (rec == WAIT ==> RecommendationColor(rec) == YELLOW)
      && (rec == NEUTRAL ==> RecommendationColor(rec) == BLUE)
  {
    StrongBuyIsGreen();
    WaitIsYellow();
    NeutralIsBlue();
  }

  /** A text that mentions both words is shown as "buy": that test comes first. */
  lemma BuyWinsOverWait(recommendation: string)
    requires Contains(ToLower(recommendation), "buy")
    ensures RecommendationColor(recommendation) == GREEN
  {
  }

  lemma ToLowerIdempotent(s: string)
    ensures ToLower(ToLower(s)) == ToLower(s)
  {
    var l := ToLower(s);
    assert forall i :: 0 <= i < |s| ==> ToLower(l)[i] == ToLowerChar(ToLowerChar(s[i])) == ToLowerChar(s[i]);
  }

  /** The colour does not depend on letter case. */
  lemma RecommendationColorIgnoresCase(recommendation: string)
    ensures RecommendationColor(recommendation) == RecommendationColor(ToLower(recommendation))
  {
    ToLowerIdempotent(recommendation);
  }

  /** `truncateName(name, maxLength)`: names longer than `maxLength` are cut there and get "..."; others are kept. */
  function TruncateName(name: string, maxLength: nat): (r: string)
    ensures |name| <= maxLength ==> r == name
    ensures |name| > maxLength ==> |r| == maxLength + 3 && r[..maxLength] == name[..maxLength] && r[maxLength..] == ELLIPSIS
  {
    if |name| > maxLength then name[..maxLength] + ELLIPSIS else name
  }

  /** The shown name is never longer than `maxLength` + 3 and always starts like the name. */
  lemma TruncateBounds(name: string, maxLength: nat)
    ensures |TruncateName(name, maxLength)| <= maxLength + 3
    ensures var n := if |name| < maxLength then |name| else maxLength;
      StartsWith(TruncateName(name, maxLength), name[..n])
  {
  }

  /** Truncating a shown name again changes nothing. */
  lemma TruncateIdempotent(name: string, maxLength: nat)
    ensures TruncateName(TruncateName(name, maxLength), maxLength) == TruncateName(name, maxLength)
  {
    var r := TruncateName(name, maxLength);
    if |name| > maxLength {
      assert r[..maxLength] == name[..maxLength];
    }
  }

  /** The card's name line: the name cut at the default length. */
  function CardName(product: ProductDoc): (r: string)
    ensures |r| <= DEFAULT_MAX_LENGTH + 3
  {
    TruncateName(product.name, DEFAULT_MAX_LENGTH)
  }

  /** The previous-price row, when the card shows one: the previous price, the arrow and its colour. */
  datatype PreviousRow = PreviousRow(previousPrice: real, icon: string, color: string)

  function PreviousPriceRow(product: ProductDoc): (r: Option<PreviousRow>)
    ensures r.Some? <==> product.previousPrice > 0.0
    ensures r.Some? ==> r.value.previousPrice == product.previousPrice
  {
    if product.previousPrice > 0.0 then
      Some(PreviousRow(product.previousPrice, PriceChangeIcon(product), PriceChangeColor(product)))
    else None
  }

  /** Whenever the row is shown the arrow only compares the two prices: the "no previous price" branch never decides it. */
  lemma ShownRowComparesPrices(product: ProductDoc)
    requires PreviousPriceRow(product).Some?
    ensures var row := PreviousPriceRow(product).value;
      && (row.icon == DOWN <==> product.currentPrice < product.previousPrice)
      && (row.icon == UP <==> product.currentPrice > product.previousPrice)
      && (row.icon == FLAT <==> product.currentPrice == product.previousPrice)
  {
  }
}
