/**
 * The one-off history migration: every stored product's history entries are
 * normalised (a date taken from `date`, `Date` or `createdAt`, a numeric price), a
 * missing or zero `previousPrice` is backfilled from the second-latest
 * entry, and a product is written back, and counted, only when something
 * marked it changed.
 */
module Migration {
  import opened Wrappers
  import opened Domain
  import opened PriceText

  /**
   * A field value of a legacy document, as far as the migration can tell
   * values apart: `undefined`/`null`; a primitive, with what identifies it
   * for `===` (its type and value), its truthiness, what `Number` makes of
   * it and what `new Date` makes of it (`None` for an invalid date); or a
   * `Date` object, identified by reference, with its time.
   */
  datatype JsValue =
    | Nullish
    | Prim(literal: string, truthy: bool, number: Num, time: Option<int>)
    | DateObj(ref: nat, time: Option<int>)

  predicate Truthy(v: JsValue) {
    match v
    case Nullish => false
    case Prim(_, truthy, _, _) => truthy
    case DateObj(_, _) => true
  }

  /** `a === b` where `a` is not nullish: primitives by value, objects by reference. */
  predicate StrictEquals(a: JsValue, b: JsValue) {
    match (a, b)
    case (Prim(x, _, _, _), Prim(y, _, _, _)) => x == y
    case (DateObj(x, _), DateObj(y, _)) => x == y
    case (Nullish, Nullish) => true
    case _ => false
  }

  /** `new Date(v).getTime()`, `None` when it is NaN. */
  function TimeOf(v: JsValue): Option<int> {
    match v
    case Nullish => Some(0)
    case Prim(_, _, _, t) => t
    case DateObj(_, t) => t
  }

  /** `Number(v)`. */
  function NumberOf(v: JsValue): Num {
    match v
    case Nullish => NaN
    case Prim(_, _, n, _) => n
    case DateObj(_, t) => if t.Some? then Finite(t.value as real) else NaN
  }

  /**
   * A stored history entry as the migration reads it: `date`, which the
   * migration itself sets (it is not a path of the schema); the schema's
   * `Date`; the older `createdAt`; and the price.
   */
  datatype LegacyEntry = LegacyEntry(date: JsValue, Date: JsValue, createdAt: JsValue, price: JsValue)

  /** A stored product as the migration reads it; a missing history array is `None`. */
  datatype LegacyProduct = LegacyProduct(id: nat, previousPrice: Option<real>, priceHistory: Option<seq<LegacyEntry>>)

  /** One normalised entry, and whether normalising it marked the product changed. */
  datatype Normalized = Normalized(entry: PriceEntry, marks: bool)

  /** `entry.date || entry.Date || entry.createdAt || null`. */
  function RawDate(e: LegacyEntry): (r: JsValue)
    ensures Truthy(r) <==> Truthy(e.date) || Truthy(e.Date) || Truthy(e.createdAt)
    ensures Truthy(e.date) ==> r == e.date
    ensures !Truthy(e.date) && Truthy(e.Date) ==> r == e.Date
  {
    if Truthy(e.date) then e.date
    else if Truthy(e.Date) then e.Date
    else if Truthy(e.createdAt) then e.createdAt
    else Nullish
  }

  /** `Number(entry.price) || 0`: NaN and 0 both become 0. */
  function CoercePrice(v: JsValue): (r: real)
    ensures NumberOf(v).Finite? ==> r == NumberOf(v).value
    ensures NumberOf(v).NaN? ==> r == 0.0
  {
    match NumberOf(v)
    case NaN => 0.0
    case Finite(x) => if x == 0.0 then 0.0 else x
  }

  /**
   * The map callback: the date is the first truthy of `date`, `Date` and
   * `createdAt` if it is valid, the current time `now` otherwise; the
   * product is marked changed when no valid date was found, or when one was
   * found while `date` was absent or identical to `Date`.
   */
  function NormalizeEntry(e: LegacyEntry, now: int): (r: Normalized)
    ensures r.entry.price == CoercePrice(e.price)
    ensures TimeOf(RawDate(e)).None? || !Truthy(RawDate(e)) ==> r.entry.day == now && r.marks
    ensures Truthy(RawDate(e)) && TimeOf(RawDate(e)).Some? ==>
      r.entry.day == TimeOf(RawDate(e)).value
      && (r.marks <==> e.date.Nullish? || StrictEquals(e.date, e.Date))
  {
    var price := CoercePrice(e.price);
    var raw := RawDate(e);
    if !Truthy(raw) then Normalized(PriceEntry(price, now), true)
    else match TimeOf(raw)
      case None => Normalized(PriceEntry(price, now), true)
      case Some(t) =>
        Normalized(PriceEntry(price, t), e.date.Nullish? || StrictEquals(e.date, e.Date))
  }

  /** `(product.priceHistory || []).map(…)`: one entry per entry, in order. */
  function NormalizeHistory(h: seq<LegacyEntry>, now: int): (r: seq<PriceEntry>)
    ensures |r| == |h|
    ensures forall i :: 0 <= i < |h| ==> r[i] == NormalizeEntry(h[i], now).entry
  {
    if h == [] then [] else [NormalizeEntry(h[0], now).entry] + NormalizeHistory(h[1..], now)
  }

  /** Whether normalising the history flipped `changed`. */
  predicate HistoryMarks(h: seq<LegacyEntry>, now: int) {
    exists i :: 0 <= i < |h| && NormalizeEntry(h[i], now).marks
  }

  /** `i` comes after `j` in the stable ascending sort by date: a later date, or the same date and a later position. */
  predicate After(h: seq<PriceEntry>, i: nat, j: nat)
    requires i < |h| && j < |h|
  {
    h[i].day > h[j].day || (h[i].day == h[j].day && i > j)
  }

  /** The positions of the last and the second-last entries of the sorted copy of `h[..n]`. */
  function TopTwo(h: seq<PriceEntry>, n: nat): (r: (nat, nat))
    requires 2 <= n <= |h|
    ensures r.0 < n && r.1 < n && r.0 != r.1 && After(h, r.0, r.1)
    ensures forall j :: 0 <= j < n && j != r.0 && j != r.1 ==> After(h, r.1, j)
  {
    if n == 2 then (if After(h, 1, 0) then (1, 0) else (0, 1))
    else
      var (t, s) := TopTwo(h, n - 1);
      if After(h, n - 1, t) then
        assert forall j :: 0 <= j < n && j != n - 1 && j != t ==> After(h, t, j) by {
          forall j | 0 <= j < n && j != n - 1 && j != t ensures After(h, t, j) {
            if j != s { assert After(h, s, j); }
          }
        }
        (n - 1, t)
      else if After(h, n - 1, s) then
        var last := n - 1;
        assert forall j :: 0 <= j < n && j != t && j != last ==> After(h, last, j) by {
          forall j | 0 <= j < n && j != t && j != last ensures After(h, last, j) {
            if j != s { assert After(h, s, j); }
          }
        }
        (t, n - 1)
      else (t, s)
  }

  /** `sorted[sorted.length - 2]`: the entry exactly one other entry sorts after. */
  function SecondLatest(h: seq<PriceEntry>): (k: nat)
    requires |h| >= 2
    ensures k < |h|
    ensures exists t ::
      0 <= t < |h| && t != k && After(h, t, k) && (forall j :: 0 <= j < |h| && j != t && j != k ==> After(h, k, j))
  {
    var (t, s) := TopTwo(h, |h|);
    s
  }

  /** `!product.previousPrice || product.previousPrice === 0`: a missing or zero previous price. */
  predicate NeedsPreviousPrice(p: LegacyProduct) {
    p.previousPrice.None? || p.previousPrice == Some(0.0)
  }

  function HistoryOf(p: LegacyProduct): seq<LegacyEntry> {
    if p.priceHistory.Some? then p.priceHistory.value else []
  }

  /** What the loop body leaves in a product: whether it is changed, its previous price and its normalised history. */
  datatype Migrated = Migrated(changed: bool, previousPrice: Option<real>, priceHistory: seq<PriceEntry>)

  /** The loop body for one product, on values. */
  function MigrateProduct(p: LegacyProduct, now: int): (r: Migrated)
    ensures r.priceHistory == NormalizeHistory(HistoryOf(p), now)
    ensures var backfill := NeedsPreviousPrice(p) && |HistoryOf(p)| >= 2;
      && (r.changed <==> HistoryMarks(HistoryOf(p), now) || backfill)
      && (!backfill ==> r.previousPrice == p.previousPrice)
      && (backfill ==> r.previousPrice == Some(r.priceHistory[SecondLatest(r.priceHistory)].price))
  {
    var h := HistoryOf(p);
    var normalized := NormalizeHistory(h, now);
    var marks := HistoryMarks(h, now);
    if NeedsPreviousPrice(p) && |normalized| >= 2 then
      Migrated(true, Some(normalized[SecondLatest(normalized)].price), normalized)
    else
      Migrated(marks, p.previousPrice, normalized)
  }

  /** A write-back: the product and the fields the migration sets. */
  datatype Saved = Saved(id: nat, previousPrice: Option<real>, priceHistory: seq<PriceEntry>)

  /** The products written back, in `find` order: exactly the changed ones. */
  function Writes(products: seq<LegacyProduct>, now: int): (r: seq<Saved>)
    ensures |r| <= |products|
  {
    if products == [] then []
    else
      var m := MigrateProduct(products[0], now);
      (if m.changed then [Saved(products[0].id, m.previousPrice, m.priceHistory)] else [])
        + Writes(products[1..], now)
  }

  /** The number of products the migration marks changed. */
  function CountChanged(products: seq<LegacyProduct>, now: int): (n: nat)
    ensures n <= |products|
  {
    if products == [] then 0
    else (if MigrateProduct(products[0], now).changed then 1 else 0) + CountChanged(products[1..], now)
  }

  /** The count is 0 exactly when no product is marked changed. */
  lemma {:induction false} CountChangedZeroIff(products: seq<LegacyProduct>, now: int)
    ensures CountChanged(products, now) == 0 <==> forall i :: 0 <= i < |products| ==> !MigrateProduct(products[i], now).changed
  {
    if products != [] {
      CountChangedZeroIff(products[1..], now);
      assert forall i :: 1 <= i < |products| ==> products[i] == products[1..][i - 1];
    }
  }

  /** The loop body for one product, step by step: normalise, then backfill `previousPrice`. */
  method MigrateOne(product: LegacyProduct, now: int) returns (changed: bool, previousPrice: Option<real>, normalizedHistory: seq<PriceEntry>)
    ensures Migrated(changed, previousPrice, normalizedHistory) == MigrateProduct(product, now)
  {
    var h := if product.priceHistory.Some? then product.priceHistory.value else [];
    normalizedHistory := NormalizeHistory(h, now);
    changed := HistoryMarks(h, now);
    previousPrice := product.previousPrice;
    if NeedsPreviousPrice(product) && |normalizedHistory| >= 2 {
      previousPrice := Some(normalizedHistory[SecondLatest(normalizedHistory)].price);
      changed := true;
    }
  }

  /** `migrate()`'s loop: each product is migrated; a changed one is saved and counted. */
  method Migrate(products: seq<LegacyProduct>, now: int) returns (saved: seq<Saved>, updatedCount: nat)
    ensures saved == Writes(products, now)
    ensures updatedCount == CountChanged(products, now)
  {
    saved, updatedCount := [], 0;
    for i := 0 to |products|
      invariant saved + Writes(products[i..], now) == Writes(products, now)
      invariant updatedCount == |saved|
    {
      var product := products[i];
      var changed, previousPrice, normalizedHistory := MigrateOne(product, now);
      WritesStep(products, i, now, changed, previousPrice, normalizedHistory);
      ghost var rest := Writes(products[i + 1..], now);
      if changed {
        var write := Saved(product.id, previousPrice, normalizedHistory);
        assert saved + ([write] + rest) == (saved + [write]) + rest;
        saved := saved + [write];
        updatedCount := updatedCount + 1;
      } else {
        assert [] + rest == rest;
      }
    }
    assert products[|products|..] == [];
    assert saved == Writes(products, now);
    CountMatchesWrites(products, now);
  }

  /** Peeling the product at `i`, migrated to (`changed`, `previousPrice`, `history`), off the rest of the run. */
  lemma WritesStep(products: seq<LegacyProduct>, i: nat, now: int, changed: bool, previousPrice: Option<real>, history: seq<PriceEntry>)
    requires i < |products|
    requires MigrateProduct(products[i], now) == Migrated(changed, previousPrice, history)
    ensures Writes(products[i..], now) == (if changed then [Saved(products[i].id, previousPrice, history)] else []) + Writes(products[i + 1..], now)
  {
    assert products[i..][1..] == products[i + 1..];
  }

  /** Every changed product is written once and nothing else is: the count and the writes agree. */
  lemma {:induction false} CountMatchesWrites(products: seq<LegacyProduct>, now: int)
    ensures |Writes(products, now)| == CountChanged(products, now)
  {
    if products != [] {
      CountMatchesWrites(products[1..], now);
    }
  }

  /** Whether a product is changed never depends on the prices in its history: coercing a price marks nothing. */
  lemma ChangedIgnoresPrices(p: LegacyProduct, q: LegacyProduct, now: int)
    requires p.previousPrice == q.previousPrice
    requires |HistoryOf(p)| == |HistoryOf(q)|
    requires forall i :: 0 <= i < |HistoryOf(p)| ==> HistoryOf(p)[i].(price := Nullish) == HistoryOf(q)[i].(price := Nullish)
    ensures MigrateProduct(p, now).changed == MigrateProduct(q, now).changed
  {
    var hp, hq := HistoryOf(p), HistoryOf(q);
    forall i | 0 <= i < |hp|
      ensures NormalizeEntry(hp[i], now).marks == NormalizeEntry(hq[i], now).marks
    {
      assert hp[i].date == hq[i].date && hp[i].Date == hq[i].Date && hp[i].createdAt == hq[i].createdAt by {
        assert hp[i].(price := Nullish) == hq[i].(price := Nullish);
      }
    }
    if HistoryMarks(hp, now) {
      var i :| 0 <= i < |hp| && NormalizeEntry(hp[i], now).marks;
      assert NormalizeEntry(hq[i], now).marks;
    }
    if HistoryMarks(hq, now) {
      var i :| 0 <= i < |hq| && NormalizeEntry(hq[i], now).marks;
      assert NormalizeEntry(hp[i], now).marks;
    }
  }

  /** An entry whose `date`, set by an earlier run, is a valid date object other than `Date` keeps that date and marks nothing. */
  lemma ValidDateKept(e: LegacyEntry, now: int, ref: nat, t: int)
    requires e.date == DateObj(ref, Some(t)) && !StrictEquals(e.date, e.Date)
    ensures NormalizeEntry(e, now) == Normalized(PriceEntry(CoercePrice(e.price), t), false)
  {
  }

  /** A valid date found in `Date` or `createdAt` while `date` is absent is taken, and it marks the product changed. */
  lemma LegacyDateMarks(e: LegacyEntry, now: int)
    requires e.date.Nullish? && Truthy(RawDate(e)) && TimeOf(RawDate(e)).Some?
    ensures NormalizeEntry(e, now).entry.day == TimeOf(RawDate(e)).value
    ensures NormalizeEntry(e, now).marks
  {
  }

  /**
   * Every entry the application writes carries only the schema's `Date`, so
   * a product with any entry lacking `date` is marked changed and written back.
   */
  lemma EntryWithoutDateRewrites(p: LegacyProduct, now: int, i: nat)
    requires i < |HistoryOf(p)| && HistoryOf(p)[i].date.Nullish?
    ensures MigrateProduct(p, now).changed
  {
    assert NormalizeEntry(HistoryOf(p)[i], now).marks;
  }

  /**
   * A `date` that is present but falsy (an empty string, say) is replaced by
   * a valid `Date` without marking the product changed: the new date
   * is saved only if something else changes.
   */
  lemma FalsyDateReplacedSilently(now: int)
    ensures var e := LegacyEntry(Prim("\"\"", false, Finite(0.0), None), DateObj(1, Some(5)), Nullish, Nullish);
      NormalizeEntry(e, now) == Normalized(PriceEntry(0.0, 5), false)
  {
  }

  /** The history is neither reordered nor resized: entry `i` comes from entry `i`. */
  lemma HistoryShapeKept(p: LegacyProduct, now: int)
    ensures |MigrateProduct(p, now).priceHistory| == |HistoryOf(p)|
    ensures forall i :: 0 <= i < |HistoryOf(p)| ==>
      MigrateProduct(p, now).priceHistory[i].price == CoercePrice(HistoryOf(p)[i].price)
  {
  }
}
