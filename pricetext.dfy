/**
 * Reading a price out of scraped text, as both Amazon scrapers do: delete a
 * class of characters, pick a run of digits and dots with a regular
 * expression, and hand it to `parseFloat`.
 */
module PriceText {
  import opened Wrappers
  import opened Text

  /** A JavaScript number as `parseFloat` returns it here: a finite value or NaN. */
  datatype Num = Finite(value: real) | NaN

  /** `s.replace(/[…]/g, "")`: `s` without the characters `drop` holds for, the others kept in order. */
  function Strip(s: string, drop: char -> bool): (r: string)
    ensures |r| <= |s|
    ensures forall k :: 0 <= k < |r| ==> !drop(r[k])
    ensures forall k :: 0 <= k < |s| && !drop(s[k]) ==> s[k] in r
    ensures (forall k :: 0 <= k < |s| ==> !drop(s[k])) ==> r == s
  {
    if s == [] then []
    else (if drop(s[0]) then [] else [s[0]]) + Strip(s[1..], drop)
  }

  /** Deleting characters works piece by piece: the result for a concatenation is the concatenation of the results. */
  lemma {:induction false} StripAppend(a: string, b: string, drop: char -> bool)
    ensures Strip(a + b, drop) == Strip(a, drop) + Strip(b, drop)
  {
    if a == [] {
      assert a + b == b;
    } else {
      assert (a + b)[1..] == a[1..] + b;
      StripAppend(a[1..], b, drop);
    }
  }

  /** Deleting twice deletes nothing more. */
  lemma StripIdempotent(s: string, drop: char -> bool)
    ensures Strip(Strip(s, drop), drop) == Strip(s, drop)
  {
  }

  /** The class `[â‚¹,\s]` of the HTTP scraper: the three characters of a mis-decoded rupee sign, commas and whitespace. */
  predicate HttpDropped(c: char) {
    c == '\U{E2}' || c == '\U{201A}' || c == '\U{B9}' || c == ',' || IsSpace(c)
  }

  /** The class `[₹,\s]` of the browser scraper: the rupee sign, commas and whitespace. */
  predicate BrowserDropped(c: char) {
    c == '\U{20B9}' || c == ',' || IsSpace(c)
  }

  predicate IsRunChar(c: char) { IsDigit(c) || c == '.' }

  /** A string of digits and dots only: what the scrapers' regular expressions can match. */
  predicate IsRun(s: string) {
    forall k :: 0 <= k < |s| ==> IsRunChar(s[k])
  }

  /** The end of the longest stretch from `i` on whose characters all satisfy `p`. */
  function StretchEnd(s: string, i: nat, p: char -> bool): (j: nat)
    requires i <= |s|
    ensures i <= j <= |s|
    ensures forall k :: i <= k < j ==> p(s[k])
    ensures j < |s| ==> !p(s[j])
    decreases |s| - i
  {
    if i < |s| && p(s[i]) then StretchEnd(s, i + 1, p) else i
  }

  /** The first index at or after `i` whose character satisfies `p`, or `|s|`. */
  function FirstWhere(s: string, i: nat, p: char -> bool): (j: nat)
    requires i <= |s|
    ensures i <= j <= |s|
    ensures forall k :: i <= k < j ==> !p(s[k])
    ensures j < |s| ==> p(s[j])
    decreases |s| - i
  {
    if i < |s| && !p(s[i]) then FirstWhere(s, i + 1, p) else i
  }

  /** No digit and no dot anywhere in `s`. */
  predicate NoRunChar(s: string) {
    forall k :: 0 <= k < |s| ==> !IsRunChar(s[k])
  }

  /** `t` occurs in `s` at position `i`. */
  predicate OccursAt(s: string, i: int, t: string) {
    0 <= i && i + |t| <= |s| && s[i..i + |t|] == t
  }

  /** `t` at `i` is the match of `/[\d.]+/`: nothing matchable before it, and it cannot be extended. */
  predicate LeftmostRun(s: string, i: int, t: string) {
    OccursAt(s, i, t) && NoRunChar(s[..i]) && (i + |t| == |s| || !IsRunChar(s[i + |t|]))
  }

  /** `t` is the match of `/[\d.]+/` at some position of `s`. */
  ghost predicate IsLeftmostRun(s: string, t: string) {
    exists i :: LeftmostRun(s, i, t)
  }

  /** `s.match(/[\d.]+/)`: the leftmost, longest run of digits and dots, if there is one. */
  function FirstRun(s: string): (r: Option<string>)
    ensures r.None? <==> NoRunChar(s)
    ensures r.Some? ==> |r.value| > 0 && IsRun(r.value)
    ensures r.Some? ==> IsLeftmostRun(s, r.value)
  {
    var i := FirstWhere(s, 0, IsRunChar);
    if i == |s| then None
    else
      var e := StretchEnd(s, i, IsRunChar);
      assert LeftmostRun(s, i, s[i..e]) by {
        assert s[..i] == s[..i];
        assert forall k :: 0 <= k < i ==> s[..i][k] == s[k];
      }
      Some(s[i..e])
  }

  /** The characters of an occurrence are those of the text it occurs in. */
  lemma OccursChar(s: string, i: int, t: string, k: int)
    requires OccursAt(s, i, t) && 0 <= k < |t|
    ensures s[i + k] == t[k]
  {
    assert s[i..i + |t|][k] == s[i + k];
  }

  lemma NoRunCharBefore(s: string, j: int, k: int)
    requires 0 <= k < j <= |s| && NoRunChar(s[..j])
    ensures !IsRunChar(s[k])
  {
    assert s[..j][k] == s[k];
  }

  /** At most one non-empty run is leftmost and unextendable, so FirstRun's contract fixes its result. */
  lemma LeftmostRunUnique(s: string, i: int, t: string, j: int, u: string)
    requires LeftmostRun(s, i, t) && LeftmostRun(s, j, u)
    requires |t| > 0 && IsRun(t) && |u| > 0 && IsRun(u)
    ensures i == j && t == u
  {
    if i < j {
      OccursChar(s, i, t, 0);
      NoRunCharBefore(s, j, i);
      assert false;
    } else if j < i {
      OccursChar(s, j, u, 0);
      NoRunCharBefore(s, i, j);
      assert false;
    } else if |t| < |u| {
      OccursChar(s, i, u, |t|);
      assert false;
    } else if |u| < |t| {
      OccursChar(s, i, t, |u|);
      assert false;
    }
  }

  /** No two dots: the pattern `\.?` admits one at most. */
  predicate OneDot(t: string) {
    forall j, k :: 0 <= j < k < |t| && t[j] == '.' ==> t[k] != '.'
  }

  /**
   * `t` at `i` is the match of `[0-9]+\.?[0-9]*`: no digit before it, at
   * most one dot in it, and it cannot be extended (by a digit, or by a dot
   * when it has none yet).
   */
  predicate LeftmostNumber(s: string, i: int, t: string) {
    && OccursAt(s, i, t) && (forall k :: 0 <= k < i ==> !IsDigit(s[k])) && OneDot(t)
    && (i + |t| == |s| || (!IsDigit(s[i + |t|]) && (s[i + |t|] == '.' ==> '.' in t)))
  }

  /** `t` is the match of `[0-9]+\.?[0-9]*` at some position of `s`. */
  ghost predicate IsLeftmostNumber(s: string, t: string) {
    exists i :: LeftmostNumber(s, i, t)
  }

  /** The browser scraper's match of `[0-9]+\.?[0-9]*`: from the first digit, its digits, then at most one dot and the digits after it. */
  function FirstNumber(s: string): (r: Option<string>)
    ensures r.None? <==> forall k :: 0 <= k < |s| ==> !IsDigit(s[k])
    ensures r.Some? ==> |r.value| > 0 && IsDigit(r.value[0])
    ensures r.Some? ==> IsRun(r.value)
    ensures r.Some? ==> IsLeftmostNumber(s, r.value)
  {
    var i := FirstWhere(s, 0, IsDigit);
    if i == |s| then None
    else
      var a := StretchEnd(s, i, IsDigit);
      if a < |s| && s[a] == '.' then
        var e := StretchEnd(s, a + 1, IsDigit);
        NumberWithDot(s, i, a, e);
        Some(s[i..e])
      else
        assert LeftmostNumber(s, i, s[i..a]);
        Some(s[i..a])
  }

  /** At most one number starting with a digit is leftmost and unextendable, so FirstNumber's contract fixes its result. */
  lemma LeftmostNumberUnique(s: string, i: int, t: string, j: int, u: string)
    requires LeftmostNumber(s, i, t) && LeftmostNumber(s, j, u)
    requires |t| > 0 && IsDigit(t[0]) && IsRun(t) && |u| > 0 && IsDigit(u[0]) && IsRun(u)
    ensures i == j && t == u
  {
    if i < j {
      OccursChar(s, i, t, 0);
      assert false;
    } else if j < i {
      OccursChar(s, j, u, 0);
      assert false;
    } else if |t| < |u| {
      var d := SecondDotPast(s, i, t, u);
      assert false;
    } else if |u| < |t| {
      var d := SecondDotPast(s, i, u, t);
      assert false;
    }
  }

  /** A run going on past an unextendable number `t` carries the dot of `t` and a second one. */
  lemma SecondDotPast(s: string, i: int, t: string, u: string) returns (d: int)
    requires LeftmostNumber(s, i, t) && OccursAt(s, i, u) && IsRun(u) && |t| < |u|
    ensures 0 <= d < |t| && u[d] == '.' && u[|t|] == '.'
  {
    OccursChar(s, i, u, |t|);
    d :| 0 <= d < |t| && t[d] == '.';
    OccursChar(s, i, t, d);
    OccursChar(s, i, u, d);
  }

  /** Digits from `i` to `a`, a dot, then digits up to `e`: the number with its dot. */
  lemma NumberWithDot(s: string, i: nat, a: nat, e: nat)
    requires i < a < |s| && s[a] == '.'
    requires forall k :: 0 <= k < i ==> !IsDigit(s[k])
    requires forall k :: i <= k < a ==> IsDigit(s[k])
    requires a + 1 <= e <= |s| && (forall k :: a + 1 <= k < e ==> IsDigit(s[k])) && (e < |s| ==> !IsDigit(s[e]))
    ensures IsRun(s[i..e]) && LeftmostNumber(s, i, s[i..e])
  {
    var t := s[i..e];
    assert forall k :: 0 <= k < |t| ==> t[k] == s[i + k];
    assert t[a - i] == '.';
    assert forall k :: 0 <= k < |t| && k != a - i ==> IsDigit(t[k]);
  }

  predicate AllDigits(s: string) {
    forall k :: 0 <= k < |s| ==> IsDigit(s[k])
  }

  function DigitValue(c: char): nat
    requires IsDigit(c)
  {
    (c as int - '0' as int) as nat
  }

  /** The natural number a string of decimal digits denotes. */
  function NatOf(ds: string): nat
    requires AllDigits(ds)
  {
    if ds == [] then 0 else 10 * NatOf(ds[..|ds| - 1]) + DigitValue(ds[|ds| - 1])
  }

  function Pow10(n: nat): (r: nat)
    ensures r > 0
  {
    if n == 0 then 1 else 10 * Pow10(n - 1)
  }

  /** The value of the decimal literal `whole.fraction`. */
  function DecimalValue(whole: string, fraction: string): (r: real)
    requires AllDigits(whole) && AllDigits(fraction)
    ensures r >= 0.0
  {
    NatOf(whole) as real + NatOf(fraction) as real / Pow10(|fraction|) as real
  }

  /**
   * `parseFloat` on a string of digits and dots: the value of its longest
   * prefix that is a decimal literal (digits, then optionally a dot and more
   * digits, with a digit somewhere), NaN when no such prefix exists.
   */
  function ParseFloat(s: string): (r: Num)
    requires IsRun(s)
    ensures r.Finite? ==> r.value >= 0.0
  {
    var a := StretchEnd(s, 0, IsDigit);
    if a < |s| then
      var b := StretchEnd(s, a + 1, IsDigit);
      if a == 0 && b == 1 then NaN else Finite(DecimalValue(s[..a], s[a + 1..b]))
    else if a == 0 then NaN
    else Finite(DecimalValue(s, ""))
  }

  /** `parseFloat` gives NaN exactly on the empty string and on a dot not followed by a digit. */
  lemma ParseFloatNaN(s: string)
    requires IsRun(s)
    ensures ParseFloat(s).NaN? <==> s == [] || (s[0] == '.' && (|s| == 1 || !IsDigit(s[1])))
  {
  }

  /** What follows a second dot is never read: the number ends there. */
  lemma SecondDotEndsNumber(whole: string, fraction: string, rest: string)
    requires AllDigits(whole) && AllDigits(fraction)
    requires IsRun(rest)
    requires |whole| + |fraction| > 0
    ensures var s := whole + "." + fraction;
      ParseFloat(s + "." + rest) == ParseFloat(s) == Finite(DecimalValue(whole, fraction))
  {
    var s := whole + "." + fraction;
    var t := s + "." + rest;
    assert s[|whole|] == '.' && t[|whole|] == '.';
    assert StretchEnd(s, 0, IsDigit) == |whole| by {
      assert forall k :: 0 <= k < |whole| ==> s[k] == whole[k];
    }
    assert StretchEnd(t, 0, IsDigit) == |whole| by {
      assert forall k :: 0 <= k < |whole| ==> t[k] == whole[k];
    }
    assert StretchEnd(s, |whole| + 1, IsDigit) == |s| by {
      assert forall k :: |whole| + 1 <= k < |s| ==> s[k] == fraction[k - |whole| - 1];
    }
    assert StretchEnd(t, |whole| + 1, IsDigit) == |s| by {
      assert forall k :: |whole| + 1 <= k < |s| ==> t[k] == fraction[k - |whole| - 1];
      assert t[|s|] == '.';
    }
    assert s[..|whole|] == t[..|whole|] == whole;
    assert s[|whole| + 1..|s|] == t[|whole| + 1..|s|] == fraction;
  }

  /** A string that starts with a digit always parses to a number. */
  lemma DigitLeadIsFinite(s: string)
    requires IsRun(s)
    requires |s| > 0 && IsDigit(s[0])
    ensures ParseFloat(s).Finite?
  {
  }

  /** The decimal digits of `n`, without leading zeros: what `String(n)` writes. */
  function ShowNat(n: nat): (r: string)
    ensures |r| > 0 && AllDigits(r)
  {
    if n < 10 then ['0' + n as char] else ShowNat(n / 10) + ['0' + (n % 10) as char]
  }

  lemma {:induction false} NatOfShowNat(n: nat)
    ensures NatOf(ShowNat(n)) == n
  {
    var r := ShowNat(n);
    if n >= 10 {
      assert r[..|r| - 1] == ShowNat(n / 10);
      NatOfShowNat(n / 10);
    } else {
      assert r[..|r| - 1] == [];
    }
  }

  /** A whole number written out in digits parses back to itself. */
  lemma ParseShownNat(n: nat)
    ensures ParseFloat(ShowNat(n)) == Finite(n as real)
  {
    var s := ShowNat(n);
    assert StretchEnd(s, 0, IsDigit) == |s|;
    NatOfShowNat(n);
    assert NatOf("") == 0;
  }

  /** The browser's pattern reads at most one dot: a second one ends the match. */
  lemma FirstNumberOneDot(s: string)
    ensures var r := FirstNumber(s);
      r.Some? ==> forall i, j :: 0 <= i < j < |r.value| && r.value[i] == '.' ==> r.value[j] != '.'
  {
    var r := FirstNumber(s);
    if r.Some? {
      var i :| LeftmostNumber(s, i, r.value);
    }
  }

  /** A price written as plain digits is read whole by both patterns. */
  lemma DigitsReadWhole(s: string)
    requires |s| > 0 && AllDigits(s)
    ensures FirstRun(s) == Some(s) && FirstNumber(s) == Some(s)
  {
    assert FirstWhere(s, 0, IsRunChar) == 0;
    assert FirstWhere(s, 0, IsDigit) == 0;
    assert StretchEnd(s, 0, IsRunChar) == |s|;
    assert StretchEnd(s, 0, IsDigit) == |s|;
    assert s[0..|s|] == s;
  }
}
