/**
 * `cleanAmazonUrl` and `cleanFlipkartUrl`: the dedup key of a product URL.
 * Both search the URL for the leftmost match of
 *   prefix  [^/]+  marker  id+
 * (`https://www.amazon.in/` ... `/dp/` [A-Z0-9]+ for Amazon,
 *  `https://www.flipkart.com/` ... `/p/` [A-Za-z0-9]+ for Flipkart)
 * and return the matched text; without a match they return the text before
 * the first `?` with one trailing `/` removed.
 *
 * The regular expression is modelled by positions: the slug `[^/]+` can only
 * end at the first `/` after the prefix (the marker starts with `/`), and the
 * trailing id class is greedy, so a match is determined by where it starts.
 */
module Canonical {
  import opened Wrappers
  import opened Text

  /** One of the two URL shapes: host prefix, the path marker before the id, and the id alphabet. */
  datatype Pattern = Pattern(prefix: string, marker: string, upperOnly: bool)

  const AMAZON: Pattern := Pattern("https://www.amazon.in/", "/dp/", true)
  const FLIPKART: Pattern := Pattern("https://www.flipkart.com/", "/p/", false)

  /** Both patterns have a marker that starts with `/` and no `?` in their fixed parts. */
  predicate WellFormed(p: Pattern) {
    p.marker != [] && p.marker[0] == '/' && '?' !in p.prefix && '?' !in p.marker
  }

  lemma PatternsWellFormed()
    ensures WellFormed(AMAZON) && WellFormed(FLIPKART)
  {
    assert forall k :: 0 <= k < |AMAZON.prefix| ==> AMAZON.prefix[k] != '?';
    assert forall k :: 0 <= k < |FLIPKART.prefix| ==> FLIPKART.prefix[k] != '?';
  }

  /** `[A-Z0-9]` for Amazon, `[A-Za-z0-9]` for Flipkart. */
  predicate IdChar(p: Pattern, c: char) {
    IsUpper(c) || IsDigit(c) || (!p.upperOnly && IsLower(c))
  }

  /** The end of the run of non-`/` characters starting at `j`. */
  function SegmentEnd(s: string, j: nat): (k: nat)
    requires j <= |s|
    ensures j <= k <= |s|
    ensures forall x :: j <= x < k ==> s[x] != '/'
    ensures k < |s| ==> s[k] == '/'
    decreases |s| - j
  {
    if j == |s| || s[j] == '/' then j else SegmentEnd(s, j + 1)
  }

  /** The end of the run of id characters starting at `k`: where the greedy id class stops. */
  function IdEnd(p: Pattern, s: string, k: nat): (m: nat)
    requires k <= |s|
    ensures k <= m <= |s|
    ensures forall x :: k <= x < m ==> IdChar(p, s[x])
    ensures m < |s| ==> !IdChar(p, s[m])
    decreases |s| - k
  {
    if k == |s| || !IdChar(p, s[k]) then k else IdEnd(p, s, k + 1)
  }

  /** `w` occurs in `s` at position `i`. */
  predicate At(s: string, i: nat, w: string) {
    i + |w| <= |s| && s[i..i + |w|] == w
  }

  /**
   * The regular language itself, located in `s`: `s[i..m]` is the prefix, a
   * non-empty slug without `/` ending at `e`, the marker, and a non-empty run
   * of id characters.
   */
  predicate Shaped(p: Pattern, s: string, i: nat, e: nat, m: nat) {
    && At(s, i, p.prefix)
    && i + |p.prefix| < e
    && e + |p.marker| < m <= |s|
    && (forall x :: i + |p.prefix| <= x < e ==> s[x] != '/')
    && At(s, e, p.marker)
    && (forall x :: e + |p.marker| <= x < m ==> IdChar(p, s[x]))
  }

  /** The end of the match that starts at position `i`, if one does. */
  function MatchAt(p: Pattern, s: string, i: nat): (r: Option<nat>)
    requires i <= |s|
    ensures r.Some? ==> i + |p.prefix| <= |s| && Shaped(p, s, i, SegmentEnd(s, i + |p.prefix|), r.value)
    ensures r.Some? ==> r.value == |s| || !IdChar(p, s[r.value])
  {
    if !At(s, i, p.prefix) then None
    else
      var e := SegmentEnd(s, i + |p.prefix|);
      if e == i + |p.prefix| || !At(s, e, p.marker) then None
      else
        var m := IdEnd(p, s, e + |p.marker|);
        if m == e + |p.marker| then None else Some(m)
  }

  /**
   * Every text of the language found at `i` is seen by `MatchAt`, which
   * returns the longest one: the greedy match the regular expression makes.
   */
  lemma MatchAtComplete(p: Pattern, s: string, i: nat, e: nat, m: nat)
    requires WellFormed(p)
    requires Shaped(p, s, i, e, m)
    ensures MatchAt(p, s, i).Some? && MatchAt(p, s, i).value >= m
  {
    assert s[e] == s[e..e + |p.marker|][0] == '/';
    assert SegmentEnd(s, i + |p.prefix|) == e;
  }

  /** A match found in a prefix of `s` is also a match in `s` (its id run may only grow). */
  lemma MatchInPrefix(p: Pattern, r: string, s: string, i: nat)
    requires WellFormed(p)
    requires StartsWith(s, r) && i <= |r|
    requires MatchAt(p, r, i).Some?
    ensures MatchAt(p, s, i).Some?
  {
    var m := MatchAt(p, r, i).value;
    var e := SegmentEnd(r, i + |p.prefix|);
    assert forall x :: 0 <= x < |r| ==> s[x] == r[x] by {
      assert s[..|r|] == r;
    }
    assert s[i..i + |p.prefix|] == r[i..i + |p.prefix|];
    assert s[e..e + |p.marker|] == r[e..e + |p.marker|];
    MatchAtComplete(p, s, i, e, m);
  }

  /** A text of the language, cut out of the URL, is still one. */
  lemma ShapedAlone(p: Pattern, s: string, i: nat, e: nat, m: nat)
    requires Shaped(p, s, i, e, m)
    ensures Shaped(p, s[i..m], 0, e - i, m - i)
  {
    var t := s[i..m];
    assert t[0..|p.prefix|] == s[i..i + |p.prefix|];
    var f := e - i;
    assert t[f..f + |p.marker|] == s[e..e + |p.marker|] by {
      var a, b := t[f..f + |p.marker|], s[e..e + |p.marker|];
      forall k | 0 <= k < |p.marker| ensures a[k] == b[k] {
        assert t[f + k] == s[i + f + k];
      }
    }
  }

  /** A matched text, on its own, is one whole match. */
  lemma MatchAlone(p: Pattern, s: string, i: nat)
    requires WellFormed(p)
    requires i <= |s| && MatchAt(p, s, i).Some?
    ensures var t := s[i..MatchAt(p, s, i).value]; MatchAt(p, t, 0) == Some(|t|)
  {
    var m := MatchAt(p, s, i).value;
    var t := s[i..m];
    assert MatchAt(p, t, 0).Some? && MatchAt(p, t, 0).value >= |t| by {
      var e := SegmentEnd(s, i + |p.prefix|);
      ShapedAlone(p, s, i, e, m);
      MatchAtComplete(p, t, 0, e - i, m - i);
    }
  }

  /** The leftmost match at or after position `i`, as (start, end). */
  function FirstMatch(p: Pattern, s: string, i: nat): (r: Option<(nat, nat)>)
    requires i <= |s|
    ensures r.Some? ==> i <= r.value.0 <= |s| && MatchAt(p, s, r.value.0) == Some(r.value.1)
    ensures r.Some? ==> forall j :: i <= j < r.value.0 ==> MatchAt(p, s, j).None?
    ensures r.None? ==> forall j :: i <= j <= |s| ==> MatchAt(p, s, j).None?
    decreases |s| - i
  {
    var here := MatchAt(p, s, i);
    if here.Some? then Some((i, here.value))
    else if i == |s| then None
    else FirstMatch(p, s, i + 1)
  }

  /** `s.replace(/\/$/, "")`: one trailing `/` removed. */
  function StripSlash(s: string): string {
    if s != [] && s[|s| - 1] == '/' then s[..|s| - 1] else s
  }

  predicate EndsWith(s: string, t: string) {
    |t| <= |s| && s[|s| - |t|..] == t
  }

  /** The shared body of both cleaning functions. */
  function Clean(p: Pattern, url: string): (r: string)
    requires WellFormed(p)
    ensures FirstMatch(p, url, 0).Some? ==> MatchAt(p, r, 0) == Some(|r|) && Contains(url, r)
    ensures FirstMatch(p, url, 0).None? ==> '?' !in r && StartsWith(url, r)
  {
    match FirstMatch(p, url, 0)
    case Some((i, m)) =>
      MatchAlone(p, url, i);
      ContainsAt(url, url[i..m], i);
      url[i..m]
    case None =>
      var r := StripSlash(Before(url, '?'));
      assert StartsWith(url, r);
      NoMatchAfterFallback(p, url, r);
      r
  }

  /** The fallback output contains no match, because a match in it would be one in the URL. */
  lemma NoMatchAfterFallback(p: Pattern, url: string, r: string)
    requires WellFormed(p)
    requires FirstMatch(p, url, 0).None?
    requires StartsWith(url, r)
    ensures FirstMatch(p, r, 0).None?
  {
    if FirstMatch(p, r, 0).Some? {
      MatchInPrefix(p, r, url, FirstMatch(p, r, 0).value.0);
    }
  }

  /** `cleanAmazonUrl(url)`. */
  function CleanAmazonUrl(url: string): (r: string)
    ensures FirstMatch(AMAZON, url, 0).Some? ==> MatchAt(AMAZON, r, 0) == Some(|r|)
    ensures FirstMatch(AMAZON, url, 0).None? ==> '?' !in r && StartsWith(url, r)
  {
    Clean(AMAZON, url)
  }

  /** `cleanFlipkartUrl(url)`. */
  function CleanFlipkartUrl(url: string): (r: string)
    ensures FirstMatch(FLIPKART, url, 0).Some? ==> MatchAt(FLIPKART, r, 0) == Some(|r|)
    ensures FirstMatch(FLIPKART, url, 0).None? ==> '?' !in r && StartsWith(url, r)
  {
    Clean(FLIPKART, url)
  }

  /** A matched URL cleans to its match, which cleans to itself. */
  lemma CleanMatchStable(p: Pattern, url: string)
    requires WellFormed(p) && FirstMatch(p, url, 0).Some?
    ensures Clean(p, Clean(p, url)) == Clean(p, url)
  {
    var r := Clean(p, url);
    assert FirstMatch(p, r, 0) == Some((0, |r|));
    assert r[0..|r|] == r;
  }

  /** Without a match, the URL is cleaned by the fallback. */
  lemma CleanFallback(p: Pattern, url: string)
    requires WellFormed(p) && FirstMatch(p, url, 0).None?
    ensures Clean(p, url) == StripSlash(Before(url, '?'))
  {
  }

  /** Removing a trailing `/` a second time changes the text exactly when it ended in `//`. */
  lemma StripSlashTwice(b: string)
    ensures StripSlash(StripSlash(b)) == StripSlash(b) <==> !EndsWith(b, "//")
  {
    if EndsWith(b, "//") {
      assert StripSlash(b) == b[..|b| - 1] && b[|b| - 2..] == "//";
      assert StripSlash(b)[|b| - 2] == '/';
    }
  }

  /** Without a match, cleaning again removes one more `/` exactly when the text before the `?` ended in `//`. */
  lemma CleanFallbackStableIff(p: Pattern, url: string)
    requires WellFormed(p) && FirstMatch(p, url, 0).None?
    ensures Clean(p, Clean(p, url)) == Clean(p, url) <==> !EndsWith(Before(url, '?'), "//")
  {
    var r := Clean(p, url);
    CleanFallback(p, url);
    NoMatchAfterFallback(p, url, r);
    BeforeAbsent(r, '?');
    CleanFallback(p, r);
    StripSlashTwice(Before(url, '?'));
  }

  /**
   * Cleaning a cleaned URL changes it again exactly when no match was found and
   * the text before the `?` ends in `//`: only one `/` is removed per call.
   */
  lemma CleanIdempotentIff(p: Pattern, url: string)
    requires WellFormed(p)
    ensures Clean(p, Clean(p, url)) == Clean(p, url)
      <==> FirstMatch(p, url, 0).Some? || !EndsWith(Before(url, '?'), "//")
  {
    if FirstMatch(p, url, 0).Some? {
      CleanMatchStable(p, url);
    } else {
      CleanFallbackStableIff(p, url);
    }
  }

  /** The text before the first `?` of a text without `?` is the whole text. */
  lemma BeforeAbsent(s: string, c: char)
    requires c !in s
    ensures Before(s, c) == s
  {
  }

  /** A URL shorter than the prefix holds no match. */
  lemma NoMatchInShortText(p: Pattern, s: string)
    requires |s| < |p.prefix|
    ensures FirstMatch(p, s, 0).None?
  {
  }

  /** A URL too short for a match and without `?` is cleaned to itself less one trailing `/`. */
  lemma ShortUrlFallback(p: Pattern, url: string)
    requires WellFormed(p) && |url| < |p.prefix| && '?' !in url
    ensures Clean(p, url) == StripSlash(url)
  {
    NoMatchInShortText(p, url);
    BeforeAbsent(url, '?');
  }

  /** "https://x.com//" cleans to "https://x.com/", which cleans to "https://x.com". */
  lemma DoubleSlashNotIdempotent()
    ensures CleanAmazonUrl("https://x.com//") == "https://x.com/"
    ensures CleanAmazonUrl(CleanAmazonUrl("https://x.com//")) == "https://x.com"
  {
    PatternsWellFormed();
    var u := "https://x.com//";
    var v := "https://x.com/";
    assert u == v + "/" && v == "https://x.com" + "/";
    assert forall k :: 0 <= k < |u| ==> u[k] != '?';
    ShortUrlFallback(AMAZON, u);
    ShortUrlFallback(AMAZON, v);
  }

  /** Inside a match, a `?` can only sit in the slug. */
  lemma QuestionMarkInMatch(p: Pattern, url: string, i: nat, y: nat)
    requires WellFormed(p)
    requires i <= |url| && MatchAt(p, url, i).Some?
    requires i <= y < MatchAt(p, url, i).value && url[y] == '?'
    ensures i + |p.prefix| <= y < SegmentEnd(url, i + |p.prefix|)
  {
  }

  /** A `?` inside a matched text lies in its slug. */
  lemma QueryInMatch(p: Pattern, url: string, i: nat)
    requires WellFormed(p)
    requires i <= |url| && MatchAt(p, url, i).Some?
    requires '?' in url[i..MatchAt(p, url, i).value]
    ensures '?' in url[i + |p.prefix|..SegmentEnd(url, i + |p.prefix|)]
  {
    var r := url[i..MatchAt(p, url, i).value];
    var x :| 0 <= x < |r| && r[x] == '?';
    assert url[i + x] == '?';
    QuestionMarkInMatch(p, url, i, i + x);
    var slug := url[i + |p.prefix|..SegmentEnd(url, i + |p.prefix|)];
    assert slug[x - |p.prefix|] == url[i + x];
  }

  /** A matched URL is cleaned to its match. */
  lemma CleanOfMatch(p: Pattern, url: string)
    requires WellFormed(p) && FirstMatch(p, url, 0).Some?
    ensures var (i, m) := FirstMatch(p, url, 0).value; Clean(p, url) == url[i..m]
  {
  }

  /**
   * A cleaned URL keeps a `?` only inside the slug of its match: the fallback
   * cuts the query off, and prefix, marker and id never hold a `?`.
   */
  lemma QueryOnlyInSlug(p: Pattern, url: string)
    requires WellFormed(p)
    ensures '?' in Clean(p, url) ==>
      && FirstMatch(p, url, 0).Some?
      && var i := FirstMatch(p, url, 0).value.0;
         '?' in url[i + |p.prefix|..SegmentEnd(url, i + |p.prefix|)]
  {
    var found := FirstMatch(p, url, 0);
    if found.Some? {
      CleanOfMatch(p, url);
      if '?' in url[found.value.0..found.value.1] {
        QueryInMatch(p, url, found.value.0);
      }
    }
  }
}
