/**
 * The tail of `scrape_amazon_product` (bot.py:2769-2826): from the texts of the
 * page elements already located, the discount percentage `-(\d+)%`, the two
 * prices `(\d+(?:,\d+)?)\s*€`, and the rule that a discount counts only when
 * both prices were found. Both searches are Python's `re.search`: the leftmost
 * position where the pattern matches. `\d` is taken as the ASCII digits.
 */
module Extraction {
  import opened Text

  // ---------------------------------------------------------------------------
  // Scanning helpers

  /** Length of the run of ASCII digits that starts at `i`. */
  function DigitRun(s: string, i: nat): (n: nat)
    requires i <= |s|
    ensures i + n <= |s|
    ensures forall k :: i <= k < i + n ==> IsDigit(s[k])
    ensures i + n == |s| || !IsDigit(s[i + n])
    decreases |s| - i
  {
    if i < |s| && IsDigit(s[i]) then 1 + DigitRun(s, i + 1) else 0
  }

  /** Index just past the run of whitespace that starts at `j`. */
  function SkipSpaces(s: string, j: nat): (k: nat)
    requires j <= |s|
    ensures j <= k <= |s|
    decreases |s| - j
  {
    if j < |s| && IsSpace(s[j]) then SkipSpaces(s, j + 1) else j
  }

  predicate EuroAfterSpaces(s: string, j: nat)
    requires j <= |s|
  {
    var k := SkipSpaces(s, j);
    k < |s| && s[k] == '€'
  }

  // ---------------------------------------------------------------------------
  // What a match is, stated on its own

  /** `t` begins with `\s*€`. */
  predicate SpacesThenEuro(t: string)
    decreases |t|
  {
    |t| > 0 && (t[0] == '€' || (IsSpace(t[0]) && SpacesThenEuro(t[1..])))
  }

  /** A text `\d+(?:,\d+)?` can capture: digits, or digits, a comma and digits. */
  ghost predicate PriceShape(g: string) {
    IsDigits(g) || exists c :: 0 < c < |g| && g[c] == ',' && IsDigits(g[..c]) && IsDigits(g[c + 1..])
  }

  /** `(\d+(?:,\d+)?)\s*€` matches at `i` of `s`, capturing `g`. */
  ghost predicate PriceMatch(s: string, i: nat, g: string) {
    i + |g| <= |s| && s[i..i + |g|] == g && PriceShape(g) && SpacesThenEuro(s[i + |g|..])
  }

  /** `-(\d+)%` matches at `i` of `s`, capturing `g`. */
  ghost predicate PercentMatch(s: string, i: nat, g: string) {
    i <= |s| && IsDigits(g) && StartsWith(s[i..], "-" + g + "%")
  }

  // ---------------------------------------------------------------------------
  // The matchers

  /**
   * Where the optional group `(?:,\d+)` ends when it is tried at `j` and the
   * rest of the pattern, `\s*€`, matches after it; None when the regex engine
   * has to backtrack and leave the group out.
   */
  function CommaGroupEnd(s: string, j: nat): (r: Option<nat>)
    requires j <= |s|
    ensures r.Some? ==> j + 2 <= r.value <= |s|
  {
    if j < |s| && s[j] == ',' then
      var e := DigitRun(s, j + 1);
      if e > 0 && EuroAfterSpaces(s, j + 1 + e) then Some(j + 1 + e) else None
    else None
  }

  /** The group a match of the price pattern starting exactly at `i` captures. */
  function PriceAt(s: string, i: nat): (r: Option<string>)
    requires i <= |s|
  {
    var d := DigitRun(s, i);
    if d == 0 then None
    else match CommaGroupEnd(s, i + d)
      case Some(n) => Some(s[i..n])
      case None => if EuroAfterSpaces(s, i + d) then Some(s[i..i + d]) else None
  }

  /** The group a match of the percentage pattern starting exactly at `i` captures. */
  function PercentAt(s: string, i: nat): (r: Option<string>)
    requires i <= |s|
  {
    if i < |s| && s[i] == '-' then
      var d := DigitRun(s, i + 1);
      if d > 0 && i + 1 + d < |s| && s[i + 1 + d] == '%' then Some(s[i + 1..i + 1 + d]) else None
    else None
  }

  /** Python's `re.search` for the price pattern, from position `i`: the leftmost match. */
  function SearchPrice(s: string, i: nat): (r: Option<(nat, string)>)
    requires i <= |s|
    ensures r.Some? ==> i <= r.value.0 <= |s| && PriceAt(s, r.value.0) == Some(r.value.1)
    ensures r.Some? ==> forall j :: i <= j < r.value.0 ==> PriceAt(s, j) == None
    ensures r.None? ==> forall j :: i <= j <= |s| ==> PriceAt(s, j) == None
    decreases |s| - i
  {
    match PriceAt(s, i)
    case Some(g) => Some((i, g))
    case None => if i == |s| then None else SearchPrice(s, i + 1)
  }

  /** Python's `re.search` for the percentage pattern, from position `i`. */
  function SearchPercent(s: string, i: nat): (r: Option<(nat, string)>)
    requires i <= |s|
    ensures r.Some? ==> i <= r.value.0 <= |s| && PercentAt(s, r.value.0) == Some(r.value.1)
    ensures r.Some? ==> forall j :: i <= j < r.value.0 ==> PercentAt(s, j) == None
    ensures r.None? ==> forall j :: i <= j <= |s| ==> PercentAt(s, j) == None
    decreases |s| - i
  {
    match PercentAt(s, i)
    case Some(g) => Some((i, g))
    case None => if i == |s| then None else SearchPercent(s, i + 1)
  }

  // ---------------------------------------------------------------------------
  // The matchers agree with the patterns

  lemma {:induction false} EuroAfterSpacesIff(s: string, j: nat)
    requires j <= |s|
    ensures EuroAfterSpaces(s, j) <==> SpacesThenEuro(s[j..])
    decreases |s| - j
  {
    if j < |s| {
      assert s[j..][1..] == s[j + 1..];
      if IsSpace(s[j]) {
        EuroAfterSpacesIff(s, j + 1);
      }
    }
  }

  /** A digit run is as long as the digits present, up to the first non-digit. */
  lemma {:induction false} DigitRunIs(s: string, i: nat, n: nat)
    requires i + n <= |s|
    requires forall k :: i <= k < i + n ==> IsDigit(s[k])
    requires i + n == |s| || !IsDigit(s[i + n])
    ensures DigitRun(s, i) == n
    decreases n
  {
    if n > 0 {
      DigitRunIs(s, i + 1, n - 1);
    }
  }

  lemma DigitsSlice(s: string, i: nat, n: nat)
    requires 0 < n && i + n <= |s|
    requires forall k :: i <= k < i + n ==> IsDigit(s[k])
    ensures IsDigits(s[i..i + n])
  {
    var t := s[i..i + n];
    forall k | 0 <= k < n ensures IsDigit(t[k]) {
      assert t[k] == s[i + k];
    }
  }

  lemma PricePlainMatches(s: string, i: nat, d: nat)
    requires 0 < d && i + d <= |s|
    requires forall k :: i <= k < i + d ==> IsDigit(s[k])
    requires SpacesThenEuro(s[i + d..])
    ensures PriceMatch(s, i, s[i..i + d])
  {
    DigitsSlice(s, i, d);
  }

  lemma PriceCommaMatches(s: string, i: nat, j: nat, n: nat)
    requires i < j && j + 1 < n <= |s|
    requires forall k :: i <= k < j ==> IsDigit(s[k])
    requires s[j] == ','
    requires forall k :: j + 1 <= k < n ==> IsDigit(s[k])
    requires SpacesThenEuro(s[n..])
    ensures PriceMatch(s, i, s[i..n])
  {
    var g := s[i..n];
    var c := j - i;
    DigitsSlice(s, i, c);
    DigitsSlice(s, j + 1, n - j - 1);
    assert g[..c] == s[i..j];
    assert g[c + 1..] == s[j + 1..n];
    assert g[c] == ',';
  }

  /** What the comma group stands on when it is taken. */
  lemma CommaGroupFacts(s: string, j: nat)
    requires j <= |s| && CommaGroupEnd(s, j).Some?
    ensures var n := CommaGroupEnd(s, j).value;
      s[j] == ',' && (forall k :: j + 1 <= k < n ==> IsDigit(s[k])) && SpacesThenEuro(s[n..])
  {
    EuroAfterSpacesIff(s, CommaGroupEnd(s, j).value);
  }

  lemma PriceAtMatches(s: string, i: nat)
    requires i <= |s| && PriceAt(s, i).Some?
    ensures PriceMatch(s, i, PriceAt(s, i).value)
  {
    if CommaGroupEnd(s, i + DigitRun(s, i)).Some? {
      CommaTaken(s, i);
    } else {
      CommaLeftOut(s, i);
    }
  }

  lemma CommaTaken(s: string, i: nat)
    requires i <= |s| && DigitRun(s, i) > 0 && CommaGroupEnd(s, i + DigitRun(s, i)).Some?
    ensures PriceAt(s, i).Some? && PriceMatch(s, i, PriceAt(s, i).value)
  {
    var j := i + DigitRun(s, i);
    var n := CommaGroupEnd(s, j).value;
    PriceAtComma(s, i, j, n);
    CommaGroupFacts(s, j);
    PriceCommaMatches(s, i, j, n);
  }

  lemma CommaLeftOut(s: string, i: nat)
    requires i <= |s| && PriceAt(s, i).Some? && CommaGroupEnd(s, i + DigitRun(s, i)).None?
    ensures PriceMatch(s, i, PriceAt(s, i).value)
  {
    var d := DigitRun(s, i);
    assert EuroAfterSpaces(s, i + d);
    PriceAtPlain(s, i, d);
    EuroAfterSpacesIff(s, i + d);
    PricePlainMatches(s, i, d);
  }

  /** The price matcher with the comma group taken. */
  lemma PriceAtComma(s: string, i: nat, j: nat, n: nat)
    requires i < j <= |s| && DigitRun(s, i) == j - i && CommaGroupEnd(s, j) == Some(n)
    ensures PriceAt(s, i) == Some(s[i..n])
  {
  }

  /** The price matcher with the comma group left out. */
  lemma PriceAtPlain(s: string, i: nat, d: nat)
    requires 0 < d && i + d <= |s| && DigitRun(s, i) == d
    requires CommaGroupEnd(s, i + d).None? && EuroAfterSpaces(s, i + d)
    ensures PriceAt(s, i) == Some(s[i..i + d])
  {
  }

  /** The comma group ends at `n` when digits up to `n` follow the comma and `\s*€` follows them. */
  lemma CommaGroupEndIs(s: string, j: nat, n: nat)
    requires j + 1 < n <= |s| && s[j] == ','
    requires forall k :: j + 1 <= k < n ==> IsDigit(s[k])
    requires n == |s| || !IsDigit(s[n])
    requires EuroAfterSpaces(s, n)
    ensures CommaGroupEnd(s, j) == Some(n)
  {
    DigitRunIs(s, j + 1, n - j - 1);
  }

  /** What follows a match is `\s*€`, so neither a digit nor a comma. */
  lemma AfterMatch(s: string, n: nat)
    requires n <= |s| && SpacesThenEuro(s[n..])
    ensures n < |s| && !IsDigit(s[n]) && s[n] != ','
    ensures EuroAfterSpaces(s, n)
  {
    assert s[n..][0] == s[n];
    EuroAfterSpacesIff(s, n);
  }

  /** The characters of a slice equal to a digit string are digits. */
  lemma DigitsInPlace(s: string, i: nat, t: string)
    requires i + |t| <= |s| && s[i..i + |t|] == t && IsDigits(t)
    ensures forall k :: i <= k < i + |t| ==> IsDigit(s[k])
  {
    forall k | i <= k < i + |t| ensures IsDigit(s[k]) {
      assert s[k] == t[k - i];
    }
  }

  lemma MatchesPriceAt(s: string, i: nat, g: string)
    requires PriceMatch(s, i, g)
    ensures PriceAt(s, i) == Some(g)
  {
    var n := i + |g|;
    AfterMatch(s, n);
    if IsDigits(g) {
      DigitsInPlace(s, i, g);
      DigitRunIs(s, i, |g|);
      assert CommaGroupEnd(s, n) == None;
    } else {
      var c :| 0 < c < |g| && g[c] == ',' && IsDigits(g[..c]) && IsDigits(g[c + 1..]);
      CommaPriceAt(s, i, g, c);
    }
  }

  /** The pieces of a slice equal to `g`, cut at position `c` of `g`. */
  lemma SliceAround(s: string, i: nat, g: string, c: nat)
    requires i + |g| <= |s| && s[i..i + |g|] == g && c < |g|
    ensures s[i..i + c] == g[..c] && s[i + c] == g[c] && s[i + c + 1..i + |g|] == g[c + 1..]
  {
    assert s[i + c] == s[i..i + |g|][c];
  }

  lemma CommaPriceAt(s: string, i: nat, g: string, c: nat)
    requires i + |g| <= |s| && s[i..i + |g|] == g
    requires 0 < c < |g| && g[c] == ',' && IsDigits(g[..c]) && IsDigits(g[c + 1..])
    requires i + |g| < |s| && !IsDigit(s[i + |g|]) && EuroAfterSpaces(s, i + |g|)
    ensures PriceAt(s, i) == Some(g)
  {
    var a, b := g[..c], g[c + 1..];
    SliceAround(s, i, g, c);
    DigitsInPlace(s, i, a);
    DigitsInPlace(s, i + c + 1, b);
    DigitRunIs(s, i, c);
    CommaGroupEndIs(s, i + c, i + |g|);
    PriceAtComma(s, i, i + c, i + |g|);
  }

  /** The price matcher accepts exactly the matches of the pattern. */
  lemma PriceAtIff(s: string, i: nat, g: string)
    requires i <= |s|
    ensures PriceAt(s, i) == Some(g) <==> PriceMatch(s, i, g)
  {
    if PriceAt(s, i) == Some(g) {
      PriceAtMatches(s, i);
    }
    if PriceMatch(s, i, g) {
      MatchesPriceAt(s, i, g);
    }
  }

  /** The text `-<g>%` that the percentage pattern spells out. */
  lemma PercentText(g: string)
    ensures var p := "-" + g + "%";
      |p| == |g| + 2 && p[0] == '-' && p[1..|g| + 1] == g && p[|g| + 1] == '%'
  {
  }

  lemma PercentAtMatches(s: string, i: nat)
    requires i <= |s| && PercentAt(s, i).Some?
    ensures PercentMatch(s, i, PercentAt(s, i).value)
  {
    var g := PercentAt(s, i).value;
    var p := "-" + g + "%";
    PercentText(g);
    assert s[i..][..|p|] == p;
  }

  lemma MatchesPercentAt(s: string, i: nat, g: string)
    requires PercentMatch(s, i, g)
    ensures PercentAt(s, i) == Some(g)
  {
    var p := "-" + g + "%";
    PercentText(g);
    assert s[i..][..|p|] == s[i..i + |p|];
    SliceAround(s, i, p, 0);
    SliceAround(s, i, p, |g| + 1);
    assert s[i + 1..i + 1 + |g|] == g by {
      assert s[i..i + |g| + 1][1..] == s[i + 1..i + 1 + |g|];
      assert p[..|g| + 1][1..] == p[1..|g| + 1];
    }
    DigitsInPlace(s, i + 1, g);
    DigitRunIs(s, i + 1, |g|);
  }

  /** The percentage matcher accepts exactly the matches of the pattern. */
  lemma PercentAtIff(s: string, i: nat, g: string)
    requires i <= |s|
    ensures PercentAt(s, i) == Some(g) <==> PercentMatch(s, i, g)
  {
    if PercentAt(s, i) == Some(g) {
      PercentAtMatches(s, i);
    }
    if PercentMatch(s, i, g) {
      MatchesPercentAt(s, i, g);
    }
  }

  // ---------------------------------------------------------------------------
  // The extraction

  /**
   * The texts of the located page elements (stripped), absent where the element
   * is missing. `title` is the meta title's content when it is not empty, else
   * the text of the productTitle span; absent when the page offers neither.
   */
  datatype Located = Located(
    title: Option<string>,
    imageUrl: Option<string>,
    marker: Option<string>,      // the savingsPercentage span
    payText: Option<string>,     // the priceToPay span
    basisText: Option<string>)   // the basisPrice span

  datatype Discount = Discount(percentage: nat, discountedPrice: string, originalPrice: string)

  /** The result dictionary: `has_discount` is `discount.Some?`. */
  datatype Scraped = Scraped(title: string, imageUrl: Option<string>, discount: Option<Discount>)

  /** A price text's leftmost group with "€" re-appended, or "N/A". */
  function PriceOf(text: Option<string>): string {
    if text.None? then "N/A"
    else match SearchPrice(text.value, 0)
      case Some((_, g)) => g + "€"
      case None => "N/A"
  }

  /**
   * `scrape_amazon_product` after the page is parsed; `defaultTitle` is the
   * title the result carries when the page has none (the current language's
   * text for `prodotto_amazon`).
   */
  function Extract(loc: Located, defaultTitle: string): (r: Scraped)
    ensures loc.title.Some? ==> r.title == loc.title.value
    ensures loc.title.None? ==> r.title == defaultTitle
    ensures r.imageUrl == loc.imageUrl
  {
    var title := if loc.title.Some? then loc.title.value else defaultTitle;
    var base := Scraped(title, loc.imageUrl, None);
    if loc.marker.None? then base
    else match SearchPercent(loc.marker.value, 0)
      case None => base
      case Some((_, g)) =>
        var discounted := PriceOf(loc.payText);
        var original := PriceOf(loc.basisText);
        if original != "N/A" && discounted != "N/A" then
          Scraped(title, loc.imageUrl, Some(Discount(DigitsValue(g), discounted, original)))
        else base
  }

  // ---------------------------------------------------------------------------
  // Properties

  ghost predicate HasPrice(text: Option<string>) {
    text.Some? && exists i: nat, g :: PriceMatch(text.value, i, g)
  }

  ghost predicate HasPercent(text: Option<string>) {
    text.Some? && exists i: nat, g :: PercentMatch(text.value, i, g)
  }

  lemma PriceOfFound(text: Option<string>)
    ensures PriceOf(text) != "N/A" <==> HasPrice(text)
  {
    if text.Some? {
      var s := text.value;
      match SearchPrice(s, 0)
      case Some((i, g)) =>
        PriceAtIff(s, i, g);
        var r := g + "€";
        assert r[|r| - 1] == '€';
      case None =>
        forall i: nat, g | PriceMatch(s, i, g) ensures false {
          PriceAtIff(s, i, g);
        }
    }
  }

  lemma PercentFound(s: string)
    ensures SearchPercent(s, 0).Some? <==> HasPercent(Some(s))
  {
    match SearchPercent(s, 0)
    case Some((i, g)) =>
      PercentAtIff(s, i, g);
    case None =>
      forall i: nat, g | PercentMatch(s, i, g) ensures false {
        PercentAtIff(s, i, g);
      }
  }

  /**
   * A discount is reported exactly when the marker holds `-<digits>%` and both
   * price texts hold a price followed by "€"; title and image are returned either way.
   */
  lemma HasDiscountIff(loc: Located, defaultTitle: string)
    ensures Extract(loc, defaultTitle).discount.Some? <==> HasPercent(loc.marker) && HasPrice(loc.payText) && HasPrice(loc.basisText)
  {
    PriceOfFound(loc.payText);
    PriceOfFound(loc.basisText);
    if loc.marker.Some? {
      PercentFound(loc.marker.value);
    }
  }

  /** The price reported is the group of the leftmost match of the pattern, with "€" appended. */
  lemma LeftmostPrice(s: string, i: nat, g: string)
    requires PriceMatch(s, i, g)
    requires forall j: nat, h :: j < i ==> !PriceMatch(s, j, h)
    ensures PriceOf(Some(s)) == g + "€"
  {
    MatchesPriceAt(s, i, g);
    var k := FirstPriceAt(s, i);
    if k < i {
      PriceAtMatches(s, k);
      assert false;
    }
  }

  /** Where the search stops, given a match at `i`: at `i` or before it. */
  lemma FirstPriceAt(s: string, i: nat) returns (k: nat)
    requires i <= |s| && PriceAt(s, i).Some?
    ensures SearchPrice(s, 0).Some? && k == SearchPrice(s, 0).value.0 <= i
    ensures PriceAt(s, k) == Some(SearchPrice(s, 0).value.1)
    ensures k == i ==> PriceOf(Some(s)) == PriceAt(s, i).value + "€"
  {
    k := SearchPrice(s, 0).value.0;
  }

  /** The percentage reported is the value of the leftmost `-<digits>%`. */
  lemma LeftmostPercent(loc: Located, defaultTitle: string, i: nat, g: string)
    requires loc.marker.Some? && PercentMatch(loc.marker.value, i, g)
    requires forall j: nat, h :: j < i ==> !PercentMatch(loc.marker.value, j, h)
    requires Extract(loc, defaultTitle).discount.Some?
    ensures Extract(loc, defaultTitle).discount.value.percentage == DigitsValue(g)
  {
    var s := loc.marker.value;
    PercentAtIff(s, i, g);
    match SearchPercent(s, 0)
    case Some((k, h)) =>
      PercentAtIff(s, k, h);
    case None =>
  }

  /** A price written with a thousands dot yields only the part after the dot. */
  lemma ThousandsDotCut(s: string)
    requires s == "1.299,00€"
    ensures PriceOf(Some(s)) == "299,00€"
  {
    assert s[0] == '1' && s[1] == '.' && s[2] == '2' && s[3] == '9' && s[4] == '9';
    assert s[5] == ',' && s[6] == '0' && s[7] == '0' && s[8] == '€';
    DottedPrice(s);
    assert s[2..8] == "299,00";
  }

  lemma DottedPrice(s: string)
    requires |s| == 9 && s[0] == '1' && s[1] == '.' && s[2] == '2' && s[3] == '9' && s[4] == '9'
    requires s[5] == ',' && s[6] == '0' && s[7] == '0' && s[8] == '€'
    ensures PriceOf(Some(s)) == s[2..8] + "€"
  {
    DigitRunIs(s, 0, 1);
    DigitRunIs(s, 1, 0);
    DigitRunIs(s, 2, 3);
    DigitRunIs(s, 6, 2);
    assert SkipSpaces(s, 1) == 1;
    assert SkipSpaces(s, 8) == 8;
    assert PriceAt(s, 0) == None;
    assert PriceAt(s, 1) == None;
    assert CommaGroupEnd(s, 5) == Some(8);
    assert PriceAt(s, 2) == Some(s[2..8]);
    assert SearchPrice(s, 0) == Some((2, s[2..8]));
  }

  /** A marker of "-0%" is accepted: a zero-percent discount is still a discount. */
  lemma ZeroPercentAccepted(title: Option<string>, defaultTitle: string, pay: string, basis: string)
    requires HasPrice(Some(pay)) && HasPrice(Some(basis))
    ensures Extract(Located(title, None, Some("-0%"), Some(pay), Some(basis)), defaultTitle).discount.Some?
    ensures Extract(Located(title, None, Some("-0%"), Some(pay), Some(basis)), defaultTitle).discount.value.percentage == 0
  {
    var loc := Located(title, None, Some("-0%"), Some(pay), Some(basis));
    assert PercentMatch("-0%", 0, "0") by {
      assert "-0%"[0..][..3] == "-" + "0" + "%";
    }
    HasDiscountIff(loc, defaultTitle);
    LeftmostPercent(loc, defaultTitle, 0, "0");
  }
}
