/**
 * The paging arithmetic of `show_category_products` (bot.py:950-1046): ten
 * products per page, the page's slice of the list, and the two navigation
 * buttons that lead to the neighbouring pages.
 */
module Paging {
  import opened Text
  import opened Callback

  const PerPage: nat := 10

  /** `(len(products) - 1) // 10 + 1`: the number of pages, rounded up. */
  function TotalPages(n: nat): (t: int)
    requires n > 0
    ensures t >= 1
    ensures (t - 1) * PerPage < n <= t * PerPage
  {
    (n - 1) / PerPage + 1
  }

  /** Python's normalisation of a slice bound: negative counts from the end, then clamped. */
  function SliceBound(i: int, n: nat): (r: nat)
    ensures r <= n
    ensures 0 <= i <= n ==> r == i
  {
    if i < 0 then (if i + n < 0 then 0 else i + n)
    else if i > n then n
    else i
  }

  /** Python's `s[i:j]`. */
  function Slice<T>(s: seq<T>, i: int, j: int): (r: seq<T>)
    ensures 0 <= i <= j <= |s| ==> r == s[i..j]
    ensures |r| <= |s|
  {
    var a, b := SliceBound(i, |s|), SliceBound(j, |s|);
    if a < b then s[a..b] else []
  }

  function Min(a: int, b: int): int { if a < b then a else b }

  /** What the category screen shows: the empty-category text, or one page. */
  datatype View<T> =
    | NoProducts
    | Page(total: int, items: seq<T>, prev: Option<int>, next: Option<int>)

  /** The screen for `page` of a category's product list; `prev`/`next` are the pages the arrows lead to. */
  function ShowCategoryProducts<T>(products: seq<T>, page: int): (v: View<T>)
    ensures v.NoProducts? <==> |products| == 0
  {
    if |products| == 0 then NoProducts
    else
      var total := TotalPages(|products|);
      var start := page * PerPage;
      var stop := Min(start + PerPage, |products|);
      Page(total, Slice(products, start, stop),
           if page > 0 then Some(page - 1) else None,
           if page < total - 1 then Some(page + 1) else None)
  }

  predicate ValidPage(n: nat, page: int) {
    n > 0 && 0 <= page < TotalPages(n)
  }

  /** Every page that the counter shows holds between one and ten products, in list order. */
  lemma PageItems<T>(products: seq<T>, page: int)
    requires ValidPage(|products|, page)
    ensures PerPage * page < |products|
    ensures ShowCategoryProducts(products, page).items
         == products[PerPage * page .. Min(PerPage * page + PerPage, |products|)]
    ensures 1 <= |ShowCategoryProducts(products, page).items| <= PerPage
  {
    assert (TotalPages(|products|) - 1) * PerPage < |products|;
    assert page * PerPage <= (TotalPages(|products|) - 1) * PerPage;
  }

  /** A page past the last one shows nothing and offers no next arrow. */
  lemma PastLastPage<T>(products: seq<T>, page: int)
    requires |products| > 0 && page >= TotalPages(|products|)
    ensures ShowCategoryProducts(products, page).items == []
    ensures ShowCategoryProducts(products, page).next == None
  {
    assert PerPage * page >= PerPage * TotalPages(|products|);
  }

  /**
   * The back arrow appears exactly on pages after the first, the forward arrow
   * exactly while products remain past this page, and both lead to valid pages.
   */
  lemma NavigationArrows<T>(products: seq<T>, page: int)
    requires ValidPage(|products|, page)
    ensures ShowCategoryProducts(products, page).prev.Some? <==> page > 0
    ensures ShowCategoryProducts(products, page).next.Some? <==> PerPage * (page + 1) < |products|
    ensures ShowCategoryProducts(products, page).prev.Some? ==>
              ValidPage(|products|, ShowCategoryProducts(products, page).prev.value)
    ensures ShowCategoryProducts(products, page).next.Some? ==>
              ValidPage(|products|, ShowCategoryProducts(products, page).next.value)
  {
    var t := TotalPages(|products|);
    if page < t - 1 {
      assert PerPage * (page + 1) <= PerPage * (t - 1);
    } else {
      assert PerPage * (page + 1) >= PerPage * t;
    }
  }

  /** An arrow of a valid page, turned into callback data, brings the dispatcher back to that page. */
  lemma ArrowRoundTrip<T>(products: seq<T>, categoryId: nat, page: int)
    requires ValidPage(|products|, page)
    ensures ShowCategoryProducts(products, page).prev.Some? ==>
              var p := ShowCategoryProducts(products, page).prev.value;
              p >= 0 && DecodeCallback(ViewCategoryProductsData(categoryId, p)) == ViewCategoryProducts(categoryId, p)
    ensures ShowCategoryProducts(products, page).next.Some? ==>
              var p := ShowCategoryProducts(products, page).next.value;
              p >= 0 && DecodeCallback(ViewCategoryProductsData(categoryId, p)) == ViewCategoryProducts(categoryId, p)
  {
    var v := ShowCategoryProducts(products, page);
    if v.prev.Some? {
      ViewCategoryProductsRoundTrip(categoryId, v.prev.value);
    }
    if v.next.Some? {
      ViewCategoryProductsRoundTrip(categoryId, v.next.value);
    }
  }

  /** The items of pages `k`, `k + 1`, ... up to the last, one after the other. */
  ghost function PagesFrom<T>(products: seq<T>, k: nat): seq<T>
    requires |products| > 0
    decreases TotalPages(|products|) - k
  {
    if k >= TotalPages(|products|) then []
    else ShowCategoryProducts(products, k).items + PagesFrom(products, k + 1)
  }

  lemma {:induction false} PagesFromSuffix<T>(products: seq<T>, k: nat)
    requires |products| > 0 && k <= TotalPages(|products|)
    ensures PagesFrom(products, k) == products[Min(PerPage * k, |products|)..]
    decreases TotalPages(|products|) - k
  {
    if k < TotalPages(|products|) {
      PageItems(products, k);
      var a, b := PerPage * k, Min(PerPage * k + PerPage, |products|);
      PagesFromSuffix(products, k + 1);
      assert Min(PerPage * (k + 1), |products|) == b;
      assert products[a..b] + products[b..] == products[a..];
    }
  }

  /** Reading every page in turn lists each product exactly once, in order. */
  lemma PagesCoverList<T>(products: seq<T>)
    requires |products| > 0
    ensures PagesFrom(products, 0) == products
  {
    PagesFromSuffix(products, 0);
  }

  /**
   * The page number comes from callback data and may be negative; Python's slice
   * then counts from the end, so page -2 of a 25-product list shows products 5 to 14.
   */
  lemma NegativePageShowsItems<T>(products: seq<T>)
    requires |products| == 25
    ensures ShowCategoryProducts(products, -2).items == products[5..15]
    ensures ShowCategoryProducts(products, -2).prev == None
    ensures ShowCategoryProducts(products, -2).next == Some(-1)
  {
  }
}
