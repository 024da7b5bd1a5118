/**
 * The callback data carried by the bot's inline buttons: the encoders that
 * build it (bot.py:685, 849, 932, 1031, 1040-1045, 1184, 1269, 1474, 1591,
 * 2190, 3441, 3641, 3966, 4319, 4395, 5007) and the dispatcher of
 * `handle_callback_query` that takes it apart (bot.py:339-609).
 */
module Callback {
  import opened Text

  /** What the dispatcher does with one piece of callback data. */
  datatype Route =
    | AddCategory
    | DeleteCategory(categoryId: int)
    | ConfirmDeleteProduct(productId: int)
    | ConfirmDeleteCategory(categoryId: int)
    | AssignCategory(productId: int, categoryId: int)
    | LinkCategory(categoryId: int)
    | Approve(payload: string)
    | SetLanguage(language: string)
    | ViewCategoryProducts(categoryId: int, page: int)
    | ViewCategoryProductsBadNumber   // the branch's own ValueError/IndexError handler
    | ViewCategoryProductsBadFormat   // fewer than five parts
    | ViewCategory(categoryId: int)
    | ViewCategoryBadNumber           // the branch's own ValueError handler
    | ViewCategoryBadFormat           // fewer than three parts
    | RemoveAdmin(userId: int)
    | ConfirmRemoveAdmin(userId: int)
    | TestCategory(categoryId: int)
    | TestProduct(productId: int)
    | ViewProduct(productId: int)
    | DeleteProduct(productId: int)
    | Fixed(name: string)             // one of the callbacks compared for equality
    | Ignored                         // no branch matches
    | InternalError                   // a parse raised; the outer handler answers with an error

  /** `int(data.split('_')[k])`: None where Python raises IndexError or ValueError. */
  function Field(data: string, k: nat): (r: Option<int>)
    ensures k >= |Split(data, '_')| ==> r == None
  {
    var parts := Split(data, '_');
    if k < |parts| then PyInt(parts[k]) else None
  }

  /** Python's `s[n:]`: empty when `n` is past the end. */
  function Drop(s: string, n: nat): (r: string)
    ensures n <= |s| ==> s == s[..n] + r
    ensures n >= |s| ==> r == []
  {
    if n <= |s| then s[n..] else []
  }

  /** A branch whose parse may raise into the outer handler. */
  function IntRoute(f: Option<int>, mk: int -> Route): Route {
    if f.Some? then mk(f.value) else InternalError
  }

  /** The prefix test of `handle_callback_query` that a piece of data passes first. */
  datatype Branch =
    | PAddCategory | PDeleteCategory | PConfirmDeleteProduct | PConfirmDelete
    | PAssignCategory | PLinkCategory | PApprove | PSetLanguage
    | PViewCategoryProducts | PViewCategory | PRemoveAdmin | PConfirmRemoveAdmin
    | PTestCategory | PTestProduct | PViewProduct | PDeleteProduct
    | PFixed | PNone

  /** One test of `handle_callback_query`: a prefix test, or equality with one name. */
  datatype Test = Prefix(prefix: string, branch: Branch) | Exact(name: string)

  const TestCount := 54

  /** The tests of `handle_callback_query` (bot.py:339-609), in source order. */
  function TestAt(i: nat): Test
    requires i < TestCount
  {
    if i == 0 then Prefix("add_category", PAddCategory)
    else if i == 1 then Prefix("delete_category_", PDeleteCategory)
    else if i == 2 then Prefix("confirm_delete_product_", PConfirmDeleteProduct)
    else if i == 3 then Prefix("confirm_delete_", PConfirmDelete)
    else if i == 4 then Exact("cancel_delete")
    else if i == 5 then Exact("cancel_add_category")
    else if i == 6 then Prefix("assign_category_", PAssignCategory)
    else if i == 7 then Prefix("link_category_", PLinkCategory)
    else if i == 8 then Exact("cronjob_configure")
    else if i == 9 then Exact("cronjob_toggle")
    else if i == 10 then Exact("cronjob_status")
    else if i == 11 then Prefix("approve_", PApprove)
    else if i == 12 then Exact("add_new_product")
    else if i == 13 then Exact("back_to_products_menu")
    else if i == 14 then Exact("back_to_main_menu")
    else if i == 15 then Exact("language_settings")
    else if i == 16 then Prefix("set_language_", PSetLanguage)
    else if i == 17 then Exact("show_categories")
    else if i == 18 then Exact("show_link_categories")
    else if i == 19 then Exact("show_cronjob_menu")
    else if i == 20 then Exact("show_products_menu")
    else if i == 21 then Exact("show_channel_config")
    else if i == 22 then Exact("show_prompt_config")
    else if i == 23 then Exact("show_amazon_config")
    else if i == 24 then Exact("show_auto_approval_config")
    else if i == 25 then Exact("show_admin_management")
    else if i == 26 then Prefix("view_category_products_", PViewCategoryProducts)
    else if i == 27 then Prefix("view_category_", PViewCategory)
    else if i == 28 then Exact("start_channel_config")
    else if i == 29 then Exact("start_prompt_config")
    else if i == 30 then Exact("start_amazon_config")
    else if i == 31 then Exact("cancel_cronjob_config")
    else if i == 32 then Exact("cancel_channel_config")
    else if i == 33 then Exact("cancel_prompt_config")
    else if i == 34 then Exact("cancel_amazon_config")
    else if i == 35 then Exact("cancel_test_prompt")
    else if i == 36 then Exact("cancel_telegram_link_config")
    else if i == 37 then Exact("add_admin_user")
    else if i == 38 then Prefix("remove_admin_", PRemoveAdmin)
    else if i == 39 then Prefix("confirm_remove_admin_", PConfirmRemoveAdmin)
    else if i == 40 then Exact("cancel_remove_admin")
    else if i == 41 then Exact("cancel_admin_config")
    else if i == 42 then Exact("toggle_auto_approval_enable")
    else if i == 43 then Exact("toggle_auto_approval_disable")
    else if i == 44 then Exact("show_purchase_button_config")
    else if i == 45 then Exact("start_purchase_button_config")
    else if i == 46 then Exact("cancel_purchase_button_config")
    else if i == 47 then Exact("test_prompt")
    else if i == 48 then Prefix("test_category_", PTestCategory)
    else if i == 49 then Prefix("test_product_", PTestProduct)
    else if i == 50 then Exact("already_approved")
    else if i == 51 then Prefix("view_product_", PViewProduct)
    else if i == 52 then Prefix("delete_product_", PDeleteProduct)
    else Exact("cancel_delete_product")
  }

  predicate Passes(data: string, t: Test) {
    match t
    case Prefix(p, _) => StartsWith(data, p)
    case Exact(name) => data == name
  }

  /** The literal a test compares the data with. */
  function Name(t: Test): string {
    match t
    case Prefix(p, _) => p
    case Exact(name) => name
  }

  function Taken(t: Test): Branch {
    match t
    case Prefix(_, b) => b
    case Exact(_) => PFixed
  }

  /** The branch of the first test from `i` on that the data passes. */
  function FirstPassing(data: string, i: nat): Branch
    requires i <= TestCount
    decreases TestCount - i
  {
    if i == TestCount then PNone
    else if Passes(data, TestAt(i)) then Taken(TestAt(i))
    else FirstPassing(data, i + 1)
  }

  function BranchOf(data: string): Branch {
    FirstPassing(data, 0)
  }

  /** `handle_callback_query`: what the branch taken does with the data. */
  function DecodeCallback(data: string): Route {
    match BranchOf(data)
    case PAddCategory => AddCategory
    case PDeleteCategory => IntRoute(Field(data, 2), x => DeleteCategory(x))
    case PConfirmDeleteProduct => IntRoute(Field(data, 3), x => ConfirmDeleteProduct(x))
    case PConfirmDelete => IntRoute(Field(data, 2), x => ConfirmDeleteCategory(x))
    case PAssignCategory =>
      if Field(data, 2).Some? && Field(data, 3).Some? then AssignCategory(Field(data, 2).value, Field(data, 3).value)
      else InternalError
    case PLinkCategory => IntRoute(Field(data, 2), x => LinkCategory(x))
    case PApprove => Approve(Drop(data, 8))
    case PSetLanguage => SetLanguage(Drop(data, 13))
    case PViewCategoryProducts =>
      if |Split(data, '_')| < 5 then ViewCategoryProductsBadFormat
      else if Field(data, 3).Some? && Field(data, 4).Some? then ViewCategoryProducts(Field(data, 3).value, Field(data, 4).value)
      else ViewCategoryProductsBadNumber
    case PViewCategory =>
      if |Split(data, '_')| < 3 then ViewCategoryBadFormat
      else if Field(data, 2).Some? then ViewCategory(Field(data, 2).value)
      else ViewCategoryBadNumber
    case PRemoveAdmin => IntRoute(Field(data, 2), x => RemoveAdmin(x))
    case PConfirmRemoveAdmin => IntRoute(Field(data, 3), x => ConfirmRemoveAdmin(x))
    case PTestCategory => IntRoute(Field(data, 2), x => TestCategory(x))
    case PTestProduct => IntRoute(Field(data, 2), x => TestProduct(x))
    case PViewProduct => IntRoute(Field(data, 2), x => ViewProduct(x))
    case PDeleteProduct => IntRoute(Field(data, 2), x => DeleteProduct(x))
    case PFixed => Fixed(data)
    case PNone => Ignored
  }

  /** The pieces joined by underscores, as the f-strings of the encoders build them. */
  function Join(ws: seq<string>): string
    requires |ws| > 0
  {
    if |ws| == 1 then ws[0] else ws[0] + "_" + Join(ws[1..])
  }

  /** Splitting at `_` undoes joining pieces that hold no `_`. */
  lemma {:induction false} SplitOfJoin(ws: seq<string>)
    requires |ws| > 0
    requires forall k :: 0 <= k < |ws| ==> '_' !in ws[k]
    ensures Split(Join(ws), '_') == ws
  {
    if |ws| == 1 {
      SplitOfPlain(ws[0], '_');
    } else {
      SplitOfJoin(ws[1..]);
      SplitJoin(ws[0], Join(ws[1..]), '_');
      assert ws == [ws[0]] + ws[1..];
    }
  }

  lemma Join2(a: string, b: string)
    ensures Join([a, b]) == a + "_" + b
  {
    assert [a, b][1..] == [b];
  }

  lemma Join3(a: string, b: string, c: string)
    ensures Join([a, b, c]) == a + "_" + b + "_" + c
  {
    assert [a, b, c][1..] == [b, c];
    assert [b, c][1..] == [c];
    assert Join([b, c]) == b + "_" + c;
    assert Join([a, b, c]) == a + "_" + (b + "_" + c);
    assert a + "_" + (b + "_" + c) == a + "_" + b + "_" + c;
  }

  /** Joining one more word appends it after an underscore. */
  lemma {:induction false} JoinSnoc(ws: seq<string>, x: string)
    requires |ws| > 0
    ensures Join(ws + [x]) == Join(ws) + "_" + x
    decreases |ws|
  {
    if |ws| == 1 {
      assert ws + [x] == [ws[0], x];
      Join2(ws[0], x);
    } else {
      assert (ws + [x])[1..] == ws[1..] + [x];
      JoinSnoc(ws[1..], x);
      var j := Join(ws[1..]);
      assert ws[0] + "_" + (j + "_" + x) == ws[0] + "_" + j + "_" + x;
    }
  }

  /** Splitting words joined by underscores, then one more field, at `_`. */
  lemma {:induction false} PrefixedSplit(words: seq<string>, x: string)
    requires |words| > 0
    requires forall k :: 0 <= k < |words| ==> '_' !in words[k]
    requires '_' !in x
    ensures Split(Join(words) + "_" + x, '_') == words + [x]
  {
    JoinSnoc(words, x);
    SplitOfJoin(words + [x]);
  }

  /** None of the words holds an underscore. */
  predicate Plain(words: seq<string>) {
    forall k :: 0 <= k < |words| ==> '_' !in words[k]
  }

  /** Splitting a prefix of joined words, followed by a field without underscores. */
  lemma SplitPrefixed(prefix: string, words: seq<string>, x: string)
    requires |words| > 0 && Plain(words) && Join(words) + "_" == prefix
    requires '_' !in x
    ensures Split(prefix + x, '_') == words + [x]
  {
    PrefixedSplit(words, x);
  }

  /** The same with two fields after the prefix. */
  lemma SplitPrefixed2(prefix: string, words: seq<string>, x: string, y: string)
    requires |words| > 0 && Plain(words) && Join(words) + "_" == prefix
    requires '_' !in x && '_' !in y
    ensures Split(prefix + x + "_" + y, '_') == words + [x, y]
  {
    JoinSnoc(words, x);
    assert Plain(words + [x]);
    PrefixedSplit(words + [x], y);
    assert words + [x] + [y] == words + [x, y];
  }

  // ---------------------------------------------------------------------------
  // Encoders

  function Num(n: nat): string { NatToString(n) }

  /** The approve button of a review post (bot.py:3966). */
  function ApproveData(productId: nat, discountId: nat): string {
    "approve_" + Num(productId) + "_" + Num(discountId)
  }

  /** A category page of the product list (bot.py:932, 1040, 1045). */
  function ViewCategoryProductsData(categoryId: nat, page: nat): string {
    "view_category_products_" + Num(categoryId) + "_" + Num(page)
  }

  /** Assigning a product to a category (bot.py:2190). */
  function AssignCategoryData(productId: nat, categoryId: nat): string {
    "assign_category_" + Num(productId) + "_" + Num(categoryId)
  }

  function DeleteCategoryData(categoryId: nat): string { "delete_category_" + Num(categoryId) }
  function ConfirmDeleteData(categoryId: nat): string { "confirm_delete_" + Num(categoryId) }
  function ConfirmDeleteProductData(productId: nat): string { "confirm_delete_product_" + Num(productId) }
  function ViewProductData(productId: nat): string { "view_product_" + Num(productId) }
  function DeleteProductData(productId: nat): string { "delete_product_" + Num(productId) }
  function ViewCategoryData(categoryId: nat): string { "view_category_" + Num(categoryId) }
  function LinkCategoryData(categoryId: nat): string { "link_category_" + Num(categoryId) }
  function RemoveAdminData(userId: nat): string { "remove_admin_" + Num(userId) }
  function ConfirmRemoveAdminData(userId: nat): string { "confirm_remove_admin_" + Num(userId) }
  function TestCategoryData(categoryId: nat): string { "test_category_" + Num(categoryId) }
  function TestProductData(productId: nat): string { "test_product_" + Num(productId) }
  function SetLanguageData(language: string): string { "set_language_" + language }

  /**
   * `approve_discount_notification`'s parse of what follows `approve_`: the first two
   * underscore-separated fields as integers; None where Python raises.
   */
  function ParseApproval(payload: string): (r: Option<(int, int)>)
    ensures r.Some? ==> |Split(payload, '_')| >= 2
  {
    var parts := Split(payload, '_');
    if |parts| < 2 then None
    else match (PyInt(parts[0]), PyInt(parts[1]))
      case (Some(p), Some(d)) => Some((p, d))
      case _ => None
  }

  // ---------------------------------------------------------------------------
  // Which branch takes a piece of data: one lemma per prefix, naming for every
  // earlier test a position at which its literal and the prefix disagree.

  /** The data fails every test before test `k`. */
  ghost predicate FailsBefore(data: string, k: nat)
    requires k <= TestCount
  {
    forall j {:trigger Passes(data, TestAt(j))} :: 0 <= j < k ==> !Passes(data, TestAt(j))
  }

  lemma {:induction false} FirstPassingFrom(data: string, i: nat, k: nat)
    requires i <= k < TestCount && FailsBefore(data, k) && Passes(data, TestAt(k))
    ensures FirstPassing(data, i) == Taken(TestAt(k))
    decreases k - i
  {
    if i < k {
      assert !Passes(data, TestAt(i));
      FirstPassingFrom(data, i + 1, k);
    }
  }

  /** The branch taken is that of the first test the data passes. */
  lemma FirstPassingTaken(data: string, k: nat)
    requires k < TestCount && FailsBefore(data, k) && Passes(data, TestAt(k))
    ensures BranchOf(data) == Taken(TestAt(k))
  {
    FirstPassingFrom(data, 0, k);
  }

  /** The literal of test `i` disagrees with `p` at position `d`. */
  predicate Mismatch(p: string, i: nat, d: nat) {
    i < TestCount && d < |p| && d < |Name(TestAt(i))| && p[d] != Name(TestAt(i))[d]
  }

  /** Data that starts with `p` fails every test whose literal disagrees with `p`. */
  lemma SkipByMismatch(data: string, p: string, i: nat, d: nat)
    requires StartsWith(data, p) && Mismatch(p, i, d) && FailsBefore(data, i)
    ensures FailsBefore(data, i + 1)
  {
    var name := Name(TestAt(i));
    assert data[d] == p[d] by { assert data[..|p|][d] == data[d]; }
    if |name| <= |data| {
      assert data[..|name|][d] == data[d];
    }
    assert !Passes(data, TestAt(i));
  }

  /** Eight failed tests in a row. */
  lemma SkipEight(data: string, p: string, i: nat, d0: nat, d1: nat, d2: nat, d3: nat,
                  d4: nat, d5: nat, d6: nat, d7: nat)
    requires StartsWith(data, p)
    requires Mismatch(p, i, d0) && Mismatch(p, i + 1, d1) && Mismatch(p, i + 2, d2)
          && Mismatch(p, i + 3, d3) && Mismatch(p, i + 4, d4) && Mismatch(p, i + 5, d5)
          && Mismatch(p, i + 6, d6) && Mismatch(p, i + 7, d7)
    requires FailsBefore(data, i)
    ensures FailsBefore(data, i + 8)
  {
    SkipByMismatch(data, p, i, d0);
    SkipByMismatch(data, p, i + 1, d1);
    SkipByMismatch(data, p, i + 2, d2);
    SkipByMismatch(data, p, i + 3, d3);
    SkipByMismatch(data, p, i + 4, d4);
    SkipByMismatch(data, p, i + 5, d5);
    SkipByMismatch(data, p, i + 6, d6);
    SkipByMismatch(data, p, i + 7, d7);
  }

  /** A prefix test that the data is known to fail. */
  lemma SkipKnown(data: string, i: nat)
    requires i < TestCount && FailsBefore(data, i)
    requires TestAt(i).Prefix? && !StartsWith(data, TestAt(i).prefix)
    ensures FailsBefore(data, i + 1)
  {
    assert !Passes(data, TestAt(i));
  }

  lemma BranchDeleteCategory(data: string)
    requires StartsWith(data, "delete_category_")
    ensures BranchOf(data) == PDeleteCategory
  {
    var p := "delete_category_";
    SkipByMismatch(data, p, 0, 0);
    FirstPassingTaken(data, 1);
  }

  lemma BranchConfirmDeleteProduct(data: string)
    requires StartsWith(data, "confirm_delete_product_")
    ensures BranchOf(data) == PConfirmDeleteProduct
  {
    var p := "confirm_delete_product_";
    SkipByMismatch(data, p, 0, 0);
    SkipByMismatch(data, p, 1, 0);
    FirstPassingTaken(data, 2);
  }

  lemma BranchConfirmDelete(data: string)
    requires StartsWith(data, "confirm_delete_") && !StartsWith(data, "confirm_delete_product_")
    ensures BranchOf(data) == PConfirmDelete
  {
    var p := "confirm_delete_";
    SkipByMismatch(data, p, 0, 0);
    SkipByMismatch(data, p, 1, 0);
    SkipKnown(data, 2);
    FirstPassingTaken(data, 3);
  }

  lemma BranchAssignCategory(data: string)
    requires StartsWith(data, "assign_category_")
    ensures BranchOf(data) == PAssignCategory
  {
    var p := "assign_category_";
    SkipByMismatch(data, p, 0, 1);
    SkipByMismatch(data, p, 1, 0);
    SkipByMismatch(data, p, 2, 0);
    SkipByMismatch(data, p, 3, 0);
    SkipByMismatch(data, p, 4, 0);
    SkipByMismatch(data, p, 5, 0);
    FirstPassingTaken(data, 6);
  }

  lemma BranchLinkCategory(data: string)
    requires StartsWith(data, "link_category_")
    ensures BranchOf(data) == PLinkCategory
  {
    var p := "link_category_";
    SkipByMismatch(data, p, 0, 0);
    SkipByMismatch(data, p, 1, 0);
    SkipByMismatch(data, p, 2, 0);
    SkipByMismatch(data, p, 3, 0);
    SkipByMismatch(data, p, 4, 0);
    SkipByMismatch(data, p, 5, 0);
    SkipByMismatch(data, p, 6, 0);
    FirstPassingTaken(data, 7);
  }

  lemma BranchApprove(data: string)
    requires StartsWith(data, "approve_")
    ensures BranchOf(data) == PApprove
  {
    var p := "approve_";
    SkipEight(data, p, 0, 1, 0, 0, 0, 0, 0, 1, 0);
    SkipByMismatch(data, p, 8, 0);
    SkipByMismatch(data, p, 9, 0);
    SkipByMismatch(data, p, 10, 0);
    FirstPassingTaken(data, 11);
  }

  lemma BranchSetLanguage(data: string)
    requires StartsWith(data, "set_language_")
    ensures BranchOf(data) == PSetLanguage
  {
    var p := "set_language_";
    SkipEight(data, p, 0, 0, 0, 0, 0, 0, 0, 0, 0);
    SkipEight(data, p, 8, 0, 0, 0, 0, 0, 0, 0, 0);
    FirstPassingTaken(data, 16);
  }

  lemma BranchViewCategoryProducts(data: string)
    requires StartsWith(data, "view_category_products_")
    ensures BranchOf(data) == PViewCategoryProducts
  {
    var p := "view_category_products_";
    SkipEight(data, p, 0, 0, 0, 0, 0, 0, 0, 0, 0);
    SkipEight(data, p, 8, 0, 0, 0, 0, 0, 0, 0, 0);
    SkipEight(data, p, 16, 0, 0, 0, 0, 0, 0, 0, 0);
    SkipByMismatch(data, p, 24, 0);
    SkipByMismatch(data, p, 25, 0);
    FirstPassingTaken(data, 26);
  }

  lemma BranchViewCategory(data: string)
    requires StartsWith(data, "view_category_") && !StartsWith(data, "view_category_products_")
    ensures BranchOf(data) == PViewCategory
  {
    var p := "view_category_";
    SkipEight(data, p, 0, 0, 0, 0, 0, 0, 0, 0, 0);
    SkipEight(data, p, 8, 0, 0, 0, 0, 0, 0, 0, 0);
    SkipEight(data, p, 16, 0, 0, 0, 0, 0, 0, 0, 0);
    SkipByMismatch(data, p, 24, 0);
    SkipByMismatch(data, p, 25, 0);
    SkipKnown(data, 26);
    FirstPassingTaken(data, 27);
  }

  /** None of the first 24 tests compares with a literal that starts with `r`, `t` or `v`. */
  lemma SkipsFirst24(data: string, p: string)
    requires StartsWith(data, p) && |p| > 0 && (p[0] == 'r' || p[0] == 't' || p[0] == 'v')
    ensures FailsBefore(data, 24)
  {
    SkipEight(data, p, 0, 0, 0, 0, 0, 0, 0, 0, 0);
    SkipEight(data, p, 8, 0, 0, 0, 0, 0, 0, 0, 0);
    SkipEight(data, p, 16, 0, 0, 0, 0, 0, 0, 0, 0);
  }

  lemma BranchRemoveAdmin(data: string)
    requires StartsWith(data, "remove_admin_")
    ensures BranchOf(data) == PRemoveAdmin
  {
    var p := "remove_admin_";
    SkipsFirst24(data, p);
    SkipEight(data, p, 24, 0, 0, 0, 0, 0, 0, 0, 0);
    SkipByMismatch(data, p, 32, 0);
    SkipByMismatch(data, p, 33, 0);
    SkipByMismatch(data, p, 34, 0);
    SkipByMismatch(data, p, 35, 0);
    SkipByMismatch(data, p, 36, 0);
    SkipByMismatch(data, p, 37, 0);
    FirstPassingTaken(data, 38);
  }

  lemma ConfirmRemoveAdminSkips0To24(data: string)
    requires StartsWith(data, "confirm_remove_admin_")
    ensures FailsBefore(data, 24)
  {
    var p := "confirm_remove_admin_";
    SkipEight(data, p, 0, 0, 0, 8, 8, 1, 1, 0, 0);
    SkipEight(data, p, 8, 1, 1, 1, 0, 0, 0, 0, 0);
    SkipEight(data, p, 16, 0, 0, 0, 0, 0, 0, 0, 0);
  }

  lemma BranchConfirmRemoveAdmin(data: string)
    requires StartsWith(data, "confirm_remove_admin_")
    ensures BranchOf(data) == PConfirmRemoveAdmin
  {
    var p := "confirm_remove_admin_";
    ConfirmRemoveAdminSkips0To24(data);
    SkipEight(data, p, 24, 0, 0, 0, 0, 0, 0, 0, 1);
    SkipByMismatch(data, p, 32, 1);
    SkipByMismatch(data, p, 33, 1);
    SkipByMismatch(data, p, 34, 1);
    SkipByMismatch(data, p, 35, 1);
    SkipByMismatch(data, p, 36, 1);
    SkipByMismatch(data, p, 37, 0);
    SkipByMismatch(data, p, 38, 0);
    FirstPassingTaken(data, 39);
  }

  lemma BranchTestCategory(data: string)
    requires StartsWith(data, "test_category_")
    ensures BranchOf(data) == PTestCategory
  {
    var p := "test_category_";
    SkipsFirst24(data, p);
    SkipEight(data, p, 24, 0, 0, 0, 0, 0, 0, 0, 0);
    SkipEight(data, p, 32, 0, 0, 0, 0, 0, 0, 0, 0);
    SkipEight(data, p, 40, 0, 0, 1, 1, 0, 0, 0, 5);
    FirstPassingTaken(data, 48);
  }

  lemma BranchTestProduct(data: string)
    requires StartsWith(data, "test_product_")
    ensures BranchOf(data) == PTestProduct
  {
    var p := "test_product_";
    SkipsFirst24(data, p);
    SkipEight(data, p, 24, 0, 0, 0, 0, 0, 0, 0, 0);
    SkipEight(data, p, 32, 0, 0, 0, 0, 0, 0, 0, 0);
    SkipEight(data, p, 40, 0, 0, 1, 1, 0, 0, 0, 8);
    SkipByMismatch(data, p, 48, 5);
    FirstPassingTaken(data, 49);
  }

  lemma BranchViewProduct(data: string)
    requires StartsWith(data, "view_product_")
    ensures BranchOf(data) == PViewProduct
  {
    var p := "view_product_";
    SkipsFirst24(data, p);
    SkipEight(data, p, 24, 0, 0, 5, 5, 0, 0, 0, 0);
    SkipEight(data, p, 32, 0, 0, 0, 0, 0, 0, 0, 0);
    SkipEight(data, p, 40, 0, 0, 0, 0, 0, 0, 0, 0);
    SkipByMismatch(data, p, 48, 0);
    SkipByMismatch(data, p, 49, 0);
    SkipByMismatch(data, p, 50, 0);
    FirstPassingTaken(data, 51);
  }

  lemma DeleteProductSkips0To24(data: string)
    requires StartsWith(data, "delete_product_")
    ensures FailsBefore(data, 24)
  {
    var p := "delete_product_";
    SkipEight(data, p, 0, 0, 7, 0, 0, 0, 0, 0, 0);
    SkipEight(data, p, 8, 0, 0, 0, 0, 0, 0, 0, 0);
    SkipEight(data, p, 16, 0, 0, 0, 0, 0, 0, 0, 0);
  }

  lemma BranchDeleteProduct(data: string)
    requires StartsWith(data, "delete_product_")
    ensures BranchOf(data) == PDeleteProduct
  {
    var p := "delete_product_";
    DeleteProductSkips0To24(data);
    SkipEight(data, p, 24, 0, 0, 0, 0, 0, 0, 0, 0);
    SkipEight(data, p, 32, 0, 0, 0, 0, 0, 0, 0, 0);
    SkipEight(data, p, 40, 0, 0, 0, 0, 0, 0, 0, 0);
    SkipByMismatch(data, p, 48, 0);
    SkipByMismatch(data, p, 49, 0);
    SkipByMismatch(data, p, 50, 0);
    SkipByMismatch(data, p, 51, 0);
    FirstPassingTaken(data, 52);
  }

  // ---------------------------------------------------------------------------
  // Round trips

  lemma NumParts(n: nat)
    ensures '_' !in Num(n)
    ensures PyInt(Num(n)) == Some(n)
  {
    NoUnderscoreInNat(n);
    PyIntOfNat(n);
  }

  lemma ApproveDataShape(productId: nat, discountId: nat)
    ensures StartsWith(ApproveData(productId, discountId), "approve_")
    ensures ApproveData(productId, discountId)[8..] == Num(productId) + "_" + Num(discountId)
  {
    var data := ApproveData(productId, discountId);
    assert data == "approve_" + (Num(productId) + "_" + Num(discountId));
  }

  lemma ParseApprovalOfNums(productId: nat, discountId: nat)
    ensures ParseApproval(Num(productId) + "_" + Num(discountId)) == Some((productId, discountId))
  {
    var p, d := Num(productId), Num(discountId);
    NumParts(productId);
    NumParts(discountId);
    assert Join([p, d]) == p + "_" + d;
    SplitOfJoin([p, d]);
  }

  /** The approve button decodes to the approval branch, whose parse gives back both ids. */
  lemma ApproveRoundTrip(productId: nat, discountId: nat)
    ensures DecodeCallback(ApproveData(productId, discountId)) == Approve(Num(productId) + "_" + Num(discountId))
    ensures ParseApproval(Num(productId) + "_" + Num(discountId)) == Some((productId, discountId))
  {
    ApproveDataShape(productId, discountId);
    BranchApprove(ApproveData(productId, discountId));
    ParseApprovalOfNums(productId, discountId);
  }


  // ---------------------------------------------------------------------------
  // The prefix of each button is its words joined by underscores.

  lemma ViewCategoryProductsWords()
    ensures Join(["view", "category", "products"]) + "_" == "view_category_products_"
    ensures Plain(["view", "category", "products"])
  {
    Join3("view", "category", "products");
  }

  lemma AssignCategoryWords()
    ensures Join(["assign", "category"]) + "_" == "assign_category_"
    ensures Plain(["assign", "category"])
  {
    Join2("assign", "category");
  }

  lemma DeleteCategoryWords()
    ensures Join(["delete", "category"]) + "_" == "delete_category_"
    ensures Plain(["delete", "category"])
  {
    Join2("delete", "category");
  }

  lemma ConfirmDeleteWords()
    ensures Join(["confirm", "delete"]) + "_" == "confirm_delete_"
    ensures Plain(["confirm", "delete"])
  {
    Join2("confirm", "delete");
  }

  lemma ConfirmDeleteProductWords()
    ensures Join(["confirm", "delete", "product"]) + "_" == "confirm_delete_product_"
    ensures Plain(["confirm", "delete", "product"])
  {
    Join3("confirm", "delete", "product");
  }

  lemma ViewProductWords()
    ensures Join(["view", "product"]) + "_" == "view_product_"
    ensures Plain(["view", "product"])
  {
    Join2("view", "product");
  }

  lemma DeleteProductWords()
    ensures Join(["delete", "product"]) + "_" == "delete_product_"
    ensures Plain(["delete", "product"])
  {
    Join2("delete", "product");
  }

  lemma ViewCategoryWords()
    ensures Join(["view", "category"]) + "_" == "view_category_"
    ensures Plain(["view", "category"])
  {
    Join2("view", "category");
  }

  lemma LinkCategoryWords()
    ensures Join(["link", "category"]) + "_" == "link_category_"
    ensures Plain(["link", "category"])
  {
    Join2("link", "category");
  }

  lemma RemoveAdminWords()
    ensures Join(["remove", "admin"]) + "_" == "remove_admin_"
    ensures Plain(["remove", "admin"])
  {
    Join2("remove", "admin");
  }

  lemma ConfirmRemoveAdminWords()
    ensures Join(["confirm", "remove", "admin"]) + "_" == "confirm_remove_admin_"
    ensures Plain(["confirm", "remove", "admin"])
  {
    Join3("confirm", "remove", "admin");
  }

  lemma TestCategoryWords()
    ensures Join(["test", "category"]) + "_" == "test_category_"
    ensures Plain(["test", "category"])
  {
    Join2("test", "category");
  }

  lemma TestProductWords()
    ensures Join(["test", "product"]) + "_" == "test_product_"
    ensures Plain(["test", "product"])
  {
    Join2("test", "product");
  }

  /** A page button decodes to the category and page it was built from. */
  lemma ViewCategoryProductsRoundTrip(categoryId: nat, page: nat)
    ensures DecodeCallback(ViewCategoryProductsData(categoryId, page)) == ViewCategoryProducts(categoryId, page)
  {
    ViewCategoryProductsFields(categoryId, page);
    ViewCategoryProductsBranch(categoryId, page);
  }

  /** A field holding the decimal rendering of a number reads back as that number. */
  lemma FieldIsNum(data: string, k: nat, n: nat)
    requires k < |Split(data, '_')| && Split(data, '_')[k] == Num(n)
    ensures Field(data, k) == Some(n as int)
  {
    NumParts(n);
  }

  lemma ViewCategoryProductsFields(categoryId: nat, page: nat)
    ensures |Split(ViewCategoryProductsData(categoryId, page), '_')| == 5
    ensures Field(ViewCategoryProductsData(categoryId, page), 3) == Some(categoryId as int)
    ensures Field(ViewCategoryProductsData(categoryId, page), 4) == Some(page as int)
  {
    var data := ViewCategoryProductsData(categoryId, page);
    ViewCategoryProductsParsed(categoryId, page);
    FieldIsNum(data, 3, categoryId);
    FieldIsNum(data, 4, page);
  }

  lemma ViewCategoryProductsBranch(categoryId: nat, page: nat)
    ensures BranchOf(ViewCategoryProductsData(categoryId, page)) == PViewCategoryProducts
  {
    var data := ViewCategoryProductsData(categoryId, page);
    assert data[..23] == "view_category_products_";
    BranchViewCategoryProducts(data);
  }

  lemma ViewCategoryProductsParsed(categoryId: nat, page: nat)
    ensures Split(ViewCategoryProductsData(categoryId, page), '_')
         == ["view", "category", "products", Num(categoryId), Num(page)]
  {
    ViewCategoryProductsWords();
    NumParts(categoryId);
    NumParts(page);
    SplitPrefixed2("view_category_products_", ["view", "category", "products"], Num(categoryId), Num(page));
  }

  /** An assignment button decodes to the product and category it was built from. */
  lemma AssignCategoryRoundTrip(productId: nat, categoryId: nat)
    ensures DecodeCallback(AssignCategoryData(productId, categoryId)) == AssignCategory(productId, categoryId)
  {
    AssignCategoryFields(productId, categoryId);
    AssignCategoryBranch(productId, categoryId);
  }

  lemma AssignCategoryFields(productId: nat, categoryId: nat)
    ensures Field(AssignCategoryData(productId, categoryId), 2) == Some(productId as int)
    ensures Field(AssignCategoryData(productId, categoryId), 3) == Some(categoryId as int)
  {
    var data := AssignCategoryData(productId, categoryId);
    AssignCategoryParsed(productId, categoryId);
    FieldIsNum(data, 2, productId);
    FieldIsNum(data, 3, categoryId);
  }

  lemma AssignCategoryBranch(productId: nat, categoryId: nat)
    ensures BranchOf(AssignCategoryData(productId, categoryId)) == PAssignCategory
  {
    var data := AssignCategoryData(productId, categoryId);
    assert data[..16] == "assign_category_";
    BranchAssignCategory(data);
  }

  lemma AssignCategoryParsed(productId: nat, categoryId: nat)
    ensures Split(AssignCategoryData(productId, categoryId), '_')
         == ["assign", "category", Num(productId), Num(categoryId)]
  {
    AssignCategoryWords();
    NumParts(productId);
    NumParts(categoryId);
    SplitPrefixed2("assign_category_", ["assign", "category"], Num(productId), Num(categoryId));
  }

  // The single-id buttons decode to the id they were built from.

  lemma DeleteCategoryRoundTrip(id: nat)
    ensures DecodeCallback(DeleteCategoryData(id)) == DeleteCategory(id)
  {
    DeleteCategoryParsed(id);
    NumParts(id);
    DeleteCategoryBranch(id);
  }

  lemma DeleteCategoryParsed(id: nat)
    ensures Split(DeleteCategoryData(id), '_') == ["delete", "category", Num(id)]
  {
    DeleteCategoryWords();
    NumParts(id);
    SplitPrefixed("delete_category_", ["delete", "category"], Num(id));
  }

  lemma DeleteCategoryBranch(id: nat)
    ensures BranchOf(DeleteCategoryData(id)) == PDeleteCategory
  {
    var data := DeleteCategoryData(id);
    assert data[..16] == "delete_category_";
    BranchDeleteCategory(data);
  }

  lemma ConfirmDeleteRoundTrip(id: nat)
    ensures DecodeCallback(ConfirmDeleteData(id)) == ConfirmDeleteCategory(id)
  {
    ConfirmDeleteParsed(id);
    NumParts(id);
    ConfirmDeleteBranch(id);
  }

  lemma ConfirmDeleteParsed(id: nat)
    ensures Split(ConfirmDeleteData(id), '_') == ["confirm", "delete", Num(id)]
  {
    ConfirmDeleteWords();
    NumParts(id);
    SplitPrefixed("confirm_delete_", ["confirm", "delete"], Num(id));
  }

  lemma ConfirmDeleteBranch(id: nat)
    ensures BranchOf(ConfirmDeleteData(id)) == PConfirmDelete
  {
    var data := ConfirmDeleteData(id);
    assert data[..15] == "confirm_delete_";
    assert data[15] == Num(id)[0];
    assert !StartsWith(data, "confirm_delete_product_") by { assert "confirm_delete_product_"[15] == 'p'; }
    BranchConfirmDelete(data);
  }

  lemma ConfirmDeleteProductRoundTrip(id: nat)
    ensures DecodeCallback(ConfirmDeleteProductData(id)) == ConfirmDeleteProduct(id)
  {
    ConfirmDeleteProductParsed(id);
    NumParts(id);
    ConfirmDeleteProductBranch(id);
  }

  lemma ConfirmDeleteProductParsed(id: nat)
    ensures Split(ConfirmDeleteProductData(id), '_') == ["confirm", "delete", "product", Num(id)]
  {
    ConfirmDeleteProductWords();
    NumParts(id);
    SplitPrefixed("confirm_delete_product_", ["confirm", "delete", "product"], Num(id));
  }

  lemma ConfirmDeleteProductBranch(id: nat)
    ensures BranchOf(ConfirmDeleteProductData(id)) == PConfirmDeleteProduct
  {
    var data := ConfirmDeleteProductData(id);
    assert data[..23] == "confirm_delete_product_";
    BranchConfirmDeleteProduct(data);
  }

  lemma ViewProductRoundTrip(id: nat)
    ensures DecodeCallback(ViewProductData(id)) == ViewProduct(id)
  {
    ViewProductParsed(id);
    NumParts(id);
    ViewProductBranch(id);
  }

  lemma ViewProductParsed(id: nat)
    ensures Split(ViewProductData(id), '_') == ["view", "product", Num(id)]
  {
    ViewProductWords();
    NumParts(id);
    SplitPrefixed("view_product_", ["view", "product"], Num(id));
  }

  lemma ViewProductBranch(id: nat)
    ensures BranchOf(ViewProductData(id)) == PViewProduct
  {
    var data := ViewProductData(id);
    assert data[..13] == "view_product_";
    BranchViewProduct(data);
  }

  lemma DeleteProductRoundTrip(id: nat)
    ensures DecodeCallback(DeleteProductData(id)) == DeleteProduct(id)
  {
    DeleteProductParsed(id);
    NumParts(id);
    DeleteProductBranch(id);
  }

  lemma DeleteProductParsed(id: nat)
    ensures Split(DeleteProductData(id), '_') == ["delete", "product", Num(id)]
  {
    DeleteProductWords();
    NumParts(id);
    SplitPrefixed("delete_product_", ["delete", "product"], Num(id));
  }

  lemma DeleteProductBranch(id: nat)
    ensures BranchOf(DeleteProductData(id)) == PDeleteProduct
  {
    var data := DeleteProductData(id);
    assert data[..15] == "delete_product_";
    BranchDeleteProduct(data);
  }

  lemma ViewCategoryRoundTrip(id: nat)
    ensures DecodeCallback(ViewCategoryData(id)) == ViewCategory(id)
  {
    ViewCategoryParsed(id);
    NumParts(id);
    ViewCategoryBranch(id);
  }

  lemma ViewCategoryParsed(id: nat)
    ensures Split(ViewCategoryData(id), '_') == ["view", "category", Num(id)]
  {
    ViewCategoryWords();
    NumParts(id);
    SplitPrefixed("view_category_", ["view", "category"], Num(id));
  }

  lemma ViewCategoryBranch(id: nat)
    ensures BranchOf(ViewCategoryData(id)) == PViewCategory
  {
    var data := ViewCategoryData(id);
    assert data[..14] == "view_category_";
    assert data[14] == Num(id)[0];
    assert !StartsWith(data, "view_category_products_") by { assert "view_category_products_"[14] == 'p'; }
    BranchViewCategory(data);
  }

  lemma LinkCategoryRoundTrip(id: nat)
    ensures DecodeCallback(LinkCategoryData(id)) == LinkCategory(id)
  {
    LinkCategoryParsed(id);
    NumParts(id);
    LinkCategoryBranch(id);
  }

  lemma LinkCategoryParsed(id: nat)
    ensures Split(LinkCategoryData(id), '_') == ["link", "category", Num(id)]
  {
    LinkCategoryWords();
    NumParts(id);
    SplitPrefixed("link_category_", ["link", "category"], Num(id));
  }

  lemma LinkCategoryBranch(id: nat)
    ensures BranchOf(LinkCategoryData(id)) == PLinkCategory
  {
    var data := LinkCategoryData(id);
    assert data[..14] == "link_category_";
    BranchLinkCategory(data);
  }

  lemma RemoveAdminRoundTrip(id: nat)
    ensures DecodeCallback(RemoveAdminData(id)) == RemoveAdmin(id)
  {
    RemoveAdminParsed(id);
    NumParts(id);
    RemoveAdminBranch(id);
  }

  lemma RemoveAdminParsed(id: nat)
    ensures Split(RemoveAdminData(id), '_') == ["remove", "admin", Num(id)]
  {
    RemoveAdminWords();
    NumParts(id);
    SplitPrefixed("remove_admin_", ["remove", "admin"], Num(id));
  }

  lemma RemoveAdminBranch(id: nat)
    ensures BranchOf(RemoveAdminData(id)) == PRemoveAdmin
  {
    var data := RemoveAdminData(id);
    assert data[..13] == "remove_admin_";
    BranchRemoveAdmin(data);
  }

  lemma ConfirmRemoveAdminRoundTrip(id: nat)
    ensures DecodeCallback(ConfirmRemoveAdminData(id)) == ConfirmRemoveAdmin(id)
  {
    ConfirmRemoveAdminParsed(id);
    NumParts(id);
    ConfirmRemoveAdminBranch(id);
  }

  lemma ConfirmRemoveAdminParsed(id: nat)
    ensures Split(ConfirmRemoveAdminData(id), '_') == ["confirm", "remove", "admin", Num(id)]
  {
    ConfirmRemoveAdminWords();
    NumParts(id);
    SplitPrefixed("confirm_remove_admin_", ["confirm", "remove", "admin"], Num(id));
  }

  lemma ConfirmRemoveAdminBranch(id: nat)
    ensures BranchOf(ConfirmRemoveAdminData(id)) == PConfirmRemoveAdmin
  {
    var data := ConfirmRemoveAdminData(id);
    assert data[..21] == "confirm_remove_admin_";
    BranchConfirmRemoveAdmin(data);
  }

  lemma TestCategoryRoundTrip(id: nat)
    ensures DecodeCallback(TestCategoryData(id)) == TestCategory(id)
  {
    TestCategoryParsed(id);
    NumParts(id);
    TestCategoryBranch(id);
  }

  lemma TestCategoryParsed(id: nat)
    ensures Split(TestCategoryData(id), '_') == ["test", "category", Num(id)]
  {
    TestCategoryWords();
    NumParts(id);
    SplitPrefixed("test_category_", ["test", "category"], Num(id));
  }

  lemma TestCategoryBranch(id: nat)
    ensures BranchOf(TestCategoryData(id)) == PTestCategory
  {
    var data := TestCategoryData(id);
    assert data[..14] == "test_category_";
    BranchTestCategory(data);
  }

  lemma TestProductRoundTrip(id: nat)
    ensures DecodeCallback(TestProductData(id)) == TestProduct(id)
  {
    TestProductParsed(id);
    NumParts(id);
    TestProductBranch(id);
  }

  lemma TestProductParsed(id: nat)
    ensures Split(TestProductData(id), '_') == ["test", "product", Num(id)]
  {
    TestProductWords();
    NumParts(id);
    SplitPrefixed("test_product_", ["test", "product"], Num(id));
  }

  lemma TestProductBranch(id: nat)
    ensures BranchOf(TestProductData(id)) == PTestProduct
  {
    var data := TestProductData(id);
    assert data[..13] == "test_product_";
    BranchTestProduct(data);
  }

  /** Any language name, underscores included, comes back whole from its button (bot.py:410, 5007). */
  lemma SetLanguageRoundTrip(language: string)
    ensures DecodeCallback(SetLanguageData(language)) == SetLanguage(language)
  {
    var data := SetLanguageData(language);
    assert data[..13] == "set_language_";
    BranchSetLanguage(data);
    assert data[13..] == language;
  }

  // ---------------------------------------------------------------------------
  // Order of the prefix tests

  /**
   * `confirm_delete_product_` must be tested before `confirm_delete_`: its buttons
   * also start with the shorter prefix, whose parse of field 2 (`product`) would raise.
   */
  lemma ConfirmDeleteProductNeedsOrder(id: nat)
    ensures StartsWith(ConfirmDeleteProductData(id), "confirm_delete_")
    ensures Field(ConfirmDeleteProductData(id), 2) == None
  {
    var data := ConfirmDeleteProductData(id);
    assert data[..15] == "confirm_delete_";
    ConfirmDeleteProductParsed(id);
    PyIntOfWord("product");
  }

  /**
   * `view_category_products_` must be tested before `view_category_`: its buttons
   * also start with the shorter prefix, whose parse of field 2 (`products`) fails.
   */
  lemma ViewCategoryProductsNeedsOrder(categoryId: nat, page: nat)
    ensures StartsWith(ViewCategoryProductsData(categoryId, page), "view_category_")
    ensures |Split(ViewCategoryProductsData(categoryId, page), '_')| >= 3
    ensures Field(ViewCategoryProductsData(categoryId, page), 2) == None
  {
    var data := ViewCategoryProductsData(categoryId, page);
    assert data[..14] == "view_category_";
    ViewCategoryProductsParsed(categoryId, page);
    PyIntOfWord("products");
  }

  /** A payload whose first field is not a Python integer makes the approval parse fail. */
  lemma ParseApprovalRejectsWord(w: string, rest: string)
    requires '_' !in w && PyInt(w).None?
    ensures ParseApproval(w + "_" + rest) == None
  {
    assert w + "_" + rest == w + ['_'] + rest;
    SplitJoin(w, rest, '_');
  }
}
