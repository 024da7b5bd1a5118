/**
 * The remote persistence service behind `database.py`, seen by the bot as one
 * value, and the chat platform's record of what the bot has posted. Every call
 * of the service is taken to succeed; a lookup of a missing product raises
 * (the service answers 404 with "Risorsa non trovata", which the "not found"
 * checks of database.py:193-212 never match).
 */
module Store {
  import opened Text
  import opened Affiliate

  datatype Product = Product(
    id: nat,
    url: string,
    title: Option<string>,
    imageUrl: Option<string>,
    categoryId: Option<nat>)

  /** A category; a missing group link is "". */
  datatype Category = Category(name: string, telegramLink: string)

  datatype DiscountRecord = DiscountRecord(
    id: nat,
    productId: nat,
    percentage: nat,
    originalPrice: string,
    discountedPrice: string)

  datatype CronConfig = CronConfig(
    checkInterval: int,
    productDelay: int,
    isActive: bool,
    lastRun: Option<int>,
    createdBy: nat)

  datatype ChannelConfig = ChannelConfig(link: string, isActive: bool)

  /** An approval record; the service keys it by the id of the review post it belongs to. */
  datatype Approval = Approval(
    productId: nat,
    discountId: nat,
    isApproved: bool,
    approvedBy: Option<nat>,
    improved: Option<string>)

  datatype Store = Store(
    products: seq<Product>,
    categories: map<nat, Category>,
    discounts: seq<DiscountRecord>,
    approvals: map<nat, Approval>,
    cron: Option<CronConfig>,
    channel: Option<ChannelConfig>,
    autoApproval: bool,
    affiliate: Option<AffiliateConfig>)

  /** The text of a post: the AI's text, or the standard group text with only the title filled in. */
  datatype Body = Improved(text: string) | StandardGroup(escapedTitle: string)

  datatype Button = ApproveButton(data: string) | UrlButton(url: string)

  datatype Post = Post(chat: string, body: Body, buttons: seq<Button>, photo: Option<string>)

  /** The service together with the posts made so far; post `k` has message id `k + 1`. */
  datatype World = World(store: Store, sent: seq<Post>)

  /** `get_product_by_id`: the first product with that id. */
  function FindProduct(ps: seq<Product>, id: nat): (r: Option<Product>)
    ensures r.Some? ==> r.value in ps && r.value.id == id
    ensures r.None? ==> forall k :: 0 <= k < |ps| ==> ps[k].id != id
  {
    if ps == [] then None
    else if ps[0].id == id then Some(ps[0])
    else FindProduct(ps[1..], id)
  }

  /** `get_latest_discount_for_product`: the last discount recorded for the product. */
  function LatestDiscount(ds: seq<DiscountRecord>, productId: nat): (r: Option<DiscountRecord>)
    ensures r.Some? ==> r.value in ds && r.value.productId == productId
    ensures r.None? ==> forall k :: 0 <= k < |ds| ==> ds[k].productId != productId
  {
    if ds == [] then None
    else if ds[|ds| - 1].productId == productId then Some(ds[|ds| - 1])
    else LatestDiscount(ds[..|ds| - 1], productId)
  }

  /** The discount just appended is the product's latest. */
  lemma LatestAfterAppend(ds: seq<DiscountRecord>, d: DiscountRecord)
    ensures LatestDiscount(ds + [d], d.productId) == Some(d)
  {
  }

  /** `update_product_details` with a title: every product with that id gets it. */
  function SetTitle(ps: seq<Product>, id: nat, title: string): (r: seq<Product>)
    ensures |r| == |ps|
    ensures forall k :: 0 <= k < |ps| ==> r[k] == if ps[k].id == id then ps[k].(title := Some(title)) else ps[k]
  {
    seq(|ps|, k requires 0 <= k < |ps| => if ps[k].id == id then ps[k].(title := Some(title)) else ps[k])
  }

  /** `update_product_details` with an image URL. */
  function SetImage(ps: seq<Product>, id: nat, url: string): (r: seq<Product>)
    ensures |r| == |ps|
    ensures forall k :: 0 <= k < |ps| ==> r[k] == if ps[k].id == id then ps[k].(imageUrl := Some(url)) else ps[k]
  {
    seq(|ps|, k requires 0 <= k < |ps| => if ps[k].id == id then ps[k].(imageUrl := Some(url)) else ps[k])
  }

  /** The category name the product listing joins in, when the category exists. */
  function CategoryName(s: Store, p: Product): Option<string> {
    if p.categoryId.Some? && p.categoryId.value in s.categories then Some(s.categories[p.categoryId.value].name)
    else None
  }

  /** The photo a post carries: the image URL when it is present and not empty. */
  function Photo(imageUrl: Option<string>): Option<string> {
    if imageUrl.Some? && imageUrl.value != "" then imageUrl else None
  }
}
