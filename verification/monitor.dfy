/**
 * One pass of `price_monitoring_loop` (bot.py:2854-2952): the product list is
 * read once, each product is scraped in turn, its title and image are
 * refreshed, and a discount whose data the service reports as changed is
 * recorded and sent for review; at the end the run is stamped. A call to the
 * backend service that raises abandons the pass without the stamp
 * (bot.py:2947-2949).
 */
module Monitor {
  import opened Text
  import opened Store
  import opened Extraction
  import opened Review
  import opened ChatLink
  import opened Callback

  /** What fetching a product page gives: an error, or the page's located fields. */
  datatype Fetch = FetchError | Fetched(page: Located)

  /**
   * What the pass cannot see: the product pages, the service's answer to
   * `discount_data_changed`, the AI rewrite, the time of the stamp, and the
   * current language's text for `prodotto_amazon`, which a page without a
   * title is given as its title.
   */
  datatype Env = Env(
    fetch: string -> Fetch,
    changed: (nat, nat, string, string) -> bool,
    ai: Draft -> AiReply,
    now: int,
    defaultTitle: string)

  /** `scrape_amazon_product`: None where the result carries an `error` key. */
  function Scrape(env: Env, url: string): Option<Scraped> {
    match env.fetch(url)
    case FetchError => None
    case Fetched(page) => Some(Extract(page, env.defaultTitle))
  }

  /** The scraped title is written when it is not empty and differs from the listed one. */
  predicate NewTitle(p: Product, sc: Scraped) {
    sc.title != "" && p.title != Some(sc.title)
  }

  predicate NewImage(p: Product, sc: Scraped) {
    sc.imageUrl.Some? && sc.imageUrl.value != "" && p.imageUrl != sc.imageUrl
  }

  function Refresh(s: Store, p: Product, sc: Scraped): Store {
    var s1 := if NewTitle(p, sc) then s.(products := SetTitle(s.products, p.id, sc.title)) else s;
    if NewImage(p, sc) then s1.(products := SetImage(s1.products, p.id, sc.imageUrl.value)) else s1
  }

  /** The discount the pass records for `p`, if the page shows one and the service reports it as new. */
  function NewDiscount(s: Store, env: Env, p: Product, sc: Scraped): Option<DiscountRecord> {
    match sc.discount
    case None => None
    case Some(dc) =>
      if env.changed(p.id, dc.percentage, dc.originalPrice, dc.discountedPrice)
      then Some(DiscountRecord(|s.discounts| + 1, p.id, dc.percentage, dc.originalPrice, dc.discountedPrice))
      else None
  }

  /** The body of the loop for one product of the list read at the start of the pass. */
  function ProductStep(w: World, env: Env, p: Product): World {
    match Scrape(env, p.url)
    case None => w
    case Some(sc) =>
      var s1 := Refresh(w.store, p, sc);
      match NewDiscount(s1, env, p, sc)
      case None => w.(store := s1)
      case Some(rec) =>
        var title := if NewTitle(p, sc) then Some(sc.title) else p.title;
        var image := if NewImage(p, sc) then sc.imageUrl else p.imageUrl;
        Notify(World(s1.(discounts := s1.discounts + [rec]), w.sent), env.ai, p.id, rec.id,
               NotifyData(title, image, p.url, CategoryName(w.store, p), rec.percentage, rec.originalPrice, rec.discountedPrice))
  }

  /** The products of `ps` processed one after the other. */
  function Steps(w: World, env: Env, ps: seq<Product>): World
    decreases |ps|
  {
    if ps == [] then w else ProductStep(Steps(w, env, ps[..|ps| - 1]), env, ps[|ps| - 1])
  }

  /** `update_cronjob_last_run`. */
  function StampLastRun(s: Store, now: int): (r: Store)
    ensures s.cron.Some? ==> r.cron == Some(s.cron.value.(lastRun := Some(now)))
    ensures r.(cron := s.cron) == s
  {
    match s.cron
    case None => s
    case Some(c) => s.(cron := Some(c.(lastRun := Some(now))))
  }

  datatype PassOutcome =
    | NotRunning   // the loop's condition is false
    | Disabled     // no configuration, or not active: the loop is left
    | Completed    // every product was processed
    | Stopped      // the flag was cleared during the pass
    | Failed       // a call to the backend service raised; the rest of the pass and the stamp are skipped

  /** How many products are processed when the stop request is seen before product `stop`. */
  function Processed(n: nat, stop: Option<nat>): (k: nat)
    ensures k <= n
    ensures stop.None? ==> k == n
    ensures stop.Some? ==> k == if stop.value < n then stop.value else n
  {
    if stop.Some? && stop.value < n then stop.value else n
  }

  /**
   * Whether the backend raises during the pass: `fault` is the number of
   * products handled before the failing call, which is the first call for the
   * next product or, once the loop is over, the stamp itself.
   */
  predicate Faults(n: nat, stop: Option<nat>, fault: Option<nat>) {
    fault.Some? && fault.value <= Processed(n, stop)
  }

  /**
   * One turn of the loop, with `running` the flag at its head, `stop` the
   * place where another thread's stop request is first seen (None: not
   * during this pass) and `fault` the place where a backend call raises
   * (None: no call does); gives the new world, the flag afterwards and the outcome.
   */
  function Pass(w: World, env: Env, running: bool, stop: Option<nat>, fault: Option<nat>): (World, bool, PassOutcome) {
    if !running then (w, false, NotRunning)
    else if w.store.cron.None? || !w.store.cron.value.isActive then (w, false, Disabled)
    else
      var ps := w.store.products;
      var n := Processed(|ps|, stop);
      if Faults(|ps|, stop, fault) then
        // the handler logs, waits and leaves the flag as it is
        (Steps(w, env, ps[..fault.value]), fault.value < n || stop.None?, Failed)
      else
        var r := Steps(w, env, ps[..n]);
        (r.(store := StampLastRun(r.store, env.now)), stop.None?, if stop.None? then Completed else Stopped)
  }

  // ---------------------------------------------------------------------------
  // One product

  /** A product whose page cannot be fetched is skipped: nothing changes. */
  lemma FetchErrorSkips(w: World, env: Env, p: Product)
    requires env.fetch(p.url) == FetchError
    ensures ProductStep(w, env, p) == w
  {
  }

  /** The discounts a step leaves: the old ones, then the new one if any. */
  function AfterStep(ds: seq<DiscountRecord>, added: Option<DiscountRecord>): (r: seq<DiscountRecord>)
    ensures |ds| <= |r| <= |ds| + 1 && r[..|ds|] == ds
  {
    if added.Some? then ds + [added.value] else ds
  }

  /**
   * What a step that fetched its page does: the refreshed store with the new
   * discount appended, approval records aside, and posts only appended.
   */
  lemma StepShape(w: World, env: Env, p: Product, sc: Scraped)
    requires Scrape(env, p.url) == Some(sc)
    ensures var r := ProductStep(w, env, p);
      var s1 := Refresh(w.store, p, sc);
      r.store == s1.(discounts := AfterStep(s1.discounts, NewDiscount(s1, env, p, sc)), approvals := r.store.approvals)
      && |r.sent| >= |w.sent| && r.sent[..|w.sent|] == w.sent
  {
    var s1 := Refresh(w.store, p, sc);
    match NewDiscount(s1, env, p, sc)
    case None =>
      assert w.sent[..|w.sent|] == w.sent;
    case Some(rec) =>
      var title := if NewTitle(p, sc) then Some(sc.title) else p.title;
      var image := if NewImage(p, sc) then sc.imageUrl else p.imageUrl;
      NotifyKeeps(World(s1.(discounts := s1.discounts + [rec]), w.sent), env.ai, p.id, rec.id,
        NotifyData(title, image, p.url, CategoryName(w.store, p), rec.percentage, rec.originalPrice, rec.discountedPrice));
  }

  /**
   * A product step changes only products, discounts and approval records,
   * keeps the product list's length, grows the discount list by at most the
   * new discount, and only appends posts.
   */
  lemma ProductStepKeeps(w: World, env: Env, p: Product)
    ensures Grows(w, ProductStep(w, env, p))
    ensures |ProductStep(w, env, p).store.discounts| <= |w.store.discounts| + 1
  {
    match Scrape(env, p.url)
    case None =>
      assert w.store.discounts[..|w.store.discounts|] == w.store.discounts;
      assert w.sent[..|w.sent|] == w.sent;
    case Some(sc) =>
      StepShape(w, env, p, sc);
  }

  /**
   * Titles: after scraping `p`, every listed product with `p`'s id carries the
   * scraped title when it is new and non-empty; every other title is kept.
   */
  lemma TitleRefresh(w: World, env: Env, p: Product, sc: Scraped)
    requires Scrape(env, p.url) == Some(sc)
    ensures var r := ProductStep(w, env, p);
      |r.store.products| == |w.store.products|
      && forall k :: 0 <= k < |w.store.products| ==>
           r.store.products[k].title
             == if w.store.products[k].id == p.id && NewTitle(p, sc) then Some(sc.title) else w.store.products[k].title
  {
    StepShape(w, env, p, sc);
  }

  /**
   * A page without a title gives the default title, which then replaces a
   * stored title that differs from it, provided the default is not empty.
   */
  lemma TitlelessPageWritesDefault(w: World, env: Env, p: Product, page: Located)
    requires env.fetch(p.url) == Fetched(page) && page.title.None?
    requires env.defaultTitle != "" && p.title != Some(env.defaultTitle)
    ensures var r := ProductStep(w, env, p);
      |r.store.products| == |w.store.products|
      && forall k :: 0 <= k < |w.store.products| && w.store.products[k].id == p.id ==>
           r.store.products[k].title == Some(env.defaultTitle)
  {
    var sc := Extract(page, env.defaultTitle);
    assert sc.title == env.defaultTitle;
    TitleRefresh(w, env, p, sc);
  }

  /** Images: the same rule as titles, for a scraped image URL that is present and not empty. */
  lemma ImageRefresh(w: World, env: Env, p: Product, sc: Scraped)
    requires Scrape(env, p.url) == Some(sc)
    ensures var r := ProductStep(w, env, p);
      |r.store.products| == |w.store.products|
      && forall k :: 0 <= k < |w.store.products| ==>
           r.store.products[k].imageUrl
             == if w.store.products[k].id == p.id && NewImage(p, sc) then sc.imageUrl else w.store.products[k].imageUrl
  {
    StepShape(w, env, p, sc);
  }

  /**
   * A discount is recorded exactly when the page shows one and the service
   * reports its data as changed; it is then the product's latest discount,
   * with the scraped percentage and prices.
   */
  lemma DiscountRecorded(w: World, env: Env, p: Product, sc: Scraped)
    requires Scrape(env, p.url) == Some(sc)
    ensures var r := ProductStep(w, env, p);
      (|r.store.discounts| == |w.store.discounts| + 1 <==>
         sc.discount.Some?
         && env.changed(p.id, sc.discount.value.percentage, sc.discount.value.originalPrice, sc.discount.value.discountedPrice))
    ensures var r := ProductStep(w, env, p);
      |r.store.discounts| == |w.store.discounts| + 1 ==>
        LatestDiscount(r.store.discounts, p.id)
          == Some(DiscountRecord(|w.store.discounts| + 1, p.id, sc.discount.value.percentage,
                                 sc.discount.value.originalPrice, sc.discount.value.discountedPrice))
  {
    StepShape(w, env, p, sc);
    var s1 := Refresh(w.store, p, sc);
    match NewDiscount(s1, env, p, sc)
    case None =>
    case Some(rec) =>
      LatestAfterAppend(s1.discounts, rec);
  }

  /** A step that records no discount posts nothing and writes no approval record. */
  lemma NoDiscountNoPost(w: World, env: Env, p: Product)
    ensures var r := ProductStep(w, env, p);
      |r.store.discounts| == |w.store.discounts| ==> r.sent == w.sent && r.store.approvals == w.store.approvals
  {
    match Scrape(env, p.url)
    case None =>
    case Some(sc) =>
      DiscountRecorded(w, env, p, sc);
      var s1 := Refresh(w.store, p, sc);
      if NewDiscount(s1, env, p, sc).None? {
        assert ProductStep(w, env, p) == w.(store := s1);
      }
  }

  /**
   * A recorded discount is sent for review with the title and image as just
   * refreshed, the product's URL and category name, and the scraped
   * percentage and prices; the review sees the store with the discount added.
   */
  lemma DiscountNotified(w: World, env: Env, p: Product, sc: Scraped)
    requires Scrape(env, p.url) == Some(sc) && sc.discount.Some?
    requires env.changed(p.id, sc.discount.value.percentage, sc.discount.value.originalPrice, sc.discount.value.discountedPrice)
    ensures var dc := sc.discount.value;
      var rec := DiscountRecord(|w.store.discounts| + 1, p.id, dc.percentage, dc.originalPrice, dc.discountedPrice);
      var s1 := Refresh(w.store, p, sc);
      ProductStep(w, env, p)
        == Notify(World(s1.(discounts := w.store.discounts + [rec]), w.sent), env.ai, p.id, |w.store.discounts| + 1,
                  NotifyData(if NewTitle(p, sc) then Some(sc.title) else p.title,
                             if NewImage(p, sc) then sc.imageUrl else p.imageUrl,
                             p.url, CategoryName(w.store, p), dc.percentage, dc.originalPrice, dc.discountedPrice))
  {
  }

  /**
   * From detection to review: when a step records a discount, the review
   * channel is active, the product has a title and a category, and the AI
   * rewrites this step's draft, the next post goes to the review channel and carries an
   * approve button for this product and the new discount exactly when
   * auto-approval is off.
   */
  lemma DiscountReachesReview(w: World, env: Env, p: Product, sc: Scraped)
    requires Scrape(env, p.url) == Some(sc) && sc.discount.Some?
    requires env.changed(p.id, sc.discount.value.percentage, sc.discount.value.originalPrice, sc.discount.value.discountedPrice)
    requires w.store.channel.Some? && w.store.channel.value.isActive
    requires p.title.Some? || NewTitle(p, sc)
    requires CategoryName(w.store, p).Some?
    requires env.ai(Draft(if NewTitle(p, sc) then sc.title else p.title.value, CategoryName(w.store, p).value,
                          sc.discount.value.percentage, sc.discount.value.originalPrice,
                          sc.discount.value.discountedPrice)).Rewritten?
    ensures var r := ProductStep(w, env, p);
      |r.sent| > |w.sent|
      && r.sent[|w.sent|].chat == ConvertChannelLink(w.store.channel.value.link)
      && (ApproveButton(ApproveData(p.id, |w.store.discounts| + 1)) in r.sent[|w.sent|].buttons <==> !w.store.autoApproval)
  {
    var dc := sc.discount.value;
    var rec := DiscountRecord(|w.store.discounts| + 1, p.id, dc.percentage, dc.originalPrice, dc.discountedPrice);
    var s1 := Refresh(w.store, p, sc);
    var d := NotifyData(if NewTitle(p, sc) then Some(sc.title) else p.title,
                        if NewImage(p, sc) then sc.imageUrl else p.imageUrl,
                        p.url, CategoryName(w.store, p), dc.percentage, dc.originalPrice, dc.discountedPrice);
    var w1 := World(s1.(discounts := w.store.discounts + [rec]), w.sent);
    DiscountNotified(w, env, p, sc);
    assert Posts(w1, env.ai, d);
    ReviewPostShape(w1, env.ai, p.id, |w.store.discounts| + 1, d);
  }

  // ---------------------------------------------------------------------------
  // A whole pass

  /**
   * `r` follows `w` within a pass: only products, discounts and approval
   * records differ, the product list keeps its length, and discounts and
   * posts are only appended.
   */
  predicate Grows(w: World, r: World) {
    r.store == w.store.(products := r.store.products, discounts := r.store.discounts, approvals := r.store.approvals)
    && |r.store.products| == |w.store.products|
    && |w.store.discounts| <= |r.store.discounts| && r.store.discounts[..|w.store.discounts|] == w.store.discounts
    && |w.sent| <= |r.sent| && r.sent[..|w.sent|] == w.sent
  }

  lemma GrowsTrans(a: World, b: World, c: World)
    requires Grows(a, b) && Grows(b, c)
    ensures Grows(a, c)
  {
    assert c.store.discounts[..|a.store.discounts|] == c.store.discounts[..|b.store.discounts|][..|a.store.discounts|];
    assert c.sent[..|a.sent|] == c.sent[..|b.sent|][..|a.sent|];
  }

  /** Processing a list of products keeps every configuration and the categories, and only appends. */
  lemma {:induction false} StepsKeeps(w: World, env: Env, ps: seq<Product>)
    ensures Grows(w, Steps(w, env, ps))
    decreases |ps|
  {
    if ps == [] {
      assert w.store.discounts[..|w.store.discounts|] == w.store.discounts;
      assert w.sent[..|w.sent|] == w.sent;
    } else {
      var m := Steps(w, env, ps[..|ps| - 1]);
      StepsKeeps(w, env, ps[..|ps| - 1]);
      ProductStepKeeps(m, env, ps[|ps| - 1]);
      GrowsTrans(w, m, ProductStep(m, env, ps[|ps| - 1]));
    }
  }

  /** The ids of a list of products. */
  function IdsOf(ps: seq<Product>): (r: set<nat>)
    ensures forall k :: 0 <= k < |ps| ==> ps[k].id in r
  {
    set p | p in ps :: p.id
  }

  lemma IdsOfPrefix(ps: seq<Product>, n: nat)
    requires n <= |ps|
    ensures IdsOf(ps[..n]) <= IdsOf(ps)
  {
    forall x | x in IdsOf(ps[..n]) ensures x in IdsOf(ps) {
      var p :| p in ps[..n] && p.id == x;
      assert p in ps;
    }
  }

  /** Every discount a list of product steps appends belongs to one of the listed products. */
  lemma {:induction false} StepsDiscountsOwned(w: World, env: Env, ps: seq<Product>)
    ensures forall j :: |w.store.discounts| <= j < |Steps(w, env, ps).store.discounts| ==>
              Steps(w, env, ps).store.discounts[j].productId in IdsOf(ps)
    decreases |ps|
  {
    if ps != [] {
      var init, p := ps[..|ps| - 1], ps[|ps| - 1];
      var m := Steps(w, env, init);
      StepsKeeps(w, env, init);
      StepsDiscountsOwned(w, env, init);
      ProductStepKeeps(m, env, p);
      DiscountOfStep(m, env, p);
      IdsOfPrefix(ps, |ps| - 1);
      var r := ProductStep(m, env, p);
      forall j | |w.store.discounts| <= j < |r.store.discounts|
        ensures r.store.discounts[j].productId in IdsOf(ps)
      {
        if j < |m.store.discounts| {
          assert r.store.discounts[j] == r.store.discounts[..|m.store.discounts|][j] == m.store.discounts[j];
          assert m.store.discounts[j].productId in IdsOf(init);
        } else {
          assert j == |m.store.discounts|;
          assert r.store.discounts[j].productId == p.id;
          assert p.id in IdsOf(ps);
        }
      }
    }
  }

  /** A discount appended by a product step is that product's. */
  lemma DiscountOfStep(w: World, env: Env, p: Product)
    ensures var r := ProductStep(w, env, p);
      |r.store.discounts| > |w.store.discounts| ==> r.store.discounts[|w.store.discounts|].productId == p.id
  {
    match Scrape(env, p.url)
    case None =>
    case Some(sc) =>
      DiscountRecorded(w, env, p, sc);
      var s1 := Refresh(w.store, p, sc);
      match NewDiscount(s1, env, p, sc)
      case None =>
      case Some(rec) =>
        var title := if NewTitle(p, sc) then Some(sc.title) else p.title;
        var image := if NewImage(p, sc) then sc.imageUrl else p.imageUrl;
        NotifyKeeps(World(s1.(discounts := s1.discounts + [rec]), w.sent), env.ai, p.id, rec.id,
          NotifyData(title, image, p.url, CategoryName(w.store, p), rec.percentage, rec.originalPrice, rec.discountedPrice));
  }

  /** With the flag already cleared the loop body does not run. */
  lemma PassNotRunning(w: World, env: Env, stop: Option<nat>, fault: Option<nat>)
    ensures Pass(w, env, false, stop, fault) == (w, false, NotRunning)
  {
  }

  /** Without an active configuration the loop is left, the flag is cleared and nothing is written. */
  lemma PassDisabled(w: World, env: Env, stop: Option<nat>, fault: Option<nat>)
    requires w.store.cron.None? || !w.store.cron.value.isActive
    ensures Pass(w, env, true, stop, fault) == (w, false, Disabled)
  {
  }

  /**
   * An active pass in which no backend call raises stamps the run even when
   * it was stopped part-way, keeps the flag exactly when nobody stopped it,
   * keeps every configuration, and every discount it records belongs to a
   * product before the stop point.
   */
  lemma PassStamps(w: World, env: Env, stop: Option<nat>, fault: Option<nat>)
    requires w.store.cron.Some? && w.store.cron.value.isActive
    requires !Faults(|w.store.products|, stop, fault)
    ensures var (r, running, outcome) := Pass(w, env, true, stop, fault);
      r.store.cron == Some(w.store.cron.value.(lastRun := Some(env.now)))
      && r.store.channel == w.store.channel && r.store.categories == w.store.categories
      && r.store.autoApproval == w.store.autoApproval && r.store.affiliate == w.store.affiliate
      && (running <==> stop.None?)
      && (outcome == Completed <==> stop.None?) && (outcome == Stopped <==> stop.Some?)
      && |w.store.discounts| <= |r.store.discounts| && r.store.discounts[..|w.store.discounts|] == w.store.discounts
      && |w.sent| <= |r.sent| && r.sent[..|w.sent|] == w.sent
      && forall j :: |w.store.discounts| <= j < |r.store.discounts| ==>
           r.store.discounts[j].productId in IdsOf(w.store.products[..Processed(|w.store.products|, stop)])
  {
    var ps := w.store.products;
    var n := Processed(|ps|, stop);
    var m := Steps(w, env, ps[..n]);
    StepsKeeps(w, env, ps[..n]);
    StepsDiscountsOwned(w, env, ps[..n]);
    var s := StampLastRun(m.store, env.now);
    assert s.discounts == m.store.discounts;
    forall j | |w.store.discounts| <= j < |s.discounts| ensures s.discounts[j].productId in IdsOf(ps[..n]) {
      assert s.discounts[j] == m.store.discounts[j];
    }
  }

  /**
   * A pass in which a backend call raises after `k` products handles exactly
   * those products, writes no stamp, and keeps the flag set unless the stop
   * request had already been seen; every discount it records belongs to one
   * of those products.
   */
  lemma PassFails(w: World, env: Env, stop: Option<nat>, k: nat)
    requires w.store.cron.Some? && w.store.cron.value.isActive
    requires Faults(|w.store.products|, stop, Some(k))
    ensures var (r, running, outcome) := Pass(w, env, true, stop, Some(k));
      outcome == Failed
      && r.store.cron == w.store.cron
      && Grows(w, r)
      && (running <==> k < Processed(|w.store.products|, stop) || stop.None?)
      && forall j :: |w.store.discounts| <= j < |r.store.discounts| ==>
           r.store.discounts[j].productId in IdsOf(w.store.products[..k])
  {
    var ps := w.store.products;
    StepsKeeps(w, env, ps[..k]);
    StepsDiscountsOwned(w, env, ps[..k]);
  }
}
