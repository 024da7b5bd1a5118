/**
 * The review and approval state machine: `send_discount_notification`
 * (bot.py:3891-4044) posts a detected discount to the review channel and
 * records it, `approve_discount_notification` (bot.py:4046-4202) approves a
 * record once, and `send_approved_message_to_group` (bot.py:4204-4294) decides
 * what is published to the category's group. The AI rewrite is an oracle.
 */
module Review {
  import opened Text
  import opened ChatLink
  import opened Affiliate
  import opened Escape
  import opened Callback
  import opened Store

  /** What the bot knows about the discount it reports. */
  datatype NotifyData = NotifyData(
    title: Option<string>,
    imageUrl: Option<string>,
    url: string,
    categoryName: Option<string>,
    percentage: nat,
    originalPrice: string,
    discountedPrice: string)

  /** The values the plain draft handed to the AI is built from. */
  datatype Draft = Draft(title: string, categoryName: string, percentage: nat, originalPrice: string, discountedPrice: string)

  /** The AI's answer: the draft itself (also when the AI is off or fails), or a different text. */
  datatype AiReply = Unchanged | Rewritten(text: string)

  // ---------------------------------------------------------------------------
  // Publishing to the category group

  /** The post `send_approved_message_to_group` makes for a product, if any. */
  function GroupPost(s: Store, p: Product, improved: Option<string>): Option<Post> {
    if p.categoryId.None? || p.categoryId.value !in s.categories then None
    else
      var cat := s.categories[p.categoryId.value];
      if cat.telegramLink == "" then None
      else
        var body := if improved.Some? && improved.value != "" then Improved(improved.value)
                    else StandardGroup(EscapeHtml(p.title));
        Some(Post(ConvertChannelLink(cat.telegramLink), body, [UrlButton(AddAffiliateTag(p.url, s.affiliate))], Photo(p.imageUrl)))
  }

  function Publish(w: World, p: Product, improved: Option<string>): World {
    match GroupPost(w.store, p, improved)
    case None => w
    case Some(post) => w.(sent := w.sent + [post])
  }

  /**
   * A product is published exactly when its category exists and has a group link;
   * then one post goes to that group, the store is untouched, and the purchase
   * button leads to the product's URL with the affiliate tag when one applies.
   */
  lemma PublishDecision(w: World, p: Product, improved: Option<string>)
    ensures Publish(w, p, improved).store == w.store
    ensures var r := Publish(w, p, improved);
      (|r.sent| == |w.sent| + 1 <==>
        p.categoryId.Some? && p.categoryId.value in w.store.categories
        && w.store.categories[p.categoryId.value].telegramLink != "")
    ensures var r := Publish(w, p, improved);
      |r.sent| == |w.sent| + 1 ==>
        var post := r.sent[|w.sent|];
        r.sent[..|w.sent|] == w.sent
        && post.chat == ConvertChannelLink(w.store.categories[p.categoryId.value].telegramLink)
        && post.buttons == [UrlButton(AddAffiliateTag(p.url, w.store.affiliate))]
        && StartsWith(post.buttons[0].url, p.url)
        && (post.body.Improved? <==> improved.Some? && improved.value != "")
        && (post.body.StandardGroup? ==> post.body.escapedTitle == EscapeHtml(p.title))
  {
    UrlIsPrefix(p.url, w.store.affiliate);
    var r := Publish(w, p, improved);
    if |r.sent| == |w.sent| + 1 {
      assert r.sent[..|w.sent|] == w.sent;
    }
  }

  // ---------------------------------------------------------------------------
  // Sending a discount to the review channel

  function DraftOf(d: NotifyData): Draft
    requires d.title.Some? && d.categoryName.Some?
  {
    Draft(d.title.value, d.categoryName.value, d.percentage, d.originalPrice, d.discountedPrice)
  }

  /** The buttons of a review post: approve (only without auto-approval), then purchase. */
  function ReviewButtons(s: Store, productId: nat, discountId: nat, url: string): seq<Button> {
    (if s.autoApproval then [] else [ApproveButton(ApproveData(productId, discountId))])
    + [UrlButton(AddAffiliateTag(url, s.affiliate))]
  }

  /** `approve_message`: the record under `msgId` becomes approved by `approver`. */
  function Stamp(w: World, msgId: nat, approver: nat): (r: World)
    requires msgId in w.store.approvals
    ensures r.sent == w.sent && msgId in r.store.approvals
    ensures r.store.approvals[msgId].isApproved && r.store.approvals[msgId].approvedBy == Some(approver)
    ensures r.store.products == w.store.products && r.store.discounts == w.store.discounts
  {
    var rec := w.store.approvals[msgId];
    w.(store := w.store.(approvals := w.store.approvals[msgId := rec.(isApproved := true, approvedBy := Some(approver))]))
  }

  datatype ApproveOutcome =
    | BadData            // the ids do not parse: the handler answers with an internal error
    | RecordNotFound
    | AlreadyApproved
    | ProductMissing     // the lookup raises: internal error
    | DiscountMissing
    | Approved

  /**
   * What follows an approval: the product is looked up (a missing one raises)
   * and published when it has a discount on record.
   */
  function PublishLatest(w: World, productId: int, improved: Option<string>): (World, ApproveOutcome) {
    if productId < 0 then (w, ProductMissing)
    else match FindProduct(w.store.products, productId)
      case None => (w, ProductMissing)
      case Some(p) =>
        if LatestDiscount(w.store.discounts, productId).None? then (w, DiscountMissing)
        else (Publish(w, p, improved), Approved)
  }

  /** Publishing after an approval leaves the service untouched and only appends posts. */
  lemma PublishLatestKeeps(w: World, productId: int, improved: Option<string>)
    ensures var (r, outcome) := PublishLatest(w, productId, improved);
      r.store == w.store && |r.sent| >= |w.sent| && r.sent[..|w.sent|] == w.sent
      && (outcome == ProductMissing || outcome == DiscountMissing || outcome == Approved)
  {
    var (r, outcome) := PublishLatest(w, productId, improved);
    if outcome == Approved {
      PublishDecision(w, FindProduct(w.store.products, productId).value, improved);
    }
    assert r.sent[..|w.sent|] == w.sent;
  }

  /** Automatic approval: the record is approved by 0, then the product is published with its latest discount. */
  function AutoApprove(w: World, msgId: nat, productId: nat, improved: Option<string>): World
    requires msgId in w.store.approvals
  {
    PublishLatest(Stamp(w, msgId, 0), productId, improved).0
  }

  /** `send_discount_notification`. */
  function Notify(w: World, ai: Draft -> AiReply, productId: nat, discountId: nat, d: NotifyData): World {
    var ch := w.store.channel;
    if ch.None? || !ch.value.isActive then w
    // escape_markdown of a missing title or category raises; the handler swallows it
    else if d.title.None? || d.categoryName.None? then w
    else match ai(DraftOf(d))
      // the standard rendering adds the integer percentage to a string and raises
      case Unchanged => w
      case Rewritten(text) =>
        var post := Post(ConvertChannelLink(ch.value.link), Improved(text),
                         ReviewButtons(w.store, productId, discountId, d.url), Photo(d.imageUrl));
        var msgId := |w.sent| + 1;
        var rec := Approval(productId, discountId, false, None, Some(text));
        var w1 := World(w.store.(approvals := w.store.approvals[msgId := rec]), w.sent + [post]);
        if w.store.autoApproval then AutoApprove(w1, msgId, productId, Some(text)) else w1
  }

  /** Without an active review channel nothing is posted and nothing is recorded. */
  lemma NoChannelNoPost(w: World, ai: Draft -> AiReply, productId: nat, discountId: nat, d: NotifyData)
    requires w.store.channel.None? || !w.store.channel.value.isActive
    ensures Notify(w, ai, productId, discountId, d) == w
  {
  }

  /**
   * When the AI gives the draft back, the standard rendering raises before
   * anything is sent: no post, no approval record, no publication.
   */
  lemma StandardRenderingNeverPosts(w: World, ai: Draft -> AiReply, productId: nat, discountId: nat, d: NotifyData)
    requires d.title.Some? && d.categoryName.Some? && ai(DraftOf(d)) == Unchanged
    ensures Notify(w, ai, productId, discountId, d) == w
  {
  }

  /** A title or category that is missing makes the Markdown escaping raise: nothing happens. */
  lemma MissingFieldNoPost(w: World, ai: Draft -> AiReply, productId: nat, discountId: nat, d: NotifyData)
    requires d.title.None? || d.categoryName.None?
    ensures Notify(w, ai, productId, discountId, d) == w
  {
  }

  predicate Posts(w: World, ai: Draft -> AiReply, d: NotifyData) {
    w.store.channel.Some? && w.store.channel.value.isActive
    && d.title.Some? && d.categoryName.Some? && ai(DraftOf(d)).Rewritten?
  }

  /**
   * A review post is made exactly when the channel is active, title and category
   * are present and the AI rewrote the draft. It goes to the channel, carries the
   * AI text, has an approve button exactly when auto-approval is off, and its
   * approval record is stored under the post's message id with the AI text.
   */
  lemma ReviewPostShape(w: World, ai: Draft -> AiReply, productId: nat, discountId: nat, d: NotifyData)
    requires Posts(w, ai, d)
    ensures var r := Notify(w, ai, productId, discountId, d);
      |r.sent| >= |w.sent| + 1 && r.sent[..|w.sent|] == w.sent
      && var post := r.sent[|w.sent|];
      post.chat == ConvertChannelLink(w.store.channel.value.link)
      && post.body == Improved(ai(DraftOf(d)).text)
      && (ApproveButton(ApproveData(productId, discountId)) in post.buttons <==> !w.store.autoApproval)
      && post.buttons[|post.buttons| - 1] == UrlButton(AddAffiliateTag(d.url, w.store.affiliate))
  {
    var r := Notify(w, ai, productId, discountId, d);
    var text := ai(DraftOf(d)).text;
    var msgId := |w.sent| + 1;
    var post := r.sent[|w.sent|];
    if w.store.autoApproval {
      var rec := Approval(productId, discountId, false, None, Some(text));
      var w1 := World(w.store.(approvals := w.store.approvals[msgId := rec]), w.sent + [post]);
      AutoApproveKeepsPosts(w1, msgId, productId, Some(text));
      assert post.buttons == [UrlButton(AddAffiliateTag(d.url, w.store.affiliate))];
    } else {
      assert post.buttons[0] == ApproveButton(ApproveData(productId, discountId));
    }
    assert r.sent[..|w.sent|] == w.sent;
  }

  /** Automatic approval writes only approval records and only appends posts. */
  lemma AutoApproveKeepsPosts(w: World, msgId: nat, productId: nat, improved: Option<string>)
    requires msgId in w.store.approvals
    ensures var r := AutoApprove(w, msgId, productId, improved);
      r.store == w.store.(approvals := r.store.approvals)
      && |r.sent| >= |w.sent| && r.sent[..|w.sent|] == w.sent
  {
    PublishLatestKeeps(Stamp(w, msgId, 0), productId, improved);
  }

  /**
   * Sending a notification writes nothing but approval records and only
   * appends posts: products, discounts and every configuration are untouched.
   */
  lemma NotifyKeeps(w: World, ai: Draft -> AiReply, productId: nat, discountId: nat, d: NotifyData)
    ensures var r := Notify(w, ai, productId, discountId, d);
      r.store == w.store.(approvals := r.store.approvals)
      && |r.sent| >= |w.sent| && r.sent[..|w.sent|] == w.sent
  {
    if Posts(w, ai, d) {
      var text := ai(DraftOf(d)).text;
      var msgId := |w.sent| + 1;
      var post := Post(ConvertChannelLink(w.store.channel.value.link), Improved(text),
                       ReviewButtons(w.store, productId, discountId, d.url), Photo(d.imageUrl));
      var rec := Approval(productId, discountId, false, None, Some(text));
      var w1 := World(w.store.(approvals := w.store.approvals[msgId := rec]), w.sent + [post]);
      assert w1.sent[..|w.sent|] == w.sent;
      if w.store.autoApproval {
        AutoApproveKeepsPosts(w1, msgId, productId, Some(text));
        var r := AutoApprove(w1, msgId, productId, Some(text));
        assert r.sent[..|w.sent|] == r.sent[..|w1.sent|][..|w.sent|];
      }
    }
  }

  /**
   * The record written for a review post: pending with the AI text when
   * approval is manual, approved by 0 when it is automatic; the other records
   * are untouched.
   */
  lemma ReviewRecord(w: World, ai: Draft -> AiReply, productId: nat, discountId: nat, d: NotifyData)
    requires Posts(w, ai, d)
    ensures var r := Notify(w, ai, productId, discountId, d);
      var msgId := |w.sent| + 1;
      msgId in r.store.approvals
      && r.store.approvals[msgId] == Approval(productId, discountId, w.store.autoApproval,
                                              if w.store.autoApproval then Some(0) else None,
                                              Some(ai(DraftOf(d)).text))
      && (forall k :: k in w.store.approvals && k != msgId ==> k in r.store.approvals && r.store.approvals[k] == w.store.approvals[k])
      && r.store.products == w.store.products && r.store.discounts == w.store.discounts
  {
  }

  /**
   * With auto-approval, the product is published right away when it exists, has
   * a discount on record and its category has a group link.
   */
  lemma AutoApprovalPublishes(w: World, ai: Draft -> AiReply, productId: nat, discountId: nat, d: NotifyData, p: Product)
    requires Posts(w, ai, d) && w.store.autoApproval
    requires FindProduct(w.store.products, productId) == Some(p)
    requires LatestDiscount(w.store.discounts, productId).Some?
    requires GroupPost(w.store, p, Some(ai(DraftOf(d)).text)).Some?
    ensures var r := Notify(w, ai, productId, discountId, d);
      |r.sent| == |w.sent| + 2
      && r.sent[|w.sent| + 1] == GroupPost(w.store, p, Some(ai(DraftOf(d)).text)).value
  {
  }

  // ---------------------------------------------------------------------------
  // A click on the approve button

  /**
   * `approve_discount_notification` for the click on review post `msgId` by
   * `clicker`, with the payload after `approve_`.
   */
  function ApproveClick(w: World, payload: string, msgId: nat, clicker: nat): (World, ApproveOutcome) {
    match ParseApproval(payload)
    case None => (w, BadData)
    case Some(ids) =>
      if msgId !in w.store.approvals then (w, RecordNotFound)
      else if w.store.approvals[msgId].isApproved then (w, AlreadyApproved)
      // the product and its discount are looked up by the ids in the button, not in the record
      else PublishLatest(Stamp(w, msgId, clicker), ids.0, w.store.approvals[msgId].improved)
  }

  /** A click on an already-approved record writes nothing and publishes nothing. */
  lemma ApprovedRecordIsFinal(w: World, payload: string, msgId: nat, clicker: nat)
    requires ParseApproval(payload).Some?
    requires msgId in w.store.approvals && w.store.approvals[msgId].isApproved
    ensures ApproveClick(w, payload, msgId, clicker) == (w, AlreadyApproved)
  {
  }

  /**
   * The first valid click approves the record with the clicker's id before
   * anything else, whatever happens afterwards; the record keeps its ids and
   * text, the other records and the products are untouched, posts are only appended.
   */
  lemma FirstClickApproves(w: World, payload: string, msgId: nat, clicker: nat)
    requires ParseApproval(payload).Some?
    requires msgId in w.store.approvals && !w.store.approvals[msgId].isApproved
    ensures var (r, outcome) := ApproveClick(w, payload, msgId, clicker);
      (outcome == ProductMissing || outcome == DiscountMissing || outcome == Approved)
      && r.store.approvals == w.store.approvals[msgId := w.store.approvals[msgId].(isApproved := true, approvedBy := Some(clicker))]
      && r.store.products == w.store.products
      && |r.sent| >= |w.sent| && r.sent[..|w.sent|] == w.sent
  {
    PublishLatestKeeps(Stamp(w, msgId, clicker), ParseApproval(payload).value.0, w.store.approvals[msgId].improved);
  }

  /** Approval is idempotent: a second click, by anyone, changes nothing. */
  lemma ApproveTwice(w: World, payload: string, msgId: nat, clicker: nat, second: nat)
    requires ParseApproval(payload).Some? && msgId in w.store.approvals
    ensures var r := ApproveClick(w, payload, msgId, clicker).0;
      ApproveClick(r, payload, msgId, second) == (r, AlreadyApproved)
  {
    if !w.store.approvals[msgId].isApproved {
      FirstClickApproves(w, payload, msgId, clicker);
    }
  }

  /**
   * The discount id in the button plays no part: two clicks whose payloads name
   * the same product have the same effect, since the product's latest discount
   * decides the publication.
   */
  lemma ApproveIgnoresDiscountId(w: World, payload1: string, payload2: string, msgId: nat, clicker: nat)
    requires ParseApproval(payload1).Some? && ParseApproval(payload2).Some?
    requires ParseApproval(payload1).value.0 == ParseApproval(payload2).value.0
    ensures ApproveClick(w, payload1, msgId, clicker) == ApproveClick(w, payload2, msgId, clicker)
  {
  }

  /**
   * The approve button of a manual review post decodes to an approval of its own
   * product and discount, and its first click approves the post's record.
   */
  lemma ReviewButtonApproves(w: World, ai: Draft -> AiReply, productId: nat, discountId: nat, d: NotifyData, clicker: nat)
    requires Posts(w, ai, d) && !w.store.autoApproval
    ensures DecodeCallback(ApproveData(productId, discountId)) == Approve(Num(productId) + "_" + Num(discountId))
    ensures ParseApproval(Num(productId) + "_" + Num(discountId)) == Some((productId as int, discountId as int))
    ensures var r := Notify(w, ai, productId, discountId, d);
      var r2 := ApproveClick(r, Num(productId) + "_" + Num(discountId), |w.sent| + 1, clicker).0;
      |w.sent| + 1 in r2.store.approvals && r2.store.approvals[|w.sent| + 1].approvedBy == Some(clicker)
  {
    ApproveRoundTrip(productId, discountId);
    ReviewRecord(w, ai, productId, discountId, d);
    var r := Notify(w, ai, productId, discountId, d);
    FirstClickApproves(r, Num(productId) + "_" + Num(discountId), |w.sent| + 1, clicker);
  }
}
