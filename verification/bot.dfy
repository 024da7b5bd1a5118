/**
 * The `AmazonBot` object (bot.py) for the parts of it that change state: the
 * service's data as the bot sees it, the posts it has made, the users' dialog
 * states, and the monitoring thread's flag. Each method is proved to do what
 * the specification function of its operation describes.
 */
module Bot {
  import opened Text
  import opened ChatLink
  import opened Affiliate
  import opened Escape
  import opened Callback
  import opened Store
  import opened Extraction
  import opened Review
  import opened Monitor
  import opened CronDialog

  class AmazonBot {
    var store: Store
    var sent: seq<Post>
    var userStates: map<nat, UserState>
    var cronjobRunning: bool
    var threadLaunches: nat

    function State(): World
      reads this
    {
      World(store, sent)
    }

    function Thread(): Runner
      reads this
    {
      Runner(cronjobRunning, threadLaunches)
    }

    constructor(s: Store)
      ensures store == s && sent == [] && userStates == map[]
      ensures !cronjobRunning && threadLaunches == 0
    {
      store := s;
      sent := [];
      userStates := map[];
      cronjobRunning := false;
      threadLaunches := 0;
    }

    /** `start_price_monitoring_thread` (bot.py:2835-2844). */
    method StartPriceMonitoringThread()
      modifies this
      ensures Thread() == StartThread(old(Thread()))
      ensures State() == old(State()) && userStates == old(userStates)
    {
      if cronjobRunning {
        return;
      }
      cronjobRunning := true;
      threadLaunches := threadLaunches + 1;
    }

    /** `stop_price_monitoring_thread` (bot.py:2846-2852). */
    method StopPriceMonitoringThread()
      modifies this
      ensures Thread() == StopThread(old(Thread()))
      ensures State() == old(State()) && userStates == old(userStates)
    {
      cronjobRunning := false;
    }

    /** `toggle_cronjob` (bot.py:2624-2665), without the menu it redraws. */
    method ToggleCronjob()
      modifies this
      ensures (store, Thread()) == Toggle(old(store), old(Thread()))
      ensures sent == old(sent) && userStates == old(userStates)
    {
      if store.cron.None? {
        return;
      }
      var c := store.cron.value;
      var newStatus := !c.isActive;
      store := UpdateCronConfig(store, c.checkInterval, c.productDelay, newStatus, c.createdBy);
      if newStatus {
        StartPriceMonitoringThread();
      } else {
        StopPriceMonitoringThread();
      }
    }

    /** `start_cronjob_configuration` (bot.py:2490-2496). */
    method StartCronjobConfiguration(userId: nat)
      modifies this
      ensures userStates == StartDialog(old(userStates), userId)
      ensures State() == old(State()) && Thread() == old(Thread())
    {
      userStates := userStates[userId := UserState(ConfiguringCronjob, CheckIntervalStep, None)];
    }

    /** The `cancel_cronjob_config` button (bot.py:500-504). */
    method CancelCronjobConfiguration(userId: nat)
      modifies this
      ensures userStates == CancelDialog(old(userStates), userId)
      ensures State() == old(State()) && Thread() == old(Thread())
    {
      if userId in userStates {
        userStates := userStates - {userId};
      }
    }

    /** `handle_cronjob_configuration_input`, reached for users in the dialog (bot.py:639-640). */
    method HandleCronjobConfigurationInput(userId: nat, text: string) returns (reply: Reply)
      requires userId in userStates && userStates[userId].action == ConfiguringCronjob
      modifies this
      ensures (userStates, store, reply) == CronInput(old(userStates), old(store), userId, text)
      ensures sent == old(sent) && Thread() == old(Thread())
    {
      var st := userStates[userId];
      var value := PyInt(Strip(text));
      if value.None? {
        return NotAnInteger;
      }
      reply := NoReply;
      if st.step == CheckIntervalStep {
        if value.value < 5 {
          return IntervalTooShort;
        }
        userStates := userStates[userId := st.(checkInterval := Some(value.value), step := ProductDelayStep)];
      } else if st.step == ProductDelayStep {
        if value.value < 1 {
          return DelayTooShort;
        }
        if st.checkInterval.Some? {
          store := UpdateCronConfig(store, st.checkInterval.value, value.value, false, userId);
        }
      }
    }

    /** `send_approved_message_to_group` (bot.py:4204-4294). */
    method PublishToGroup(p: Product, improved: Option<string>)
      modifies this
      ensures State() == Publish(old(State()), p, improved)
      ensures userStates == old(userStates) && Thread() == old(Thread())
    {
      if p.categoryId.None? || p.categoryId.value !in store.categories {
        return;
      }
      var category := store.categories[p.categoryId.value];
      if category.telegramLink == "" {
        return;
      }
      var groupChatId := ConvertChannelLink(category.telegramLink);
      var body := if improved.Some? && improved.value != "" then Improved(improved.value)
                  else StandardGroup(EscapeHtml(p.title));
      var button := UrlButton(AddAffiliateTag(p.url, store.affiliate));
      sent := sent + [Post(groupChatId, body, [button], Photo(p.imageUrl))];
    }

    /** Looks up the product and its latest discount and publishes it (bot.py:4026-4041, 4111-4168). */
    method PublishLatestDiscount(productId: int, improved: Option<string>) returns (outcome: ApproveOutcome)
      modifies this
      ensures (State(), outcome) == PublishLatest(old(State()), productId, improved)
      ensures userStates == old(userStates) && Thread() == old(Thread())
    {
      if productId < 0 {
        return ProductMissing;
      }
      var product := FindProduct(store.products, productId);
      if product.None? {
        return ProductMissing;
      }
      if LatestDiscount(store.discounts, productId).None? {
        return DiscountMissing;
      }
      PublishToGroup(product.value, improved);
      outcome := Approved;
    }

    /** `send_discount_notification` (bot.py:3891-4044). */
    method SendDiscountNotification(ai: Draft -> AiReply, productId: nat, discountId: nat, d: NotifyData)
      modifies this
      ensures State() == Notify(old(State()), ai, productId, discountId, d)
      ensures userStates == old(userStates) && Thread() == old(Thread())
    {
      var channel := store.channel;
      if channel.None? || !channel.value.isActive {
        return;
      }
      var chatId := ConvertChannelLink(channel.value.link);
      if d.title.None? || d.categoryName.None? {
        return;
      }
      var answer := ai(DraftOf(d));
      if answer.Unchanged? {
        return;
      }
      var text := answer.text;
      var auto := store.autoApproval;
      sent := sent + [Post(chatId, Improved(text), ReviewButtons(store, productId, discountId, d.url), Photo(d.imageUrl))];
      var messageId := |sent|;
      store := store.(approvals := store.approvals[messageId := Approval(productId, discountId, false, None, Some(text))]);
      if auto {
        store := Stamp(State(), messageId, 0).store;
        var _ := PublishLatestDiscount(productId, Some(text));
      }
    }

    /** `approve_discount_notification` (bot.py:4046-4202), without the edits of the review post. */
    method ApproveDiscountNotification(payload: string, messageId: nat, clicker: nat) returns (outcome: ApproveOutcome)
      modifies this
      ensures (State(), outcome) == ApproveClick(old(State()), payload, messageId, clicker)
      ensures userStates == old(userStates) && Thread() == old(Thread())
    {
      var ids := ParseApproval(payload);
      if ids.None? {
        return BadData;
      }
      if messageId !in store.approvals {
        return RecordNotFound;
      }
      var record := store.approvals[messageId];
      if record.isApproved {
        return AlreadyApproved;
      }
      store := Stamp(State(), messageId, clicker).store;
      outcome := PublishLatestDiscount(ids.value.0, record.improved);
    }

    /** The body of the monitoring loop for one product (bot.py:2876-2936). */
    method ProcessProduct(env: Env, p: Product)
      modifies this
      ensures State() == ProductStep(old(State()), env, p)
      ensures userStates == old(userStates) && Thread() == old(Thread())
    {
      var scraped := Scrape(env, p.url);
      if scraped.None? {
        return;
      }
      var sc := scraped.value;
      var categoryName := CategoryName(store, p);
      var title, image := p.title, p.imageUrl;
      if NewTitle(p, sc) {
        store := store.(products := SetTitle(store.products, p.id, sc.title));
        title := Some(sc.title);
      }
      if NewImage(p, sc) {
        store := store.(products := SetImage(store.products, p.id, sc.imageUrl.value));
        image := sc.imageUrl;
      }
      if sc.discount.Some? {
        var dc := sc.discount.value;
        if env.changed(p.id, dc.percentage, dc.originalPrice, dc.discountedPrice) {
          var discountId := |store.discounts| + 1;
          store := store.(discounts := store.discounts + [DiscountRecord(discountId, p.id, dc.percentage, dc.originalPrice, dc.discountedPrice)]);
          SendDiscountNotification(env.ai, p.id, discountId,
            NotifyData(title, image, p.url, categoryName, dc.percentage, dc.originalPrice, dc.discountedPrice));
        }
      }
    }

    /**
     * One turn of `price_monitoring_loop` (bot.py:2854-2952); `stop` is the
     * product before which another thread's stop request is first seen, and
     * `fault` the number of products handled before a backend call raises.
     */
    method PriceMonitoringPass(env: Env, stop: Option<nat>, fault: Option<nat>) returns (outcome: PassOutcome)
      modifies this
      ensures (State(), cronjobRunning, outcome) == Pass(old(State()), env, old(cronjobRunning), stop, fault)
      ensures userStates == old(userStates) && threadLaunches == old(threadLaunches)
    {
      if !cronjobRunning {
        return NotRunning;
      }
      if store.cron.None? || !store.cron.value.isActive {
        cronjobRunning := false;
        return Disabled;
      }
      var products := store.products;
      ghost var w0 := State();
      var i := 0;
      while i < |products|
        invariant i <= |products|
        invariant stop.Some? ==> i <= stop.value
        invariant fault.None? || i <= fault.value
        invariant cronjobRunning
        invariant State() == Steps(w0, env, products[..i])
        invariant userStates == old(userStates) && threadLaunches == old(threadLaunches)
      {
        if stop == Some(i) {
          cronjobRunning := false;
        }
        if !cronjobRunning {
          break;
        }
        if fault == Some(i) {
          return Failed;
        }
        assert products[..i + 1][..i] == products[..i];
        ProcessProduct(env, products[i]);
        i := i + 1;
      }
      if stop.Some? {
        cronjobRunning := false;
      }
      assert i == Processed(|products|, stop);
      if fault == Some(i) {
        return Failed;
      }
      store := StampLastRun(store, env.now);
      outcome := if cronjobRunning then Completed else Stopped;
    }
  }
}
