# Amazon discount bot — a Dafny model of its core

The bot watches a list of Amazon products for an administrator. A background
thread goes through the products one by one. For each product it fetches the
product page and keeps the stored title and image up to date. When the page
shows a discount that the backend service reports as new, it records the
discount and posts a notification to a review channel.

The notification is rewritten by an AI service. It carries an "approve" button
unless auto-approval is on. Approving it, by a click or automatically,
publishes the offer to the Telegram group linked to the product's category. The
purchase link in both posts carries the affiliate tag.

Administrators drive the bot through inline keyboards. Their button presses
come back as underscore-separated callback strings that one dispatcher decodes.
The monitoring job is set up in a two-step chat dialog and switched on and off
with a button. All user-facing texts come from a translation manager that loads
per-language JSON files.

The model covers the logic that decides what is stored, what is posted and
where:

- `Text`: Python's `str.replace`, `split`, `strip`, `int()` and `str()` on
  integers, and prefix search.
- `Escape`: `escape_markdown` and `escape_html`.
- `ChatLink`: `convert_channel_link_to_chat_id`.
- `Affiliate`: `add_affiliate_tag_to_url`.
- `Callback`: the callback encoders and the `handle_callback_query` dispatcher.
- `Paging`: the page arithmetic of `show_category_products`.
- `Extraction`: the regular-expression tail of `scrape_amazon_product`.
- `Store`: the service's data as the bot sees it.
- `Review`: the notification, the approval and the group post.
- `Monitor`: one pass of `price_monitoring_loop`, including a stop request from another thread and a backend call that raises.
- `CronDialog`: the configuration dialog, the switch and the thread flag.
- `Bot`: the `AmazonBot` object whose methods change that state.
- `Translations`: the `TranslationManager` object.

Each state-changing method of `Bot.AmazonBot` is proved equal to a
specification function, and the lemmas state the properties of those
functions. The methods of `Translations.TranslationManager` state their
effect on the object's fields directly in their postconditions. The
language list is the exception: `LoadAvailableLanguages` is proved equal to
`SortStrings(LanguageFiles(...))` of the directory listing, and the lemma
`AvailableLanguages` states what that list holds.

Outside services are parameters of the model:

- the product page fetch (`Monitor.Env.fetch`, returning the located page
  elements or an error);
- the service's "discount data changed" answer (`Monitor.Env.changed`);
- the AI rewriting (`Review.AiReply`);
- the clock (`Monitor.Env.now`);
- the current language's text for `prodotto_amazon`, which is the title of a
  page that has none (`Monitor.Env.defaultTitle`);
- the translations directory (`Translations.Directory`).

The backend service is a value, `Store.Store`. Posts sent to Telegram are a
sequence, and the post at position `k` has message id `k + 1`.

## Model

| member | source | states |
|---|---|---|
| Escape.Replace | bot.py:142-153 | Python's `str.replace` for one character: `ReplaceAppend` proves it distributes over concatenation, and `ReplaceAbsent` proves a text without the character is unchanged |
| Escape.EscapeHtml | bot.py:146-154 | a missing or empty text escapes to the empty string |
| Escape.EscapeHtmlIsEntityMap | bot.py:146-154 | the chain of five replacements, `&` first, replaces every character by its own HTML entity and nothing is escaped twice |
| Escape.EscapeHtmlRoundTrip | bot.py:146-154 | unescaping the five entities gives back the original text |
| Escape.EscapeHtmlHasNoMarkup | bot.py:146-154 | the escaped text contains no `<`, `>`, `"` or `'` |
| Escape.EscapeMarkdown | bot.py:138-144 | the loop over the eighteen special characters puts one backslash before each special character of the text, at every position |
| Escape.EscapeMarkdownRoundTrip | bot.py:138-144 | dropping the backslash before each escaped character gives back the original text |
| Escape.MarkdownEscapedHead | bot.py:138-144 | an escaped non-empty text never starts with a bare special character |
| ChatLink.AddAt | bot.py:169-170 | the name gets a leading `@` when it has none |
| ChatLink.ConvertChannelLink | bot.py:156-178 | the result is a numeric chat id or an `@` name, and a numeric id is returned unchanged |
| ChatLink.AtNameUnchanged | bot.py:174-175 | an `@` name without a `t.me/` link is returned unchanged |
| ChatLink.BareNamePrefixed | bot.py:174-178 | any other text without a link gets an `@` prefix |
| ChatLink.TmeLinkGivesName | bot.py:163-171 | a `t.me/` link with any scheme in front (`https://`, `http://` or none) gives `@` and the name after the last `t.me/`, with the query string and the fragment dropped; the query may hold anything but another `t.me/` |
| ChatLink.HttpsLinkGivesName | bot.py:163-171 | `https://t.me/<name>` gives `@<name>` |
| ChatLink.ResultHasNoLink | bot.py:156-178 | no result contains `t.me/` |
| ChatLink.ConvertIdempotent | bot.py:156-178 | converting a converted link changes nothing |
| Affiliate.AddAffiliateTag | bot.py:3357-3371 | without an active non-empty tag the URL is unchanged; otherwise `&tag=` is appended when the URL has a `?`, and `?tag=` when it has none |
| Affiliate.UrlIsPrefix | bot.py:3357-3371 | the original URL is a prefix of the result, which is longer by exactly the tag parameter |
| Affiliate.TagTwice | bot.py:3368-3369 | tagging a tagged URL appends a second `&tag=` parameter, so the operation is not idempotent |
| Callback.BranchOf | bot.py:339-605 | the branch of the `if`/`elif` chain that takes the data is the first test in source order that passes; the `Branch*` lemmas name it for every kind of button data, and `ConfirmDeleteProductNeedsOrder` and `ViewCategoryProductsNeedsOrder` show that the order matters |
| Callback.DecodeCallback | bot.py:339-609 | what the taken branch does with the data; the `*RoundTrip` lemmas prove that the data every button carries decodes back to its own ids |
| Callback.Field | bot.py:343 | a field index past the split list has no integer |
| Callback.Drop | bot.py:387-410 | dropping a prefix leaves exactly the rest of the data |
| Callback.ParseApproval | bot.py:4050-4052 | a parsed approval payload has at least two fields |
| Callback.ApproveRoundTrip | bot.py:3966 | the approve button's data reaches the approve branch, and the payload after the prefix parses back to the product and discount ids |
| Callback.ViewCategoryProductsRoundTrip | bot.py:1040 | the page buttons' data decodes to the same category and page |
| Callback.AssignCategoryRoundTrip | bot.py:2190 | the assign button's data decodes to the same product and category |
| Callback.DeleteCategoryRoundTrip | bot.py:685 | the delete-category data decodes to the same category |
| Callback.ConfirmDeleteRoundTrip | bot.py:849 | the confirm-delete data decodes to the same category |
| Callback.ConfirmDeleteProductRoundTrip | bot.py:1269 | the confirm-delete-product data decodes to the same product, although it also starts with the confirm-delete prefix |
| Callback.ViewProductRoundTrip | bot.py:1031 | the view-product data decodes to the same product |
| Callback.DeleteProductRoundTrip | bot.py:1184 | the delete-product data decodes to the same product |
| Callback.ViewCategoryRoundTrip | bot.py:1474 | the view-category data decodes to the same category |
| Callback.LinkCategoryRoundTrip | bot.py:1591 | the link-category data decodes to the same category |
| Callback.RemoveAdminRoundTrip | bot.py:3441 | the remove-admin data decodes to the same user |
| Callback.ConfirmRemoveAdminRoundTrip | bot.py:3641 | the confirm-remove-admin data decodes to the same user, although it does not start with the remove-admin prefix |
| Callback.TestCategoryRoundTrip | bot.py:4319 | the test-category data decodes to the same category |
| Callback.TestProductRoundTrip | bot.py:4395 | the test-product data decodes to the same product |
| Callback.SetLanguageRoundTrip | bot.py:5007 | the set-language data decodes to the same language name |
| Callback.ConfirmDeleteProductNeedsOrder | bot.py:346-353 | confirm-delete-product data also passes the confirm-delete test, and that branch would find no integer in its field, so the order of the two tests matters |
| Callback.ViewCategoryProductsNeedsOrder | bot.py:449-476 | category-page data also passes the view-category test, and that branch would find no integer in its field |
| Callback.ParseApprovalRejectsWord | bot.py:4050-4052 | a payload whose first field (the text before the first `_`) is not a Python integer is rejected |
| Text.Strip | bot.py:2544 | `str.strip()`: the result neither starts nor ends with whitespace; `StripSlice` proves it is the input minus a leading and a trailing run of whitespace |
| Text.StripSlice | bot.py:2544 | the stripped text is a slice of the input, and everything before and after that slice is whitespace |
| Text.PyIntOfPadded | bot.py:2544 | digits with whitespace before and after them read as the digits' decimal value |
| Text.PyIntOfPaddedThirty | bot.py:2544 | `int(" 30\n".strip())` is 30 |
| Text.PyInt | bot.py:2544 | Python's `int()` on a str, None where it raises ValueError; `PyIntOfNat`, `PyIntOfDigits` and `PyIntOfWord` state its values |
| Text.Split | bot.py:343 | `str.split` for one character: at least one piece, and no piece contains the separator; `SplitOfJoin` proves that splitting joined words gives the words back |
| Text.PyIntOfNat | bot.py:343 | `int(str(n)) == n` for every natural number |
| Text.PyIntOfDigits | bot.py:2544 | a string of ASCII digits is read as its decimal value |
| Text.PyIntOfWord | bot.py:2544-2551 | a word that starts with neither a sign nor a digit is not an integer |
| Paging.TotalPages | bot.py:1015 | the number of pages is at least one, and it is the smallest count of ten-item pages that holds the list |
| Paging.Slice | bot.py:1018 | Python slicing: an in-range slice is the sub-sequence, and no slice is longer than the list |
| Paging.ShowCategoryProducts | bot.py:960-1046 | the empty-category screen is shown exactly when the category has no products |
| Paging.PageItems | bot.py:1014-1018 | every page the counter shows holds one to ten products, taken in list order from position ten times the page |
| Paging.PastLastPage | bot.py:1016-1018 | a page past the last shows no products and no next arrow |
| Paging.NavigationArrows | bot.py:1037-1045 | the previous arrow appears exactly on pages after the first and the next arrow exactly when more products follow, and both lead to shown pages |
| Paging.ArrowRoundTrip | bot.py:1037-1045 | the data of each arrow decodes to the same category and to the page it leads to |
| Paging.PagesCoverList | bot.py:1014-1018 | the pages, concatenated in order, are the whole list |
| Paging.NegativePageShowsItems | bot.py:1016-1018 | a negative page is sliced from the end: page -2 of 25 products shows items 5 to 14 and offers page -1 as next |
| Extraction.PriceAt | bot.py:2797 | the group that `(\d+(?:,\d+)?)\s*€` captures at a given position; `PriceAtIff` proves it agrees with the declarative pattern |
| Extraction.PercentAt | bot.py:2781 | the group that `-(\d+)%` captures at a given position; `PercentAtIff` proves it agrees with the declarative pattern |
| Extraction.PriceOf | bot.py:2793-2812 | the leftmost price with `€` appended, or "N/A"; `PriceOfFound` and `LeftmostPrice` state when and what |
| Extraction.SearchPrice | bot.py:2797 | the search finds the leftmost position where the price pattern matches, or reports that none matches |
| Extraction.SearchPercent | bot.py:2781 | the search finds the leftmost position where `-digits%` matches, or reports that none matches |
| Extraction.PriceAtIff | bot.py:2797 | the matcher accepts a capture at a position exactly when `(\d+(?:,\d+)?)\s*€` matches there with that group, comma group tried first |
| Extraction.PercentAtIff | bot.py:2781 | the matcher accepts a capture exactly when `-(\d+)%` matches there with that group |
| Extraction.PriceOfFound | bot.py:2792-2811 | a price is "N/A" exactly when the element is missing or the pattern matches nowhere in its text |
| Extraction.PercentFound | bot.py:2780-2784 | a percentage is found exactly when the pattern matches somewhere in the text |
| Extraction.Extract | bot.py:2769-2773 | the title and the image are passed through unchanged |
| Extraction.HasDiscountIff | bot.py:2775-2823 | a discount is reported exactly when the marker, the paid price and the list price all match their patterns |
| Extraction.LeftmostPrice | bot.py:2797-2799 | the price kept is the leftmost match, followed by `€` |
| Extraction.LeftmostPercent | bot.py:2781-2786 | the percentage kept is the value of the leftmost match |
| Extraction.ThousandsDotCut | bot.py:2797 | "1.299,00€" yields the price "299,00€": the pattern does not cross the thousands dot |
| Extraction.ZeroPercentAccepted | bot.py:2781-2823 | a "-0%" marker with both prices counts as a discount of zero percent |
| Extraction.CommaGroupEnd | bot.py:2797 | the optional decimal group, when it is taken, spans a comma and at least one digit |
| Store.FindProduct | database.py:193-212 | the product found has the requested id, and no product is found only when none has it |
| Store.LatestDiscount | database.py:286-300 | the discount found belongs to the product, and none is found only when the product has none |
| Store.LatestAfterAppend | database.py:269-300 | a discount just recorded is the latest one of its product |
| Store.SetTitle | database.py:160-178 | the title of each product with the id is replaced, and every other product is unchanged |
| Store.SetImage | database.py:160-178 | the image of each product with the id is replaced, and every other product is unchanged |
| Review.GroupPost | bot.py:4204-4294 | the post `send_approved_message_to_group` makes, none without a category or a group link; `PublishDecision` states its chat, body and button |
| Review.Publish | bot.py:4204-4294 | the group post, if any, is appended; `PublishDecision` proves the store is unchanged |
| Review.PublishDecision | bot.py:4204-4294 | a product is published exactly when its category exists and has a group link. Then one post goes to that group, carrying the AI text when there is one and otherwise the HTML-escaped title, with one purchase button whose URL starts with the product URL. The store is unchanged |
| Review.Stamp | database.py:411-422 | the record is marked approved by the clicker, and posts, products and discounts are unchanged |
| Review.PublishLatest | bot.py:4121-4137 | the product is looked up, then its latest discount, then it is published; `PublishLatestKeeps` states the outcomes |
| Review.AutoApprove | bot.py:4020-4041 | the record is approved by 0 and the product is published with its latest discount; `AutoApproveKeepsPosts` and `AutoApprovalPublishes` state the result |
| Review.Notify | bot.py:3891-4044 | `send_discount_notification`; `ReviewPostShape`, `ReviewRecord`, `NotifyKeeps`, `NoChannelNoPost`, `MissingFieldNoPost` and `StandardRenderingNeverPosts` state its post, its record and when nothing happens |
| Review.PublishLatestKeeps | bot.py:4026-4035 | publishing after an approval leaves the service untouched, only appends posts, and reports a missing product, a missing discount or success |
| Review.NoChannelNoPost | bot.py:3893-3897 | without an active review channel nothing is posted or recorded |
| Review.MissingFieldNoPost | bot.py:3915-3916 | a missing title or category name makes escaping raise, so nothing is posted or recorded |
| Review.StandardRenderingNeverPosts | bot.py:3933-3952 | when the AI returns the draft unchanged, the standard text adds an integer to a string and raises, so nothing is posted or recorded |
| Review.ReviewPostShape | bot.py:3921-4006 | a review post is made exactly in the remaining case. It goes to the channel with the AI text and ends with the affiliate purchase button, and it has the approve button exactly when auto-approval is off |
| Review.ReviewRecord | bot.py:4009-4035 | the approval record is stored under the post's message id with the AI text, already approved by 0 under auto-approval; other records, products and discounts are unchanged |
| Review.NotifyKeeps | bot.py:3891-4044 | a notification changes only the approval records and only appends posts |
| Review.AutoApproveKeepsPosts | bot.py:4020-4041 | automatic approval changes only the approval records and only appends posts |
| Review.AutoApprovalPublishes | bot.py:4020-4035 | under auto-approval a publishable product gets exactly two posts, the review post and then the group post |
| Review.ApproveClick | bot.py:4046-4202 | `approve_discount_notification`; `ApprovedRecordIsFinal`, `FirstClickApproves`, `ApproveTwice`, `ApproveIgnoresDiscountId` and `ReviewButtonApproves` state its effect |
| Review.ApprovedRecordIsFinal | bot.py:4062-4113 | a click on an approved record writes nothing and publishes nothing |
| Review.FirstClickApproves | bot.py:4115-4138 | the first click marks the record approved by the clicker, changes no other record and no product, and only appends posts |
| Review.ApproveTwice | bot.py:4062-4113 | a second click on the same post is always answered "already approved" |
| Review.ApproveIgnoresDiscountId | bot.py:4050-4138 | the discount id in the button plays no part: the latest discount of the product is the one published |
| Review.ReviewButtonApproves | bot.py:3963-3968 | the approve button of a review post reaches the approval handler with its own ids, and a click approves that post's record |
| Monitor.StampLastRun | database.py:352-359 | the last-run time becomes the current time, and nothing else in the service changes |
| Monitor.Processed | bot.py:2875-2877 | the pass handles every product, or the products before the one at which the stop request is seen |
| Monitor.Scrape | bot.py:2727-2833 | an error result, or the page's fields with the default title for a page without one; `FetchErrorSkips` and `TitlelessPageWritesDefault` state its effect on a step |
| Monitor.NewTitle | bot.py:2892-2894 | the scraped title is written when it is not empty and differs; `TitleRefresh` states the write |
| Monitor.NewImage | bot.py:2896-2898 | the scraped image is written when it is not empty and differs; `ImageRefresh` states the write |
| Monitor.Refresh | bot.py:2889-2899 | both writes, for the checked product only; `TitleRefresh` and `ImageRefresh` state them |
| Monitor.NewDiscount | bot.py:2902-2916 | the record added when the page shows a discount and the service reports it changed; `DiscountRecorded` states it |
| Monitor.ProductStep | bot.py:2876-2936 | the loop body for one product; `ProductStepKeeps`, `DiscountNotified` and `NoDiscountNoPost` state its effect |
| Monitor.Steps | bot.py:2875-2937 | the products handled in order; `StepsKeeps` and `StepsDiscountsOwned` state the effect |
| Monitor.Faults | bot.py:2947-2949 | whether a backend call raises at or before the end of the pass |
| Monitor.Pass | bot.py:2854-2952 | one turn of `price_monitoring_loop`; `PassNotRunning`, `PassDisabled`, `PassStamps` and `PassFails` state every case |
| Monitor.FetchErrorSkips | bot.py:2884-2887 | a product whose page cannot be fetched changes nothing |
| Monitor.ProductStepKeeps | bot.py:2876-2936 | one product step keeps the list of products, adds at most one discount, and only appends records and posts |
| Monitor.TitlelessPageWritesDefault | bot.py:2744-2752 | a page without a title gives the non-empty default title, which replaces a different stored title |
| Monitor.TitleRefresh | bot.py:2893-2895 | the stored title changes exactly when the page title is non-empty and differs, and only for that product |
| Monitor.ImageRefresh | bot.py:2897-2899 | the stored image changes exactly when the page image is non-empty and differs, and only for that product |
| Monitor.DiscountRecorded | bot.py:2902-2916 | a discount is recorded exactly when the page shows one and the service reports it as changed, and it becomes the product's latest discount |
| Monitor.NoDiscountNoPost | bot.py:2902-2916 | a product step that records no discount sends no post and writes no approval record |
| Monitor.DiscountNotified | bot.py:2902-2936 | a recorded discount gets the next discount id and is sent for review with the refreshed title and image, the product's URL and category name, and the scraped percentage and prices |
| Monitor.DiscountReachesReview | bot.py:2909-2936 | with an active channel, a title, a category and an AI that rewrites this step's draft, a recorded discount leads to a post in the review channel that carries the approve button for that product and discount exactly when auto-approval is off |
| Monitor.DiscountOfStep | bot.py:2911-2916 | a recorded discount belongs to the product being checked |
| Monitor.StepsKeeps | bot.py:2875-2937 | a sequence of product steps only appends discounts, records and posts, and keeps everything else |
| Monitor.StepsDiscountsOwned | bot.py:2875-2937 | every discount recorded during the steps belongs to one of the products handled |
| Monitor.PassNotRunning | bot.py:2858 | with the flag cleared the loop does nothing |
| Monitor.PassDisabled | bot.py:2860-2863 | without an active configuration the loop clears the flag and exits with nothing changed |
| Monitor.PassStamps | bot.py:2858-2951 | an active pass in which no backend call raises stamps the last run, keeps the configuration and the links, keeps running exactly when no stop came, and only records discounts of the products it handled |
| Monitor.PassFails | bot.py:2858-2949 | a pass in which a backend call raises after `k` products handles exactly those products, writes no stamp, keeps the flag unless the stop was already seen, and only records discounts of those products |
| Monitor.AfterStep | bot.py:2909-2916 | the discount list after one product is the old list, possibly with one more entry |
| Monitor.IdsOf | bot.py:2868-2875 | every product of the list has its id in the set |
| CronDialog.StartDialog | bot.py:2490-2496 | the user enters the dialog at the interval step, and every other user's state is kept |
| CronDialog.CancelDialog | bot.py:500-504 | the user leaves the dialog, and every other user's state is kept |
| CronDialog.UpdateCronConfig | database.py:335-350 | the four settings are replaced, the last-run time is kept, and nothing else in the service changes |
| CronDialog.CronInput | bot.py:2536-2622 | one message of the dialog; `NonIntegerRejected`, `IntervalStep` and `DelayStep` state its effect |
| CronDialog.NonIntegerRejected | bot.py:2543-2551 | a message that is not an integer changes nothing |
| CronDialog.IntervalStep | bot.py:2553-2564 | an interval below five is refused and changes nothing; any other moves the user to the pause step holding the interval and saves nothing |
| CronDialog.DelayStep | bot.py:2584-2606 | a pause below one is refused and changes nothing; any other saves both values as an inactive configuration created by the user, who stays in the dialog |
| CronDialog.DialogSavesInactive | bot.py:2490-2622 | the whole dialog saves the two values inactive, so the monitoring loop then exits at once |
| CronDialog.StartThread | bot.py:2835-2844 | after starting, the flag is set, and a thread is launched only when none was running |
| CronDialog.StopThread | bot.py:2846-2852 | stopping clears the flag and launches nothing |
| CronDialog.StartIdempotent | bot.py:2837-2839 | starting twice launches one thread |
| CronDialog.Toggle | bot.py:2624-2665 | `toggle_cronjob`; `ToggleUnconfigured`, `ToggleFlips` and `ToggleTwice` state its effect |
| CronDialog.ToggleUnconfigured | bot.py:2628-2635 | without a configuration the switch does nothing |
| CronDialog.ToggleFlips | bot.py:2637-2659 | the switch flips only the active flag, keeps the other settings and the rest of the service, and leaves the thread running exactly when the job is now active |
| CronDialog.ToggleTwice | bot.py:2624-2665 | switching twice restores the configuration, and the thread then runs exactly when the job was active before |
| Bot.AmazonBot.constructor | bot.py:106-111 | the bot starts with no posts, no dialogs and no thread |
| Bot.AmazonBot.StartPriceMonitoringThread | bot.py:2835-2844 | the thread state becomes that of `StartThread`, and nothing else changes |
| Bot.AmazonBot.StopPriceMonitoringThread | bot.py:2846-2852 | the thread state becomes that of `StopThread`, and nothing else changes |
| Bot.AmazonBot.ToggleCronjob | bot.py:2624-2665 | the configuration and the thread become those of `Toggle`, and posts and dialogs are kept |
| Bot.AmazonBot.StartCronjobConfiguration | bot.py:2490-2496 | the dialog states become those of `StartDialog` |
| Bot.AmazonBot.CancelCronjobConfiguration | bot.py:500-504 | the dialog states become those of `CancelDialog` |
| Bot.AmazonBot.HandleCronjobConfigurationInput | bot.py:2536-2622 | the dialog states, the service and the reply are those of the dialog step |
| Bot.AmazonBot.PublishToGroup | bot.py:4204-4294 | the service and the posts become those of `Publish` |
| Bot.AmazonBot.PublishLatestDiscount | bot.py:4026-4035 | the service, the posts and the outcome are those of `PublishLatest` |
| Bot.AmazonBot.SendDiscountNotification | bot.py:3891-4044 | the service and the posts become those of `Notify` |
| Bot.AmazonBot.ApproveDiscountNotification | bot.py:4046-4202 | the service, the posts and the outcome are those of `ApproveClick` |
| Bot.AmazonBot.ProcessProduct | bot.py:2876-2936 | the service and the posts become those of one `ProductStep` |
| Bot.AmazonBot.PriceMonitoringPass | bot.py:2854-2952 | the loop over the products read at the start of the pass, abandoned at the failing backend call if there is one, gives the service, the flag and the outcome of `Pass` |
| Translations.SortStrings | translation_manager.py:61 | `list.sort()` on strings: the result is ordered and is a permutation of the input |
| Translations.SortAgrees | translation_manager.py:61 | any ordered permutation of a list is the sorted list |
| Translations.SortedUnique | translation_manager.py:61 | two ordered lists holding the same strings are equal |
| Translations.BelowTotal | translation_manager.py:61 | any two strings are comparable |
| Translations.BelowTrans | translation_manager.py:61 | the string order is transitive |
| Translations.BelowAntisymmetric | translation_manager.py:61 | strings ordered both ways are equal |
| Translations.LanguageName | translation_manager.py:58 | the language name followed by ".json" is the file name |
| Translations.LanguageFiles | translation_manager.py:55-59 | the languages found are at most as many as the files |
| Translations.LanguageFilesMembers | translation_manager.py:56-59 | a language is found exactly when its ".json" file is listed and is not the configuration file |
| Translations.AvailableLanguages | translation_manager.py:48-65 | the available languages are exactly those whose files are listed, in sorted order, each once per file |
| Translations.Format | translation_manager.py:119-120 | `str.format(**kwargs)`, None where it raises; `FormatPlain`, `FormatField` and `FormatMissingArgument` state its behaviour |
| Translations.FormatPlain | translation_manager.py:119-120 | a text without braces formats to itself |
| Translations.FormatField | translation_manager.py:119-120 | a named field is replaced by its argument, and formatting continues after it |
| Translations.FormatMissingArgument | translation_manager.py:119-126 | a field with no argument makes formatting fail |
| Translations.DisplayName | translation_manager.py:139-155 | the ten known languages get their flag and native name, and any other gets a globe before its name |
| Translations.DisplayNameDistinct | translation_manager.py:155 | two unknown languages never share a display name |
| Translations.TranslationManager.constructor | translation_manager.py:9-32 | the current language is the configured one or "Italian", the languages are those of the directory, sorted, and the table is that language's file |
| Translations.TranslationManager.LoadAvailableLanguages | translation_manager.py:48-65 | the list becomes the sorted languages of the directory, and the current language and the table are kept |
| Translations.TranslationManager.LoadCurrentTranslations | translation_manager.py:67-82 | the table becomes the current language's file, or empty when there is none |
| Translations.TranslationManager.SetLanguage | translation_manager.py:92-102 | the language is accepted exactly when it is available; then it becomes current and its table is loaded, and otherwise nothing changes |
| Translations.TranslationManager.GetText | translation_manager.py:104-116 | a known key gives its translation and an unknown key gives the key itself |
| Translations.TranslationManager.GetTextWith | translation_manager.py:104-126 | without arguments the text is returned as is; with arguments it is formatted, and a failed format gives the key |
| Translations.TranslationManager.HasTranslation | translation_manager.py:157-159 | true exactly when the key is in the table |
| Translations.TranslationManager.GetAvailableLanguages | translation_manager.py:84-86 | the list returned is the stored list, in sorted order |

## Left out

- Telegram I/O is not modelled: message texts and their wording, keyboards other than the buttons that carry data, edits of the review post after approval, callback answers, and menus. A post is modelled as its chat, its body kind, its buttons and its photo.
- The photo fallback is not modelled: a failed `send_photo` followed by `send_message` gives the same post.
- Fetching and parsing the product page (HTTP and BeautifulSoup) is not modelled. `Monitor.Env.fetch` returns the located title (absent when the page has neither a meta title nor a product title span), image, marker and price texts, or an error.
- The AI rewriting (`improve_message_with_openai`) is an oracle. The draft it receives is modelled as its fields, not as the formatted Italian text.
- The regular-expression cleanup of the AI text before it goes to the group (bot.py:4232-4235) is not modelled; the group post carries the AI text as the review post stored it.
- Threads and sleeps are not modelled. A stop request from another thread is the index of the product before which the loop sees the cleared flag. One pass of the loop is modelled, not the endless repetition, the pauses or the one-minute pause after an error.
- Failures of the backend service are not modelled outside the monitoring pass: every other call is assumed to succeed, so the `except` branches that only log are unreachable there. The service's own assignment of ids is modelled as `|discounts| + 1` for discounts and as the next message id for review posts.
- `log_interaction`, `update_user_activity` and logging are not modelled.
- Monitor.Pass: a failing backend call is placed before the first call for a product or at the stamp. A failure part-way through one product's step (after its title or image was written, before its discount is recorded) is not modelled, nor a failing notification, which the notification code catches itself.
- Python's `int()` is modelled for ASCII digits and the whitespace of `str.strip()`. Unicode decimal digits, which `int()` and the `\d` of the price patterns also accept, are not modelled. Neither are the other characters `str.isdigit()` accepts, such as superscript digits: `convert_channel_link_to_chat_id` (bot.py:159) returns a link like `-²` unchanged, while `ChatLink.IsNumericId` gives it an `@` prefix.
- Message text that is not a string (photos, stickers) is not modelled: the dialog always receives text.
- `translation_manager.py`'s file I/O, `_save_config`, `reload_translations`, `get_current_language` and `get_translation_keys` are not modelled. The directory is a value holding its listing and the parsed files.
- Translations.Format: only plain keyword fields and doubled braces are modelled. Conversions, format specs, attribute and index lookups and positional fields are treated as errors, although `str.format` accepts some of them.
- The rest of `bot.py` is not part of this model: category, product and admin management, the other configuration dialogs, and the prompt test.
