# Auto Coupons for WooCommerce: a verified model of the `AutoCoupons` class

Auto Coupons for WooCommerce applies coupons marked "automatic" to a
shopper's cart without the shopper typing a code. Everything it decides is
in the `AutoCoupons` class (`includes/class-autocoupons.php`):

- it inserts an enable checkbox into WooCommerce's general settings;
- it stores a coupon's auto-apply flag when the coupon is saved;
- it rewrites the error, label and HTML texts of automatic coupons;
- it caches the coupon objects it builds;
- it records which cart lines each coupon discounts;
- on every totals calculation and at checkout validation, it walks the list
  of automatic coupons, adding the valid ones to the cart and removing the
  invalid ones.

Each WordPress or WooCommerce call the class makes is an oracle here. Each
one is a function-valued field of the `Host` datatype:

- the discount engine's verdict;
- `add_discount`;
- `is_valid_for_product`;
- `is_coupon_emails_allowed`;
- post meta;
- nonce checks;
- `sanitize_email` and e-mail validation;
- the request fields;
- `is_admin`.

The model never looks inside these calls. The only framework effects spelled
out are the two the plugin relies on:

- a successful `add_discount` appends the code to the cart's applied codes;
- `remove_coupon` takes the code out.

The modules follow the class:

- `Php`: the parts of PHP's own behaviour the decisions depend on. This is
  `empty()` on strings, `strtolower`, and `FILTER_VALIDATE_BOOLEAN`.
- `Framework`: the oracles (`Host`), the coupon and cart-line records, and
  the cart effect of `remove_coupon`.
- `Settings`: the general-settings filter (a loop, proved against
  `Inserted`) and the save-flag rule.
- `Filters`: the error, label and HTML filters (pure functions).
- `Eligibility`: `is_autoapply`, the e-mail lists checked against a coupon's
  restrictions, `is_coupon_valid_for_user` and `is_valid`.
- `Reconcile`: the specification of the state the class changes, and the
  lemmas about it. The specification covers:
  - the object cache (`Cached`);
  - the discount map (`Mark`);
  - one hook's handling of one coupon, split into the decision taken
    (`TotalsAction`, `CheckoutAction`) and its effect (`Perform`);
  - a whole hook firing (`Walk`, `Fire`).
- `Acwc`: the class `AutoCoupons` with the plugin's state as fields. Its
  methods are proved to follow the `Reconcile` functions exactly. The fields
  are:
  - `available`: the automatic coupon ids;
  - `objects`: the coupon object cache;
  - `discounted`: product → coupon → cart-line key;
  - `cart`: the applied codes.

  `Acwc` also holds `GetAutomatedCoupons`, the cache-aside wrapper around the
  coupon query.

## Model

| member | source | states |
|---|---|---|
| Settings.GeneralSettings | includes/class-autocoupons.php:118-138 | The loop's output is `Inserted(settings, EnableCheckbox())`. Every input entry appears in the output, in its original order. The checkbox sits immediately before each entry whose id is `general_options` and whose type is `sectionend`. The output length is the input length plus the number of such entries. |
| Settings.Layout | includes/class-autocoupons.php:118-138 | For any inserted entry, the output holds every input entry at `Position` (positions strictly increasing), the inserted entry just before each section end, and length input + number of section ends. |
| Settings.Inserted | includes/class-autocoupons.php:121-135 | The specification of the loop: each input entry is emitted in order, preceded by the inserted entry when it closes `general_options`. Its properties are the lemmas below. |
| Settings.InsertedAt | includes/class-autocoupons.php:121-135 | Input entry i is output entry `Position(settings, i)`, which is i plus the number of section ends up to and including i. |
| Settings.InsertedBefore | includes/class-autocoupons.php:123-133 | An entry that closes `general_options` is immediately preceded in the output by the inserted entry. |
| Settings.InsertedLength | includes/class-autocoupons.php:121-135 | The output is longer than the input by the number of section ends. |
| Settings.PositionIncreasing | includes/class-autocoupons.php:121-135 | Input order is kept: earlier entries land at strictly earlier output positions. |
| Settings.IsSet | includes/class-autocoupons.php:123 | PHP's `isset` on a settings entry: the key is present and its value is not null. |
| Settings.IsGeneralOptionsEnd | includes/class-autocoupons.php:123 | The test that decides every insertion: `id` is set and is exactly `general_options`, and `type` is set and is exactly `sectionend`. |
| Settings.EnableCheckbox | includes/class-autocoupons.php:124-131 | The inserted entry has id `_acwc_enable_auto_coupons`, type `checkbox` and default `no`. It is not itself a section end, so it never triggers another insertion. |
| Settings.SavedFlag | includes/class-autocoupons.php:172-186 | Nothing is written exactly when the nonce is missing, empty or fails `wp_verify_nonce` for `woocommerce_save_data`. Otherwise the flag is 0 or 1. It is 1 exactly when the posted value is `yes` and the coupon's discount type is a known coupon type. |
| Settings.SavedFlagReadsBack | includes/class-autocoupons.php:172-186 | What the save writes, read back through `is_autoapply`'s boolean filter, makes the coupon automatic exactly when the box was ticked and the discount type is known. |
| Settings.MetaText | includes/class-autocoupons.php:185 | The text `update_post_meta` stores for the integer flag: `"1"` for 1 and `"0"` otherwise. Read back by `Settings.MetaTextReadsBack`. |
| Settings.MetaTextReadsBack | includes/class-autocoupons.php:161-164 | The stored flag 1 reads back as true through `FILTER_VALIDATE_BOOLEAN`, and 0 reads back as false. |
| Filters.CouponError | includes/class-autocoupons.php:313-342 | A null or non-automatic coupon keeps its message. For an automatic coupon: code 102 gets the "not yours" text, 104 the individual-use text, every other code in 100-114 the empty string, and codes outside 100-114 keep their message. |
| Filters.CouponErrorIdempotent | includes/class-autocoupons.php:313-342 | Filtering an already filtered message changes nothing. |
| Filters.CouponLabel | includes/class-autocoupons.php:264-271 | A non-automatic coupon keeps its label. An automatic coupon's label is "Discount type: ", then its amount, then "% " for a `percent` coupon or "€ " otherwise, whatever label came in. |
| Filters.CouponHtml | includes/class-autocoupons.php:282-288 | An automatic coupon's row is exactly the discount-amount HTML. Any other coupon's row is unchanged. |
| Eligibility.FilterType | includes/class-autocoupons.php:355-371 | The nonce is read from GET input exactly for method `GET`, and from COOKIE input exactly for `COOKIE`. Every other method, `POST` included, reads it from POST input: the unassigned `$filter_type` is null, which `filter_input` takes as 0, `INPUT_POST`. |
| Eligibility.CheckEmails | includes/class-autocoupons.php:389-395 | The checked list starts with the first e-mail and has one or two entries, with no duplicates. The extra e-mail is always in it, and nothing else is. |
| Eligibility.IsAutoapply | includes/class-autocoupons.php:161-164 | A coupon is automatic when its `discount_autoapply` meta passes `FILTER_VALIDATE_BOOLEAN`. The stored `"1"` makes it automatic; `"0"` and a missing (empty) meta do not. |
| Eligibility.UserEmail | includes/class-autocoupons.php:391 | The user's e-mail is `sanitize_email` of the account e-mail, lower-cased character by character: same length, and each character is that character's `strtolower`. |
| Eligibility.BillingEmail | includes/class-autocoupons.php:369-384 | A billing e-mail is read only when all of these hold: the `security` nonce is present, non-empty and verifies for `update-order-review`; `post_data` is a string; and the posted value is non-empty and an e-mail. It is lower case. Conversely, when all of them hold, it is exactly the lower-cased `sanitize_email` of the posted value. |
| Eligibility.UserCheckEmails | includes/class-autocoupons.php:369-395 | The list starts with the lower-cased user e-mail and has no duplicates. It holds the billing e-mail exactly when that is non-empty, and is only the user's e-mail otherwise. Every entry is the user's or the billing e-mail. |
| Eligibility.ValidForUser | includes/class-autocoupons.php:350-404 | A coupon without e-mail restrictions is valid for every user. Otherwise it is valid exactly when `is_coupon_emails_allowed` accepts the checked list. |
| Eligibility.CheckoutEmails | includes/class-autocoupons.php:509-519 | The checkout list starts with the user's e-mail and has no duplicates. It holds the lower-cased posted billing e-mail when one was posted non-empty, and only the user's e-mail otherwise. Every entry is one of those two. |
| Eligibility.IsValid | includes/class-autocoupons.php:440-451 | The coupon is valid exactly when the discount engine returns true; a `WP_Error` means invalid. |
| Framework.Load | includes/class-autocoupons.php:67 | A newly built coupon object carries the id it was built for. |
| Framework.WithoutCode | includes/class-autocoupons.php:488 | After `remove_coupon(code)` the cart holds exactly its former codes other than `code`. It stays duplicate-free and does not grow. |
| Reconcile.Record | includes/class-autocoupons.php:421 | Writing `[p][c] = key` sets that entry and leaves every other (product, coupon) entry and every other product's inner map as it was. |
| Reconcile.CouponFor | includes/class-autocoupons.php:65-70 | The object `get_coupon_object(id)` returns: the cached object when the id is cached, and a newly loaded `WC_Coupon` otherwise. |
| Reconcile.Cached | includes/class-autocoupons.php:65-70 | After `get_coupon_object(id)` the id is cached with the object the call returned. An id already cached leaves the cache unchanged. No other id is added, and every existing entry is kept. |
| Reconcile.CachedStable | includes/class-autocoupons.php:65-70 | Filling the cache keeps every entry keyed by its own id. Afterwards every id resolves to the same object as before. |
| Reconcile.Discounted | includes/class-autocoupons.php:419 | A cart line qualifies for a coupon when the coupon is valid for the user and `is_valid_for_product` accepts the line's product. |
| Reconcile.Mark | includes/class-autocoupons.php:413-433 | The discount map after the marking loop: lines are visited in cart order, and each qualifying line writes its key under its product and the coupon. Its properties are the `Mark…` lemmas. |
| Reconcile.MarkNext | includes/class-autocoupons.php:415-429 | Marking one more cart line records its key under its product and the coupon exactly when the line passes both checks. |
| Reconcile.MarkOtherCoupons | includes/class-autocoupons.php:413-433 | Marking for one coupon never changes another coupon's entries. |
| Reconcile.MarkOtherProducts | includes/class-autocoupons.php:413-433 | A product none of whose cart lines passes both checks keeps its entry exactly as it was, or stays absent. |
| Reconcile.MarkLastWins | includes/class-autocoupons.php:413-433 | A line that passes both checks, with no later passing line of the same product, leaves its key recorded. |
| Reconcile.MarkOnlyQualifying | includes/class-autocoupons.php:413-433 | Every entry marking changes is the key of a cart line of that product that passed both checks. |
| Reconcile.TotalsAction | includes/class-autocoupons.php:467-490 | A coupon failing the user or cart check is dropped. A valid one already in the local applied list is only re-marked. Only a code missing from that list is ever added. |
| Reconcile.CheckoutAction | includes/class-autocoupons.php:505-530 | A coupon is dropped exactly when it is valid, its restrictions are non-empty and they reject the checked e-mails. It is never just re-marked. Only a code missing from the local applied list is added. |
| Reconcile.Perform | includes/class-autocoupons.php:468-490 | The effect of a decision: every action fills the cache. Drop removes the code from the cart (`remove_coupon`). Apply appends it to cart and local list and marks the cart lines. Remark only marks. Keep changes nothing else. |
| Reconcile.Step | includes/class-autocoupons.php:470-490 | One loop iteration: resolve the coupon through the cache, decide for the hook, perform the decision. |
| Reconcile.Walk | includes/class-autocoupons.php:470-490 | The loop over the automatic coupons, handled one after another in list order, each seeing the state the previous one left. |
| Reconcile.Start | includes/class-autocoupons.php:468 | At the start of either hook the local `$applied_coupons` is a copy of the cart's applied codes (lines 468 and 500). |
| Reconcile.Skipped | includes/class-autocoupons.php:460-466 | The totals hook returns early in the admin outside AJAX, and once the action has fired at least twice. |
| Reconcile.Decide | includes/class-autocoupons.php:458-532 | Neither hook adds a code its local applied list already holds. |
| Reconcile.Fire | includes/class-autocoupons.php:458-466 | The totals hook changes nothing in the admin outside AJAX, or once the action has fired twice. With no automatic coupons, neither hook changes the cart or the discount map. |
| Reconcile.StepCache | includes/class-autocoupons.php:469 | Handling a coupon fills the cache for that coupon only. |
| Reconcile.StepSparesCode | includes/class-autocoupons.php:470-490 | Handling a coupon changes the cart and the local list only at that coupon's code. |
| Reconcile.StepSparesCoupon | includes/class-autocoupons.php:413-433 | Handling a coupon changes the discount map only for that coupon. |
| Reconcile.StepCoherent | includes/class-autocoupons.php:473-480 | Handling a coupon keeps the cart and the local list duplicate-free, with every cart code in the local list. |
| Reconcile.WalkTurn | includes/class-autocoupons.php:468 | The state after turn k + 1 is turn k's state handled for coupon k. |
| Reconcile.WalkCache | includes/class-autocoupons.php:65-70 | Throughout a hook every id resolves to the object it resolved to at the start, and the cache stays keyed by the right ids. |
| Reconcile.WalkFillsCache | includes/class-autocoupons.php:65-70 | After a hook every walked id is cached, besides everything cached before. |
| Reconcile.WalkCoherent | includes/class-autocoupons.php:468-490 | A duplicate-free cart and local list stay so through a whole walk. |
| Reconcile.WalkSparesCode | includes/class-autocoupons.php:468-490 | From turn k on, a code that belongs to none of the remaining coupons keeps its cart and local-list membership. |
| Reconcile.WalkSparesCoupon | includes/class-autocoupons.php:413-433 | A coupon that is not walked keeps all its discount-map entries. |
| Reconcile.AfterTurn | includes/class-autocoupons.php:470-490 | When no later automatic coupon shares coupon k's code, the code is in the final cart exactly when it is after coupon k's own turn, and at that turn the coupon resolves to the object it resolved to at the start. |
| Reconcile.BeforeTurn | includes/class-autocoupons.php:468-490 | With pairwise different codes, coupon k's code is in the cart and in the local list at its turn exactly when it was at the start. |
| Reconcile.FireKeepsCartDuplicateFree | includes/class-autocoupons.php:458-532 | Neither hook ever puts a code into a duplicate-free cart twice. |
| Reconcile.FireSparesOtherCodes | includes/class-autocoupons.php:458-532 | Only the automatic coupons' codes can enter or leave the cart. |
| Reconcile.FireSparesOtherCoupons | includes/class-autocoupons.php:458-532 | Only the automatic coupons' entries of the discount map can change. |
| Reconcile.TotalsRemovesInvalid | includes/class-autocoupons.php:472-489 | After totals, an automatic coupon that failed the user or cart check at its turn is not in the cart, provided no later automatic coupon shares its code. |
| Reconcile.TotalsKeepsValid | includes/class-autocoupons.php:472-485 | After totals, a coupon valid at its turn (and whose code no later coupon shares) is in the cart exactly when it was there at its turn, or it was missing from the local list and `add_discount` accepted it. |
| Reconcile.TotalsKeepsValidFromStart | includes/class-autocoupons.php:468-485 | With pairwise different codes, a coupon valid at its turn is in the final cart exactly when it was in the cart at the start or `add_discount` accepted it. |
| Reconcile.CheckoutLeavesInvalid | includes/class-autocoupons.php:505-506 | At checkout, a coupon the discount engine rejects at its turn (and whose code no later coupon shares) keeps the cart membership it had at its turn. |
| Reconcile.CheckoutLeavesInvalidFromStart | includes/class-autocoupons.php:500-506 | With pairwise different codes, such a coupon keeps the cart membership it had at the start. |
| Reconcile.CheckoutRemovesDisallowed | includes/class-autocoupons.php:521-524 | At checkout, a valid coupon whose restrictions reject the checked e-mails is out of the cart, provided no later automatic coupon shares its code. |
| Reconcile.CheckoutAppliesAllowed | includes/class-autocoupons.php:521-529 | At checkout, a valid coupon that is unrestricted or allowed (and whose code no later coupon shares) is in the cart exactly when it was there at its turn, or it was missing from the local list and `add_discount` accepted it. |
| Reconcile.CheckoutAppliesAllowedFromStart | includes/class-autocoupons.php:500-529 | With pairwise different codes, such a coupon is in the final cart exactly when it was in the cart at the start or `add_discount` accepted it. |
| Acwc.GetAutomatedCoupons | includes/class-autocoupons.php:75-111 | A cached list, even an empty one, is returned as is. Otherwise the query's ids are copied in order and stored in the cache. |
| Acwc.AutoCoupons.constructor | includes/class-autocoupons.php:33-58 | The automatic coupon list is loaded through `GetAutomatedCoupons` only when the enable option is `yes`: the cached list when there is one, the query result otherwise. It is empty when the option is anything else. The cache and the discount map start empty. |
| Acwc.AutoCoupons.GetCouponObject | includes/class-autocoupons.php:65-70 | The id is cached afterwards. A repeated call returns the cached object and changes nothing. A first call returns a newly loaded object. Other entries are untouched (`Cached`). |
| Acwc.AutoCoupons.AddDiscount | includes/class-autocoupons.php:477 | The cart gains the code at its end exactly when `add_discount` succeeds. |
| Acwc.AutoCoupons.RemoveCoupon | includes/class-autocoupons.php:488 | The cart afterwards is `WithoutCode` of the cart before. |
| Acwc.AutoCoupons.MarkProductsAsDiscounted | includes/class-autocoupons.php:413-433 | The loop leaves the discount map equal to `Mark` over the cart lines, for the coupon object the cache resolves. The cache is filled for the coupon when the cart has lines. |
| Acwc.AutoCoupons.TotalsTurn | includes/class-autocoupons.php:468-490 | One pass of the totals loop body leaves cache, map, cart and local list equal to `Step` for the totals hook. |
| Acwc.AutoCoupons.AfterCalculateTotals | includes/class-autocoupons.php:458-491 | After the hook, cache, discount map and cart equal `Fire` for the totals hook. This includes the two early returns. |
| Acwc.AutoCoupons.CheckoutTurn | includes/class-autocoupons.php:502-530 | One pass of the checkout loop body leaves cache, map, cart and local list equal to `Step` for the checkout hook. |
| Acwc.AutoCoupons.AfterCheckoutValidation | includes/class-autocoupons.php:498-532 | After the hook, cache, discount map and cart equal `Fire` for the checkout hook. |
| Php.Empty | includes/class-autocoupons.php:173 | PHP's `empty()` on a string: true exactly for `""` and `"0"`. It decides the nonce and e-mail guards at lines 173, 374, 381, 393 and 513. |
| Php.ToLower | includes/class-autocoupons.php:391 | `strtolower` keeps the length and maps each character by `LowerChar`, so no upper-case ASCII letter is left. It changes nothing in a string that has none. |
| Php.LowerChar | includes/class-autocoupons.php:391 | An ASCII capital becomes the lower-case letter 32 code points above it. Every other character is unchanged. |
| Php.TrimStart | includes/class-autocoupons.php:163 | The result is a suffix of the input. Every character removed is blank, and the result does not start with a blank. |
| Php.TrimEnd | includes/class-autocoupons.php:163 | The result is a prefix of the input. Every character removed is blank, and the result does not end with a blank. |
| Php.ValidateBoolean | includes/class-autocoupons.php:163 | `FILTER_VALIDATE_BOOLEAN`: after trimming blanks and lower-casing, the text is one of `1`, `true`, `on`, `yes`. |

## Left out

- The bootstrap file `auto-coupons-for-woocommerce.php` is not part of this model. It only checks that WooCommerce is active, defines constants and prints an admin notice.
- `woocommerce_cart_product_subtotal` is left out. It is floating-point price, tax and `wc_price` HTML arithmetic.
- `woocommerce_coupon_options` is left out, as is its `'no '` value. It renders a checkbox through `woocommerce_wp_checkbox` and decides nothing.
- `instance()` and hook registration are left out, because they are dispatch. The constructor keeps only the enable-option test that decides whether the automatic list is loaded.
- Notices are left out: `wc_add_notice`, `wc_clear_notices`, the `print_notice` parameter and `is_cart()`. `wc_add_notice` only affects what is displayed. `wc_clear_notices` does more: it discards every pending notice, error notices included. The marking loop calls it for every marked line whenever `$print_notice` is false (lines 426-427), which is always the case at checkout (line 528) and in the totals hook whenever `is_cart()` is false (lines 480 and 483). WooCommerce creates the order only when no error notice is pending after `woocommerce_after_checkout_validation`, so a coupon applied at checkout can wipe an error that would have stopped the order. The model does not capture this effect on whether checkout goes ahead.
- Translation (`__()`) is the identity here. Texts are the English originals.
- Request parsing is an oracle (`Request`). This covers `filter_input` with `FILTER_SANITIZE_FULL_SPECIAL_CHARS`, `parse_str` of `post_data`, `sanitize_email`, `FILTER_VALIDATE_EMAIL` and `wp_verify_nonce`. The oracle's `postedBilling` is the `billing_email` value `parse_str` finds. As written, `post_data` is read with `FILTER_SANITIZE_FULL_SPECIAL_CHARS` (line 375), which turns every `&` into `&amp;` before `parse_str` (line 379). Every key after the first then parses as `amp;<name>`, so `billing_email` is found only when it is the form's first field. The model does not capture this; for a usual checkout form the billing-e-mail branch of `is_coupon_valid_for_user` likely never fires.
- `wp_cache_get`/`wp_cache_set` and `get_posts` in `get_automated_coupons` are parameters: the cached value and the query result. `GetAutomatedCoupons` returns the entry it would store; the constructor discards it, because the object cache lies outside the `AutoCoupons` object.
- `WC_Discounts::is_coupon_valid`, `add_discount`, `is_valid_for_product` and `is_coupon_emails_allowed` are oracles. The side effects `add_discount` may have besides appending the code are not modelled. These include its own totals recalculation and the removal of other coupons for individual-use coupons.
- Framework.WithoutCode: removes every occurrence of the code. WooCommerce's `remove_coupon` removes the first one. The two agree on the duplicate-free carts the hooks keep (`FireKeepsCartDuplicateFree`).
- `wc_format_coupon_code` normalisation is left out. Codes are compared exactly as stored.
- Coupon amounts are the strings the label prints, not floating-point values.
- Reconcile.TotalsRemovesInvalid, Reconcile.TotalsKeepsValid, Reconcile.CheckoutLeavesInvalid, Reconcile.CheckoutRemovesDisallowed and Reconcile.CheckoutAppliesAllowed: require that no later automatic coupon has the same code (`LastWithCode`). WooCommerce allows two coupons to share a code and only warns about it. With a shared code the last coupon carrying it decides: a later invalid coupon's `remove_coupon` takes out a code an earlier one has just added.
- Reconcile.TotalsKeepsValidFromStart, Reconcile.CheckoutLeavesInvalidFromStart and Reconcile.CheckoutAppliesAllowedFromStart: require pairwise different codes (`DistinctCodes`), because they relate the final cart to the cart at the start, and an earlier coupon with the same code could change the code's membership before the coupon's own turn.
- The totals hook's `$cart` argument (lines 468 and 488) is taken to be `WC()->cart` (lines 415 and 477). The two differ when WooCommerce calculates totals for another cart object. The model then still applies codes to and removes them from one cart.
- Framework.Load: a newly loaded coupon object carries the id it was asked for. WooCommerce does not guarantee this for an id that no longer names a coupon (the object then has id 0). The id is forced so the cache stays keyed by the right ids.
- Running the totals hook twice is not proved idempotent. The oracles, such as the engine's verdict, may answer differently on the second run.
