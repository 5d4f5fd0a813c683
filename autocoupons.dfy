/**
 * The `AutoCoupons` object and the methods that change its state: the coupon
 * object cache, the applied-discount map, and the cart's applied codes it
 * reconciles on every totals calculation and at checkout validation.
 */
module Acwc {
  import opened Basics
  import opened Php
  import opened Framework
  import opened Eligibility
  import opened Reconcile

  /**
   * `get_automated_coupons`: the list cached under "get_automated_coupons"
   * when there is one (an empty list included); otherwise the ids the
   * coupon query returned, copied one by one and stored in the cache.
   * `stored` is the cache entry afterwards.
   */
  method GetAutomatedCoupons(cached: Option<seq<CouponId>>, queried: seq<CouponId>)
    returns (ids: seq<CouponId>, stored: Option<seq<CouponId>>)
    ensures cached.Some? ==> ids == cached.value && stored == cached
    ensures cached.None? ==> ids == queried && stored == Some(queried)
  {
    if cached.Some? {
      return cached.value, cached;
    }
    ids := [];
    var i := 0;
    while i < |queried|
      invariant 0 <= i <= |queried|
      invariant ids == queried[..i]
    {
      ids := ids + [queried[i]];
      i := i + 1;
    }
    stored := Some(ids);
  }

  class AutoCoupons {
    /** `discount_available_coupons`: the ids of the automatic coupons. */
    var available: seq<CouponId>
    /** `discount_coupon_objects`: the coupon objects built so far in this request. */
    var objects: Objects
    /** `discount_applied_coupons`: product -> coupon -> cart item key. */
    var discounted: Discounts
    /** The applied coupon codes of `WC()->cart`. */
    var cart: seq<Code>

    ghost predicate Valid()
      reads this
    {
      CacheValid(objects)
    }

    /**
     * The constructor: the automatic coupon list is loaded through
     * `get_automated_coupons` (from the object cache entry `cached`, or from
     * the query result `queried`) only when the `_acwc_enable_auto_coupons`
     * option is "yes"; otherwise it stays empty.
     */
    constructor (enableOption: string, cached: Option<seq<CouponId>>, queried: seq<CouponId>, cartCodes: seq<Code>)
      ensures Valid()
      ensures enableOption != "yes" ==> available == []
      ensures enableOption == "yes" ==> available == (if cached.Some? then cached.value else queried)
      ensures objects == map[] && discounted == map[] && cart == cartCodes
    {
      if enableOption == "yes" {
        var ids, _ := GetAutomatedCoupons(cached, queried);
        available := ids;
      } else {
        available := [];
      }
      objects := map[];
      discounted := map[];
      cart := cartCodes;
    }

    /**
     * `get_coupon_object`: builds and caches the coupon on the first request
     * for an id, and returns the cached object on every later one.
     */
    method GetCouponObject(h: Host, id: CouponId) returns (coupon: Coupon)
      requires Valid()
      modifies this`objects
      ensures Valid()
      ensures objects == Cached(old(objects), h, id)
      ensures id in objects && coupon == objects[id] && coupon.id == id
      ensures id in old(objects) ==> coupon == old(objects)[id] && objects == old(objects)
      ensures id !in old(objects) ==> coupon == Load(h, id)
    {
      if id !in objects {
        objects := objects[id := Load(h, id)];
      }
      coupon := objects[id];
    }

    /** `WC()->cart->add_discount(code)`: on success the code is appended to the cart. */
    method AddDiscount(h: Host, code: Code) returns (added: bool)
      modifies this`cart
      ensures added == h.addDiscount(code, old(cart))
      ensures cart == if added then old(cart) + [code] else old(cart)
    {
      added := h.addDiscount(code, cart);
      if added {
        cart := cart + [code];
      }
    }

    /** `remove_coupon(code)`: the code leaves the cart; every other code stays. */
    method RemoveCoupon(code: Code)
      modifies this`cart
      ensures cart == WithoutCode(old(cart), code)
      ensures forall c :: c in cart <==> c in old(cart) && c != code
    {
      cart := WithoutCode(cart, code);
    }

    /**
     * `mark_products_as_discounted`: records, for every cart line that the
     * coupon is valid for (user check and product check), the line's key
     * under its product and the coupon id.
     */
    method MarkProductsAsDiscounted(h: Host, cid: CouponId)
      requires Valid()
      modifies this`objects, this`discounted
      ensures Valid()
      ensures objects == if |h.cartItems| == 0 then old(objects) else Cached(old(objects), h, cid)
      ensures discounted == Mark(old(discounted), h.cartItems, cid, CouponFor(old(objects), h, cid), h)
    {
      ghost var resolved := CouponFor(objects, h, cid);
      ghost var marked := discounted;
      ghost var cached := objects;
      var items := h.cartItems;
      var i := 0;
      while i < |items|
        invariant 0 <= i <= |items|
        invariant Valid()
        invariant objects == if i == 0 then cached else Cached(cached, h, cid)
        invariant discounted == Mark(marked, items[..i], cid, resolved, h)
      {
        var item := items[i];
        var coupon := GetCouponObject(h, cid);
        MarkNext(marked, items, i, cid, resolved, h);
        if Discounted(h, coupon, item) {
          discounted := Record(discounted, item.product, cid, item.key);
        }
        i := i + 1;
      }
      assert items[..i] == items;
    }

    /**
     * The body of the `woocommerce_after_calculate_totals` loop for coupon
     * `cid`: one failing the user or cart check is removed from the cart, a
     * valid one not yet in `applied` is added, and its cart lines are marked
     * when it is added or already applied.
     */
    method TotalsTurn(h: Host, cid: CouponId, applied: seq<Code>) returns (appliedAfter: seq<Code>)
      requires Valid()
      modifies this`objects, this`discounted, this`cart
      ensures Valid()
      ensures Round(objects, discounted, cart, appliedAfter)
           == Step(CalculateTotals, Round(old(objects), old(discounted), old(cart), applied), h, cid)
    {
      appliedAfter := applied;
      var coupon := GetCouponObject(h, cid);
      var code := coupon.code;
      if ValidForUser(h, coupon) && IsValid(h, coupon, cart) {
        if code !in applied {
          var added := AddDiscount(h, code);
          if added {
            appliedAfter := applied + [code];
            MarkProductsAsDiscounted(h, cid);
          }
        } else {
          MarkProductsAsDiscounted(h, cid);
        }
      } else {
        RemoveCoupon(code);
      }
    }

    /**
     * `woocommerce_after_calculate_totals`: unless in the admin outside AJAX
     * or after the action has fired twice, walks the automatic coupons in
     * order, each as TotalsTurn describes.
     */
    method AfterCalculateTotals(h: Host)
      requires Valid()
      modifies this`objects, this`discounted, this`cart
      ensures Valid()
      ensures var r := Fire(CalculateTotals, h, old(objects), old(discounted), old(cart), available);
              objects == r.objects && discounted == r.discounted && cart == r.cart
    {
      if h.isAdmin && !h.doingAjax {
        return;
      }
      if h.totalsFired >= 2 {
        return;
      }
      ghost var start := Start(objects, discounted, cart);
      var applied := cart;
      var i := 0;
      assert available[..0] == [];
      while i < |available|
        invariant 0 <= i <= |available|
        invariant Valid()
        invariant Round(objects, discounted, cart, applied) == Turn(CalculateTotals, start, h, available, i)
      {
        applied := TotalsTurn(h, available[i], applied);
        WalkTurn(CalculateTotals, start, h, available, i);
        i := i + 1;
      }
      assert available[..i] == available;
    }

    /**
     * The body of the `woocommerce_after_checkout_validation` loop for
     * coupon `cid`: a coupon the discount engine rejects is left alone, a
     * valid one whose email restrictions reject the checked emails is
     * removed, and any other valid one is added (and its lines marked) when
     * not yet in `applied`.
     */
    method CheckoutTurn(h: Host, billing: Option<string>, cid: CouponId, applied: seq<Code>) returns (appliedAfter: seq<Code>)
      requires Valid()
      modifies this`objects, this`discounted, this`cart
      ensures Valid()
      ensures Round(objects, discounted, cart, appliedAfter)
           == Step(CheckoutValidation(billing), Round(old(objects), old(discounted), old(cart), applied), h, cid)
    {
      appliedAfter := applied;
      var coupon := GetCouponObject(h, cid);
      if IsValid(h, coupon, cart) {
        var code := coupon.code;
        var emails := CheckoutEmails(h, billing);
        var restrictions := coupon.emailRestrictions;
        if |restrictions| > 0 && !h.emailsAllowed(emails, restrictions) {
          RemoveCoupon(code);
        } else if code !in applied {
          var added := AddDiscount(h, code);
          if added {
            appliedAfter := applied + [code];
            MarkProductsAsDiscounted(h, cid);
          }
        }
      }
    }

    /**
     * `woocommerce_after_checkout_validation`: walks the automatic coupons
     * in order, each as CheckoutTurn describes.
     */
    method AfterCheckoutValidation(h: Host, billing: Option<string>)
      requires Valid()
      modifies this`objects, this`discounted, this`cart
      ensures Valid()
      ensures var r := Fire(CheckoutValidation(billing), h, old(objects), old(discounted), old(cart), available);
              objects == r.objects && discounted == r.discounted && cart == r.cart
    {
      ghost var start := Start(objects, discounted, cart);
      var applied := cart;
      var i := 0;
      assert available[..0] == [];
      while i < |available|
        invariant 0 <= i <= |available|
        invariant Valid()
        invariant Round(objects, discounted, cart, applied) == Turn(CheckoutValidation(billing), start, h, available, i)
      {
        applied := CheckoutTurn(h, billing, available[i], applied);
        WalkTurn(CheckoutValidation(billing), start, h, available, i);
        i := i + 1;
      }
      assert available[..i] == available;
    }
  }
}
