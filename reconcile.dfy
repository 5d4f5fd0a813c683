/**
 * The specification of the plugin's request-scoped state changes: the coupon
 * object cache, the applied-discount map (product -> coupon -> cart line) and
 * the cart's applied codes, as they evolve while the two reconciliation hooks
 * walk the list of automatic coupons. The class in module Acwc is proved to
 * follow these functions; the lemmas here say what the functions guarantee.
 */
module Reconcile {
  import opened Basics
  import opened Php
  import opened Framework
  import opened Eligibility

  /** `discount_applied_coupons`: product id -> coupon id -> cart item key. */
  type Discounts = map<ProductId, map<CouponId, CartItemKey>>

  /** `discount_coupon_objects`: coupon id -> the coupon object built for it. */
  type Objects = map<CouponId, Coupon>

  /** The entry `$d[$p][$c]`, if set. */
  function Lookup(d: Discounts, p: ProductId, c: CouponId): Option<CartItemKey> {
    if p in d && c in d[p] then Some(d[p][c]) else None
  }

  /** `$d[$p][$c] = $key`, creating the inner array when the product has none. */
  function Record(d: Discounts, p: ProductId, c: CouponId, key: CartItemKey): (r: Discounts)
    ensures Lookup(r, p, c) == Some(key)
    ensures forall q, k :: q != p || k != c ==> Lookup(r, q, k) == Lookup(d, q, k)
    ensures r.Keys == d.Keys + {p}
    ensures forall q :: q != p && q in d ==> r[q] == d[q]
  {
    d[p := (if p in d then d[p] else map[])[c := key]]
  }

  // ---------------------------------------------------------------------------
  // The coupon object cache (get_coupon_object)

  /** The object `get_coupon_object(id)` returns: the cached one, or a newly loaded one. */
  function CouponFor(objects: Objects, h: Host, id: CouponId): Coupon {
    if id in objects then objects[id] else Load(h, id)
  }

  /** The cache after `get_coupon_object(id)`. */
  function Cached(objects: Objects, h: Host, id: CouponId): (r: Objects)
    ensures id in r && r[id] == CouponFor(objects, h, id)
    ensures id in objects ==> r == objects
    ensures forall y :: y != id ==> (y in r <==> y in objects)
    ensures forall y :: y in objects ==> r[y] == objects[y]
  {
    if id in objects then objects else objects[id := Load(h, id)]
  }

  /** Every cached object was built for the id it is cached under. */
  predicate CacheValid(objects: Objects) {
    forall id :: id in objects ==> objects[id].id == id
  }

  /** Filling the cache keeps it valid, and afterwards every id answers with the same object as before. */
  lemma CachedStable(objects: Objects, h: Host, id: CouponId)
    ensures CacheValid(objects) ==> CacheValid(Cached(objects, h, id))
    ensures forall y :: CouponFor(Cached(objects, h, id), h, y) == CouponFor(objects, h, y)
    ensures CacheValid(objects) ==> CouponFor(objects, h, id).id == id
  {
  }

  // ---------------------------------------------------------------------------
  // mark_products_as_discounted

  /** The test a cart line must pass to be recorded as discounted by the coupon. */
  predicate Discounted(h: Host, coupon: Coupon, item: CartItem) {
    ValidForUser(h, coupon) && h.validForProduct(coupon, item.product)
  }

  /** The discount map after marking every qualifying cart line for coupon `cid`, line by line. */
  function Mark(d: Discounts, items: seq<CartItem>, cid: CouponId, coupon: Coupon, h: Host): Discounts
    decreases |items|
  {
    if items == [] then d
    else
      var before := Mark(d, items[..|items| - 1], cid, coupon, h);
      var item := items[|items| - 1];
      if Discounted(h, coupon, item) then Record(before, item.product, cid, item.key) else before
  }

  /** Marking the first i + 1 lines is marking the first i and then handling line i. */
  lemma MarkNext(d: Discounts, items: seq<CartItem>, i: nat, cid: CouponId, coupon: Coupon, h: Host)
    requires i < |items|
    ensures Mark(d, items[..i + 1], cid, coupon, h)
         == var before := Mark(d, items[..i], cid, coupon, h);
            if Discounted(h, coupon, items[i]) then Record(before, items[i].product, cid, items[i].key) else before
  {
    assert items[..i + 1][..i] == items[..i];
  }

  /** Marking for one coupon never touches another coupon's entries. */
  lemma {:induction false} MarkOtherCoupons(d: Discounts, items: seq<CartItem>, cid: CouponId, coupon: Coupon, h: Host)
    ensures forall p, c :: c != cid ==> Lookup(Mark(d, items, cid, coupon, h), p, c) == Lookup(d, p, c)
    decreases |items|
  {
    if items != [] {
      MarkOtherCoupons(d, items[..|items| - 1], cid, coupon, h);
    }
  }

  /** A product none of whose cart lines qualifies keeps its entry exactly as it was (or stays absent). */
  lemma {:induction false} MarkOtherProducts(d: Discounts, items: seq<CartItem>, cid: CouponId, coupon: Coupon, h: Host, p: ProductId)
    requires forall i :: 0 <= i < |items| && items[i].product == p ==> !Discounted(h, coupon, items[i])
    ensures p in Mark(d, items, cid, coupon, h) <==> p in d
    ensures p in d ==> Mark(d, items, cid, coupon, h)[p] == d[p]
    decreases |items|
  {
    if items != [] {
      MarkOtherProducts(d, items[..|items| - 1], cid, coupon, h, p);
    }
  }

  /** A qualifying line that no later qualifying line of the same product overrides leaves its key in the map. */
  lemma {:induction false} MarkLastWins(d: Discounts, items: seq<CartItem>, cid: CouponId, coupon: Coupon, h: Host, i: nat)
    requires i < |items| && Discounted(h, coupon, items[i])
    requires forall j :: i < j < |items| && items[j].product == items[i].product ==> !Discounted(h, coupon, items[j])
    ensures Lookup(Mark(d, items, cid, coupon, h), items[i].product, cid) == Some(items[i].key)
    decreases |items|
  {
    if i < |items| - 1 {
      MarkLastWins(d, items[..|items| - 1], cid, coupon, h, i);
    }
  }

  /** Every entry marking sets for the coupon comes from a qualifying cart line of that product. */
  lemma {:induction false} MarkOnlyQualifying(d: Discounts, items: seq<CartItem>, cid: CouponId, coupon: Coupon, h: Host, p: ProductId)
    requires Lookup(Mark(d, items, cid, coupon, h), p, cid) != Lookup(d, p, cid)
    ensures exists i :: 0 <= i < |items| && items[i].product == p && Discounted(h, coupon, items[i])
              && Lookup(Mark(d, items, cid, coupon, h), p, cid) == Some(items[i].key)
    decreases |items|
  {
    var n := |items|;
    var front := items[..n - 1];
    var before := Mark(d, front, cid, coupon, h);
    if Discounted(h, coupon, items[n - 1]) && items[n - 1].product == p {
      assert 0 <= n - 1 < |items| && items[n - 1].product == p && Discounted(h, coupon, items[n - 1])
             && Lookup(Mark(d, items, cid, coupon, h), p, cid) == Some(items[n - 1].key);
    } else {
      assert Lookup(Mark(d, items, cid, coupon, h), p, cid) == Lookup(before, p, cid);
      MarkOnlyQualifying(d, front, cid, coupon, h, p);
      var i :| 0 <= i < |front| && front[i].product == p && Discounted(h, coupon, front[i])
               && Lookup(before, p, cid) == Some(front[i].key);
      assert items[i] == front[i];
    }
  }

  // ---------------------------------------------------------------------------
  // The two reconciliation walks

  /**
   * The state a reconciliation walk carries from coupon to coupon: the
   * plugin's cache and discount map, the cart's applied codes, and the
   * hook's local copy `$applied_coupons`, which only grows.
   */
  datatype Round = Round(objects: Objects, discounted: Discounts, cart: seq<Code>, applied: seq<Code>)

  /** Which hook is walking: after totals are calculated, or after checkout validation with its posted billing email. */
  datatype Event = CalculateTotals | CheckoutValidation(billing: Option<string>)

  /**
   * What a hook does with one automatic coupon: take it out of the cart, add
   * it and mark the cart lines it discounts, only mark the lines (it is
   * already applied), or leave everything as it is.
   */
  datatype Action = Drop | Apply | Remark | Keep

  /**
   * `woocommerce_after_calculate_totals`, for one coupon: one failing the
   * user or cart check is dropped; a valid one not yet in the local list is
   * applied when `add_discount` accepts it, and a valid one already in it
   * is re-marked.
   */
  function TotalsAction(r: Round, h: Host, coupon: Coupon): (a: Action)
    ensures a == Apply ==> coupon.code !in r.applied
    ensures a == Drop <==> !(ValidForUser(h, coupon) && IsValid(h, coupon, r.cart))
    ensures a == Remark <==> ValidForUser(h, coupon) && IsValid(h, coupon, r.cart) && coupon.code in r.applied
  {
    if ValidForUser(h, coupon) && IsValid(h, coupon, r.cart) then
      if coupon.code !in r.applied then
        if h.addDiscount(coupon.code, r.cart) then Apply else Keep
      else Remark
    else Drop
  }

  /**
   * `woocommerce_after_checkout_validation`, for one coupon: only a coupon
   * the discount engine accepts is touched; it is dropped when its email
   * restrictions reject the checked emails, and otherwise applied when not
   * yet in the local list and `add_discount` accepts it.
   */
  function CheckoutAction(r: Round, h: Host, billing: Option<string>, coupon: Coupon): (a: Action)
    ensures a == Apply ==> coupon.code !in r.applied
    ensures a != Remark
    ensures a == Drop <==>
              IsValid(h, coupon, r.cart) && |coupon.emailRestrictions| > 0
              && !h.emailsAllowed(CheckoutEmails(h, billing), coupon.emailRestrictions)
  {
    if IsValid(h, coupon, r.cart) then
      if |coupon.emailRestrictions| > 0 && !h.emailsAllowed(CheckoutEmails(h, billing), coupon.emailRestrictions) then
        Drop
      else if coupon.code !in r.applied && h.addDiscount(coupon.code, r.cart) then Apply
      else Keep
    else Keep
  }

  function Decide(e: Event, r: Round, h: Host, coupon: Coupon): (a: Action)
    ensures a == Apply ==> coupon.code !in r.applied
  {
    match e
    case CalculateTotals => TotalsAction(r, h, coupon)
    case CheckoutValidation(billing) => CheckoutAction(r, h, billing, coupon)
  }

  /** The round after `action` on coupon `cid`, whose object is `coupon`; the cache is filled for `cid` in every case. */
  function Perform(r: Round, h: Host, cid: CouponId, coupon: Coupon, action: Action): Round {
    var objects := Cached(r.objects, h, cid);
    match action
    case Drop => Round(objects, r.discounted, WithoutCode(r.cart, coupon.code), r.applied)
    case Apply =>
      Round(objects, Mark(r.discounted, h.cartItems, cid, coupon, h), r.cart + [coupon.code], r.applied + [coupon.code])
    case Remark => Round(objects, Mark(r.discounted, h.cartItems, cid, coupon, h), r.cart, r.applied)
    case Keep => Round(objects, r.discounted, r.cart, r.applied)
  }

  /** The hook's handling of one automatic coupon, as `get_coupon_object` resolves it. */
  function Step(e: Event, r: Round, h: Host, cid: CouponId): Round {
    var coupon := CouponFor(r.objects, h, cid);
    Perform(r, h, cid, coupon, Decide(e, r, h, coupon))
  }

  /** The state after the hook has handled every coupon of `ids`, in order. */
  function Walk(e: Event, r: Round, h: Host, ids: seq<CouponId>): Round
    decreases |ids|
  {
    if ids == [] then r else Step(e, Walk(e, r, h, ids[..|ids| - 1]), h, ids[|ids| - 1])
  }

  /** The state when coupon `ids[k]` gets its turn. */
  function Turn(e: Event, r: Round, h: Host, ids: seq<CouponId>, k: nat): Round
    requires k <= |ids|
  {
    Walk(e, r, h, ids[..k])
  }

  /** At the start of a hook the local applied list is a copy of the cart's. */
  function Start(objects: Objects, discounted: Discounts, cart: seq<Code>): Round {
    Round(objects, discounted, cart, cart)
  }

  /** The early returns of `woocommerce_after_calculate_totals`. */
  predicate Skipped(h: Host) {
    (h.isAdmin && !h.doingAjax) || h.totalsFired >= 2
  }

  /** One firing of a hook over the automatic coupon list `available`. */
  function Fire(e: Event, h: Host, objects: Objects, discounted: Discounts, cart: seq<Code>, available: seq<CouponId>): (r: Round)
    ensures e.CalculateTotals? && Skipped(h) ==> r.objects == objects && r.discounted == discounted && r.cart == cart
    ensures available == [] ==> r.discounted == discounted && r.cart == cart
  {
    if e.CalculateTotals? && Skipped(h) then Start(objects, discounted, cart)
    else Walk(e, Start(objects, discounted, cart), h, available)
  }

  // ---------------------------------------------------------------------------
  // What one step may change

  /** The cart holds no code twice, the local list neither, and every cart code is in the local list. */
  predicate Coherent(r: Round) {
    NoDup(r.cart) && NoDup(r.applied) && forall c :: c in r.cart ==> c in r.applied
  }

  /** A step fills the cache for its coupon and changes nothing else in it. */
  lemma StepCache(e: Event, r: Round, h: Host, cid: CouponId)
    ensures Step(e, r, h, cid).objects == Cached(r.objects, h, cid)
  {
  }

  /** A step changes the cart and the local list only at its own coupon's code. */
  lemma StepSparesCode(e: Event, r: Round, h: Host, cid: CouponId, c: Code)
    requires c != CouponFor(r.objects, h, cid).code
    ensures c in Step(e, r, h, cid).cart <==> c in r.cart
    ensures c in Step(e, r, h, cid).applied <==> c in r.applied
  {
  }

  /** A step changes the discount map only for its own coupon. */
  lemma StepSparesCoupon(e: Event, r: Round, h: Host, cid: CouponId, p: ProductId, c: CouponId)
    requires c != cid
    ensures Lookup(Step(e, r, h, cid).discounted, p, c) == Lookup(r.discounted, p, c)
  {
    MarkOtherCoupons(r.discounted, h.cartItems, cid, CouponFor(r.objects, h, cid), h);
  }

  /** A step keeps the round coherent: a code is appended only when the local list lacks it. */
  lemma StepCoherent(e: Event, r: Round, h: Host, cid: CouponId)
    requires Coherent(r)
    ensures Coherent(Step(e, r, h, cid))
  {
    var r' := Step(e, r, h, cid);
    var code := CouponFor(r.objects, h, cid).code;
    if r'.applied != r.applied {
      assert r'.applied == r.applied + [code] && r'.cart == r.cart + [code];
      assert code !in r.applied && code !in r.cart;
    }
  }

  lemma WalkTurn(e: Event, r: Round, h: Host, ids: seq<CouponId>, k: nat)
    requires k < |ids|
    ensures Turn(e, r, h, ids, k + 1) == Step(e, Turn(e, r, h, ids, k), h, ids[k])
  {
    assert ids[..k + 1][..k] == ids[..k];
  }

  // ---------------------------------------------------------------------------
  // What a whole walk may change

  /** After a walk, every id answers from the cache with the object it answered with before. */
  lemma {:induction false} WalkCache(e: Event, r: Round, h: Host, ids: seq<CouponId>)
    ensures forall y :: CouponFor(Walk(e, r, h, ids).objects, h, y) == CouponFor(r.objects, h, y)
    ensures CacheValid(r.objects) ==> CacheValid(Walk(e, r, h, ids).objects)
    decreases |ids|
  {
    if ids != [] {
      var front := ids[..|ids| - 1];
      WalkCache(e, r, h, front);
      StepCache(e, Walk(e, r, h, front), h, ids[|ids| - 1]);
      CachedStable(Walk(e, r, h, front).objects, h, ids[|ids| - 1]);
    }
  }

  /** After a walk the cache holds every walked id, besides everything it held before. */
  lemma {:induction false} WalkFillsCache(e: Event, r: Round, h: Host, ids: seq<CouponId>, y: CouponId)
    requires y in ids || y in r.objects
    ensures y in Walk(e, r, h, ids).objects
    decreases |ids|
  {
    if ids != [] {
      var front := ids[..|ids| - 1];
      var last := ids[|ids| - 1];
      var w := Walk(e, r, h, front);
      assert Walk(e, r, h, ids) == Step(e, w, h, last);
      StepCache(e, w, h, last);
      if y != last {
        assert y in front || y in r.objects by {
          assert ids == front + [last];
        }
        WalkFillsCache(e, r, h, front, y);
        assert y in Cached(w.objects, h, last);
      }
    }
  }

  /** A coherent round stays coherent through a walk. */
  lemma {:induction false} WalkCoherent(e: Event, r: Round, h: Host, ids: seq<CouponId>)
    requires Coherent(r)
    ensures Coherent(Walk(e, r, h, ids))
    decreases |ids|
  {
    if ids != [] {
      WalkCoherent(e, r, h, ids[..|ids| - 1]);
      StepCoherent(e, Walk(e, r, h, ids[..|ids| - 1]), h, ids[|ids| - 1]);
    }
  }

  /** The code of the coupon an id stands for, as the cache of `objects` resolves it. */
  function CodeOf(objects: Objects, h: Host, id: CouponId): Code {
    CouponFor(objects, h, id).code
  }

  /** From turn k on, a code that belongs to none of the remaining coupons keeps its place in the cart and in the local list. */
  lemma {:induction false} WalkSparesCode(e: Event, r: Round, h: Host, ids: seq<CouponId>, k: nat, c: Code)
    requires k <= |ids|
    requires forall j :: k <= j < |ids| ==> CodeOf(r.objects, h, ids[j]) != c
    ensures c in Walk(e, r, h, ids).cart <==> c in Turn(e, r, h, ids, k).cart
    ensures c in Walk(e, r, h, ids).applied <==> c in Turn(e, r, h, ids, k).applied
    decreases |ids|
  {
    if k == |ids| {
      assert ids[..k] == ids;
    } else {
      var n := |ids|;
      var front := ids[..n - 1];
      var w := Walk(e, r, h, front);
      assert Walk(e, r, h, ids) == Step(e, w, h, ids[n - 1]);
      assert ids[..k] == front[..k];
      assert Turn(e, r, h, ids, k) == Turn(e, r, h, front, k);
      assert forall j :: k <= j < |front| ==> front[j] == ids[j];
      WalkSparesCode(e, r, h, front, k, c);
      WalkCache(e, r, h, front);
      assert CouponFor(w.objects, h, ids[n - 1]) == CouponFor(r.objects, h, ids[n - 1]);
      assert CodeOf(r.objects, h, ids[n - 1]) != c;
      StepSparesCode(e, w, h, ids[n - 1], c);
    }
  }

  /** A coupon that is not walked keeps every entry it had in the discount map. */
  lemma {:induction false} WalkSparesCoupon(e: Event, r: Round, h: Host, ids: seq<CouponId>, p: ProductId, c: CouponId)
    requires c !in ids
    ensures Lookup(Walk(e, r, h, ids).discounted, p, c) == Lookup(r.discounted, p, c)
    decreases |ids|
  {
    if ids != [] {
      var front := ids[..|ids| - 1];
      assert c !in front by {
        assert forall j :: 0 <= j < |front| ==> front[j] == ids[j];
      }
      WalkSparesCoupon(e, r, h, front, p, c);
      StepSparesCoupon(e, Walk(e, r, h, front), h, ids[|ids| - 1], p, c);
    }
  }

  /**
   * No automatic coupon after turn k resolves to coupon k's code. Nothing in
   * the plugin keeps codes apart, so two automatic coupons may share one;
   * the last of them then has the final word on the code.
   */
  predicate LastWithCode(objects: Objects, h: Host, ids: seq<CouponId>, k: nat)
    requires k < |ids|
  {
    forall j :: k < j < |ids| ==> CodeOf(objects, h, ids[j]) != CodeOf(objects, h, ids[k])
  }

  /** The automatic coupons resolve to pairwise different codes. */
  predicate DistinctCodes(objects: Objects, h: Host, ids: seq<CouponId>) {
    forall i, j :: 0 <= i < j < |ids| ==> CodeOf(objects, h, ids[i]) != CodeOf(objects, h, ids[j])
  }

  /**
   * When no later coupon shares coupon k's code, the code's membership in the
   * final cart is the one coupon k's own turn leaves, and at that turn the
   * coupon resolves to the object it resolved to at the start.
   */
  lemma AfterTurn(e: Event, r: Round, h: Host, ids: seq<CouponId>, k: nat)
    requires k < |ids| && LastWithCode(r.objects, h, ids, k)
    ensures var c := CodeOf(r.objects, h, ids[k]);
            && (c in Walk(e, r, h, ids).cart <==> c in Step(e, Turn(e, r, h, ids, k), h, ids[k]).cart)
            && CouponFor(Turn(e, r, h, ids, k).objects, h, ids[k]) == CouponFor(r.objects, h, ids[k])
  {
    var c := CodeOf(r.objects, h, ids[k]);
    WalkSparesCode(e, r, h, ids, k + 1, c);
    WalkTurn(e, r, h, ids, k);
    WalkCache(e, r, h, ids[..k]);
  }

  /** With distinct codes, coupon k's code is in the cart and in the local list at its turn exactly when it was at the start. */
  lemma BeforeTurn(e: Event, r: Round, h: Host, ids: seq<CouponId>, k: nat)
    requires k < |ids| && DistinctCodes(r.objects, h, ids)
    ensures var c := CodeOf(r.objects, h, ids[k]);
            && (c in Turn(e, r, h, ids, k).cart <==> c in r.cart)
            && (c in Turn(e, r, h, ids, k).applied <==> c in r.applied)
  {
    var c := CodeOf(r.objects, h, ids[k]);
    var front := ids[..k];
    assert front[..0] == [];
    assert forall j :: 0 <= j < |front| ==> front[j] == ids[j];
    WalkSparesCode(e, r, h, front, 0, c);
  }

  // ---------------------------------------------------------------------------
  // What the hooks guarantee

  /** Neither hook ever puts a code into the cart twice. */
  lemma FireKeepsCartDuplicateFree(e: Event, h: Host, objects: Objects, discounted: Discounts, cart: seq<Code>, available: seq<CouponId>)
    requires NoDup(cart)
    ensures NoDup(Fire(e, h, objects, discounted, cart, available).cart)
  {
    if !(e.CalculateTotals? && Skipped(h)) {
      WalkCoherent(e, Start(objects, discounted, cart), h, available);
    }
  }

  /** Only the automatic coupons' codes can enter or leave the cart. */
  lemma FireSparesOtherCodes(e: Event, h: Host, objects: Objects, discounted: Discounts, cart: seq<Code>, available: seq<CouponId>, c: Code)
    requires forall j :: 0 <= j < |available| ==> CodeOf(objects, h, available[j]) != c
    ensures c in Fire(e, h, objects, discounted, cart, available).cart <==> c in cart
  {
    if !(e.CalculateTotals? && Skipped(h)) {
      WalkSparesCode(e, Start(objects, discounted, cart), h, available, 0, c);
      assert available[..0] == [];
    }
  }

  /** Only the automatic coupons' entries of the discount map can change. */
  lemma FireSparesOtherCoupons(e: Event, h: Host, objects: Objects, discounted: Discounts, cart: seq<Code>, available: seq<CouponId>, p: ProductId, c: CouponId)
    requires c !in available
    ensures Lookup(Fire(e, h, objects, discounted, cart, available).discounted, p, c) == Lookup(discounted, p, c)
  {
    if !(e.CalculateTotals? && Skipped(h)) {
      WalkSparesCoupon(e, Start(objects, discounted, cart), h, available, p, c);
    }
  }

  /**
   * After totals are calculated, an automatic coupon that failed the user or
   * cart check at its turn is not in the cart, provided no later automatic
   * coupon shares its code. With a shared code this is the later coupon's
   * say: it removes the code even when an earlier coupon has just added it.
   */
  lemma TotalsRemovesInvalid(h: Host, objects: Objects, discounted: Discounts, cart: seq<Code>, available: seq<CouponId>, k: nat)
    requires !Skipped(h) && k < |available| && LastWithCode(objects, h, available, k)
    requires var coupon := CouponFor(objects, h, available[k]);
             !(ValidForUser(h, coupon) && IsValid(h, coupon, Turn(CalculateTotals, Start(objects, discounted, cart), h, available, k).cart))
    ensures CodeOf(objects, h, available[k]) !in Fire(CalculateTotals, h, objects, discounted, cart, available).cart
  {
    AfterTurn(CalculateTotals, Start(objects, discounted, cart), h, available, k);
  }

  /**
   * After totals are calculated, an automatic coupon that passed both checks
   * at its turn (and that no later automatic coupon shares a code with) is in
   * the cart exactly when it was there at its turn, or it was missing from
   * the local applied list and `add_discount` accepted it.
   */
  lemma TotalsKeepsValid(h: Host, objects: Objects, discounted: Discounts, cart: seq<Code>, available: seq<CouponId>, k: nat)
    requires !Skipped(h) && k < |available| && LastWithCode(objects, h, available, k)
    requires var coupon := CouponFor(objects, h, available[k]);
             ValidForUser(h, coupon) && IsValid(h, coupon, Turn(CalculateTotals, Start(objects, discounted, cart), h, available, k).cart)
    ensures var code := CodeOf(objects, h, available[k]);
            var t := Turn(CalculateTotals, Start(objects, discounted, cart), h, available, k);
            code in Fire(CalculateTotals, h, objects, discounted, cart, available).cart <==>
            code in t.cart || (code !in t.applied && h.addDiscount(code, t.cart))
  {
    AfterTurn(CalculateTotals, Start(objects, discounted, cart), h, available, k);
  }

  /** With distinct codes, a coupon valid at its turn ends up in the cart exactly when it was there at the start or `add_discount` accepted it. */
  lemma TotalsKeepsValidFromStart(h: Host, objects: Objects, discounted: Discounts, cart: seq<Code>, available: seq<CouponId>, k: nat)
    requires !Skipped(h) && k < |available| && DistinctCodes(objects, h, available)
    requires var coupon := CouponFor(objects, h, available[k]);
             ValidForUser(h, coupon) && IsValid(h, coupon, Turn(CalculateTotals, Start(objects, discounted, cart), h, available, k).cart)
    ensures var code := CodeOf(objects, h, available[k]);
            code in Fire(CalculateTotals, h, objects, discounted, cart, available).cart <==>
            code in cart || h.addDiscount(code, Turn(CalculateTotals, Start(objects, discounted, cart), h, available, k).cart)
  {
    BeforeTurn(CalculateTotals, Start(objects, discounted, cart), h, available, k);
    TotalsKeepsValid(h, objects, discounted, cart, available, k);
  }

  /** At checkout, a coupon the discount engine rejects at its turn (and whose code no later coupon shares) keeps the cart membership it had at its turn. */
  lemma CheckoutLeavesInvalid(h: Host, billing: Option<string>, objects: Objects, discounted: Discounts, cart: seq<Code>, available: seq<CouponId>, k: nat)
    requires k < |available| && LastWithCode(objects, h, available, k)
    requires !IsValid(h, CouponFor(objects, h, available[k]), Turn(CheckoutValidation(billing), Start(objects, discounted, cart), h, available, k).cart)
    ensures var code := CodeOf(objects, h, available[k]);
            code in Fire(CheckoutValidation(billing), h, objects, discounted, cart, available).cart <==>
            code in Turn(CheckoutValidation(billing), Start(objects, discounted, cart), h, available, k).cart
  {
    AfterTurn(CheckoutValidation(billing), Start(objects, discounted, cart), h, available, k);
  }

  /** With distinct codes, a coupon the discount engine rejects at its turn keeps the cart membership it had at the start. */
  lemma CheckoutLeavesInvalidFromStart(h: Host, billing: Option<string>, objects: Objects, discounted: Discounts, cart: seq<Code>, available: seq<CouponId>, k: nat)
    requires k < |available| && DistinctCodes(objects, h, available)
    requires !IsValid(h, CouponFor(objects, h, available[k]), Turn(CheckoutValidation(billing), Start(objects, discounted, cart), h, available, k).cart)
    ensures var code := CodeOf(objects, h, available[k]);
            code in Fire(CheckoutValidation(billing), h, objects, discounted, cart, available).cart <==> code in cart
  {
    BeforeTurn(CheckoutValidation(billing), Start(objects, discounted, cart), h, available, k);
    CheckoutLeavesInvalid(h, billing, objects, discounted, cart, available, k);
  }

  /** At checkout, a valid coupon whose email restrictions reject the checked emails is taken out of the cart, unless a later coupon shares its code. */
  lemma CheckoutRemovesDisallowed(h: Host, billing: Option<string>, objects: Objects, discounted: Discounts, cart: seq<Code>, available: seq<CouponId>, k: nat)
    requires k < |available| && LastWithCode(objects, h, available, k)
    requires var coupon := CouponFor(objects, h, available[k]);
             && IsValid(h, coupon, Turn(CheckoutValidation(billing), Start(objects, discounted, cart), h, available, k).cart)
             && |coupon.emailRestrictions| > 0
             && !h.emailsAllowed(CheckoutEmails(h, billing), coupon.emailRestrictions)
    ensures CodeOf(objects, h, available[k]) !in Fire(CheckoutValidation(billing), h, objects, discounted, cart, available).cart
  {
    AfterTurn(CheckoutValidation(billing), Start(objects, discounted, cart), h, available, k);
  }

  /**
   * At checkout, a valid coupon whose email restrictions are empty or allow
   * the checked emails (and whose code no later coupon shares) is in the cart
   * exactly when it was there at its turn, or it was missing from the local
   * applied list and `add_discount` accepted it.
   */
  lemma CheckoutAppliesAllowed(h: Host, billing: Option<string>, objects: Objects, discounted: Discounts, cart: seq<Code>, available: seq<CouponId>, k: nat)
    requires k < |available| && LastWithCode(objects, h, available, k)
    requires var coupon := CouponFor(objects, h, available[k]);
             && IsValid(h, coupon, Turn(CheckoutValidation(billing), Start(objects, discounted, cart), h, available, k).cart)
             && (|coupon.emailRestrictions| == 0 || h.emailsAllowed(CheckoutEmails(h, billing), coupon.emailRestrictions))
    ensures var code := CodeOf(objects, h, available[k]);
            var t := Turn(CheckoutValidation(billing), Start(objects, discounted, cart), h, available, k);
            code in Fire(CheckoutValidation(billing), h, objects, discounted, cart, available).cart <==>
            code in t.cart || (code !in t.applied && h.addDiscount(code, t.cart))
  {
    AfterTurn(CheckoutValidation(billing), Start(objects, discounted, cart), h, available, k);
  }

  /** With distinct codes, an allowed valid coupon ends up in the cart exactly when it was there at the start or `add_discount` accepted it. */
  lemma CheckoutAppliesAllowedFromStart(h: Host, billing: Option<string>, objects: Objects, discounted: Discounts, cart: seq<Code>, available: seq<CouponId>, k: nat)
    requires k < |available| && DistinctCodes(objects, h, available)
    requires var coupon := CouponFor(objects, h, available[k]);
             && IsValid(h, coupon, Turn(CheckoutValidation(billing), Start(objects, discounted, cart), h, available, k).cart)
             && (|coupon.emailRestrictions| == 0 || h.emailsAllowed(CheckoutEmails(h, billing), coupon.emailRestrictions))
    ensures var code := CodeOf(objects, h, available[k]);
            code in Fire(CheckoutValidation(billing), h, objects, discounted, cart, available).cart <==>
            code in cart || h.addDiscount(code, Turn(CheckoutValidation(billing), Start(objects, discounted, cart), h, available, k).cart)
  {
    BeforeTurn(CheckoutValidation(billing), Start(objects, discounted, cart), h, available, k);
    CheckoutAppliesAllowed(h, billing, objects, discounted, cart, available, k);
  }
}
