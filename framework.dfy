/**
 * What the plugin sees of WordPress and WooCommerce. Every call into the host
 * framework is an oracle: a field of `Host` whose value the model never looks
 * inside. The only host effects the model spells out are the two the plugin
 * relies on for the cart's list of applied coupon codes: a successful
 * `add_discount` appends the code, `remove_coupon` takes it out.
 */
module Framework {
  import opened Basics
  import opened Php

  type CouponId = int
  type ProductId = int
  type Code = string
  type CartItemKey = string

  /** The parts of a `WC_Coupon` object that the plugin reads. */
  datatype Coupon = Coupon(
    id: CouponId,
    code: Code,
    amount: string,            // get_amount(), as it is printed into a label
    discountType: string,      // get_discount_type(): "percent", "fixed_cart", ...
    emailRestrictions: seq<string>)

  /** One line of `WC()->cart->get_cart()`: its key and the id of its product. */
  datatype CartItem = CartItem(key: CartItemKey, product: ProductId)

  /** What `WC_Discounts::is_coupon_valid` returns: a boolean or a `WP_Error`. */
  datatype Verdict = Valid(ok: bool) | WpError(code: int)

  /** The first argument of `filter_input`. */
  datatype InputSource = InputGet | InputPost | InputCookie

  /** The request data the plugin reads, already parsed by PHP. */
  datatype Request = Request(
    verb: string,                                   // REQUEST_METHOD
    field: (InputSource, string) -> Option<string>, // filter_input(source, name, FILTER_SANITIZE_FULL_SPECIAL_CHARS)
    postDataIsString: bool,                         // isset($_REQUEST['post_data']) && is_string(...)
    postedBilling: Option<string>)                  // billing_email in the parsed post_data

  /** The host framework during one hook invocation. */
  datatype Host = Host(
    isAdmin: bool,                                  // is_admin()
    doingAjax: bool,                                // defined('DOING_AJAX')
    totalsFired: nat,                               // did_action('woocommerce_after_calculate_totals')
    postMeta: CouponId -> string,                   // get_post_meta(id, 'discount_autoapply', true)
    storedCoupon: CouponId -> Coupon,               // what new WC_Coupon(id) loads
    verdict: (Coupon, seq<Code>) -> Verdict,        // WC_Discounts::is_coupon_valid against the current cart
    addDiscount: (Code, seq<Code>) -> bool,         // WC()->cart->add_discount(code) === true
    emailsAllowed: (seq<string>, seq<string>) -> bool, // WC()->cart->is_coupon_emails_allowed
    validForProduct: (Coupon, ProductId) -> bool,   // $coupon->is_valid_for_product
    cartItems: seq<CartItem>,                       // WC()->cart->get_cart()
    userEmail: string,                              // wp_get_current_user()->user_email
    sanitizeEmail: string -> string,                // sanitize_email
    isEmail: string -> bool,                        // filter_var(..., FILTER_VALIDATE_EMAIL) !== false
    verifyNonce: (string, string) -> bool,          // wp_verify_nonce(value, action)
    request: Request)

  /** `new WC_Coupon($id)`: the stored coupon, carrying the id it was loaded for. */
  function Load(h: Host, id: CouponId): (c: Coupon)
    ensures c.id == id
    ensures c.code == h.storedCoupon(id).code
  {
    h.storedCoupon(id).(id := id)
  }

  /** The cart's applied codes after `remove_coupon(code)`. */
  function WithoutCode(cart: seq<Code>, code: Code): (r: seq<Code>)
    ensures forall c :: c in r <==> c in cart && c != code
    ensures NoDup(cart) ==> NoDup(r)
    ensures |r| <= |cart|
    decreases |cart|
  {
    if cart == [] then []
    else if cart[0] == code then WithoutCode(cart[1..], code)
    else
      var rest := WithoutCode(cart[1..], code);
      assert NoDup(cart) ==> cart[0] !in cart[1..] by {
        assert forall j :: 0 <= j < |cart[1..]| ==> cart[1..][j] == cart[j + 1];
      }
      [cart[0]] + rest
  }
}
