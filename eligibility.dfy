/**
 * Whether a coupon is automatic, whether it is valid for the current user
 * (the email-restriction check with its list of emails to test) and whether
 * WooCommerce's discount engine accepts it for the current cart.
 */
module Eligibility {
  import opened Basics
  import opened Php
  import opened Framework

  /** `is_autoapply`: the coupon's `discount_autoapply` meta read through the boolean filter. */
  predicate IsAutoapply(h: Host, id: CouponId)
    ensures h.postMeta(id) == "1" ==> IsAutoapply(h, id)
    ensures h.postMeta(id) == "0" || h.postMeta(id) == "" ==> !IsAutoapply(h, id)
  {
    ValidateBoolean(h.postMeta(id))
  }

  /**
   * The request-method switch that picks where the `security` nonce is read
   * from. No case assigns `$filter_type` for any other method; PHP then
   * passes null, which `filter_input` takes as the integer 0, `INPUT_POST`.
   */
  function FilterType(verb: string): (s: InputSource)
    ensures s == InputGet <==> verb == "GET"
    ensures s == InputCookie <==> verb == "COOKIE"
    ensures s == InputPost <==> verb != "GET" && verb != "COOKIE"
  {
    match verb
    case "GET" => InputGet
    case "POST" => InputPost
    case "COOKIE" => InputCookie
    case _ => InputPost
  }

  /**
   * The list of emails handed to `is_coupon_emails_allowed`: the first one,
   * then `extra` unless it is already in the list.
   */
  function CheckEmails(first: string, extra: Option<string>): (r: seq<string>)
    ensures 1 <= |r| <= 2 && r[0] == first
    ensures NoDup(r)
    ensures extra.Some? ==> extra.value in r
    ensures forall e :: e in r ==> e == first || extra == Some(e)
  {
    if extra.Some? && extra.value != first then [first, extra.value] else [first]
  }

  /** The current user's email as the plugin compares it. */
  function UserEmail(h: Host): (e: string)
    ensures IsLower(e)
    ensures |e| == |h.sanitizeEmail(h.userEmail)|
    ensures forall i :: 0 <= i < |e| ==> e[i] == LowerChar(h.sanitizeEmail(h.userEmail)[i])
  {
    ToLower(h.sanitizeEmail(h.userEmail))
  }

  /**
   * The billing email typed on the order-review page: read only on a request
   * whose `security` nonce verifies for "update-order-review" and which
   * carries `post_data`; "" otherwise or when the posted value is empty or
   * not an email.
   */
  function BillingEmail(h: Host): (e: string)
    ensures e == "" || IsLower(e)
    ensures e != "" ==>
              var security := h.request.field(FilterType(h.request.verb), "security");
              && security.Some? && !Empty(security.value)
              && h.verifyNonce(security.value, "update-order-review")
              && h.request.postDataIsString
              && h.request.postedBilling.Some?
              && !Empty(h.request.postedBilling.value)
              && h.isEmail(h.request.postedBilling.value)
    ensures var security := h.request.field(FilterType(h.request.verb), "security");
            && security.Some? && !Empty(security.value)
            && h.verifyNonce(security.value, "update-order-review")
            && h.request.postDataIsString
            && h.request.postedBilling.Some?
            && !Empty(h.request.postedBilling.value)
            && h.isEmail(h.request.postedBilling.value)
            ==> e == ToLower(h.sanitizeEmail(h.request.postedBilling.value))
  {
    var security := h.request.field(FilterType(h.request.verb), "security");
    if security.Some? && !Empty(security.value) && h.verifyNonce(security.value, "update-order-review")
       && h.request.postDataIsString
    then
      match h.request.postedBilling
      case Some(b) => if !Empty(b) && h.isEmail(b) then ToLower(h.sanitizeEmail(b)) else ""
      case None => ""
    else ""
  }

  /** The emails `is_coupon_valid_for_user` checks: the user's, then the billing email when it is not empty. */
  function UserCheckEmails(h: Host): (r: seq<string>)
    ensures 1 <= |r| <= 2 && r[0] == UserEmail(h)
    ensures NoDup(r)
    ensures forall e :: e in r ==> IsLower(e)
    ensures !Empty(BillingEmail(h)) ==> BillingEmail(h) in r
    ensures Empty(BillingEmail(h)) ==> r == [UserEmail(h)]
    ensures forall e :: e in r ==> e == UserEmail(h) || e == BillingEmail(h)
  {
    var billing := BillingEmail(h);
    CheckEmails(UserEmail(h), if !Empty(billing) then Some(billing) else None)
  }

  /**
   * `is_coupon_valid_for_user`: a coupon without email restrictions is valid
   * for everyone; otherwise WooCommerce decides from the checked emails.
   */
  function ValidForUser(h: Host, coupon: Coupon): (r: bool)
    ensures |coupon.emailRestrictions| == 0 ==> r
    ensures |coupon.emailRestrictions| > 0 ==>
              (r <==> h.emailsAllowed(UserCheckEmails(h), coupon.emailRestrictions))
  {
    if |coupon.emailRestrictions| > 0 then h.emailsAllowed(UserCheckEmails(h), coupon.emailRestrictions)
    else true
  }

  /** The emails checked at checkout: the user's, then the lower-cased posted billing email when it was posted non-empty. */
  function CheckoutEmails(h: Host, billing: Option<string>): (r: seq<string>)
    ensures 1 <= |r| <= 2 && r[0] == UserEmail(h)
    ensures NoDup(r)
    ensures forall e :: e in r ==> IsLower(e)
    ensures billing.Some? && !Empty(billing.value) ==> ToLower(h.sanitizeEmail(billing.value)) in r
    ensures !(billing.Some? && !Empty(billing.value)) ==> r == [UserEmail(h)]
    ensures forall e :: e in r ==> e == UserEmail(h) || (billing.Some? && e == ToLower(h.sanitizeEmail(billing.value)))
  {
    CheckEmails(UserEmail(h),
      if billing.Some? && !Empty(billing.value) then Some(ToLower(h.sanitizeEmail(billing.value))) else None)
  }

  /** `is_valid`: the discount engine's verdict on the current cart, with a `WP_Error` read as false. */
  function IsValid(h: Host, coupon: Coupon, cart: seq<Code>): (r: bool)
    ensures r <==> h.verdict(coupon, cart) == Valid(true)
    ensures h.verdict(coupon, cart).WpError? ==> !r
  {
    match h.verdict(coupon, cart)
    case WpError(_) => false
    case Valid(ok) => ok
  }
}
