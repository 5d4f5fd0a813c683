/**
 * The filters that rewrite coupon text for automatic coupons: the error and
 * status messages, the row label and the row HTML in the cart totals table.
 * A coupon that is not automatic always passes through unchanged.
 */
module Filters {
  import opened Basics
  import opened Php
  import opened Framework
  import opened Eligibility

  const NotYoursText: string :=
    "Sorry, it seems the discount is not yours - it has now been removed from your order."
  const IndividualUseText: string :=
    "Sorry, a discount coupon has already been applied and cannot be used in conjunction with other coupons."

  /**
   * `woocommerce_coupon_error`. For an automatic coupon every code of the
   * range 100-114 is handled: 102 and 104 get the plugin's own wording, all
   * others are blanked; codes outside the range keep their message.
   */
  function CouponError(h: Host, message: string, code: int, coupon: Option<Coupon>): (r: string)
    ensures coupon.None? || !IsAutoapply(h, coupon.value.id) ==> r == message
    ensures coupon.Some? && IsAutoapply(h, coupon.value.id) ==>
              && (code == 102 ==> r == NotYoursText)
              && (code == 104 ==> r == IndividualUseText)
              && (100 <= code <= 114 && code != 102 && code != 104 ==> r == "")
              && (code < 100 || 114 < code ==> r == message)
  {
    if coupon.Some? && IsAutoapply(h, coupon.value.id) then
      match code
      case 102 => NotYoursText       // WC_Coupon::E_WC_COUPON_NOT_YOURS_REMOVED
      case 104 => IndividualUseText  // WC_Coupon::E_WC_COUPON_ALREADY_APPLIED_INDIV_USE_ONLY
      case 100 | 101 | 103 | 105 | 106 | 107 | 108 | 109 | 110 | 111 | 112 | 113 | 114 => ""
      case _ => message
    else message
  }

  /** Running the error filter again on its own output changes nothing. */
  lemma CouponErrorIdempotent(h: Host, message: string, code: int, coupon: Option<Coupon>)
    ensures CouponError(h, CouponError(h, message, code, coupon), code, coupon)
         == CouponError(h, message, code, coupon)
  {
  }

  const LabelPrefix: string := "Discount type: "

  /**
   * `woocommerce_cart_totals_coupon_label`. An automatic coupon's label is
   * "Discount type: ", its amount and then "% " for a percentage coupon or
   * "€ " for any other type, whatever label came in.
   */
  function CouponLabel(h: Host, incoming: string, coupon: Coupon): (r: string)
    ensures !IsAutoapply(h, coupon.id) ==> r == incoming
    ensures IsAutoapply(h, coupon.id) ==>
              && |r| == |LabelPrefix| + |coupon.amount| + 2
              && r[..|LabelPrefix|] == LabelPrefix
              && r[|LabelPrefix|..|LabelPrefix| + |coupon.amount|] == coupon.amount
              && r[|r| - 2..] == (if coupon.discountType == "percent" then "% " else "€ ")
  {
    if IsAutoapply(h, coupon.id) then
      LabelPrefix + coupon.amount + (if coupon.discountType == "percent" then "% " else "€ ")
    else incoming
  }

  /**
   * `woocommerce_cart_totals_coupon_html`: an automatic coupon's row shows
   * only the discount amount, without the "remove" link.
   */
  function CouponHtml(h: Host, couponHtml: string, coupon: Coupon, discountAmountHtml: string): (r: string)
    ensures IsAutoapply(h, coupon.id) ==> r == discountAmountHtml
    ensures !IsAutoapply(h, coupon.id) ==> r == couponHtml
  {
    if IsAutoapply(h, coupon.id) then discountAmountHtml else couponHtml
  }
}
