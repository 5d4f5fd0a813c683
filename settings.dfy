/**
 * The two admin-side rules: the global enable checkbox that the plugin adds
 * to WooCommerce's general settings, and the value it stores in a coupon's
 * `discount_autoapply` post meta when the coupon edit screen is saved.
 */
module Settings {
  import opened Basics
  import opened Php

  /** A value in a settings array: a string, PHP's null, or anything else (an array, a number). */
  datatype Field = Text(text: string) | Null | Compound

  /** One entry of the settings array: an associative array of fields. */
  type Section = map<string, Field>

  /** `isset($section[$key])`. */
  predicate IsSet(s: Section, key: string) {
    key in s && s[key] != Null
  }

  /** The entry that closes the `general_options` section. */
  predicate IsGeneralOptionsEnd(s: Section) {
    IsSet(s, "id") && s["id"] == Text("general_options") &&
    IsSet(s, "type") && s["type"] == Text("sectionend")
  }

  /** The checkbox for the `_acwc_enable_auto_coupons` option, unchecked by default. */
  function EnableCheckbox(): (c: Section)
    ensures "id" in c && c["id"] == Text("_acwc_enable_auto_coupons")
    ensures "type" in c && c["type"] == Text("checkbox")
    ensures "default" in c && c["default"] == Text("no")
    ensures !IsGeneralOptionsEnd(c)
  {
    map[
      "desc" := Text("Allow coupons to apply automatically"),
      "desc_tip" := Text("Apply coupons automatically without user interaction."),
      "id" := Text("_acwc_enable_auto_coupons"),
      "default" := Text("no"),
      "type" := Text("checkbox"),
      "css" := Text("width:140px;")]
  }

  /** What one input entry contributes to the output when `box` is the entry to insert. */
  function Emitted(s: Section, box: Section): seq<Section> {
    if IsGeneralOptionsEnd(s) then [box, s] else [s]
  }

  /**
   * The settings array with `box` inserted before every entry that closes
   * `general_options`, built entry by entry from the front. The plugin
   * inserts EnableCheckbox(); the layout lemmas hold for any entry.
   */
  function Inserted(settings: seq<Section>, box: Section): seq<Section>
    decreases |settings|
  {
    if settings == [] then []
    else Inserted(settings[..|settings| - 1], box) + Emitted(settings[|settings| - 1], box)
  }

  /** The number of entries that close the `general_options` section. */
  function CountEnds(settings: seq<Section>): nat
    decreases |settings|
  {
    if settings == [] then 0
    else CountEnds(settings[..|settings| - 1]) + (if IsGeneralOptionsEnd(settings[|settings| - 1]) then 1 else 0)
  }

  /** Where input entry i lands in the output: after itself, every earlier entry and every checkbox inserted so far. */
  function Position(settings: seq<Section>, i: nat): nat
    requires i < |settings|
  {
    i + CountEnds(settings[..i + 1])
  }

  lemma {:induction false} CountEndsPrefix(settings: seq<Section>, k: nat)
    requires k <= |settings|
    ensures CountEnds(settings[..k]) <= CountEnds(settings)
    decreases |settings|
  {
    if k < |settings| {
      var front := settings[..|settings| - 1];
      assert settings[..k] == front[..k];
      CountEndsPrefix(front, k);
    } else {
      assert settings[..k] == settings;
    }
  }

  lemma {:induction false} InsertedLength(settings: seq<Section>, box: Section)
    ensures |Inserted(settings, box)| == |settings| + CountEnds(settings)
    decreases |settings|
  {
    if settings != [] {
      InsertedLength(settings[..|settings| - 1], box);
    }
  }

  /** Entry i of the input sits at Position(settings, i) of the output. */
  lemma {:induction false} InsertedAt(settings: seq<Section>, box: Section, i: nat)
    requires i < |settings|
    ensures Position(settings, i) < |Inserted(settings, box)|
    ensures Inserted(settings, box)[Position(settings, i)] == settings[i]
    decreases |settings|
  {
    var n := |settings|;
    var front := settings[..n - 1];
    var w := Inserted(front, box);
    assert Inserted(settings, box) == w + Emitted(settings[n - 1], box);
    if i < n - 1 {
      assert settings[..i + 1] == front[..i + 1];
      InsertedAt(front, box, i);
      assert Position(settings, i) == Position(front, i) < |w|;
    } else {
      InsertedLength(front, box);
      assert settings[..i + 1] == settings;
      assert Position(settings, i) == |w| + |Emitted(settings[i], box)| - 1;
    }
  }

  /** An entry that closes `general_options` has `box` immediately before it in the output. */
  lemma {:induction false} InsertedBefore(settings: seq<Section>, box: Section, i: nat)
    requires i < |settings| && IsGeneralOptionsEnd(settings[i])
    ensures 1 <= Position(settings, i) <= |Inserted(settings, box)|
    ensures Inserted(settings, box)[Position(settings, i) - 1] == box
    decreases |settings|
  {
    var n := |settings|;
    var front := settings[..n - 1];
    var w := Inserted(front, box);
    assert Inserted(settings, box) == w + Emitted(settings[n - 1], box);
    if i < n - 1 {
      assert settings[..i + 1] == front[..i + 1];
      InsertedBefore(front, box, i);
      assert Position(settings, i) == Position(front, i) <= |w|;
    } else {
      InsertedLength(front, box);
      assert settings[..i + 1] == settings;
      assert Emitted(settings[i], box) == [box, settings[i]];
      assert Position(settings, i) == |w| + 1;
    }
  }

  lemma {:induction false} PositionIncreasing(settings: seq<Section>, i: nat, j: nat)
    requires i < j < |settings|
    ensures Position(settings, i) < Position(settings, j)
  {
    assert settings[..i + 1] == settings[..j + 1][..i + 1];
    CountEndsPrefix(settings[..j + 1], i + 1);
  }

  /**
   * The layout of the output: every input entry in order, and `box`
   * immediately before each entry that closes `general_options`.
   */
  lemma Layout(settings: seq<Section>, box: Section)
    ensures |Inserted(settings, box)| == |settings| + CountEnds(settings)
    ensures forall i :: 0 <= i < |settings| ==>
              Position(settings, i) < |Inserted(settings, box)| && Inserted(settings, box)[Position(settings, i)] == settings[i]
    ensures forall i :: 0 <= i < |settings| && IsGeneralOptionsEnd(settings[i]) ==>
              1 <= Position(settings, i) && Inserted(settings, box)[Position(settings, i) - 1] == box
    ensures forall i, j :: 0 <= i < j < |settings| ==> Position(settings, i) < Position(settings, j)
  {
    InsertedLength(settings, box);
    forall i | 0 <= i < |settings|
      ensures Position(settings, i) < |Inserted(settings, box)| && Inserted(settings, box)[Position(settings, i)] == settings[i]
    {
      InsertedAt(settings, box, i);
    }
    forall i | 0 <= i < |settings| && IsGeneralOptionsEnd(settings[i])
      ensures 1 <= Position(settings, i) && Inserted(settings, box)[Position(settings, i) - 1] == box
    {
      InsertedBefore(settings, box, i);
    }
    forall i, j | 0 <= i < j < |settings|
      ensures Position(settings, i) < Position(settings, j)
    {
      PositionIncreasing(settings, i, j);
    }
  }

  /**
   * `woocommerce_general_settings`: copies every entry in order and puts the
   * enable checkbox immediately before each entry that closes
   * `general_options`.
   */
  method GeneralSettings(settings: seq<Section>) returns (updated: seq<Section>)
    ensures updated == Inserted(settings, EnableCheckbox())
    ensures |updated| == |settings| + CountEnds(settings)
    ensures forall i :: 0 <= i < |settings| ==>
              Position(settings, i) < |updated| && updated[Position(settings, i)] == settings[i]
    ensures forall i :: 0 <= i < |settings| && IsGeneralOptionsEnd(settings[i]) ==>
              1 <= Position(settings, i) && updated[Position(settings, i) - 1] == EnableCheckbox()
    ensures forall i, j :: 0 <= i < j < |settings| ==> Position(settings, i) < Position(settings, j)
  {
    var box := EnableCheckbox();
    updated := [];
    var k := 0;
    while k < |settings|
      invariant 0 <= k <= |settings|
      invariant updated == Inserted(settings[..k], box)
    {
      var section := settings[k];
      if IsGeneralOptionsEnd(section) {
        updated := updated + [box];
      }
      updated := updated + [section];
      assert settings[..k + 1][..k] == settings[..k];
      k := k + 1;
    }
    assert settings[..k] == settings;
    Layout(settings, box);
  }

  /** The text `update_post_meta` stores for the integer flag. */
  function MetaText(flag: int): string {
    if flag == 1 then "1" else "0"
  }

  /**
   * `woocommerce_coupon_options_save`: None when nothing is written (the
   * nonce is missing, empty or fails verification); otherwise the flag
   * written to `discount_autoapply`.
   */
  function SavedFlag(
    nonce: Option<string>,
    verifyNonce: (string, string) -> bool,
    posted: Option<string>,
    discountType: string,
    couponTypes: seq<string>): (r: Option<int>)
    ensures r.None? <==>
              nonce.None? || Empty(nonce.value) || !verifyNonce(nonce.value, "woocommerce_save_data")
    ensures r.Some? ==> (r.value == 1 <==> posted == Some("yes") && discountType in couponTypes)
    ensures r.Some? ==> r.value == 0 || r.value == 1
  {
    if nonce.None? || Empty(nonce.value) || !verifyNonce(nonce.value, "woocommerce_save_data") then None
    else
      var requested := if posted.None? then 0 else if posted.value == "yes" then 1 else 0;
      Some(if requested == 1 && discountType in couponTypes then 1 else 0)
  }

  /**
   * What is saved is what the plugin later reads back: the coupon counts as
   * automatic exactly when the box was ticked and its discount type is known.
   */
  lemma SavedFlagReadsBack(
    nonce: Option<string>,
    verifyNonce: (string, string) -> bool,
    posted: Option<string>,
    discountType: string,
    couponTypes: seq<string>)
    requires SavedFlag(nonce, verifyNonce, posted, discountType, couponTypes).Some?
    ensures var flag := SavedFlag(nonce, verifyNonce, posted, discountType, couponTypes).value;
            ValidateBoolean(MetaText(flag)) <==> posted == Some("yes") && discountType in couponTypes
  {
    var flag := SavedFlag(nonce, verifyNonce, posted, discountType, couponTypes).value;
    MetaTextReadsBack(flag);
  }

  /** The stored "1" reads back as true through the boolean filter, the stored "0" as false. */
  lemma MetaTextReadsBack(flag: int)
    ensures ValidateBoolean(MetaText(flag)) <==> flag == 1
  {
    var t := MetaText(flag);
    assert |t| == 1 && !IsBlank(t[0]) && IsLower(t);
    assert TrimStart(t) == t;
    assert TrimEnd(t) == t;
    assert ToLower(t) == t;
  }
}
