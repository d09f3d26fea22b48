/** `Hide_Shipping_Rates\Rule\Cart` (inc/class-rule-cart.php): the default keys of
    cart rules, the numeric comparison of a cart metric with the rule's bounds,
    and the coupon membership rule. */
module RuleCart {
  import opened Values
  import opened Snapshot

  /** `Cart::rule_values`: adds `coupons => []`, `value_two => ''` and
      `cart_value_type => 'in_cart'`, replacing earlier defaults of those names. */
  function RuleValues(values: Bag): (r: Bag)
    ensures "coupons" in r && r["coupons"] == List([])
    ensures "value_two" in r && r["value_two"] == Str("")
    ensures "cart_value_type" in r && r["cart_value_type"] == Str("in_cart")
    ensures forall k :: k in r <==> k in values || k == "coupons" || k == "value_two" || k == "cart_value_type"
    ensures forall k :: k in values && k != "coupons" && k != "value_two" && k != "cart_value_type" ==>
              k in r && r[k] == values[k]
  {
    values + map["coupons" := List([]), "value_two" := Str(""), "cart_value_type" := Str("in_cart")]
  }

  /** The rule types `Cart::rule_filters` answers for. */
  predicate IsCartType(t: Value) {
    t in [Str("cart:subtotal"), Str("cart:total_quantity"), Str("cart:total_weight"), Str("cart:coupons")]
  }

  /** The cart metric a rule type compares, before the `cart_compare_value`
      filter: subtotal, item count or weight; 0 for the coupon type. */
  function Metric(t: Value, ctx: Context): (c: real)
    ensures t == Str("cart:subtotal") ==> c == ctx.subtotal
    ensures t == Str("cart:total_quantity") ==> c == ctx.contentsCount
    ensures t == Str("cart:total_weight") ==> c == ctx.contentsWeight
    ensures t == Str("cart:coupons") ==> c == 0.0
  {
    if t == Str("cart:subtotal") then ctx.subtotal
    else if t == Str("cart:total_quantity") then ctx.contentsCount
    else if t == Str("cart:total_weight") then ctx.contentsWeight
    else 0.0
  }

  /** The lower bound: `floatval($rule['value'])`. */
  function ValueOne(rule: Bag): real {
    FloatVal(Get(rule, "value"))
  }

  /** The upper bound: `floatval($rule['value_two'])`, or 0 when it is not set. */
  function ValueTwo(rule: Bag): (v: real)
    ensures !IsSet(rule, "value_two") ==> v == 0.0
    ensures IsSet(rule, "value_two") ==> v == FloatVal(rule["value_two"])
  {
    if IsSet(rule, "value_two") then FloatVal(rule["value_two"]) else 0.0
  }

  /** What each numeric operator means, as a reference: `c` compared with the
      bounds `lo` and `hi`; `between` includes both ends. */
  predicate NumericHolds(op: Value, c: real, lo: real, hi: real) {
    match op
    case Str(s) =>
      (s == "equal_to" && c == lo) ||
      (s == "less_than" && c < lo) ||
      (s == "less_than_or_equal" && c <= lo) ||
      (s == "greater_than_or_equal" && c >= lo) ||
      (s == "greater_than" && c > lo) ||
      (s == "between" && lo <= c <= hi) ||
      (s == "not_between" && (c < lo || c > hi))
    case _ => false
  }

  /** `Cart::rule_filters($matched, $rule)`; `compareValue` is the
      `cart_compare_value` filter (the identity when nothing is hooked). */
  function RuleFilters(matched: bool, rule: Bag, ctx: Context, compareValue: (real, Bag) -> real): (r: bool)
    ensures !IsCartType(Get(rule, "type")) ==> r == matched
    ensures IsCartType(Get(rule, "type")) ==>
              (r <==> matched ||
                      NumericHolds(Get(rule, "operator"), compareValue(Metric(Get(rule, "type"), ctx), rule),
                                   ValueOne(rule), ValueTwo(rule)))
    ensures matched ==> r
  {
    if !IsCartType(Get(rule, "type")) then matched
    else
      var operator := Get(rule, "operator");
      var lo := ValueOne(rule);
      var hi := ValueTwo(rule);
      var c := compareValue(Metric(Get(rule, "type"), ctx), rule);
      if operator == Str("equal_to") && c == lo then true
      else if operator == Str("less_than") && c < lo then true
      else if operator == Str("less_than_or_equal") && c <= lo then true
      else if operator == Str("greater_than_or_equal") && c >= lo then true
      else if operator == Str("greater_than") && c > lo then true
      else if operator == Str("between") && c >= lo && c <= hi then true
      else if operator == Str("not_between") && (c < lo || c > hi) then true
      else matched
  }

  /** The `cart_compare_value` filter with no callback: the metric itself. */
  function NoCompareHook(c: real, rule: Bag): real {
    c
  }

  /** For the same bounds, `not_between` holds exactly when `between` does not. */
  lemma NotBetweenComplement(rule: Bag, ctx: Context)
    requires IsCartType(Get(rule, "type"))
    ensures RuleFilters(false, rule["operator" := Str("not_between")], ctx, NoCompareHook) <==>
            !RuleFilters(false, rule["operator" := Str("between")], ctx, NoCompareHook)
  {
    var lo := ValueOne(rule);
    var hi := ValueTwo(rule);
    var a := rule["operator" := Str("not_between")];
    var b := rule["operator" := Str("between")];
    assert Get(a, "type") == Get(rule, "type") && Get(b, "type") == Get(rule, "type");
    assert ValueOne(a) == lo && ValueTwo(a) == hi && ValueOne(b) == lo && ValueTwo(b) == hi;
    assert Get(a, "operator") == Str("not_between") && Get(b, "operator") == Str("between");
  }

  /** An operator outside the seven numeric ones passes `matched` through. */
  lemma UnknownOperatorPassesThrough(matched: bool, rule: Bag, ctx: Context, compareValue: (real, Bag) -> real)
    requires Get(rule, "operator") !in
             [Str("equal_to"), Str("less_than"), Str("less_than_or_equal"), Str("greater_than_or_equal"),
              Str("greater_than"), Str("between"), Str("not_between")]
    ensures RuleFilters(matched, rule, ctx, compareValue) == matched
  {
  }

  /** `between` includes both of its bounds. */
  lemma BetweenInclusive(rule: Bag, ctx: Context, compareValue: (real, Bag) -> real)
    requires IsCartType(Get(rule, "type")) && Get(rule, "operator") == Str("between")
    requires ValueOne(rule) <= ValueTwo(rule)
    requires compareValue(Metric(Get(rule, "type"), ctx), rule) == ValueOne(rule) ||
             compareValue(Metric(Get(rule, "type"), ctx), rule) == ValueTwo(rule)
    ensures RuleFilters(false, rule, ctx, compareValue)
  {
  }

  /** The rule's coupon list is usable: the type is `cart:coupons` and `coupons`
      is set to an array. */
  predicate HasCouponList(rule: Bag) {
    Get(rule, "type") == Str("cart:coupons") && IsSet(rule, "coupons") && IsArray(rule["coupons"])
  }

  /** Some configured coupon id names, through its slug, an applied coupon. */
  ghost predicate SomeCouponApplied(rule: Bag, ctx: Context)
    requires HasCouponList(rule)
  {
    exists id :: Contains(rule["coupons"], id) && ctx.couponSlug(id) in ctx.appliedCoupons
  }

  /** `Cart::rule_filter_coupon($matched, $rule)`: with coupons applied,
      `any_in_list` matches when a configured coupon is applied and
      `not_in_list` when none is; otherwise `matched` passes through. */
  function RuleFilterCoupon(matched: bool, rule: Bag, ctx: Context): (r: bool)
    ensures !HasCouponList(rule) || ctx.appliedCoupons == [] ==> r == matched
    ensures HasCouponList(rule) && ctx.appliedCoupons != [] && Get(rule, "operator") == Str("any_in_list") ==>
              (r <==> matched || SomeCouponApplied(rule, ctx))
    ensures HasCouponList(rule) && ctx.appliedCoupons != [] && Get(rule, "operator") == Str("not_in_list") ==>
              (r <==> matched || !SomeCouponApplied(rule, ctx))
    ensures Get(rule, "operator") != Str("any_in_list") && Get(rule, "operator") != Str("not_in_list") ==> r == matched
  {
    var operator := Get(rule, "operator");
    if !HasCouponList(rule) then matched
    else if ctx.appliedCoupons == [] then matched
    else
      var applied := (id: Value) => ctx.couponSlug(id) in ctx.appliedCoupons;
      var n := CountWhere(rule["coupons"], applied);
      CountWherePositive(rule["coupons"], applied);
      if operator == Str("any_in_list") && n > 0 then true
      else if operator == Str("not_in_list") && n == 0 then true
      else matched
  }

  /** With no coupon applied, the coupon rule answers `matched` whatever its
      operator (so, from `false`, neither `any_in_list` nor `not_in_list` matches). */
  lemma NoCouponsPassesThrough(matched: bool, rule: Bag, ctx: Context)
    requires ctx.appliedCoupons == []
    ensures RuleFilterCoupon(matched, rule, ctx) == matched
  {
  }

  /** With coupons applied and the same list, exactly one of `any_in_list` and
      `not_in_list` matches. */
  lemma CouponOperatorsExclusive(rule: Bag, ctx: Context)
    requires HasCouponList(rule) && ctx.appliedCoupons != []
    ensures RuleFilterCoupon(false, rule["operator" := Str("any_in_list")], ctx) !=
            RuleFilterCoupon(false, rule["operator" := Str("not_in_list")], ctx)
  {
    var a := rule["operator" := Str("any_in_list")];
    var b := rule["operator" := Str("not_in_list")];
    assert HasCouponList(a) && HasCouponList(b);
    assert a["coupons"] == rule["coupons"] && b["coupons"] == rule["coupons"];
    assert SomeCouponApplied(a, ctx) == SomeCouponApplied(rule, ctx) == SomeCouponApplied(b, ctx);
  }
}
