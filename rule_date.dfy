/** `Hide_Shipping_Rates\Rule\Date` (inc/class-rule-date.php): weekly-day
    membership and the comparison of the current instant with one or two
    stored instants. The operator of these rules is `date_operator`. */
module RuleDate {
  import opened Strings
  import opened Values
  import opened Snapshot

  /** The keys `rule_values` adds. */
  const AddedKeys: seq<string> := ["date_operator", "time_one", "time_two", "date_one", "date_two", "weekly_days"]

  /** `Date::rule_values`: empty `date_operator`, instants and day list. */
  function RuleValues(values: Bag): (r: Bag)
    ensures "date_operator" in r && r["date_operator"] == Str("")
    ensures "time_one" in r && r["time_one"] == Str("") && "time_two" in r && r["time_two"] == Str("")
    ensures "date_one" in r && r["date_one"] == Str("") && "date_two" in r && r["date_two"] == Str("")
    ensures "weekly_days" in r && r["weekly_days"] == List([])
    ensures forall k :: k in r <==> k in values || k in AddedKeys
    ensures forall k :: k in values && k !in AddedKeys ==> k in r && r[k] == values[k]
  {
    values + map["date_operator" := Str(""), "time_one" := Str(""), "time_two" := Str(""),
                 "date_one" := Str(""), "date_two" := Str(""), "weekly_days" := List([])]
  }

  /** `strtolower(current_time('l'))`. */
  function Today(ctx: Context): Value {
    Str(ToLower(ctx.dayName))
  }

  /** The comparison of `now` with the instants `one` and `two` (read from the
      rule under the keys `oneKey` and `twoKey`), for `date:time` and
      `date:date` alike. An instant that does not parse, or an operator that is
      not one of the four, hands back `matched`. */
  function Window(matched: bool, op: Value, rule: Bag, ctx: Context, oneKey: string, twoKey: string): bool {
    match ctx.parseTime(Get(rule, oneKey))
    case None => matched
    case Some(one) =>
      if op == Str("before") then ctx.now < one
      else if op == Str("after") then ctx.now > one
      else if op == Str("between") then
        match ctx.parseTime(Get(rule, twoKey))
        case None => matched
        case Some(two) => ctx.now >= one && ctx.now <= two
      else if op == Str("not_between") then
        match ctx.parseTime(Get(rule, twoKey))
        case None => matched
        case Some(two) => ctx.now < one || ctx.now > two
      else matched
  }

  /** The keys of the two instants of a time or date rule. */
  function InstantKeys(t: Value): Option<(string, string)> {
    if t == Str("date:time") then Some(("time_one", "time_two"))
    else if t == Str("date:date") then Some(("date_one", "date_two"))
    else None
  }

  /** `Date::rule_filters($matched, $rule)`. */
  function RuleFilters(matched: bool, rule: Bag, ctx: Context): (r: bool)
    // weekly days: membership of today's lower-cased name
    ensures Get(rule, "type") == Str("date:weekly_days") ==>
              (r <==> matched ||
                      (Get(rule, "date_operator") == Str("any_in_list") && Contains(ListAt(rule, "weekly_days"), Today(ctx))) ||
                      (Get(rule, "date_operator") == Str("not_in_list") && !Contains(ListAt(rule, "weekly_days"), Today(ctx))))
    // time and date: the comparison with the instants
    ensures InstantKeys(Get(rule, "type")).Some? ==>
              var keys := InstantKeys(Get(rule, "type")).value;
              var one := ctx.parseTime(Get(rule, keys.0));
              var two := ctx.parseTime(Get(rule, keys.1));
              var op := Get(rule, "date_operator");
              (one.None? ==> r == matched) &&
              (one.Some? && op == Str("before") ==> r == (ctx.now < one.value)) &&
              (one.Some? && op == Str("after") ==> r == (ctx.now > one.value)) &&
              (one.Some? && op in [Str("between"), Str("not_between")] && two.None? ==> r == matched) &&
              (one.Some? && two.Some? && op == Str("between") ==> r == (one.value <= ctx.now <= two.value)) &&
              (one.Some? && two.Some? && op == Str("not_between") ==> r == (ctx.now < one.value || two.value < ctx.now)) &&
              (op !in [Str("before"), Str("after"), Str("between"), Str("not_between")] ==> r == matched)
    // every other type
    ensures Get(rule, "type") != Str("date:weekly_days") && InstantKeys(Get(rule, "type")).None? ==> r == matched
  {
    var operator := Get(rule, "date_operator");
    var t := Get(rule, "type");
    if t == Str("date:weekly_days") then
      var days := ListAt(rule, "weekly_days");
      if operator == Str("any_in_list") && Contains(days, Today(ctx)) then true
      else if operator == Str("not_in_list") && !Contains(days, Today(ctx)) then true
      else matched
    else if t == Str("date:time") then Window(matched, operator, rule, ctx, "time_one", "time_two")
    else if t == Str("date:date") then Window(matched, operator, rule, ctx, "date_one", "date_two")
    else matched
  }

  /** The evaluator never reads `operator`: changing it changes nothing. */
  lemma OperatorIgnored(matched: bool, rule: Bag, ctx: Context, v: Value)
    ensures RuleFilters(matched, rule["operator" := v], ctx) == RuleFilters(matched, rule, ctx)
  {
    var other := rule["operator" := v];
    assert Get(other, "type") == Get(rule, "type");
    var op := Get(rule, "date_operator");
    assert Get(other, "date_operator") == op;
    assert Get(other, "weekly_days") == Get(rule, "weekly_days");
    assert ListAt(other, "weekly_days") == ListAt(rule, "weekly_days");
    assert Get(other, "time_one") == Get(rule, "time_one") && Get(other, "time_two") == Get(rule, "time_two");
    assert Window(matched, op, other, ctx, "time_one", "time_two") == Window(matched, op, rule, ctx, "time_one", "time_two");
    assert Get(other, "date_one") == Get(rule, "date_one") && Get(other, "date_two") == Get(rule, "date_two");
    assert Window(matched, op, other, ctx, "date_one", "date_two") == Window(matched, op, rule, ctx, "date_one", "date_two");
  }

  /** `date:time` over `time_one`/`time_two` answers as `date:date` does over
      `date_one`/`date_two` holding the same instants. */
  lemma TimeAndDateAgree(matched: bool, rule: Bag, ctx: Context)
    requires Get(rule, "type") == Str("date:time")
    ensures RuleFilters(matched, rule, ctx) ==
            RuleFilters(matched, rule["type" := Str("date:date")]["date_one" := Get(rule, "time_one")]
                                     ["date_two" := Get(rule, "time_two")], ctx)
  {
    var other := rule["type" := Str("date:date")]["date_one" := Get(rule, "time_one")]["date_two" := Get(rule, "time_two")];
    assert Get(other, "type") == Str("date:date");
    assert Get(other, "date_operator") == Get(rule, "date_operator");
    assert Get(other, "date_one") == Get(rule, "time_one") && Get(other, "date_two") == Get(rule, "time_two");
  }

  /** For instants that both parse, `not_between` is the exact complement of `between`. */
  lemma NotBetweenComplement(rule: Bag, ctx: Context)
    requires InstantKeys(Get(rule, "type")).Some?
    requires ctx.parseTime(Get(rule, InstantKeys(Get(rule, "type")).value.0)).Some?
    requires ctx.parseTime(Get(rule, InstantKeys(Get(rule, "type")).value.1)).Some?
    ensures RuleFilters(false, rule["date_operator" := Str("not_between")], ctx) ==
            !RuleFilters(false, rule["date_operator" := Str("between")], ctx)
  {
    var a := rule["date_operator" := Str("not_between")];
    var b := rule["date_operator" := Str("between")];
    assert Get(a, "type") == Get(rule, "type") == Get(b, "type");
    var keys := InstantKeys(Get(rule, "type")).value;
    assert Get(a, keys.0) == Get(rule, keys.0) == Get(b, keys.0);
    assert Get(a, keys.1) == Get(rule, keys.1) == Get(b, keys.1);
  }

  /** When the instants parse, the comparison operators do not depend on the
      incoming answer. */
  lemma ComparisonIgnoresMatched(rule: Bag, ctx: Context)
    requires InstantKeys(Get(rule, "type")).Some?
    requires ctx.parseTime(Get(rule, InstantKeys(Get(rule, "type")).value.0)).Some?
    requires ctx.parseTime(Get(rule, InstantKeys(Get(rule, "type")).value.1)).Some?
    requires Get(rule, "date_operator") in [Str("before"), Str("after"), Str("between"), Str("not_between")]
    ensures RuleFilters(true, rule, ctx) == RuleFilters(false, rule, ctx)
  {
  }
}
