/** `Hide_Shipping_Rates\Rule\User` (inc/class-rule-user.php): membership of the
    current user id and the logged-in state. */
module RuleUser {
  import opened Values
  import opened Snapshot

  /** `User::rule_values`: `users => []` and `logged_in => 'no'`. */
  function RuleValues(values: Bag): (r: Bag)
    ensures "users" in r && r["users"] == List([])
    ensures "logged_in" in r && r["logged_in"] == Str("no")
    ensures forall k :: k in r <==> k in values || k == "users" || k == "logged_in"
    ensures forall k :: k in values && k != "users" && k != "logged_in" ==> k in r && r[k] == values[k]
  {
    values + map["users" := List([]), "logged_in" := Str("no")]
  }

  /** `User::rule_filters($matched, $rule)`. */
  function RuleFilters(matched: bool, rule: Bag, ctx: Context): (r: bool)
    ensures Get(rule, "type") == Str("user:users") ==>
              (r <==> matched ||
                      (Get(rule, "operator") == Str("any_in_list") && Contains(ListAt(rule, "users"), ctx.userId)) ||
                      (Get(rule, "operator") == Str("not_in_list") && !Contains(ListAt(rule, "users"), ctx.userId)))
    ensures Get(rule, "type") == Str("user:logged_in") && Get(rule, "logged_in") == Str("yes") ==> r == ctx.loggedIn
    ensures Get(rule, "type") == Str("user:logged_in") && Get(rule, "logged_in") == Str("no") ==> r == !ctx.loggedIn
    ensures Get(rule, "type") == Str("user:logged_in") && Get(rule, "logged_in") !in [Str("yes"), Str("no")] ==> r == matched
    ensures Get(rule, "type") !in [Str("user:users"), Str("user:logged_in")] ==> r == matched
  {
    var operator := Get(rule, "operator");
    if Get(rule, "type") == Str("user:users") && operator == Str("any_in_list") && Contains(ListAt(rule, "users"), ctx.userId) then true
    else if Get(rule, "type") == Str("user:users") && operator == Str("not_in_list") && !Contains(ListAt(rule, "users"), ctx.userId) then true
    else if Get(rule, "type") == Str("user:logged_in") && Get(rule, "logged_in") == Str("yes") then ctx.loggedIn
    else if Get(rule, "type") == Str("user:logged_in") && Get(rule, "logged_in") == Str("no") then !ctx.loggedIn
    else matched
  }

  /** For the same list, exactly one of `any_in_list` and `not_in_list` matches
      a user rule; in particular an empty list matches every user under
      `not_in_list`. */
  lemma UserOperatorsExclusive(rule: Bag, ctx: Context)
    requires Get(rule, "type") == Str("user:users")
    ensures RuleFilters(false, rule["operator" := Str("any_in_list")], ctx) !=
            RuleFilters(false, rule["operator" := Str("not_in_list")], ctx)
  {
    var a := rule["operator" := Str("any_in_list")];
    var b := rule["operator" := Str("not_in_list")];
    assert Get(a, "type") == Get(b, "type") == Str("user:users");
    assert ListAt(a, "users") == ListAt(rule, "users") == ListAt(b, "users");
  }

  /** With the default `logged_in` value a logged-in rule matches exactly the
      guests, whatever it was handed. */
  lemma DefaultLoggedInMatchesGuests(matched: bool, values: Bag, ctx: Context)
    ensures RuleFilters(matched, RuleValues(values)["type" := Str("user:logged_in")], ctx) == !ctx.loggedIn
  {
    var rule := RuleValues(values)["type" := Str("user:logged_in")];
    assert Get(rule, "logged_in") == Str("no");
  }
}
