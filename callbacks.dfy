/** The `rule_matched` callbacks this plugin registers and how the chain of
    them decides a rule. */
module Callbacks {
  import opened Values
  import opened Snapshot
  import opened Utils
  import opened ShippingRates
  import RuleCart
  import RuleDate
  import RuleUser
  import RuleCartProducts
  import RuleBillingShipping

  /** The `rule_matched` callbacks this plugin registers, in load order. */
  function BuiltinEvaluators(compareValue: (real, Bag) -> real): (e: seq<Evaluator>)
    ensures |e| == 6
  {
    [(m: bool, r: Bag, c: Context) => RuleCart.RuleFilters(m, r, c, compareValue),
     RuleCart.RuleFilterCoupon, RuleDate.RuleFilters, RuleUser.RuleFilters,
     RuleCartProducts.RuleFilters, RuleBillingShipping.RuleFilters]
  }

  /** A rule type one of the built-in callbacks answers for. */
  predicate KnownType(t: Value, taxonomies: seq<Taxonomy>) {
    RuleCart.IsCartType(t) || t == Str("date:weekly_days") || RuleDate.InstantKeys(t).Some? ||
    t == Str("user:users") || t == Str("user:logged_in") ||
    RuleCartProducts.IsCartProductsType(t, taxonomies) ||
    t in [Str("billing:city"), Str("shipping:city"), Str("billing:country"), Str("shipping:country")]
  }

  /** Every built-in callback hands back what it is given for a rule of unknown type. */
  lemma BuiltinPassThrough(compareValue: (real, Bag) -> real, rule: Bag, ctx: Context)
    requires !KnownType(Get(rule, "type"), ctx.taxonomies)
    ensures forall i, m :: 0 <= i < |BuiltinEvaluators(compareValue)| ==> BuiltinEvaluators(compareValue)[i](m, rule, ctx) == m
  {
    var e := BuiltinEvaluators(compareValue);
    forall i, m | 0 <= i < |e| ensures e[i](m, rule, ctx) == m {
      BuiltinEvaluatorsApply(compareValue, m, rule, ctx);
    }
  }

  /** With the built-in callbacks, a rule whose merged type none of them knows
      counts as unmatched. */
  lemma UnknownTypeUnmatched(rule: RuleHooks, compareValue: (real, Bag) -> real, matchedResult: (bool, Bag) -> bool,
                             stored: Value, ctx: Context)
    requires !KnownType(Get(ParseArgs(stored, GetRuleValues(rule.ruleValues)), "type"), ctx.taxonomies)
    ensures !RuleMatched(stored, Hooks(rule, BuiltinEvaluators(compareValue), matchedResult), ctx)
  {
    var merged := ParseArgs(stored, GetRuleValues(rule.ruleValues));
    BuiltinPassThrough(compareValue, merged, ctx);
    ChainPassThrough(BuiltinEvaluators(compareValue), false, merged, ctx);
  }

  /** What each built-in callback computes. */
  lemma BuiltinEvaluatorsApply(compareValue: (real, Bag) -> real, m: bool, rule: Bag, ctx: Context)
    ensures var e := BuiltinEvaluators(compareValue);
            e[0](m, rule, ctx) == RuleCart.RuleFilters(m, rule, ctx, compareValue) &&
            e[1](m, rule, ctx) == RuleCart.RuleFilterCoupon(m, rule, ctx) &&
            e[2](m, rule, ctx) == RuleDate.RuleFilters(m, rule, ctx) &&
            e[3](m, rule, ctx) == RuleUser.RuleFilters(m, rule, ctx) &&
            e[4](m, rule, ctx) == RuleCartProducts.RuleFilters(m, rule, ctx) &&
            e[5](m, rule, ctx) == RuleBillingShipping.RuleFilters(m, rule, ctx)
  {
  }

  /** The callbacks other than the user one hand back what they are given
      on a logged-in rule. */
  lemma LoggedInOthersPass(compareValue: (real, Bag) -> real, m: bool, rule: Bag, ctx: Context)
    requires Get(rule, "type") == Str("user:logged_in")
    ensures RuleCart.RuleFilters(m, rule, ctx, compareValue) == m && RuleCart.RuleFilterCoupon(m, rule, ctx) == m &&
            RuleDate.RuleFilters(m, rule, ctx) == m && RuleCartProducts.RuleFilters(m, rule, ctx) == m &&
            RuleBillingShipping.RuleFilters(m, rule, ctx) == m
  {
    assert !RuleCartProducts.IsCartProductsType(Get(rule, "type"), ctx.taxonomies) by {
      forall i | 0 <= i < |ctx.taxonomies| ensures "user:logged_in" != RuleCartProducts.TypeKey(ctx.taxonomies[i]) {
        assert RuleCartProducts.TypeKey(ctx.taxonomies[i])[0] == 'c';
      }
    }
  }

  /** On a logged-in rule, every built-in callback but the user one hands
      back what it is given, and the user one answers the login state. */
  lemma LoggedInCallbacks(compareValue: (real, Bag) -> real, rule: Bag, ctx: Context)
    requires Get(rule, "type") == Str("user:logged_in") && Get(rule, "logged_in") == Str("yes")
    ensures forall i, m :: 0 <= i < 6 && i != 3 ==> BuiltinEvaluators(compareValue)[i](m, rule, ctx) == m
    ensures forall m :: BuiltinEvaluators(compareValue)[3](m, rule, ctx) == ctx.loggedIn
  {
    var e := BuiltinEvaluators(compareValue);
    forall i, m | 0 <= i < 6 && i != 3 ensures e[i](m, rule, ctx) == m {
      BuiltinEvaluatorsApply(compareValue, m, rule, ctx);
      LoggedInOthersPass(compareValue, m, rule, ctx);
    }
    forall m ensures e[3](m, rule, ctx) == ctx.loggedIn {
      BuiltinEvaluatorsApply(compareValue, m, rule, ctx);
    }
  }

  /** With the built-in callbacks, a logged-in rule set to `yes` matches exactly
      when the customer is logged in. */
  lemma LoggedInRuleMatched(rule: RuleHooks, compareValue: (real, Bag) -> real, matchedResult: (bool, Bag) -> bool,
                            stored: Value, ctx: Context)
    requires Get(ParseArgs(stored, GetRuleValues(rule.ruleValues)), "type") == Str("user:logged_in")
    requires Get(ParseArgs(stored, GetRuleValues(rule.ruleValues)), "logged_in") == Str("yes")
    ensures RuleMatched(stored, Hooks(rule, BuiltinEvaluators(compareValue), matchedResult), ctx) == ctx.loggedIn
  {
    var merged := ParseArgs(stored, GetRuleValues(rule.ruleValues));
    LoggedInCallbacks(compareValue, merged, ctx);
    ChainSingleAnswer(BuiltinEvaluators(compareValue), 3, ctx.loggedIn, false, merged, ctx);
  }
}
