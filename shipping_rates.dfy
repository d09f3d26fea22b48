/** `Hide_Shipping_Rates\Main::manage_shipping_rates` (inc/class-main.php): for
    every shipping rate, read the rule settings of its shipping method, apply
    the hide and disable flags, count the rules that match and remove the rate
    when the match type says so. */
module ShippingRates {
  import opened Values
  import opened Snapshot
  import opened Utils

  /** A shipping rate offered to the customer, known here by the instance id of
      the shipping method it comes from. */
  datatype Rate = Rate(id: string, instanceId: int, cost: real)

  /** Every extension point of the decision: the `rule_values` and
      `rule_migrate` filters, the `rule_matched` callbacks in the order they run,
      and the `matched_rules_result` filter. */
  datatype Hooks = Hooks(rule: RuleHooks, evaluators: seq<Evaluator>, matchedResult: (bool, Bag) -> bool)

  /** `matched_rules_result` with no callback. */
  function NoOverride(result: bool, settings: Bag): bool {
    result
  }

  /** `$matched_rules` membership: a stored rule merged over the defaults,
      decided by the callback chain starting from `false`. */
  predicate RuleMatched(stored: Value, hooks: Hooks, ctx: Context) {
    Chain(hooks.evaluators, false, ParseArgs(stored, GetRuleValues(hooks.rule.ruleValues)), ctx)
  }

  /** The `array_filter` callback: whether a stored rule matched. */
  function MatchesUnder(hooks: Hooks, ctx: Context): Value -> bool {
    (r: Value) => RuleMatched(r, hooks, ctx)
  }

  /** `count($matched_rules)`. */
  function MatchedCount(rules: Value, hooks: Hooks, ctx: Context): (n: nat)
    ensures n <= Count(rules)
  {
    CountWhere(rules, MatchesUnder(hooks, ctx))
  }

  /** `$match_type`: the stored value, `all` when it is not set. */
  function MatchType(settings: Bag): Value {
    if IsSet(settings, "match_type") then settings["match_type"] else Str("all")
  }

  /** `$matched_rules_result` before the override: under `all` every rule
      matched, under `any` some rule did; any other match type never holds. */
  predicate Aggregate(matchType: Value, total: nat, matched: nat) {
    (matchType == Str("all") && total == matched) || (matchType == Str("any") && matched > 0)
  }

  /** The rules' verdict after the `matched_rules_result` filter. */
  predicate RulesVerdict(settings: Bag, hooks: Hooks, ctx: Context) {
    var rules := ListAt(settings, "rules");
    hooks.matchedResult(Aggregate(MatchType(settings), Count(rules), MatchedCount(rules, hooks, ctx)), settings)
  }

  /** The hide flag, which counts only for callers without `manage_woocommerce`. */
  predicate Hidden(settings: Bag, privileged: bool) {
    !privileged && Get(settings, "hide_shipping_rate") == Bool(true)
  }

  /** The disable flag, which counts only for callers without `manage_woocommerce`. */
  predicate RulesDisabled(settings: Bag, privileged: bool) {
    !privileged && Get(settings, "disable_shipping_rules") == Bool(true)
  }

  /** Whether a rate with these normalised settings is removed. */
  predicate RateRemoved(settings: Bag, privileged: bool, hooks: Hooks, ctx: Context) {
    settings != map[] &&
    (Hidden(settings, privileged) ||
     (!RulesDisabled(settings, privileged) && Count(ListAt(settings, "rules")) > 0 && RulesVerdict(settings, hooks, ctx)))
  }

  /** The normalised settings of a rate's shipping method; `optionOf` gives the
      decoded `hide_shipping_rates_rules_settings` option of a method instance. */
  function SettingsOf(rate: Rate, optionOf: int -> Value, hooks: Hooks): Bag {
    GetRuleSettings(optionOf(rate.instanceId), hooks.rule)
  }

  /** The body of the foreach for one rate: whether it is unset. */
  method DecideRate(settings: Bag, privileged: bool, hooks: Hooks, ctx: Context) returns (remove: bool)
    ensures remove == RateRemoved(settings, privileged, hooks, ctx)
  {
    remove := false;
    if settings == map[] {
      return;
    }
    if !privileged {
      if Get(settings, "hide_shipping_rate") == Bool(true) {
        remove := true;
      }
      if Get(settings, "disable_shipping_rules") == Bool(true) {
        return;
      }
    }
    var rules := ListAt(settings, "rules");
    if Count(rules) == 0 {
      return;
    }
    var matched := MatchedCount(rules, hooks, ctx);
    var matchType := Str("all");
    if IsSet(settings, "match_type") {
      matchType := settings["match_type"];
    }
    var result := false;
    if matchType == Str("all") && Count(rules) == matched {
      result := true;
    }
    if matchType == Str("any") && matched > 0 {
      result := true;
    }
    result := hooks.matchedResult(result, settings);
    if result {
      remove := true;
    }
  }

  /** The loop of `manage_shipping_rates` part way: the `pending` rates are
      still there, the others are there exactly when not removed, and every
      kept rate is unchanged. */
  ghost predicate PartlyFiltered(rates: map<string, Rate>, kept: map<string, Rate>, pending: set<string>,
                                 removed: Rate -> bool) {
    pending <= rates.Keys &&
    (forall k :: k in kept ==> k in rates && kept[k] == rates[k]) &&
    (forall k :: k in pending ==> k in kept) &&
    (forall k :: k in rates && k !in pending ==> (k in kept <==> !removed(rates[k])))
  }

  /** Deciding one pending rate keeps the loop's invariant. */
  lemma FilterStep(rates: map<string, Rate>, kept: map<string, Rate>, pending: set<string>,
                   removed: Rate -> bool, k: string, remove: bool)
    requires PartlyFiltered(rates, kept, pending, removed) && k in pending && remove == removed(rates[k])
    ensures PartlyFiltered(rates, if remove then kept - {k} else kept, pending - {k}, removed)
  {
  }

  /** `Main::manage_shipping_rates($rates)`: only rates are removed, the kept
      ones unchanged, and a rate is kept exactly when its settings do not
      remove it. */
  method ManageShippingRates(rates: map<string, Rate>, optionOf: int -> Value, privileged: bool, hooks: Hooks, ctx: Context)
    returns (kept: map<string, Rate>)
    ensures forall k :: k in kept <==> k in rates && !RateRemoved(SettingsOf(rates[k], optionOf, hooks), privileged, hooks, ctx)
    ensures forall k :: k in kept ==> kept[k] == rates[k]
  {
    ghost var removed := (r: Rate) => RateRemoved(SettingsOf(r, optionOf, hooks), privileged, hooks, ctx);
    kept := rates;
    var pending := rates.Keys;
    while pending != {}
      invariant PartlyFiltered(rates, kept, pending, removed)
      decreases |pending|
    {
      var k :| k in pending;
      var remove := DecideRate(SettingsOf(rates[k], optionOf, hooks), privileged, hooks, ctx);
      assert remove == removed(rates[k]);
      FilterStep(rates, kept, pending, removed, k, remove);
      if remove {
        kept := kept - {k};
      }
      pending := pending - {k};
    }
  }

  // ---------------------------------------------------------------------------
  // Properties of the decision

  /** An option that does not decode to an array never removes its rate. */
  lemma NonArrayOptionKeepsRate(option: Value, privileged: bool, hooks: Hooks, ctx: Context)
    requires !IsArray(option)
    ensures !RateRemoved(GetRuleSettings(option, hooks.rule), privileged, hooks, ctx)
  {
  }

  /** For a caller without `manage_woocommerce`, the hide flag removes the rate
      whatever the rules say. */
  lemma HideFlagRemoves(settings: Bag, hooks: Hooks, ctx: Context)
    requires settings != map[] && Get(settings, "hide_shipping_rate") == Bool(true)
    ensures RateRemoved(settings, false, hooks, ctx)
  {
  }

  /** For a caller without `manage_woocommerce`, the disable flag skips the
      rules: the rate goes only when the hide flag removes it. */
  lemma DisableFlagSkipsRules(settings: Bag, hooks: Hooks, ctx: Context)
    requires Get(settings, "disable_shipping_rules") == Bool(true)
    ensures RateRemoved(settings, false, hooks, ctx) <==>
            settings != map[] && Get(settings, "hide_shipping_rate") == Bool(true)
  {
  }

  /** For a caller with `manage_woocommerce` both flags are ignored, and the
      rules still decide. */
  lemma PrivilegedUsesRulesOnly(settings: Bag, hooks: Hooks, ctx: Context)
    ensures RateRemoved(settings, true, hooks, ctx) <==>
            settings != map[] && Count(ListAt(settings, "rules")) > 0 && RulesVerdict(settings, hooks, ctx)
  {
  }

  /** No rule, no removal by rule. */
  lemma EmptyRulesKeepRate(settings: Bag, privileged: bool, hooks: Hooks, ctx: Context)
    requires Count(ListAt(settings, "rules")) == 0
    ensures RateRemoved(settings, privileged, hooks, ctx) <==> settings != map[] && Hidden(settings, privileged)
  {
  }

  /** With no override, `all` (also when the match type is not set) holds
      exactly when every rule matched. */
  lemma AllVerdict(settings: Bag, hooks: Hooks, ctx: Context)
    requires forall b, s :: hooks.matchedResult(b, s) == b
    requires MatchType(settings) == Str("all")
    ensures RulesVerdict(settings, hooks, ctx) <==>
            forall x :: Contains(ListAt(settings, "rules"), x) ==> RuleMatched(x, hooks, ctx)
  {
    CountWhereAll(ListAt(settings, "rules"), MatchesUnder(hooks, ctx));
  }

  /** With no override, `any` holds exactly when some rule matched. */
  lemma AnyVerdict(settings: Bag, hooks: Hooks, ctx: Context)
    requires forall b, s :: hooks.matchedResult(b, s) == b
    requires MatchType(settings) == Str("any")
    ensures RulesVerdict(settings, hooks, ctx) <==>
            exists x :: Contains(ListAt(settings, "rules"), x) && RuleMatched(x, hooks, ctx)
  {
    CountWherePositive(ListAt(settings, "rules"), MatchesUnder(hooks, ctx));
  }

  /** With no override, any other match type never removes a rate by rule. */
  lemma OtherMatchTypeNeverHolds(settings: Bag, hooks: Hooks, ctx: Context)
    requires forall b, s :: hooks.matchedResult(b, s) == b
    requires MatchType(settings) != Str("all") && MatchType(settings) != Str("any")
    ensures !RulesVerdict(settings, hooks, ctx)
  {
  }

  /** With no override and at least one rule, an `all` verdict implies the
      `any` verdict on the same rules. */
  lemma AllImpliesAny(settings: Bag, hooks: Hooks, ctx: Context)
    requires forall b, s :: hooks.matchedResult(b, s) == b
    requires Count(ListAt(settings, "rules")) > 0
    ensures RulesVerdict(settings["match_type" := Str("all")], hooks, ctx) ==>
            RulesVerdict(settings["match_type" := Str("any")], hooks, ctx)
  {
    var all := settings["match_type" := Str("all")];
    var any := settings["match_type" := Str("any")];
    VerdictWithoutOverride(all, hooks, ctx);
    VerdictWithoutOverride(any, hooks, ctx);
    assert ListAt(all, "rules") == ListAt(settings, "rules") && ListAt(any, "rules") == ListAt(settings, "rules");
    assert MatchType(all) == Str("all") && MatchType(any) == Str("any");
  }

  /** With no override, the verdict is the match type's aggregate of the
      rule count and the matched count. */
  lemma VerdictWithoutOverride(settings: Bag, hooks: Hooks, ctx: Context)
    requires forall x, s :: hooks.matchedResult(x, s) == x
    ensures RulesVerdict(settings, hooks, ctx) ==
            Aggregate(MatchType(settings), Count(ListAt(settings, "rules")), MatchedCount(ListAt(settings, "rules"), hooks, ctx))
  {
  }

  /** A rule list's matched count is the number of its rules that match. */
  lemma ListMatchedCount(items: seq<Value>, hooks: Hooks, ctx: Context)
    ensures MatchedCount(List(items), hooks, ctx) == SeqCountWhere(items, MatchesUnder(hooks, ctx))
  {
  }

  /** The verdict does not depend on the order of the rules: with no override,
      reordering a rule list changes neither count. */
  lemma ReorderingRulesKeepsVerdict(settings: Bag, a: seq<Value>, b: seq<Value>, hooks: Hooks, ctx: Context)
    requires forall x, s :: hooks.matchedResult(x, s) == x
    requires multiset(a) == multiset(b)
    ensures RulesVerdict(settings["rules" := List(a)], hooks, ctx) == RulesVerdict(settings["rules" := List(b)], hooks, ctx)
  {
    var sa := settings["rules" := List(a)];
    var sb := settings["rules" := List(b)];
    VerdictWithoutOverride(sa, hooks, ctx);
    VerdictWithoutOverride(sb, hooks, ctx);
    assert ListAt(sa, "rules") == List(a) && ListAt(sb, "rules") == List(b);
    assert MatchType(sa) == MatchType(sb);
    ListMatchedCount(a, hooks, ctx);
    ListMatchedCount(b, hooks, ctx);
    SeqCountWherePermutation(a, b, MatchesUnder(hooks, ctx));
    assert |a| == |multiset(a)| == |multiset(b)| == |b|;
  }
}
