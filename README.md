# Hide Shipping Rates for WooCommerce — the rule interpreter

This project models the part of the plugin that decides which shipping rates a customer sees. It is written in Dafny and proves properties of the model.

A shipping method stores a rule-settings record. It holds two flags:
- `hide_shipping_rate`;
- `disable_shipping_rules`.

It also holds a `match_type` (`all` or `any`) and a list of rules. Each rule has a `type`, such as `cart:subtotal`, `date:weekly_days`, `cart_products:product_cat`, `billing:city` or `user:logged_in`, an operator and the parameters of that type.

For every offered rate, `Main::manage_shipping_rates` does the following:
1. It reads and normalises the settings of the rate's method. Each rule is merged over the default parameter bag and legacy type ids are migrated.
2. It applies the two flags, which count only for callers without `manage_woocommerce`.
3. It asks the `hide_shipping_rates/rule_matched` filter chain about each rule, starting from `false`.
4. It aggregates the answers under the match type and passes the result through `matched_rules_result`.
5. It removes the rate when the result is `true`.

## Modules

- `Strings`: `strtolower`, `trim`, `explode` and the decimal prefix that `floatval` reads from a string.
- `Values`: the decoded JSON value (`json_decode($json, true)`) and the PHP array operations the interpreter applies to it:
  - `isset`, `is_array`, `count`, `in_array`;
  - `array_filter`, `array_unique`;
  - truthiness and `floatval`.
- `Snapshot`: everything the evaluators read from WooCommerce and WordPress, as one immutable record. The `rule_matched` chain is a fold over evaluator functions.
- `Utils` (`inc/class-utils.php`). Its imperative parts are methods with loops:
  - `get_operators`;
  - `get_types_by_group`, including its `uasort`;
  - `get_terms_total`.

  Its pure parts are functions: `get_rule_values` and `get_rule_settings`, with the legacy migration.
- One module per rule class: `RuleCart`, `RuleDate`, `RuleUser`, `RuleCartProducts`, `RuleBillingShipping`.
  - Each has its `rule_values` defaults and its `rule_filters` evaluator.
  - The loops of `Cart_Products` are methods: `rule_values`, `add_rule_types`, and the collection of cart ids and terms.
- `Defaults`: the `rule_values` filter as this plugin's own classes build it, and the keys it guarantees.
- `Callbacks`: the `rule_matched` callbacks this plugin registers, and how the chain of them decides a rule.
- `ShippingRates`: the per-rate decision and the loop of `manage_shipping_rates` over the rates map.

## How the code differs from its description

Where the plugin's description and its code differ, the model follows the code:
- The hide flag does not stop evaluation. The rate is marked for removal and the rules are still evaluated. The outcome is the same: the rate goes.
- Callers with `manage_woocommerce` are not exempt. Only the two flags are skipped for them, and their rules still decide.
- With no applied coupon, the coupon rule hands back the incoming `matched` for every operator. It does not answer "no match" on its own.
- Date rules read their operator from `date_operator`, never from `operator`.
- Taxonomy `all_in_list` counts the cart's term list with its repetitions. A term shared by two cart lines is counted twice, so a rule can fail although every configured term is in the cart (`SharedTermDefeatsAllInList`). A term repeated on one line can stand in for a missing one (`RepeatedTermSatisfiesAllInList`).

## Model

| member | source | states |
|---|---|---|
| ShippingRates.ManageShippingRates | inc/class-main.php:128-176 | the result is a sub-map of the rates: every kept rate keeps its value, and a rate is kept exactly when its normalised settings do not remove it |
| ShippingRates.DecideRate | inc/class-main.php:130-172 | the foreach body, with its early `continue`s, unsets a rate exactly when `RateRemoved` holds: non-empty settings, and then either the hide flag (non-privileged only) or, unless the disable flag applies, a non-empty rule list whose overridden verdict is true |
| ShippingRates.MatchedCount | inc/class-main.php:151-153 | the number of matched rules never exceeds the number of rules |
| ShippingRates.NonArrayOptionKeepsRate | inc/class-main.php:131-134 | an option that does not decode to an array normalises to empty settings and never removes its rate |
| ShippingRates.HideFlagRemoves | inc/class-main.php:136-139 | for a non-privileged caller the hide flag removes the rate whatever the rules say |
| ShippingRates.DisableFlagSkipsRules | inc/class-main.php:141-143 | for a non-privileged caller with the disable flag, the rate is removed if and only if the hide flag is set |
| ShippingRates.PrivilegedUsesRulesOnly | inc/class-main.php:136-172 | for a privileged caller both flags are ignored, and the rate is removed exactly when there are rules and their verdict holds |
| ShippingRates.EmptyRulesKeepRate | inc/class-main.php:146-149 | with no rules, a rate is removed only by the hide flag |
| ShippingRates.AllVerdict | inc/class-main.php:155-163 | with no override, `all` (also the default when `match_type` is unset) holds exactly when every rule matched |
| ShippingRates.AnyVerdict | inc/class-main.php:165-167 | with no override, `any` holds exactly when some rule matched |
| ShippingRates.OtherMatchTypeNeverHolds | inc/class-main.php:155-167 | with no override, a match type other than `all` and `any` never gives a rule-based removal |
| ShippingRates.AllImpliesAny | inc/class-main.php:160-167 | with at least one rule and no override, an `all` verdict implies the `any` verdict on the same rules |
| ShippingRates.ReorderingRulesKeepsVerdict | inc/class-main.php:151-167 | two rule lists that are permutations of each other give the same verdict |
| Callbacks.BuiltinEvaluators | inc/class-main.php:83-91 | the plugin registers six `rule_matched` callbacks, in load order: cart, coupon, date, user, cart products, billing/shipping |
| Callbacks.BuiltinPassThrough | inc/class-main.php:152 | on a rule whose type no built-in class knows, every built-in callback hands back the answer it is given |
| Callbacks.UnknownTypeUnmatched | inc/class-main.php:151-153 | with the built-in callbacks, a rule of unknown type counts as unmatched |
| Callbacks.LoggedInCallbacks | inc/class-rule-user.php:74-75 | on a `user:logged_in` rule set to `yes`, every callback but the user one passes its input through, and the user one answers the login state |
| Callbacks.LoggedInRuleMatched | inc/class-main.php:151-153 | with the built-in callbacks, such a rule matches exactly when the customer is logged in |
| Snapshot.ChainAppend | inc/class-main.php:152 | running two groups of callbacks is running the first, then the second on its answer |
| Snapshot.ChainPassThrough | inc/class-main.php:152 | when every callback hands back what it is given, the chain answers its starting value |
| Snapshot.ChainSingleAnswer | inc/class-main.php:152 | when one callback answers a fixed value and the others pass their input through, the chain answers that value |
| Defaults.LowerDefaults | inc/class-rule-cart.php:36-42 | the cart, date and user layers yield `coupons = []`, `date_operator = ''`, `users = []` and `logged_in = 'no'` |
| Defaults.UpperKeepsLower | inc/class-rule-billing-shipping.php:40-47 | the cart-products and billing/shipping layers keep those four defaults |
| Defaults.UpperAddsLists | inc/class-rule-cart-products.php:35-42 | the upper layers add `products = []`, one empty list per taxonomy, and `billing_cities = ''` |
| Defaults.BuiltinDefaults | inc/class-utils.php:307 | the built-in `rule_values` filter holds a key of every rule class with its default value |
| Defaults.NotTaxonomyKey | inc/class-rule-cart-products.php:37-39 | a key outside the `cart_products_` family is never one of the taxonomy keys |
| Defaults.UpperLayersKeep | inc/class-rule-cart-products.php:35-42 | the upper layers keep every key they do not add |
| Defaults.UpperLayersAdd | inc/class-rule-cart-products.php:36-39 | the billing/shipping layer keeps the empty lists the cart-products layer adds |
| Utils.StopAt | inc/class-utils.php:102 | the position where the `while (current())` loop stops: the first falsy entry, or the end |
| Utils.GetOperators | inc/class-utils.php:83-111 | the result holds exactly the supported operators requested before the first falsy entry, each once with its label, in order of first request |
| Utils.CollectGroup | inc/class-utils.php:284-291 | exactly the types of the group, each key once |
| Utils.InsertByPriority | inc/class-utils.php:293-295 | inserting an entry keeps the list sorted by priority and keys distinct, and adds exactly that entry |
| Utils.SortByPriority | inc/class-utils.php:293-295 | the sort yields the same entries, with keys distinct, in non-decreasing priority |
| Utils.GetTypesByGroup | inc/class-utils.php:283-298 | exactly the types whose group is the argument, each once, in non-decreasing priority |
| Utils.GetRuleValues | inc/class-utils.php:306-314 | the defaults always hold `value = ''`, `type = 'cart:subtotal'` and `operator = 'greater_than'`, which override extension defaults of those names; every other extension default is kept |
| Utils.ParseArgsKeeps | inc/class-utils.php:343 | merging keeps every stored key with its stored value and adds every missing default |
| Utils.MigratedType | inc/class-utils.php:345-364 | a migrated type is never a legacy id, and a non-legacy type is unchanged |
| Utils.MigrateLegacyEffect | inc/class-utils.php:345-364 | migration renames the type, copies the old list to its new key only when it is an array, and leaves every other entry alone |
| Utils.MigrateLegacyNonLegacy | inc/class-utils.php:345-364 | a rule of non-legacy type is not changed by migration |
| Utils.NormalizeFields | inc/class-utils.php:342-367 | over rules stored as a JSON object, normalisation keeps the keys and normalises each rule |
| Utils.NormalizeRules | inc/class-utils.php:342-367 | the normalised rules are an array with as many rules as were stored; a stored list keeps its positions and a stored object its keys, and each entry is the normalised stored rule at that position or key; a non-array gives an empty list |
| Utils.GetRuleSettingsRulesNormalized | inc/class-utils.php:342-367 | every rule of the settings `get_rule_settings` returns is a bag that holds every `rule_values` key and carries no legacy type id |
| Utils.GetRuleSettings | inc/class-utils.php:332-370 | non-array input gives empty settings; otherwise the settings have an array `rules`, and every other stored key is kept with its value |
| Utils.GetRuleSettingsRules | inc/class-utils.php:338-340 | a missing or non-array stored `rules` becomes an empty list |
| Utils.NormalizeRuleHasDefaults | inc/class-utils.php:343 | with the identity migrate hook, every normalised rule has every default key |
| Utils.NormalizeRuleNotLegacy | inc/class-utils.php:345-364 | with the identity migrate hook, a normalised rule never carries a legacy type id |
| Utils.NormalizeRuleIdempotent | inc/class-utils.php:343-366 | with the identity migrate hook, normalising a normalised rule again changes nothing |
| Utils.NormalizeRulesIdempotent | inc/class-utils.php:342-367 | with the identity migrate hook, normalising a normalised rule array again changes nothing |
| Utils.GetRuleSettingsIdempotent | inc/class-utils.php:332-370 | with the identity migrate hook, normalising already-normalised settings changes nothing |
| Utils.ExpectedTotalNotCarried | inc/class-utils.php:439-458 | a term that no cart line carries has a zero total |
| Utils.AddLineTerms | inc/class-utils.php:439-458 | one line adds its subtotal, quantity and weight times quantity to each allowed term it carries, once per occurrence, starting new terms at zero, and leaves every other total alone |
| Utils.GetTermsTotal | inc/class-utils.php:432-462 | the totals hold exactly the allowed terms some line carries; each total is the sum over carrying lines, once per occurrence, with weight counted only for products that have one |
| RuleCart.RuleValues | inc/class-rule-cart.php:36-42 | adds `coupons = []`, `value_two = ''` and `cart_value_type = 'in_cart'`, replacing earlier values of those keys, and keeps every other key |
| RuleCart.Metric | inc/class-rule-cart.php:72-83 | the compared metric is the subtotal, item count or weight by type, and 0 for coupons |
| RuleCart.ValueTwo | inc/class-rule-cart.php:69 | a missing `value_two` reads as 0 |
| RuleCart.RuleFilters | inc/class-rule-cart.php:62-115 | other types pass `matched` through; for cart types the result is `matched` or the named numeric comparison of the (filtered) metric with the bounds; an incoming `true` is never turned into `false` |
| RuleCart.NotBetweenComplement | inc/class-rule-cart.php:106-111 | for the same bounds, `not_between` holds exactly when `between` does not |
| RuleCart.UnknownOperatorPassesThrough | inc/class-rule-cart.php:114 | an operator outside the seven numeric ones hands back `matched` |
| RuleCart.BetweenInclusive | inc/class-rule-cart.php:106 | `between` holds at both of its bounds |
| RuleCart.RuleFilterCoupon | inc/class-rule-cart.php:124-150 | with coupons applied, `any_in_list` holds exactly when a configured coupon's slug is applied and `not_in_list` exactly when none is; otherwise `matched` passes through |
| RuleCart.NoCouponsPassesThrough | inc/class-rule-cart.php:131-134 | with no applied coupon the coupon rule hands back `matched` for every operator |
| RuleCart.CouponOperatorsExclusive | inc/class-rule-cart.php:141-147 | with coupons applied, exactly one of `any_in_list` and `not_in_list` matches |
| RuleDate.RuleValues | inc/class-rule-date.php:34-43 | adds an empty `date_operator`, the four empty instants and an empty `weekly_days` list, and keeps every other key |
| RuleDate.RuleFilters | inc/class-rule-date.php:51-138 | weekly days test the lower-cased day name; time and date compare now strictly with `before`/`after` and inclusively with `between`; an unparsable instant or unknown operator gives `matched` |
| RuleDate.OperatorIgnored | inc/class-rule-date.php:52 | the evaluator never reads `operator`: changing it changes nothing |
| RuleDate.TimeAndDateAgree | inc/class-rule-date.php:67-135 | `date:time` over `time_one`/`time_two` answers as `date:date` does over the same instants in `date_one`/`date_two` |
| RuleDate.NotBetweenComplement | inc/class-rule-date.php:81-99 | when both instants parse, `not_between` is the exact complement of `between` |
| RuleDate.ComparisonIgnoresMatched | inc/class-rule-date.php:73-98 | when the instants parse, the four comparison operators do not depend on the incoming `matched` |
| RuleUser.RuleValues | inc/class-rule-user.php:35-40 | adds `users = []` and `logged_in = 'no'`, and keeps every other key |
| RuleUser.RuleFilters | inc/class-rule-user.php:60-83 | user lists test membership of the current user id; `logged_in` `yes`/`no` answer the login state or its negation whatever `matched` is; anything else passes `matched` through |
| RuleUser.UserOperatorsExclusive | inc/class-rule-user.php:65-71 | for the same list, exactly one of `any_in_list` and `not_in_list` matches |
| RuleUser.DefaultLoggedInMatchesGuests | inc/class-rule-user.php:38 | with the default `logged_in`, a logged-in rule matches exactly the guests |
| RuleCartProducts.WithTaxonomyDefaultsEffect | inc/class-rule-cart-products.php:35-42 | `rule_values` adds exactly `products` and one key per taxonomy, all empty lists, and leaves every other key alone |
| RuleCartProducts.RuleValues | inc/class-rule-cart-products.php:35-42 | the loop builds exactly those defaults |
| RuleCartProducts.AddRuleTypes | inc/class-rule-cart-products.php:65-78 | the loop adds the taxonomy types with priorities counted up from 21 |
| RuleCartProducts.WithTaxonomyTypesEffect | inc/class-rule-cart-products.php:65-78 | taxonomy number `i` gets `cart_products:<slug>` in group `cart_products` with priority `21 + i` and its label; no other type is touched |
| RuleCartProducts.RuleTypesWithTaxonomies | inc/class-utils.php:158-159 | the filtered type table holds every taxonomy type in group `cart_products` with its sequential priority |
| RuleCartProducts.ProductIds | inc/class-rule-cart-products.php:91-93 | one product id per cart line, in order |
| RuleCartProducts.ShippingClassIds | inc/class-rule-cart-products.php:144-146 | one shipping-class id per cart line, in order |
| RuleCartProducts.CollectProductIds | inc/class-rule-cart-products.php:90-93 | the append loop builds the product ids of the lines |
| RuleCartProducts.CollectShippingClassIds | inc/class-rule-cart-products.php:143-146 | the append loop builds the shipping-class ids of the lines |
| RuleCartProducts.CollectCartTerms | inc/class-rule-cart-products.php:120-123 | the merge loop concatenates every line's terms without removing duplicates |
| RuleCartProducts.CartTermsCarried | inc/class-rule-cart-products.php:120-123 | a term is among the cart's terms exactly when some line's product carries it |
| RuleCartProducts.CartSet | inc/class-rule-cart-products.php:95 | `array_unique(array_filter(...))` keeps exactly the truthy ids, each once |
| RuleCartProducts.RuleSideMatches | inc/class-rule-cart-products.php:97 | the rule-side intersection has at most as many entries as the configured list |
| RuleCartProducts.CartSideMatches | inc/class-rule-cart-products.php:125 | the cart-side intersection has at most as many entries as the cart's term list |
| RuleCartProducts.TaxonomyLoop | inc/class-rule-cart-products.php:111-138 | the taxonomy foreach answers `true` exactly when some taxonomy other than the shipping-class one has the rule's type and its verdict holds |
| RuleCartProducts.RuleFilters | inc/class-rule-cart-products.php:86-165 | the result is `matched` or some branch holding: products, a taxonomy, or shipping classes; other types pass `matched` through, and `true` is never turned into `false` |
| RuleCartProducts.AnyNotExclusive | inc/class-rule-cart-products.php:98-108 | for the same counts, `any_in_list` and `not_in_list` disagree |
| RuleCartProducts.UnknownOperatorPassesThrough | inc/class-rule-cart-products.php:164 | an operator other than the three list operators hands back `matched` |
| RuleCartProducts.CartSetOfProducts | inc/class-rule-cart-products.php:91-95 | the cart's product set holds exactly the truthy product ids of its lines |
| RuleCartProducts.ProductsAllInList | inc/class-rule-cart-products.php:97-104 | products `all_in_list` holds exactly when every configured entry is in the cart, so an empty list holds |
| RuleCartProducts.ProductsAnyInList | inc/class-rule-cart-products.php:97-108 | products `any_in_list` holds exactly when some configured entry is in the cart, and `not_in_list` exactly when none is |
| RuleCartProducts.ShippingClassAllInList | inc/class-rule-cart-products.php:140-157 | shipping classes `all_in_list` holds exactly when every configured class is the truthy class of some line |
| RuleCartProducts.TaxonomyLoopSkipsShippingClass | inc/class-rule-cart-products.php:111-116 | the taxonomy foreach never answers for the shipping-class type |
| RuleCartProducts.TaxonomyAnyInList | inc/class-rule-cart-products.php:125-136 | taxonomy `any_in_list` holds exactly when some cart term is configured, and `not_in_list` exactly when none is |
| RuleCartProducts.SingleTaxonomy | inc/class-rule-cart-products.php:111-138 | with one ordinary taxonomy, a rule of its type is decided by that taxonomy's branch alone |
| RuleCartProducts.SharedTermDefeatsAllInList | inc/class-rule-cart-products.php:120-130 | two lines both carrying term 5, checked against `[5]` under `all_in_list`, do not match, although every configured term is in the cart |
| RuleCartProducts.RepeatedTermSatisfiesAllInList | inc/class-rule-cart-products.php:120-130 | a line carrying term 5 twice matches `[5, 6]` under `all_in_list`, although no product carries term 6 |
| RuleBillingShipping.RuleValues | inc/class-rule-billing-shipping.php:40-47 | adds empty city texts and empty country lists, and keeps every other key |
| RuleBillingShipping.TrimmedPieces | inc/class-rule-billing-shipping.php:60 | one trimmed piece per comma-separated piece of the lower-cased text |
| RuleBillingShipping.CityListMembership | inc/class-rule-billing-shipping.php:59-60 | a city is listed exactly when some piece of the lower-cased text trims to it and it is neither empty nor `"0"` |
| RuleBillingShipping.CityListEntries | inc/class-rule-billing-shipping.php:60 | every listed city is lower-case, has no comma and no surrounding space, and is neither empty nor `"0"` |
| RuleBillingShipping.RuleFilters | inc/class-rule-billing-shipping.php:55-106 | city and country types test membership of the customer's lower-cased city or exact country under `any_in_list`/`not_in_list`, each against its own key; anything else passes `matched` through |
| RuleBillingShipping.EmptyCitiesNotInList | inc/class-rule-billing-shipping.php:59-69 | with no city configured, `not_in_list` matches every customer |
| RuleBillingShipping.UntrimmedCustomerCity | inc/class-rule-billing-shipping.php:62-65 | a customer city with a leading space never matches a listed city, since the customer's city is not trimmed |
| Strings.ToLowerIdempotent | inc/class-rule-billing-shipping.php:60-62 | lower-casing twice is lower-casing once |
| Strings.Trim | inc/class-rule-billing-shipping.php:60 | the trimmed text neither starts nor ends with a trim space |
| Strings.TrimIsInfix | inc/class-rule-billing-shipping.php:60 | the trimmed text is a contiguous part of the text |
| Strings.TrimIdempotent | inc/class-rule-billing-shipping.php:60 | trimming twice is trimming once |
| Strings.Explode | inc/class-rule-billing-shipping.php:60 | `explode` yields at least one piece, and no piece holds the separator |
| Strings.JoinExplode | inc/class-rule-billing-shipping.php:60 | joining the pieces with the separator gives back the text |
| Strings.ExplodeNoSeparator | inc/class-rule-billing-shipping.php:60 | a text without the separator explodes to itself alone |
| Strings.DecimalPrefixNatToString | inc/class-rule-cart.php:68 | `floatval` of a decimal numeral reads back its number |
| Strings.DecimalPrefixEmpty | inc/class-rule-cart.php:68-69 | `floatval` of the empty string (the default `value`) is 0 |
| Values.CountWhere | inc/class-main.php:151-153 | `count(array_filter(...))` never exceeds the array's count |
| Values.CountWherePositive | inc/class-main.php:165 | the filtered count is positive exactly when some element passes |
| Values.CountWhereAll | inc/class-main.php:161 | the filtered count equals the count exactly when every element passes |
| Values.SeqCountWherePermutation | inc/class-main.php:151-153 | the filtered count of a list does not depend on the order of its elements |
| Values.Filter | inc/class-rule-billing-shipping.php:60 | `array_filter` keeps only passing elements, and an element of the input is in the result exactly when it passes |
| Values.FilterMultiset | inc/class-rule-billing-shipping.php:60 | `array_filter` keeps every passing element as often as it occurs in the input, and drops every other one |
| Values.FilterAppend | inc/class-rule-billing-shipping.php:60 | `array_filter` of a concatenation is the concatenation of the filtered parts, so the kept elements stay in their input order |
| Values.ListAt | inc/class-main.php:146 | the list-or-empty selector, also used for the weekly days, customers, countries, products, terms and shipping classes: the result is always an array, and an empty list when the key is missing or holds a non-array |
| Values.Unique | inc/class-rule-cart-products.php:95 | `array_unique` keeps every element, each once |
| Values.ListAsBag | inc/class-utils.php:343 | a decoded list keyed by position has a key for every position, and only numeric keys |

## Left out

- The admin screen, the rule templates, `get_operators_options`, `field_lock_message` and `get_rule_ui_values` are left out because they only render the UI.
- The order-history rule is left out: it has a template only and registers no evaluator.
- The plugin bootstrap, `add_plugin_links`, the singleton and the screen and pro-detection checks are left out because they are wiring, not decision logic.
- `json_decode` and `stripslashes` are left out. The model takes the decoded settings value as its input.
- The `WC_Shipping_Zones` lookup of a rate's method and its option is left out. It is the parameter `optionOf`, from a method instance id to the decoded option.
- `current_user_can('manage_woocommerce')` is the `privileged` parameter.
- `get_product_taxonomies` is left out; the taxonomies are a field of the snapshot.
- The WooCommerce cart and customer, `get_post_field`, `wc_get_product_term_ids`, `current_time` and `strtotime` are fields of the snapshot, with instants already parsed to `Option<int>`.
- The `$package` argument of the filters is not modelled; no built-in evaluator reads it.
- Callbacks that third parties add to `rule_matched` are not modelled. `rule_values`, `rule_types`, `rule_migrate`, `cart_compare_value` and `matched_rules_result` are function parameters. Their results are narrowed to the types the plugin uses, so `matched_rules_result` gives a bool and `true ===` is plain truth.
- PHP's loose `==` and `in_array`/`array_intersect` comparisons (numeric strings, int/string coercion) are modelled as exact equality of decoded values.
- `floatval` of a string reads sign, digits and a decimal point only. Exponent notation and float rounding are left out, and numbers are exact reals.
- A stored rule that is a scalar is read as an empty bag, not parsed with `wp_parse_str`.
- A non-string city text is read as the empty text.
- `array_merge` renumbering of integer keys is left out; the defaults have string keys only.
- Translations of the operator labels are left out; labels are the untranslated strings.
- Utils.GetTypesByGroup: PHP leaves the order of equal priorities unspecified. The model fixes one order and promises only non-decreasing priority.
- Utils.CollectGroup: the model walks the type table in an order it does not specify, whereas PHP walks insertion order.
- ShippingRates.ManageShippingRates: the rates map is a Dafny `map`, so the insertion order of the surviving rates is not modelled.
- Utils.GetTermsTotal: term totals are a Dafny `map`, so the order in which terms first appear is not modelled.
