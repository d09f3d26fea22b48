/** `Hide_Shipping_Rates\Utils` (inc/class-utils.php): the operator table, the rule
    type registry, the default parameter bag, the normalisation and legacy
    migration of stored settings, and per-term cart totals. */
module Utils {
  import opened Strings
  import opened Values
  import opened Snapshot

  // ---------------------------------------------------------------------------
  // Operators

  /** Every operator the rule interpreter knows, with its (untranslated) label. */
  const SupportedOperators: map<string, string> := map[
    "equal_to" := "Equal To ( = )",
    "less_than" := "Less than ( < )",
    "less_than_or_equal" := "Less than or equal ( <= )",
    "greater_than_or_equal" := "Greater than or equal ( >= )",
    "greater_than" := "Greater than ( > )",
    "between" := "Between",
    "not_between" := "Not Between",
    "any_in_list" := "Any in list",
    "all_in_list" := "All in list",
    "not_in_list" := "Not in list",
    "before" := "Before",
    "after" := "After"
  ]

  /** A request entry that stops `while ($key = current($operators))`. */
  predicate FalsyKey(k: string) {
    k == "" || k == "0"
  }

  /** Position of the first falsy entry, or the length when there is none. */
  function StopAt(request: seq<string>): (n: nat)
    ensures n <= |request|
    ensures forall i :: 0 <= i < n ==> !FalsyKey(request[i])
    ensures n == |request| || FalsyKey(request[n])
  {
    if request == [] || FalsyKey(request[0]) then 0 else 1 + StopAt(request[1..])
  }

  /** Position of the first occurrence of `x` in `s`. */
  function FirstIndex(s: seq<string>, x: string): (i: nat)
    requires x in s
    ensures i < |s| && s[i] == x && x !in s[..i]
  {
    if s[0] == x then 0
    else
      var j := FirstIndex(s[1..], x);
      assert s[..j + 1] == [s[0]] + s[1..][..j];
      1 + j
  }

  function KeysOf(entries: seq<(string, string)>): (r: seq<string>)
    ensures |r| == |entries|
    ensures forall i :: 0 <= i < |entries| ==> r[i] == entries[i].0
  {
    seq(|entries|, i requires 0 <= i < |entries| => entries[i].0)
  }

  /** The loop of `get_operators` after the first `i` request entries: the
      operators of `ops` among them, each once with its label, in the order
      first requested. */
  ghost predicate OperatorsSoFar(request: seq<string>, i: nat, result: seq<(string, string)>, ops: map<string, string>)
    requires i <= |request|
  {
    (forall k :: k in KeysOf(result) <==> k in ops && k in request[..i]) &&
    (forall a :: 0 <= a < |result| ==> result[a].0 in ops && result[a].1 == ops[result[a].0]) &&
    (forall a :: 0 <= a < |result| ==> result[a].0 in request && FirstIndex(request, result[a].0) < i) &&
    (forall a, b :: 0 <= a < b < |result| ==>
       result[a].0 in request && result[b].0 in request &&
       FirstIndex(request, result[a].0) < FirstIndex(request, result[b].0))
  }

  /** A supported request entry not yet listed is appended with its label. */
  lemma OperatorAppend(request: seq<string>, i: nat, result: seq<(string, string)>, ops: map<string, string>)
    requires i < |request| && OperatorsSoFar(request, i, result, ops)
    requires request[i] in ops && request[i] !in KeysOf(result)
    ensures OperatorsSoFar(request, i + 1, result + [(request[i], ops[request[i]])], ops)
  {
    var key := request[i];
    var next := result + [(key, ops[key])];
    PrefixSnoc(request, i);
    assert key !in request[..i];
    assert FirstIndex(request, key) == i;
    assert KeysOf(next) == KeysOf(result) + [key];
    assert forall a :: 0 <= a < |result| ==> next[a] == result[a];
  }

  /** Any other request entry is skipped. */
  lemma OperatorSkip(request: seq<string>, i: nat, result: seq<(string, string)>, ops: map<string, string>)
    requires i < |request| && OperatorsSoFar(request, i, result, ops)
    requires request[i] !in ops || request[i] in KeysOf(result)
    ensures OperatorsSoFar(request, i + 1, result, ops)
  {
    PrefixSnoc(request, i);
  }

  /** `Utils::get_operators($operators)`: the requested operators that are
      supported, each once, in the order first requested, up to the first falsy
      request entry, each with its label. */
  method GetOperators(request: seq<string>) returns (result: seq<(string, string)>)
    ensures forall k :: k in KeysOf(result) <==> k in SupportedOperators && k in request[..StopAt(request)]
    ensures forall i :: 0 <= i < |result| ==>
              result[i].0 in SupportedOperators && result[i].1 == SupportedOperators[result[i].0]
    ensures forall i, j :: 0 <= i < j < |result| ==>
              result[i].0 in request && result[j].0 in request &&
              FirstIndex(request, result[i].0) < FirstIndex(request, result[j].0)
  {
    result := [];
    var i := 0;
    while i < |request| && !FalsyKey(request[i])
      invariant 0 <= i <= StopAt(request)
      invariant OperatorsSoFar(request, i, result, SupportedOperators)
    {
      var key := request[i];
      if key in SupportedOperators && key !in KeysOf(result) {
        OperatorAppend(request, i, result, SupportedOperators);
        result := result + [(key, SupportedOperators[key])];
      } else {
        OperatorSkip(request, i, result, SupportedOperators);
      }
      i := i + 1;
    }
    assert i == StopAt(request);
  }

  // ---------------------------------------------------------------------------
  // Rule type registry

  /** A registered rule type: its group, its display priority and its label. */
  datatype RuleType = RuleType(group: string, priority: int, title: string)

  /** The rule types, keyed by type id (`cart:subtotal`, ...). */
  type TypeTable = map<string, RuleType>

  /** The rule types of `Utils::get_rule_types` before the `rule_types` filter. */
  const BuiltinRuleTypes: TypeTable := map[
    "cart:subtotal" := RuleType("cart", 10, "Subtotal"),
    "cart:total_quantity" := RuleType("cart", 15, "Total quantity"),
    "cart:total_weight" := RuleType("cart", 20, "Total weight"),
    "cart:coupons" := RuleType("cart", 25, "Coupons"),
    "cart_products:products" := RuleType("cart_products", 5, "Products"),
    "date:time" := RuleType("date", 5, "Time"),
    "date:date" := RuleType("date", 10, "Date"),
    "date:weekly_days" := RuleType("date", 15, "Weekly Days"),
    "billing:city" := RuleType("billing", 10, "City"),
    "billing:zipcode" := RuleType("billing", 20, "Zip code"),
    "billing:state" := RuleType("billing", 25, "State"),
    "billing:country" := RuleType("billing", 30, "Country"),
    "shipping:city" := RuleType("shipping", 10, "City"),
    "shipping:zipcode" := RuleType("shipping", 15, "Zip code"),
    "shipping:state" := RuleType("shipping", 20, "State"),
    "shipping:country" := RuleType("shipping", 25, "Country"),
    "user:users" := RuleType("user", 10, "Users"),
    "user:roles" := RuleType("user", 15, "Roles"),
    "user:logged_in" := RuleType("user", 20, "Logged In"),
    "order_history:first_purchase" := RuleType("order_history", 10, "First Purchase")
  ]

  /** `Utils::get_rule_types`: the built-in table passed through the `rule_types` filter. */
  function GetRuleTypes(ruleTypesHook: TypeTable -> TypeTable): TypeTable {
    ruleTypesHook(BuiltinRuleTypes)
  }

  predicate SortedByPriority(entries: seq<(string, RuleType)>) {
    forall i, j :: 0 <= i < j < |entries| ==> entries[i].1.priority <= entries[j].1.priority
  }

  predicate DistinctKeys(entries: seq<(string, RuleType)>) {
    forall i, j :: 0 <= i < j < |entries| ==> entries[i].0 != entries[j].0
  }

  /** Inserting after every entry of no greater priority keeps the order sorted. */
  lemma InsertSorted(sorted: seq<(string, RuleType)>, j: nat, e: (string, RuleType))
    requires SortedByPriority(sorted)
    requires j <= |sorted|
    requires forall m :: 0 <= m < j ==> sorted[m].1.priority <= e.1.priority
    requires forall m :: j <= m < |sorted| ==> sorted[m].1.priority > e.1.priority
    ensures SortedByPriority(sorted[..j] + [e] + sorted[j..])
  {
    var r := sorted[..j] + [e] + sorted[j..];
    forall a, b | 0 <= a < b < |r| ensures r[a].1.priority <= r[b].1.priority {
      if b < j {
        assert r[a] == sorted[a] && r[b] == sorted[b];
      } else if b == j {
        assert r[a] == sorted[a];
      } else if a < j {
        assert r[a] == sorted[a] && r[b] == sorted[b - 1];
      } else if a == j {
        assert r[b] == sorted[b - 1];
      } else {
        assert r[a] == sorted[a - 1] && r[b] == sorted[b - 1];
      }
    }
  }

  /** Where each entry of `s` lands once `e` is inserted at `j`. */
  lemma InsertedAt<T>(s: seq<T>, j: nat, e: T)
    requires j <= |s|
    ensures |s[..j] + [e] + s[j..]| == |s| + 1
    ensures forall a :: 0 <= a < j ==> (s[..j] + [e] + s[j..])[a] == s[a]
    ensures (s[..j] + [e] + s[j..])[j] == e
    ensures forall a :: j < a <= |s| ==> (s[..j] + [e] + s[j..])[a] == s[a - 1]
  {
  }

  /** Inserting an entry whose key is new keeps the keys distinct and adds
      exactly that entry. */
  lemma InsertDistinct(sorted: seq<(string, RuleType)>, j: nat, e: (string, RuleType))
    requires DistinctKeys(sorted)
    requires j <= |sorted|
    requires forall m :: 0 <= m < |sorted| ==> sorted[m].0 != e.0
    ensures DistinctKeys(sorted[..j] + [e] + sorted[j..])
    ensures forall x :: x in sorted[..j] + [e] + sorted[j..] <==> x in sorted || x == e
  {
    var r := sorted[..j] + [e] + sorted[j..];
    InsertedAt(sorted, j, e);
    forall a, b | 0 <= a < b < |r| ensures r[a].0 != r[b].0 {
      if b < j {
        assert r[a] == sorted[a] && r[b] == sorted[b];
      } else if b == j {
        assert r[a] == sorted[a];
      } else if a < j {
        assert r[a] == sorted[a] && r[b] == sorted[b - 1];
      } else if a == j {
        assert r[b] == sorted[b - 1];
      } else {
        assert r[a] == sorted[a - 1] && r[b] == sorted[b - 1];
      }
    }
    forall x | x in sorted ensures x in r {
      var m :| 0 <= m < |sorted| && sorted[m] == x;
      if m < j {
        assert r[m] == x;
      } else {
        assert r[m + 1] == x;
      }
    }
  }

  /** The `foreach` of `Utils::get_types_by_group`: the types whose group is
      `group`, each once, in the order the table is walked. */
  method CollectGroup(group: string, types: TypeTable) returns (groupTypes: seq<(string, RuleType)>)
    ensures forall k, t :: (k, t) in groupTypes <==> k in types && types[k] == t && t.group == group
    ensures DistinctKeys(groupTypes)
  {
    groupTypes := [];
    var remaining := types.Keys;
    while remaining != {}
      invariant remaining <= types.Keys
      invariant forall k, t :: (k, t) in groupTypes <==>
                  k in types.Keys - remaining && types[k] == t && t.group == group
      invariant forall a :: 0 <= a < |groupTypes| ==> groupTypes[a].0 !in remaining
      invariant DistinctKeys(groupTypes)
      decreases remaining
    {
      var key :| key in remaining;
      remaining := remaining - {key};
      if types[key].group == group {
        groupTypes := groupTypes + [(key, types[key])];
      }
    }
  }

  /** One step of the `uasort`: `e` goes after every entry of no greater priority. */
  method InsertByPriority(sorted: seq<(string, RuleType)>, e: (string, RuleType)) returns (next: seq<(string, RuleType)>)
    requires SortedByPriority(sorted) && DistinctKeys(sorted)
    requires forall m :: 0 <= m < |sorted| ==> sorted[m].0 != e.0
    ensures SortedByPriority(next) && DistinctKeys(next)
    ensures forall x :: x in next <==> x in sorted || x == e
  {
    var j := |sorted|;
    while j > 0 && sorted[j - 1].1.priority > e.1.priority
      invariant 0 <= j <= |sorted|
      invariant forall m :: j <= m < |sorted| ==> sorted[m].1.priority > e.1.priority
    {
      j := j - 1;
    }
    InsertSorted(sorted, j, e);
    InsertDistinct(sorted, j, e);
    next := sorted[..j] + [e] + sorted[j..];
  }

  /** The `uasort` of `Utils::get_types_by_group` by ascending priority. */
  method SortByPriority(entries: seq<(string, RuleType)>) returns (result: seq<(string, RuleType)>)
    requires DistinctKeys(entries)
    ensures forall e :: e in result <==> e in entries
    ensures DistinctKeys(result)
    ensures SortedByPriority(result)
  {
    result := [];
    var n := 0;
    while n < |entries|
      invariant 0 <= n <= |entries|
      invariant forall e :: e in result <==> e in entries[..n]
      invariant DistinctKeys(result)
      invariant SortedByPriority(result)
    {
      var e := entries[n];
      forall m | 0 <= m < |result| ensures result[m].0 != e.0 {
        assert result[m] in entries[..n];
        var a :| 0 <= a < n && entries[a] == result[m];
      }
      PrefixSnoc(entries, n);
      result := InsertByPriority(result, e);
      n := n + 1;
    }
    assert entries[..n] == entries;
  }

  /** `Utils::get_types_by_group($group)`: exactly the types of the group, each
      once, in non-decreasing priority. The comparator never answers "equal", so
      PHP leaves the order of equal priorities unspecified; this model keeps
      equal priorities in the order they were collected. */
  method GetTypesByGroup(group: string, types: TypeTable) returns (result: seq<(string, RuleType)>)
    ensures forall k, t :: (k, t) in result <==> k in types && types[k] == t && t.group == group
    ensures DistinctKeys(result)
    ensures SortedByPriority(result)
  {
    var groupTypes := CollectGroup(group, types);
    result := SortByPriority(groupTypes);
  }

  // ---------------------------------------------------------------------------
  // Default parameter bag

  /** The three keys `Utils::get_rule_values` sets last, so that no extension
      default replaces them. */
  const BaseRuleValues: Bag := map[
    "value" := Str(""),
    "type" := Str("cart:subtotal"),
    "operator" := Str("greater_than")
  ]

  /** `Utils::get_rule_values()`: the `rule_values` filter applied to an empty
      bag, then the base keys merged over it. */
  function GetRuleValues(ruleValuesHook: Bag -> Bag): (d: Bag)
    ensures "value" in d && d["value"] == Str("")
    ensures "type" in d && d["type"] == Str("cart:subtotal")
    ensures "operator" in d && d["operator"] == Str("greater_than")
    ensures forall k :: k in d <==> k in ruleValuesHook(map[]) || k in BaseRuleValues
    ensures forall k :: k in ruleValuesHook(map[]) && k !in BaseRuleValues ==> d[k] == ruleValuesHook(map[])[k]
  {
    ruleValuesHook(map[]) + BaseRuleValues
  }

  /** The keyed view of a stored array; anything else has no keys here. */
  function AsBag(v: Value): Bag {
    match v
    case Obj(fields) => fields
    case List(items) => ListAsBag(items)
    case _ => map[]
  }

  /** `wp_parse_args($stored, $defaults)`: stored values over defaults. */
  function ParseArgs(stored: Value, defaults: Bag): Bag {
    defaults + AsBag(stored)
  }

  /** Merging keeps every stored key with its stored value and adds every
      missing default. */
  lemma ParseArgsKeeps(stored: Value, defaults: Bag)
    ensures forall k :: k in ParseArgs(stored, defaults) <==> k in AsBag(stored) || k in defaults
    ensures forall k :: k in AsBag(stored) ==> ParseArgs(stored, defaults)[k] == AsBag(stored)[k]
    ensures forall k :: k in defaults && k !in AsBag(stored) ==> ParseArgs(stored, defaults)[k] == defaults[k]
  {
  }

  // ---------------------------------------------------------------------------
  // Legacy migration

  /** One legacy rename: a rule whose type is `legacyType` gets `currentType`,
      and its old list `oldKey` is copied to `newKey` when it is set and an array. */
  function RenameLegacy(rule: Bag, legacyType: string, currentType: string, oldKey: string, newKey: string): Bag {
    if Get(rule, "type") == Str(legacyType) then
      var renamed := rule["type" := Str(currentType)];
      if IsSet(rule, oldKey) && IsArray(rule[oldKey]) then renamed[newKey := rule[oldKey]]
      else renamed
    else rule
  }

  /** The three renames of `Utils::get_rule_settings`, in source order. */
  function MigrateLegacy(rule: Bag): Bag {
    var r1 := RenameLegacy(rule, "cart_products:categories", "cart_products:product_cat",
                           "categories", "cart_products_product_cat");
    var r2 := RenameLegacy(r1, "cart_products:tags", "cart_products:product_tag",
                           "tags", "cart_products_product_tag");
    RenameLegacy(r2, "cart_products:shipping_classes", "cart_products:product_shipping_class",
                 "shipping_classes", "cart_products_product_shipping_class")
  }

  predicate IsLegacyType(t: Value) {
    t == Str("cart_products:categories") || t == Str("cart_products:tags") ||
    t == Str("cart_products:shipping_classes")
  }

  /** The id a stored type has after migration. */
  function MigratedType(t: Value): (r: Value)
    ensures !IsLegacyType(r)
    ensures !IsLegacyType(t) ==> r == t
  {
    if t == Str("cart_products:categories") then Str("cart_products:product_cat")
    else if t == Str("cart_products:tags") then Str("cart_products:product_tag")
    else if t == Str("cart_products:shipping_classes") then Str("cart_products:product_shipping_class")
    else t
  }

  /** For a legacy type: the key of its old list and the key that list moves to. */
  function LegacyListKeys(t: Value): Option<(string, string)> {
    if t == Str("cart_products:categories") then Some(("categories", "cart_products_product_cat"))
    else if t == Str("cart_products:tags") then Some(("tags", "cart_products_product_tag"))
    else if t == Str("cart_products:shipping_classes") then Some(("shipping_classes", "cart_products_product_shipping_class"))
    else None
  }

  /** The entry migration adds to a rule: the new key and the old list, when
      the rule has a legacy type and its old list is set and an array. */
  function MigrationCopy(rule: Bag): Option<(string, Value)> {
    match LegacyListKeys(Get(rule, "type"))
    case None => None
    case Some(keys) =>
      if IsSet(rule, keys.0) && IsArray(rule[keys.0]) then Some((keys.1, rule[keys.0])) else None
  }

  /** What migration does to a rule: the type is renamed, the old list is copied
      to its new key when it is an array, and every other entry is unchanged. */
  lemma MigrateLegacyEffect(rule: Bag)
    ensures Get(MigrateLegacy(rule), "type") == MigratedType(Get(rule, "type"))
    ensures "type" in rule <==> "type" in MigrateLegacy(rule)
    ensures MigrationCopy(rule).Some? ==>
              MigrationCopy(rule).value.0 in MigrateLegacy(rule) &&
              MigrateLegacy(rule)[MigrationCopy(rule).value.0] == MigrationCopy(rule).value.1
    ensures forall k :: k != "type" && (MigrationCopy(rule).None? || k != MigrationCopy(rule).value.0) ==>
              (k in MigrateLegacy(rule) <==> k in rule) && (k in rule ==> MigrateLegacy(rule)[k] == rule[k])
  {
    var t := Get(rule, "type");
    var r1 := RenameLegacy(rule, "cart_products:categories", "cart_products:product_cat",
                           "categories", "cart_products_product_cat");
    var r2 := RenameLegacy(r1, "cart_products:tags", "cart_products:product_tag",
                           "tags", "cart_products_product_tag");
    if t == Str("cart_products:categories") {
      assert Get(r1, "type") == Str("cart_products:product_cat");
      assert "cart_products:product_cat" != "cart_products:tags";
      assert "cart_products:product_cat" != "cart_products:shipping_classes";
      assert r2 == r1;
    } else if t == Str("cart_products:tags") {
      assert r1 == rule;
      assert Get(r2, "type") == Str("cart_products:product_tag");
      assert "cart_products:product_tag" != "cart_products:shipping_classes";
    } else {
      assert r1 == rule;
      assert r2 == rule;
    }
  }

  /** Migration leaves a rule alone when its type is not a legacy id. */
  lemma MigrateLegacyNonLegacy(rule: Bag)
    requires !IsLegacyType(Get(rule, "type"))
    ensures MigrateLegacy(rule) == rule
  {
  }

  // ---------------------------------------------------------------------------
  // Settings normalisation

  /** Extension points that shape a rule before it is evaluated. */
  datatype RuleHooks = RuleHooks(ruleValues: Bag -> Bag, migrate: Bag -> Bag)

  /** A filter with no callback hands its value back. */
  function NoMigration(rule: Bag): Bag {
    rule
  }

  /** The hooks with no `rule_migrate` callback. */
  function PlainHooks(ruleValues: Bag -> Bag): RuleHooks {
    RuleHooks(ruleValues, NoMigration)
  }

  /** One stored rule after `get_rule_settings`: merged over the defaults,
      legacy-migrated, then passed through the `rule_migrate` filter. */
  function NormalizeRule(stored: Value, hooks: RuleHooks): Bag {
    hooks.migrate(MigrateLegacy(ParseArgs(stored, GetRuleValues(hooks.ruleValues))))
  }

  /** `array_map` of `NormalizeRule` over an array decoded from a JSON object:
      the same keys, each rule normalised. */
  function NormalizeFields(fields: map<string, Value>, hooks: RuleHooks): (m: map<string, Value>)
    ensures m.Keys == fields.Keys
    ensures forall k :: k in fields ==> m[k] == Obj(NormalizeRule(fields[k], hooks))
  {
    map k | k in fields :: Obj(NormalizeRule(fields[k], hooks))
  }

  /** `array_map` of `NormalizeRule` over the stored rules; a non-array reads as none. */
  function NormalizeRules(stored: Value, hooks: RuleHooks): (r: Value)
    ensures r.List? || r.Obj?
    ensures Count(r) == Count(stored)
    ensures stored.List? ==>
              r.List? && |r.items| == |stored.items| &&
              forall i :: 0 <= i < |stored.items| ==> r.items[i] == Obj(NormalizeRule(stored.items[i], hooks))
    ensures stored.Obj? ==>
              r.Obj? && r.fields.Keys == stored.fields.Keys &&
              forall k :: k in stored.fields ==> r.fields[k] == Obj(NormalizeRule(stored.fields[k], hooks))
    ensures !IsArray(stored) ==> r == List([])
  {
    match stored
    case List(items) => List(seq(|items|, i requires 0 <= i < |items| => Obj(NormalizeRule(items[i], hooks))))
    case Obj(fields) => Obj(NormalizeFields(fields, hooks))
    case _ => List([])
  }

  /** The stored rules a settings value holds: its `rules` array, or none when
      that is missing or not an array. */
  function StoredRules(decoded: Value): Value {
    ListAt(AsBag(decoded), "rules")
  }

  /** `Utils::get_rule_settings` on the decoded settings. */
  function GetRuleSettings(decoded: Value, hooks: RuleHooks): (settings: Bag)
    ensures IsArray(decoded) ==> "rules" in settings && IsArray(settings["rules"])
    ensures !IsArray(decoded) <==> settings == map[]
    ensures IsArray(decoded) ==> forall k :: k != "rules" ==> (k in settings <==> k in AsBag(decoded))
    ensures IsArray(decoded) ==> forall k :: k in AsBag(decoded) && k != "rules" ==> settings[k] == AsBag(decoded)[k]
  {
    if !IsArray(decoded) then map[]
    else
      AsBag(decoded)["rules" := NormalizeRules(StoredRules(decoded), hooks)]
  }

  /** The normalised `rules` are the stored rules normalised one by one, and
      there are none when the stored value is missing or not an array. */
  lemma GetRuleSettingsRules(decoded: Value, hooks: RuleHooks)
    requires IsArray(decoded)
    ensures GetRuleSettings(decoded, hooks)["rules"] == NormalizeRules(StoredRules(decoded), hooks)
    ensures !IsSet(AsBag(decoded), "rules") || !IsArray(AsBag(decoded)["rules"]) ==>
              GetRuleSettings(decoded, hooks)["rules"] == List([])
  {
  }

  /** Every normalised rule has every default key (with the identity migrate
      hook), whatever was stored. */
  lemma NormalizeRuleHasDefaults(stored: Value, ruleValues: Bag -> Bag)
    ensures forall k :: k in GetRuleValues(ruleValues) ==> k in NormalizeRule(stored, PlainHooks(ruleValues))
  {
    var merged := ParseArgs(stored, GetRuleValues(ruleValues));
    MigrateLegacyEffect(merged);
  }

  /** A normalised rule never carries a legacy type id (identity migrate hook). */
  lemma NormalizeRuleNotLegacy(stored: Value, ruleValues: Bag -> Bag)
    ensures !IsLegacyType(Get(NormalizeRule(stored, PlainHooks(ruleValues)), "type"))
  {
    var merged := ParseArgs(stored, GetRuleValues(ruleValues));
    MigrateLegacyEffect(merged);
  }

  /** Every rule of normalised settings (identity migrate hook) is a keyed
      array holding every default key and no legacy type id. */
  lemma GetRuleSettingsRulesNormalized(decoded: Value, ruleValues: Bag -> Bag)
    requires IsArray(decoded)
    ensures var rules := GetRuleSettings(decoded, PlainHooks(ruleValues))["rules"];
            forall x :: Contains(rules, x) ==>
              x.Obj? && (forall k :: k in GetRuleValues(ruleValues) ==> k in x.fields) &&
              !IsLegacyType(Get(x.fields, "type"))
  {
    var hooks := PlainHooks(ruleValues);
    var stored := StoredRules(decoded);
    var rules := GetRuleSettings(decoded, hooks)["rules"];
    GetRuleSettingsRules(decoded, hooks);
    forall x | Contains(rules, x)
      ensures x.Obj? && (forall k :: k in GetRuleValues(ruleValues) ==> k in x.fields) &&
              !IsLegacyType(Get(x.fields, "type"))
    {
      var one: Value;
      if stored.List? {
        var i :| 0 <= i < |rules.items| && rules.items[i] == x;
        one := stored.items[i];
      } else {
        var k :| k in rules.fields && rules.fields[k] == x;
        one := stored.fields[k];
      }
      assert x == Obj(NormalizeRule(one, hooks));
      NormalizeRuleHasDefaults(one, ruleValues);
      NormalizeRuleNotLegacy(one, ruleValues);
    }
  }

  /** Normalising a normalised rule again changes nothing (identity migrate hook). */
  lemma NormalizeRuleIdempotent(stored: Value, ruleValues: Bag -> Bag)
    ensures var hooks := PlainHooks(ruleValues);
            NormalizeRule(Obj(NormalizeRule(stored, hooks)), hooks) == NormalizeRule(stored, hooks)
  {
    var hooks := PlainHooks(ruleValues);
    var once := NormalizeRule(stored, hooks);
    NormalizeRuleHasDefaults(stored, ruleValues);
    NormalizeRuleNotLegacy(stored, ruleValues);
    var merged := ParseArgs(Obj(once), GetRuleValues(ruleValues));
    assert merged == once;
    MigrateLegacyNonLegacy(once);
  }

  lemma NormalizeListIdempotent(items: seq<Value>, ruleValues: Bag -> Bag)
    ensures var hooks := PlainHooks(ruleValues);
            NormalizeRules(NormalizeRules(List(items), hooks), hooks) == NormalizeRules(List(items), hooks)
  {
    var hooks := PlainHooks(ruleValues);
    var once := NormalizeRules(List(items), hooks).items;
    var twice := NormalizeRules(List(once), hooks).items;
    forall i | 0 <= i < |once| ensures twice[i] == once[i] {
      NormalizeRuleIdempotent(items[i], ruleValues);
    }
  }

  lemma NormalizeObjIdempotent(fields: map<string, Value>, ruleValues: Bag -> Bag)
    ensures NormalizeRules(NormalizeRules(Obj(fields), PlainHooks(ruleValues)), PlainHooks(ruleValues)) ==
            NormalizeRules(Obj(fields), PlainHooks(ruleValues))
  {
    var once := NormalizeFields(fields, PlainHooks(ruleValues));
    var twice := NormalizeFields(once, PlainHooks(ruleValues));
    forall k | k in once ensures twice[k] == once[k] {
      NormalizeRuleIdempotent(fields[k], ruleValues);
    }
    MapExt(twice, once);
  }

  /** Normalising a normalised rules array again changes nothing (identity migrate hook). */
  lemma NormalizeRulesIdempotent(stored: Value, ruleValues: Bag -> Bag)
    ensures var hooks := PlainHooks(ruleValues);
            NormalizeRules(NormalizeRules(stored, hooks), hooks) == NormalizeRules(stored, hooks)
  {
    match stored
    case List(items) => NormalizeListIdempotent(items, ruleValues);
    case Obj(fields) => NormalizeObjIdempotent(fields, ruleValues);
    case _ =>
  }

  /** Normalising already-normalised settings changes nothing (identity migrate hook). */
  lemma GetRuleSettingsIdempotent(decoded: Value, ruleValues: Bag -> Bag)
    requires IsArray(decoded)
    ensures var hooks := PlainHooks(ruleValues);
            GetRuleSettings(Obj(GetRuleSettings(decoded, hooks)), hooks) == GetRuleSettings(decoded, hooks)
  {
    var hooks := PlainHooks(ruleValues);
    var once := GetRuleSettings(decoded, hooks);
    var rules := StoredRules(decoded);
    assert AsBag(Obj(once)) == once;
    assert StoredRules(Obj(once)) == NormalizeRules(rules, hooks);
    NormalizeRulesIdempotent(rules, ruleValues);
  }

  // ---------------------------------------------------------------------------
  // Per-term cart totals

  datatype TermTotal = TermTotal(lineSubtotal: real, quantity: int, weight: real)

  const ZeroTotal := TermTotal(0.0, 0, 0.0)

  function Plus(a: TermTotal, b: TermTotal): TermTotal {
    TermTotal(a.lineSubtotal + b.lineSubtotal, a.quantity + b.quantity, a.weight + b.weight)
  }

  /** What one occurrence of a term on a cart line adds: its line subtotal, its
      quantity, and weight times quantity when the product has a weight. */
  function LineShare(item: CartItem): TermTotal {
    TermTotal(item.lineSubtotal, item.quantity,
              if item.weight.Some? then item.weight.value * item.quantity as real else 0.0)
  }

  function Times(n: nat, t: TermTotal): TermTotal {
    TermTotal(n as real * t.lineSubtotal, n * t.quantity, n as real * t.weight)
  }

  /** Number of times `x` occurs in `s`. */
  function Occurrences(s: seq<Value>, x: Value): nat {
    multiset(s)[x]
  }

  /** The totals a term should have: the sum, over the cart lines, of the line's
      share once per occurrence of the term among the line's product terms. */
  function ExpectedTotal(items: seq<CartItem>, termIds: (Value, string) -> seq<Value>, taxonomy: string, term: Value): TermTotal {
    if items == [] then ZeroTotal
    else
      var last := items[|items| - 1];
      Plus(ExpectedTotal(items[..|items| - 1], termIds, taxonomy, term),
           Times(Occurrences(termIds(last.productId, taxonomy), term), LineShare(last)))
  }

  /** Some cart line's product carries the term. */
  predicate Carried(items: seq<CartItem>, termIds: (Value, string) -> seq<Value>, taxonomy: string, term: Value) {
    exists i :: 0 <= i < |items| && term in termIds(items[i].productId, taxonomy)
  }

  /** `$allow_terms` admits the term: it is not an array, or it holds the term. */
  predicate Allowed(allowTerms: Value, term: Value) {
    !IsArray(allowTerms) || Contains(allowTerms, term)
  }

  /** A term no cart line carries has nothing to add up. */
  lemma {:induction false} ExpectedTotalNotCarried(items: seq<CartItem>, termIds: (Value, string) -> seq<Value>, taxonomy: string, term: Value)
    requires forall i :: 0 <= i < |items| ==> term !in termIds(items[i].productId, taxonomy)
    ensures ExpectedTotal(items, termIds, taxonomy, term) == ZeroTotal
  {
    if items != [] {
      var init := items[..|items| - 1];
      assert forall i :: 0 <= i < |init| ==> init[i] == items[i];
      ExpectedTotalNotCarried(init, termIds, taxonomy, term);
      var ids := termIds(items[|items| - 1].productId, taxonomy);
      assert term !in multiset(ids);
      assert Occurrences(ids, term) == 0;
    }
  }

  /** Extending the cart by its next line: carried by the longer prefix means
      carried before or by that line, and the line's share is added once per
      occurrence. */
  lemma PrefixStep(items: seq<CartItem>, i: nat, termIds: (Value, string) -> seq<Value>, taxonomy: string, term: Value)
    requires i < |items|
    ensures Carried(items[..i + 1], termIds, taxonomy, term) <==>
              Carried(items[..i], termIds, taxonomy, term) || term in termIds(items[i].productId, taxonomy)
    ensures ExpectedTotal(items[..i + 1], termIds, taxonomy, term) ==
              Plus(ExpectedTotal(items[..i], termIds, taxonomy, term),
                   Times(Occurrences(termIds(items[i].productId, taxonomy), term), LineShare(items[i])))
  {
    var longer := items[..i + 1];
    assert longer[..i] == items[..i];
    assert longer[i] == items[i];
    assert forall a :: 0 <= a < i ==> longer[a] == items[..i][a];
  }

  lemma TimesSucc(n: nat, t: TermTotal)
    ensures Times(n + 1, t) == Plus(Times(n, t), t)
  {
    assert (n + 1) as real * t.lineSubtotal == n as real * t.lineSubtotal + t.lineSubtotal;
    assert (n + 1) as real * t.weight == n as real * t.weight + t.weight;
  }

  /** The running total of a term, or zero when it has none yet. */
  function TotalOf(totals: map<Value, TermTotal>, term: Value): TermTotal {
    if term in totals then totals[term] else ZeroTotal
  }

  /** The running totals after the first `j` terms of a line whose share is
      `share` have been added to `totals`. */
  ghost predicate LineAdded(next: map<Value, TermTotal>, totals: map<Value, TermTotal>, terms: seq<Value>, j: nat,
                      share: TermTotal, allowTerms: Value)
    requires j <= |terms|
  {
    (forall t :: t in next <==> t in totals || (Allowed(allowTerms, t) && t in terms[..j])) &&
    (forall t :: t in next && !Allowed(allowTerms, t) ==> next[t] == totals[t]) &&
    (forall t :: t in next && Allowed(allowTerms, t) ==>
       next[t] == Plus(TotalOf(totals, t), Times(Occurrences(terms[..j], t), share)))
  }

  lemma OccurrencesSnoc(terms: seq<Value>, j: nat, t: Value)
    requires j < |terms|
    ensures Occurrences(terms[..j + 1], t) == Occurrences(terms[..j], t) + (if t == terms[j] then 1 else 0)
  {
    PrefixSnoc(terms, j);
  }

  /** The running total of the term the share is added to. */
  lemma AddTermSame(next: map<Value, TermTotal>, totals: map<Value, TermTotal>, terms: seq<Value>, j: nat,
                    share: TermTotal, allowTerms: Value)
    requires j < |terms| && Allowed(allowTerms, terms[j])
    requires LineAdded(next, totals, terms, j, share, allowTerms)
    ensures Plus(TotalOf(next, terms[j]), share) ==
            Plus(TotalOf(totals, terms[j]), Times(Occurrences(terms[..j + 1], terms[j]), share))
  {
    var term := terms[j];
    OccurrencesSnoc(terms, j, term);
    TimesSucc(Occurrences(terms[..j], term), share);
    if term !in next {
      assert term !in multiset(terms[..j]);
    }
  }

  /** The running total of one allowed term after the share is added to the next term. */
  lemma AddTermValue(next: map<Value, TermTotal>, totals: map<Value, TermTotal>, terms: seq<Value>, j: nat,
                     share: TermTotal, allowTerms: Value, t: Value)
    requires j < |terms| && Allowed(allowTerms, terms[j]) && Allowed(allowTerms, t)
    requires LineAdded(next, totals, terms, j, share, allowTerms)
    requires t in next || t == terms[j]
    ensures next[terms[j] := Plus(TotalOf(next, terms[j]), share)][t] ==
            Plus(TotalOf(totals, t), Times(Occurrences(terms[..j + 1], t), share))
  {
    if t == terms[j] {
      AddTermSame(next, totals, terms, j, share, allowTerms);
    } else {
      OccurrencesSnoc(terms, j, t);
    }
  }

  /** Adding the share to the next term, when it is allowed, extends `LineAdded` by that term. */
  lemma AddTermStep(next: map<Value, TermTotal>, totals: map<Value, TermTotal>, terms: seq<Value>, j: nat,
                    share: TermTotal, allowTerms: Value)
    requires j < |terms| && Allowed(allowTerms, terms[j])
    requires LineAdded(next, totals, terms, j, share, allowTerms)
    ensures LineAdded(next[terms[j] := Plus(TotalOf(next, terms[j]), share)], totals, terms, j + 1, share, allowTerms)
  {
    var term := terms[j];
    var after := next[term := Plus(TotalOf(next, term), share)];
    PrefixSnoc(terms, j);
    forall t | t in after && Allowed(allowTerms, t)
      ensures after[t] == Plus(TotalOf(totals, t), Times(Occurrences(terms[..j + 1], t), share))
    {
      AddTermValue(next, totals, terms, j, share, allowTerms, t);
    }
  }

  /** Skipping a term that is not allowed extends `LineAdded` by that term. */
  lemma SkipTermStep(next: map<Value, TermTotal>, totals: map<Value, TermTotal>, terms: seq<Value>, j: nat,
                     share: TermTotal, allowTerms: Value)
    requires j < |terms| && !Allowed(allowTerms, terms[j])
    requires LineAdded(next, totals, terms, j, share, allowTerms)
    ensures LineAdded(next, totals, terms, j + 1, share, allowTerms)
  {
    PrefixSnoc(terms, j);
    forall t | t in next && Allowed(allowTerms, t)
      ensures next[t] == Plus(TotalOf(totals, t), Times(Occurrences(terms[..j + 1], t), share))
    {
      OccurrencesSnoc(terms, j, t);
    }
  }

  /** The inner `foreach` of `Utils::get_terms_total`: one cart line's share is
      added to every allowed term of the line, once per occurrence. */
  method AddLineTerms(totals: map<Value, TermTotal>, terms: seq<Value>, share: TermTotal, allowTerms: Value)
    returns (next: map<Value, TermTotal>)
    ensures forall t :: t in next <==> t in totals || (Allowed(allowTerms, t) && t in terms)
    ensures forall t :: t in next && !Allowed(allowTerms, t) ==> next[t] == totals[t]
    ensures forall t :: t in next && Allowed(allowTerms, t) ==>
              next[t] == Plus(TotalOf(totals, t), Times(Occurrences(terms, t), share))
  {
    next := totals;
    var j := 0;
    assert forall t :: Occurrences(terms[..0], t) == 0;
    while j < |terms|
      invariant 0 <= j <= |terms|
      invariant LineAdded(next, totals, terms, j, share, allowTerms)
    {
      var term := terms[j];
      if !Allowed(allowTerms, term) {
        SkipTermStep(next, totals, terms, j, share, allowTerms);
        j := j + 1;
        continue;
      }
      AddTermStep(next, totals, terms, j, share, allowTerms);
      next := next[term := Plus(TotalOf(next, term), share)];
      j := j + 1;
    }
    assert terms[..j] == terms;
  }

  /** `Utils::get_terms_total($taxonomy, $allow_terms)`: for every allowed term
      carried by a cart line's product, the line subtotals, quantities and
      weights summed once per occurrence of the term. */
  method GetTermsTotal(items: seq<CartItem>, termIds: (Value, string) -> seq<Value>, taxonomy: string, allowTerms: Value)
    returns (totals: map<Value, TermTotal>)
    ensures forall t :: t in totals <==> Allowed(allowTerms, t) && Carried(items, termIds, taxonomy, t)
    ensures forall t :: t in totals ==> totals[t] == ExpectedTotal(items, termIds, taxonomy, t)
  {
    totals := map[];
    var i := 0;
    while i < |items|
      invariant 0 <= i <= |items|
      invariant forall t :: t in totals <==> Allowed(allowTerms, t) && Carried(items[..i], termIds, taxonomy, t)
      invariant forall t :: t in totals ==> totals[t] == ExpectedTotal(items[..i], termIds, taxonomy, t)
    {
      var terms := termIds(items[i].productId, taxonomy);
      var next := AddLineTerms(totals, terms, LineShare(items[i]), allowTerms);
      forall t
        ensures t in next <==> Allowed(allowTerms, t) && Carried(items[..i + 1], termIds, taxonomy, t)
        ensures t in next ==> next[t] == ExpectedTotal(items[..i + 1], termIds, taxonomy, t)
      {
        PrefixStep(items, i, termIds, taxonomy, t);
        if t !in totals && Allowed(allowTerms, t) {
          assert !Carried(items[..i], termIds, taxonomy, t);
          ExpectedTotalNotCarried(items[..i], termIds, taxonomy, t);
        }
      }
      totals := next;
      i := i + 1;
    }
    assert items[..i] == items;
  }
}
