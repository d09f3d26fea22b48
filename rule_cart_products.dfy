/** `Hide_Shipping_Rates\Rule\Cart_Products` (inc/class-rule-cart-products.php):
    the per-taxonomy default keys and rule types, and the membership of the
    cart's products, taxonomy terms and shipping classes in a rule's lists. */
module RuleCartProducts {
  import opened Strings
  import opened Values
  import opened Snapshot
  import opened Utils

  const ShippingClassSlug := "product_shipping_class"

  // ---------------------------------------------------------------------------
  // Default keys

  /** The default bag after `rule_values`: `products => []`, then
      `cart_products_<slug> => []` for every taxonomy in order. */
  function WithTaxonomyDefaults(values: Bag, taxonomies: seq<Taxonomy>): Bag {
    if taxonomies == [] then values["products" := List([])]
    else
      var last := taxonomies[|taxonomies| - 1];
      WithTaxonomyDefaults(values, taxonomies[..|taxonomies| - 1])["cart_products_" + last.slug := List([])]
  }

  /** `wp_parse_args`-style view of the keys `rule_values` adds. */
  predicate AddedKey(k: string, taxonomies: seq<Taxonomy>) {
    k == "products" || exists i :: 0 <= i < |taxonomies| && k == "cart_products_" + taxonomies[i].slug
  }

  /** `rule_values` adds exactly `products` and one list per taxonomy, all
      empty, and leaves every other key alone. */
  lemma {:induction false} WithTaxonomyDefaultsEffect(values: Bag, taxonomies: seq<Taxonomy>)
    ensures forall k :: k in WithTaxonomyDefaults(values, taxonomies) <==> k in values || AddedKey(k, taxonomies)
    ensures forall k :: AddedKey(k, taxonomies) ==> WithTaxonomyDefaults(values, taxonomies)[k] == List([])
    ensures forall k :: k in values && !AddedKey(k, taxonomies) ==> WithTaxonomyDefaults(values, taxonomies)[k] == values[k]
  {
    if taxonomies != [] {
      var init := taxonomies[..|taxonomies| - 1];
      var last := taxonomies[|taxonomies| - 1];
      WithTaxonomyDefaultsEffect(values, init);
      forall k ensures AddedKey(k, taxonomies) <==> AddedKey(k, init) || k == "cart_products_" + last.slug {
        if AddedKey(k, taxonomies) && k != "products" && k != "cart_products_" + last.slug {
          var i :| 0 <= i < |taxonomies| && k == "cart_products_" + taxonomies[i].slug;
          assert i < |init| && init[i] == taxonomies[i];
        }
        if AddedKey(k, init) && k != "products" {
          var i :| 0 <= i < |init| && k == "cart_products_" + init[i].slug;
          assert taxonomies[i] == init[i];
        }
      }
    }
  }

  /** `Cart_Products::rule_values($values)`. */
  method RuleValues(values: Bag, taxonomies: seq<Taxonomy>) returns (r: Bag)
    ensures r == WithTaxonomyDefaults(values, taxonomies)
  {
    r := values["products" := List([])];
    var i := 0;
    while i < |taxonomies|
      invariant 0 <= i <= |taxonomies|
      invariant r == WithTaxonomyDefaults(values, taxonomies[..i])
    {
      assert taxonomies[..i + 1][..i] == taxonomies[..i];
      r := r["cart_products_" + taxonomies[i].slug := List([])];
      i := i + 1;
    }
    assert taxonomies[..i] == taxonomies;
  }

  // ---------------------------------------------------------------------------
  // Rule types

  /** The type table after the types of `taxonomies` were added, the first with
      priority `first` and each next one higher by one. */
  function WithTaxonomyTypes(types: TypeTable, taxonomies: seq<Taxonomy>, first: int): TypeTable {
    if taxonomies == [] then types
    else
      var n := |taxonomies| - 1;
      WithTaxonomyTypes(types, taxonomies[..n], first)
        ["cart_products:" + taxonomies[n].slug := RuleType("cart_products", first + n, taxonomies[n].title)]
  }

  /** `Cart_Products::add_rule_types($types)`: priorities count up from 21. */
  method AddRuleTypes(types: TypeTable, taxonomies: seq<Taxonomy>) returns (r: TypeTable)
    ensures r == WithTaxonomyTypes(types, taxonomies, 21)
  {
    r := types;
    var priority := 20;
    var i := 0;
    while i < |taxonomies|
      invariant 0 <= i <= |taxonomies|
      invariant priority == 20 + i
      invariant r == WithTaxonomyTypes(types, taxonomies[..i], 21)
    {
      assert taxonomies[..i + 1][..i] == taxonomies[..i];
      priority := priority + 1;
      r := r["cart_products:" + taxonomies[i].slug := RuleType("cart_products", priority, taxonomies[i].title)];
      i := i + 1;
    }
    assert taxonomies[..i] == taxonomies;
  }

  /** The type id of a taxonomy's rule. */
  function TypeKey(tax: Taxonomy): string {
    "cart_products:" + tax.slug
  }

  /** Same prefix, same rest. */
  lemma PrefixCancel(p: string, a: string, b: string)
    requires p + a == p + b
    ensures a == b
  {
    assert a == (p + a)[|p|..];
    assert b == (p + b)[|p|..];
  }

  /** With distinct slugs, taxonomy `i` gets the type `cart_products:<slug>` in
      group `cart_products` with priority `first + i` and its label, and every
      other type is untouched. */
  lemma {:induction false} WithTaxonomyTypesEffect(types: TypeTable, taxonomies: seq<Taxonomy>, first: int)
    requires DistinctSlugs(taxonomies)
    ensures forall i :: 0 <= i < |taxonomies| ==>
              TypeKey(taxonomies[i]) in WithTaxonomyTypes(types, taxonomies, first) &&
              WithTaxonomyTypes(types, taxonomies, first)[TypeKey(taxonomies[i])] ==
                RuleType("cart_products", first + i, taxonomies[i].title)
    ensures forall k :: (forall i :: 0 <= i < |taxonomies| ==> k != TypeKey(taxonomies[i])) ==>
              (k in WithTaxonomyTypes(types, taxonomies, first) <==> k in types) &&
              (k in types ==> WithTaxonomyTypes(types, taxonomies, first)[k] == types[k])
  {
    if taxonomies != [] {
      var n := |taxonomies| - 1;
      var init := taxonomies[..n];
      assert DistinctSlugs(init) by {
        forall i, j | 0 <= i < j < |init| ensures init[i].slug != init[j].slug {
          assert init[i] == taxonomies[i] && init[j] == taxonomies[j];
        }
      }
      WithTaxonomyTypesEffect(types, init, first);
      forall i | 0 <= i < n ensures TypeKey(taxonomies[i]) != TypeKey(taxonomies[n]) {
        if TypeKey(taxonomies[i]) == TypeKey(taxonomies[n]) {
          PrefixCancel("cart_products:", taxonomies[i].slug, taxonomies[n].slug);
        }
      }
      forall i | 0 <= i < n ensures init[i] == taxonomies[i] { }
    }
  }

  /** The `rule_types` table with the taxonomy types of `add_rule_types` added
      to the built-in types. */
  lemma RuleTypesWithTaxonomies(taxonomies: seq<Taxonomy>)
    requires DistinctSlugs(taxonomies)
    ensures forall i :: 0 <= i < |taxonomies| ==>
              var types := GetRuleTypes(types => WithTaxonomyTypes(types, taxonomies, 21));
              TypeKey(taxonomies[i]) in types && types[TypeKey(taxonomies[i])].group == "cart_products" &&
              types[TypeKey(taxonomies[i])].priority == 21 + i
  {
    WithTaxonomyTypesEffect(BuiltinRuleTypes, taxonomies, 21);
  }

  // ---------------------------------------------------------------------------
  // Lists of the cart

  function ProductIds(items: seq<CartItem>): (ids: seq<Value>)
    ensures |ids| == |items| && forall i :: 0 <= i < |items| ==> ids[i] == items[i].productId
  {
    seq(|items|, i requires 0 <= i < |items| => items[i].productId)
  }

  function ShippingClassIds(items: seq<CartItem>): (ids: seq<Value>)
    ensures |ids| == |items| && forall i :: 0 <= i < |items| ==> ids[i] == items[i].shippingClassId
  {
    seq(|items|, i requires 0 <= i < |items| => items[i].shippingClassId)
  }

  /** The foreach building `$cart_products`: one product id per cart line. */
  method CollectProductIds(items: seq<CartItem>) returns (ids: seq<Value>)
    ensures ids == ProductIds(items)
  {
    ids := [];
    var i := 0;
    while i < |items|
      invariant 0 <= i <= |items|
      invariant ids == ProductIds(items[..i])
    {
      ids := ids + [items[i].productId];
      i := i + 1;
    }
    assert items[..i] == items;
  }

  /** The foreach building `$product_shipping_classes`: one class id per cart line. */
  method CollectShippingClassIds(items: seq<CartItem>) returns (ids: seq<Value>)
    ensures ids == ShippingClassIds(items)
  {
    ids := [];
    var i := 0;
    while i < |items|
      invariant 0 <= i <= |items|
      invariant ids == ShippingClassIds(items[..i])
    {
      ids := ids + [items[i].shippingClassId];
      i := i + 1;
    }
    assert items[..i] == items;
  }

  /** The cart's terms of a taxonomy: every line's product terms, concatenated
      without removing duplicates. */
  function CartTerms(items: seq<CartItem>, termIds: (Value, string) -> seq<Value>, taxonomy: string): seq<Value> {
    if items == [] then []
    else CartTerms(items[..|items| - 1], termIds, taxonomy) + termIds(items[|items| - 1].productId, taxonomy)
  }

  /** The foreach building `$cart_terms` with `array_merge`. */
  method CollectCartTerms(items: seq<CartItem>, termIds: (Value, string) -> seq<Value>, taxonomy: string)
    returns (terms: seq<Value>)
    ensures terms == CartTerms(items, termIds, taxonomy)
  {
    terms := [];
    var i := 0;
    while i < |items|
      invariant 0 <= i <= |items|
      invariant terms == CartTerms(items[..i], termIds, taxonomy)
    {
      assert items[..i + 1][..i] == items[..i];
      terms := terms + termIds(items[i].productId, taxonomy);
      i := i + 1;
    }
    assert items[..i] == items;
  }

  /** A term is among the cart's terms exactly when some line's product
      carries it, as `get_terms_total` counts it. */
  lemma {:induction false} CartTermsCarried(items: seq<CartItem>, termIds: (Value, string) -> seq<Value>, taxonomy: string, term: Value)
    ensures term in CartTerms(items, termIds, taxonomy) <==> Carried(items, termIds, taxonomy, term)
  {
    if items != [] {
      var n := |items| - 1;
      var init := items[..n];
      CartTermsCarried(init, termIds, taxonomy, term);
      if Carried(items, termIds, taxonomy, term) {
        var i :| 0 <= i < |items| && term in termIds(items[i].productId, taxonomy);
        if i < n {
          assert init[i] == items[i];
        }
      }
      if Carried(init, termIds, taxonomy, term) {
        var i :| 0 <= i < |init| && term in termIds(init[i].productId, taxonomy);
        assert init[i] == items[i];
      }
    }
  }

  /** `array_unique(array_filter($ids))`: the truthy ids, each once. */
  function CartSet(ids: seq<Value>): (s: seq<Value>)
    ensures forall x :: x in s <==> x in ids && Truthy(x)
    ensures forall i, j :: 0 <= i < j < |s| ==> s[i] != s[j]
  {
    Unique(Filter(ids, Truthy))
  }

  // ---------------------------------------------------------------------------
  // Verdicts

  /** The three list operators on an intersection of `matched` elements and a
      configured list of `listed` elements. */
  predicate ListVerdict(op: Value, matched: nat, listed: nat) {
    (op == Str("any_in_list") && matched > 0) ||
    (op == Str("all_in_list") && matched == listed) ||
    (op == Str("not_in_list") && matched == 0)
  }

  /** `count(array_intersect($listed, $cart))`: the configured entries (with
      their repetitions) that are among the cart's ids. */
  function RuleSideMatches(listed: Value, cart: seq<Value>): (n: nat)
    ensures n <= Count(listed)
  {
    CountWhere(listed, x => x in cart)
  }

  /** `count(array_intersect($cart_terms, $rule_terms))`: the cart's term
      occurrences that are configured. */
  function CartSideMatches(cartTerms: seq<Value>, listed: Value): (n: nat)
    ensures n <= |cartTerms|
  {
    SeqCountWhere(cartTerms, x => Contains(listed, x))
  }

  /** The products branch answers `true`. */
  predicate ProductsHold(rule: Bag, ctx: Context) {
    Get(rule, "type") == Str("cart_products:products") &&
    ListVerdict(Get(rule, "operator"), RuleSideMatches(ListAt(rule, "products"), CartSet(ProductIds(ctx.items))),
                Count(ListAt(rule, "products")))
  }

  /** The branch of one taxonomy answers `true`. */
  predicate TaxonomyHolds(tax: Taxonomy, rule: Bag, ctx: Context) {
    var listed := ListAt(rule, "cart_products_" + tax.slug);
    Get(rule, "type") == Str(TypeKey(tax)) &&
    ListVerdict(Get(rule, "operator"), CartSideMatches(CartTerms(ctx.items, ctx.termIds, tax.slug), listed), Count(listed))
  }

  /** The foreach over the taxonomies, skipping the shipping-class taxonomy:
      some branch answers `true`. */
  function TaxonomyLoop(taxonomies: seq<Taxonomy>, rule: Bag, ctx: Context): (r: bool)
    ensures r <==> exists i :: 0 <= i < |taxonomies| && taxonomies[i].slug != ShippingClassSlug &&
                              TaxonomyHolds(taxonomies[i], rule, ctx)
  {
    if taxonomies == [] then false
    else if taxonomies[0].slug != ShippingClassSlug && TaxonomyHolds(taxonomies[0], rule, ctx) then true
    else
      var r := TaxonomyLoop(taxonomies[1..], rule, ctx);
      assert forall i :: 0 < i < |taxonomies| ==> taxonomies[i] == taxonomies[1..][i - 1];
      r
  }

  /** The shipping-class branch answers `true`. */
  predicate ShippingClassHolds(rule: Bag, ctx: Context) {
    Get(rule, "type") == Str("cart_products:product_shipping_class") &&
    ListVerdict(Get(rule, "operator"),
                RuleSideMatches(ListAt(rule, "cart_products_product_shipping_class"), CartSet(ShippingClassIds(ctx.items))),
                Count(ListAt(rule, "cart_products_product_shipping_class")))
  }

  /** A rule type this evaluator answers for. */
  predicate IsCartProductsType(t: Value, taxonomies: seq<Taxonomy>) {
    t == Str("cart_products:products") || t == Str("cart_products:product_shipping_class") ||
    exists i :: 0 <= i < |taxonomies| && t == Str(TypeKey(taxonomies[i]))
  }

  /** `Cart_Products::rule_filters($matched, $rule)`: each branch whose type
      matches may answer `true`; when none does, `matched` passes through. */
  function RuleFilters(matched: bool, rule: Bag, ctx: Context): (r: bool)
    ensures !IsCartProductsType(Get(rule, "type"), ctx.taxonomies) ==> r == matched
    ensures matched ==> r
    ensures r <==> matched || ProductsHold(rule, ctx) || ShippingClassHolds(rule, ctx) ||
                   exists i :: 0 <= i < |ctx.taxonomies| && ctx.taxonomies[i].slug != ShippingClassSlug &&
                               TaxonomyHolds(ctx.taxonomies[i], rule, ctx)
  {
    if ProductsHold(rule, ctx) then true
    else if TaxonomyLoop(ctx.taxonomies, rule, ctx) then true
    else if ShippingClassHolds(rule, ctx) then true
    else matched
  }

  /** For the same counts, `any_in_list` and `not_in_list` disagree. */
  lemma AnyNotExclusive(matched: nat, listed: nat)
    ensures ListVerdict(Str("any_in_list"), matched, listed) != ListVerdict(Str("not_in_list"), matched, listed)
  {
  }

  /** An operator other than the three list operators lets every branch
      fail, so `matched` passes through. */
  lemma UnknownOperatorPassesThrough(matched: bool, rule: Bag, ctx: Context)
    requires Get(rule, "operator") !in [Str("any_in_list"), Str("all_in_list"), Str("not_in_list")]
    ensures RuleFilters(matched, rule, ctx) == matched
  {
  }

  /** The cart's product set holds exactly the truthy product ids of its lines. */
  lemma CartSetOfProducts(items: seq<CartItem>, x: Value)
    ensures x in CartSet(ProductIds(items)) <==> Truthy(x) && exists i :: 0 <= i < |items| && items[i].productId == x
  {
    if x in ProductIds(items) {
      var i :| 0 <= i < |items| && ProductIds(items)[i] == x;
    }
  }

  /** Products `all_in_list`: every configured entry, counted with its
      repetitions, is a product of the cart; in particular an empty list holds. */
  lemma ProductsAllInList(rule: Bag, ctx: Context)
    requires Get(rule, "type") == Str("cart_products:products") && Get(rule, "operator") == Str("all_in_list")
    ensures ProductsHold(rule, ctx) <==>
              forall x :: Contains(ListAt(rule, "products"), x) ==> x in CartSet(ProductIds(ctx.items))
    ensures Count(ListAt(rule, "products")) == 0 ==> ProductsHold(rule, ctx)
  {
    var cart := CartSet(ProductIds(ctx.items));
    CountWhereAll(ListAt(rule, "products"), x => x in cart);
  }

  /** Products `any_in_list`: some configured entry is a product of the cart;
      `not_in_list` is the opposite. */
  lemma ProductsAnyInList(rule: Bag, ctx: Context)
    requires Get(rule, "type") == Str("cart_products:products")
    ensures Get(rule, "operator") == Str("any_in_list") ==>
              (ProductsHold(rule, ctx) <==>
                 exists x :: Contains(ListAt(rule, "products"), x) && x in CartSet(ProductIds(ctx.items)))
    ensures Get(rule, "operator") == Str("not_in_list") ==>
              (ProductsHold(rule, ctx) <==>
                 !exists x :: Contains(ListAt(rule, "products"), x) && x in CartSet(ProductIds(ctx.items)))
  {
    var cart := CartSet(ProductIds(ctx.items));
    CountWherePositive(ListAt(rule, "products"), x => x in cart);
  }

  /** Shipping classes `all_in_list`: every configured class is the truthy
      class of some cart line. */
  lemma ShippingClassAllInList(rule: Bag, ctx: Context)
    requires Get(rule, "type") == Str("cart_products:product_shipping_class") && Get(rule, "operator") == Str("all_in_list")
    ensures ShippingClassHolds(rule, ctx) <==>
              forall x :: Contains(ListAt(rule, "cart_products_product_shipping_class"), x) ==>
                Truthy(x) && exists i :: 0 <= i < |ctx.items| && ctx.items[i].shippingClassId == x
  {
    var cart := CartSet(ShippingClassIds(ctx.items));
    CountWhereAll(ListAt(rule, "cart_products_product_shipping_class"), x => x in cart);
    forall x ensures x in cart <==> Truthy(x) && exists i :: 0 <= i < |ctx.items| && ctx.items[i].shippingClassId == x {
      if x in ShippingClassIds(ctx.items) {
        var i :| 0 <= i < |ctx.items| && ShippingClassIds(ctx.items)[i] == x;
      }
    }
  }

  /** No taxonomy other than the shipping-class one has the shipping-class type id. */
  lemma TypeKeyNotShippingClass(tax: Taxonomy)
    requires tax.slug != ShippingClassSlug
    ensures TypeKey(tax) != "cart_products:product_shipping_class"
  {
    if TypeKey(tax) == "cart_products:product_shipping_class" {
      PrefixCancel("cart_products:", tax.slug, ShippingClassSlug);
    }
  }

  /** The taxonomy foreach never answers for the shipping-class type: that
      taxonomy is skipped and every other one has a different type id. */
  lemma TaxonomyLoopSkipsShippingClass(rule: Bag, ctx: Context)
    requires Get(rule, "type") == Str("cart_products:product_shipping_class")
    ensures !TaxonomyLoop(ctx.taxonomies, rule, ctx)
  {
    var taxonomies := ctx.taxonomies;
    forall i | 0 <= i < |taxonomies| && taxonomies[i].slug != ShippingClassSlug
      ensures !TaxonomyHolds(taxonomies[i], rule, ctx)
    {
      TypeKeyNotShippingClass(taxonomies[i]);
    }
  }

  /** Taxonomy `any_in_list` holds exactly when some cart term is configured,
      and `not_in_list` exactly when none is. */
  lemma TaxonomyAnyInList(tax: Taxonomy, rule: Bag, ctx: Context)
    requires Get(rule, "type") == Str(TypeKey(tax))
    ensures Get(rule, "operator") == Str("any_in_list") ==>
              (TaxonomyHolds(tax, rule, ctx) <==>
                 exists x :: x in CartTerms(ctx.items, ctx.termIds, tax.slug) &&
                             Contains(ListAt(rule, "cart_products_" + tax.slug), x))
    ensures Get(rule, "operator") == Str("not_in_list") ==>
              (TaxonomyHolds(tax, rule, ctx) <==>
                 !exists x :: x in CartTerms(ctx.items, ctx.termIds, tax.slug) &&
                              Contains(ListAt(rule, "cart_products_" + tax.slug), x))
  {
    var terms := CartTerms(ctx.items, ctx.termIds, tax.slug);
    var listed := ListAt(rule, "cart_products_" + tax.slug);
    SeqCountWherePositive(terms, x => Contains(listed, x));
    if exists x :: x in terms && Contains(listed, x) {
      var x :| x in terms && Contains(listed, x);
      var i :| 0 <= i < |terms| && terms[i] == x;
    }
  }

  /** A context for the examples below: the given lines, term lookup and
      taxonomies, and nothing else. */
  function ExampleContext(items: seq<CartItem>, termIds: (Value, string) -> seq<Value>, taxonomies: seq<Taxonomy>): Context {
    Context(0.0, 0.0, 0.0, [], _ => "", items, termIds, taxonomies, Null, false, "", "", "", "", 0, "", _ => None)
  }

  /** Every product carries term 5 once. */
  function TermFive(product: Value, taxonomy: string): seq<Value> {
    [Num(5.0)]
  }

  /** Every product carries term 5 twice. */
  function TermFiveTwice(product: Value, taxonomy: string): seq<Value> {
    [Num(5.0), Num(5.0)]
  }

  function ExampleLine(product: real): CartItem {
    CartItem(Num(product), 1, 0.0, None, Null)
  }

  /** With a single taxonomy (neither `products` nor the shipping-class one),
      a rule of its type is decided by that taxonomy's branch alone. */
  lemma SingleTaxonomy(matched: bool, tax: Taxonomy, rule: Bag, ctx: Context)
    requires ctx.taxonomies == [tax] && tax.slug != ShippingClassSlug && tax.slug != "products"
    requires Get(rule, "type") == Str(TypeKey(tax))
    ensures RuleFilters(matched, rule, ctx) == (matched || TaxonomyHolds(tax, rule, ctx))
  {
    TypeKeyNotShippingClass(tax);
    if TypeKey(tax) == "cart_products:products" {
      PrefixCancel("cart_products:", tax.slug, "products");
    }
    assert ctx.taxonomies[0] == tax;
  }

  /** The example rule of one taxonomy term list under `all_in_list`. */
  function ExampleRule(terms: seq<Value>): Bag {
    map["type" := Str("cart_products:product_cat"), "operator" := Str("all_in_list"),
        "cart_products_product_cat" := List(terms)]
  }

  const ExampleTaxonomy := Taxonomy("product_cat", "Categories")

  /** The example rule has the example taxonomy's type and list key. */
  lemma ExampleRuleShape(terms: seq<Value>)
    ensures Get(ExampleRule(terms), "type") == Str(TypeKey(ExampleTaxonomy))
    ensures Get(ExampleRule(terms), "operator") == Str("all_in_list")
    ensures ListAt(ExampleRule(terms), "cart_products_" + ExampleTaxonomy.slug) == List(terms)
  {
    assert "cart_products_" + ExampleTaxonomy.slug == "cart_products_product_cat";
    assert TypeKey(ExampleTaxonomy) == "cart_products:product_cat";
  }

  /** The example rule over a cart whose terms are `terms` matches exactly when
      the cart-side count equals the length of the list. */
  lemma ExampleVerdict(items: seq<CartItem>, termIds: (Value, string) -> seq<Value>, terms: seq<Value>, listed: seq<Value>)
    requires CartTerms(items, termIds, "product_cat") == terms
    ensures RuleFilters(false, ExampleRule(listed), ExampleContext(items, termIds, [ExampleTaxonomy])) ==
            (CartSideMatches(terms, List(listed)) == |listed|)
  {
    var ctx := ExampleContext(items, termIds, [ExampleTaxonomy]);
    ExampleRuleShape(listed);
    SingleTaxonomy(false, ExampleTaxonomy, ExampleRule(listed), ctx);
  }

  /** Both occurrences of term 5 are configured when the list holds 5. */
  lemma FiveTwiceMatches(listed: seq<Value>)
    requires Num(5.0) in listed
    ensures CartSideMatches([Num(5.0), Num(5.0)], List(listed)) == 2
  {
    assert [Num(5.0), Num(5.0)][..1] == [Num(5.0)];
    assert [Num(5.0)][..0] == [];
  }

  lemma SharedTermTerms()
    ensures CartTerms([ExampleLine(1.0), ExampleLine(2.0)], TermFive, "product_cat") == [Num(5.0), Num(5.0)]
  {
    var items := [ExampleLine(1.0), ExampleLine(2.0)];
    assert items[..1][..0] == [];
    assert CartTerms(items[..1], TermFive, "product_cat") == [Num(5.0)];
    assert items[..|items| - 1] == items[..1];
  }

  lemma RepeatedTermTerms()
    ensures CartTerms([ExampleLine(1.0)], TermFiveTwice, "product_cat") == [Num(5.0), Num(5.0)]
  {
    assert [ExampleLine(1.0)][..0] == [];
  }

  /** Taxonomy `all_in_list` counts cart-side repetitions: two lines whose
      products both carry term 5, against the list `[5]`, do not match,
      although every configured term is in the cart. */
  lemma SharedTermDefeatsAllInList()
    ensures var ctx := ExampleContext([ExampleLine(1.0), ExampleLine(2.0)], TermFive, [ExampleTaxonomy]);
            (forall x :: Contains(List([Num(5.0)]), x) ==> x in CartTerms(ctx.items, ctx.termIds, "product_cat")) &&
            !RuleFilters(false, ExampleRule([Num(5.0)]), ctx)
  {
    SharedTermTerms();
    ExampleVerdict([ExampleLine(1.0), ExampleLine(2.0)], TermFive, [Num(5.0), Num(5.0)], [Num(5.0)]);
    FiveTwiceMatches([Num(5.0)]);
  }

  /** The same count can match when a configured term is missing: a line whose
      product carries term 5 twice matches the list `[5, 6]` under
      `all_in_list`, although no product carries term 6. */
  lemma RepeatedTermSatisfiesAllInList()
    ensures var ctx := ExampleContext([ExampleLine(1.0)], TermFiveTwice, [ExampleTaxonomy]);
            Num(6.0) !in CartTerms(ctx.items, ctx.termIds, "product_cat") &&
            RuleFilters(false, ExampleRule([Num(5.0), Num(6.0)]), ctx)
  {
    RepeatedTermTerms();
    ExampleVerdict([ExampleLine(1.0)], TermFiveTwice, [Num(5.0), Num(5.0)], [Num(5.0), Num(6.0)]);
    FiveTwiceMatches([Num(5.0), Num(6.0)]);
  }
}
