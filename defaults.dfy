/** The `rule_values` filter as this plugin's rule classes build it
    (inc/class-main.php registers them; each class adds its own keys): which
    defaults a rule is merged over. */
module Defaults {
  import opened Values
  import opened Snapshot
  import RuleCart
  import RuleDate
  import RuleUser
  import RuleCartProducts
  import RuleBillingShipping

  /** The `rule_values` callbacks this plugin registers, run in load order on `values`. */
  function ClassRuleValues(taxonomies: seq<Taxonomy>, values: Bag): Bag {
    RuleBillingShipping.RuleValues(
      RuleCartProducts.WithTaxonomyDefaults(
        RuleUser.RuleValues(RuleDate.RuleValues(RuleCart.RuleValues(values))), taxonomies))
  }

  /** Keys outside the `cart_products_` family are never taxonomy keys. */
  lemma NotTaxonomyKey(k: string, taxonomies: seq<Taxonomy>)
    requires k != "products" && (|k| < |"cart_products_"| || k[..|"cart_products_"|] != "cart_products_")
    ensures !RuleCartProducts.AddedKey(k, taxonomies)
  {
    forall i | 0 <= i < |taxonomies| ensures k != "cart_products_" + taxonomies[i].slug {
      var t := "cart_products_" + taxonomies[i].slug;
      assert t[..|"cart_products_"|] == "cart_products_";
    }
  }

  /** The date layer keeps the coupon list and adds the date operator. */
  lemma DateKeepsCoupons(v: Bag)
    requires "coupons" in v && v["coupons"] == List([])
    ensures var d := RuleDate.RuleValues(v);
            "coupons" in d && d["coupons"] == List([]) && "date_operator" in d && d["date_operator"] == Str("")
  {
    assert "coupons" !in RuleDate.AddedKeys;
  }

  /** The user layer keeps the coupon list and date operator and adds the user keys. */
  lemma UserKeepsLower(v: Bag)
    requires "coupons" in v && v["coupons"] == List([]) && "date_operator" in v && v["date_operator"] == Str("")
    ensures var u := RuleUser.RuleValues(v);
            "coupons" in u && u["coupons"] == List([]) && "date_operator" in u && u["date_operator"] == Str("") &&
            "users" in u && u["users"] == List([]) && "logged_in" in u && u["logged_in"] == Str("no")
  {
  }

  /** The defaults of the cart, date and user rules. */
  lemma LowerDefaults()
    ensures var v := RuleUser.RuleValues(RuleDate.RuleValues(RuleCart.RuleValues(map[])));
            "coupons" in v && v["coupons"] == List([]) && "date_operator" in v && v["date_operator"] == Str("") &&
            "users" in v && v["users"] == List([]) && "logged_in" in v && v["logged_in"] == Str("no")
  {
    DateKeepsCoupons(RuleCart.RuleValues(map[]));
    UserKeepsLower(RuleDate.RuleValues(RuleCart.RuleValues(map[])));
  }

  /** The cart-products and billing/shipping layers keep a key they do not add. */
  lemma UpperLayersKeep(v: Bag, taxonomies: seq<Taxonomy>, k: string)
    requires k in v && !RuleCartProducts.AddedKey(k, taxonomies)
    requires k !in RuleBillingShipping.AddedKeys
    ensures var d := RuleBillingShipping.RuleValues(RuleCartProducts.WithTaxonomyDefaults(v, taxonomies));
            k in d && d[k] == v[k]
  {
    RuleCartProducts.WithTaxonomyDefaultsEffect(v, taxonomies);
  }

  /** The billing/shipping layer keeps the keys the cart-products layer adds. */
  lemma UpperLayersAdd(v: Bag, taxonomies: seq<Taxonomy>, k: string)
    requires RuleCartProducts.AddedKey(k, taxonomies)
    ensures var d := RuleBillingShipping.RuleValues(RuleCartProducts.WithTaxonomyDefaults(v, taxonomies));
            k in d && d[k] == List([])
  {
    RuleCartProducts.WithTaxonomyDefaultsEffect(v, taxonomies);
    if k != "products" {
      var i :| 0 <= i < |taxonomies| && k == "cart_products_" + taxonomies[i].slug;
      assert k[0] == 'c';
    }
    assert k !in RuleBillingShipping.AddedKeys;
  }

  /** The upper layers keep a key shorter than every key they add. */
  lemma UpperKeepsShortKey(v: Bag, taxonomies: seq<Taxonomy>, k: string)
    requires k in v && |k| < |"cart_products_"| && k != "products"
    ensures Get(RuleBillingShipping.RuleValues(RuleCartProducts.WithTaxonomyDefaults(v, taxonomies)), k) == v[k]
  {
    NotTaxonomyKey(k, taxonomies);
    assert k !in RuleBillingShipping.AddedKeys;
    UpperLayersKeep(v, taxonomies, k);
  }

  /** The upper layers keep the cart, date and user defaults. */
  lemma UpperKeepsLower(v: Bag, taxonomies: seq<Taxonomy>)
    requires "coupons" in v && v["coupons"] == List([]) && "date_operator" in v && v["date_operator"] == Str("")
    requires "users" in v && v["users"] == List([]) && "logged_in" in v && v["logged_in"] == Str("no")
    ensures var d := RuleBillingShipping.RuleValues(RuleCartProducts.WithTaxonomyDefaults(v, taxonomies));
            Get(d, "coupons") == List([]) && Get(d, "date_operator") == Str("") &&
            Get(d, "users") == List([]) && Get(d, "logged_in") == Str("no")
  {
    UpperKeepsShortKey(v, taxonomies, "coupons");
    UpperKeepsShortKey(v, taxonomies, "date_operator");
    UpperKeepsShortKey(v, taxonomies, "users");
    UpperKeepsShortKey(v, taxonomies, "logged_in");
  }

  /** The upper layers add the product list, every taxonomy list and the city texts. */
  lemma UpperAddsLists(v: Bag, taxonomies: seq<Taxonomy>)
    ensures var d := RuleBillingShipping.RuleValues(RuleCartProducts.WithTaxonomyDefaults(v, taxonomies));
            Get(d, "products") == List([]) &&
            (forall i :: 0 <= i < |taxonomies| ==> Get(d, "cart_products_" + taxonomies[i].slug) == List([])) &&
            Get(d, "billing_cities") == Str("")
  {
    UpperLayersAdd(v, taxonomies, "products");
    var d := RuleBillingShipping.RuleValues(RuleCartProducts.WithTaxonomyDefaults(v, taxonomies));
    forall i | 0 <= i < |taxonomies| ensures Get(d, "cart_products_" + taxonomies[i].slug) == List([]) {
      var k := "cart_products_" + taxonomies[i].slug;
      assert RuleCartProducts.AddedKey(k, taxonomies);
      UpperLayersAdd(v, taxonomies, k);
    }
  }

  /** The built-in defaults hold a key of every rule class with its default
      value: the coupon list, the date operator, the user list and login
      state, the product list, every taxonomy list and the city texts. */
  lemma BuiltinDefaults(taxonomies: seq<Taxonomy>)
    ensures var d := ClassRuleValues(taxonomies, map[]);
            Get(d, "coupons") == List([]) && Get(d, "date_operator") == Str("") &&
            Get(d, "users") == List([]) && Get(d, "logged_in") == Str("no") &&
            Get(d, "products") == List([]) &&
            (forall i :: 0 <= i < |taxonomies| ==> Get(d, "cart_products_" + taxonomies[i].slug) == List([])) &&
            Get(d, "billing_cities") == Str("")
  {
    var v := RuleUser.RuleValues(RuleDate.RuleValues(RuleCart.RuleValues(map[])));
    LowerDefaults();
    UpperKeepsLower(v, taxonomies);
    UpperAddsLists(v, taxonomies);
  }

  /** The `rule_values` filter with this plugin's callbacks. */
  function BuiltinRuleValues(taxonomies: seq<Taxonomy>): Bag -> Bag {
    (v: Bag) => ClassRuleValues(taxonomies, v)
  }
}
