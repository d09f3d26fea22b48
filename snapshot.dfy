/** The read-only snapshot of cart, customer and clock that every rule evaluator
    reads, and the `hide_shipping_rates/rule_matched` filter chain as a fold over
    evaluator functions. */
module Snapshot {
  import opened Values

  /** One cart line (`WC()->cart->get_cart()` entry). `weight` is the product's
      weight when `has_weight()` holds. */
  datatype CartItem = CartItem(
    productId: Value,
    quantity: int,
    lineSubtotal: real,
    weight: Option<real>,
    shippingClassId: Value)

  /** A public product taxonomy (`Utils::get_product_taxonomies`): its key and label. */
  datatype Taxonomy = Taxonomy(slug: string, title: string)

  /** Everything the evaluators read from the platform, captured once.
      - `couponSlug` is `get_post_field('post_name', $id)` for a coupon id;
      - `termIds` is `wc_get_product_term_ids($product_id, $taxonomy)`;
      - `parseTime` is `strtotime` on a stored date/time literal (None for false);
      - `now` is `current_time('timestamp')` and `dayName` is `current_time('l')`. */
  datatype Context = Context(
    subtotal: real,
    contentsCount: real,
    contentsWeight: real,
    appliedCoupons: seq<string>,
    couponSlug: Value -> string,
    items: seq<CartItem>,
    termIds: (Value, string) -> seq<Value>,
    taxonomies: seq<Taxonomy>,
    userId: Value,
    loggedIn: bool,
    billingCity: string,
    shippingCity: string,
    billingCountry: string,
    shippingCountry: string,
    now: int,
    dayName: string,
    parseTime: Value -> Option<int>)

  /** Taxonomy keys are array keys, so they are distinct. */
  predicate DistinctSlugs(taxonomies: seq<Taxonomy>) {
    forall i, j :: 0 <= i < j < |taxonomies| ==> taxonomies[i].slug != taxonomies[j].slug
  }

  /** A callback on `hide_shipping_rates/rule_matched`: (matched, rule, snapshot) -> matched. */
  type Evaluator = (bool, Bag, Context) -> bool

  /** `apply_filters('hide_shipping_rates/rule_matched', $matched, $rule)`: every
      callback in registration order, each given the previous one's answer. */
  function Chain(evaluators: seq<Evaluator>, matched: bool, rule: Bag, ctx: Context): bool {
    if evaluators == [] then matched
    else Chain(evaluators[1..], evaluators[0](matched, rule, ctx), rule, ctx)
  }

  /** Running two groups of callbacks is running the first, then the second on its answer. */
  lemma {:induction false} ChainAppend(a: seq<Evaluator>, b: seq<Evaluator>, matched: bool, rule: Bag, ctx: Context)
    ensures Chain(a + b, matched, rule, ctx) == Chain(b, Chain(a, matched, rule, ctx), rule, ctx)
  {
    if a != [] {
      var next := a[0](matched, rule, ctx);
      assert (a + b)[0] == a[0];
      assert (a + b)[1..] == a[1..] + b;
      assert Chain(a + b, matched, rule, ctx) == Chain(a[1..] + b, next, rule, ctx);
      assert Chain(a, matched, rule, ctx) == Chain(a[1..], next, rule, ctx);
      ChainAppend(a[1..], b, next, rule, ctx);
    } else {
      assert a + b == b;
    }
  }

  /** When no callback cares about a rule, the chain hands back what it was given. */
  lemma {:induction false} ChainPassThrough(evaluators: seq<Evaluator>, matched: bool, rule: Bag, ctx: Context)
    requires forall i, m :: 0 <= i < |evaluators| ==> evaluators[i](m, rule, ctx) == m
    ensures Chain(evaluators, matched, rule, ctx) == matched
  {
    if evaluators != [] {
      assert evaluators[0](matched, rule, ctx) == matched;
      ChainPassThrough(evaluators[1..], matched, rule, ctx);
    }
  }

  /** A chain whose callback at `at` answers `answer` and whose other callbacks
      hand back what they are given answers `answer`. */
  lemma ChainSingleAnswer(e: seq<Evaluator>, at: nat, answer: bool, matched: bool, rule: Bag, ctx: Context)
    requires at < |e|
    requires forall i, m :: 0 <= i < |e| && i != at ==> e[i](m, rule, ctx) == m
    requires forall m :: e[at](m, rule, ctx) == answer
    ensures Chain(e, matched, rule, ctx) == answer
  {
    var before, after := e[..at], e[at + 1..];
    assert e == before + [e[at]] + after;
    forall i, m | 0 <= i < |before| ensures before[i](m, rule, ctx) == m {
      assert before[i] == e[i];
    }
    forall i, m | 0 <= i < |after| ensures after[i](m, rule, ctx) == m {
      assert after[i] == e[at + 1 + i];
    }
    ChainPassThrough(before, matched, rule, ctx);
    assert Chain([e[at]], Chain(before, matched, rule, ctx), rule, ctx) == answer;
    ChainAppend(before, [e[at]], matched, rule, ctx);
    ChainPassThrough(after, answer, rule, ctx);
    ChainAppend(before + [e[at]], after, matched, rule, ctx);
  }
}
