/** `Hide_Shipping_Rates\Rule\Billing_Shipping` (inc/class-rule-billing-shipping.php):
    membership of the customer's city in a comma-separated list, and of the
    customer's country in a list of countries. */
module RuleBillingShipping {
  import opened Strings
  import opened Values
  import opened Snapshot

  /** The keys `rule_values` adds. */
  const AddedKeys: seq<string> := ["billing_cities", "shipping_cities", "billing_countries", "shipping_countries"]

  /** `Billing_Shipping::rule_values`: empty city texts and empty country lists. */
  function RuleValues(values: Bag): (r: Bag)
    ensures "billing_cities" in r && r["billing_cities"] == Str("")
    ensures "shipping_cities" in r && r["shipping_cities"] == Str("")
    ensures "billing_countries" in r && r["billing_countries"] == List([])
    ensures "shipping_countries" in r && r["shipping_countries"] == List([])
    ensures forall k :: k in r <==> k in values || k in AddedKeys
    ensures forall k :: k in values && k !in AddedKeys ==> k in r && r[k] == values[k]
  {
    values + map["billing_cities" := Str(""), "shipping_cities" := Str(""),
                 "billing_countries" := List([]), "shipping_countries" := List([])]
  }

  /** `$rule[$key] ?? ''` as text. */
  function CityText(rule: Bag, key: string): string {
    match Get(rule, key)
    case Str(s) => s
    case _ => ""
  }

  /** `array_map('trim', explode(',', strtolower($text)))`. */
  function TrimmedPieces(text: string): (r: seq<string>)
    ensures |r| == |Explode(',', ToLower(text))|
    ensures forall i :: 0 <= i < |r| ==> r[i] == Trim(Explode(',', ToLower(text))[i])
  {
    var pieces := Explode(',', ToLower(text));
    seq(|pieces|, i requires 0 <= i < |pieces| => Trim(pieces[i]))
  }

  /** An entry `array_filter` keeps: neither empty nor `"0"`. */
  predicate KeptCity(c: string) {
    c != "" && c != "0"
  }

  /** The configured cities: lower-cased, split on commas, each trimmed, and the
      empty entries dropped. */
  function CityList(text: string): seq<string> {
    Filter(TrimmedPieces(text), KeptCity)
  }

  /** A city is listed exactly when some comma-separated piece of the
      lower-cased text trims to it and it is neither empty nor `"0"`. */
  lemma CityListMembership(text: string, city: string)
    ensures city in CityList(text) <==>
              KeptCity(city) && exists i :: 0 <= i < |Explode(',', ToLower(text))| &&
                                           Trim(Explode(',', ToLower(text))[i]) == city
  {
    var pieces := TrimmedPieces(text);
    if city in pieces {
      var i :| 0 <= i < |pieces| && pieces[i] == city;
      assert Trim(Explode(',', ToLower(text))[i]) == city;
    }
  }

  /** A trimmed piece of lower-case text without commas is lower-case, has no
      comma and is already trimmed. */
  lemma TrimmedPieceShape(p: string)
    requires ',' !in p
    requires forall c :: c in p ==> LowerChar(c) == c
    ensures ',' !in Trim(p) && Trim(Trim(p)) == Trim(p) && ToLower(Trim(p)) == Trim(p)
  {
    TrimIdempotent(p);
    var t := Trim(p);
    forall j | 0 <= j < |t| ensures t[j] != ',' && LowerChar(t[j]) == t[j] {
      assert t[j] in t;
      TrimKeepsChars(p, t[j]);
    }
  }

  /** Every character of lower-cased text is already lower-case. */
  lemma LowerTextChars(text: string, x: char)
    requires x in ToLower(text)
    ensures LowerChar(x) == x
  {
    var lower := ToLower(text);
    var k :| 0 <= k < |lower| && lower[k] == x;
  }

  /** Each trimmed piece of the configured text is lower-case, has no comma
      and is already trimmed. */
  lemma TrimmedPieceOfText(text: string, i: nat)
    requires i < |TrimmedPieces(text)|
    ensures var c := TrimmedPieces(text)[i];
            ',' !in c && Trim(c) == c && ToLower(c) == c
  {
    var lower := ToLower(text);
    var piece := Explode(',', lower)[i];
    PieceChars(',', lower, i);
    forall x | x in piece ensures LowerChar(x) == x {
      LowerTextChars(text, x);
    }
    TrimmedPieceShape(piece);
  }

  /** Every listed city is lower-case, has no comma, has no surrounding
      trim space, and is neither empty nor `"0"`. */
  lemma CityListEntries(text: string)
    ensures forall c :: c in CityList(text) ==>
              KeptCity(c) && ',' !in c && Trim(c) == c && ToLower(c) == c
  {
    forall c | c in CityList(text)
      ensures KeptCity(c) && ',' !in c && Trim(c) == c && ToLower(c) == c
    {
      var i :| 0 <= i < |TrimmedPieces(text)| && TrimmedPieces(text)[i] == c;
      TrimmedPieceOfText(text, i);
    }
  }

  /** The characters of a piece are characters of the text. */
  lemma {:induction false} PieceChars(sep: char, s: string, i: nat)
    requires i < |Explode(sep, s)|
    ensures forall c :: c in Explode(sep, s)[i] ==> c in s
  {
    if s != [] {
      var rest := Explode(sep, s[1..]);
      if s[0] == sep {
        if i > 0 {
          PieceChars(sep, s[1..], i - 1);
        }
      } else if i == 0 {
        PieceChars(sep, s[1..], 0);
      } else {
        PieceChars(sep, s[1..], i);
      }
    }
  }

  /** The customer's city, lower-cased but not trimmed. */
  function CustomerCity(city: string): string {
    ToLower(city)
  }

  /** `any_in_list` membership, `not_in_list` non-membership. */
  predicate ListVerdict(op: Value, member: bool) {
    (op == Str("any_in_list") && member) || (op == Str("not_in_list") && !member)
  }

  /** `Billing_Shipping::rule_filters($matched, $rule)`. */
  function RuleFilters(matched: bool, rule: Bag, ctx: Context): (r: bool)
    ensures Get(rule, "type") == Str("billing:city") ==>
              (r <==> matched || ListVerdict(Get(rule, "operator"),
                                             CustomerCity(ctx.billingCity) in CityList(CityText(rule, "billing_cities"))))
    ensures Get(rule, "type") == Str("shipping:city") ==>
              (r <==> matched || ListVerdict(Get(rule, "operator"),
                                             CustomerCity(ctx.shippingCity) in CityList(CityText(rule, "shipping_cities"))))
    ensures Get(rule, "type") == Str("billing:country") ==>
              (r <==> matched || ListVerdict(Get(rule, "operator"),
                                             Contains(ListAt(rule, "billing_countries"), Str(ctx.billingCountry))))
    ensures Get(rule, "type") == Str("shipping:country") ==>
              (r <==> matched || ListVerdict(Get(rule, "operator"),
                                             Contains(ListAt(rule, "shipping_countries"), Str(ctx.shippingCountry))))
    ensures Get(rule, "type") !in [Str("billing:city"), Str("shipping:city"), Str("billing:country"), Str("shipping:country")] ==>
              r == matched
    ensures matched ==> r
  {
    var operator := Get(rule, "operator");
    var t := Get(rule, "type");
    if t == Str("billing:city") then
      var cities := CityList(CityText(rule, "billing_cities"));
      var city := CustomerCity(ctx.billingCity);
      if operator == Str("any_in_list") && city in cities then true
      else if operator == Str("not_in_list") && city !in cities then true
      else matched
    else if t == Str("shipping:city") then
      var cities := CityList(CityText(rule, "shipping_cities"));
      var city := CustomerCity(ctx.shippingCity);
      if operator == Str("any_in_list") && city in cities then true
      else if operator == Str("not_in_list") && city !in cities then true
      else matched
    else if t == Str("billing:country") || t == Str("shipping:country") then
      var countries := if t == Str("billing:country") then ListAt(rule, "billing_countries")
                       else ListAt(rule, "shipping_countries");
      var country := if t == Str("billing:country") then Str(ctx.billingCountry) else Str(ctx.shippingCountry);
      if operator == Str("any_in_list") && Contains(countries, country) then true
      else if operator == Str("not_in_list") && !Contains(countries, country) then true
      else matched
    else matched
  }

  /** With no city configured, `not_in_list` matches every customer. */
  lemma EmptyCitiesNotInList(rule: Bag, ctx: Context)
    requires Get(rule, "type") == Str("billing:city") && Get(rule, "operator") == Str("not_in_list")
    requires CityText(rule, "billing_cities") == ""
    ensures RuleFilters(false, rule, ctx)
  {
    assert Explode(',', ToLower("")) == [""];
    assert TrimmedPieces("") == [""];
    CityListMembership("", CustomerCity(ctx.billingCity));
  }

  /** A city the customer entered with a leading space never matches any
      listed city, since listed cities are trimmed and the customer's is not. */
  lemma UntrimmedCustomerCity(rule: Bag, ctx: Context)
    requires Get(rule, "type") == Str("billing:city") && Get(rule, "operator") == Str("any_in_list")
    requires ctx.billingCity != [] && ctx.billingCity[0] == ' '
    ensures !RuleFilters(false, rule, ctx)
  {
    var city := CustomerCity(ctx.billingCity);
    assert city[0] == ' ';
    CityListEntries(CityText(rule, "billing_cities"));
    forall c | c in CityList(CityText(rule, "billing_cities")) ensures c != city {
      assert Trim(c) == c;
    }
  }
}
