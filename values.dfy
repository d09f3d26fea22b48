/** The decoded form of the stored settings (what `json_decode($json, true)`
    yields) and the PHP array operations the rule interpreter applies to it. */
module Values {
  import opened Strings

  datatype Option<T> = None | Some(value: T)

  /** A decoded JSON value. PHP decodes both JSON lists and JSON objects to
      arrays; `List` is the former (keys 0, 1, ...) and `Obj` the latter. */
  datatype Value =
    | Null
    | Bool(b: bool)
    | Num(x: real)
    | Str(s: string)
    | List(items: seq<Value>)
    | Obj(fields: map<string, Value>)

  /** One rule's parameter bag, and the settings record, as keyed arrays. */
  type Bag = map<string, Value>

  /** `$bag[$key]`, which is null when the key is missing. */
  function Get(bag: Bag, key: string): (v: Value)
    ensures key !in bag ==> v == Null
    ensures key in bag ==> v == bag[key]
  {
    if key in bag then bag[key] else Null
  }

  /** PHP `isset($bag[$key])`: present and not null. */
  predicate IsSet(bag: Bag, key: string) {
    key in bag && bag[key] != Null
  }

  /** PHP `is_array`. */
  predicate IsArray(v: Value) {
    v.List? || v.Obj?
  }

  /** PHP's conversion to bool (what `array_filter` without a callback keeps). */
  predicate Truthy(v: Value) {
    match v
    case Null => false
    case Bool(b) => b
    case Num(x) => x != 0.0
    case Str(s) => s != "" && s != "0"
    case List(items) => items != []
    case Obj(fields) => fields != map[]
  }

  /** PHP `floatval`: strings are read by their decimal prefix and an array
      reads as 1 when non-empty. */
  function FloatVal(v: Value): real {
    match v
    case Null => 0.0
    case Bool(b) => if b then 1.0 else 0.0
    case Num(x) => x
    case Str(s) => DecimalPrefix(s)
    case List(items) => if items == [] then 0.0 else 1.0
    case Obj(fields) => if fields == map[] then 0.0 else 1.0
  }

  /** PHP `count` of an array; a non-array counts as empty here. */
  function Count(v: Value): nat {
    match v
    case List(items) => |items|
    case Obj(fields) => |fields|
    case _ => 0
  }

  /** PHP `in_array($x, $v, true)` for an array `$v`; false for a non-array. */
  predicate Contains(v: Value, x: Value) {
    match v
    case List(items) => x in items
    case Obj(fields) => x in fields.Values
    case _ => false
  }

  /** `isset($bag[$key]) && is_array($bag[$key]) ? $bag[$key] : array()`:
      the array stored under `key`, or none. */
  function ListAt(bag: Bag, key: string): (v: Value)
    ensures IsArray(v)
    ensures !IsSet(bag, key) || !IsArray(bag[key]) ==> v == List([])
  {
    if IsSet(bag, key) && IsArray(bag[key]) then bag[key] else List([])
  }

  /** Number of elements of `s` satisfying `p`. */
  function SeqCountWhere<T>(s: seq<T>, p: T -> bool): (n: nat)
    ensures n <= |s|
  {
    if s == [] then 0 else SeqCountWhere(s[..|s| - 1], p) + (if p(s[|s| - 1]) then 1 else 0)
  }

  /** Number of elements of the array `v` satisfying `p`, which is
      `count(array_filter($v, $p))`. */
  function CountWhere(v: Value, p: Value -> bool): (n: nat)
    ensures n <= Count(v)
  {
    match v
    case List(items) => SeqCountWhere(items, p)
    case Obj(fields) =>
      var keys := set k | k in fields && p(fields[k]);
      assert keys <= fields.Keys;
      SubsetCardinality(keys, fields.Keys);
      |keys|
    case _ => 0
  }

  /** Two maps with the same keys and the same value at each key are equal. */
  lemma MapExt<K, V>(a: map<K, V>, b: map<K, V>)
    requires a.Keys == b.Keys
    requires forall k :: k in a ==> a[k] == b[k]
    ensures a == b
  {
  }

  lemma SubsetCardinality<T>(a: set<T>, b: set<T>)
    requires a <= b
    ensures |a| <= |b|
    ensures |a| == |b| ==> a == b
  {
    if a != b {
      assert !(b <= a);
      var x :| x in b && x !in a;
      assert a <= b - {x};
      SubsetCardinality(a, b - {x});
    }
  }

  lemma {:induction false} SeqCountWhereAppend<T>(a: seq<T>, b: seq<T>, p: T -> bool)
    ensures SeqCountWhere(a + b, p) == SeqCountWhere(a, p) + SeqCountWhere(b, p)
  {
    if b != [] {
      assert (a + b)[..|a + b| - 1] == a + b[..|b| - 1];
      SeqCountWhereAppend(a, b[..|b| - 1], p);
    } else {
      assert a + b == a;
    }
  }

  /** A count is positive exactly when some element satisfies the predicate. */
  lemma {:induction false} SeqCountWherePositive<T>(s: seq<T>, p: T -> bool)
    ensures SeqCountWhere(s, p) > 0 <==> exists i :: 0 <= i < |s| && p(s[i])
  {
    if s != [] {
      var init := s[..|s| - 1];
      SeqCountWherePositive(init, p);
      if SeqCountWhere(init, p) > 0 {
        var i :| 0 <= i < |init| && p(init[i]);
        assert p(s[i]);
      }
      if exists i :: 0 <= i < |s| && p(s[i]) {
        var i :| 0 <= i < |s| && p(s[i]);
        if i < |s| - 1 {
          assert p(init[i]);
        }
      }
    }
  }

  /** A count equals the length exactly when every element satisfies the predicate. */
  lemma {:induction false} SeqCountWhereAll<T>(s: seq<T>, p: T -> bool)
    ensures SeqCountWhere(s, p) == |s| <==> forall i :: 0 <= i < |s| ==> p(s[i])
  {
    if s != [] {
      var init := s[..|s| - 1];
      SeqCountWhereAll(init, p);
      if forall i :: 0 <= i < |s| ==> p(s[i]) {
        assert forall i :: 0 <= i < |init| ==> p(init[i]) by {
          forall i | 0 <= i < |init| ensures p(init[i]) { assert init[i] == s[i]; }
        }
      }
      if SeqCountWhere(s, p) == |s| {
        forall i | 0 <= i < |s| ensures p(s[i]) {
          if i < |s| - 1 { assert init[i] == s[i]; }
        }
      }
    }
  }

  /** A prefix one longer is the prefix and the next element. */
  lemma PrefixSnoc<T>(s: seq<T>, j: nat)
    requires j < |s|
    ensures s[..j + 1] == s[..j] + [s[j]]
  {
  }

  /** A sequence is its prefix before `i`, its element at `i` and the rest. */
  lemma SplitAt<T>(t: seq<T>, i: nat)
    requires i < |t|
    ensures t == t[..i] + [t[i]] + t[i + 1..]
  {
  }

  /** Removing the element at `i` takes exactly it out of the multiset. */
  lemma MultisetRemoveAt<T>(t: seq<T>, i: nat)
    requires i < |t|
    ensures multiset(t[..i] + t[i + 1..]) == multiset(t) - multiset{t[i]}
  {
    assert t == t[..i] + [t[i]] + t[i + 1..];
  }

  /** One more element adds its share to the count. */
  lemma SeqCountWhereSnoc<T>(u: seq<T>, x: T, p: T -> bool)
    ensures SeqCountWhere(u + [x], p) == SeqCountWhere(u, p) + (if p(x) then 1 else 0)
  {
    assert (u + [x])[..|u|] == u;
  }

  /** Removing the element at `i` takes its share out of the count. */
  lemma SeqCountWhereRemoveAt<T>(t: seq<T>, i: nat, p: T -> bool)
    requires i < |t|
    ensures SeqCountWhere(t, p) == SeqCountWhere(t[..i] + t[i + 1..], p) + (if p(t[i]) then 1 else 0)
  {
    var u, x, w := t[..i], t[i], t[i + 1..];
    SplitAt(t, i);
    SeqCountWhereSnoc(u, x, p);
    SeqCountWhereAppend(u + [x], w, p);
    SeqCountWhereAppend(u, w, p);
  }

  /** Counting does not depend on the order of the elements. */
  lemma {:induction false} SeqCountWherePermutation<T>(s: seq<T>, t: seq<T>, p: T -> bool)
    requires multiset(s) == multiset(t)
    ensures SeqCountWhere(s, p) == SeqCountWhere(t, p)
    decreases |s|
  {
    if s == [] {
      assert |t| == |multiset(t)| == 0;
    } else {
      var x := s[|s| - 1];
      var init := s[..|s| - 1];
      MultisetRemoveAt(s, |s| - 1);
      assert init + s[|s|..] == init;
      assert x in multiset(t);
      var i :| 0 <= i < |t| && t[i] == x;
      MultisetRemoveAt(t, i);
      SeqCountWherePermutation(init, t[..i] + t[i + 1..], p);
      SeqCountWhereRemoveAt(t, i, p);
    }
  }

  /** `CountWhere` is positive exactly when some element of the array satisfies `p`. */
  lemma CountWherePositive(v: Value, p: Value -> bool)
    ensures CountWhere(v, p) > 0 <==> exists x :: Contains(v, x) && p(x)
  {
    match v
    case List(items) =>
      SeqCountWherePositive(items, p);
      if exists x :: Contains(v, x) && p(x) {
        var x :| Contains(v, x) && p(x);
        var i :| 0 <= i < |items| && items[i] == x;
      }
    case Obj(fields) =>
      var keys := set k | k in fields && p(fields[k]);
      if exists x :: Contains(v, x) && p(x) {
        var x :| Contains(v, x) && p(x);
        var k :| k in fields && fields[k] == x;
        assert k in keys;
      }
      if keys != {} {
        var k :| k in keys;
        assert Contains(v, fields[k]);
      }
    case _ =>
  }

  /** `CountWhere` equals `Count` exactly when every element of the array satisfies `p`. */
  lemma CountWhereAll(v: Value, p: Value -> bool)
    ensures CountWhere(v, p) == Count(v) <==> forall x :: Contains(v, x) ==> p(x)
  {
    match v
    case List(items) =>
      SeqCountWhereAll(items, p);
      if forall x :: Contains(v, x) ==> p(x) {
        assert forall i :: 0 <= i < |items| ==> p(items[i]) by {
          forall i | 0 <= i < |items| ensures p(items[i]) { assert Contains(v, items[i]); }
        }
      }
    case Obj(fields) =>
      var keys := set k | k in fields && p(fields[k]);
      SubsetCardinality(keys, fields.Keys);
      if forall x :: Contains(v, x) ==> p(x) {
        forall k | k in fields ensures k in keys { assert Contains(v, fields[k]); }
        assert keys == fields.Keys;
      }
      if |keys| == |fields| {
        assert keys == fields.Keys;
        forall x | Contains(v, x) ensures p(x) {
          var k :| k in fields && fields[k] == x;
          assert k in keys;
        }
      }
    case _ =>
  }

  /** The elements of `s` that satisfy `p`, in order (`array_filter`). */
  function Filter<T(!new)>(s: seq<T>, p: T -> bool): (r: seq<T>)
    ensures |r| == SeqCountWhere(s, p)
    ensures forall x :: x in r <==> x in s && p(x)
  {
    if s == [] then [] else Filter(s[..|s| - 1], p) + (if p(s[|s| - 1]) then [s[|s| - 1]] else [])
  }

  /** A non-empty `b` is its front and its last element, also after `a`. */
  lemma SnocSplit<T>(a: seq<T>, b: seq<T>)
    requires b != []
    ensures b == b[..|b| - 1] + [b[|b| - 1]]
    ensures a + b == (a + b[..|b| - 1]) + [b[|b| - 1]]
  {
  }

  lemma ConcatAssoc<T>(x: seq<T>, y: seq<T>, z: seq<T>)
    ensures (x + y) + z == x + (y + z)
  {
  }

  /** Filtering a sequence extended by one element. */
  lemma FilterSnoc<T(!new)>(s: seq<T>, x: T, p: T -> bool)
    ensures Filter(s + [x], p) == Filter(s, p) + (if p(x) then [x] else [])
  {
    assert (s + [x])[..|s|] == s;
  }

  /** Filtering keeps every passing element as often as it occurs, and no other. */
  lemma {:induction false} FilterMultiset<T(!new)>(s: seq<T>, p: T -> bool)
    ensures forall x :: multiset(Filter(s, p))[x] == if p(x) then multiset(s)[x] else 0
  {
    if s != [] {
      var init, last := s[..|s| - 1], s[|s| - 1];
      assert s == init + [last];
      FilterMultiset(init, p);
      FilterSnoc(init, last, p);
    }
  }

  /** Filtering keeps the order: the filtered concatenation is the
      concatenation of the filtered parts. */
  lemma {:induction false} FilterAppend<T(!new)>(a: seq<T>, b: seq<T>, p: T -> bool)
    ensures Filter(a + b, p) == Filter(a, p) + Filter(b, p)
  {
    if b == [] {
      assert a + b == a;
    } else {
      var init, last := b[..|b| - 1], b[|b| - 1];
      SnocSplit(a, b);
      FilterSnoc(a + init, last, p);
      FilterSnoc(init, last, p);
      FilterAppend(a, init, p);
      ConcatAssoc(Filter(a, p), Filter(init, p), if p(last) then [last] else []);
    }
  }

  /** PHP `array_unique`: the first occurrence of every element, in order. */
  function Unique<T(==,!new)>(s: seq<T>): (r: seq<T>)
    ensures forall x :: x in r <==> x in s
    ensures forall i, j :: 0 <= i < j < |r| ==> r[i] != r[j]
  {
    if s == [] then []
    else
      var u := Unique(s[..|s| - 1]);
      if s[|s| - 1] in u then u else u + [s[|s| - 1]]
  }

  /** PHP decodes a JSON list to an array keyed 0, 1, ...; as a bag its keys are
      the decimal strings of the positions. */
  function ListAsBag(items: seq<Value>): (bag: Bag)
    ensures forall i :: 0 <= i < |items| ==> NatToString(i) in bag
    ensures forall k :: k in bag ==> k != [] && IsDigit(k[0])
  {
    if items == [] then map[]
    else ListAsBag(items[..|items| - 1])[NatToString(|items| - 1) := items[|items| - 1]]
  }
}
