/** The parts of JavaScript's plain-object semantics the modelled code depends
    on: which property names every `{}` already has, the order in which
    `Object.keys` lists own properties, and the exceptions that can follow. */
module JsObject {
  import Decimal
  import Ordering

  /** The `TypeError`s the modelled code can throw. */
  datatype TypeError =
    | PushOnNonArray   // `bucket.push(...)` where `bucket` is not an array
    | MapOnUndefined   // `values.map(...)` where `values` is `undefined`

  /** The properties an object literal inherits from `Object.prototype`;
      reading one of them from `{}` yields a function or an object, never an array. */
  const ObjectPrototypeProperties: set<string> := {
    "constructor", "__proto__", "hasOwnProperty", "isPrototypeOf",
    "propertyIsEnumerable", "toString", "toLocaleString", "valueOf",
    "__defineGetter__", "__defineSetter__", "__lookupGetter__", "__lookupSetter__"
  }

  /** A property name that is an array index: the canonical numeral of an
      integer below 2^32 - 1. */
  predicate IsArrayIndex(k: string) {
    && 0 < |k|
    && Decimal.AllDigits(k)
    && Decimal.DecimalString(Decimal.ParseDecimal(k)) == k
    && Decimal.ParseDecimal(k) < 0xFFFF_FFFF
  }

  predicate IsNamedKey(k: string) {
    !IsArrayIndex(k)
  }

  function IndexValue(k: string): nat {
    if Decimal.AllDigits(k) then Decimal.ParseDecimal(k) else 0
  }

  /** Ascending numeric order of array-index names. */
  predicate IndexLe(a: string, b: string) {
    IndexValue(a) <= IndexValue(b)
  }

  function Filter(s: seq<string>, p: string -> bool): (r: seq<string>)
    ensures |r| <= |s|
    ensures forall x :: x in r <==> x in s && p(x)
    ensures forall i :: 0 <= i < |r| ==> p(r[i])
  {
    if |s| == 0 then [] else if p(s[0]) then [s[0]] + Filter(s[1..], p) else Filter(s[1..], p)
  }

  lemma {:induction false} FilterPartition(s: seq<string>)
    ensures multiset(Filter(s, IsArrayIndex)) + multiset(Filter(s, IsNamedKey)) == multiset(s)
  {
    if 0 < |s| {
      FilterPartition(s[1..]);
      assert s == [s[0]] + s[1..];
      assert multiset(s) == multiset{s[0]} + multiset(s[1..]);
      if IsArrayIndex(s[0]) {
        assert Filter(s, IsArrayIndex) == [s[0]] + Filter(s[1..], IsArrayIndex);
        assert Filter(s, IsNamedKey) == Filter(s[1..], IsNamedKey);
      } else {
        assert Filter(s, IsArrayIndex) == Filter(s[1..], IsArrayIndex);
        assert Filter(s, IsNamedKey) == [s[0]] + Filter(s[1..], IsNamedKey);
      }
    }
  }

  lemma {:induction false} FilterAll(s: seq<string>, p: string -> bool)
    requires forall i :: 0 <= i < |s| ==> p(s[i])
    ensures Filter(s, p) == s
  {
    if 0 < |s| {
      FilterAll(s[1..], p);
    }
  }

  lemma {:induction false} FilterNone(s: seq<string>, p: string -> bool)
    requires forall i :: 0 <= i < |s| ==> !p(s[i])
    ensures Filter(s, p) == []
  {
    if 0 < |s| {
      FilterNone(s[1..], p);
    }
  }

  lemma {:induction false} FilterAppend(s: seq<string>, t: seq<string>, p: string -> bool)
    ensures Filter(s + t, p) == Filter(s, p) + Filter(t, p)
  {
    if 0 < |s| {
      assert (s + t)[1..] == s[1..] + t;
      FilterAppend(s[1..], t, p);
    } else {
      assert s + t == t;
    }
  }

  lemma IndexLeTotalOrder()
    ensures Ordering.Total(IndexLe) && Ordering.Transitive(IndexLe)
  {
  }

  /** The order in which `Object.keys` lists the own properties of an object
      whose properties were created in `insertionOrder`: array-index names
      first, in ascending numeric order, then every other name in creation order. */
  function ObjectKeys(insertionOrder: seq<string>): (keys: seq<string>)
    ensures multiset(keys) == multiset(insertionOrder)
    ensures |keys| == |insertionOrder|
    ensures forall k :: k in keys <==> k in insertionOrder
  {
    FilterPartition(insertionOrder);
    assert forall k :: k in multiset(insertionOrder) <==> k in insertionOrder;
    Ordering.SortBy(Filter(insertionOrder, IsArrayIndex), IndexLe) + Filter(insertionOrder, IsNamedKey)
  }

  /** The listing splits into ascending array indices followed by the other
      names in creation order. */
  lemma ObjectKeysOrder(insertionOrder: seq<string>)
    ensures var keys := ObjectKeys(insertionOrder);
            var n := |Filter(insertionOrder, IsArrayIndex)|;
            && n <= |keys|
            && (forall i :: 0 <= i < n ==> IsArrayIndex(keys[i]))
            && Ordering.SortedBy(keys[..n], IndexLe)
            && keys[n..] == Filter(insertionOrder, IsNamedKey)
  {
    var indices := Filter(insertionOrder, IsArrayIndex);
    var sorted := Ordering.SortBy(indices, IndexLe);
    var keys := ObjectKeys(insertionOrder);
    IndexLeTotalOrder();
    Ordering.SortBySorted(indices, IndexLe);
    assert |sorted| == |indices| by {
      assert |multiset(sorted)| == |multiset(indices)|;
    }
    assert keys[..|indices|] == sorted;
    forall i | 0 <= i < |indices| ensures IsArrayIndex(keys[i]) {
      assert sorted[i] in multiset(indices);
    }
  }

  /** Names that are not array indices are listed in creation order. */
  lemma ObjectKeysOfNamedKeys(insertionOrder: seq<string>)
    requires forall i :: 0 <= i < |insertionOrder| ==> IsNamedKey(insertionOrder[i])
    ensures ObjectKeys(insertionOrder) == insertionOrder
  {
    FilterAll(insertionOrder, IsNamedKey);
    FilterNone(insertionOrder, IsArrayIndex);
  }
}
