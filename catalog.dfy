/**
 * The product catalogue as values: a product is a JSON object (a map from key
 * to value), the catalogue an ordered sequence of products. The functions here
 * specify what the store operations of app/services.py compute.
 */
module Catalog {
  import opened Wrappers

  /** A JSON value stored under a product key. Floats, arrays and nested objects
      are opaque: nothing in the catalogue inspects them. */
  datatype Value = Null | Bool(b: bool) | Int(i: int) | Str(s: string) | Opaque(tag: nat)

  /** A product (or a request payload): a JSON object. */
  type Product = map<string, Value>

  /** Python's `value == item_id` for an integer `item_id`: an int compares by
      value, a bool as 0 or 1, and every other JSON value is unequal. */
  predicate IdEquals(v: Value, id: int): (r: bool)
    ensures r ==> v.Int? || v.Bool?
    ensures v.Int? ==> (r <==> v.i == id)
    ensures v == Bool(true) ==> (r <==> id == 1)
    ensures v == Bool(false) ==> (r <==> id == 0)
  {
    match v
    case Int(n) => n == id
    case Bool(b) => (if b then 1 else 0) == id
    case _ => false
  }

  /** The product's `"id"` entry equals `id`. */
  predicate HasId(p: Product, id: int) {
    "id" in p && IdEquals(p["id"], id)
  }

  /** Every product carries an `"id"` key, so `item["id"]` never raises. */
  predicate WellFormed(s: seq<Product>) {
    forall i :: 0 <= i < |s| ==> "id" in s[i]
  }

  /** Index of the first product carrying `id`, scanning from the front. */
  function FindFirst(s: seq<Product>, id: int): (r: Option<nat>)
    ensures r.Some? ==> r.value < |s| && HasId(s[r.value], id)
    ensures r.Some? ==> forall j :: 0 <= j < r.value ==> !HasId(s[j], id)
    ensures r.None? <==> forall j :: 0 <= j < |s| ==> !HasId(s[j], id)
  {
    if |s| == 0 then None
    else if HasId(s[0], id) then Some(0)
    else match FindFirst(s[1..], id)
      case None => None
      case Some(k) => Some(k + 1)
  }

  /** The first product carrying `id`, or `None`. */
  function Lookup(s: seq<Product>, id: int): (r: Option<Product>)
    ensures r.Some? <==> exists j :: 0 <= j < |s| && HasId(s[j], id)
    ensures r.Some? ==> HasId(r.value, id) && r.value in s
    ensures r.Some? ==> exists k ::
      0 <= k < |s| && r.value == s[k] && HasId(s[k], id) && forall j :: 0 <= j < k ==> !HasId(s[j], id)
  {
    match FindFirst(s, id)
    case None => None
    case Some(k) => Some(s[k])
  }

  /** Python's `dict.update`: the payload's keys take the payload's values,
      every other key keeps its old value. */
  function Merge(p: Product, payload: map<string, Value>): (r: Product)
    ensures r.Keys == p.Keys + payload.Keys
    ensures forall k :: k in payload ==> r[k] == payload[k]
    ensures forall k :: k in p && k !in payload ==> r[k] == p[k]
  {
    p + payload
  }

  /** The catalogue after merging `payload` into the first product carrying
      `id`, paired with that merged product (`None` and no change when absent). */
  function MergeFirst(s: seq<Product>, id: int, payload: map<string, Value>): (r: (seq<Product>, Option<Product>))
    ensures r.1.None? <==> FindFirst(s, id).None?
    ensures r.1.None? ==> r.0 == s
    ensures |r.0| == |s|
    ensures r.1.Some? ==>
      var k := FindFirst(s, id).value;
      r.0[k] == r.1.value == Merge(s[k], payload) &&
      forall j :: 0 <= j < |s| && j != k ==> r.0[j] == s[j]
  {
    match FindFirst(s, id)
    case None => (s, None)
    case Some(k) => (s[k := Merge(s[k], payload)], Some(Merge(s[k], payload)))
  }

  /** The products not carrying `id`, in their original order (built from the
      back so that it extends one element at a time, as the loop does). */
  function WithoutId(s: seq<Product>, id: int): (r: seq<Product>)
    ensures |r| <= |s|
  {
    if |s| == 0 then []
    else WithoutId(s[..|s| - 1], id) + (if HasId(s[|s| - 1], id) then [] else [s[|s| - 1]])
  }

  /** How many products carry `id`. */
  function CountId(s: seq<Product>, id: int): nat {
    if |s| == 0 then 0
    else CountId(s[..|s| - 1], id) + (if HasId(s[|s| - 1], id) then 1 else 0)
  }

  /** Filtering distributes over concatenation: relative order is kept. */
  lemma {:induction false} WithoutIdConcat(a: seq<Product>, b: seq<Product>, id: int)
    ensures WithoutId(a + b, id) == WithoutId(a, id) + WithoutId(b, id)
    decreases |b|
  {
    if |b| == 0 {
      assert a + b == a;
    } else {
      var b' := b[..|b| - 1];
      assert (a + b)[..|a + b| - 1] == a + b';
      assert (a + b)[|a + b| - 1] == b[|b| - 1];
      WithoutIdConcat(a, b', id);
    }
  }

  /** A product survives the filter exactly when it is in the catalogue and
      does not carry `id`. */
  lemma {:induction false} WithoutIdMembers(s: seq<Product>, id: int)
    ensures forall p :: p in WithoutId(s, id) <==> p in s && !HasId(p, id)
  {
    if |s| > 0 {
      var init := s[..|s| - 1];
      WithoutIdMembers(init, id);
      assert s == init + [s[|s| - 1]];
    }
  }

  /** The filter drops exactly the products that carry `id`. */
  lemma {:induction false} WithoutIdLength(s: seq<Product>, id: int)
    ensures |WithoutId(s, id)| == |s| - CountId(s, id)
  {
    if |s| > 0 {
      WithoutIdLength(s[..|s| - 1], id);
    }
  }

  /** No product carries `id` exactly when none is counted. */
  lemma {:induction false} CountIdZero(s: seq<Product>, id: int)
    ensures CountId(s, id) == 0 <==> FindFirst(s, id).None?
  {
    if |s| > 0 {
      var init := s[..|s| - 1];
      CountIdZero(init, id);
      assert FindFirst(init, id).None? <==> forall j :: 0 <= j < |init| ==> !HasId(s[j], id);
    }
  }

  /** Filtering out an absent id changes nothing. */
  lemma {:induction false} WithoutAbsentId(s: seq<Product>, id: int)
    requires FindFirst(s, id).None?
    ensures WithoutId(s, id) == s
  {
    if |s| > 0 {
      var init := s[..|s| - 1];
      assert FindFirst(init, id).None? by {
        assert forall j :: 0 <= j < |init| ==> !HasId(init[j], id) by {
          forall j | 0 <= j < |init| ensures !HasId(init[j], id) {
            assert init[j] == s[j];
          }
        }
      }
      WithoutAbsentId(init, id);
      assert s == init + [s[|s| - 1]];
    }
  }

  /** After the filter no product carries `id`. */
  lemma {:induction false} WithoutIdFindsNothing(s: seq<Product>, id: int)
    ensures FindFirst(WithoutId(s, id), id).None?
  {
    WithoutIdMembers(s, id);
    var r := WithoutId(s, id);
    forall j | 0 <= j < |r| ensures !HasId(r[j], id) {
      assert r[j] in r;
    }
  }

  /** Filtering twice is filtering once. */
  lemma WithoutIdIdempotent(s: seq<Product>, id: int)
    ensures WithoutId(WithoutId(s, id), id) == WithoutId(s, id)
  {
    WithoutIdFindsNothing(s, id);
    WithoutAbsentId(WithoutId(s, id), id);
  }

  /** The filter keeps every product's `"id"` key. */
  lemma {:induction false} WithoutIdWellFormed(s: seq<Product>, id: int)
    requires WellFormed(s)
    ensures WellFormed(WithoutId(s, id))
  {
    WithoutIdMembers(s, id);
    var r := WithoutId(s, id);
    forall j | 0 <= j < |r| ensures "id" in r[j] {
      assert r[j] in s;
    }
  }

  /** Appending a product: earlier matches win; otherwise the new one is found
      if it carries `id`. */
  lemma FindFirstAppend(s: seq<Product>, p: Product, id: int)
    ensures FindFirst(s + [p], id) ==
      if FindFirst(s, id).Some? then FindFirst(s, id)
      else if HasId(p, id) then Some(|s|)
      else None
  {
    var t := s + [p];
    assert forall j :: 0 <= j < |s| ==> t[j] == s[j];
    assert t[|s|] == p;
  }
}
