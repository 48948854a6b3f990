/**
 * The store operations of app/services.py: one owned, mutable list of
 * products, scanned linearly. Each method is proved against the matching
 * specification function of module Catalog.
 */
module Services {
  import opened Wrappers
  import opened Catalog

  class ProductStore {
    /** The module-level `products` list. */
    var products: seq<Product>

    /** Every stored product carries an `"id"` key. */
    ghost predicate Valid()
      reads this
    {
      WellFormed(products)
    }

    /** The store starts from whatever catalogue the application was seeded with. */
    constructor (initial: seq<Product>)
      requires WellFormed(initial)
      ensures Valid() && products == initial
    {
      products := initial;
    }

    /** `fetch_all_products`: the current catalogue, as rebound by the last delete. */
    method FetchAllProducts() returns (all: seq<Product>)
      ensures all == products
    {
      all := products;
    }

    /** The scan of `find_product_by_id`, reporting the position of the first
        match so that callers can update it in place. */
    method FindProductIndex(id: int) returns (r: Option<nat>)
      requires Valid()
      ensures r.Some? ==> r.value < |products| && HasId(products[r.value], id)
      ensures r.Some? ==> forall j :: 0 <= j < r.value ==> !HasId(products[j], id)
      ensures r.None? <==> forall j :: 0 <= j < |products| ==> !HasId(products[j], id)
      ensures r == FindFirst(products, id)
    {
      var i := 0;
      while i < |products|
        invariant 0 <= i <= |products|
        invariant forall j :: 0 <= j < i ==> !HasId(products[j], id)
      {
        if IdEquals(products[i]["id"], id) {
          return Some(i);
        }
        i := i + 1;
      }
      return None;
    }

    /** `find_product_by_id`: the first product whose id equals `id`, or `None`. */
    method FindProductById(id: int) returns (r: Option<Product>)
      requires Valid()
      ensures r.Some? <==> exists j :: 0 <= j < |products| && HasId(products[j], id)
      ensures r == Lookup(products, id)
    {
      var k := FindProductIndex(id);
      if k.Some? {
        r := Some(products[k.value]);
      } else {
        r := None;
      }
    }

    /** `add_product`: appends the product as given, without checking its id
        against the ids already stored, and returns it. */
    method AddProduct(p: Product) returns (r: Product)
      requires Valid() && "id" in p
      modifies this
      ensures Valid()
      ensures products == old(products) + [p]
      ensures r == p
    {
      products := products + [p];
      r := p;
    }

    /** `update_product`: merges `payload` into the first product carrying
        `id` and returns it; `None` and no change when no product carries `id`. */
    method UpdateProduct(id: int, payload: map<string, Value>) returns (r: Option<Product>)
      requires Valid()
      modifies this
      ensures Valid()
      ensures (products, r) == MergeFirst(old(products), id, payload)
    {
      var k := FindProductIndex(id);
      if k.Some? {
        var merged := Merge(products[k.value], payload);
        products := products[k.value := merged];
        r := Some(merged);
      } else {
        r := None;
      }
    }

    /** `delete_product`: rebuilds the list without any product carrying `id`,
        rebinds it, and reports success whether or not anything was removed. */
    method DeleteProduct(id: int) returns (ok: bool)
      requires Valid()
      modifies this
      ensures Valid()
      ensures ok
      ensures products == WithoutId(old(products), id)
    {
      var updated: seq<Product> := [];
      var i := 0;
      while i < |products|
        invariant 0 <= i <= |products|
        invariant updated == WithoutId(products[..i], id)
      {
        assert products[..i + 1][..i] == products[..i];
        if !IdEquals(products[i]["id"], id) {
          updated := updated + [products[i]];
        }
        i := i + 1;
      }
      assert products[..i] == products;
      WithoutIdWellFormed(products, id);
      products := updated;
      ok := true;
    }
  }
}
