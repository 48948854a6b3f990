/**
 * The request handlers of app/routes.py: for each route, the status code, the
 * response body, and the catalogue after the request. The pure functions say
 * what a handler decides; the `Serve` methods run the same decisions against
 * the live store through its service methods.
 */
module Routes {
  import opened Wrappers
  import opened Catalog
  import opened Utils
  import opened Services

  /** The JSON body of a response. */
  datatype Body =
    | Items(items: seq<Product>)
    | Item(item: Product)
    | Error(error: string)
    | Message(message: string)

  datatype Response = Response(status: int, body: Body)

  /** What a request answers and the catalogue it leaves behind. */
  datatype Outcome = Outcome(response: Response, products: seq<Product>)

  /** Keys a create request must carry; the caller supplies the id. */
  const RequiredKeys: seq<string> :=
    ["id", "name", "price", "quantity", "description", "category", "date_added", "image_url"]

  /** The only keys an update request may carry; `"id"` is not among them. */
  const AllowedKeys: seq<string> :=
    ["name", "price", "quantity", "description", "category", "date_added", "image_url"]

  const NotFound: string := "Item not found"
  const InvalidFields: string := "Invalid field(s) in request."
  const Deleted: string := "Item deleted successfully"

  /** `generate_error_response`: an `{"error": message}` body with the status. */
  function ErrorResponse(message: string, status: int): (r: Response)
    ensures r.status == status && r.body.Error? && r.body.error == message
  {
    Response(status, Error(message))
  }

  /** The payload names a key outside the update allow-list. */
  predicate HasDisallowedKey(data: map<string, Value>): (r: bool)
    ensures !r <==> data.Keys <= {"name", "price", "quantity", "description", "category", "date_added", "image_url"}
    ensures "id" in data ==> r
  {
    exists k :: k in data && k !in AllowedKeys
  }

  /** GET /products: the whole catalogue with 200. */
  function ListAllItems(s: seq<Product>): (o: Outcome)
    ensures o.response.status == 200 && o.response.body.Items?
    ensures o.response.body.items == s && o.products == s
  {
    Outcome(Response(200, Items(s)), s)
  }

  /** GET /products/<id>: the first product carrying the id with 200, else 404. */
  function GetSingleItem(s: seq<Product>, id: int): (o: Outcome)
    ensures o.products == s
    ensures o.response.status == 200 <==> exists j :: 0 <= j < |s| && HasId(s[j], id)
    ensures o.response.status == 200 ==>
      o.response.body == Item(s[FindFirst(s, id).value])
    ensures o.response.status != 200 ==> o.response == ErrorResponse(NotFound, 404)
  {
    match Lookup(s, id)
    case Some(item) => Outcome(Response(200, Item(item)), s)
    case None => Outcome(ErrorResponse(NotFound, 404), s)
  }

  /** POST /products: 400 with the validator's message when a required key is
      absent, otherwise the payload is appended as given and echoed with 201. */
  function CreateNewItem(s: seq<Product>, details: map<string, Value>): (o: Outcome)
    ensures o.response.status == 201 <==> forall i :: 0 <= i < |RequiredKeys| ==> RequiredKeys[i] in details
    ensures o.response.status == 201 ==>
      o.response.body == Item(details) && o.products == s + [details]
    ensures o.response.status != 201 ==>
      o.products == s &&
      o.response == ErrorResponse(MissingPrefix + Join(Missing(details, RequiredKeys), ", "), 400)
  {
    MissingEmpty(details, RequiredKeys);
    var (isValid, message) := Validate(details, RequiredKeys);
    if !isValid then Outcome(ErrorResponse(message.value, 400), s)
    else Outcome(Response(201, Item(details)), s + [details])
  }

  /** PUT /products/<id>: 400 when the payload names a key outside the
      allow-list (before the catalogue is looked at), otherwise the merged
      product with 200, or 404 when no product carries the id. */
  function UpdateItem(s: seq<Product>, id: int, data: map<string, Value>): (o: Outcome)
    ensures HasDisallowedKey(data) ==> o == Outcome(ErrorResponse(InvalidFields, 400), s)
    ensures !HasDisallowedKey(data) && FindFirst(s, id).None? ==>
      o == Outcome(ErrorResponse(NotFound, 404), s)
    ensures !HasDisallowedKey(data) && FindFirst(s, id).Some? ==>
      var k := FindFirst(s, id).value;
      o.response == Response(200, Item(Merge(s[k], data))) &&
      o.products == s[k := Merge(s[k], data)]
  {
    if HasDisallowedKey(data) then Outcome(ErrorResponse(InvalidFields, 400), s)
    else
      var (s', updated) := MergeFirst(s, id, data);
      match updated
      case Some(item) => Outcome(Response(200, Item(item)), s')
      case None => Outcome(ErrorResponse(NotFound, 404), s')
  }

  /** DELETE /products/<id>: every product carrying the id is removed, and the
      answer is 200 whether or not one existed. */
  function DeleteItem(s: seq<Product>, id: int): (o: Outcome)
    ensures o.response == Response(200, Message(Deleted))
    ensures o.products == WithoutId(s, id)
  {
    Outcome(Response(200, Message(Deleted)), WithoutId(s, id))
  }

  /** `list_all_items` against the store. */
  method ServeListAllItems(store: ProductStore) returns (resp: Response)
    ensures Outcome(resp, store.products) == ListAllItems(store.products)
  {
    var all := store.FetchAllProducts();
    resp := Response(200, Items(all));
  }

  /** `get_single_item` against the store. */
  method ServeGetSingleItem(store: ProductStore, id: int) returns (resp: Response)
    requires store.Valid()
    ensures Outcome(resp, store.products) == GetSingleItem(store.products, id)
  {
    var item := store.FindProductById(id);
    if item.Some? {
      resp := Response(200, Item(item.value));
    } else {
      resp := ErrorResponse(NotFound, 404);
    }
  }

  /** `create_new_item` against the store: validate, then `add_product`. */
  method ServeCreateNewItem(store: ProductStore, details: map<string, Value>) returns (resp: Response)
    requires store.Valid()
    modifies store
    ensures store.Valid()
    ensures Outcome(resp, store.products) == CreateNewItem(old(store.products), details)
  {
    var isValid, message := ValidateRequiredFields(details, RequiredKeys);
    if !isValid {
      return ErrorResponse(message.value, 400);
    }
    assert RequiredKeys[0] == "id";
    var item := store.AddProduct(details);
    resp := Response(201, Item(item));
  }

  /** `update_item` against the store: the allow-list check, then `update_product`. */
  method ServeUpdateItem(store: ProductStore, id: int, data: map<string, Value>) returns (resp: Response)
    requires store.Valid()
    modifies store
    ensures store.Valid()
    ensures Outcome(resp, store.products) == UpdateItem(old(store.products), id, data)
  {
    if HasDisallowedKey(data) {
      return ErrorResponse(InvalidFields, 400);
    }
    var updated := store.UpdateProduct(id, data);
    if updated.Some? {
      resp := Response(200, Item(updated.value));
    } else {
      resp := ErrorResponse(NotFound, 404);
    }
  }

  /** `delete_item` against the store: `delete_product`, then always 200. */
  method ServeDeleteItem(store: ProductStore, id: int) returns (resp: Response)
    requires store.Valid()
    modifies store
    ensures store.Valid()
    ensures Outcome(resp, store.products) == DeleteItem(old(store.products), id)
  {
    var _ := store.DeleteProduct(id);
    resp := Response(200, Message(Deleted));
  }

  /** No update request changes any product's id, and none changes the
      number of products. */
  lemma UpdateKeepsIds(s: seq<Product>, id: int, data: map<string, Value>)
    requires WellFormed(s)
    ensures |UpdateItem(s, id, data).products| == |s|
    ensures forall i :: 0 <= i < |s| ==>
      "id" in UpdateItem(s, id, data).products[i] &&
      UpdateItem(s, id, data).products[i]["id"] == s[i]["id"]
  {
  }

  /** The allow-list is checked before the id is looked up: a bad key gets
      the same 400 whatever the catalogue holds and whichever id is named. */
  lemma UpdateRejectsBeforeLookup(s: seq<Product>, t: seq<Product>, id: int, other: int, data: map<string, Value>)
    requires HasDisallowedKey(data)
    ensures UpdateItem(s, id, data).response == UpdateItem(t, other, data).response
    ensures UpdateItem(s, id, data).response.status == 400
  {
  }

  /** An update that tries to set the id is rejected. */
  lemma UpdateOfIdRejected(s: seq<Product>, id: int, v: Value)
    ensures UpdateItem(s, id, map["id" := v]) == Outcome(ErrorResponse(InvalidFields, 400), s)
  {
    assert "id" in map["id" := v] && "id" !in AllowedKeys;
  }

  /** An empty payload passes the check and changes nothing. */
  lemma UpdateWithEmptyPayload(s: seq<Product>, id: int)
    ensures UpdateItem(s, id, map[]).products == s
    ensures UpdateItem(s, id, map[]).response.status ==
      if exists j :: 0 <= j < |s| && HasId(s[j], id) then 200 else 404
  {
    var none: map<string, Value> := map[];
    if FindFirst(s, id).Some? {
      var k := FindFirst(s, id).value;
      assert Merge(s[k], none) == s[k];
    }
  }

  /** Every handler keeps each stored product's `"id"` key. */
  lemma HandlersKeepWellFormed(s: seq<Product>, id: int, data: map<string, Value>)
    requires WellFormed(s)
    ensures WellFormed(CreateNewItem(s, data).products)
    ensures WellFormed(UpdateItem(s, id, data).products)
    ensures WellFormed(DeleteItem(s, id).products)
  {
    UpdateKeepsIds(s, id, data);
    WithoutIdWellFormed(s, id);
    if CreateNewItem(s, data).response.status == 201 {
      assert RequiredKeys[0] == "id";
    }
  }

  /** A created product with a fresh id is what a later GET of that id returns. */
  lemma CreateThenGet(s: seq<Product>, p: Product, id: int)
    requires forall i :: 0 <= i < |RequiredKeys| ==> RequiredKeys[i] in p
    requires HasId(p, id) && FindFirst(s, id).None?
    ensures GetSingleItem(CreateNewItem(s, p).products, id).response == Response(200, Item(p))
  {
    FindFirstAppend(s, p, id);
    assert (s + [p])[|s|] == p;
  }

  /** Ids are not checked for uniqueness: a product created with an id already
      in use is stored, but a GET of that id still returns the older one. */
  lemma CreateDuplicateShadowed(s: seq<Product>, p: Product, id: int)
    requires forall i :: 0 <= i < |RequiredKeys| ==> RequiredKeys[i] in p
    requires HasId(p, id) && FindFirst(s, id).Some?
    ensures CreateNewItem(s, p).response.status == 201
    ensures |CreateNewItem(s, p).products| == |s| + 1
    ensures GetSingleItem(CreateNewItem(s, p).products, id).response ==
      Response(200, Item(s[FindFirst(s, id).value]))
  {
    FindFirstAppend(s, p, id);
    var k := FindFirst(s, id).value;
    assert (s + [p])[k] == s[k];
  }

  /** After a delete, a GET of that id is 404, even when it had duplicates. */
  lemma DeleteThenGet(s: seq<Product>, id: int)
    ensures GetSingleItem(DeleteItem(s, id).products, id).response == ErrorResponse(NotFound, 404)
  {
    WithoutIdFindsNothing(s, id);
  }

  /** Deleting twice is deleting once; deleting an absent id changes nothing. */
  lemma DeleteIdempotent(s: seq<Product>, id: int)
    ensures DeleteItem(DeleteItem(s, id).products, id) == DeleteItem(s, id)
    ensures FindFirst(s, id).None? ==> DeleteItem(s, id).products == s
  {
    WithoutIdIdempotent(s, id);
    if FindFirst(s, id).None? {
      WithoutAbsentId(s, id);
    }
  }

  /** A delete removes exactly the products carrying the id, keeps the rest in
      order, and a later list shows the rebuilt catalogue. */
  lemma DeleteThenList(s: seq<Product>, id: int)
    ensures |DeleteItem(s, id).products| == |s| - CountId(s, id)
    ensures forall p :: p in DeleteItem(s, id).products <==> p in s && !HasId(p, id)
    ensures ListAllItems(DeleteItem(s, id).products).response == Response(200, Items(WithoutId(s, id)))
  {
    WithoutIdLength(s, id);
    WithoutIdMembers(s, id);
  }

  /** A widget's life: created with caller-supplied id 1 on an empty catalogue,
      read back, repriced (the float prices are opaque values), deleted, and
      then no longer found. */
  lemma WidgetLifecycle(widget: Product)
    requires widget == map[
      "id" := Int(1), "name" := Str("Widget"), "price" := Opaque(999), "quantity" := Int(5),
      "description" := Str("d"), "category" := Str("c"), "date_added" := Str("2024-01-01"),
      "image_url" := Str("http://x")]
    ensures CreateNewItem([], widget) == Outcome(Response(201, Item(widget)), [widget])
    ensures GetSingleItem([widget], 1).response == Response(200, Item(widget))
    ensures UpdateItem([widget], 1, map["price" := Opaque(1250)]) ==
      Outcome(Response(200, Item(Merge(widget, map["price" := Opaque(1250)]))),
              [Merge(widget, map["price" := Opaque(1250)])])
    ensures DeleteItem([Merge(widget, map["price" := Opaque(1250)])], 1) ==
      Outcome(Response(200, Message(Deleted)), [])
    ensures GetSingleItem([], 1).response == ErrorResponse(NotFound, 404)
  {
  }
}
