# Product catalogue: a verified model

This project models the in-memory product catalogue of a small Flask CRUD
service. The model covers three parts:

- **The store** (`app/services.py`). One owned list of products, each a JSON
  object with an `"id"` entry. Lookup is a linear scan that returns the first
  match. Add appends the caller's product as given. Update merges a payload
  into the first match, the way `dict.update` does. Delete rebuilds the list
  without any product that carries the id.
- **The validator** (`app/utils.py`). It lists the required names that are
  absent from a payload and builds the error message from them.
- **The request handlers** (`app/routes.py`). Each handler decides the status
  code and the body, and whether the store changes.

Module layout:

- `catalog.dfy` (`Catalog`): products as values, plus the specification
  functions of the store. `FindFirst`/`Lookup` give the first match, `Merge`
  is `dict.update`, `MergeFirst` is update, and `WithoutId` is delete. The
  lemmas about them are here too.
- `services.dfy` (`Services`): class `ProductStore`. Its methods are the
  service functions, written with the same loops. Find, update and delete are
  proved against the matching function above. Fetch-all and add state their
  result and new list directly.
- `utils.dfy` (`Utils`): the validator as a specification function
  (`Missing`, `Join`, `Validate`), the loop method `ValidateRequiredFields`,
  and lemmas.
- `routes.dfy` (`Routes`): the handlers as pure functions from a catalogue
  and a request to an `Outcome`, which holds the response and the new
  catalogue. The `Serve...` methods run each handler against a live
  `ProductStore` through its service methods, and are proved equal to the
  pure functions. Lemmas relate sequences of requests.
- `wrappers.dfy` (`Wrappers`): `Option`, standing for Python's `None`.

The code has no lock, assigns no ids and does not check ids for uniqueness,
so the model has none of these:

- There is no lock.
- The store assigns no ids. Create requires the caller to supply `"id"`
  (app/routes.py:153).
- Ids are not checked for uniqueness. A duplicate is stored, but lookups keep
  returning the older product (`Routes.CreateDuplicateShadowed`).

## Model

| member | source | states |
|---|---|---|
| `Catalog.FindFirst` | app/services.py:24-27 | The scan's result is the index of a product whose id equals the argument, and no earlier product has that id. The result is `None` exactly when no product has the id. |
| `Catalog.IdEquals` | app/services.py:25 | Python's `==` between a stored id and an integer: only an int or a bool can match. An int matches its own value, and `True`/`False` match 1/0. The same test, negated, is the `!=` at app/services.py:75. |
| `Catalog.Lookup` | app/services.py:24-27 | The result is some product exactly when some product has the id. It is the first product in the catalogue that carries the id: no earlier product has it. |
| `Catalog.Merge` | app/services.py:57 | `dict.update` is right-biased. The keys become the union. Payload keys take the payload's values. Every other key keeps its old value. |
| `Catalog.MergeFirst` | app/services.py:54-59 | An absent id gives `None` and an unchanged catalogue. Otherwise only the first matching position changes; it becomes the merged product, which is also returned. The length and all other positions are unchanged. |
| `Catalog.WithoutId` | app/services.py:72-79 | The rebuilt list is never longer than the original. |
| `Catalog.WithoutIdConcat` | app/services.py:74-76 | The filter distributes over concatenation, so survivors keep their original relative order. |
| `Catalog.WithoutIdMembers` | app/services.py:74-76 | A product survives exactly when it is in the catalogue and its id differs, so every duplicate of the id is removed. |
| `Catalog.WithoutIdLength` | app/services.py:74-79 | The length drops by exactly the number of products that carried the id. |
| `Catalog.CountIdZero` | app/services.py:24-27 | No product is counted with the id exactly when the scan finds none. |
| `Catalog.WithoutAbsentId` | app/services.py:74-79 | Deleting an id that no product carries leaves the list equal to before. |
| `Catalog.WithoutIdFindsNothing` | app/services.py:72-79 | After the rebuild, a scan for the deleted id finds nothing. |
| `Catalog.WithoutIdIdempotent` | app/services.py:72-79 | Deleting twice gives the same list as deleting once. |
| `Catalog.WithoutIdWellFormed` | app/services.py:72-79 | The rebuild keeps every product's `"id"` key, so later scans cannot fail on a missing key. |
| `Catalog.FindFirstAppend` | app/services.py:24-27 | After an append, an earlier match still wins. Otherwise the appended product is found if it carries the id. |
| `Services.ProductStore.constructor` | app/services.py:1 | The store starts from an arbitrary seeded catalogue in which every product has an `"id"` key. |
| `Services.ProductStore.FetchAllProducts` | app/services.py:3-10 | Returns the current catalogue, including one rebuilt by a delete. |
| `Services.ProductStore.FindProductIndex` | app/services.py:23-27 | The loop with early return yields the first index whose id equals the argument, or `None` exactly when no product has it. |
| `Services.ProductStore.FindProductById` | app/services.py:12-27 | Returns the first product carrying the id, and `None` exactly when no product does. |
| `Services.ProductStore.AddProduct` | app/services.py:40-41 | The list grows by the given product at the end. Earlier elements are unchanged, duplicate ids are not rejected, and the same product is returned. |
| `Services.ProductStore.UpdateProduct` | app/services.py:54-59 | The new list and the returned product are those of `MergeFirst`: only the first match is merged, and an absent id gives `None` with no change. |
| `Services.ProductStore.DeleteProduct` | app/services.py:72-82 | The loop rebuilds the list as the products whose id differs, in order, and rebinds it. The method always returns true. |
| `Utils.Missing` | app/utils.py:30-34 | The collected list is no longer than `required_fields`, and every name in it is required and absent from `data`. |
| `Utils.Join` | app/utils.py:37 | `', '.join`: empty for no names, the single name for one. Otherwise it starts with the first name followed by the separator, and ends with the last name. |
| `Utils.JoinAppend` | app/utils.py:37 | Joining one more name appends the separator and that name. Together with the one-name case, this fixes `', '.join` completely: the names in order, with the separator between each neighbouring pair. |
| `Utils.Validate` | app/utils.py:36-40 | Validation succeeds exactly when the message is absent, and exactly when no required name is missing. |
| `Utils.ValidateRequiredFields` | app/utils.py:30-40 | The loop's result is `(True, None)` exactly when every required name is a key of `data`. Otherwise it is `False` with `"Missing required fields: "` followed by the missing names joined by `", "`. |
| `Utils.MissingMembers` | app/utils.py:32-34 | A name is listed iff it is required and absent from `data`. |
| `Utils.MissingEmpty` | app/utils.py:32-36 | Nothing is listed exactly when every required name is a key of `data`. |
| `Utils.MissingConcat` | app/utils.py:32-34 | Missing names keep the order of `required_fields`. |
| `Utils.MissingMultiplicity` | app/utils.py:32-34 | A name required n times is listed n times when absent, and never when present. |
| `Utils.MissingMonotone` | app/utils.py:32-34 | Adding keys to `data` never lengthens the missing list, and never turns a valid result into an invalid one. |
| `Utils.ValidateNothingRequired` | app/utils.py:30-40 | An empty `required_fields` is always valid, with no message. |
| `Utils.MissingTwo` | app/utils.py:32-34 | With `id` present and `name`, `price` absent, the collected list is exactly `name, price`. |
| `Utils.MessageTwo` | app/utils.py:37 | The message for those two names is exactly `Missing required fields: name, price`. |
| `Utils.ValidateTwoMissing` | app/utils.py:36-37 | With `name` and `price` missing, the message is exactly `Missing required fields: name, price`. |
| `Routes.ErrorResponse` | app/utils.py:14 | An error response carries the given status and an `error` body with the given message. |
| `Routes.HasDisallowedKey` | app/routes.py:221 | The `any(...)` test is false exactly when every payload key is one of the 7 allowed keys. A payload that carries `id` always fails it. |
| `Routes.ListAllItems` | app/routes.py:49-50 | GET list returns the whole catalogue with 200 and changes nothing. |
| `Routes.GetSingleItem` | app/routes.py:91-94 | GET by id returns 200 exactly when some product has the id, with the first such product as the body. Otherwise it returns 404 `Item not found`. The catalogue is unchanged. |
| `Routes.CreateNewItem` | app/routes.py:152-159 | POST returns 201 exactly when all 8 required keys, `id` included, are present. The payload is then appended unchanged and echoed. Otherwise it returns 400 with the validator's message and the catalogue is unchanged. |
| `Routes.UpdateItem` | app/routes.py:219-227 | A key outside the 7 allowed keys gives 400 `Invalid field(s) in request.` with no change. Otherwise an absent id gives 404 `Item not found` with no change. A present id gives 200 with the merged product, and only its position changes. |
| `Routes.DeleteItem` | app/routes.py:247-248 | DELETE always returns 200 `Item deleted successfully`, and the catalogue becomes the products whose id differs. |
| `Routes.ServeListAllItems` | app/routes.py:49-50 | Answering through `fetch_all_products` gives the same response as `ListAllItems`. |
| `Routes.ServeGetSingleItem` | app/routes.py:91-94 | Answering through `find_product_by_id` gives the same response as `GetSingleItem`. |
| `Routes.ServeCreateNewItem` | app/routes.py:152-159 | Validating and then calling `add_product` gives the response and new store of `CreateNewItem`, and keeps the store well formed. |
| `Routes.ServeUpdateItem` | app/routes.py:219-227 | Checking the allow-list and then calling `update_product` gives the response and new store of `UpdateItem`. |
| `Routes.ServeDeleteItem` | app/routes.py:247-248 | Calling `delete_product` gives the response and new store of `DeleteItem`. |
| `Routes.UpdateKeepsIds` | app/routes.py:220-224 | No PUT changes the length of the catalogue or any product's id. |
| `Routes.UpdateRejectsBeforeLookup` | app/routes.py:221-227 | With a bad key, the 400 response is the same whatever the catalogue and whichever id is named, so a bad key sent to a missing id gives 400, not 404. |
| `Routes.UpdateOfIdRejected` | app/routes.py:220-222 | A PUT that tries to set `id` is rejected with 400 and changes nothing. |
| `Routes.UpdateWithEmptyPayload` | app/routes.py:221-227 | An empty payload passes the check and leaves the catalogue unchanged. It gives 200 if the id exists, else 404. |
| `Routes.HandlersKeepWellFormed` | app/routes.py:153-248 | Create, update and delete keep every stored product's `"id"` key. |
| `Routes.CreateThenGet` | app/routes.py:91-94 | After a valid POST with an id not yet in use, GET of that id returns 200 with the created payload. |
| `Routes.CreateDuplicateShadowed` | app/routes.py:153-159 | A POST reusing an id is stored (201, one more product). GET of that id still returns the older product. |
| `Routes.DeleteThenGet` | app/routes.py:247-248 | After DELETE of an id, GET of that id returns 404, even if the id had duplicates. |
| `Routes.DeleteIdempotent` | app/routes.py:247-248 | DELETE twice equals DELETE once. DELETE of an absent id leaves the catalogue unchanged. |
| `Routes.DeleteThenList` | app/routes.py:49-50 | After DELETE, the length drops by the number of matching products. Exactly the non-matching products remain, and GET list returns the rebuilt catalogue. |
| `Routes.WidgetLifecycle` | app/routes.py:152-248 | A widget created with id 1 on an empty catalogue goes through 201, then GET 200 with the same body, then PUT 200 with the merged product, then DELETE 200, then GET 404. |

## Left out

- Concurrency: the code has no lock. Requests are modelled as sequential calls on one owned store.
- Id assignment and the uniqueness invariant: the code has neither. Ids come from the caller.
- Flask glue: the Blueprint, `request.json` parsing (including a missing or non-object body), `jsonify` and response objects. Responses are `(status, body)` values.
- Rate limiting (`flask_limiter` decorators): it is an external library driven by wall-clock windows.
- Swagger/OpenAPI docstrings, application bootstrap (`app/__init__.py`, `app.py`), the browser script `static/script.js` and the load test `locust_tests/locustfile.py`: they are not part of the catalogue logic.
- `app/models.py` is not part of this model. The seed catalogue is an arbitrary list in which every product has an `"id"` key.
- Field values are opaque: float prices, arrays and nested objects are `Opaque` values. Python's numeric equality between a float id and the path id (`2.0 == 2`) is therefore not modelled; a float id never matches.
- Python aliasing: `fetch_all_products` returns the live list, and `update_product` mutates the dict that the scan returned. The store is modelled as one owned value updated at the found index.
- The services module rebinds its own global on delete, which leaves the `app.models` name stale. This is not modelled, because the routes only read the services module's list.
- `Services.ProductStore.AddProduct`: requires the product to carry an `"id"` key. Its only caller, create, guarantees that key. A keyless product would make later scans raise `KeyError`, and that error path is not modelled.
- `Services.ProductStore.FindProductIndex`: requires every stored product to carry an `"id"` key (`Valid`). The `KeyError` a keyless product would raise is not modelled.
- Python truthiness of `if item:` and `if product:`: a found product always has its `"id"` key, so it is a non-empty dict and therefore truthy. A found product is modelled as `Some`.
- Route converters: Flask's `<int:item_id>` only matches non-negative ids, so the handlers never see a negative id, and Flask answers such paths with its own 404. The `Routes` handlers accept any integer id. For example, `GetSingleItem` answers 200 for a stored id of -1, which no request can reach.
