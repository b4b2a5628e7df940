# Product store of the inventory service

The service keeps its products in one module-level list, `productos`. Each
record is a dict with the keys `id`, `nombre`, `precio`, `categoria` and
`stock`. Six request handlers read and change that list:

- `listar_productos` filters the list by category and by name.
- `obtener_producto` returns one record.
- `crear_producto` appends a record with a fresh id.
- `actualizar_producto` does a full replace.
- `actualizar_parcial_producto` does a partial update.
- `eliminar_producto` deletes a record.

All of them except listing and creating first find the record with the
helper `buscar_producto`. This project models that list and those
operations in Dafny and proves what they guarantee.

Modules:

- `Wrappers` (wrappers.dfy) defines `Option` for Python's `None`, and a
  `Result` whose only error, `NotFound`, stands for the handlers'
  `HTTPException(status_code=404)`.
- `Text` (text.dfy) lowers ASCII case and defines the substring test of
  Python's `in` on strings. `Contains` is proved equal to the positional
  definition of a substring.
- `Catalog` (catalog.dfy) holds the pure part:
  - the record types: `Product`, `ProductData` for a `Producto` body, and
    `ProductPatch` for a `ProductoParcial` body with each field set or unset;
  - the seed list;
  - first-match lookup;
  - the `max(ids) + 1` id allocator;
  - the two list comprehensions of the listing;
  - the field-wise meaning of a full and a partial update;
  - `list.remove`.
  
  Each comes with lemmas:
  - ids stay distinct;
  - order is kept;
  - the two filters combine with AND;
  - an empty patch changes nothing;
  - the per-field assignment loop equals the field-wise update;
  - a deleted id is no longer found.
- `ProductStore` (store.dfy) holds the class `Store`. Its field `products`
  is the list, and it has one method per handler.
  - `Find` is the early-return scan loop of `buscar_producto`.
  - `Patch` assigns the set fields one at a time in a loop, as the handler
    does.
  - Each mutating method states the whole new list in terms of the old one.
    On an absent id it states the `NotFound` result and an unchanged list.
  - Each mutating method also keeps the invariant `Valid()` (ids are
    distinct).

  Two client methods run a session on the seed store using only the method
  contracts.
  `ExampleCreateAndList`:
  1. Create "Arnés" on the seed store; it gets id 4.
  2. List the category "accesorios"; the result is exactly the collar
     (id 3) followed by "Arnés".

  `ExampleDeleteAndGet`:
  1. Create "Arnés" on the seed store.
  2. Delete record 1.
  3. Get 1 gives `NotFound`.
  4. List everything; the ids are 2, 3, 4 in that order.

The allocator recomputes `max(ids) + 1` from the records still present, so
deleting the record with the largest id frees that id again; ids are not
monotonic (`Catalog.DeletedMaxIdReused`).

Behaviour of the code that the model keeps:

- A query parameter filters only when it is truthy. An absent filter and an
  empty-string filter both leave the list unfiltered (`Catalog.Active`).
- `buscar_producto` returns the first record whose id matches.
  `if not producto` then tests that dict for truthiness. A stored record is
  never an empty dict, so that test fails exactly when the lookup returned
  `None`.
- `productos.remove(producto)` removes the first element EQUAL to the found
  dict, not the found object. Every earlier record has a different id, so it
  is not equal, and the removed element is exactly the one found
  (`Catalog.RemoveFirstMatch`).
- The methods do not assume distinct ids, because the handlers do not
  depend on them. They state `old(Valid()) ==> Valid()`. Only "a deleted id
  is no longer found" needs distinct ids, since otherwise a second record
  with that id would remain.

## Model

| member | source | states |
|---|---|---|
| `Text.LowerChar` | main.py:39 | folds exactly the letters A-Z to a-z (code point + 32); every other character is unchanged |
| `Text.Lower` | main.py:39 | `str.lower()`: same length, each character folded by `LowerChar` |
| `Text.LowerIdempotent` | main.py:39-42 | lowering an already lowered string changes nothing, for every string |
| `Text.Contains` | main.py:42 | `needle in hay`: the empty string occurs in every string, and a needle that occurs is no longer than `hay` |
| `Text.ContainsAtOffset` | main.py:42 | `needle in hay` holds iff `needle` is a prefix of `hay[i..]` for some offset `i` |
| `Catalog.Seed` | main.py:19-23 | the initial `productos` holds three records whose ids are 1, 2, 3 in that order |
| `Catalog.FirstIndex` | main.py:25-29 | `None` iff no record has the id; otherwise the position of the first record with that id |
| `Catalog.Lookup` | main.py:25-29 | `buscar_producto`: `None` iff no record has the id; otherwise the record at the first matching position |
| `Catalog.FirstMatchUnique` | main.py:19-29 | with distinct ids the first match is the only record carrying that id |
| `Catalog.SeedDistinct` | main.py:19-23 | the three seed records have pairwise distinct ids |
| `Catalog.MaxId` | main.py:55 | `max(p["id"] for p in productos)`: no id exceeds the result, and some record carries it |
| `Catalog.NextId` | main.py:55 | 1 on an empty list; otherwise larger than every id present, and one more than an id that is present (the maximum) |
| `Catalog.SeedNextId` | main.py:19-23 | the first record created on the seed list gets id 4 |
| `Catalog.DeletedMaxIdReused` | main.py:55 | after the record with id 3 is gone from the seed list, the next id is 3 again: ids are recomputed, not monotonic |
| `Catalog.FromData` | main.py:56-57 | the created record carries the allocated id and exactly the four fields of the body |
| `Catalog.CreateKeepsDistinct` | main.py:55-58 | appending the record with the allocated id keeps the ids pairwise distinct |
| `Catalog.LookupAfterCreate` | main.py:55-59 | looking up the id a create returned yields the record the create returned |
| `Catalog.NextIdAfterCreate` | main.py:55-58 | after a create, the next allocated id is one more than the one just handed out |
| `Catalog.CreateAll` | main.py:53-59 | successive creates add one record per body and leave the earlier records in place |
| `Catalog.CreateAllIds` | main.py:55-58 | successive creates hand out consecutive ids starting at `NextId`, so they strictly increase and are all distinct |
| `Catalog.Filter` | main.py:39-42 | a list comprehension: a record is in the result iff it is in the input and passes the test; the result is no longer than the input |
| `Catalog.FilterIsSubsequence` | main.py:39-42 | a comprehension keeps its records in their original order |
| `Catalog.FilterKeepsAll` | main.py:36-44 | a test that every record passes returns the list unchanged |
| `Catalog.FilterTwice` | main.py:38-42 | the category comprehension followed by the name comprehension equals one comprehension over the conjunction (AND) |
| `Catalog.Active` | main.py:38-41 | Python truthiness of a query parameter: `None` and `""` switch the filter off; an active filter is a non-empty string |
| `Catalog.CategoryMatches` | main.py:39 | the category test holds iff the query and the category have the same length and agree character by character up to ASCII case |
| `Catalog.CategoryQueryIgnoresCase` | main.py:39 | a category query and its lower-cased form select the same records |
| `Catalog.NameMatches` | main.py:42 | the empty name query matches every record; a matching query is no longer than the record's name |
| `Catalog.NameQueryIgnoresCase` | main.py:42 | a name query and its lower-cased form select the same records |
| `Catalog.Selected` | main.py:38-42 | with no truthy filter every record is selected; a truthy category the record's category does not match, or a truthy name longer than the record's name, deselects it |
| `Catalog.ListProducts` | main.py:32-44 | `listar_productos`: a record is listed iff it is stored and passes every truthy filter; with no truthy filter the whole list is returned |
| `Catalog.ListIsFilter` | main.py:36-44 | the listing is the single filter of the conjunction over the stored list, hence an order-preserving subsequence of it |
| `Catalog.CategoryFilterIgnoresCase` | main.py:38-39 | on the seed list, category "ALIMENTO" lists exactly the record with category "alimento" |
| `Catalog.NameFilterIgnoresCase` | main.py:41-42 | name "croq" matches "Croquetas para perro" |
| `Catalog.AccesoriosAfterCreate` | main.py:36-39 | with one more "accesorios" record after the seed, listing that category returns exactly the collar and the new record, in stored order |
| `Catalog.Replaced` | main.py:66 | `dict.update` with a full body: the id is kept and the four data fields become the body's |
| `Catalog.Items` | main.py:74 | `dict(exclude_unset=True).items()`: at most four pairs, and none exactly when no field is set |
| `Catalog.Patched` | main.py:74-75 | the field-wise partial update keeps the id; a patch with no field set leaves the record unchanged; a set `stock` is written and an unset `nombre` is kept |
| `Catalog.SetField` | main.py:75 | assigning one `(campo, valor)` pair never changes the id |
| `Catalog.ApplyItems` | main.py:74-75 | assigning any sequence of `(campo, valor)` pairs keeps the id, and assigning none keeps the record |
| `Catalog.ItemsApplyPatch` | main.py:74-75 | assigning the set fields one after another gives the field-wise update: set fields take the new value, unset fields keep the stored one, the id is kept |
| `Catalog.EmptyPatchUnchanged` | main.py:74-76 | a patch with no field set returns the record unchanged |
| `Catalog.StockOnlyPatch` | main.py:74-75 | a patch setting only `stock` overwrites `stock` and nothing else |
| `Catalog.PatchIdempotent` | main.py:74-75 | applying the same patch twice equals applying it once |
| `Catalog.ReplaceIsFullPatch` | main.py:61-76 | a full replace equals the partial update that sets all four fields |
| `Catalog.UpdateKeepsDistinct` | main.py:63-75 | overwriting one record with one of the same id keeps the ids distinct and the set of ids present unchanged |
| `Catalog.RemoveFirst` | main.py:83 | `list.remove`: the result is one element shorter |
| `Catalog.RemoveFirstAt` | main.py:83 | when `x` is at position `k` and nowhere before it, `remove(x)` drops exactly position `k` |
| `Catalog.RemoveFirstMatch` | main.py:80-83 | removing the record found by `buscar_producto` drops exactly its position |
| `Catalog.RemoveAtIsSubsequence` | main.py:83 | dropping one position leaves the other records in their original order |
| `Catalog.RemoveAtKeepsDistinct` | main.py:78-83 | dropping one position of a list with distinct ids keeps them distinct, and no record with the removed id remains |
| `ProductStore.Store.constructor` | main.py:19-23 | the store starts with the three seed records and satisfies the distinct-id invariant |
| `ProductStore.Store.Find` | main.py:25-29 | the scan returns `None` iff no record has the id, else the first position whose record has it; nothing changes |
| `ProductStore.Store.Get` | main.py:46-51 | `NotFound` iff the id is absent; otherwise the stored record with that id, equal to `Lookup` |
| `ProductStore.Store.List` | main.py:31-44 | exactly the stored records passing every truthy filter, as an order-preserving subsequence; no truthy filter lists everything |
| `ProductStore.Store.Create` | main.py:53-59 | the new record has the body's fields and id `NextId`, above every existing id; it is appended last, earlier records keep their places, a lookup finds it, and the invariant is kept |
| `ProductStore.Store.Replace` | main.py:61-67 | absent id: `NotFound`, list unchanged; otherwise only the first record with the id is overwritten with the body, keeping its id and position; the set of ids and the invariant are kept |
| `ProductStore.Store.Patch` | main.py:69-76 | absent id: `NotFound`, list unchanged; otherwise the loop over set fields leaves that record field-wise patched, keeping its id and position; nothing else changes; the invariant is kept |
| `ProductStore.Store.Delete` | main.py:78-83 | absent id: `NotFound`, list unchanged; otherwise exactly the first record with the id is removed and the rest keep their order; with distinct ids a later lookup of the id gives `None` |

## Left out

- HTTP wiring is not modelled. This covers the `FastAPI` app, the route decorators, `Query`, the status codes 201 and 204, the 404 detail text, and `response_model` serialization. A `NotFound` result stands for the 404.
- Request-body validation by pydantic (the 422 response) is not modelled. It happens before a handler runs, so `Create` and `Replace` receive a well-typed `ProductData`.
- `precio` is a `real`, not a binary float. The store only copies it and never computes with it.
- `Text.Lower` folds only ASCII A-Z. Python's `str.lower()` also lowers non-ASCII letters, such as "É" to "é", and has multi-character special cases.
- An explicit `null` in a patch body is not modelled. `exclude_unset` counts such a field as set and writes `None` into the record. In the model a patch field is either unset or carries a value of its type.
- Aliasing is not modelled. The model works with values where the code shares references:
  - `buscar_producto` returns a reference to the stored dict; `Find` returns its position instead.
  - `listar_productos` with no filter returns the live list itself; `List` returns its value.
  - `crear_producto` returns the stored dict itself.
- Dict key order is not modelled. The created dict puts `id` last.
- Concurrent requests handled by the ASGI server are not modelled. Each operation is modelled as atomic.
- `list.remove` raising `ValueError` is not modelled. It cannot happen here, because the removed record was just found in the list.
