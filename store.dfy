/** The product store: the list of records the request handlers read and
    change in place, with one method per handler. A `NotFound` result stands
    for the handlers' `HTTPException(status_code=404)`. */
module ProductStore {
  import opened Wrappers
  import opened Catalog

  class Store {
    /** The records in insertion order (the module-level `productos`). */
    var products: seq<Product>

    /** The store's invariant: ids are pairwise distinct. */
    ghost predicate Valid()
      reads this
    {
      DistinctIds(products)
    }

    /** The store as the service starts: the three seed records. */
    constructor ()
      ensures products == Seed()
      ensures Valid()
    {
      products := Seed();
    }

    /** `buscar_producto`: scans the records in order and stops at the first
        whose id is `id`. Returns that record's position, or `None`. */
    method Find(id: int) returns (r: Option<nat>)
      ensures r.None? <==> !HasId(products, id)
      ensures r.Some? ==> IsFirstMatch(products, id, r.value)
      ensures r == FirstIndex(products, id)
    {
      var i := 0;
      while i < |products|
        invariant 0 <= i <= |products|
        invariant forall j :: 0 <= j < i ==> products[j].id != id
      {
        if products[i].id == id {
          return Some(i);
        }
        i := i + 1;
      }
      return None;
    }

    /** `obtener_producto`: the first record with `id`, or `NotFound`. */
    method Get(id: int) returns (r: Result<Product>)
      ensures r.Failure? <==> !HasId(products, id)
      ensures r.Failure? ==> r.error == NotFound
      ensures r.Success? ==> r.value.id == id && r.value in products
      ensures r.Success? ==> Lookup(products, id) == Some(r.value)
    {
      var found := Find(id);
      match found
      case None => return Failure(NotFound);
      case Some(k) => return Success(products[k]);
    }

    /** `listar_productos`: the records passing both active filters, in
        stored order. */
    method List(categoria: Option<string>, nombre: Option<string>) returns (r: seq<Product>)
      ensures forall p :: p in r <==> p in products && Selected(p, categoria, nombre)
      ensures IsSubsequence(r, products)
      ensures !Active(categoria) && !Active(nombre) ==> r == products
      ensures r == ListProducts(products, categoria, nombre)
    {
      r := ListProducts(products, categoria, nombre);
      ListIsFilter(products, categoria, nombre);
    }

    /** `crear_producto`: appends the body with the next id and returns the
        stored record. */
    method Create(d: ProductData) returns (p: Product)
      modifies this
      ensures p.Data() == d
      ensures p.id == NextId(old(products))
      ensures forall k :: 0 <= k < |old(products)| ==> old(products)[k].id < p.id
      ensures products == old(products) + [p]
      ensures Lookup(products, p.id) == Some(p)
      ensures old(Valid()) ==> Valid()
    {
      var nuevoId := NextId(products);
      p := FromData(nuevoId, d);
      LookupAfterCreate(products, d);
      if Valid() {
        CreateKeepsDistinct(products, d);
      }
      products := products + [p];
    }

    /** `actualizar_producto`: overwrites the four data fields of the first
        record with `id`, keeping its id and position. */
    method Replace(id: int, d: ProductData) returns (r: Result<Product>)
      modifies this
      ensures !HasId(old(products), id) ==> r == Failure(NotFound) && products == old(products)
      ensures HasId(old(products), id) ==>
        var k := FirstIndex(old(products), id).value;
        && products == old(products)[k := Replaced(old(products)[k], d)]
        && r == Success(products[k])
      ensures forall x :: HasId(products, x) <==> HasId(old(products), x)
      ensures old(Valid()) ==> Valid()
    {
      var found := Find(id);
      if found.None? {
        return Failure(NotFound);
      }
      var k := found.value;
      UpdateKeepsDistinct(products, k, Replaced(products[k], d));
      products := products[k := Replaced(products[k], d)];
      r := Success(products[k]);
    }

    /** `actualizar_parcial_producto`: assigns, one field at a time, each
        field the patch sets to the first record with `id`. */
    method Patch(id: int, patch: ProductPatch) returns (r: Result<Product>)
      modifies this
      ensures !HasId(old(products), id) ==> r == Failure(NotFound) && products == old(products)
      ensures HasId(old(products), id) ==>
        var k := FirstIndex(old(products), id).value;
        && products == old(products)[k := Patched(old(products)[k], patch)]
        && r == Success(products[k])
      ensures forall x :: HasId(products, x) <==> HasId(old(products), x)
      ensures old(Valid()) ==> Valid()
    {
      var found := Find(id);
      if found.None? {
        return Failure(NotFound);
      }
      var k := found.value;
      // The dict being assigned to is the one stored in the list, so the
      // loop works on that record and the list holds the result.
      var producto := products[k];
      var items := Items(patch);
      var i := 0;
      while i < |items|
        invariant 0 <= i <= |items|
        invariant producto == ApplyItems(products[k], items[..i])
      {
        assert items[..i + 1][..i] == items[..i];
        producto := SetField(producto, items[i]);
        i := i + 1;
      }
      assert items[..|items|] == items;
      ItemsApplyPatch(products[k], patch);
      UpdateKeepsDistinct(products, k, producto);
      products := products[k := producto];
      r := Success(producto);
    }

    /** `eliminar_producto`: removes the record `buscar_producto` finds with
        `productos.remove`, keeping the others in order. */
    method Delete(id: int) returns (r: Result<()>)
      modifies this
      ensures !HasId(old(products), id) ==> r == Failure(NotFound) && products == old(products)
      ensures HasId(old(products), id) ==>
        var k := FirstIndex(old(products), id).value;
        && products == old(products)[..k] + old(products)[k + 1..]
        && r == Success(())
      ensures IsSubsequence(products, old(products))
      ensures old(Valid()) ==> Valid() && Lookup(products, id) == None
    {
      var found := Find(id);
      if found.None? {
        SubsequenceRefl(products);
        return Failure(NotFound);
      }
      var k := found.value;
      RemoveFirstMatch(products, id, k);
      RemoveAtIsSubsequence(products, k);
      if Valid() {
        RemoveAtKeepsDistinct(products, k);
      }
      products := RemoveFirst(products, products[k]);
      r := Success(());
    }
  }

  /** A client of the seed store: the product created first gets id 4, and
      the category "accesorios" then lists exactly the collar and it, in
      that order. */
  method ExampleCreateAndList() {
    var store := new Store();
    SeedNextId();
    var arnes := store.Create(ProductData("Arnés", 15.0, "accesorios", 5));
    assert arnes.id == 4;
    AccesoriosAfterCreate(arnes);
    var accesorios := store.List(Some("accesorios"), None);
    assert accesorios == [Seed()[2], arnes];
  }

  /** A client of the seed store: after a create and the deletion of product
      1, looking 1 up fails and the full listing shows ids 2, 3, 4 in that
      order. Each assertion follows from the method contracts alone. */
  method ExampleDeleteAndGet() {
    var store := new Store();
    SeedNextId();
    var arnes := store.Create(ProductData("Arnés", 15.0, "accesorios", 5));
    ghost var four := store.products;
    assert four[0].id == 1 && four[1].id == 2 && four[2].id == 3 && four[3].id == 4;
    assert IsFirstMatch(four, 1, 0);
    var deleted := store.Delete(1);
    var got := store.Get(1);
    assert got == Failure(NotFound);
    var all := store.List(None, None);
    assert all == four[1..];
  }
}
