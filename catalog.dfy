/** The product records of the inventory service and everything about them
    that is pure computation: finding a record by id, allocating the next id,
    the two listing filters, partial and full updates of one record, and
    removing a record from the list. The `Store` class in module
    `ProductStore` performs the mutations; this module states what they mean. */
module Catalog {
  import opened Wrappers
  import opened Text

  /** A validated `Producto` request body: the four data fields. */
  datatype ProductData = ProductData(nombre: string, precio: real, categoria: string, stock: int)

  /** One stored record, the dict with keys id, nombre, precio, categoria, stock. */
  datatype Product = Product(id: int, nombre: string, precio: real, categoria: string, stock: int)
  {
    /** The four data fields of the record, without its id. */
    function Data(): ProductData {
      ProductData(nombre, precio, categoria, stock)
    }
  }

  /** A `ProductoParcial` request body: each field is either set by the
      client (`Some`) or left unset (`None`). */
  datatype ProductPatch = ProductPatch(
    nombre: Option<string>,
    precio: Option<real>,
    categoria: Option<string>,
    stock: Option<int>)

  /** One `(campo, valor)` pair of a patch body with the unset fields excluded. */
  datatype FieldValue = Nombre(n: string) | Precio(x: real) | Categoria(c: string) | Stock(k: int)

  /** The three records the service starts with. */
  function Seed(): (r: seq<Product>)
    ensures |r| == 3
    ensures forall k :: 0 <= k < |r| ==> r[k].id == k + 1
  {
    [ Product(1, "Croquetas para perro", 20.5, "alimento", 10),
      Product(2, "Pelota de goma", 5.99, "juguetes", 25),
      Product(3, "Collar ajustable", 12.0, "accesorios", 15) ]
  }

  // ---------------------------------------------------------------------
  // Ids and lookup

  /** Some record of `s` carries `id`. */
  predicate HasId(s: seq<Product>, id: int) {
    exists k :: 0 <= k < |s| && s[k].id == id
  }

  /** The store's invariant: no two records share an id. */
  predicate DistinctIds(s: seq<Product>) {
    forall i, j :: 0 <= i < j < |s| ==> s[i].id != s[j].id
  }

  /** `k` is the position of the first record of `s` whose id is `id`. */
  predicate IsFirstMatch(s: seq<Product>, id: int, k: int) {
    0 <= k < |s| && s[k].id == id && forall j :: 0 <= j < k ==> s[j].id != id
  }

  /** The position of the first record with `id`, or `None` when there is none. */
  function FirstIndex(s: seq<Product>, id: int): (r: Option<nat>)
    ensures r.None? <==> !HasId(s, id)
    ensures r.Some? ==> IsFirstMatch(s, id, r.value)
  {
    if s == [] then None
    else if s[0].id == id then Some(0)
    else
      match FirstIndex(s[1..], id)
      case None =>
        assert forall k :: 0 < k < |s| ==> s[k] == s[1..][k - 1];
        None
      case Some(k) => Some(k + 1)
  }

  /** `buscar_producto`: the first record whose id equals `id`, or `None`. */
  function Lookup(s: seq<Product>, id: int): (r: Option<Product>)
    ensures r.None? <==> !HasId(s, id)
    ensures r.Some? ==> exists k :: IsFirstMatch(s, id, k) && r.value == s[k]
  {
    match FirstIndex(s, id)
    case None => None
    case Some(k) => Some(s[k])
  }

  /** With distinct ids, the first match is the only match. */
  lemma FirstMatchUnique(s: seq<Product>, id: int, k: int)
    requires DistinctIds(s) && IsFirstMatch(s, id, k)
    ensures forall j :: 0 <= j < |s| && j != k ==> s[j].id != id
  {
  }

  /** The seed records have distinct ids. */
  lemma SeedDistinct()
    ensures DistinctIds(Seed())
  {
  }

  // ---------------------------------------------------------------------
  // Id allocation

  /** `max(p["id"] for p in productos)`. */
  function MaxId(s: seq<Product>): (r: int)
    requires s != []
    ensures forall k :: 0 <= k < |s| ==> s[k].id <= r
    ensures exists k :: 0 <= k < |s| && s[k].id == r
  {
    if |s| == 1 then s[0].id
    else
      var m := MaxId(s[1..]);
      assert forall k :: 0 < k < |s| ==> s[k] == s[1..][k - 1];
      if s[0].id >= m then s[0].id else m
  }

  /** The id `crear_producto` gives a new record: one more than the largest
      id present, or 1 when the list is empty. */
  function NextId(s: seq<Product>): (r: int)
    ensures s == [] ==> r == 1
    ensures forall k :: 0 <= k < |s| ==> s[k].id < r
    ensures s != [] ==> exists k :: 0 <= k < |s| && s[k].id == r - 1
  {
    if s == [] then 1 else MaxId(s) + 1
  }

  /** The record `crear_producto` stores: the request body plus the new id. */
  function FromData(id: int, d: ProductData): (r: Product)
    ensures r.id == id && r.Data() == d
  {
    Product(id, d.nombre, d.precio, d.categoria, d.stock)
  }

  /** Appending a record with the allocated id keeps the ids distinct. */
  lemma CreateKeepsDistinct(s: seq<Product>, d: ProductData)
    requires DistinctIds(s)
    ensures DistinctIds(s + [FromData(NextId(s), d)])
  {
  }

  /** Looking up the id a create returned finds exactly the created record. */
  lemma {:induction false} LookupAfterCreate(s: seq<Product>, d: ProductData)
    ensures Lookup(s + [FromData(NextId(s), d)], NextId(s)) == Some(FromData(NextId(s), d))
  {
    var p := FromData(NextId(s), d);
    var t := s + [p];
    assert forall j :: 0 <= j < |s| ==> t[j] == s[j] && t[j].id != p.id;
    assert t[|s|] == p;
    assert HasId(t, p.id);
    var k := FirstIndex(t, p.id).value;
    assert k == |s|;
  }

  /** After a create the next id is one more than the id just allocated. */
  lemma {:induction false} NextIdAfterCreate(s: seq<Product>, d: ProductData)
    ensures NextId(s + [FromData(NextId(s), d)]) == NextId(s) + 1
  {
    var p := FromData(NextId(s), d);
    var t := s + [p];
    var k :| 0 <= k < |t| && t[k].id == NextId(t) - 1;
    assert t[|s|] == p;
    assert forall j :: 0 <= j < |s| ==> t[j] == s[j] && t[j].id < p.id;
    assert p.id < NextId(t);
    assert k == |s|;
  }

  /** `n` successive creates with bodies `ds`. */
  function CreateAll(s: seq<Product>, ds: seq<ProductData>): (r: seq<Product>)
    ensures |r| == |s| + |ds|
    ensures forall k :: 0 <= k < |s| ==> r[k] == s[k]
    decreases |ds|
  {
    if ds == [] then s
    else CreateAll(s + [FromData(NextId(s), ds[0])], ds[1..])
  }

  /** Successive creates hand out consecutive, hence strictly increasing and
      pairwise distinct, ids, each above every id already present. */
  lemma {:induction false} CreateAllIds(s: seq<Product>, ds: seq<ProductData>)
    ensures forall i :: 0 <= i < |ds| ==>
      CreateAll(s, ds)[|s| + i] == FromData(NextId(s) + i, ds[i])
    decreases |ds|
  {
    if ds != [] {
      var n := NextId(s);
      var p := FromData(n, ds[0]);
      var t := s + [p];
      var rest := ds[1..];
      var r := CreateAll(t, rest);
      assert CreateAll(s, ds) == r;
      CreateAllIds(t, rest);
      NextIdAfterCreate(s, ds[0]);
      assert r[|s|] == t[|s|] == p;
      forall i | 0 < i < |ds|
        ensures r[|s| + i] == FromData(n + i, ds[i])
      {
        assert rest[i - 1] == ds[i];
        assert r[|t| + (i - 1)] == FromData(NextId(t) + (i - 1), rest[i - 1]);
      }
    }
  }

  /** The first record created on the seed store gets id 4. */
  lemma SeedNextId()
    ensures NextId(Seed()) == 4
  {
    var s := Seed();
    assert s[1..][1..] == [s[2]];
    assert MaxId(s[1..][1..]) == 3;
  }

  /** The allocator looks only at the ids present, so deleting the record
      with the largest id frees that id again: on the seed store without
      record 3, the next create gets id 3 once more. */
  lemma DeletedMaxIdReused()
    ensures NextId(Seed()[..2]) == 3
    ensures NextId(Seed()) == 4
  {
    var s := Seed()[..2];
    assert s[1..] == [Seed()[1]];
    SeedNextId();
  }

  // ---------------------------------------------------------------------
  // Listing filters

  /** `[p for p in s if keep(p)]`. */
  function Filter(s: seq<Product>, keep: Product -> bool): (r: seq<Product>)
    ensures |r| <= |s|
    ensures forall p :: p in r <==> p in s && keep(p)
  {
    if s == [] then []
    else (if keep(s[0]) then [s[0]] else []) + Filter(s[1..], keep)
  }

  /** `r` is `s` with some records dropped and the rest in their original order. */
  predicate IsSubsequence(r: seq<Product>, s: seq<Product>)
    decreases |s|
  {
    if r == [] then true
    else if s == [] then false
    else if r[0] == s[0] then IsSubsequence(r[1..], s[1..])
    else IsSubsequence(r, s[1..])
  }

  /** A filter keeps the order of the records it keeps. */
  lemma {:induction false} FilterIsSubsequence(s: seq<Product>, keep: Product -> bool)
    ensures IsSubsequence(Filter(s, keep), s)
    decreases |s|
  {
    if s != [] {
      FilterIsSubsequence(s[1..], keep);
      var rest := Filter(s[1..], keep);
      if keep(s[0]) {
        assert Filter(s, keep) == [s[0]] + rest;
        assert ([s[0]] + rest)[1..] == rest;
      } else {
        assert Filter(s, keep) == rest;
        SubsequenceSkip(rest, s);
      }
    }
  }

  /** Dropping the head of `s` only loses a possible match for it. */
  lemma {:induction false} SubsequenceSkip(r: seq<Product>, s: seq<Product>)
    requires s != [] && IsSubsequence(r, s[1..])
    ensures IsSubsequence(r, s)
    decreases |s|, 1
  {
    if r != [] && r[0] == s[0] {
      SubsequencePop(r, s[1..]);
    }
  }

  /** A subsequence stays one after its first element is removed. */
  lemma {:induction false} SubsequencePop(r: seq<Product>, s: seq<Product>)
    requires r != [] && IsSubsequence(r, s)
    ensures IsSubsequence(r[1..], s)
    decreases |s|, 2
  {
    if r[0] == s[0] {
      if r[1..] != [] {
        SubsequenceSkip(r[1..], s);
      }
    } else {
      SubsequencePop(r, s[1..]);
      if r[1..] != [] {
        SubsequenceSkip(r[1..], s);
      }
    }
  }

  /** A filter that keeps everything returns the list unchanged. */
  lemma {:induction false} FilterKeepsAll(s: seq<Product>, keep: Product -> bool)
    requires forall k :: 0 <= k < |s| ==> keep(s[k])
    ensures Filter(s, keep) == s
    decreases |s|
  {
    if s != [] {
      FilterKeepsAll(s[1..], keep);
    }
  }

  /** Filtering twice is filtering once by the conjunction: the two listing
      filters combine with AND. */
  lemma {:induction false} FilterTwice(s: seq<Product>, f: Product -> bool, g: Product -> bool)
    ensures Filter(Filter(s, f), g) == Filter(s, p => f(p) && g(p))
    decreases |s|
  {
    if s != [] {
      FilterTwice(s[1..], f, g);
      var rest := Filter(s[1..], f);
      if f(s[0]) {
        assert Filter(s, f) == [s[0]] + rest;
        assert ([s[0]] + rest)[1..] == rest;
      } else {
        assert Filter(s, f) == rest;
      }
    }
  }

  /** Python truthiness of an optional query parameter: `None` and the empty
      string both switch the filter off. */
  predicate Active(f: Option<string>)
    ensures f.None? ==> !Active(f)
    ensures f == Some("") ==> !Active(f)
    ensures Active(f) ==> |f.value| > 0
  {
    f.Some? && f.value != ""
  }

  /** `p["categoria"].lower() == categoria.lower()`: the query and the
      category have the same length and agree character by character up to
      ASCII case. */
  predicate CategoryMatches(p: Product, categoria: string)
    ensures CategoryMatches(p, categoria) <==>
      && |categoria| == |p.categoria|
      && forall i :: 0 <= i < |categoria| ==> LowerChar(categoria[i]) == LowerChar(p.categoria[i])
  {
    Lower(p.categoria) == Lower(categoria)
  }

  /** The category test ignores the case of the query: a query and its
      lower-cased form select the same records. */
  lemma CategoryQueryIgnoresCase(p: Product, categoria: string)
    ensures CategoryMatches(p, categoria) <==> CategoryMatches(p, Lower(categoria))
  {
  }

  /** `nombre.lower() in p["nombre"].lower()`. The empty query matches every
      record, and a matching query is no longer than the name. */
  predicate NameMatches(p: Product, nombre: string)
    ensures nombre == "" ==> NameMatches(p, nombre)
    ensures NameMatches(p, nombre) ==> |nombre| <= |p.nombre|
  {
    Contains(Lower(p.nombre), Lower(nombre))
  }

  /** The name test ignores the case of the query: a query and its
      lower-cased form select the same records. */
  lemma NameQueryIgnoresCase(p: Product, nombre: string)
    ensures NameMatches(p, nombre) <==> NameMatches(p, Lower(nombre))
  {
    LowerIdempotent(nombre);
  }

  /** The records a listing returns: those passing every active filter.
      Without an active filter every record is selected; an active category
      that the record's category does not match deselects it. */
  predicate Selected(p: Product, categoria: Option<string>, nombre: Option<string>)
    ensures !Active(categoria) && !Active(nombre) ==> Selected(p, categoria, nombre)
    ensures Active(categoria) && Lower(p.categoria) != Lower(categoria.value) ==> !Selected(p, categoria, nombre)
    ensures Active(nombre) && |nombre.value| > |p.nombre| ==> !Selected(p, categoria, nombre)
  {
    && (Active(categoria) ==> CategoryMatches(p, categoria.value))
    && (Active(nombre) ==> NameMatches(p, nombre.value))
  }

  /** `listar_productos`: the category filter, then the name filter, each
      applied only when its parameter is truthy. */
  function ListProducts(s: seq<Product>, categoria: Option<string>, nombre: Option<string>): (r: seq<Product>)
    ensures forall p :: p in r <==> p in s && Selected(p, categoria, nombre)
    ensures !Active(categoria) && !Active(nombre) ==> r == s
  {
    var byCategory := if Active(categoria) then Filter(s, p => CategoryMatches(p, categoria.value)) else s;
    if Active(nombre) then Filter(byCategory, p => NameMatches(p, nombre.value)) else byCategory
  }

  /** A listing is exactly the single filter of `Selected` over the whole
      list, so it keeps the stored order. */
  lemma ListIsFilter(s: seq<Product>, categoria: Option<string>, nombre: Option<string>)
    ensures ListProducts(s, categoria, nombre) == Filter(s, p => Selected(p, categoria, nombre))
    ensures IsSubsequence(ListProducts(s, categoria, nombre), s)
  {
    var sel := p => Selected(p, categoria, nombre);
    if Active(categoria) && Active(nombre) {
      var byCat := p => CategoryMatches(p, categoria.value);
      var byName := p => NameMatches(p, nombre.value);
      FilterTwice(s, byCat, byName);
      FilterSameKeep(s, p => byCat(p) && byName(p), sel);
    } else if Active(categoria) {
      FilterSameKeep(s, p => CategoryMatches(p, categoria.value), sel);
    } else if Active(nombre) {
      FilterSameKeep(s, p => NameMatches(p, nombre.value), sel);
    } else {
      FilterKeepsAll(s, sel);
    }
    FilterIsSubsequence(s, sel);
  }

  /** Filters with pointwise equal predicates agree. */
  lemma {:induction false} FilterSameKeep(s: seq<Product>, f: Product -> bool, g: Product -> bool)
    requires forall p :: f(p) == g(p)
    ensures Filter(s, f) == Filter(s, g)
    decreases |s|
  {
    if s != [] {
      FilterSameKeep(s[1..], f, g);
    }
  }

  /** The category filter ignores case: "ALIMENTO" selects the record whose
      category is "alimento", and nothing else from the seed. */
  lemma CategoryFilterIgnoresCase()
    ensures ListProducts(Seed(), Some("ALIMENTO"), None) == [Seed()[0]]
  {
    var s := Seed();
    var f := p => CategoryMatches(p, "ALIMENTO");
    var want := Lower("ALIMENTO");
    assert want[0] == 'a';
    assert Lower(s[0].categoria) == want;
    assert Lower(s[1].categoria)[0] == 'j';
    assert |Lower(s[2].categoria)| == 10;
    assert s[1..][1..][1..] == [];
    assert Filter(s[1..][1..], f) == [];
    assert Filter(s[1..], f) == [];
  }

  /** After one more record of category "accesorios" is appended to the
      seed, listing that category gives the seed's collar and the new record,
      in stored order. */
  lemma AccesoriosAfterCreate(x: Product)
    requires x.categoria == "accesorios"
    ensures ListProducts(Seed() + [x], Some("accesorios"), None) == [Seed()[2], x]
  {
    var s := Seed() + [x];
    var f := p => CategoryMatches(p, "accesorios");
    // "alimento" and "juguetes" are shorter than "accesorios".
    assert |s[0].categoria| == 8 && |s[1].categoria| == 8;
    assert !f(s[0]) && !f(s[1]) && f(s[2]) && f(x);
    assert s[1..][1..][1..][1..] == [];
    assert Filter(s[1..][1..][1..], f) == [x];
    assert Filter(s[1..][1..], f) == [s[2], x];
    assert Filter(s[1..], f) == [s[2], x];
  }

  /** The name filter is a case-insensitive substring test: "croq" selects
      "Croquetas para perro". */
  lemma NameFilterIgnoresCase()
    ensures NameMatches(Seed()[0], "croq")
  {
    var l := Lower(Seed()[0].nombre);
    var n := Lower("croq");
    assert l[0] == 'c' && l[1] == 'r' && l[2] == 'o' && l[3] == 'q';
    assert l[..4] == n;
    assert IsPrefix(n, l);
  }

  // ---------------------------------------------------------------------
  // Full and partial updates of one record

  /** `producto.update(producto_actualizado.dict())`: the four data fields are
      overwritten and the id is kept. */
  function Replaced(p: Product, d: ProductData): (r: Product)
    ensures r.id == p.id && r.Data() == d
  {
    Product(p.id, d.nombre, d.precio, d.categoria, d.stock)
  }

  /** The field-wise meaning of a partial update: a set field takes the new
      value, an unset field keeps the stored one. */
  function Patched(p: Product, patch: ProductPatch): (r: Product)
    ensures r.id == p.id
    ensures patch == ProductPatch(None, None, None, None) ==> r == p
    ensures patch.stock.Some? ==> r.stock == patch.stock.value
    ensures patch.nombre.None? ==> r.nombre == p.nombre
  {
    Product(
      p.id,
      patch.nombre.GetOr(p.nombre),
      patch.precio.GetOr(p.precio),
      patch.categoria.GetOr(p.categoria),
      patch.stock.GetOr(p.stock))
  }

  /** `producto_parcial.dict(exclude_unset=True).items()`: the set fields,
      in the order `ProductoParcial` declares them. */
  function Items(patch: ProductPatch): (r: seq<FieldValue>)
    ensures |r| <= 4
    ensures r == [] <==> patch == ProductPatch(None, None, None, None)
  {
    (if patch.nombre.Some? then [Nombre(patch.nombre.value)] else []) +
    (if patch.precio.Some? then [Precio(patch.precio.value)] else []) +
    (if patch.categoria.Some? then [Categoria(patch.categoria.value)] else []) +
    (if patch.stock.Some? then [Stock(patch.stock.value)] else [])
  }

  /** `producto[campo] = valor` for one pair. */
  function SetField(p: Product, f: FieldValue): (r: Product)
    ensures r.id == p.id
  {
    match f
    case Nombre(n) => p.(nombre := n)
    case Precio(x) => p.(precio := x)
    case Categoria(c) => p.(categoria := c)
    case Stock(k) => p.(stock := k)
  }

  /** The record after assigning the pairs of `items` one after another. */
  function ApplyItems(p: Product, items: seq<FieldValue>): (r: Product)
    ensures r.id == p.id
    ensures items == [] ==> r == p
    decreases |items|
  {
    if items == [] then p
    else SetField(ApplyItems(p, items[..|items| - 1]), items[|items| - 1])
  }

  /** Assigning `xs` and then `ys` is assigning `xs + ys`. */
  lemma {:induction false} ApplyItemsAppend(p: Product, xs: seq<FieldValue>, ys: seq<FieldValue>)
    ensures ApplyItems(p, xs + ys) == ApplyItems(ApplyItems(p, xs), ys)
    decreases |ys|
  {
    if ys == [] {
      assert xs + ys == xs;
    } else {
      var n := |ys| - 1;
      ApplyItemsAppend(p, xs, ys[..n]);
      assert (xs + ys)[..|xs + ys| - 1] == xs + ys[..n];
    }
  }

  /** The per-field assignment loop over the set fields computes the
      field-wise partial update, and never touches the id. */
  lemma ItemsApplyPatch(p: Product, patch: ProductPatch)
    ensures ApplyItems(p, Items(patch)) == Patched(p, patch)
    ensures Patched(p, patch).id == p.id
  {
    var a := if patch.nombre.Some? then [Nombre(patch.nombre.value)] else [];
    var b := if patch.precio.Some? then [Precio(patch.precio.value)] else [];
    var c := if patch.categoria.Some? then [Categoria(patch.categoria.value)] else [];
    var d := if patch.stock.Some? then [Stock(patch.stock.value)] else [];
    assert Items(patch) == a + b + c + d;
    ApplyItemsAppend(p, a + b + c, d);
    ApplyItemsAppend(p, a + b, c);
    ApplyItemsAppend(p, a, b);
    var pa := ApplyItems(p, a);
    assert a != [] ==> a[..0] == [];
    assert b != [] ==> b[..0] == [];
    assert c != [] ==> c[..0] == [];
    assert d != [] ==> d[..0] == [];
    assert ApplyItems(pa, b) == pa.(precio := patch.precio.GetOr(pa.precio));
  }

  /** A patch with no field set leaves the record as it was. */
  lemma EmptyPatchUnchanged(p: Product)
    ensures Patched(p, ProductPatch(None, None, None, None)) == p
  {
  }

  /** A patch that sets only `stock` overwrites only `stock`. */
  lemma StockOnlyPatch(p: Product, k: int)
    ensures Patched(p, ProductPatch(None, None, None, Some(k))) == p.(stock := k)
  {
  }

  /** Applying the same patch twice is applying it once. */
  lemma PatchIdempotent(p: Product, patch: ProductPatch)
    ensures Patched(Patched(p, patch), patch) == Patched(p, patch)
  {
  }

  /** A full replace is the partial update that sets all four fields. */
  lemma ReplaceIsFullPatch(p: Product, d: ProductData)
    ensures Replaced(p, d) == Patched(p, ProductPatch(Some(d.nombre), Some(d.precio), Some(d.categoria), Some(d.stock)))
  {
  }

  /** Overwriting a record in place with one of the same id keeps the ids
      distinct and leaves every other record and every position as it was. */
  lemma UpdateKeepsDistinct(s: seq<Product>, k: int, q: Product)
    requires 0 <= k < |s| && q.id == s[k].id
    ensures DistinctIds(s) ==> DistinctIds(s[k := q])
    ensures forall id :: HasId(s[k := q], id) <==> HasId(s, id)
  {
    var t := s[k := q];
    forall id | HasId(t, id)
      ensures HasId(s, id)
    {
      var j :| 0 <= j < |t| && t[j].id == id;
      assert s[j].id == id;
    }
    forall id | HasId(s, id)
      ensures HasId(t, id)
    {
      var j :| 0 <= j < |s| && s[j].id == id;
      assert t[j].id == id;
    }
  }

  // ---------------------------------------------------------------------
  // Removal

  /** `s.remove(x)`: drops the first element equal to `x`. */
  function RemoveFirst(s: seq<Product>, x: Product): (r: seq<Product>)
    requires x in s
    ensures |r| == |s| - 1
  {
    assert s == [s[0]] + s[1..];
    if s[0] == x then s[1..]
    else [s[0]] + RemoveFirst(s[1..], x)
  }

  /** Removing the record `buscar_producto` found removes exactly its
      position: every record before it has another id, so none of them is
      equal to it. */
  lemma RemoveFirstMatch(s: seq<Product>, id: int, k: int)
    requires IsFirstMatch(s, id, k)
    ensures RemoveFirst(s, s[k]) == s[..k] + s[k + 1..]
  {
    assert forall j :: 0 <= j < k ==> s[..k][j] != s[k];
    RemoveFirstAt(s, s[k], k);
  }

  /** `remove` drops position `k` when `x` sits there and nowhere before. */
  lemma {:induction false} RemoveFirstAt(s: seq<Product>, x: Product, k: int)
    requires 0 <= k < |s| && s[k] == x && x !in s[..k]
    ensures RemoveFirst(s, x) == s[..k] + s[k + 1..]
    decreases k
  {
    if k == 0 {
      assert s[..0] + s[1..] == s[1..];
    } else {
      assert s[0] != x by { assert s[..k][0] == s[0]; }
      assert s[1..][..k - 1] == s[..k][1..];
      RemoveFirstAt(s[1..], x, k - 1);
      assert s[..k] + s[k + 1..] == [s[0]] + (s[1..][..k - 1] + s[1..][k..]);
    }
  }

  /** Every list is a subsequence of itself. */
  lemma {:induction false} SubsequenceRefl(s: seq<Product>)
    ensures IsSubsequence(s, s)
    decreases |s|
  {
    if s != [] {
      SubsequenceRefl(s[1..]);
    }
  }

  /** Dropping the record at `k` leaves the others in their order. */
  lemma {:induction false} RemoveAtIsSubsequence(s: seq<Product>, k: int)
    requires 0 <= k < |s|
    ensures IsSubsequence(s[..k] + s[k + 1..], s)
    decreases k
  {
    if k == 0 {
      assert s[..0] + s[1..] == s[1..];
      SubsequenceRefl(s[1..]);
      if s[1..] != [] {
        SubsequenceSkip(s[1..], s);
      }
    } else {
      var t := s[..k] + s[k + 1..];
      RemoveAtIsSubsequence(s[1..], k - 1);
      assert t[1..] == s[1..][..k - 1] + s[1..][k..];
    }
  }

  /** Removing a record from a list with distinct ids keeps the ids
      distinct and leaves no record with the removed id. */
  lemma RemoveAtKeepsDistinct(s: seq<Product>, k: int)
    requires 0 <= k < |s| && DistinctIds(s)
    ensures DistinctIds(s[..k] + s[k + 1..])
    ensures !HasId(s[..k] + s[k + 1..], s[k].id)
  {
    var t := s[..k] + s[k + 1..];
    forall j | 0 <= j < |t|
      ensures t[j] == s[if j < k then j else j + 1]
    {
    }
  }
}
