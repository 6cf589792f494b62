/** The product repository: CRUD over the `Product` table. */
module ProductRepository {
  import opened Wrappers
  import Sorting

  type ProductId = int

  /** The writable columns of a product (money in the smallest unit). */
  datatype ProductFields = ProductFields(productName: string, unitPrice: int, unitOfMeasure: string)

  /** A row as the queries return it. */
  datatype Product = Product(productId: ProductId, fields: ProductFields)

  /** The table, keyed by its identity column, and the next identity value. */
  datatype Catalog = Catalog(rows: map<ProductId, ProductFields>, nextProductId: ProductId)

  const EmptyCatalog := Catalog(map[], 1)

  /** Identities are positive and below the counter. */
  ghost predicate Valid(c: Catalog)
  {
    && 1 <= c.nextProductId
    && forall id :: id in c.rows ==> 1 <= id < c.nextProductId
  }

  function IdOf(p: Product): ProductId { p.productId }

  /** `ORDER BY ProductName ASC`. */
  predicate ByName(a: Product, b: Product)
  {
    Sorting.LexLeq(a.fields.productName, b.fields.productName)
  }

  lemma ByNameIsTotalPreorder()
    ensures Sorting.TotalPreorder(ByName)
  {
    forall a: Product, b: Product
      ensures ByName(a, b) || ByName(b, a)
    {
      Sorting.LexLeqTotal(a.fields.productName, b.fields.productName);
    }
    forall a: Product, b: Product, c: Product | ByName(a, b) && ByName(b, c)
      ensures ByName(a, c)
    {
      Sorting.LexLeqTransitive(a.fields.productName, b.fields.productName, c.fields.productName);
    }
  }

  /** The rows with identity in [1, n), ascending. */
  function RowsBelow(c: Catalog, n: int): (r: seq<Product>)
    ensures forall k :: 0 <= k < |r| ==> r[k].productId in c.rows && r[k].fields == c.rows[r[k].productId]
    ensures forall id :: id in c.rows && 1 <= id < n ==> Product(id, c.rows[id]) in r
    ensures forall k :: 0 <= k < |r| ==> r[k].productId < n
    ensures forall i, j :: 0 <= i < j < |r| ==> r[i].productId < r[j].productId
    decreases n
  {
    if n <= 1 then []
    else
      var prefix := RowsBelow(c, n - 1);
      if n - 1 in c.rows then prefix + [Product(n - 1, c.rows[n - 1])] else prefix
  }

  /** getAllProducts: every row exactly, by name ascending. */
  function GetAllProducts(c: Catalog): (r: seq<Product>)
    requires Valid(c)
    ensures forall p :: p in r <==> p.productId in c.rows && p.fields == c.rows[p.productId]
    ensures forall i, j :: 0 <= i < j < |r| ==> Sorting.LexLeq(r[i].fields.productName, r[j].fields.productName)
    ensures forall i, j :: 0 <= i < j < |r| ==> r[i].productId != r[j].productId
  {
    var rows := RowsBelow(c, c.nextProductId);
    ByNameIsTotalPreorder();
    var r := Sorting.InsertionSort(rows, ByName);
    forall p
      ensures p in r <==> p.productId in c.rows && p.fields == c.rows[p.productId]
    {
      Sorting.SortKeepsElements(rows, ByName, p);
    }
    assert Sorting.DistinctBy(rows, IdOf);
    Sorting.PermutationKeepsDistinctBy(rows, r, IdOf);
    r
  }

  /** getProductById: the matching row, or `null`. */
  function GetProductById(c: Catalog, id: ProductId): (r: Option<Product>)
    ensures r.None? <==> id !in c.rows
    ensures r.Some? ==> r.value == Product(id, c.rows[id])
  {
    if id in c.rows then Some(Product(id, c.rows[id])) else None
  }

  /** addProduct: inserts one row and returns its new identity. */
  function AddProduct(c: Catalog, fields: ProductFields): (r: (Catalog, ProductId))
    requires Valid(c)
    ensures Valid(r.0)
    ensures r.1 !in c.rows
    ensures r.0.rows == c.rows[r.1 := fields]
  {
    (Catalog(c.rows[c.nextProductId := fields], c.nextProductId + 1), c.nextProductId)
  }

  /** updateProductById: rewrites the name, price and unit of measure of the
      matching row; reports whether a row matched. */
  function UpdateProductById(c: Catalog, id: ProductId, fields: ProductFields): (r: (Catalog, bool))
    requires Valid(c)
    ensures Valid(r.0)
    ensures r.1 <==> id in c.rows
    ensures r.0.rows.Keys == c.rows.Keys
    ensures id in c.rows ==> r.0.rows[id] == fields
    ensures forall other :: other in c.rows && other != id ==> r.0.rows[other] == c.rows[other]
    ensures !r.1 ==> r.0 == c
  {
    if id in c.rows then (c.(rows := c.rows[id := fields]), true) else (c, false)
  }

  /** deleteProduct: removes the matching row; reports whether one was removed. */
  function DeleteProduct(c: Catalog, id: ProductId): (r: (Catalog, bool))
    requires Valid(c)
    ensures Valid(r.0)
    ensures r.1 <==> id in c.rows
    ensures r.0.rows.Keys == c.rows.Keys - {id}
    ensures forall other :: other in r.0.rows ==> r.0.rows[other] == c.rows[other]
    ensures !r.1 ==> r.0 == c
  {
    if id in c.rows then (c.(rows := c.rows - {id}), true) else (c, false)
  }
}
