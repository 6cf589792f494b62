/** The product service: existence checks, the required-field check and the
    errors the controller turns into status codes. */
module ProductService {
  import opened Wrappers
  import opened Db
  import opened ProductRepository

  /** The request body. A missing property is `None`. */
  datatype ProductInput = ProductInput(productName: Option<string>, unitPrice: Option<int>, unitOfMeasure: Option<string>)

  datatype ProductError =
    | ProductNotFound
    | FieldsRequired
    | UpdateFailed
    | DbFailure(dbMessage: string)

  /** The `message` of the thrown error. */
  function Message(e: ProductError): string
  {
    match e
    case ProductNotFound => "Product not found"
    case FieldsRequired => "Product name, unit price, and unit of measure are required"
    case UpdateFailed => "Failed to update product"
    case DbFailure(m) => m
  }

  /** The catalogue after the call and what the call returned or threw. */
  datatype ProductTx<T> = ProductTx(catalog: Catalog, outcome: Result<T, ProductError>)

  /** JavaScript falsiness of the three required properties: absent, the empty
      string, or the number 0. */
  predicate FalsyText(v: Option<string>) { v.None? || v.value == "" }
  predicate FalsyNumber(v: Option<int>) { v.None? || v.value == 0 }

  predicate MissingField(input: ProductInput)
  {
    FalsyText(input.productName) || FalsyNumber(input.unitPrice) || FalsyText(input.unitOfMeasure)
  }

  function FieldsOf(input: ProductInput): ProductFields
    requires !MissingField(input)
  {
    ProductFields(input.productName.value, input.unitPrice.value, input.unitOfMeasure.value)
  }

  /** getAllProducts: the repository's list unchanged. */
  function GetAllProducts(c: Catalog, fault: Option<string>): (r: Result<seq<Product>, ProductError>)
    requires Valid(c)
    ensures fault.None? ==> r == Ok(ProductRepository.GetAllProducts(c))
    ensures fault.Some? ==> r == Err(DbFailure(fault.value))
  {
    if fault.Some? then Err(DbFailure(fault.value)) else Ok(ProductRepository.GetAllProducts(c))
  }

  /** getProductById: a `null` row becomes "Product not found". */
  function GetProductById(c: Catalog, id: ProductId, fault: Option<string>): (r: Result<Product, ProductError>)
    ensures fault.None? ==> (r == Err(ProductNotFound) <==> id !in c.rows)
    ensures r.Ok? ==> id in c.rows && r.value == Product(id, c.rows[id])
    ensures fault.Some? ==> r == Err(DbFailure(fault.value))
  {
    if fault.Some? then Err(DbFailure(fault.value))
    else
      match ProductRepository.GetProductById(c, id)
      case None => Err(ProductNotFound)
      case Some(p) => Ok(p)
  }

  /** addProduct: rejects a falsy name, price or unit of measure before any
      database work; otherwise inserts and returns the new id. */
  function AddProduct(c: Catalog, input: ProductInput, fault: Option<string>): (r: ProductTx<ProductId>)
    requires Valid(c)
    ensures Valid(r.catalog)
    ensures MissingField(input) ==> r == ProductTx(c, Err(FieldsRequired))
    ensures r.outcome.Err? ==> r.catalog == c
    ensures r.outcome.Ok? <==> !MissingField(input) && fault.None?
    ensures r.outcome.Ok? ==>
      r.outcome.value !in c.rows && r.catalog.rows == c.rows[r.outcome.value := FieldsOf(input)]
  {
    if MissingField(input) then ProductTx(c, Err(FieldsRequired))
    else if fault.Some? then ProductTx(c, Err(DbFailure(fault.value)))
    else
      var (c', id) := ProductRepository.AddProduct(c, FieldsOf(input));
      ProductTx(c', Ok(id))
  }

  /** updateProduct: statement 0 looks the product up, statement 1 updates it.
      The existence check comes before the field check. */
  function UpdateProduct(c: Catalog, id: ProductId, input: ProductInput, fault: Option<Fault>): (r: ProductTx<bool>)
    requires Valid(c)
    ensures Valid(r.catalog)
    ensures r.outcome.Err? ==> r.catalog == c
    ensures !FailsAt(fault, 0) && id !in c.rows ==> r.outcome == Err(ProductNotFound)
    ensures !FailsAt(fault, 0) && id in c.rows && MissingField(input) ==> r.outcome == Err(FieldsRequired)
    ensures r.outcome.Ok? <==> id in c.rows && !MissingField(input) && !FailsAt(fault, 0) && !FailsAt(fault, 1)
    ensures r.outcome.Ok? ==>
      && r.outcome.value
      && r.catalog.rows == c.rows[id := FieldsOf(input)]
  {
    if FailsAt(fault, 0) then ProductTx(c, Err(DbFailure(fault.value.message)))
    else if ProductRepository.GetProductById(c, id).None? then ProductTx(c, Err(ProductNotFound))
    else if MissingField(input) then ProductTx(c, Err(FieldsRequired))
    else if FailsAt(fault, 1) then ProductTx(c, Err(DbFailure(fault.value.message)))
    else
      var (c', updated) := ProductRepository.UpdateProductById(c, id, FieldsOf(input));
      if !updated then ProductTx(c, Err(UpdateFailed)) else ProductTx(c', Ok(updated))
  }

  /** Within one call the existence check and the update see the same table,
      so "Failed to update product" is never raised. */
  lemma UpdateNeverReportsNoRowUpdated(c: Catalog, id: ProductId, input: ProductInput, fault: Option<Fault>)
    requires Valid(c)
    ensures UpdateProduct(c, id, input, fault).outcome != Err(UpdateFailed)
  {
  }

  /** deleteProduct: statement 0 looks the product up, statement 1 deletes it. */
  function DeleteProduct(c: Catalog, id: ProductId, fault: Option<Fault>): (r: ProductTx<bool>)
    requires Valid(c)
    ensures Valid(r.catalog)
    ensures r.outcome.Err? ==> r.catalog == c
    ensures !FailsAt(fault, 0) && id !in c.rows ==> r.outcome == Err(ProductNotFound)
    ensures r.outcome.Ok? <==> id in c.rows && !FailsAt(fault, 0) && !FailsAt(fault, 1)
    ensures r.outcome.Ok? ==> r.outcome.value && r.catalog.rows == c.rows - {id}
  {
    if FailsAt(fault, 0) then ProductTx(c, Err(DbFailure(fault.value.message)))
    else if ProductRepository.GetProductById(c, id).None? then ProductTx(c, Err(ProductNotFound))
    else if FailsAt(fault, 1) then ProductTx(c, Err(DbFailure(fault.value.message)))
    else
      var (c', deleted) := ProductRepository.DeleteProduct(c, id);
      ProductTx(c', Ok(deleted))
  }
}
