/** The product controller: maps service errors to status codes by their
    message — an exact match for "Product not found" and a substring test for
    "required". */
module ProductController {
  import opened Wrappers
  import opened Db
  import opened JsText
  import opened ProductRepository
  import opened ProductService

  datatype Body =
    | MessageBody(message: string)
    | ProductListBody(message: string, products: seq<Product>)
    | ProductBody(message: string, product: Product)
    | CreatedBody(message: string, productId: ProductId)

  datatype Response = Response(status: int, body: Body)

  datatype Handled = Handled(catalog: Catalog, response: Response)

  const NotFoundMessage := "Product not found"

  /** The check the add and update handlers apply to a message. */
  predicate MentionsRequired(message: string)
  {
    Contains(message, "required")
  }

  /** The service's missing-field message is recognised as a validation error. */
  lemma RequiredMessageIsRecognised()
    ensures MentionsRequired(ProductService.Message(FieldsRequired))
    ensures !MentionsRequired(NotFoundMessage)
  {
    assert OccursAt(ProductService.Message(FieldsRequired), "required", 50);
    MissingCharExcludes(NotFoundMessage, "required", 2);
  }

  /** GET /products. */
  function GetAllProducts(c: Catalog, fault: Option<string>): (r: Response)
    requires Valid(c)
    ensures fault.None? ==> r == Response(200, ProductListBody("Products retrieved successfully", ProductRepository.GetAllProducts(c)))
    ensures fault.Some? ==> r == Response(500, MessageBody("Failed to retrieve products"))
  {
    match ProductService.GetAllProducts(c, fault)
    case Ok(products) => Response(200, ProductListBody("Products retrieved successfully", products))
    case Err(_) => Response(500, MessageBody("Failed to retrieve products"))
  }

  /** GET /products/:productId. */
  function GetProductById(c: Catalog, id: ProductId, fault: Option<string>): (r: Response)
    ensures fault.None? ==> (r.status == 404 <==> id !in c.rows)
    ensures r.status == 200 ==> id in c.rows && r.body == ProductBody("Product retrieved successfully", Product(id, c.rows[id]))
    ensures r.status == 404 ==> r.body == MessageBody(NotFoundMessage)
    ensures r.status == 500 ==> fault.Some? && r.body == MessageBody("Failed to retrieve product")
    ensures r.status in {200, 404, 500}
    ensures fault.Some? ==>
      r == (if fault.value == NotFoundMessage then Response(404, MessageBody(NotFoundMessage))
            else Response(500, MessageBody("Failed to retrieve product")))
  {
    match ProductService.GetProductById(c, id, fault)
    case Ok(p) => Response(200, ProductBody("Product retrieved successfully", p))
    case Err(e) =>
      if ProductService.Message(e) == NotFoundMessage then Response(404, MessageBody(ProductService.Message(e)))
      else Response(500, MessageBody("Failed to retrieve product"))
  }

  /** POST /products. */
  function AddProduct(c: Catalog, input: ProductInput, fault: Option<string>): (r: Handled)
    requires Valid(c)
    ensures Valid(r.catalog)
    ensures r.response.status in {201, 400, 500}
    ensures r.response.status != 201 ==> r.catalog == c
    ensures r.response.status == 201 <==> !MissingField(input) && fault.None?
    ensures r.response.status == 201 ==>
      && r.response.body.CreatedBody?
      && r.response.body.message == "Product created successfully"
      && r.response.body.productId !in c.rows
      && r.catalog.rows == c.rows[r.response.body.productId := FieldsOf(input)]
    ensures fault.None? || !MentionsRequired(fault.value) ==> (r.response.status == 400 <==> MissingField(input))
    ensures MissingField(input) ==>
      r.response == Response(400, MessageBody("Product name, unit price, and unit of measure are required"))
    ensures r.response.status == 500 ==> r.response.body == MessageBody("Product creation failed")
  {
    RequiredMessageIsRecognised();
    var tx := ProductService.AddProduct(c, input, fault);
    match tx.outcome
    case Ok(id) => Handled(tx.catalog, Response(201, CreatedBody("Product created successfully", id)))
    case Err(e) =>
      if MentionsRequired(ProductService.Message(e)) then Handled(c, Response(400, MessageBody(ProductService.Message(e))))
      else Handled(c, Response(500, MessageBody("Product creation failed")))
  }

  /** A body with a falsy required property is answered 400 and inserts nothing. */
  lemma AddMissingFieldIs400(c: Catalog, input: ProductInput, fault: Option<string>)
    requires Valid(c) && MissingField(input)
    ensures AddProduct(c, input, fault) ==
      Handled(c, Response(400, MessageBody("Product name, unit price, and unit of measure are required")))
  {
    RequiredMessageIsRecognised();
  }

  /** PUT /products/:productId. */
  function UpdateProduct(c: Catalog, id: ProductId, input: ProductInput, fault: Option<Fault>): (r: Handled)
    requires Valid(c)
    ensures Valid(r.catalog)
    ensures r.response.status in {200, 400, 404, 500}
    ensures r.response.status != 200 ==> r.catalog == c
    ensures r.response.status == 200 <==>
      id in c.rows && !MissingField(input) && !FailsAt(fault, 0) && !FailsAt(fault, 1)
    ensures r.response.status == 200 ==>
      r.response.body == MessageBody("Product updated successfully") && r.catalog.rows == c.rows[id := FieldsOf(input)]
    ensures !FailsAt(fault, 0) && id !in c.rows ==> r.response == Response(404, MessageBody(NotFoundMessage))
    ensures !FailsAt(fault, 0) && id in c.rows && MissingField(input) ==>
      r.response == Response(400, MessageBody("Product name, unit price, and unit of measure are required"))
    ensures r.response.status == 404 ==> r.response.body == MessageBody(NotFoundMessage)
    ensures r.response.status == 500 ==> r.response.body == MessageBody("Product update failed")
    ensures fault.Some? && fault.value.message != NotFoundMessage && !MentionsRequired(fault.value.message)
            && (FailsAt(fault, 0) || (id in c.rows && !MissingField(input) && FailsAt(fault, 1))) ==>
      r == Handled(c, Response(500, MessageBody("Product update failed")))
  {
    RequiredMessageIsRecognised();
    var tx := ProductService.UpdateProduct(c, id, input, fault);
    match tx.outcome
    case Ok(_) => Handled(tx.catalog, Response(200, MessageBody("Product updated successfully")))
    case Err(e) =>
      if ProductService.Message(e) == NotFoundMessage then Handled(c, Response(404, MessageBody(ProductService.Message(e))))
      else if MentionsRequired(ProductService.Message(e)) then Handled(c, Response(400, MessageBody(ProductService.Message(e))))
      else Handled(c, Response(500, MessageBody("Product update failed")))
  }

  /** Updating an absent product with missing fields answers 404, not 400,
      because existence is checked first. */
  lemma UpdateAbsentWithBadFieldsIs404(c: Catalog, id: ProductId, input: ProductInput, fault: Option<Fault>)
    requires Valid(c) && id !in c.rows && MissingField(input) && !FailsAt(fault, 0)
    ensures UpdateProduct(c, id, input, fault) == Handled(c, Response(404, MessageBody("Product not found")))
  {
  }

  /** "Failed to update product" mentions neither "not found" nor "required",
      so it would be answered 500. */
  lemma UpdateFailedIs500()
    ensures ProductService.Message(UpdateFailed) != NotFoundMessage
    ensures !MentionsRequired(ProductService.Message(UpdateFailed))
  {
    MissingCharExcludes(ProductService.Message(UpdateFailed), "required", 2);
  }

  /** DELETE /products/:productId. */
  function DeleteProduct(c: Catalog, id: ProductId, fault: Option<Fault>): (r: Handled)
    requires Valid(c)
    ensures Valid(r.catalog)
    ensures r.response.status != 200 ==> r.catalog == c
    ensures !FailsAt(fault, 0) && id !in c.rows ==> r == Handled(c, Response(404, MessageBody(NotFoundMessage)))
    ensures r.response.status == 200 ==> r.catalog.rows == c.rows - {id} && id in c.rows
    ensures r.response.status in {200, 404, 500}
    ensures r.response.status == 500 ==> r.response.body == MessageBody("Product deletion failed")
    ensures r.response.status == 200 <==> id in c.rows && !FailsAt(fault, 0) && !FailsAt(fault, 1)
    ensures r.response.status == 200 ==> r.response.body == MessageBody("Product deleted successfully")
    ensures fault.Some? && fault.value.message != NotFoundMessage
            && (FailsAt(fault, 0) || (id in c.rows && FailsAt(fault, 1))) ==>
      r == Handled(c, Response(500, MessageBody("Product deletion failed")))
  {
    var tx := ProductService.DeleteProduct(c, id, fault);
    match tx.outcome
    case Ok(_) => Handled(tx.catalog, Response(200, MessageBody("Product deleted successfully")))
    case Err(e) =>
      if ProductService.Message(e) == NotFoundMessage then Handled(c, Response(404, MessageBody(ProductService.Message(e))))
      else Handled(c, Response(500, MessageBody("Product deletion failed")))
  }
}
