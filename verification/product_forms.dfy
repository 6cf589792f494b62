/** The add-product and edit-product forms: field edits, the client-side
    validation chain, and what each page does with the server's answer. */
module ProductForms {
  import opened Wrappers
  import JsText
  import ProductRepository
  import ProductService

  /** The form fields. The price is a number input: `None` when empty,
      otherwise its value in the smallest currency unit. */
  datatype ProductForm = ProductForm(productName: string, unitPrice: Option<int>, unitOfMeasure: string)

  const EmptyForm := ProductForm("", None, "")

  /** One `onChange` event, named by the input that fired it. */
  datatype Edit = NameEdit(name: string) | PriceEdit(price: Option<int>) | UnitEdit(unit: string)

  function Apply(form: ProductForm, e: Edit): (r: ProductForm)
    ensures e.NameEdit? ==> r == form.(productName := e.name)
    ensures e.PriceEdit? ==> r == form.(unitPrice := e.price)
    ensures e.UnitEdit? ==> r == form.(unitOfMeasure := e.unit)
  {
    match e
    case NameEdit(n) => form.(productName := n)
    case PriceEdit(p) => form.(unitPrice := p)
    case UnitEdit(u) => form.(unitOfMeasure := u)
  }

  const NameRequired := "Product name is required"
  const PriceNotPositive := "Unit price must be greater than 0"
  const UnitRequired := "Unit of measure is required"

  predicate PriceInvalid(p: Option<int>) { p.None? || p.value <= 0 }

  /** The validation chain both pages run before sending: the first failing
      check's message, or none. */
  function Validate(form: ProductForm): (r: Option<string>)
    ensures r.None? <==>
      !JsText.IsBlank(form.productName) && !PriceInvalid(form.unitPrice) && !JsText.IsBlank(form.unitOfMeasure)
    ensures JsText.IsBlank(form.productName) ==> r == Some(NameRequired)
    ensures !JsText.IsBlank(form.productName) && PriceInvalid(form.unitPrice) ==> r == Some(PriceNotPositive)
    ensures !JsText.IsBlank(form.productName) && !PriceInvalid(form.unitPrice) && JsText.IsBlank(form.unitOfMeasure) ==>
      r == Some(UnitRequired)
  {
    if JsText.IsBlank(form.productName) then Some(NameRequired)
    else if PriceInvalid(form.unitPrice) then Some(PriceNotPositive)
    else if JsText.IsBlank(form.unitOfMeasure) then Some(UnitRequired)
    else None
  }

  /** The request body: the fields exactly as typed (not trimmed). */
  function AsInput(form: ProductForm): (r: ProductService.ProductInput)
    ensures r.productName == Some(form.productName) && r.unitOfMeasure == Some(form.unitOfMeasure)
    ensures r.unitPrice == form.unitPrice
  {
    ProductService.ProductInput(Some(form.productName), form.unitPrice, Some(form.unitOfMeasure))
  }

  /** A form the page accepts also passes the server's presence check, and
      the stored fields are the typed ones. */
  lemma AcceptedFormPassesServer(form: ProductForm)
    requires Validate(form).None?
    ensures !ProductService.MissingField(AsInput(form))
    ensures ProductService.FieldsOf(AsInput(form))
      == ProductRepository.ProductFields(form.productName, form.unitPrice.value, form.unitOfMeasure)
  {
  }

  /** The server accepts a blank name the page refuses: the checks differ. */
  lemma ServerAcceptsBlankName()
    ensures !ProductService.MissingField(AsInput(ProductForm(" ", Some(100), "kg")))
    ensures Validate(ProductForm(" ", Some(100), "kg")) == Some(NameRequired)
  {
    assert JsText.IsBlank(" ") by {
      assert JsText.IsSpace(" "[0]);
    }
  }

  /** What the send came back with: success, or the thrown value's `message`. */
  datatype Reply = Accepted | Refused(message: Option<string>)

  /** The add page. */
  datatype AddState = AddState(form: ProductForm, loading: bool, error: string, success: string, redirect: Option<string>)

  const AddInitial := AddState(EmptyForm, false, "", "", None)

  /** handleChange: the field changes and the error is cleared. The edit page's
      handleChange is the same code, so this function stands for both. */
  function AddChange(st: AddState, e: Edit): (r: AddState)
    ensures r.form == Apply(st.form, e) && r.error == ""
    ensures r.success == st.success && r.loading == st.loading && r.redirect == st.redirect
  {
    st.(form := Apply(st.form, e), error := "")
  }

  /** The first half of handleSubmit: the validation message, or the request. */
  function AddSubmit(st: AddState): (r: (AddState, Option<ProductService.ProductInput>))
    ensures r.1.Some? <==> Validate(st.form).None?
    ensures r.1.Some? ==> r.1.value == AsInput(st.form) && r.0.loading && r.0.error == "" && r.0.success == ""
    ensures r.1.None? ==> r.0 == st.(error := Validate(st.form).value, success := "", loading := false)
    ensures r.0.form == st.form
  {
    match Validate(st.form)
    case Some(message) => (st.(error := message, success := "", loading := false), None)
    case None => (st.(loading := true, error := "", success := ""), Some(AsInput(st.form)))
  }

  /** The second half: success clears the form and schedules a return to the
      product list; failure keeps the form. */
  function AddFinish(st: AddState, reply: Reply): (r: AddState)
    ensures !r.loading
    ensures reply.Accepted? ==>
      r.form == EmptyForm && r.redirect == Some("/products")
      && r.success == "Product \"" + st.form.productName + "\" added successfully!"
    ensures reply.Refused? ==>
      r.form == st.form && r.redirect == st.redirect && r.error == JsText.ErrorText(reply.message, "Failed to add product")
  {
    match reply
    case Accepted =>
      st.(form := EmptyForm, loading := false, redirect := Some("/products"),
          success := "Product \"" + st.form.productName + "\" added successfully!")
    case Refused(message) => st.(error := JsText.ErrorText(message, "Failed to add product"), loading := false)
  }

  /** The edit page. */
  datatype EditState = EditState(form: ProductForm, loading: bool, submitting: bool, error: string, success: string,
                                 redirect: Option<string>)

  /** The form filled from a product read. */
  function FormOf(p: ProductRepository.Product): (r: ProductForm)
    ensures AsInput(r) == ProductService.ProductInput(Some(p.fields.productName), Some(p.fields.unitPrice),
                                                      Some(p.fields.unitOfMeasure))
  {
    ProductForm(p.fields.productName, Some(p.fields.unitPrice), p.fields.unitOfMeasure)
  }

  /** Saving an untouched, valid form writes back exactly the fields read. */
  lemma UntouchedFormRoundTrips(p: ProductRepository.Product)
    requires Validate(FormOf(p)).None?
    ensures !ProductService.MissingField(AsInput(FormOf(p)))
    ensures ProductService.FieldsOf(AsInput(FormOf(p))) == p.fields
  {
    AcceptedFormPassesServer(FormOf(p));
  }

  /** fetchProductDetails: the product's fields, or an error over an empty form. */
  function EditLoad(reply: Result<ProductRepository.Product, Option<string>>): (r: EditState)
    ensures !r.loading && !r.submitting
    ensures reply.Ok? ==> r.form == FormOf(reply.value) && r.error == ""
    ensures reply.Err? ==> r.form == EmptyForm && r.error == JsText.ErrorText(reply.error, "Failed to load product details")
  {
    match reply
    case Ok(p) => EditState(FormOf(p), false, false, "", "", None)
    case Err(message) => EditState(EmptyForm, false, false, JsText.ErrorText(message, "Failed to load product details"), "", None)
  }

  /** A failed load leaves a form the page refuses to send. */
  lemma FailedLoadCannotSubmit(message: Option<string>)
    ensures Validate(EditLoad(Err(message)).form) == Some(NameRequired)
  {
  }

  function EditSubmit(st: EditState): (r: (EditState, Option<ProductService.ProductInput>))
    ensures r.1.Some? <==> Validate(st.form).None?
    ensures r.1.Some? ==> r.1.value == AsInput(st.form) && r.0.submitting && r.0.error == "" && r.0.success == ""
    ensures r.1.None? ==> r.0 == st.(error := Validate(st.form).value, success := "", submitting := false)
    ensures r.0.form == st.form
  {
    match Validate(st.form)
    case Some(message) => (st.(error := message, success := "", submitting := false), None)
    case None => (st.(submitting := true, error := "", success := ""), Some(AsInput(st.form)))
  }

  /** Unlike the add page, a successful edit keeps the form as it is. */
  function EditFinish(st: EditState, reply: Reply): (r: EditState)
    ensures !r.submitting && r.form == st.form
    ensures reply.Accepted? ==>
      r.redirect == Some("/products") && r.success == "Product \"" + st.form.productName + "\" updated successfully!"
    ensures reply.Refused? ==> r.redirect == st.redirect && r.error == JsText.ErrorText(reply.message, "Failed to update product")
  {
    match reply
    case Accepted =>
      st.(submitting := false, redirect := Some("/products"),
          success := "Product \"" + st.form.productName + "\" updated successfully!")
    case Refused(message) => st.(error := JsText.ErrorText(message, "Failed to update product"), submitting := false)
  }
}
