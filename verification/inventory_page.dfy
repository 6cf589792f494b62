/** The inventory entry page: a branch, a date, a product and a quantity,
    validated in order and acknowledged with a summary line. Nothing is
    stored. */
module InventoryPage {
  import opened Wrappers
  import JsText
  import ProductRepository

  datatype Branch = Branch(id: int, name: string)

  const Branches: seq<Branch> := [
    Branch(1, "Jaffna"), Branch(2, "Trincomalee"), Branch(3, "Galle"), Branch(4, "Colombo"), Branch(5, "Kandy")]

  datatype Message = Message(kind: string, text: string)

  const NoMessage := Message("", "")

  /** The form: the select values and date as strings; the quantity input
      as its value (`None` when empty). */
  datatype EntryState = EntryState(
    branchId: string,
    date: string,
    productId: string,
    quantity: Option<int>,
    products: seq<ProductRepository.Product>,
    msg: Message)

  /** The validation chain of handleSubmit. */
  function Validate(st: EntryState): (r: Message)
    ensures r == NoMessage <==>
      st.branchId != "" && st.date != "" && st.productId != "" && st.quantity.Some? && st.quantity.value > 0
    ensures st.branchId == "" ==> r == Message("danger", "Please select a branch.")
    ensures st.branchId != "" && st.date == "" ==> r == Message("danger", "Please select a date.")
    ensures st.branchId != "" && st.date != "" && st.productId == "" ==> r == Message("danger", "Please select a product.")
    ensures st.branchId != "" && st.date != "" && st.productId != "" && (st.quantity.None? || st.quantity.value <= 0) ==>
      r == Message("danger", "Please enter a valid quantity.")
  {
    if st.branchId == "" then Message("danger", "Please select a branch.")
    else if st.date == "" then Message("danger", "Please select a date.")
    else if st.productId == "" then Message("danger", "Please select a product.")
    else if st.quantity.None? || st.quantity.value <= 0 then Message("danger", "Please enter a valid quantity.")
    else NoMessage
  }

  /** The branch's name, or the raw value when no branch has that id. */
  function BranchName(branchId: string): (r: string)
    ensures (exists i :: 0 <= i < |Branches| && JsText.IntString(Branches[i].id) == branchId) ==>
      exists i :: 0 <= i < |Branches| && JsText.IntString(Branches[i].id) == branchId && r == Branches[i].name
    ensures (forall i :: 0 <= i < |Branches| ==> JsText.IntString(Branches[i].id) != branchId) ==> r == branchId
  {
    assert forall i :: 0 <= i < |Branches| ==> Branches[i].name != "";
    BranchNameIn(Branches, branchId)
  }

  function BranchNameIn(branches: seq<Branch>, branchId: string): (r: string)
    ensures (exists i :: 0 <= i < |branches| && JsText.IntString(branches[i].id) == branchId) ==>
      exists i :: 0 <= i < |branches| && JsText.IntString(branches[i].id) == branchId
        && (forall j :: 0 <= j < i ==> JsText.IntString(branches[j].id) != branchId)
        && r == (if branches[i].name != "" then branches[i].name else branchId)
    ensures (forall i :: 0 <= i < |branches| ==> JsText.IntString(branches[i].id) != branchId) ==> r == branchId
  {
    if branches == [] then branchId
    else if JsText.IntString(branches[0].id) == branchId && branches[0].name != "" then branches[0].name
    else if JsText.IntString(branches[0].id) == branchId then branchId
    else
      var r := BranchNameIn(branches[1..], branchId);
      assert forall i :: 0 <= i < |branches[1..]| ==> branches[1..][i] == branches[i + 1];
      r
  }

  /** The product's name, or the raw value when it is not listed or unnamed. */
  function ProductLabel(products: seq<ProductRepository.Product>, productId: string): (r: string)
    ensures (exists i :: 0 <= i < |products| && JsText.IntString(products[i].productId) == productId) ==>
      exists i :: 0 <= i < |products| && JsText.IntString(products[i].productId) == productId
        && (forall j :: 0 <= j < i ==> JsText.IntString(products[j].productId) != productId)
        && r == (if products[i].fields.productName != "" then products[i].fields.productName else productId)
    ensures (forall i :: 0 <= i < |products| ==> JsText.IntString(products[i].productId) != productId) ==> r == productId
  {
    if products == [] then productId
    else if JsText.IntString(products[0].productId) == productId then
      (if products[0].fields.productName != "" then products[0].fields.productName else productId)
    else
      var r := ProductLabel(products[1..], productId);
      assert forall i :: 0 <= i < |products[1..]| ==> products[1..][i] == products[i + 1];
      r
  }

  /** handleSubmit: a validation message, or the summary. */
  function Submit(st: EntryState): (r: EntryState)
    ensures r.branchId == st.branchId && r.date == st.date && r.productId == st.productId && r.quantity == st.quantity
    ensures Validate(st) != NoMessage ==> r.msg == Validate(st)
    ensures Validate(st) == NoMessage ==>
      r.msg == Message("success", "Saved: " + BranchName(st.branchId) + " | " + st.date + " | "
                                  + ProductLabel(st.products, st.productId) + " | Qty: "
                                  + JsText.IntString(st.quantity.value))
  {
    var problem := Validate(st);
    if problem != NoMessage then st.(msg := problem)
    else st.(msg := Message("success", "Saved: " + BranchName(st.branchId) + " | " + st.date + " | "
                                       + ProductLabel(st.products, st.productId) + " | Qty: "
                                       + JsText.IntString(st.quantity.value)))
  }

  /** handleReset: the entries and message are cleared; the product list stays. */
  function Reset(st: EntryState): (r: EntryState)
    ensures r.branchId == "" && r.date == "" && r.productId == "" && r.quantity.None? && r.msg == NoMessage
    ensures r.products == st.products
    ensures Validate(r) == Message("danger", "Please select a branch.")
  {
    EntryState("", "", "", None, st.products, NoMessage)
  }
}
