/** The stock transfers page: choosing a catalogue product and showing a
    fixed per-branch stock table for it, with a level badge and a text. */
module StockTransfersPage {
  import opened Wrappers
  import JsText
  import ProductRepository

  datatype Branch = Branch(id: int, name: string)

  const Branches: seq<Branch> := [
    Branch(10, "Jaffna"), Branch(2, "Trincomalee"), Branch(3, "Galle"), Branch(4, "Colombo"), Branch(5, "Kandy")]

  /** The demonstration stock, by branch id, shown for every product. */
  const DemoInventory: map<int, int> := map[10 := 150, 2 := 200, 3 := 85, 4 := 320, 5 := 110]

  /** `inventory[branch.id] || 0`. */
  function QuantityFor(inventory: map<int, int>, branchId: int): (r: int)
    ensures branchId !in inventory ==> r == 0
    ensures branchId in inventory ==> r == inventory[branchId]
  {
    if branchId in inventory && inventory[branchId] != 0 then inventory[branchId] else 0
  }

  lemma EveryBranchStocked()
    ensures forall i :: 0 <= i < |Branches| ==> Branches[i].id in DemoInventory
  {
  }

  datatype Level = Success | Warning | Danger | Secondary

  /** The badge colour. */
  function LevelOf(q: int): (r: Level)
    ensures r == Success <==> q > 150
    ensures r == Warning <==> 75 < q <= 150
    ensures r == Danger <==> 0 < q <= 75
    ensures r == Secondary <==> q <= 0
  {
    if q > 150 then Success else if q > 75 then Warning else if q > 0 then Danger else Secondary
  }

  /** The stock text. */
  function StockText(q: int): (r: string)
    ensures q == 0 ==> r == "Out of stock"
    ensures q != 0 && q < 75 ==> r == "Low stock"
    ensures q >= 75 ==> r == "Adequate stock"
  {
    if q == 0 then "Out of stock" else if q < 75 then "Low stock" else "Adequate stock"
  }

  /** The two scales use different cut-offs: exactly 75 units shows the
      danger colour next to "Adequate stock". */
  lemma SeventyFiveIsAmbiguous()
    ensures LevelOf(75) == Danger && StockText(75) == "Adequate stock"
  {
  }

  /** Apart from 75, a danger badge always says "Low stock" and a warning or
      success badge "Adequate stock". */
  lemma LevelAndTextAgreeElsewhere(q: int)
    requires q >= 0 && q != 75
    ensures LevelOf(q) == Danger ==> StockText(q) == "Low stock"
    ensures LevelOf(q) in {Warning, Success} ==> StockText(q) == "Adequate stock"
    ensures LevelOf(q) == Secondary <==> StockText(q) == "Out of stock"
  {
  }

  /** The rounded percentage label, `Math.round(q / 300 * 100)`, for a
      non-negative quantity. */
  function PercentLabel(q: nat): (r: nat)
    ensures 3 * r <= q + 1 && q <= 3 * r + 1
  {
    (q + 1) / 3
  }

  datatype TransferState = TransferState(
    products: seq<ProductRepository.Product>,
    selectedProductId: string,
    selected: Option<ProductRepository.Product>,
    loading: bool,
    error: string)

  /** The first product whose decimal id is the chosen option's value. */
  function Find(products: seq<ProductRepository.Product>, chosen: string): (r: Option<ProductRepository.Product>)
    ensures r.Some? ==> r.value in products && JsText.IntString(r.value.productId) == chosen
    ensures r.None? ==> forall i :: 0 <= i < |products| ==> JsText.IntString(products[i].productId) != chosen
  {
    if products == [] then None
    else if JsText.IntString(products[0].productId) == chosen then Some(products[0])
    else Find(products[1..], chosen)
  }

  /** handleSearch: no choice is refused; a choice not in the list clears
      the table with "Product not found". */
  function Search(st: TransferState): (r: TransferState)
    ensures r.products == st.products && r.selectedProductId == st.selectedProductId
    ensures st.selectedProductId == "" ==> r == st.(error := "Please select a product")
    ensures st.selectedProductId != "" ==>
      r.selected == Find(st.products, st.selectedProductId)
      && (r.selected.Some? ==> r.error == "")
      && (r.selected.None? ==> r.error == "Product not found")
  {
    if st.selectedProductId == "" then st.(error := "Please select a product")
    else
      match Find(st.products, st.selectedProductId)
      case Some(p) => st.(selected := Some(p), error := "")
      case None => st.(selected := None, error := "Product not found")
  }

  /** Choosing a listed product always finds it. */
  lemma ListedProductFound(st: TransferState, i: int)
    requires 0 <= i < |st.products|
    requires st.selectedProductId == JsText.IntString(st.products[i].productId)
    ensures Search(st).selected.Some? && Search(st).error == ""
  {
  }

  /** handleReset. */
  function Reset(st: TransferState): (r: TransferState)
    ensures r.selectedProductId == "" && r.selected.None? && r.error == "" && r.products == st.products
  {
    st.(selectedProductId := "", selected := None, error := "")
  }
}
