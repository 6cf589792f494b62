/** The product browsing page: the catalogue list and its name search. */
module BrowseProductsPage {
  import opened Wrappers
  import JsText
  import ProductRepository

  type Product = ProductRepository.Product

  function NameOf(p: Product): string { p.fields.productName }

  /** The search test of one product: its lower-cased name contains the
      lower-cased term. */
  predicate Matches(p: Product, term: string)
  {
    JsText.Contains(JsText.ToLower(NameOf(p)), JsText.ToLower(term))
  }

  /** `sub` is `s` with some elements dropped and the rest kept in order. */
  predicate IsSubsequence(sub: seq<Product>, s: seq<Product>)
    decreases |s|
  {
    if sub == [] then true
    else if s == [] then false
    else (sub[0] == s[0] && IsSubsequence(sub[1..], s[1..])) || IsSubsequence(sub, s[1..])
  }

  lemma {:induction false} SubsequenceOfItself(s: seq<Product>)
    ensures IsSubsequence(s, s)
  {
    if s != [] {
      SubsequenceOfItself(s[1..]);
    }
  }

  /** filterProducts: a blank term shows every product; otherwise the
      matching ones, in list order. The term itself is not trimmed. */
  function Filter(products: seq<Product>, term: string): (r: seq<Product>)
    ensures JsText.IsBlank(term) ==> r == products
    ensures !JsText.IsBlank(term) ==> forall p :: p in r <==> p in products && Matches(p, term)
    ensures |r| <= |products|
    ensures IsSubsequence(r, products)
  {
    SubsequenceOfItself(products);
    if JsText.IsBlank(term) then products else Matching(products, term)
  }

  function Matching(products: seq<Product>, term: string): (r: seq<Product>)
    ensures forall p :: p in r <==> p in products && Matches(p, term)
    ensures |r| <= |products|
    ensures IsSubsequence(r, products)
  {
    if products == [] then []
    else
      var rest := Matching(products[1..], term);
      if Matches(products[0], term) then
        assert ([products[0]] + rest)[1..] == rest;
        [products[0]] + rest
      else rest
  }

  lemma {:induction false} MatchingAppend(a: seq<Product>, b: seq<Product>, term: string)
    ensures Matching(a + b, term) == Matching(a, term) + Matching(b, term)
  {
    if a == [] {
      assert a + b == b;
    } else {
      assert (a + b)[1..] == a[1..] + b;
      MatchingAppend(a[1..], b, term);
    }
  }

  /** Searching the search results again changes nothing. */
  lemma {:induction false} MatchingIdempotent(products: seq<Product>, term: string)
    ensures Matching(Matching(products, term), term) == Matching(products, term)
  {
    if products != [] {
      var head := if Matches(products[0], term) then [products[0]] else [];
      MatchingAppend(head, Matching(products[1..], term), term);
      MatchingIdempotent(products[1..], term);
    }
  }

  lemma FilterIdempotent(products: seq<Product>, term: string)
    ensures Filter(Filter(products, term), term) == Filter(products, term)
  {
    if !JsText.IsBlank(term) {
      MatchingIdempotent(products, term);
    }
  }

  /** The search ignores ASCII case: "MILK" finds "Milk Powder". */
  lemma SearchIgnoresCase(id: int, price: int, unit: string)
    ensures var p := ProductRepository.Product(id, ProductRepository.ProductFields("Milk Powder", price, unit));
      Filter([p], "MILK") == [p]
  {
    var p := ProductRepository.Product(id, ProductRepository.ProductFields("Milk Powder", price, unit));
    var name := JsText.ToLower("Milk Powder");
    var term := JsText.ToLower("MILK");
    assert name[..4] == "milk";
    assert term == "milk";
    assert JsText.OccursAt(name, term, 0);
    assert !JsText.IsBlank("MILK") by {
      assert !JsText.IsSpace("MILK"[0]);
    }
  }

  /** Surrounding spaces are part of the term: " milk" does not find "Milk". */
  lemma SearchTermIsNotTrimmed(id: int, price: int, unit: string)
    ensures var p := ProductRepository.Product(id, ProductRepository.ProductFields("Milk", price, unit));
      Filter([p], " milk") == []
  {
    var p := ProductRepository.Product(id, ProductRepository.ProductFields("Milk", price, unit));
    var name := JsText.ToLower("Milk");
    var term := JsText.ToLower(" milk");
    assert term[0] == ' ';
    JsText.MissingCharExcludes(name, term, 0);
    assert !JsText.IsBlank(" milk") by {
      assert !JsText.IsSpace(" milk"[1]);
    }
  }

  datatype BrowseState = BrowseState(products: seq<Product>, searchTerm: string, loading: bool, error: string)

  const Initial := BrowseState([], "", false, "")

  /** The list shown: the filter effect re-runs whenever the term or the list changes. */
  function Shown(st: BrowseState): (r: seq<Product>)
    ensures forall p :: p in r ==> p in st.products
  {
    Filter(st.products, st.searchTerm)
  }

  /** The end of fetchProducts: the response's `products` (or none), or the
      thrown value's `message`. */
  function FinishFetch(st: BrowseState, reply: Result<Option<seq<Product>>, Option<string>>): (r: BrowseState)
    ensures !r.loading && r.searchTerm == st.searchTerm
    ensures reply.Ok? ==> r.products == (if reply.value.Some? then reply.value.value else [])
    ensures reply.Err? ==> r.products == st.products && r.error == JsText.ErrorText(reply.error, "Failed to load products")
  {
    match reply
    case Ok(data) => st.(products := if data.Some? then data.value else [], loading := false)
    case Err(message) =>
      st.(error := JsText.ErrorText(message, "Failed to load products"),
          loading := false)
  }

  /** handleAddToCart only announces the product; the cart is not touched. */
  function AddToCartNotice(p: Product): (r: string)
    ensures |r| > |NameOf(p)| && r[..|NameOf(p)|] == NameOf(p)
  {
    NameOf(p) + " added to cart!"
  }
}
