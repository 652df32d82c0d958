/**
 * The seller dashboard's product list: the search over names and
 * descriptions, and deletion behind a typed "DELETE" confirmation. The
 * delete request is an input: whether the server accepted it.
 */
module ProductsTab {
  import opened Wrappers
  import opened Text
  import Lists

  datatype Product = Product(id: int, name: string, description: string)

  const ConfirmationWord := "DELETE"

  /** The name or the description contains the search term, ignoring case. */
  predicate MatchesSearch(p: Product, term: string) {
    ContainsIgnoringCase(p.name, term) || ContainsIgnoringCase(p.description, term)
  }

  function VisibleProducts(products: seq<Product>, term: string): (r: seq<Product>)
    ensures forall i :: 0 <= i < |r| ==> MatchesSearch(r[i], term) && r[i] in products
    ensures forall i :: 0 <= i < |products| && MatchesSearch(products[i], term) ==> products[i] in r
  {
    Lists.Filter(products, (p: Product) => MatchesSearch(p, term))
  }

  /** The visible products keep the list's order, and an empty term shows all. */
  lemma VisibleProductsOrder(products: seq<Product>, term: string)
    ensures Lists.IsSubsequence(VisibleProducts(products, term), products)
    ensures term == [] ==> VisibleProducts(products, term) == products
  {
    Lists.FilterIsSubsequence(products, (p: Product) => MatchesSearch(p, term));
    if term == [] {
      forall i | 0 <= i < |products| ensures MatchesSearch(products[i], term) {
        ContainsIgnoringCaseEmpty(products[i].name);
      }
      Lists.FilterAll(products, (p: Product) => MatchesSearch(p, term));
    }
  }

  /** The confirm button acts only on the exact word, and not while deleting. */
  predicate ConfirmEnabled(confirmationText: string, isDeleting: bool) {
    confirmationText == ConfirmationWord && !isDeleting
  }

  function ProductId(p: Product): int {
    p.id
  }

  /** The list after the server deleted product `id`. */
  function WithoutProduct(products: seq<Product>, id: int): (r: seq<Product>)
    ensures forall i :: 0 <= i < |r| ==> r[i].id != id && r[i] in products
    ensures forall i :: 0 <= i < |products| && products[i].id != id ==> products[i] in r
  {
    Lists.WithoutKey(products, ProductId, id)
  }

  /** Removal keeps the other products, each as often as before and in order. */
  lemma WithoutProductProperties(products: seq<Product>, id: int, other: Product)
    ensures Lists.IsSubsequence(WithoutProduct(products, id), products)
    ensures other.id != id ==> multiset(WithoutProduct(products, id))[other] == multiset(products)[other]
    ensures WithoutProduct(WithoutProduct(products, id), id) == WithoutProduct(products, id)
  {
    Lists.WithoutKeyOrder(products, ProductId, id);
    if other.id != id {
      Lists.WithoutKeyCounts(products, ProductId, id, other);
    }
    Lists.WithoutKeyIdempotent(products, ProductId, id);
  }

  class ProductsTabState {
    var products: seq<Product>
    var deleteModalOpen: bool
    var productToDelete: Option<Product>
    var isDeleting: bool

    constructor (initial: seq<Product>)
      ensures products == initial && !deleteModalOpen && productToDelete == None && !isDeleting
    {
      products := initial;
      deleteModalOpen := false;
      productToDelete := None;
      isDeleting := false;
    }

    method HandleDeleteClick(p: Product)
      modifies this
      ensures productToDelete == Some(p) && deleteModalOpen
      ensures products == old(products) && isDeleting == old(isDeleting)
    {
      productToDelete := Some(p);
      deleteModalOpen := true;
    }

    /** `handleDeleteConfirm`; `deleted` says whether the DELETE request succeeded. */
    method HandleDeleteConfirm(deleted: bool)
      modifies this
      ensures old(productToDelete) == None ==>
        products == old(products) && deleteModalOpen == old(deleteModalOpen)
        && productToDelete == None && isDeleting == old(isDeleting)
      ensures old(productToDelete).Some? && deleted ==>
        products == WithoutProduct(old(products), old(productToDelete).value.id)
        && !deleteModalOpen && productToDelete == None && !isDeleting
      ensures old(productToDelete).Some? && !deleted ==>
        products == old(products) && deleteModalOpen == old(deleteModalOpen)
        && productToDelete == old(productToDelete) && !isDeleting
    {
      if productToDelete.None? {
        return;
      }
      isDeleting := true;
      if deleted {
        products := WithoutProduct(products, productToDelete.value.id);
        deleteModalOpen := false;
        productToDelete := None;
      }
      isDeleting := false;
    }

    /** The modal's confirm button: it calls `handleDeleteConfirm` only when the
        typed text is exactly the confirmation word and no deletion is running. */
    method ConfirmClick(confirmationText: string, deleted: bool)
      modifies this
      ensures !ConfirmEnabled(confirmationText, old(isDeleting)) ==>
        products == old(products) && deleteModalOpen == old(deleteModalOpen)
        && productToDelete == old(productToDelete) && isDeleting == old(isDeleting)
      ensures ConfirmEnabled(confirmationText, old(isDeleting)) && old(productToDelete).Some? && deleted ==>
        products == WithoutProduct(old(products), old(productToDelete).value.id)
        && !deleteModalOpen && productToDelete == None && !isDeleting
      ensures ConfirmEnabled(confirmationText, old(isDeleting)) && !(old(productToDelete).Some? && deleted) ==>
        products == old(products) && deleteModalOpen == old(deleteModalOpen)
        && productToDelete == old(productToDelete) && !isDeleting
    {
      if ConfirmEnabled(confirmationText, isDeleting) {
        HandleDeleteConfirm(deleted);
      }
    }

    method HandleDeleteCancel()
      modifies this
      ensures !deleteModalOpen && productToDelete == None
      ensures products == old(products) && isDeleting == old(isDeleting)
    {
      deleteModalOpen := false;
      productToDelete := None;
    }
  }
}
