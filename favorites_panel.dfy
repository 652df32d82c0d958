/**
 * The favorites drop-down: the name search over the store's favorites and
 * the remove button, which asks the server first and updates the store only
 * when the server agreed. Whether the request succeeded is an input.
 */
module FavoritesPanel {
  import opened Text
  import Lists
  import opened FavoriteSlice

  predicate NameMatches(f: Favorite, term: string) {
    ContainsIgnoringCase(f.name, term)
  }

  function FilteredFavorites(items: seq<Favorite>, term: string): (r: seq<Favorite>)
    ensures forall i :: 0 <= i < |r| ==> NameMatches(r[i], term) && r[i] in items
    ensures forall i :: 0 <= i < |items| && NameMatches(items[i], term) ==> items[i] in r
  {
    Lists.Filter(items, (f: Favorite) => NameMatches(f, term))
  }

  /** The matches keep the store's order, and an empty search shows every favorite. */
  lemma FilteredFavoritesOrder(items: seq<Favorite>, term: string)
    ensures Lists.IsSubsequence(FilteredFavorites(items, term), items)
    ensures term == [] ==> FilteredFavorites(items, term) == items
  {
    Lists.FilterIsSubsequence(items, (f: Favorite) => NameMatches(f, term));
    if term == [] {
      forall i | 0 <= i < |items| ensures NameMatches(items[i], term) {
        ContainsIgnoringCaseEmpty(items[i].name);
      }
      Lists.FilterAll(items, (f: Favorite) => NameMatches(f, term));
    }
  }

  /** `handleRemoveFavorite`: nothing without a session; otherwise the DELETE
      request is sent (`requested`) and the store drops the product only if the
      request succeeded. */
  method HandleRemoveFavorite(store: FavoriteStore, productId: int, isAuthenticated: bool, deleteSucceeded: bool)
    returns (requested: bool)
    modifies store
    ensures requested == isAuthenticated
    ensures isAuthenticated && deleteSucceeded ==> store.items == RemoveFavoriteFrom(old(store.items), productId)
    ensures !(isAuthenticated && deleteSucceeded) ==> store.items == old(store.items)
    ensures store.loading == old(store.loading) && store.error == old(store.error)
  {
    if !isAuthenticated {
      return false;
    }
    requested := true;
    if deleteSucceeded {
      store.RemoveFavorite(productId);
    }
  }
}
