/**
 * The favorites list of the Redux store: items the user has marked, the
 * loading flag of the fetch, and the last fetch error.
 */
module FavoriteSlice {
  import opened Wrappers
  import Lists

  /** A favorited product as the favorites endpoint lists it. */
  datatype Favorite = Favorite(id: int, name: string)

  function FavoriteId(f: Favorite): int {
    f.id
  }

  /** The list after `removeFavorite(id)`. */
  function RemoveFavoriteFrom(items: seq<Favorite>, id: int): (r: seq<Favorite>)
    ensures |r| <= |items|
    ensures forall i :: 0 <= i < |r| ==> r[i].id != id && r[i] in items
    ensures forall i :: 0 <= i < |items| && items[i].id != id ==> items[i] in r
  {
    Lists.WithoutKey(items, FavoriteId, id)
  }

  /** Removal keeps the other favorites in order, every copy of them, and
      removing twice is removing once. */
  lemma RemoveFavoriteProperties(items: seq<Favorite>, id: int)
    ensures Lists.IsSubsequence(RemoveFavoriteFrom(items, id), items)
    ensures forall f: Favorite :: f.id != id ==> multiset(RemoveFavoriteFrom(items, id))[f] == multiset(items)[f]
    ensures RemoveFavoriteFrom(RemoveFavoriteFrom(items, id), id) == RemoveFavoriteFrom(items, id)
  {
    Lists.WithoutKeyOrder(items, FavoriteId, id);
    forall f: Favorite | f.id != id
      ensures multiset(RemoveFavoriteFrom(items, id))[f] == multiset(items)[f]
    {
      Lists.WithoutKeyCounts(items, FavoriteId, id, f);
    }
    Lists.WithoutKeyIdempotent(items, FavoriteId, id);
  }

  /** Removing the favorite just added gives what removing it before would have. */
  lemma RemoveUndoesAdd(items: seq<Favorite>, f: Favorite)
    ensures RemoveFavoriteFrom(items + [f], f.id) == RemoveFavoriteFrom(items, f.id)
  {
    Lists.WithoutKeyUndoesAppend(items, f, FavoriteId);
  }

  class FavoriteStore {
    var items: seq<Favorite>
    var loading: bool
    var error: Option<string>

    constructor ()
      ensures items == [] && !loading && error == None
    {
      items := [];
      loading := false;
      error := None;
    }

    /** `addFavorite`: appended at the end, no duplicate check. */
    method AddFavorite(f: Favorite)
      modifies this
      ensures items == old(items) + [f]
      ensures loading == old(loading) && error == old(error)
    {
      items := items + [f];
    }

    method RemoveFavorite(id: int)
      modifies this
      ensures items == RemoveFavoriteFrom(old(items), id)
      ensures loading == old(loading) && error == old(error)
    {
      items := RemoveFavoriteFrom(items, id);
    }

    method ClearFavorites()
      modifies this
      ensures items == []
      ensures loading == old(loading) && error == old(error)
    {
      items := [];
    }

    /** Only the loading flag changes; a previous error stays. */
    method FetchPending()
      modifies this
      ensures loading && items == old(items) && error == old(error)
    {
      loading := true;
    }

    method FetchFulfilled(payload: seq<Favorite>)
      modifies this
      ensures !loading && items == payload && error == None
    {
      loading := false;
      items := payload;
      error := None;
    }

    method FetchRejected(reason: string)
      modifies this
      ensures !loading && error == Some(reason) && items == old(items)
    {
      loading := false;
      error := Some(reason);
    }
  }
}
