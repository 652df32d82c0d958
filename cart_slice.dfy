/**
 * The cart list of the Redux store. Carts carry a creation time; the client
 * stamps one when the server gives none and whenever it adds a cart itself.
 * The current time is a parameter (an ISO-8601 string).
 */
module CartSlice {
  import opened Wrappers
  import Lists

  /** A cart entry; `createdAt` is missing or empty when the server gave none. */
  datatype Cart = Cart(id: int, productId: int, quantity: int, createdAt: Option<string>)

  function CartId(c: Cart): int {
    c.id
  }

  /** A truthy creation time. */
  predicate HasCreatedAt(c: Cart) {
    c.createdAt.Some? && c.createdAt.value != []
  }

  /** `created_at || now` for one cart. */
  function Stamp(c: Cart, now: string): Cart {
    if HasCreatedAt(c) then c else c.(createdAt := Some(now))
  }

  /** The `fetchCarts` result: every cart, each stamped. */
  function StampAll(carts: seq<Cart>, now: string): (r: seq<Cart>)
    ensures |r| == |carts|
    ensures forall i :: 0 <= i < |carts| ==> r[i] == Stamp(carts[i], now)
  {
    seq(|carts|, i requires 0 <= i < |carts| => Stamp(carts[i], now))
  }

  /** An existing time is kept, a missing one becomes `now`, nothing else changes,
      and stamping is idempotent. */
  lemma StampAllProperties(carts: seq<Cart>, now: string)
    requires now != []
    ensures forall i :: 0 <= i < |carts| ==> HasCreatedAt(StampAll(carts, now)[i])
    ensures forall i :: 0 <= i < |carts| && HasCreatedAt(carts[i]) ==> StampAll(carts, now)[i] == carts[i]
    ensures forall i :: 0 <= i < |carts| && !HasCreatedAt(carts[i]) ==>
              StampAll(carts, now)[i] == carts[i].(createdAt := Some(now))
    ensures forall later :: StampAll(StampAll(carts, now), later) == StampAll(carts, now)
  {
  }

  /** The list after `removeCart(id)`. */
  function RemoveCartFrom(items: seq<Cart>, id: int): (r: seq<Cart>)
    ensures |r| <= |items|
    ensures forall i :: 0 <= i < |r| ==> r[i].id != id && r[i] in items
    ensures forall i :: 0 <= i < |items| && items[i].id != id ==> items[i] in r
  {
    Lists.WithoutKey(items, CartId, id)
  }

  lemma RemoveCartProperties(items: seq<Cart>, id: int)
    ensures Lists.IsSubsequence(RemoveCartFrom(items, id), items)
    ensures forall c: Cart :: c.id != id ==> multiset(RemoveCartFrom(items, id))[c] == multiset(items)[c]
    ensures RemoveCartFrom(RemoveCartFrom(items, id), id) == RemoveCartFrom(items, id)
  {
    Lists.WithoutKeyOrder(items, CartId, id);
    forall c: Cart | c.id != id
      ensures multiset(RemoveCartFrom(items, id))[c] == multiset(items)[c]
    {
      Lists.WithoutKeyCounts(items, CartId, id, c);
    }
    Lists.WithoutKeyIdempotent(items, CartId, id);
  }

  class CartStore {
    var items: seq<Cart>
    var loading: bool
    var error: Option<string>

    constructor ()
      ensures items == [] && !loading && error == None
    {
      items := [];
      loading := false;
      error := None;
    }

    /** `addCart`: appended with its creation time overwritten by `now`. */
    method AddCart(c: Cart, now: string)
      modifies this
      ensures items == old(items) + [c.(createdAt := Some(now))]
      ensures loading == old(loading) && error == old(error)
    {
      items := items + [c.(createdAt := Some(now))];
    }

    method RemoveCart(id: int)
      modifies this
      ensures items == RemoveCartFrom(old(items), id)
      ensures loading == old(loading) && error == old(error)
    {
      items := RemoveCartFrom(items, id);
    }

    method ClearCarts()
      modifies this
      ensures items == []
      ensures loading == old(loading) && error == old(error)
    {
      items := [];
    }

    method FetchPending()
      modifies this
      ensures loading && items == old(items) && error == old(error)
    {
      loading := true;
    }

    /** The thunk's payload is the stamped server list. */
    method FetchFulfilled(payload: seq<Cart>)
      modifies this
      ensures !loading && items == payload && error == None
    {
      loading := false;
      items := payload;
      error := None;
    }

    method FetchRejected(reason: string)
      modifies this
      ensures !loading && error == Some(reason) && items == old(items)
    {
      loading := false;
      error := Some(reason);
    }
  }
}
