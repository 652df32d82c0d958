/**
 * The server-rendered marketplace page script: the CSRF cookie lookup, the
 * heart (favourite) buttons and the module-level favourites list with its
 * counter. Responses from the server and `decodeURIComponent` are inputs.
 */
module Marketplace {
  import opened Wrappers
  import opened Text
  import Lists

  // ---------------------------------------------------------------------
  // Cookies
  // ---------------------------------------------------------------------

  /** A trimmed cookie entry carries `name` when it starts with `name=`. */
  predicate Carries(entry: string, name: string) {
    StartsWith(Trim(entry), name + "=")
  }

  /** Index of the first entry carrying `name`, or -1. */
  function FirstCarrying(entries: seq<string>, name: string): int {
    Lists.FindIndex(entries, (e: string) => Carries(e, name))
  }

  /** The value of the first entry carrying `name`, decoded, or none. */
  function EntryValue(entries: seq<string>, name: string, decode: string -> string): Option<string> {
    var k := FirstCarrying(entries, name);
    if k == -1 then None else Some(decode(Trim(entries[k])[|name| + 1..]))
  }

  /** The value `getCookie(name)` returns for the cookie string `cookie`. */
  function CookieValue(cookie: string, name: string, decode: string -> string): Option<string> {
    if cookie == [] then None else EntryValue(Split(cookie, ';'), name, decode)
  }

  /** The first entry carrying the name decides, whatever entries with the same
      name follow it. */
  lemma EntryValueFirstWins(entries: seq<string>, name: string, decode: string -> string, k: nat)
    requires k < |entries| && Carries(entries[k], name)
    requires forall j :: 0 <= j < k ==> !Carries(entries[j], name)
    ensures EntryValue(entries, name, decode) == Some(decode(Trim(entries[k])[|name| + 1..]))
  {
    var r := FirstCarrying(entries, name);
    assert r != -1 && !(r < k) && !(k < r);
  }

  /** Without an entry carrying the name, there is no value. */
  lemma EntryValueNone(entries: seq<string>, name: string, decode: string -> string)
    requires forall j :: 0 <= j < |entries| ==> !Carries(entries[j], name)
    ensures EntryValue(entries, name, decode) == None
  {
  }

  /** No cookies give null; otherwise the first entry carrying the name decides. */
  lemma CookieValueFirstWins(cookie: string, name: string, decode: string -> string, k: nat)
    requires cookie != [] && k < |Split(cookie, ';')| && Carries(Split(cookie, ';')[k], name)
    requires forall j :: 0 <= j < k ==> !Carries(Split(cookie, ';')[j], name)
    ensures CookieValue(cookie, name, decode) == Some(decode(Trim(Split(cookie, ';')[k])[|name| + 1..]))
  {
    EntryValueFirstWins(Split(cookie, ';'), name, decode, k);
  }

  lemma CookieValueEmpty(name: string, decode: string -> string)
    ensures CookieValue("", name, decode) == None
  {
  }

  /** The `for` loop of `getCookie` over the entries, which stops at the first match. */
  method ScanEntries(cookies: seq<string>, name: string, decode: string -> string) returns (cookieValue: Option<string>)
    ensures cookieValue == EntryValue(cookies, name, decode)
  {
    var i := 0;
    while i < |cookies|
      invariant 0 <= i <= |cookies|
      invariant forall j :: 0 <= j < i ==> !Carries(cookies[j], name)
    {
      // The trimmed entry begins with `name=`.
      if Carries(cookies[i], name) {
        var entry := Trim(cookies[i]);
        cookieValue := Some(decode(entry[|name| + 1..]));
        EntryValueFirstWins(cookies, name, decode, i);
        return;
      }
      i := i + 1;
    }
    cookieValue := None;
    EntryValueNone(cookies, name, decode);
  }

  /** `getCookie`: null without cookies, otherwise the scan of the `;`-separated entries. */
  method GetCookie(cookie: string, name: string, decode: string -> string) returns (cookieValue: Option<string>)
    ensures cookieValue == CookieValue(cookie, name, decode)
  {
    cookieValue := None;
    if cookie != [] {
      cookieValue := ScanEntries(Split(cookie, ';'), name, decode);
    }
  }

  // ---------------------------------------------------------------------
  // Favourites
  // ---------------------------------------------------------------------

  /** A heart button is drawn active iff its product is a favourite. */
  predicate HeartActive(favourites: seq<int>, productId: int) {
    productId in favourites
  }

  /** A click asks for the opposite of the current membership. */
  function RequestedStatus(favourites: seq<int>, productId: int): bool {
    productId !in favourites
  }

  function Id(x: int): int {
    x
  }

  /** The list after a successful save: added at the end, or every copy removed. */
  function ApplySave(favourites: seq<int>, productId: int, isFavourite: bool): (r: seq<int>)
    ensures isFavourite ==> r == favourites + [productId]
    ensures !isFavourite ==> productId !in r && forall x :: x in favourites && x != productId ==> x in r
  {
    if isFavourite then favourites + [productId] else Lists.WithoutKey(favourites, Id, productId)
  }

  /** A successful click flips the heart of that product and no other. */
  lemma ClickFlipsHeart(favourites: seq<int>, productId: int, other: int)
    ensures HeartActive(ApplySave(favourites, productId, RequestedStatus(favourites, productId)), productId)
            == !HeartActive(favourites, productId)
    ensures other != productId ==>
      HeartActive(ApplySave(favourites, productId, RequestedStatus(favourites, productId)), other)
      == HeartActive(favourites, other)
  {
    if !RequestedStatus(favourites, productId) && other != productId && other in favourites {
      var i :| 0 <= i < |favourites| && favourites[i] == other;
    }
  }

  /** Two successful clicks on a product that was not a favourite restore the list. */
  lemma TwoClicksRestore(favourites: seq<int>, productId: int)
    requires productId !in favourites
    ensures var once := ApplySave(favourites, productId, RequestedStatus(favourites, productId));
      ApplySave(once, productId, RequestedStatus(once, productId)) == favourites
  {
    Lists.WithoutKeyUndoesAppend(favourites, productId, Id);
    Lists.WithoutKeyAbsent(favourites, Id, productId);
  }

  /** The page script's module-level state. */
  class MarketplacePage {
    var userFavourites: seq<int>
    var cartItemCount: int

    constructor ()
      ensures userFavourites == [] && cartItemCount == 0
    {
      userFavourites := [];
      cartItemCount := 0;
    }

    /** `loadUserFavourites` with the server's answer. */
    method LoadUserFavourites(success: bool, favourites: seq<int>)
      modifies this
      ensures success ==> userFavourites == favourites && cartItemCount == |favourites|
      ensures !success ==> userFavourites == old(userFavourites) && cartItemCount == old(cartItemCount)
    {
      if success {
        userFavourites := favourites;
        cartItemCount := |userFavourites|;
      }
    }

    /** The status a heart click sends for `productId`. */
    method HeartClick(productId: int) returns (isFavourite: bool)
      ensures isFavourite == RequestedStatus(userFavourites, productId)
    {
      isFavourite := !(productId in userFavourites);
    }

    /** The response to `saveFavouriteStatus`: on success the counter takes the
        server's count and the list records the new status. */
    method OnSaveResponse(productId: int, isFavourite: bool, success: bool, newCount: int)
      modifies this
      ensures success ==> cartItemCount == newCount
                          && userFavourites == ApplySave(old(userFavourites), productId, isFavourite)
      ensures !success ==> userFavourites == old(userFavourites) && cartItemCount == old(cartItemCount)
    {
      if success {
        cartItemCount := newCount;
        if isFavourite {
          userFavourites := userFavourites + [productId];
        } else {
          userFavourites := Lists.WithoutKey(userFavourites, Id, productId);
        }
      }
    }
  }
}
